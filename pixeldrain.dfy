/** pixeldrain.py: a client built from an API key, a single PUT streamed from the file,
    and the rules that turn the reply's status and text into a page link. */
module PixelDrain {
  import opened Results
  import opened PyValues
  import opened Http
  import Base64

  const ApiUrl: string := "https://pixeldrain.com/api"
  const PagePrefix: string := "https://pixeldrain.com/u/"

  const KeyRequiredMessage: string :=
    "PixelDrain API Key is required! Get it from https://pixeldrain.com/api"
  const FolderMessage: string := "Ga support upload Folder!"
  const NoIdMessage: string := "Could not extract file ID from response"
  const UnexpectedStatusMessage: string := "Upload failed - unexpected response status"
  const FailedMessage: string := "Failed to upload file to PixelDrain"

  function NotFoundMessage(filePath: string): string {
    "File not found: " + filePath
  }

  function StatusMessage(status: int): string {
    "Upload failed with status " + IntToString(status)
  }

  /** A constructed client: its key and the `Authorization` header it sends. */
  datatype Client = Client(apiKey: string, authHeader: string)

  /** The constructor: an empty key raises; otherwise the header is HTTP Basic with an empty
      user-id and the key as password (section 2 of RFC 7617): "Basic " followed by the
      base64 of the UTF-8 bytes of ":" + key. Canonical base64 text is determined by the
      bytes it decodes to (`Base64.CanonicalUnique`), so the two last clauses fix the header. */
  function New(apiKey: string): (r: Result<Client>)
    ensures r.Err? <==> apiKey == ""
    ensures r.Err? ==> r.msg == KeyRequiredMessage
    ensures r.Ok? ==> r.value.apiKey == apiKey
    ensures r.Ok? ==> |r.value.authHeader| >= 6 && r.value.authHeader[..6] == "Basic " &&
                      Base64.Decode(r.value.authHeader[6..]) == [0x3A] + Base64.Utf8(apiKey)
    ensures r.Ok? ==> Base64.Canonical(r.value.authHeader[6..])
  {
    if apiKey == "" then Err(KeyRequiredMessage)
    else
      var credentials := Base64.Utf8(":" + apiKey);
      var header := "Basic " + Base64.Encode(credentials);
      Base64.RoundTrip(credentials);
      Base64.Utf8Append(":", apiKey);
      Base64.EncodeCanonical(credentials);
      assert Base64.Utf8(":") == [0x3A];
      assert header[6..] == Base64.Encode(credentials);
      Ok(Client(apiKey, header))
  }

  /** What the PUT produced: the status, the body text, and what `json.loads` makes of that
      text (None when it raises JSONDecodeError); or the exception raised on the way. */
  datatype Reply = Replied(status: int, text: string, decoded: Option<Json>) | Failed(msg: string)

  /** The plain-text id: the text with surrounding whitespace, then surrounding double
      quotes, removed. */
  function PlainId(text: string): string {
    Strip(Strip(text, WhiteSpace), {'"'})
  }

  /** The status and body rules of `upload_file` (pixeldrain.py lines 46-74). A status of
      400 or more raises with the status only: the message raised from the server's reply
      inside the bare `except` is swallowed by it. */
  function ReplyUrl(status: int, text: string, decoded: Option<Json>): (r: Result<string>)
    ensures status >= 400 ==> r == Err(StatusMessage(status))
    ensures status < 400 && status != 201 ==> r == Err(UnexpectedStatusMessage)
    ensures r.Ok? ==> status == 201 && |r.value| > |PagePrefix| &&
                      r.value[..|PagePrefix|] == PagePrefix
    ensures status == 201 && decoded.Some? && !decoded.value.JObj? ==>
      r == Err(NoGetMessage(decoded.value))
    ensures status == 201 && decoded.Some? && decoded.value.JObj? ==>
      r == (var id := Lookup(decoded.value.fields, "id");
            if TruthyOpt(id) then Ok(PagePrefix + Str(id.value)) else Err(NoIdMessage))
    ensures status == 201 && decoded.None? ==>
      r == if PlainId(text) != [] then Ok(PagePrefix + PlainId(text)) else Err(NoIdMessage)
  {
    if status >= 400 then Err(StatusMessage(status))
    else if status == 201 then
      match decoded
      case Some(v) =>
        if !v.JObj? then Err(NoGetMessage(v))
        else
          var id := Lookup(v.fields, "id");
          if TruthyOpt(id) then
            TruthyStrNonEmpty(id.value);
            Ok(PagePrefix + Str(id.value))
          else Err(NoIdMessage)
      case None =>
        var id := PlainId(text);
        if id != [] then Ok(PagePrefix + id) else Err(NoIdMessage)
    else Err(UnexpectedStatusMessage)
  }

  /** A truthy value prints as a non-empty text. */
  lemma TruthyStrNonEmpty(j: Json)
    requires Truthy(j)
    ensures Str(j) != []
  {
    if j.JNum? {
      if j.n < 0 {
        assert IntToString(j.n) == "-" + NatToString(-j.n);
      }
    }
  }

  /** An id taken from plain text is a slice of that text whose ends are not double quotes
      and whose margins hold only whitespace and double quotes. (Whitespace inside the
      quotes survives: the text `" abc"` gives the id ` abc`.) */
  lemma PlainIdIsTrimmed(text: string)
    ensures var id := PlainId(text); id == [] || (id[0] != '"' && id[|id| - 1] != '"')
    ensures exists i: nat :: TrimmedAt(text, WhiteSpace + {'"'}, i, PlainId(text))
  {
    StripTwice(text, WhiteSpace, {'"'});
  }

  /** A reply body that is a quoted id such as `"abc"` is valid JSON: it decodes to a
      string, and calling `.get` on a string raises, so the quote-stripping path is only
      taken for text that is not JSON at all. */
  lemma JsonStringBodyRaises(text: string, v: string)
    ensures ReplyUrl(201, text, Some(JStr(v))) == Err("'str' object has no attribute 'get'")
  {
    var body := JStr(v);
    assert !body.JObj?;
    assert ReplyUrl(201, text, Some(body)) == Err(NoGetMessage(body));
    StrNoGetMessage(v);
  }

  /** The AttributeError text for a string, spelled out. */
  lemma StrNoGetMessage(v: string)
    ensures NoGetMessage(JStr(v)) == "'str' object has no attribute 'get'"
  {
    var m, t := NoGetMessage(JStr(v)), "'str' object has no attribute 'get'";
    assert m == "'" + "str" + "' object has no attribute 'get'";
    assert |m| == |t|;
    assert forall i :: 0 <= i < |m| ==> m[i] == t[i];
  }

  /** The PUT the client sends for a path. */
  function PutRequest(c: Client, filePath: string): Request {
    Request("PUT", ApiUrl + "/file/" + Basename(filePath),
            [("Authorization", c.authHeader), ("Content-Type", "application/octet-stream")],
            None)
  }

  /** `upload_file`: the existence check, the cancellation check, then the PUT. The upload
      streams through a reader whose callback is the session's `_PixelDrain__progress_callback`;
      `last_uploaded` is not reset first. */
  function FileRun(c: Client, filePath: string, pathExists: bool, cancelled: bool, reply: Reply)
    : Run<string>
  {
    if !pathExists then Run(Raised(NotFoundMessage(filePath)), [])
    else if cancelled then Run(Returned(None), [])
    else
      var sent := [PutRequest(c, filePath)];
      match reply
      case Failed(msg) => Run(Raised(msg), sent)
      case Replied(status, text, decoded) =>
        match ReplyUrl(status, text, decoded)
        case Ok(url) => Run(Returned(Some(url)), sent)
        case Err(msg) => Run(Raised(msg), sent)
  }

  /** `upload`: folders are refused; for a file, a link is returned when `upload_file` gave
      one, and otherwise the cancellation flag, sampled again, decides between None and an
      error. */
  function UploadRun(c: Client, filePath: string, isFile: bool, pathExists: bool,
                     cancelledInFile: bool, cancelledAfter: bool, reply: Reply): Run<string>
  {
    if !isFile then Run(Raised(FolderMessage), [])
    else
      var f := FileRun(c, filePath, pathExists, cancelledInFile, reply);
      if f.outcome.Returned? && f.outcome.link.None? then
        if cancelledAfter then f else Run(Raised(FailedMessage), f.sent)
      else f
  }

  /** None of the reply rules' messages, nor the missing-file message, reads "Failed to
      upload file to PixelDrain". */
  lemma RuleMessagesAreNotFailed(status: int, text: string, decoded: Option<Json>, filePath: string)
    ensures ReplyUrl(status, text, decoded).Err? ==> ReplyUrl(status, text, decoded).msg != FailedMessage
    ensures NotFoundMessage(filePath) != FailedMessage
  {
    assert FailedMessage[0] == 'F' && FailedMessage[1] == 'a';
    assert NotFoundMessage(filePath)[1] == 'i';
    var r := ReplyUrl(status, text, decoded);
    if r.Err? {
      assert r.msg[0] != 'F';
    }
  }

  /** What `upload` can end in: a folder is refused without a request; for a file, a page
      link comes back exactly when the reply passes the rules, None exactly when the flag
      was up before the PUT (and nothing was sent), and an error otherwise. As the flag is
      never lowered, "Failed to upload file to PixelDrain" can only be a connection error's
      own text. */
  lemma {:induction false} UploadOutcomes(c: Client, filePath: string, isFile: bool,
                                          pathExists: bool, c1: bool, c2: bool, reply: Reply)
    requires c1 ==> c2
    ensures !isFile ==> UploadRun(c, filePath, isFile, pathExists, c1, c2, reply) ==
                        Run(Raised(FolderMessage), [])
    ensures var r := UploadRun(c, filePath, isFile, pathExists, c1, c2, reply);
      isFile ==>
        (r.outcome.Returned? && r.outcome.link.Some? <==>
           pathExists && !c1 && reply.Replied? &&
           ReplyUrl(reply.status, reply.text, reply.decoded).Ok?) &&
        (r.outcome == Returned(None) <==> pathExists && c1) &&
        (r.outcome == Returned(None) ==> r.sent == []) &&
        (r.outcome == Raised(FailedMessage) ==> reply == Failed(FailedMessage))
  {
    if reply.Replied? {
      RuleMessagesAreNotFailed(reply.status, reply.text, reply.decoded, filePath);
    } else {
      RuleMessagesAreNotFailed(0, "", None, filePath);
    }
  }
}
