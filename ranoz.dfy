/** ranoz.py: a key check against the account endpoint, then a two-step upload — a POST that
    asks for a pre-signed upload URL, and a PUT of the file to that URL — with the page link
    taken from the first step's answer. */
module Ranoz {
  import opened Results
  import opened PyValues
  import opened Http
  import opened Session

  const ApiUrl: string := "https://ranoz.gg/api/v1"
  const AccountUrl: string := "https://ranoz.gg/api/v1/account"
  const PagePrefix: string := "https://ranoz.gg/"

  const KeyRequiredMessage: string := "Ranoz API key is required!"
  const InvalidKeyMessage: string := "Invalid Ranoz API Key, please check your account!"
  const FolderMessage: string := "Ranoz doesn't support folder uploads!"
  const FailedMessage: string := "Failed to upload file to Ranoz"
  const NoDataMessage: string := "No data in upload URL response"
  const NoUploadUrlMessage: string := "No upload URL in response"
  const NoFileUrlMessage: string := "Could not extract file URL from response"

  function NotFoundMessage(filePath: string): string {
    "File not found: " + filePath
  }

  function TicketStatusMessage(status: int): string {
    "Failed to get upload URL: " + IntToString(status)
  }

  /** How a key that may be None reads inside an f-string. */
  function KeyText(apiKey: Option<string>): string {
    if apiKey.Some? then apiKey.value else "None"
  }

  function AccountRequest(token: string): Request {
    Request("GET", AccountUrl, [("Authorization", "Bearer " + token)], None)
  }

  /** `is_ranozapi`: None is refused without a request; otherwise the account endpoint decides,
      and only a 200 whose body decodes to a dict can pass, with the value of its "success"
      entry (False when it has none). Every exception on the way gives False. */
  function IsRanozApi(token: Option<string>, reply: Exchange): (r: Json)
    ensures token.None? ==> r == JBool(false)
    ensures reply.ConnectionFailed? ==> r == JBool(false)
    ensures reply.Responded? && reply.status != 200 ==> r == JBool(false)
    ensures Truthy(r) <==>
      token.Some? && reply.Responded? && reply.status == 200 && reply.body.JsonBody? &&
      reply.body.value.JObj? && TruthyOpt(Lookup(reply.body.value.fields, "success"))
    ensures reply.Responded? && reply.status == 200 && !(reply.body.JsonBody? && reply.body.value.JObj?) ==>
      r == JBool(false)
    ensures token.Some? && reply.Responded? && reply.status == 200 && reply.body.JsonBody? &&
            reply.body.value.JObj? ==>
      r == (var success := Lookup(reply.body.value.fields, "success");
            if success.Some? then success.value else JBool(false))
  {
    if token.None? then JBool(false)
    else
      match reply
      case ConnectionFailed(_) => JBool(false)
      case Responded(status, body) =>
        if status != 200 then JBool(false)
        else if !body.JsonBody? || !body.value.JObj? then JBool(false)
        else
          var success := Lookup(body.value.fields, "success");
          if success.Some? then success.value else JBool(false)
  }

  /** What the first step yields: the "data" dict and its upload URL. */
  datatype Ticket = Ticket(fileData: seq<(string, Json)>, uploadUrl: Json)

  /** The POST asking for a pre-signed URL, with the file's name and size as JSON. */
  function TicketRequest(filePath: string, apiKey: Option<string>, fileSize: nat): Request {
    Request("POST", ApiUrl + "/files/upload_url",
            [("Authorization", "Bearer " + KeyText(apiKey)), ("Content-Type", "application/json")],
            Some(JObj([("filename", JStr(Basename(filePath))), ("size", JNum(fileSize))])))
  }

  /** The first step's answer read as ranoz.py lines 70-86 read it: a status other than 200,
      a body that does not decode, a value that is not a dict, a falsy "data", a "data" that
      is not a dict and a falsy "upload_url" each raise, in that order. */
  function TicketOf(reply: Exchange): (r: Result<Ticket>)
    ensures reply.ConnectionFailed? ==> r == Err(reply.msg)
    ensures reply.Responded? && reply.status != 200 ==> r == Err(TicketStatusMessage(reply.status))
    ensures reply.Responded? && reply.status == 200 && reply.body.JsonBody? &&
            reply.body.value.JObj? && !TruthyOpt(Lookup(reply.body.value.fields, "data")) ==>
            r == Err(NoDataMessage)
    ensures reply.Responded? && reply.status == 200 && !reply.body.JsonBody? ==>
            r == Err(reply.body.decodeError)
    ensures reply.Responded? && reply.status == 200 && reply.body.JsonBody? &&
            !reply.body.value.JObj? ==>
            r == Err(NoGetMessage(reply.body.value))
    ensures reply.Responded? && reply.status == 200 && reply.body.JsonBody? &&
            reply.body.value.JObj? &&
            (var data := Lookup(reply.body.value.fields, "data");
             TruthyOpt(data) && !data.value.JObj?) ==>
            r == Err(NoGetMessage(Lookup(reply.body.value.fields, "data").value))
    ensures reply.Responded? && reply.status == 200 && reply.body.JsonBody? &&
            reply.body.value.JObj? &&
            (var data := Lookup(reply.body.value.fields, "data");
             TruthyOpt(data) && data.value.JObj? && !TruthyOpt(Lookup(data.value.fields, "upload_url"))) ==>
            r == Err(NoUploadUrlMessage)
    ensures r.Ok? <==>
      reply.Responded? && reply.status == 200 && reply.body.JsonBody? &&
      reply.body.value.JObj? &&
      var data := Lookup(reply.body.value.fields, "data");
      TruthyOpt(data) && data.value.JObj? &&
      TruthyOpt(Lookup(data.value.fields, "upload_url"))
    ensures r.Ok? ==>
      Lookup(reply.body.value.fields, "data") == Some(JObj(r.value.fileData)) &&
      Lookup(r.value.fileData, "upload_url") == Some(r.value.uploadUrl) &&
      Truthy(r.value.uploadUrl)
  {
    match reply
    case ConnectionFailed(msg) => Err(msg)
    case Responded(status, body) =>
      if status != 200 then Err(TicketStatusMessage(status))
      else
        match body
        case TextBody(_, err) => Err(err)
        case MalformedJson(err) => Err(err)
        case JsonBody(v) =>
          match Get(v, "data")
          case Err(msg) => Err(msg)
          case Ok(data) =>
            if !TruthyOpt(data) then Err(NoDataMessage)
            else
              match Get(data.value, "upload_url")
              case Err(msg) => Err(msg)
              case Ok(uploadUrl) =>
                if !TruthyOpt(uploadUrl) then Err(NoUploadUrlMessage)
                else Ok(Ticket(data.value.fields, uploadUrl.value))
  }

  /** The PUT of the file to the pre-signed URL, declaring the size as Content-Length. */
  function PutRequest(uploadUrl: Json, fileSize: nat): Request {
    Request("PUT", Str(uploadUrl), [("Content-Length", IntToString(fileSize))], None)
  }

  /** The Content-Length header reads back as the file's size. */
  lemma ContentLengthIsSize(uploadUrl: Json, fileSize: nat)
    ensures var h := PutRequest(uploadUrl, fileSize).headers;
      |h| == 1 && h[0].0 == "Content-Length" &&
      (forall i :: 0 <= i < |h[0].1| ==> '0' <= h[0].1[i] <= '9') &&
      DecimalValue(h[0].1) == fileSize
  {
    NatToStringRoundTrip(fileSize);
  }

  /** Python's `a or b`: a when it is truthy, b otherwise. */
  function Or(a: Option<Json>, b: Option<Json>): (r: Option<Json>)
    ensures TruthyOpt(r) <==> TruthyOpt(a) || TruthyOpt(b)
    ensures TruthyOpt(a) ==> r == a
    ensures !TruthyOpt(a) ==> r == b
  {
    if TruthyOpt(a) then a else b
  }

  /** The page link from the first step's "data": its "url" or else its "download_url" when
      one is truthy, otherwise the site address followed by the first truthy of "id",
      "file_id" and "key"; with none of the five truthy, an error. */
  function DownloadUrl(fileData: seq<(string, Json)>): (r: Result<Json>)
    ensures r.Ok? ==> Truthy(r.value)
    ensures r.Err? ==> r.msg == NoFileUrlMessage
  {
    var fileId := Or(Or(Lookup(fileData, "id"), Lookup(fileData, "file_id")), Lookup(fileData, "key"));
    var fileUrl := Or(Lookup(fileData, "url"), Lookup(fileData, "download_url"));
    if TruthyOpt(fileUrl) then Ok(fileUrl.value)
    else if TruthyOpt(fileId) then Ok(JStr(PagePrefix + Str(fileId.value)))
    else Err(NoFileUrlMessage)
  }

  /** The order of preference among the five entries, and when there is no link at all. */
  lemma DownloadUrlPreference(fileData: seq<(string, Json)>)
    ensures var url := Lookup(fileData, "url"); var dl := Lookup(fileData, "download_url");
      var id := Lookup(fileData, "id"); var fid := Lookup(fileData, "file_id");
      var key := Lookup(fileData, "key");
      var r := DownloadUrl(fileData);
      (TruthyOpt(url) ==> r == Ok(url.value)) &&
      (!TruthyOpt(url) && TruthyOpt(dl) ==> r == Ok(dl.value)) &&
      (!TruthyOpt(url) && !TruthyOpt(dl) && TruthyOpt(id) ==>
         r == Ok(JStr(PagePrefix + Str(id.value)))) &&
      (!TruthyOpt(url) && !TruthyOpt(dl) && !TruthyOpt(id) && TruthyOpt(fid) ==>
         r == Ok(JStr(PagePrefix + Str(fid.value)))) &&
      (!TruthyOpt(url) && !TruthyOpt(dl) && !TruthyOpt(id) && !TruthyOpt(fid) && TruthyOpt(key) ==>
         r == Ok(JStr(PagePrefix + Str(key.value)))) &&
      (r.Err? <==> !TruthyOpt(url) && !TruthyOpt(dl) && !TruthyOpt(id) && !TruthyOpt(fid) &&
                   !TruthyOpt(key))
  {
  }

  /** `upload_file`: the existence check, the first cancellation check, the first step, the
      second cancellation check, the PUT, and the link from the first step's answer. The
      PUT's own answer is ignored: only an exception from it (a RetryError once its three
      attempts have raised) stops the upload. */
  function FileRun(filePath: string, apiKey: Option<string>, fileSize: nat, pathExists: bool,
                   cancelledBefore: bool, cancelledBetween: bool, ticket: Exchange,
                   put: Result<Option<Json>>): Run<Json>
  {
    if !pathExists then Run(Raised(NotFoundMessage(filePath)), [])
    else if cancelledBefore then Run(Returned(None), [])
    else
      var first := [TicketRequest(filePath, apiKey, fileSize)];
      match TicketOf(ticket)
      case Err(msg) => Run(Raised(msg), first)
      case Ok(t) =>
        if cancelledBetween then Run(Returned(None), first)
        else
          var sent := first + [PutRequest(t.uploadUrl, fileSize)];
          if put.Err? then Run(Raised(put.msg), sent)
          else
            match DownloadUrl(t.fileData)
            case Ok(url) => Run(Returned(Some(url)), sent)
            case Err(msg) => Run(Raised(msg), sent)
  }

  /** Whatever the PUT answered, as long as it did not raise, the outcome is the same: a PUT
      that returned None (a rejected status) still yields the link. */
  lemma PutAnswerIgnored(filePath: string, apiKey: Option<string>, fileSize: nat,
                         pathExists: bool, c1: bool, c2: bool, ticket: Exchange,
                         a: Option<Json>, b: Option<Json>)
    ensures FileRun(filePath, apiKey, fileSize, pathExists, c1, c2, ticket, Ok(a)) ==
            FileRun(filePath, apiKey, fileSize, pathExists, c1, c2, ticket, Ok(b))
  {
  }

  /** The first step answering `{"data": {"upload_url": "https://x/y", "id": "abc"}}` and a
      PUT that returned None give the page "https://ranoz.gg/abc", after the POST and a PUT
      to "https://x/y". */
  lemma ExampleUpload(filePath: string, apiKey: Option<string>, fileSize: nat)
    ensures var data := JObj([("upload_url", JStr("https://x/y")), ("id", JStr("abc"))]);
      var ticket := Responded(200, JsonBody(JObj([("data", data)])));
      var r := FileRun(filePath, apiKey, fileSize, true, false, false, ticket, Ok(None));
      r.outcome == Returned(Some(JStr("https://ranoz.gg/abc"))) &&
      |r.sent| == 2 && r.sent[0] == TicketRequest(filePath, apiKey, fileSize) &&
      r.sent[1].verb == "PUT" && r.sent[1].url == "https://x/y"
  {
    var fields := [("upload_url", JStr("https://x/y")), ("id", JStr("abc"))];
    assert Lookup([("data", JObj(fields))], "data") == Some(JObj(fields));
    assert Lookup(fields, "upload_url") == Some(JStr("https://x/y"));
    assert Lookup(fields, "id") == Some(JStr("abc"));
    assert Lookup(fields, "url") == None;
    assert Lookup(fields, "download_url") == None;
    var ticket := Responded(200, JsonBody(JObj([("data", JObj(fields))])));
    assert TicketOf(ticket) == Ok(Ticket(fields, JStr("https://x/y")));
    assert DownloadUrl(fields) == Ok(JStr(PagePrefix + "abc"));
    assert PagePrefix + "abc" == "https://ranoz.gg/abc";
  }

  /** Whether the key is present in the sense of `if not self.api_key`. */
  predicate HasKey(apiKey: Option<string>) {
    apiKey.Some? && apiKey.value != ""
  }

  /** `upload`: a missing key, a key the account endpoint does not accept and a folder are
      refused in that order; a file is uploaded, and when no link comes back the cancellation
      flag, sampled a third time, decides between None and an error. */
  function UploadRun(filePath: string, apiKey: Option<string>, account: Exchange, isFile: bool,
                     pathExists: bool, fileSize: nat, c1: bool, c2: bool, c3: bool,
                     ticket: Exchange, put: Result<Option<Json>>): Run<Json>
  {
    if !HasKey(apiKey) then Run(Raised(KeyRequiredMessage), [])
    else
      var checked := [AccountRequest(apiKey.value)];
      if !Truthy(IsRanozApi(apiKey, account)) then Run(Raised(InvalidKeyMessage), checked)
      else if !isFile then Run(Raised(FolderMessage), checked)
      else
        var f := FileRun(filePath, apiKey, fileSize, pathExists, c1, c2, ticket, put);
        var sent := checked + f.sent;
        if f.outcome.Raised? then Run(f.outcome, sent)
        else if f.outcome.link.Some? && Truthy(f.outcome.link.value) then Run(f.outcome, sent)
        else if c3 then Run(Returned(None), sent)
        else Run(Raised(FailedMessage), sent)
  }

  /** The guards of `upload` come first and in order, whatever follows them. */
  lemma GuardOrder(filePath: string, apiKey: Option<string>, account: Exchange,
                   isFile: bool, pathExists: bool, fileSize: nat,
                   c1: bool, c2: bool, c3: bool, ticket: Exchange,
                   put: Result<Option<Json>>)
    ensures var r := UploadRun(filePath, apiKey, account, isFile, pathExists, fileSize, c1, c2, c3, ticket, put);
      (!HasKey(apiKey) <==> r == Run(Raised(KeyRequiredMessage), [])) &&
      (HasKey(apiKey) && !Truthy(IsRanozApi(apiKey, account)) ==>
         r == Run(Raised(InvalidKeyMessage), [AccountRequest(apiKey.value)])) &&
      (HasKey(apiKey) && Truthy(IsRanozApi(apiKey, account)) && !isFile ==>
         r == Run(Raised(FolderMessage), [AccountRequest(apiKey.value)]))
  {
    if HasKey(apiKey) {
      var r := UploadRun(filePath, apiKey, account, isFile, pathExists, fileSize, c1, c2, c3, ticket, put);
      assert |r.sent| >= 1;
    }
  }

  /** For a file whose key is accepted: a link comes back exactly when `upload_file` produced
      one; None exactly when the flag was up at one of `upload_file`'s two checks, and then
      no PUT was sent; and, the flag never being lowered, "Failed to upload file to Ranoz" is
      only ever an exception raised inside `upload_file` itself. */
  lemma UploadOutcomes(filePath: string, apiKey: Option<string>,
                       account: Exchange, pathExists: bool, fileSize: nat,
                       c1: bool, c2: bool, c3: bool, ticket: Exchange,
                       put: Result<Option<Json>>)
    requires c1 ==> c2
    requires c2 ==> c3
    requires HasKey(apiKey) && Truthy(IsRanozApi(apiKey, account))
    ensures var r := UploadRun(filePath, apiKey, account, true, pathExists, fileSize, c1, c2, c3, ticket, put);
      var f := FileRun(filePath, apiKey, fileSize, pathExists, c1, c2, ticket, put);
      r.sent == [AccountRequest(apiKey.value)] + f.sent &&
      (r.outcome.Returned? && r.outcome.link.Some? <==>
         pathExists && !c1 && TicketOf(ticket).Ok? && !c2 && put.Ok? &&
         DownloadUrl(TicketOf(ticket).value.fileData).Ok?) &&
      (r.outcome == Returned(None) <==>
         pathExists && (c1 || (TicketOf(ticket).Ok? && c2))) &&
      (r.outcome == Returned(None) ==> |r.sent| <= 2) &&
      (r.outcome == Raised(FailedMessage) ==> f.outcome == Raised(FailedMessage))
  {
    FileOutcomes(filePath, apiKey, fileSize, pathExists, c1, c2, ticket, put);
  }

  /** What `upload_file` alone can end in: a link, always truthy, exactly when both steps
      passed with the flag down; None exactly when the flag was seen up, after at most the
      first step's request. */
  lemma FileOutcomes(filePath: string, apiKey: Option<string>, fileSize: nat, pathExists: bool,
                     c1: bool, c2: bool, ticket: Exchange, put: Result<Option<Json>>)
    ensures var f := FileRun(filePath, apiKey, fileSize, pathExists, c1, c2, ticket, put);
      (f.outcome.Returned? && f.outcome.link.Some? <==>
         pathExists && !c1 && TicketOf(ticket).Ok? && !c2 && put.Ok? &&
         DownloadUrl(TicketOf(ticket).value.fileData).Ok?) &&
      (f.outcome.Returned? && f.outcome.link.Some? ==> Truthy(f.outcome.link.value)) &&
      (f.outcome == Returned(None) <==> pathExists && (c1 || (TicketOf(ticket).Ok? && c2))) &&
      (f.outcome == Returned(None) ==> |f.sent| <= 1)
  {
    var f := FileRun(filePath, apiKey, fileSize, pathExists, c1, c2, ticket, put);
    if pathExists && !c1 && TicketOf(ticket).Ok? && !c2 && put.Ok? {
      var d := DownloadUrl(TicketOf(ticket).value.fileData);
      assert f.outcome == if d.Ok? then Returned(Some(d.value)) else Raised(d.msg);
    }
  }

  /** `upload_file` with its one write to the session: `last_uploaded` is set to 0 once the
      first step has succeeded and the flag is still down, just before the PUT. */
  method UploadFile(u: Uploader, filePath: string, apiKey: Option<string>, fileSize: nat,
                    pathExists: bool, cancelledBefore: bool, cancelledBetween: bool,
                    ticket: Exchange, put: Result<Option<Json>>) returns (run: Run<Json>)
    modifies u`lastUploaded
    ensures run == FileRun(filePath, apiKey, fileSize, pathExists, cancelledBefore,
                           cancelledBetween, ticket, put)
    ensures u.lastUploaded == if |run.sent| == 2 then 0 else old(u.lastUploaded)
  {
    if !pathExists {
      return Run(Raised(NotFoundMessage(filePath)), []);
    }
    if cancelledBefore {
      return Run(Returned(None), []);
    }
    var first := [TicketRequest(filePath, apiKey, fileSize)];
    var t := TicketOf(ticket);
    if t.Err? {
      return Run(Raised(t.msg), first);
    }
    if cancelledBetween {
      return Run(Returned(None), first);
    }
    u.lastUploaded := 0;
    var sent := first + [PutRequest(t.value.uploadUrl, fileSize)];
    if put.Err? {
      return Run(Raised(put.msg), sent);
    }
    var url := DownloadUrl(t.value.fileData);
    run := if url.Ok? then Run(Returned(Some(url.value)), sent) else Run(Raised(url.msg), sent);
  }

  /** `upload`, with the session write `upload_file` makes. */
  method Upload(u: Uploader, filePath: string, apiKey: Option<string>, account: Exchange,
                isFile: bool, pathExists: bool, fileSize: nat, c1: bool, c2: bool, c3: bool,
                ticket: Exchange, put: Result<Option<Json>>) returns (run: Run<Json>)
    modifies u`lastUploaded
    ensures run == UploadRun(filePath, apiKey, account, isFile, pathExists, fileSize,
                             c1, c2, c3, ticket, put)
    ensures u.lastUploaded == if |run.sent| == 3 then 0 else old(u.lastUploaded)
  {
    if !HasKey(apiKey) {
      return Run(Raised(KeyRequiredMessage), []);
    }
    var checked := [AccountRequest(apiKey.value)];
    if !Truthy(IsRanozApi(apiKey, account)) {
      return Run(Raised(InvalidKeyMessage), checked);
    }
    if !isFile {
      return Run(Raised(FolderMessage), checked);
    }
    var f := UploadFile(u, filePath, apiKey, fileSize, pathExists, c1, c2, ticket, put);
    var sent := checked + f.sent;
    if f.outcome.Raised? || (f.outcome.link.Some? && Truthy(f.outcome.link.value)) {
      run := Run(f.outcome, sent);
    } else if c3 {
      run := Run(Returned(None), sent);
    } else {
      run := Run(Raised(FailedMessage), sent);
    }
  }
}
