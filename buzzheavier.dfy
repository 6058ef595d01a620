/** buzzheavier.py: a single PUT of the file's bytes through `upload_aiohttp`, then a chain
    of checks on the value the primitive returned. */
module BuzzHeavier {
  import opened Results
  import opened PyValues
  import opened Http
  import opened Session

  const ApiUrl: string := "https://w.buzzheavier.com"
  const LocationId: string := "12brteedoy0f"
  const PagePrefix: string := "https://buzzheavier.com/"

  const FolderMessage: string := "BuzzHeavier doesn't support folder uploads!"
  const NoResponseMessage: string := "Upload failed - no response from server"
  const InvalidResponseMessage: string := "Invalid server response"
  const NoIdMessage: string := "Could not extract file ID from response"
  const FailedMessage: string := "Failed to upload file to BuzzHeavier"

  function NotFoundMessage(filePath: string): string {
    "File not found: " + filePath
  }

  function CodeMessage(code: Option<Json>): string {
    "Upload failed with code " + StrOpt(code)
  }

  /** The PUT `upload_file` hands to the primitive: the file name goes into the path as it
      is, without URL-encoding. */
  function PutRequest(filePath: string, apiKey: string): Request {
    Request("PUT", ApiUrl + "/" + Basename(filePath) + "?locationId=" + LocationId,
            [("Authorization", "Bearer " + apiKey), ("Connection", "keep-alive"),
             ("keep-alive", "300"), ("Expect", "100-continue")],
            None)
  }

  /** A `code` field the upload accepts. */
  predicate CodeAccepted(code: Option<Json>) {
    code == Some(JNum(200)) || code == Some(JNum(201))
  }

  /** `result.get('data', {})`: the `data` field, or an empty dict when it is missing. */
  function DataOf(fields: seq<(string, Json)>): Json {
    var d := Lookup(fields, "data");
    if d.Some? then d.value else JObj([])
  }

  /** What `upload_file` makes of the primitive's return value (buzzheavier.py lines 54-71):
      each failed check raises its own message, and a reply that passes them all gives the
      page URL of its `data.id`. */
  function ResultUrl(result: Option<Json>): (r: Result<string>)
    ensures !TruthyOpt(result) ==> r == Err(NoResponseMessage)
    ensures TruthyOpt(result) && result.value.JStr? ==> r == Err(InvalidResponseMessage)
    ensures TruthyOpt(result) && !result.value.JStr? && !result.value.JObj? ==>
      r == Err(NoGetMessage(result.value))
    ensures TruthyOpt(result) && result.value.JObj? &&
            !CodeAccepted(Lookup(result.value.fields, "code")) ==>
      r == Err(CodeMessage(Lookup(result.value.fields, "code")))
    ensures TruthyOpt(result) && result.value.JObj? &&
            CodeAccepted(Lookup(result.value.fields, "code")) &&
            !DataOf(result.value.fields).JObj? ==>
      r == Err(NoGetMessage(DataOf(result.value.fields)))
    ensures TruthyOpt(result) && result.value.JObj? &&
            CodeAccepted(Lookup(result.value.fields, "code")) &&
            DataOf(result.value.fields).JObj? &&
            !TruthyOpt(Lookup(DataOf(result.value.fields).fields, "id")) ==>
      r == Err(NoIdMessage)
    ensures r.Ok? ==>
      result.Some? && result.value.JObj? && CodeAccepted(Lookup(result.value.fields, "code")) &&
      DataOf(result.value.fields).JObj? &&
      TruthyOpt(Lookup(DataOf(result.value.fields).fields, "id")) &&
      r.value == PagePrefix + Str(Lookup(DataOf(result.value.fields).fields, "id").value)
  {
    if !TruthyOpt(result) then Err(NoResponseMessage)
    else
      var v := result.value;
      if v.JStr? then Err(InvalidResponseMessage)
      else if !v.JObj? then Err(NoGetMessage(v))
      else
        var code := Lookup(v.fields, "code");
        if !CodeAccepted(code) then Err(CodeMessage(code))
        else
          var data := DataOf(v.fields);
          if !data.JObj? then Err(NoGetMessage(data))
          else
            var id := Lookup(data.fields, "id");
            if !TruthyOpt(id) then Err(NoIdMessage)
            else Ok(PagePrefix + Str(id.value))
  }

  /** The replies the checks let through are exactly the dicts whose `code` is 200 or 201
      and whose `data` is a dict with a truthy `id`; the link is the page of that id. */
  lemma ResultUrlAcceptsExactly(fields: seq<(string, Json)>, id: Json)
    requires fields != []
    ensures (ResultUrl(Some(JObj(fields))) == Ok(PagePrefix + Str(id))) <==
      (CodeAccepted(Lookup(fields, "code")) && DataOf(fields).JObj? &&
       Lookup(DataOf(fields).fields, "id") == Some(id) && Truthy(id))
    ensures ResultUrl(Some(JObj(fields))).Ok? ==>
      (CodeAccepted(Lookup(fields, "code")) && DataOf(fields).JObj? &&
       TruthyOpt(Lookup(DataOf(fields).fields, "id")))
  {
  }

  /** None of the messages of the result checks, nor the missing-file message, reads
      "Failed to upload file to BuzzHeavier". */
  lemma CheckMessagesAreNotFailed(result: Option<Json>, filePath: string)
    ensures ResultUrl(result).Err? ==> ResultUrl(result).msg != FailedMessage
    ensures NotFoundMessage(filePath) != FailedMessage
  {
    assert FailedMessage[0] == 'F' && FailedMessage[1] == 'a';
    assert NotFoundMessage(filePath)[1] == 'i';
    var r := ResultUrl(result);
    if r.Err? {
      assert r.msg[0] != 'F';
    }
  }

  /** `upload_file`: the existence check, the cancellation check, then the PUT and the checks
      on its result. An exception of the primitive (RetryError after three failed attempts,
      or the timeout of `wait_for`) passes through unchanged. */
  function FileRun(filePath: string, apiKey: string, pathExists: bool, cancelled: bool,
                   put: Result<Option<Json>>): Run<string>
  {
    if !pathExists then Run(Raised(NotFoundMessage(filePath)), [])
    else if cancelled then Run(Returned(None), [])
    else
      var sent := [PutRequest(filePath, apiKey)];
      match put
      case Err(msg) => Run(Raised(msg), sent)
      case Ok(result) =>
        match ResultUrl(result)
        case Ok(url) => Run(Returned(Some(url)), sent)
        case Err(msg) => Run(Raised(msg), sent)
  }

  /** `upload`: folders are refused; a file is uploaded, and when no link comes back the
      cancellation flag, sampled again, decides between None and an error. `cancelledInFile`
      is the flag as `upload_file` saw it, `cancelledAfter` as `upload` sees it afterwards. */
  function UploadRun(filePath: string, apiKey: string, isFile: bool, pathExists: bool,
                     cancelledInFile: bool, cancelledAfter: bool, put: Result<Option<Json>>)
    : Run<string>
  {
    if !isFile then Run(Raised(FolderMessage), [])
    else
      var f := FileRun(filePath, apiKey, pathExists, cancelledInFile, put);
      if f.outcome.Returned? && f.outcome.link.None? then
        if cancelledAfter then f else Run(Raised(FailedMessage), f.sent)
      else f
  }

  /** A path that is not a file, missing or a folder, is refused before any request. */
  lemma FolderRefusedWithoutRequest(filePath: string, apiKey: string, pathExists: bool,
                                    c1: bool, c2: bool, put: Result<Option<Json>>)
    ensures UploadRun(filePath, apiKey, false, pathExists, c1, c2, put) == Run(Raised(FolderMessage), [])
  {
  }

  /** What `upload` can end in, for a file: a page link exactly when the PUT returned a reply
      that passes the checks; None exactly when the flag was already up when `upload_file`
      looked, in which case nothing was sent; otherwise an error. "Failed to upload file"
      needs the flag to be seen up and then down, which cannot happen because the flag is
      never lowered. */
  lemma {:induction false} UploadOutcomes(filePath: string, apiKey: string, pathExists: bool,
                                          c1: bool, c2: bool, put: Result<Option<Json>>)
    requires c1 ==> c2
    ensures var r := UploadRun(filePath, apiKey, true, pathExists, c1, c2, put);
      (r.outcome.Returned? && r.outcome.link.Some? <==>
         pathExists && !c1 && put.Ok? && ResultUrl(put.value).Ok?) &&
      (r.outcome.Returned? && r.outcome.link.Some? ==>
         r.outcome.link.value[..|PagePrefix|] == PagePrefix &&
         r.sent == [PutRequest(filePath, apiKey)]) &&
      (r.outcome == Returned(None) <==> pathExists && c1) &&
      (r.outcome == Returned(None) ==> r.sent == []) &&
      (r.outcome == Raised(FailedMessage) ==> put == Err(FailedMessage))
  {
    var f := FileRun(filePath, apiKey, pathExists, c1, put);
    if put.Ok? {
      CheckMessagesAreNotFailed(put.value, filePath);
    } else {
      CheckMessagesAreNotFailed(None, filePath);
    }
    if pathExists && !c1 && put.Ok? && ResultUrl(put.value).Ok? {
      var url := ResultUrl(put.value).value;
      assert url[..|PagePrefix|] == PagePrefix;
    }
  }

  /** `upload_file` with its one write to the session: `last_uploaded` is set to 0 just
      before the PUT is handed to the primitive, and only then. */
  method UploadFile(u: Uploader, filePath: string, apiKey: string, pathExists: bool,
                    cancelled: bool, put: Result<Option<Json>>) returns (run: Run<string>)
    modifies u`lastUploaded
    ensures run == FileRun(filePath, apiKey, pathExists, cancelled, put)
    ensures u.lastUploaded == if run.sent != [] then 0 else old(u.lastUploaded)
  {
    if !pathExists {
      return Run(Raised(NotFoundMessage(filePath)), []);
    }
    if cancelled {
      return Run(Returned(None), []);
    }
    u.lastUploaded := 0;
    var sent := [PutRequest(filePath, apiKey)];
    match put {
      case Err(msg) =>
        run := Run(Raised(msg), sent);
      case Ok(result) =>
        var url := ResultUrl(result);
        run := if url.Ok? then Run(Returned(Some(url.value)), sent) else Run(Raised(url.msg), sent);
    }
  }

  /** `upload`, with the session write `upload_file` makes. */
  method Upload(u: Uploader, filePath: string, apiKey: string, isFile: bool, pathExists: bool,
                cancelledInFile: bool, cancelledAfter: bool, put: Result<Option<Json>>)
    returns (run: Run<string>)
    modifies u`lastUploaded
    ensures run == UploadRun(filePath, apiKey, isFile, pathExists, cancelledInFile, cancelledAfter, put)
    ensures u.lastUploaded == if run.sent != [] then 0 else old(u.lastUploaded)
  {
    if !isFile {
      return Run(Raised(FolderMessage), []);
    }
    run := UploadFile(u, filePath, apiKey, pathExists, cancelledInFile, put);
    if run.outcome.Returned? && run.outcome.link.None? && !cancelledAfter {
      run := Run(Raised(FailedMessage), run.sent);
    }
  }
}
