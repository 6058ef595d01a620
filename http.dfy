/** The HTTP layer as the upload code sees it (ddlEngine.py, `upload_aiohttp`): a request is
    recorded, not sent, and what the server or the network answered is an input. */
module Http {
  import opened Results
  import opened PyValues

  /** A request an adapter issues. `json` is the JSON body of a request that sends one. */
  datatype Request = Request(verb: string, url: string, headers: seq<(string, string)>,
                             json: Option<Json>)

  /** A response body as aiohttp hands it over. */
  datatype Body =
      /** `resp.json()` decodes it to this value. */
    | JsonBody(value: Json)
      /** The declared content type is not JSON: `resp.json()` raises ContentTypeError with
          the given text, and `resp.text()` gives `text`. */
    | TextBody(text: string, decodeError: string)
      /** The content type is JSON but the text is not: `resp.json()` raises the given
          JSONDecodeError text. */
    | MalformedJson(decodeError: string)

  /** One exchange with a server: the response, or the exception raised before one came. */
  datatype Exchange = Responded(status: int, body: Body) | ConnectionFailed(msg: string)

  /** What an adapter did: its outcome, and the requests it issued, in order. */
  datatype Run<+T> = Run(outcome: Outcome<T>, sent: seq<Request>)

  /** `method.upper() == 'PUT'`. No character other than p, u and t upper-cases to one of
      P, U and T, so only the eight spellings of "put" qualify. */
  predicate IsPut(verb: string) {
    |verb| == 3 && verb[0] in {'p', 'P'} && verb[1] in {'u', 'U'} && verb[2] in {'t', 'T'}
  }

  /** The statuses `upload_aiohttp` treats as success: 200 and 201 for PUT, 200 for POST. */
  predicate Accepted(verb: string, status: int) {
    if IsPut(verb) then status == 200 || status == 201 else status == 200
  }

  /** One attempt of `upload_aiohttp`: on an accepted status the decoded JSON body, or the
      text when the body is not declared as JSON; on any other status None (the failure is
      only logged); an exception when the connection failed or a JSON body did not decode. */
  function Attempt(verb: string, e: Exchange): (r: Result<Option<Json>>)
    ensures e.Responded? && !Accepted(verb, e.status) ==> r == Ok(None)
    ensures r.Ok? && r.value.Some? <==>
      e.Responded? && Accepted(verb, e.status) && !e.body.MalformedJson?
    ensures r.Err? <==>
      e.ConnectionFailed? || (Accepted(verb, e.status) && e.body.MalformedJson?)
    ensures r.Ok? && r.value.Some? && e.body.JsonBody? ==> r.value.value == e.body.value
    ensures r.Ok? && r.value.Some? && e.body.TextBody? ==> r.value.value == JStr(e.body.text)
  {
    match e
    case ConnectionFailed(msg) => Err(msg)
    case Responded(status, body) =>
      if !Accepted(verb, status) then Ok(None)
      else
        match body
        case JsonBody(v) => Ok(Some(v))
        case TextBody(text, _) => Ok(Some(JStr(text)))
        case MalformedJson(err) => Err(err)
  }

  /** The retry decorator stops after this many attempts. */
  const MaxAttempts: nat := 3

  /** The text of tenacity's RetryError, which it raises once every attempt has raised; it
      shows the repr of the future that holds the last attempt's exception. */
  function RetryErrorMessage(lastFuture: string): string {
    "RetryError[" + lastFuture + "]"
  }

  /** `upload_aiohttp` under its retry decorator, from attempt i on: the first attempt that
      does not raise gives the result; when all of them raise, RetryError is raised. */
  function RetryFrom(verb: string, attempts: seq<Exchange>, i: nat, lastFuture: string)
    : (r: Result<Option<Json>>)
    requires i <= |attempts|
    ensures r.Err? <==> forall k :: i <= k < |attempts| ==> Attempt(verb, attempts[k]).Err?
    ensures r.Err? ==> r.msg == RetryErrorMessage(lastFuture)
    ensures r.Ok? ==> exists k :: i <= k < |attempts| && r == Attempt(verb, attempts[k]) &&
                                  forall j :: i <= j < k ==> Attempt(verb, attempts[j]).Err?
    decreases |attempts| - i
  {
    if i == |attempts| then Err(RetryErrorMessage(lastFuture))
    else if Attempt(verb, attempts[i]).Ok? then Attempt(verb, attempts[i])
    else RetryFrom(verb, attempts, i + 1, lastFuture)
  }

  /** `upload_aiohttp(url, file_path, ..., method)` given the answer to each of the three
      attempts it may make (the ones after the first success are never made). Every attempt
      reads the file with a fresh reader from offset 0. */
  function UploadAiohttp(verb: string, attempts: seq<Exchange>, lastFuture: string)
    : Result<Option<Json>>
    requires |attempts| == MaxAttempts
  {
    RetryFrom(verb, attempts, 0, lastFuture)
  }

  /** A response with a status the method does not accept never raises, however often it is
      met: the primitive returns None at once and is not retried. */
  lemma RejectedStatusReturnsNone(verb: string, attempts: seq<Exchange>, lastFuture: string)
    requires |attempts| == MaxAttempts
    requires attempts[0].Responded? && !Accepted(verb, attempts[0].status)
    ensures UploadAiohttp(verb, attempts, lastFuture) == Ok(None)
  {
  }

  /** PUT accepts every status POST accepts, and 201 besides. */
  lemma PutAcceptsMoreThanPost(status: int)
    ensures Accepted("POST", status) ==> Accepted("PUT", status)
    ensures Accepted("PUT", status) && !Accepted("POST", status) <==> status == 201
  {
  }
}
