# DDL upload core of WZML-Bot, in Dafny

This project models the direct-download-link (DDL) upload layer of WZML-Bot. That layer
takes a finished download and pushes it to file hosts. The model covers four parts:

- **The session** (`DDLUploader`), with its progress counters, its cancellation flag and
  the reports it makes to its listener.
- **The dispatcher.** It runs every enabled host in the user's settings one after another.
  It gathers links under display names and errors under service ids. It then either returns
  the links or raises a single `" | "`-joined message. The `upload` wrapper strips `<` and
  `>` from that message before the listener sees it.
- **The upload primitive `upload_aiohttp`.** It sorts statuses into success and `None`
  (PUT accepts 200 and 201, POST accepts only 200). It makes at most three attempts, so at most two retries.
- **The adapters for BuzzHeavier, PixelDrain and Ranoz.** Each is a chain of guards over a
  server reply that yields a page link, `None` or an exception.
- **The progress file reader.** It reports its position to the session's callback before
  every read.

Everything the code gets from outside is an input to the model:

- the status and the body of each HTTP exchange;
- the exception a connection raised;
- the `exists` and `isfile` answers, and the file size;
- the value of `is_cancelled` at each point it is read;
- the outcome of the GoFile and StreamTape adapters, whose code is not part of this model.

Modules:

| file | module | what it holds |
|---|---|---|
| results.dfy | `Results` | `Option`, `Result`, and `Outcome` (an adapter's return value or exception) |
| py_values.dfy | `PyValues` | decoded JSON values and the Python builtins the code applies to them |
| base64.dfy | `Base64` | UTF-8 and Base64 (section 4 of RFC 4648), with the decoding round trip |
| session.dfy | `Session` | the counters, the telescoping callback and the `Uploader` class |
| progress_file_reader.dfy | `ProgressReader` | the reader as a class over the file's bytes, and runs of reads |
| http.dfy | `Http` | requests, replies, status classification and the retry |
| buzzheavier.dfy, pixeldrain.dfy, ranoz.dfy | adapters | the reply rules, the runs of `upload_file` and `upload`, and the `last_uploaded` reset |
| dispatcher.dfy | `Dispatcher` | `__upload_to_ddl` as a function and as a loop over the session, and the `upload` wrapper |

Each adapter is written two ways:

- as a pure function (`FileRun`, `UploadRun`) from its inputs to a `Run`, which holds the
  outcome and the requests issued, in order;
- as a method on the session (for BuzzHeavier and Ranoz) that also makes the adapter's one
  write, `last_uploaded = 0`. The method is proved equal to the function.

The dispatcher's loop is written as a `for` loop over the session's fields. Its invariant
says that the fields match the pure `Loop` over the entries seen so far.

Where the code and some descriptions of the subsystem disagree, the model follows the code:

- The dispatcher's loop never reads `is_cancelled`, so a cancelled session still visits
  every service.
- Ranoz has no dispatcher branch. It is modelled on its own, and the dispatcher treats the
  id `ranoz` like any other unknown id.
- Ranoz builds no guessed link when the reply names none; it raises.
- File names go into upload URLs as they are, without percent-encoding.

## Model

| member | source | states |
|---|---|---|
| Session.Report | bot/helper/mirror_utils/upload_utils/ddlEngine.py:43-46 | after one callback, `last_uploaded` is the reported offset, and `processed_bytes - last_uploaded` is unchanged |
| Session.ReportAll | bot/helper/mirror_utils/upload_utils/ddlEngine.py:43-46 | defines the counters after one callback per offset, in order; Telescoping states what they are |
| Session.Telescoping | bot/helper/mirror_utils/upload_utils/ddlEngine.py:43-46 | after any run of callbacks, `processed_bytes` has grown by exactly the last offset minus the starting `last_uploaded`, whatever came in between |
| Session.RetryDoesNotDoubleCount | bot/helper/mirror_utils/upload_utils/ddlEngine.py:43-57 | a retried attempt restarts at offset 0 without a reset and reports a negative chunk, so the total after a failed and a final attempt equals that of the final attempt alone |
| Session.NoResetAfterCompleteUpload | bot/helper/mirror_utils/upload_utils/ddlEngine.py:48-51 | after a complete upload, an upload that does not reset `last_uploaded` first drives `processed_bytes` to `-length`, and a full read brings it back only to 0 |
| Session.Uploader.constructor | bot/helper/mirror_utils/upload_utils/ddlEngine.py:23-37 | a new session has zero counters and totals, is neither cancelled nor errored, shows engine "DDL v1" and has reported nothing |
| Session.Uploader.ProgressCallback | bot/helper/mirror_utils/upload_utils/ddlEngine.py:43-51 | both callbacks set `last_uploaded` to the offset and keep `processed_bytes - last_uploaded` |
| Session.Uploader.CancelDownload | bot/helper/mirror_utils/upload_utils/ddlEngine.py:185-190 | the flag is raised, and the listener receives "Your upload has been stopped!" once |
| Http.Attempt | bot/helper/mirror_utils/upload_utils/ddlEngine.py:58-84 | an attempt yields a body exactly when the status is accepted for the verb (200/201 for PUT, 200 otherwise) and the body decodes; a rejected status yields None; it raises only when the connection fails or an accepted JSON body does not decode |
| Http.RetryFrom | bot/helper/mirror_utils/upload_utils/ddlEngine.py:53-55 | the retry yields the first attempt that did not raise, and raises RetryError exactly when every attempt raised |
| Http.RejectedStatusReturnsNone | bot/helper/mirror_utils/upload_utils/ddlEngine.py:68-70 | a rejected status ends the primitive at once with None; it is neither raised nor retried |
| Http.PutAcceptsMoreThanPost | bot/helper/mirror_utils/upload_utils/ddlEngine.py:63-77 | PUT accepts every status POST accepts, and PUT alone accepts 201 |
| Dispatcher.BackendOf | bot/helper/mirror_utils/upload_utils/ddlEngine.py:96-116 | exactly the ids "gofile", "streamtape", "pixeldrain" and "buzzheavier" select a branch, and each selects its own |
| Dispatcher.Build | bot/helper/mirror_utils/upload_utils/ddlEngine.py:101-109 | StreamTape proceeds exactly when its credential holds one ':', and otherwise gets the matching unpacking error; PixelDrain proceeds exactly when the key is non-empty; GoFile and BuzzHeavier always proceed |
| Dispatcher.PutError | bot/helper/mirror_utils/upload_utils/ddlEngine.py:120 | a new id is appended; an id already recorded keeps its place and takes the new message |
| Dispatcher.SkippedEntryLeavesNoTrace | bot/helper/mirror_utils/upload_utils/ddlEngine.py:91-117 | a disabled entry changes nothing; an enabled entry whose id has no branch only resets the totals and `processed_bytes`; neither records a link or an error |
| Dispatcher.LoopLinksSound | bot/helper/mirror_utils/upload_utils/ddlEngine.py:95-116 | every link in the result was returned, non-empty, by an enabled and known service that was built without error, and is stored under that service's display name |
| Dispatcher.LoopLinksComplete | bot/helper/mirror_utils/upload_utils/ddlEngine.py:95-116 | every service that delivers a link leaves its display name in the map, and no name is removed |
| Dispatcher.LoopErrors | bot/helper/mirror_utils/upload_utils/ddlEngine.py:91-121 | with distinct service ids, the errors are exactly the failing entries' ids and `str(e)` messages, in iteration order, and the loop goes on after each |
| Dispatcher.QuietLoop | bot/helper/mirror_utils/upload_utils/ddlEngine.py:91-121 | when no service fails and none returns a link, the loop records nothing |
| Dispatcher.StepProgress | bot/helper/mirror_utils/upload_utils/ddlEngine.py:93-121 | an enabled service resets the file and folder totals; `processed_bytes` is 0 after a service that returned, while after one that raised its reads stay counted (last offset minus the `last_uploaded` it started from) |
| Dispatcher.StreamTapeBadCredential | bot/helper/mirror_utils/upload_utils/ddlEngine.py:101-120 | a StreamTape credential without exactly one ':' becomes StreamTape's error with the unpacking message, before any upload |
| Dispatcher.Step | bot/helper/mirror_utils/upload_utils/ddlEngine.py:92-121 | defines one iteration for one entry: a disabled entry is skipped; an enabled one resets the totals; an unknown id then only zeroes `processed_bytes`; a known id sets the engine label, and its failure (at build or in the adapter) is recorded under the id with the reads kept counted, while a return stores a non-empty link under the display name and zeroes `processed_bytes`; its properties are the Step and Loop lemmas below |
| Dispatcher.Loop | bot/helper/mirror_utils/upload_utils/ddlEngine.py:91-121 | defines the state after visiting the entries in order, one Step each; LoopLinksSound, LoopLinksComplete, LoopErrors and QuietLoop state what it holds |
| Dispatcher.Finish | bot/helper/mirror_utils/upload_utils/ddlEngine.py:123-134 | defines the end of `__upload_to_ddl` from the loop's links and errors; FinishOutcomes states its three outcomes |
| Dispatcher.FinishOutcomes | bot/helper/mirror_utils/upload_utils/ddlEngine.py:123-134 | the links are returned exactly when there are some; otherwise every "serv: err" line appears in the raised message, each after a " \| " but the first, and each line is followed directly by " \| " and the next error's line, the first starting the message and the last ending it, so the lines stand in the errors' order; the message is exactly as long as the lines plus one three-character separator between each two; with no errors either, "No successful uploads completed." is raised |
| PyValues.JoinAppend | bot/helper/mirror_utils/upload_utils/ddlEngine.py:130 | joining two non-empty runs of items is joining each with one separator between them |
| PyValues.JoinLength | bot/helper/mirror_utils/upload_utils/ddlEngine.py:130 | a join is as long as its items together plus one separator between each two |
| PyValues.JoinAdjacent | bot/helper/mirror_utils/upload_utils/ddlEngine.py:130 | in a join, consecutive items stand side by side with one separator between them; the first item starts the text and the last ends it |
| Dispatcher.ReportOffsets | bot/helper/mirror_utils/upload_utils/ddlEngine.py:43-46 | a run of callbacks on the session leaves its counters as `ReportAll` of the offsets |
| Dispatcher.UploadToDdl | bot/helper/mirror_utils/upload_utils/ddlEngine.py:86-134 | the loop over the session returns `Finish` of the pure `Loop` over the entries, and leaves the session's counters, totals and engine label as that `Loop` says |
| Dispatcher.Sanitize | bot/helper/mirror_utils/upload_utils/ddlEngine.py:160 | the text passed on holds exactly the characters of the error except '<' and '>' |
| Dispatcher.SanitizeIsFilter | bot/helper/mirror_utils/upload_utils/ddlEngine.py:160 | sanitising works character by character: it distributes over concatenation, drops only '<' and '>', keeps the order, and is idempotent |
| Dispatcher.SanitizeKeepsPlainText | bot/helper/mirror_utils/upload_utils/ddlEngine.py:160 | an error text without angle brackets reaches the listener unchanged |
| Dispatcher.Upload | bot/helper/mirror_utils/upload_utils/ddlEngine.py:136-168 | a raised loop reaches the listener as one sanitised error and marks the session errored; a returned loop reaches it as one completed upload with the links, size, totals, MIME type ("Folder" for non-files) and name, unless the session was cancelled; a cancel during the loop adds the stop message first |
| Dispatcher.CancelledLoopRaises | bot/helper/mirror_utils/upload_utils/ddlEngine.py:123-134 | when every adapter saw the flag and returned None, the loop records nothing and raises "No successful uploads completed." |
| Dispatcher.CancelledUploadReportsTwice | bot/helper/mirror_utils/upload_utils/ddlEngine.py:136-168 | an upload cancelled during the loop, with every adapter returning None, leaves the session cancelled and errored, and its listener receives exactly two errors: the stop message, then "No successful uploads completed." |
| Dispatcher.NoUploadsMessageIsPlain | bot/helper/mirror_utils/upload_utils/ddlEngine.py:160 | sanitising leaves "No successful uploads completed." unchanged |
| ProgressReader.BufferedRead | bot/helper/mirror_utils/upload_utils/progress_file_reader.py:14 | a read returns the next at most n bytes from the position (all that is left for -1), and raises for a length below -1 |
| ProgressReader.Requested | bot/helper/mirror_utils/upload_utils/progress_file_reader.py:11 | defines the length `read` passes on: everything left for an absent or zero size, the given size otherwise; DefaultSizeReadsRest and EmptyOnlyAtEnd state its effect |
| ProgressReader.DefaultSizeReadsRest | bot/helper/mirror_utils/upload_utils/progress_file_reader.py:11 | `read()` and `read(0)` both return everything from the position to the end |
| ProgressReader.EmptyOnlyAtEnd | bot/helper/mirror_utils/upload_utils/progress_file_reader.py:11-14 | a read comes back empty only at the end of the file |
| ProgressReader.ProgressFileReader.constructor | bot/helper/mirror_utils/upload_utils/progress_file_reader.py:5-8 | `length` is the file's size and the position starts at 0 |
| ProgressReader.ProgressFileReader.Read | bot/helper/mirror_utils/upload_utils/progress_file_reader.py:10-14 | the callback, when there is one, gets the position before the read; the result is the buffered read of the defaulted size; the position advances by the length returned; nothing else changes |
| ProgressReader.Reads | bot/helper/mirror_utils/upload_utils/progress_file_reader.py:10-14 | a run of reads reports one offset and returns one chunk per read, and ends inside the file |
| ProgressReader.ReadsConcatenate | bot/helper/mirror_utils/upload_utils/progress_file_reader.py:10-14 | sequential reads return the file's bytes in order, without gaps or repeats |
| ProgressReader.ReadsReportChunkStarts | bot/helper/mirror_utils/upload_utils/progress_file_reader.py:12-13 | each read reports the offset where its own chunk starts |
| ProgressReader.ReadToEndCountsLength | bot/helper/mirror_utils/upload_utils/progress_file_reader.py:10-14 | reading from offset 0 until an empty read, with the session's callback starting at `last_uploaded = 0`, adds exactly the file's length; before the empty read the last chunk is not yet counted |
| ProgressReader.LastReadAt | bot/helper/mirror_utils/upload_utils/progress_file_reader.py:11-14 | the last read starts where the previous one stopped, and a last read that came back empty was at the end of the file |
| BuzzHeavier.ResultUrl | bot/helper/mirror_utils/upload_utils/ddlserver/buzzheavier.py:54-71 | a falsy result, a text result, a code outside {200, 201}, a non-dict result, a `data` that is not a dict and a falsy `data.id` each raise their own message (the two non-dict cases as AttributeError); otherwise the link is "https://buzzheavier.com/" followed by `str(id)` |
| BuzzHeavier.ResultUrlAcceptsExactly | bot/helper/mirror_utils/upload_utils/ddlserver/buzzheavier.py:54-71 | a result yields a link exactly when it is a dict with code 200 or 201 whose `data` is a dict with a truthy `id` |
| BuzzHeavier.FolderRefusedWithoutRequest | bot/helper/mirror_utils/upload_utils/ddlserver/buzzheavier.py:80-86 | a path that is not a file, missing or a folder, raises the folder error before any request |
| BuzzHeavier.FileRun | bot/helper/mirror_utils/upload_utils/ddlserver/buzzheavier.py:19-75 | defines `upload_file` as an outcome and the requests sent: a missing path raises, a raised flag returns None with nothing sent, otherwise one PUT whose exception passes through and whose result ResultUrl reads |
| BuzzHeavier.UploadRun | bot/helper/mirror_utils/upload_utils/ddlserver/buzzheavier.py:77-91 | defines `upload`: a folder is refused, and a None from `upload_file` becomes None or "Failed to upload file to BuzzHeavier" as the flag, read again, says; UploadOutcomes states its results |
| BuzzHeavier.UploadOutcomes | bot/helper/mirror_utils/upload_utils/ddlserver/buzzheavier.py:77-91 | a link exactly when the file exists, the flag was down and the PUT gave a valid result; None exactly when the flag was up, with nothing sent; "Failed to upload file to BuzzHeavier" only as the PUT's own exception text |
| BuzzHeavier.UploadFile | bot/helper/mirror_utils/upload_utils/ddlserver/buzzheavier.py:19-75 | the method agrees with `FileRun`, and it sets `last_uploaded` to 0 exactly when the PUT is issued, to the URL built from the base name and "?locationId=12brteedoy0f" |
| BuzzHeavier.Upload | bot/helper/mirror_utils/upload_utils/ddlserver/buzzheavier.py:77-91 | the method agrees with `UploadRun`, with the same `last_uploaded` write |
| PixelDrain.New | bot/helper/mirror_utils/upload_utils/ddlserver/pixeldrain.py:11-17 | an empty key raises "PixelDrain API Key is required!..."; otherwise the header is "Basic " followed by canonical Base64 text that decodes to the UTF-8 bytes of ":" + key, which by CanonicalUnique is the one such text, `b64encode` of those bytes |
| PixelDrain.ReplyUrl | bot/helper/mirror_utils/upload_utils/ddlserver/pixeldrain.py:46-74 | status 400 and above raise "Upload failed with status n", whatever the body; a status below 400 other than 201 raises "unexpected response status"; for 201, a dict with a truthy `id` gives "https://pixeldrain.com/u/" + `str(id)`, a decoded non-dict raises AttributeError, and undecodable text gives the whitespace- then quote-stripped id or "Could not extract file ID" when that is empty |
| PixelDrain.PlainId | bot/helper/mirror_utils/upload_utils/ddlserver/pixeldrain.py:66 | defines the id read from a body that is not JSON: the text stripped of whitespace, then of '"'; PlainIdIsTrimmed states what is left |
| PixelDrain.PlainIdIsTrimmed | bot/helper/mirror_utils/upload_utils/ddlserver/pixeldrain.py:64-69 | a plain-text id is a slice of the body whose ends are not '"' and whose margins hold only whitespace and '"' |
| PixelDrain.JsonStringBodyRaises | bot/helper/mirror_utils/upload_utils/ddlserver/pixeldrain.py:57-64 | a body that decodes to a JSON string (such as `"abc"` with its quotes) raises "'str' object has no attribute 'get'"; the quote stripping never sees it |
| PixelDrain.FileRun | bot/helper/mirror_utils/upload_utils/ddlserver/pixeldrain.py:20-78 | defines `upload_file` as an outcome and the requests sent: a missing path raises, a raised flag returns None with nothing sent, otherwise one PUT whose connection error passes through and whose reply ReplyUrl reads |
| PixelDrain.UploadRun | bot/helper/mirror_utils/upload_utils/ddlserver/pixeldrain.py:80-94 | defines `upload`: a folder is refused, and a None from `upload_file` becomes None or "Failed to upload file to PixelDrain" as the flag, read again, says; UploadOutcomes states its results |
| PixelDrain.UploadOutcomes | bot/helper/mirror_utils/upload_utils/ddlserver/pixeldrain.py:80-94 | a folder is refused without a request; for a file, a link exactly when the reply passes the rules, None exactly when the flag was up before the PUT, and "Failed to upload file to PixelDrain" only as a connection error's own text |
| Ranoz.IsRanozApi | bot/helper/mirror_utils/upload_utils/ddlserver/ranoz.py:20-36 | False for a None token, a connection failure, a non-200 status or a body that is not a decoded dict; otherwise the body's `success` entry, False when absent; truthy exactly when that entry is |
| Ranoz.TicketOf | bot/helper/mirror_utils/upload_utils/ddlserver/ranoz.py:70-86 | a connection failure, a status other than 200, a body that does not decode, a body that is not a dict, a falsy `data`, a `data` that is not a dict and a falsy `upload_url` each raise their own message; the first step succeeds exactly when the body is a dict whose `data` is a non-empty dict with a truthy `upload_url` |
| Ranoz.ContentLengthIsSize | bot/helper/mirror_utils/upload_utils/ddlserver/ranoz.py:96-98 | the PUT carries one header, Content-Length, whose decimal digits read back as the file size |
| Ranoz.Or | bot/helper/mirror_utils/upload_utils/ddlserver/ranoz.py:113-114 | `a or b` is a when a is truthy and b otherwise, and it is truthy exactly when one of them is |
| Ranoz.DownloadUrl | bot/helper/mirror_utils/upload_utils/ddlserver/ranoz.py:113-122 | a link found is always truthy; when none is found, "Could not extract file URL from response" is raised |
| Ranoz.DownloadUrlPreference | bot/helper/mirror_utils/upload_utils/ddlserver/ranoz.py:113-122 | `url` wins over `download_url`, which wins over "https://ranoz.gg/" + `id`, then `file_id`, then `key`; it raises exactly when all five are falsy |
| Ranoz.FileRun | bot/helper/mirror_utils/upload_utils/ddlserver/ranoz.py:38-128 | defines `upload_file` as an outcome and the requests sent: the existence check, the flag, the POST read by TicketOf, the flag again, the PUT (only its exception matters) and the link DownloadUrl finds |
| Ranoz.PutAnswerIgnored | bot/helper/mirror_utils/upload_utils/ddlserver/ranoz.py:100-124 | any answer from a PUT that did not raise, None included, leads to the same outcome |
| Ranoz.ExampleUpload | bot/helper/mirror_utils/upload_utils/ddlserver/ranoz.py:54-124 | the answer `{"data": {"upload_url": "https://x/y", "id": "abc"}}` with a PUT that returned None gives "https://ranoz.gg/abc" after a POST and a PUT to "https://x/y" |
| Ranoz.UploadRun | bot/helper/mirror_utils/upload_utils/ddlserver/ranoz.py:130-151 | defines `upload`: the key, the account check and the folder check in that order, then `upload_file`, whose None or falsy link becomes None or "Failed to upload file to Ranoz" as the flag, read a third time, says; GuardOrder and UploadOutcomes state its results |
| Ranoz.GuardOrder | bot/helper/mirror_utils/upload_utils/ddlserver/ranoz.py:134-146 | a missing key raises before any request, an invalid key raises before the `isfile` check, and a non-file raises the folder error after the key check |
| Ranoz.FileOutcomes | bot/helper/mirror_utils/upload_utils/ddlserver/ranoz.py:38-128 | `upload_file` alone: a link, always truthy, exactly when the file exists, both steps passed and the flag was down at both checks; None exactly when the flag was up at a check the run reached, after at most the first request |
| Ranoz.UploadOutcomes | bot/helper/mirror_utils/upload_utils/ddlserver/ranoz.py:130-151 | for a file whose key was accepted: a link exactly when both steps passed with the flag down; None exactly when the flag was up at either check in `upload_file`, with no PUT sent; "Failed to upload file to Ranoz" only as an exception raised inside `upload_file` |
| Ranoz.UploadFile | bot/helper/mirror_utils/upload_utils/ddlserver/ranoz.py:38-128 | the method agrees with `FileRun`, and it sets `last_uploaded` to 0 exactly when the PUT is issued |
| Ranoz.Upload | bot/helper/mirror_utils/upload_utils/ddlserver/ranoz.py:130-151 | the method agrees with `UploadRun`, with the same `last_uploaded` write |
| PyValues.SplitPair | bot/helper/mirror_utils/upload_utils/ddlEngine.py:103 | the credential unpacks exactly when it holds one ':', into the parts before and after it; otherwise the "not enough values" or "too many values" error |
| PyValues.Basename | bot/helper/mirror_utils/upload_utils/ddlserver/pixeldrain.py:30 | the base name is the suffix after the last '/', and holds no '/' |
| PyValues.StripIsTrimmedSlice | bot/helper/mirror_utils/upload_utils/ddlserver/pixeldrain.py:66 | `strip` leaves a slice whose ends are not stripped characters and whose margins are; the result is empty exactly when every character is stripped |
| PyValues.StripTwice | bot/helper/mirror_utils/upload_utils/ddlserver/pixeldrain.py:66 | stripping twice leaves a slice whose margins hold only characters of either set |
| PyValues.Get | bot/helper/mirror_utils/upload_utils/ddlserver/ranoz.py:79-82 | `.get` answers on a dict and raises "'T' object has no attribute 'get'" on anything else |
| PyValues.Lookup | bot/helper/mirror_utils/upload_utils/ddlserver/ranoz.py:113-114 | a key is found exactly when present, and the value is that of its last occurrence |
| PyValues.NatToStringRoundTrip | bot/helper/mirror_utils/upload_utils/ddlserver/ranoz.py:97 | `str(n)` reads back as n |
| PyValues.JoinHasItem | bot/helper/mirror_utils/upload_utils/ddlEngine.py:130 | every item of a join occurs in the result, after a separator unless it is the first |
| PyValues.RemoveChar | bot/helper/mirror_utils/upload_utils/ddlEngine.py:160 | `replace(c, '')` keeps exactly the characters other than c |
| Base64.Encode | bot/helper/mirror_utils/upload_utils/ddlserver/pixeldrain.py:17 | the encoding has four characters per started group of three bytes |
| Base64.RoundTrip | bot/helper/mirror_utils/upload_utils/ddlserver/pixeldrain.py:17 | decoding the encoding gives back the bytes |
| Base64.EncodeCanonical | bot/helper/mirror_utils/upload_utils/ddlserver/pixeldrain.py:17 | every encoding is canonical: whole groups of alphabet characters, padding only at the end, and zero bits where a padded group has no data |
| Base64.CanonicalRoundTrip | bot/helper/mirror_utils/upload_utils/ddlserver/pixeldrain.py:17 | canonical text is the encoding of what it decodes to |
| Base64.CanonicalUnique | bot/helper/mirror_utils/upload_utils/ddlserver/pixeldrain.py:17 | two canonical texts that decode to the same bytes are the same text, so the header text is fixed by the key |
| Base64.Utf8Append | bot/helper/mirror_utils/upload_utils/ddlserver/pixeldrain.py:17 | the UTF-8 bytes of a concatenation are the concatenated bytes |

## Left out

- Network, file system and decoding: aiohttp sessions, `resp.json()` and `resp.text()`, `json.loads`, `exists`, `isfile`, `stat`, `get_mime_type` and the `user_data` lookup are not performed. Their answers are inputs.
- Retry timing: the exponential backoff of the retry decorator and the 3600-second `asyncio.wait_for` timeout around the BuzzHeavier PUT are not modelled. A retry is three attempts; each starts a fresh reader at offset 0.
- Logging (`LOGGER`) and the `speed` property are not modelled; `speed` uses the wall clock and float division.
- GoFile and StreamTape adapters: their code is not part of this model. Their `upload` calls are given as outcomes, as is every adapter call the dispatcher makes.
- Dispatcher.UploadToDdl: the BuzzHeavier and PixelDrain adapter models are not plugged into the loop. Each service's call (its outcome, whether it reset `last_uploaded`, the offsets its readers reported) is an input, and nothing ties it to that adapter's own model.
- Dispatcher.Upload: a concurrent `cancel_download` is placed at one point, after the loop and before the flag is read. Cancellation at other moments is what the adapters' flag samples stand for.
- Session close: `__asyncSession` is never assigned, so the branches that close it (ddlEngine.py lines 158-159 and 188-189) never run and are not modelled.
- The "Upload has been manually cancelled!" branch: the loop never returns None, so this branch cannot run. The text is kept as `Dispatcher.ManualCancelMessage`, with no path to it.
- Link order: the links go to `onUploadComplete` as a dict in insertion order. The model keeps them in a `map`, which has no order.
- BuzzHeavier.UploadOutcomes, PixelDrain.UploadOutcomes, Ranoz.UploadOutcomes: stated for flag samples that never go from up to down. The session never lowers the flag, so other sequences cannot occur.
- PixelDrain.ReplyUrl: the decoded value and the body text are separate inputs. Nothing forces the decoded value to be `json.loads` of the text.
- JSON numbers are integers only: floats and their `str()` are not modelled.
- `str()` of a string inside a list or dict always uses single quotes. Escaping and Python's switch to double quotes are not modelled.
- A JSON object keeps duplicated keys as decoded. Lookups see the last value, as Python's dict does, but `str()` of such an object shows every pair.
- Exception texts are those of Python 3 before 3.13: the unpacking messages and "'T' object has no attribute 'get'".
- Ranoz.PutRequest: the URL recorded is `str(upload_url)`. aiohttp would refuse a non-string URL, but that failure only shows through the PUT's given outcome.
- The reader's progress inside the adapters: `BuzzHeavier.UploadFile`, `Ranoz.UploadFile` and the PixelDrain runs do not call the callback themselves. The dispatcher applies the reported offsets (`Dispatcher.ReportOffsets`), and `ProgressReader` proves what a reader reports.
- Opening the file and OS errors on read are not modelled. A read of a negative length other than -1 raises, as `BufferedReader.read` does.
