/** The state of one DDL upload session (ddlEngine.py, class DDLUploader): the progress
    counters its callback keeps, the cancellation flag, the per-backend counters and the
    calls it makes on its listener, recorded as events. */
module Session {

  /** The two progress counters: `__processed_bytes` and `last_uploaded`. */
  datatype Counters = Counters(processed: int, last: int)

  /** One call of the progress callback with the reader's offset `current`: the chunk size
      is the distance from the last reported offset, which then becomes `current`. */
  function Report(c: Counters, current: int): (r: Counters)
    ensures r.last == current
    ensures r.processed - r.last == c.processed - c.last
  {
    Counters(c.processed + (current - c.last), current)
  }

  /** The counters after the callback has been called once per offset, in order. */
  function ReportAll(c: Counters, offsets: seq<int>): Counters {
    if offsets == [] then c
    else Report(ReportAll(c, offsets[..|offsets| - 1]), offsets[|offsets| - 1])
  }

  /** The callback telescopes: `processed - last` never changes, so after any run of reports
      `processed` has grown by exactly the last offset minus the starting `last`, whatever
      the offsets in between were. */
  lemma {:induction false} Telescoping(c: Counters, offsets: seq<int>)
    ensures ReportAll(c, offsets).processed - ReportAll(c, offsets).last == c.processed - c.last
    ensures offsets != [] ==> ReportAll(c, offsets).last == offsets[|offsets| - 1]
    ensures offsets != [] ==>
      ReportAll(c, offsets).processed == c.processed + offsets[|offsets| - 1] - c.last
  {
    if offsets != [] {
      Telescoping(c, offsets[..|offsets| - 1]);
    }
  }

  /** A retried upload reads the file again from offset 0 without resetting `last_uploaded`;
      the first report of the new attempt is then a negative chunk that cancels what the
      failed attempt counted, so a retry never counts a byte twice: once the last attempt
      reports `length`, `processed` has grown by `length - last`, as with a single attempt. */
  lemma RetryDoesNotDoubleCount(c: Counters, failed: seq<int>, final: seq<int>, length: int)
    requires final != [] && final[|final| - 1] == length
    ensures ReportAll(c, failed + final).processed == c.processed + length - c.last
    ensures ReportAll(c, failed + final).processed == ReportAll(c, final).processed
  {
    Telescoping(c, failed + final);
    Telescoping(c, final);
  }

  /** A backend that does not reset `last_uploaded` (PixelDrain) after one that streamed the
      whole file: the first report of the new upload, at offset 0, drives `processed` down
      to `-length`, and a complete read brings it back only to 0, not to `length`. */
  lemma NoResetAfterCompleteUpload(length: int, offsets: seq<int>)
    requires length > 0
    requires offsets != [] && offsets[0] == 0 && offsets[|offsets| - 1] == length
    ensures ReportAll(Counters(0, length), [offsets[0]]).processed == -length
    ensures ReportAll(Counters(0, length), offsets).processed == 0
  {
    assert [offsets[0]][..0] == [];
    Telescoping(Counters(0, length), offsets);
  }

  /** A call made on the listener. */
  datatype Event =
    | UploadComplete(links: map<string, string>, size: int, files: int, folders: int,
                     mimeType: string, name: string)
    | UploadError(msg: string)

  /** The message `cancel_download` sends to the listener. */
  const StopMessage: string := "Your upload has been stopped!"

  /** The engine label a fresh session shows. */
  const InitialEngine: string := "DDL v1"

  class Uploader {
    var processedBytes: int
    var lastUploaded: int
    var totalFiles: int
    var totalFolders: int
    var isCancelled: bool
    var isErrored: bool
    var engine: string
    /** The calls made on the listener so far, oldest first. */
    var events: seq<Event>

    constructor ()
      ensures processedBytes == 0 && lastUploaded == 0
      ensures totalFiles == 0 && totalFolders == 0
      ensures !isCancelled && !isErrored
      ensures engine == InitialEngine && events == []
    {
      processedBytes := 0;
      lastUploaded := 0;
      totalFiles := 0;
      totalFolders := 0;
      isCancelled := false;
      isErrored := false;
      engine := InitialEngine;
      events := [];
    }

    function Progress(): Counters
      reads this
    {
      Counters(processedBytes, lastUploaded)
    }

    /** `__progress_callback`, and its twin `_PixelDrain__progress_callback`, which has the
        same body and exists only so that the name-mangled lookup from inside the PixelDrain
        class finds it. */
    method ProgressCallback(current: int)
      modifies this`processedBytes, this`lastUploaded
      ensures lastUploaded == current
      ensures processedBytes - lastUploaded == old(processedBytes - lastUploaded)
      ensures Progress() == Report(old(Progress()), current)
    {
      var chunkSize := current - lastUploaded;
      lastUploaded := current;
      processedBytes := processedBytes + chunkSize;
    }

    /** `cancel_download`: raise the flag and tell the listener the upload was stopped. */
    method CancelDownload()
      modifies this`isCancelled, this`events
      ensures isCancelled
      ensures events == old(events) + [UploadError(StopMessage)]
    {
      isCancelled := true;
      events := events + [UploadError(StopMessage)];
    }
  }
}
