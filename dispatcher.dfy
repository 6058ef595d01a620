/** The dispatcher of ddlEngine.py: `__upload_to_ddl`, which runs the adapter of every enabled
    service in the user's settings in turn and gathers links and errors, and the `upload`
    wrapper, which hands the result to the listener. Each adapter's `upload` call is given as
    an input: what it returned or raised, and what it did to the progress counters. */
module Dispatcher {
  import opened Results
  import opened PyValues
  import opened Session
  import PD = PixelDrain

  /** The services the loop has a branch for. */
  datatype Backend = GoFile | StreamTape | PixelDrain | BuzzHeavier

  /** The branch a service id selects; other ids (such as "ranoz") select none. */
  function BackendOf(id: string): (r: Option<Backend>)
    ensures r.Some? ==> IdOf(r.value) == id
    ensures (exists b :: IdOf(b) == id) ==> r.Some?
  {
    if id == "gofile" then Some(GoFile)
    else if id == "streamtape" then Some(StreamTape)
    else if id == "pixeldrain" then Some(PixelDrain)
    else if id == "buzzheavier" then Some(BuzzHeavier)
    else None
  }

  function IdOf(b: Backend): string {
    match b
    case GoFile => "gofile"
    case StreamTape => "streamtape"
    case PixelDrain => "pixeldrain"
    case BuzzHeavier => "buzzheavier"
  }

  /** The key a service's link is stored under. */
  function DisplayName(b: Backend): string {
    match b
    case GoFile => "GoFile"
    case StreamTape => "StreamTape"
    case PixelDrain => "PixelDrain"
    case BuzzHeavier => "BuzzHeavier"
  }

  /** The engine label shown while the service runs. */
  function EngineLabel(b: Backend): string {
    DisplayName(b) + " API"
  }

  /** What a service's `upload` call did once its adapter was built: its outcome; whether it
      set `last_uploaded` to 0 before reading (the BuzzHeavier adapter does, the PixelDrain
      adapter does not); and the offsets its readers reported to the progress callback, in
      order, over all attempts. */
  datatype ServiceCall = ServiceCall(outcome: Outcome<string>, resetsLast: bool, offsets: seq<int>)

  /** One entry of the user's `ddl_servers` dict, in iteration order: the service id, whether
      it is enabled, its credential, and what its adapter's `upload` would do. */
  datatype Entry = Entry(id: string, enabled: bool, credential: string, call: ServiceCall)

  /** What happens between setting the engine label and calling `upload`: StreamTape's
      credential is unpacked into login and key, and the PixelDrain constructor refuses an
      empty key; either failure raises before the adapter runs. */
  function Build(b: Backend, credential: string): (r: Result<()>)
    ensures b == GoFile || b == BuzzHeavier ==> r.Ok?
    ensures b == StreamTape ==> (r.Ok? <==> CountChar(credential, ':') == 1)
    ensures b == StreamTape && CountChar(credential, ':') == 0 ==> r == Err(NotEnoughValuesMessage)
    ensures b == StreamTape && CountChar(credential, ':') > 1 ==> r == Err(TooManyValuesMessage)
    ensures b == PixelDrain ==> (r.Ok? <==> credential != "")
    ensures b == PixelDrain && r.Err? ==> r.msg == PD.KeyRequiredMessage
  {
    match b
    case StreamTape =>
      var split := SplitPair(credential, ':');
      if split.Ok? then Ok(()) else Err(split.msg)
    case PixelDrain =>
      var client := PD.New(credential);
      if client.Ok? then Ok(()) else Err(client.msg)
    case _ => Ok(())
  }

  /** The counters after a call: `last_uploaded` reset first when the adapter does so, then
      one callback per reported offset. */
  function CallProgress(c: Counters, call: ServiceCall): Counters {
    ReportAll(if call.resetsLast then Counters(c.processed, 0) else c, call.offsets)
  }

  predicate HasId(errors: seq<(string, string)>, id: string) {
    exists i :: 0 <= i < |errors| && errors[i].0 == id
  }

  /** `upload_errors[id] = msg`: a new id goes last; an id already present keeps its place
      and takes the new message. */
  function PutError(errors: seq<(string, string)>, id: string, msg: string)
    : (r: seq<(string, string)>)
    ensures !HasId(errors, id) ==> r == errors + [(id, msg)]
    ensures HasId(errors, id) ==>
      |r| == |errors| &&
      (forall i :: 0 <= i < |r| ==> r[i] == if errors[i].0 == id then (id, msg) else errors[i])
  {
    if !HasId(errors, id) then errors + [(id, msg)]
    else seq(|errors|, i requires 0 <= i < |errors| =>
               if errors[i].0 == id then (id, msg) else errors[i])
  }

  /** The loop's locals and the session fields it writes. */
  datatype LoopState = LoopState(links: map<string, string>, errors: seq<(string, string)>,
                                 progress: Counters, totalFiles: int, totalFolders: int,
                                 engine: string)

  /** One iteration of the loop of `__upload_to_ddl` (ddlEngine.py lines 91-121). */
  function Step(s: LoopState, e: Entry): LoopState {
    if !e.enabled then s
    else
      var s1 := s.(totalFiles := 0, totalFolders := 0);
      match BackendOf(e.id)
      case None => s1.(progress := s1.progress.(processed := 0))
      case Some(b) =>
        var s2 := s1.(engine := EngineLabel(b));
        match Build(b, e.credential)
        case Err(msg) => s2.(errors := PutError(s2.errors, e.id, msg))
        case Ok(_) =>
          var p := CallProgress(s2.progress, e.call);
          match e.call.outcome
          case Raised(msg) => s2.(progress := p, errors := PutError(s2.errors, e.id, msg))
          case Returned(link) =>
            var links := if link.Some? && link.value != "" then s2.links[DisplayName(b) := link.value]
                         else s2.links;
            s2.(progress := p.(processed := 0), links := links)
  }

  /** The state after the loop has visited the entries in order. */
  function Loop(s: LoopState, entries: seq<Entry>): LoopState {
    if entries == [] then s
    else Step(Loop(s, entries[..|entries| - 1]), entries[|entries| - 1])
  }

  const NoUploadsMessage: string := "No successful uploads completed."

  /** One "serv: err" line per recorded error, in order. */
  function ErrorLines(errors: seq<(string, string)>): (r: seq<string>)
    ensures |r| == |errors|
    ensures forall i :: 0 <= i < |r| ==> r[i] == errors[i].0 + ": " + errors[i].1
  {
    seq(|errors|, i requires 0 <= i < |errors| => errors[i].0 + ": " + errors[i].1)
  }

  /** The end of `__upload_to_ddl` (ddlEngine.py lines 123-134). */
  function Finish(s: LoopState): Result<map<string, string>> {
    if s.links != map[] then Ok(s.links)
    else if s.errors != [] then Err(Join(ErrorLines(s.errors), " | "))
    else Err(NoUploadsMessage)
  }

  // ---------------------------------------------------------------------------------------
  // What a single entry contributes, stated independently of the loop

  /** The entry stores `link` under `name`. */
  predicate Delivers(e: Entry, name: string, link: string) {
    e.enabled && BackendOf(e.id).Some? && DisplayName(BackendOf(e.id).value) == name &&
    Build(BackendOf(e.id).value, e.credential).Ok? &&
    e.call.outcome == Returned(Some(link)) && link != ""
  }

  /** The message the entry records under its id, if it records one. */
  function Failure(e: Entry): Option<string> {
    if !e.enabled || BackendOf(e.id).None? then None
    else
      var built := Build(BackendOf(e.id).value, e.credential);
      if built.Err? then Some(built.msg)
      else if e.call.outcome.Raised? then Some(e.call.outcome.msg)
      else None
  }

  /** The failing entries' ids and messages, in order. */
  function Failures(entries: seq<Entry>): seq<(string, string)> {
    if entries == [] then []
    else
      var last := entries[|entries| - 1];
      Failures(entries[..|entries| - 1]) +
        (if Failure(last).Some? then [(last.id, Failure(last).value)] else [])
  }

  predicate DistinctIds(entries: seq<Entry>) {
    forall i, j :: 0 <= i < j < |entries| ==> entries[i].id != entries[j].id
  }

  predicate IdAmong(entries: seq<Entry>, id: string) {
    exists i :: 0 <= i < |entries| && entries[i].id == id
  }

  /** Each failing entry's id is the id of one of the entries. */
  lemma {:induction false} FailureIds(entries: seq<Entry>)
    ensures forall k :: 0 <= k < |Failures(entries)| ==> IdAmong(entries, Failures(entries)[k].0)
  {
    if entries != [] {
      var front := entries[..|entries| - 1];
      var last := entries[|entries| - 1];
      FailureIds(front);
      assert Failures(entries) == Failures(front) +
        (if Failure(last).Some? then [(last.id, Failure(last).value)] else []);
      forall k | 0 <= k < |Failures(entries)|
        ensures IdAmong(entries, Failures(entries)[k].0)
      {
        if k < |Failures(front)| {
          var i :| 0 <= i < |front| && front[i].id == Failures(front)[k].0;
          assert entries[i].id == Failures(entries)[k].0;
        } else {
          assert entries[|entries| - 1].id == Failures(entries)[k].0;
        }
      }
    }
  }

  /** A disabled entry changes nothing; an enabled entry whose id has no branch only resets
      the file and folder totals and `processed_bytes`: neither records a link or an error. */
  lemma SkippedEntryLeavesNoTrace(s: LoopState, e: Entry)
    ensures !e.enabled ==> Step(s, e) == s
    ensures e.enabled && BackendOf(e.id).None? ==>
      Step(s, e) == s.(totalFiles := 0, totalFolders := 0,
                       progress := Counters(0, s.progress.last))
    ensures !e.enabled || BackendOf(e.id).None? ==>
      Step(s, e).links == s.links && Step(s, e).errors == s.errors
  {
  }

  /** Some entry among `entries` delivers `link` under `name`. */
  predicate DeliveredAmong(entries: seq<Entry>, name: string, link: string) {
    exists i :: 0 <= i < |entries| && Delivers(entries[i], name, link)
  }

  /** One step keeps or overwrites links: a link that changed was delivered by the entry. */
  lemma StepLinks(s: LoopState, e: Entry)
    ensures forall k :: k in Step(s, e).links ==>
      (k in s.links && Step(s, e).links[k] == s.links[k]) || Delivers(e, k, Step(s, e).links[k])
  {
  }

  /** Every link the loop holds came from an entry that delivered it, or was there before. */
  lemma {:induction false} LoopLinksSound(s: LoopState, entries: seq<Entry>)
    ensures forall k :: k in Loop(s, entries).links ==>
      DeliveredAmong(entries, k, Loop(s, entries).links[k]) ||
      (k in s.links && Loop(s, entries).links[k] == s.links[k])
  {
    if entries != [] {
      var front := entries[..|entries| - 1];
      var e := entries[|entries| - 1];
      var before := Loop(s, front);
      var after := Loop(s, entries);
      assert after == Step(before, e);
      LoopLinksSound(s, front);
      StepLinks(before, e);
      forall k | k in after.links
        ensures DeliveredAmong(entries, k, after.links[k]) ||
                (k in s.links && after.links[k] == s.links[k])
      {
        if k in before.links && after.links[k] == before.links[k] {
          if DeliveredAmong(front, k, before.links[k]) {
            var i :| 0 <= i < |front| && Delivers(front[i], k, before.links[k]);
            assert entries[i] == front[i];
          }
        } else {
          assert Delivers(entries[|entries| - 1], k, after.links[k]);
        }
      }
    }
  }

  /** No link is ever removed, and every delivering entry leaves its name in the map. */
  lemma {:induction false} LoopLinksComplete(s: LoopState, entries: seq<Entry>)
    ensures forall k :: k in s.links ==> k in Loop(s, entries).links
    ensures forall i, k, l :: 0 <= i < |entries| && Delivers(entries[i], k, l) ==>
      k in Loop(s, entries).links
  {
    if entries != [] {
      var front := entries[..|entries| - 1];
      LoopLinksComplete(s, front);
      forall i, k, l | 0 <= i < |entries| && Delivers(entries[i], k, l)
        ensures k in Loop(s, entries).links
      {
        if i < |front| {
          assert entries[i] == front[i];
        }
      }
    }
  }

  /** When the ids are distinct and not among the errors already recorded, the loop appends
      exactly the failing entries' ids and messages, in iteration order. */
  lemma {:induction false} LoopErrors(s: LoopState, entries: seq<Entry>)
    requires DistinctIds(entries)
    requires forall i :: 0 <= i < |entries| ==> !HasId(s.errors, entries[i].id)
    ensures Loop(s, entries).errors == s.errors + Failures(entries)
  {
    if entries != [] {
      var front := entries[..|entries| - 1];
      var e := entries[|entries| - 1];
      var before := Loop(s, front);
      forall i | 0 <= i < |front|
        ensures entries[i] == front[i]
      {
      }
      LoopErrors(s, front);
      if Failure(e).Some? {
        FailureIds(front);
        assert !HasId(before.errors, e.id);
        assert Failures(entries) == Failures(front) + [(e.id, Failure(e).value)];
      } else {
        assert Failures(entries) == Failures(front);
      }
    }
  }

  /** What a run of the loop that records nothing ends in: with no entry failing and none
      delivering, the errors and links are those it started with. */
  lemma {:induction false} QuietLoop(s: LoopState, entries: seq<Entry>)
    requires forall i :: 0 <= i < |entries| ==> Failure(entries[i]).None?
    requires forall i :: 0 <= i < |entries| ==> !entries[i].call.outcome.Returned? ||
                                                entries[i].call.outcome.link.None?
    ensures Loop(s, entries).errors == s.errors
    ensures Loop(s, entries).links == s.links
  {
    if entries != [] {
      var front := entries[..|entries| - 1];
      forall i | 0 <= i < |front|
        ensures entries[i] == front[i]
      {
      }
      QuietLoop(s, front);
    }
  }

  /** The counters over one entry: an enabled entry resets the file and folder totals; when
      its adapter returned, `processed_bytes` is back to 0; when it raised, what its reads
      counted stays counted, and that is the last offset reported minus `last_uploaded` as
      the adapter found it. */
  lemma StepProgress(s: LoopState, e: Entry)
    requires e.enabled && BackendOf(e.id).Some? && Build(BackendOf(e.id).value, e.credential).Ok?
    ensures Step(s, e).totalFiles == 0 && Step(s, e).totalFolders == 0
    ensures e.call.outcome.Returned? ==> Step(s, e).progress.processed == 0
    ensures e.call.outcome.Raised? && e.call.offsets != [] ==>
      Step(s, e).progress.processed ==
        s.progress.processed + e.call.offsets[|e.call.offsets| - 1] -
        (if e.call.resetsLast then 0 else s.progress.last)
  {
    var c := if e.call.resetsLast then Counters(s.progress.processed, 0) else s.progress;
    Telescoping(c, e.call.offsets);
  }

  /** A StreamTape credential that does not hold exactly one ':' becomes StreamTape's error,
      with the unpacking message, before any upload: no link, and the counters other than the
      totals untouched. */
  lemma StreamTapeBadCredential(s: LoopState, e: Entry)
    requires e.enabled && e.id == "streamtape" && CountChar(e.credential, ':') != 1
    ensures var msg := if CountChar(e.credential, ':') == 0 then NotEnoughValuesMessage
                       else TooManyValuesMessage;
      Step(s, e) == s.(totalFiles := 0, totalFolders := 0, engine := "StreamTape API",
                       errors := PutError(s.errors, "streamtape", msg))
  {
  }

  /** The three ways `__upload_to_ddl` ends: the link map when there is one; otherwise one
      message that holds each recorded "serv: err" line, in order, separated by " | "; and
      "No successful uploads completed." when nothing was recorded either. */
  lemma FinishOutcomes(s: LoopState)
    ensures Finish(s).Ok? <==> s.links != map[]
    ensures Finish(s).Ok? ==> Finish(s).value == s.links
    ensures s.links == map[] && s.errors == [] ==> Finish(s) == Err(NoUploadsMessage)
    ensures s.links == map[] && s.errors != [] ==>
      forall k :: 0 <= k < |s.errors| ==> ErrorLineAt(Finish(s).msg, s.errors, k)
    ensures s.links == map[] ==>
      forall k :: 0 <= k < |s.errors| - 1 ==> ErrorLinesAdjacent(Finish(s).msg, s.errors, k)
    ensures s.links == map[] && s.errors != [] ==>
      |Finish(s).msg| == TotalLength(ErrorLines(s.errors)) + 3 * (|s.errors| - 1)
  {
    if s.links == map[] && s.errors != [] {
      var lines := ErrorLines(s.errors);
      JoinLength(lines, " | ");
      forall k | 0 <= k < |s.errors|
        ensures ErrorLineAt(Finish(s).msg, s.errors, k)
      {
        JoinHasItem(lines, " | ", k);
        var pre, post :| Join(lines, " | ") == pre + lines[k] + post &&
          (k == 0 ==> pre == []) && (k > 0 ==> |pre| >= |" | "| && pre[|pre| - |" | "|..] == " | ");
        assert Finish(s).msg == pre + (s.errors[k].0 + ": " + s.errors[k].1) + post;
      }
      forall k | 0 <= k < |s.errors| - 1
        ensures ErrorLinesAdjacent(Finish(s).msg, s.errors, k)
      {
        JoinedLinesAdjacent(s.errors, k);
      }
    }
  }

  /** The joined error lines keep the k-th and the next one side by side. */
  lemma JoinedLinesAdjacent(errors: seq<(string, string)>, k: nat)
    requires k + 1 < |errors|
    ensures ErrorLinesAdjacent(Join(ErrorLines(errors), " | "), errors, k)
  {
    var lines := ErrorLines(errors);
    var pre, post := JoinAdjacent(lines, " | ", k);
    var a, b := lines[k], lines[k + 1];
    assert a == errors[k].0 + ": " + errors[k].1;
    assert b == errors[k + 1].0 + ": " + errors[k + 1].1;
    assert Join(lines, " | ") == pre + a + " | " + b + post;
  }

  /** The k-th error's "serv: err" line occurs in msg, first or after a " | ". */
  ghost predicate ErrorLineAt(msg: string, errors: seq<(string, string)>, k: nat)
    requires k < |errors|
  {
    exists pre, post ::
      msg == pre + (errors[k].0 + ": " + errors[k].1) + post &&
      (k == 0 ==> pre == []) && (k > 0 ==> |pre| >= 3 && pre[|pre| - 3..] == " | ")
  }

  /** The k-th and the next error's lines stand side by side in msg, one " | " apart: the
      first line starts msg, the last one ends it, and any other is bounded by " | ". Holding
      for every k, this fixes the lines' order. */
  ghost predicate ErrorLinesAdjacent(msg: string, errors: seq<(string, string)>, k: nat)
    requires k + 1 < |errors|
  {
    exists pre, post ::
      msg == pre + (errors[k].0 + ": " + errors[k].1) + " | " +
             (errors[k + 1].0 + ": " + errors[k + 1].1) + post &&
      (k == 0 ==> pre == []) && (k > 0 ==> |pre| >= 3 && pre[|pre| - 3..] == " | ") &&
      (k + 2 == |errors| ==> post == []) && (k + 2 < |errors| ==> |post| >= 3 && post[..3] == " | ")
  }

  // ---------------------------------------------------------------------------------------
  // The session's side: the loop as a method, and the `upload` wrapper

  /** The state the loop starts from in a session: no links, no errors, the session's fields. */
  function Start(progress: Counters, totalFiles: int, totalFolders: int, engine: string): LoopState {
    LoopState(map[], [], progress, totalFiles, totalFolders, engine)
  }

  /** An adapter's readers reporting their offsets to the session's callback, in order. */
  method ReportOffsets(u: Uploader, offsets: seq<int>)
    modifies u`processedBytes, u`lastUploaded
    ensures u.Progress() == ReportAll(old(u.Progress()), offsets)
  {
    for j := 0 to |offsets|
      invariant u.Progress() == ReportAll(old(u.Progress()), offsets[..j])
    {
      assert offsets[..j + 1][..j] == offsets[..j];
      u.ProgressCallback(offsets[j]);
    }
    assert offsets[..|offsets|] == offsets;
  }

  /** `__upload_to_ddl`: the loop fills the two dicts in place and writes the session's
      counters, engine label and totals as it goes. */
  method UploadToDdl(u: Uploader, entries: seq<Entry>) returns (r: Result<map<string, string>>)
    modifies u`processedBytes, u`lastUploaded, u`totalFiles, u`totalFolders, u`engine
    ensures var s := Loop(Start(old(u.Progress()), old(u.totalFiles), old(u.totalFolders),
                                old(u.engine)), entries);
      r == Finish(s) && u.Progress() == s.progress && u.totalFiles == s.totalFiles &&
      u.totalFolders == s.totalFolders && u.engine == s.engine
  {
    var links: map<string, string> := map[];
    var errors: seq<(string, string)> := [];
    ghost var start := Start(u.Progress(), u.totalFiles, u.totalFolders, u.engine);
    for i := 0 to |entries|
      invariant Loop(start, entries[..i]) ==
                LoopState(links, errors, u.Progress(), u.totalFiles, u.totalFolders, u.engine)
    {
      var e := entries[i];
      assert entries[..i + 1][..i] == entries[..i];
      if e.enabled {
        u.totalFiles := 0;
        u.totalFolders := 0;
        var b := BackendOf(e.id);
        if b.None? {
          u.processedBytes := 0;
        } else {
          u.engine := EngineLabel(b.value);
          var built := Build(b.value, e.credential);
          if built.Err? {
            errors := PutError(errors, e.id, built.msg);
          } else {
            if e.call.resetsLast {
              u.lastUploaded := 0;
            }
            ReportOffsets(u, e.call.offsets);
            match e.call.outcome {
              case Raised(msg) =>
                errors := PutError(errors, e.id, msg);
              case Returned(link) =>
                if link.Some? && link.value != "" {
                  links := links[DisplayName(b.value) := link.value];
                }
                u.processedBytes := 0;
            }
          }
        }
      }
    }
    assert entries[..|entries|] == entries;
    if links == map[] {
      if errors != [] {
        return Err(Join(ErrorLines(errors), " | "));
      }
      return Err(NoUploadsMessage);
    }
    return Ok(links);
  }

  /** The error text the listener receives: `str(err)` without '>' and '<'. */
  function Sanitize(msg: string): (r: string)
    ensures forall c :: c in r <==> c in msg && c != '<' && c != '>'
  {
    RemoveChar(RemoveChar(msg, '>'), '<')
  }

  /** Sanitising is a filter: it works character by character, keeping every character but
      '<' and '>' in order; so it is idempotent. */
  lemma SanitizeIsFilter(a: string, b: string, c: char)
    ensures Sanitize(a + b) == Sanitize(a) + Sanitize(b)
    ensures Sanitize([c]) == if c == '<' || c == '>' then [] else [c]
    ensures Sanitize(Sanitize(a)) == Sanitize(a)
  {
    RemoveCharAppend(a, b, '>');
    RemoveCharAppend(RemoveChar(a, '>'), RemoveChar(b, '>'), '<');
    RemoveCharAbsent(Sanitize(a), '>');
    RemoveCharAbsent(Sanitize(a), '<');
    assert [c][1..] == [];
  }

  /** The text `upload` would raise if the loop gave back None, which it never does. */
  const ManualCancelMessage: string := "Upload has been manually cancelled!"

  /** `upload(file_name, size)`: the MIME type is "Folder" for anything but a file; the loop
      runs; `cancelDuringLoop` stands for a `cancel_download` that ran while it did. A raised
      loop reaches the listener as a sanitised error and marks the session errored; a
      returned one reaches it as a completed upload unless the session was cancelled. */
  method Upload(u: Uploader, fileName: string, size: int, isFile: bool, fileMimeType: string,
                entries: seq<Entry>, cancelDuringLoop: bool)
    modifies u`processedBytes, u`lastUploaded, u`totalFiles, u`totalFolders, u`engine
    modifies u`isCancelled, u`isErrored, u`events
    ensures var s := Loop(Start(old(u.Progress()), old(u.totalFiles), old(u.totalFolders),
                                old(u.engine)), entries);
      var result := Finish(s);
      var mimeType := if isFile then fileMimeType else "Folder";
      u.isCancelled == (old(u.isCancelled) || cancelDuringLoop) &&
      u.isErrored == (old(u.isErrored) || result.Err?) &&
      u.Progress() == s.progress && u.totalFiles == s.totalFiles &&
      u.totalFolders == s.totalFolders && u.engine == s.engine &&
      u.events == old(u.events) + (if cancelDuringLoop then [UploadError(StopMessage)] else []) +
        (if result.Err? then [UploadError(Sanitize(result.msg))]
         else if u.isCancelled then []
         else [UploadComplete(result.value, size, s.totalFiles, s.totalFolders, mimeType, fileName)])
  {
    var mimeType := if isFile then fileMimeType else "Folder";
    var link := UploadToDdl(u, entries);
    if cancelDuringLoop {
      u.CancelDownload();
    }
    if link.Err? {
      u.events := u.events + [UploadError(Sanitize(link.msg))];
      u.isErrored := true;
      return;
    }
    if u.isCancelled {
      return;
    }
    u.events := u.events + [UploadComplete(link.value, size, u.totalFiles, u.totalFolders, mimeType, fileName)];
  }

  /** Text without '<' and '>' reaches the listener unchanged. */
  lemma {:induction false} SanitizeKeepsPlainText(msg: string)
    requires '<' !in msg && '>' !in msg
    ensures Sanitize(msg) == msg
  {
    RemoveCharAbsent(msg, '>');
    RemoveCharAbsent(msg, '<');
  }

  /** When every adapter saw the flag and returned None, the loop records nothing and
      raises "No successful uploads completed.". */
  lemma {:induction false} CancelledLoopRaises(s: LoopState, entries: seq<Entry>)
    requires s.links == map[] && s.errors == []
    requires forall i :: 0 <= i < |entries| ==> Failure(entries[i]).None?
    requires forall i :: 0 <= i < |entries| ==> entries[i].call.outcome == Returned(None)
    ensures Finish(Loop(s, entries)) == Err(NoUploadsMessage)
  {
    QuietLoop(s, entries);
  }

  /** A session cancelled during `upload`, while every adapter saw the flag and returned None,
      reports twice to its listener: the stop message, then "No successful uploads
      completed.", unchanged by sanitising; the session ends cancelled and errored. */
  method CancelledUploadReportsTwice(u: Uploader, fileName: string, size: int, isFile: bool,
                                     fileMimeType: string, entries: seq<Entry>)
    requires forall i :: 0 <= i < |entries| ==> Failure(entries[i]).None?
    requires forall i :: 0 <= i < |entries| ==> entries[i].call.outcome == Returned(None)
    modifies u`processedBytes, u`lastUploaded, u`totalFiles, u`totalFolders, u`engine
    modifies u`isCancelled, u`isErrored, u`events
    ensures u.isCancelled && u.isErrored
    ensures u.events == old(u.events) + [UploadError(StopMessage), UploadError(NoUploadsMessage)]
  {
    CancelledLoopRaises(Start(u.Progress(), u.totalFiles, u.totalFolders, u.engine), entries);
    NoUploadsMessageIsPlain();
    Upload(u, fileName, size, isFile, fileMimeType, entries, true);
  }

  /** "No successful uploads completed." reaches the listener unchanged. */
  lemma NoUploadsMessageIsPlain()
    ensures Sanitize(NoUploadsMessage) == NoUploadsMessage
  {
    assert forall i :: 0 <= i < |NoUploadsMessage| ==>
      NoUploadsMessage[i] != '<' && NoUploadsMessage[i] != '>';
    SanitizeKeepsPlainText(NoUploadsMessage);
  }
}
