/** progress_file_reader.py: a buffered file reader that reports, before every read, the
    offset it is about to read from to the session's progress callback. The file is its
    byte content; the size taken at construction is that content's length. */
module ProgressReader {
  import opened Results
  import opened PyValues
  import opened Session

  /** What a read hands back: bytes, or the ValueError of a negative length other than -1. */
  datatype ReadResult = Chunk(data: seq<Byte>) | ReadFailed(msg: string)

  const NegativeReadMessage: string := "read length must be non-negative or -1"

  /** The length `read` passes on to the buffered file: `size or (length - tell())`, so an
      absent size and a size of 0 both ask for everything that is left. */
  function Requested(size: Option<int>, length: int, pos: int): int {
    if size.None? || size.value == 0 then length - pos else size.value
  }

  /** `BufferedReader.read(n)` at position pos: at most n bytes from pos on, everything left
      for -1, and a ValueError for any other negative n. */
  function BufferedRead(content: seq<Byte>, pos: nat, n: int): (r: ReadResult)
    requires pos <= |content|
    ensures r.Chunk? <==> n >= -1
    ensures r.Chunk? ==> pos + |r.data| <= |content| && r.data == content[pos..pos + |r.data|]
    ensures r.Chunk? && n >= 0 ==> |r.data| == if pos + n <= |content| then n else |content| - pos
    ensures n == -1 ==> r == Chunk(content[pos..])
  {
    if n < -1 then ReadFailed(NegativeReadMessage)
    else if n == -1 || pos + n > |content| then Chunk(content[pos..])
    else Chunk(content[pos..pos + n])
  }

  /** A read with no size, or with size 0, returns everything from the position on. */
  lemma DefaultSizeReadsRest(content: seq<Byte>, pos: nat, size: Option<int>)
    requires pos <= |content|
    requires size.None? || size.value == 0
    ensures BufferedRead(content, pos, Requested(size, |content|, pos)) == Chunk(content[pos..])
  {
  }

  /** A read that may succeed returns nothing only when the position is at the end. */
  lemma EmptyOnlyAtEnd(content: seq<Byte>, pos: nat, size: Option<int>)
    requires pos <= |content|
    requires BufferedRead(content, pos, Requested(size, |content|, pos)) == Chunk([])
    ensures pos == |content|
  {
  }

  class ProgressFileReader {
    /** The bytes of the file. */
    const content: seq<Byte>
    /** `length`: the file's size, fixed when the reader is made. */
    const length: nat
    /** `tell()`: the position of the next read. */
    var pos: nat
    /** The session whose progress callback is `read_callback`, or null when there is none. */
    const callback: Uploader?

    ghost predicate Valid()
      reads this
    {
      length == |content| && pos <= length
    }

    constructor (content: seq<Byte>, callback: Uploader?)
      ensures Valid()
      ensures this.content == content && this.callback == callback
      ensures length == |content| && pos == 0
    {
      this.content := content;
      this.length := |content|;
      this.pos := 0;
      this.callback := callback;
    }

    /** `read(size)`: report the current position, then read. */
    method Read(size: Option<int>) returns (r: ReadResult)
      requires Valid()
      modifies this`pos, callback
      ensures Valid()
      ensures r == BufferedRead(content, old(pos), Requested(size, length, old(pos)))
      ensures pos == old(pos) + (if r.Chunk? then |r.data| else 0)
      ensures callback != null ==> callback.Progress() == Report(old(callback.Progress()), old(pos))
      ensures callback != null ==>
        callback.totalFiles == old(callback.totalFiles) &&
        callback.totalFolders == old(callback.totalFolders) &&
        callback.isCancelled == old(callback.isCancelled) &&
        callback.isErrored == old(callback.isErrored) &&
        callback.engine == old(callback.engine) && callback.events == old(callback.events)
    {
      var n := Requested(size, length, pos);
      if callback != null {
        callback.ProgressCallback(pos);
      }
      r := BufferedRead(content, pos, n);
      if r.Chunk? {
        pos := pos + |r.data|;
      }
    }
  }

  /** What a run of reads from position pos produces: the offset reported before each read,
      the bytes each read returned, and the position after the last. */
  datatype Trace = Trace(offsets: seq<nat>, chunks: seq<seq<Byte>>, end: nat)

  /** A size `read` accepts without raising. */
  predicate ValidSize(size: Option<int>) {
    size.None? || size.value >= -1
  }

  /** Reads with the given sizes, one after the other, from position pos. */
  function Reads(content: seq<Byte>, pos: nat, sizes: seq<Option<int>>): (t: Trace)
    requires pos <= |content|
    requires forall i :: 0 <= i < |sizes| ==> ValidSize(sizes[i])
    ensures |t.offsets| == |t.chunks| == |sizes|
    ensures pos <= t.end <= |content|
    decreases |sizes|
  {
    if sizes == [] then Trace([], [], pos)
    else
      assert ValidSize(sizes[0]);
      var r := BufferedRead(content, pos, Requested(sizes[0], |content|, pos));
      var rest := Reads(content, pos + |r.data|, sizes[1..]);
      Trace([pos] + rest.offsets, [r.data] + rest.chunks, rest.end)
  }

  /** The concatenation of chunks. */
  function Concat(chunks: seq<seq<Byte>>): seq<Byte> {
    if chunks == [] then [] else chunks[0] + Concat(chunks[1..])
  }

  /** The chunk ch is the stretch of the file that starts at offset off. */
  predicate ChunkAt(content: seq<Byte>, off: nat, ch: seq<Byte>) {
    off + |ch| <= |content| && ch == content[off..off + |ch|]
  }

  /** Sequential reads return the file's bytes in order, without gaps or repeats. */
  lemma {:induction false} ReadsConcatenate(content: seq<Byte>, pos: nat, sizes: seq<Option<int>>)
    requires pos <= |content|
    requires forall i :: 0 <= i < |sizes| ==> ValidSize(sizes[i])
    ensures Concat(Reads(content, pos, sizes).chunks) == content[pos..Reads(content, pos, sizes).end]
    decreases |sizes|
  {
    if sizes != [] {
      assert ValidSize(sizes[0]);
      var r := BufferedRead(content, pos, Requested(sizes[0], |content|, pos));
      var p' := pos + |r.data|;
      ReadsConcatenate(content, p', sizes[1..]);
      var rest := Reads(content, p', sizes[1..]);
      assert Reads(content, pos, sizes).chunks == [r.data] + rest.chunks;
      assert content[pos..rest.end] == r.data + content[p'..rest.end];
    }
  }

  /** Each read reports the offset where its own chunk starts. */
  lemma {:induction false} ReadsReportChunkStarts(content: seq<Byte>, pos: nat, sizes: seq<Option<int>>)
    requires pos <= |content|
    requires forall i :: 0 <= i < |sizes| ==> ValidSize(sizes[i])
    ensures forall i :: 0 <= i < |sizes| ==>
      ChunkAt(content, Reads(content, pos, sizes).offsets[i], Reads(content, pos, sizes).chunks[i])
    decreases |sizes|
  {
    if sizes != [] {
      assert ValidSize(sizes[0]);
      var r := BufferedRead(content, pos, Requested(sizes[0], |content|, pos));
      var p' := pos + |r.data|;
      ReadsReportChunkStarts(content, p', sizes[1..]);
      var rest := Reads(content, p', sizes[1..]);
      var t := Reads(content, pos, sizes);
      assert t.offsets == [pos] + rest.offsets && t.chunks == [r.data] + rest.chunks;
      forall i | 0 <= i < |sizes|
        ensures ChunkAt(content, t.offsets[i], t.chunks[i])
      {
        if i > 0 {
          assert t.offsets[i] == rest.offsets[i - 1] && t.chunks[i] == rest.chunks[i - 1];
          assert ChunkAt(content, rest.offsets[i - 1], rest.chunks[i - 1]);
        } else {
          assert r.Chunk?;
          assert ChunkAt(content, pos, r.data);
        }
      }
    }
  }

  /** Reading the file from the start until a read comes back empty, with the session's
      callback starting from `last_uploaded = 0`: `processed_bytes` grows by exactly the file
      length, and the last non-empty chunk is only counted by that final empty read. */
  lemma {:induction false} ReadToEndCountsLength(content: seq<Byte>, sizes: seq<Option<int>>, processed: int)
    requires forall i :: 0 <= i < |sizes| ==> ValidSize(sizes[i])
    requires sizes != []
    requires Reads(content, 0, sizes).chunks[|sizes| - 1] == []
    ensures ReportAll(Counters(processed, 0), Reads(content, 0, sizes).offsets).processed
            == processed + |content|
    ensures |sizes| >= 2 ==>
      ReportAll(Counters(processed, 0), Reads(content, 0, sizes).offsets[..|sizes| - 1]).processed
      == processed + |content| - |Reads(content, 0, sizes).chunks[|sizes| - 2]|
  {
    var t := Reads(content, 0, sizes);
    LastReadAt(content, 0, sizes);
    Telescoping(Counters(processed, 0), t.offsets);
    if |sizes| >= 2 {
      var front := t.offsets[..|sizes| - 1];
      Telescoping(Counters(processed, 0), front);
      assert t.offsets[|sizes| - 2] + |t.chunks[|sizes| - 2]| == t.offsets[|sizes| - 1];
    }
  }

  /** The last read starts where the previous one stopped; a last read that came back empty
      was made at the end of the file. */
  lemma {:induction false} LastReadAt(content: seq<Byte>, pos: nat, sizes: seq<Option<int>>)
    requires pos <= |content|
    requires forall i :: 0 <= i < |sizes| ==> ValidSize(sizes[i])
    requires sizes != []
    ensures var t := Reads(content, pos, sizes);
      t.offsets[|sizes| - 1] + |t.chunks[|sizes| - 1]| == t.end &&
      (|sizes| >= 2 ==> t.offsets[|sizes| - 2] + |t.chunks[|sizes| - 2]| == t.offsets[|sizes| - 1]) &&
      (t.chunks[|sizes| - 1] == [] ==> t.offsets[|sizes| - 1] == |content|)
    decreases |sizes|
  {
    assert ValidSize(sizes[0]);
    var r := BufferedRead(content, pos, Requested(sizes[0], |content|, pos));
    if |sizes| == 1 {
      if r.data == [] {
        EmptyOnlyAtEnd(content, pos, sizes[0]);
      }
    } else {
      LastReadAt(content, pos + |r.data|, sizes[1..]);
    }
  }
}
