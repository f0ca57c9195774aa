/**
 The tail of a project log, internal/api/projects.go: a ring of the last lines is overwritten while
 the file is read, then the ring is unrolled.
 */
module LogTail {
  import opened Wrappers
  import opened Remainders

  newtype byte = b: int | 0 <= b < 256

  type Bytes = seq<byte>

  const NEWLINE: byte := 10

  const MAX_PROJECT_TAIL_LINES := 5000

  datatype TailError = LimitExceeded | NotFound

  // ---------------------------------------------------------------- What a file is made of

  /** The length of the first chunk: up to and including the first newline, or everything. */
  function FirstLength(f: Bytes): (n: nat)
    ensures n <= |f| && (f != [] ==> n > 0)
  {
    if f == [] then 0 else if f[0] == NEWLINE then 1 else 1 + FirstLength(f[1..])
  }

  function Chunks(f: Bytes): seq<Bytes> {
    if f == [] then [] else [f[..FirstLength(f)]] + Chunks(f[FirstLength(f)..])
  }

  function Concat(chunks: seq<Bytes>): Bytes {
    if chunks == [] then [] else chunks[0] + Concat(chunks[1..])
  }

  /** Only the last byte of the chunk may be a newline. */
  predicate OneLine(chunk: Bytes) {
    chunk != [] && forall i :: 0 <= i < |chunk| - 1 ==> chunk[i] != NEWLINE
  }

  predicate Terminated(chunk: Bytes) { chunk != [] && chunk[|chunk| - 1] == NEWLINE }

  lemma {:induction false} FirstIsOneLine(f: Bytes)
    requires f != []
    ensures OneLine(f[..FirstLength(f)])
    ensures FirstLength(f) < |f| ==> Terminated(f[..FirstLength(f)])
  {
    if f[0] != NEWLINE && |f| > 1 {
      FirstIsOneLine(f[1..]);
      assert f[..FirstLength(f)] == [f[0]] + f[1..][..FirstLength(f[1..])];
    }
  }

  lemma {:induction false} ChunksRejoin(f: Bytes)
    ensures Concat(Chunks(f)) == f
  {
    if f != [] {
      var first, rest := f[..FirstLength(f)], f[FirstLength(f)..];
      ChunksRejoin(rest);
      assert ([first] + Chunks(rest))[1..] == Chunks(rest);
      assert f == first + rest;
    }
  }

  lemma {:induction false} ChunkIsLine(f: Bytes, i: nat)
    requires i < |Chunks(f)|
    ensures OneLine(Chunks(f)[i])
    ensures i < |Chunks(f)| - 1 ==> Terminated(Chunks(f)[i])
    decreases |f|
  {
    var rest := f[FirstLength(f)..];
    FirstIsOneLine(f);
    if i > 0 {
      ChunkIsLine(rest, i - 1);
      assert Chunks(f)[i] == Chunks(rest)[i - 1];
    } else if rest == [] {
      assert Chunks(rest) == [];
    }
  }

  /** The chunks are the file's lines: they put the file back together, and only the last may lack its newline. */
  lemma ChunksAreLines(f: Bytes)
    ensures Concat(Chunks(f)) == f
    ensures forall i :: 0 <= i < |Chunks(f)| ==> OneLine(Chunks(f)[i])
    ensures forall i :: 0 <= i < |Chunks(f)| - 1 ==> Terminated(Chunks(f)[i])
    ensures forall i, j :: 0 <= i < |Chunks(f)| && 0 <= j < |Chunks(f)[i]| ==>
              (Chunks(f)[i][j] == 10 ==> j == |Chunks(f)[i]| - 1) &&
              (i < |Chunks(f)| - 1 && j == |Chunks(f)[i]| - 1 ==> Chunks(f)[i][j] == 10)
  {
    ChunksRejoin(f);
    forall i | 0 <= i < |Chunks(f)|
      ensures OneLine(Chunks(f)[i]) && (i < |Chunks(f)| - 1 ==> Terminated(Chunks(f)[i]))
    {
      ChunkIsLine(f, i);
    }
  }

  lemma {:induction false} ConcatSplit(chunks: seq<Bytes>, k: nat)
    requires k <= |chunks|
    ensures Concat(chunks) == Concat(chunks[..k]) + Concat(chunks[k..])
  {
    if k > 0 {
      ConcatSplit(chunks[1..], k - 1);
      assert chunks[..k][1..] == chunks[1..][..k - 1];
      assert chunks[1..][k - 1..] == chunks[k..];
    }
  }

  lemma {:induction false} ConcatLast(chunks: seq<Bytes>, last: Bytes)
    ensures Concat(chunks + [last]) == Concat(chunks) + last
  {
    ConcatSplit(chunks + [last], |chunks|);
    assert (chunks + [last])[..|chunks|] == chunks && (chunks + [last])[|chunks|..] == [last];
    assert Concat([last]) == last;
  }

  // ---------------------------------------------------------------- What the tail is

  function Min(a: nat, b: nat): nat { if a < b then a else b }

  /** The last n chunks of the file, or all of them when there are fewer. */
  function LastChunks(f: Bytes, n: nat): seq<Bytes> {
    Chunks(f)[|Chunks(f)| - Min(n, |Chunks(f)|)..]
  }

  /** The tail is the end of the file; asking for as many lines as there are returns the whole of it. */
  lemma TailIsSuffix(f: Bytes, n: nat)
    ensures exists k :: 0 <= k <= |f| && Concat(LastChunks(f, n)) == f[k..]
    ensures n >= |Chunks(f)| ==> Concat(LastChunks(f, n)) == f
    ensures |LastChunks(f, n)| == if n < |Chunks(f)| then n else |Chunks(f)|
  {
    var all := Chunks(f);
    var cut := |all| - Min(n, |all|);
    ChunksAreLines(f);
    ConcatSplit(all, cut);
    var k := |Concat(all[..cut])|;
    assert 0 <= k <= |f| && Concat(LastChunks(f, n)) == f[k..];
  }

  // ---------------------------------------------------------------- Ring positions

  /** The slot written j steps before the one written last, when index is the next slot of m. */
  function Back(index: nat, j: nat, m: nat): (slot: nat)
    requires index < m && j < m
    ensures slot < m && (slot == index <==> j == m - 1)
  {
    if j < index then index - 1 - j else index - 1 - j + m
  }

  /** The remainder the ring arithmetic takes is at most one wrap. */
  lemma Wrap(x: nat, m: nat)
    requires x < 2 * m
    ensures x % m == if x < m then x else x - m
  {
    if x < m {
      SmallMod(x, m);
    } else {
      SmallMod(x - m, m);
      ModShift(x - m, m);
    }
  }

  // ---------------------------------------------------------------- Reading

  function NextLine(f: Bytes, pos: nat): (line: Bytes)
    requires pos <= |f|
    ensures pos + |line| <= |f| && (pos < |f| ==> line != [])
  {
    f[pos..][..FirstLength(f[pos..])]
  }

  /** Read up to and including the next newline; eof when the end came first. */
  method ReadBytes(f: Bytes, pos: nat) returns (chunk: Bytes, eof: bool)
    requires pos <= |f|
    ensures chunk == NextLine(f, pos)
    ensures eof <==> !Terminated(chunk)
    ensures eof ==> pos + |chunk| == |f|
  {
    var end := pos;
    while end < |f| && f[end] != NEWLINE
      invariant pos <= end <= |f|
      invariant FirstLength(f[pos..]) == end - pos + FirstLength(f[end..])
      invariant forall i :: pos <= i < end ==> f[i] != NEWLINE
    {
      assert f[end..][1..] == f[end + 1..];
      end := end + 1;
    }
    eof := end == |f|;
    if !eof {
      end := end + 1;
    }
    chunk := f[pos..end];
    assert chunk == f[pos..][..end - pos];
  }

  /** The ring after n chunks: going back from index it holds the last count of them. */
  ghost predicate RingHolds(ring: seq<Bytes>, all: seq<Bytes>, n: nat, index: nat, count: nat)
    requires index < |ring|
  {
    && count <= n <= |all| && count <= |ring|
    && forall j: nat :: j < count ==> ring[Back(index, j, |ring|)] == all[n - 1 - j]
  }

  lemma RingStep(ring: seq<Bytes>, all: seq<Bytes>, n: nat, index: nat, count: nat, index': nat, count': nat)
    requires index < |ring| && n < |all| && RingHolds(ring, all, n, index, count)
    requires index' == if index + 1 < |ring| then index + 1 else 0
    requires count' == if count < |ring| then count + 1 else count
    ensures RingHolds(ring[index := all[n]], all, n + 1, index', count')
  {
    var next := ring[index := all[n]];
    forall j: nat | j < count' ensures next[Back(index', j, |ring|)] == all[n - j] {
      if j > 0 {
        assert Back(index', j, |ring|) == Back(index, j - 1, |ring|);
        assert ring[Back(index, j - 1, |ring|)] == all[n - 1 - (j - 1)];
      }
    }
  }

  /** Overwrite the next slot with one more chunk. */
  method Push(ring: array<Bytes>, index: nat, count: nat, chunk: Bytes, ghost all: seq<Bytes>, ghost n: nat)
    returns (index': nat, count': nat)
    requires index < ring.Length && n < |all| && chunk == all[n]
    requires RingHolds(ring[..], all, n, index, count) && count == Min(ring.Length, n)
    modifies ring
    ensures index' < ring.Length && count' == Min(ring.Length, n + 1)
    ensures RingHolds(ring[..], all, n + 1, index', count')
  {
    var lines := ring.Length;
    ghost var was := ring[..];
    ring[index] := chunk;
    assert ring[..] == was[index := all[n]];
    Wrap(index + 1, lines);
    index' := (index + 1) % lines;
    count' := count;
    if count < lines {
      count' := count + 1;
    }
    RingStep(was, all, n, index, count, index', count');
  }

  /** Read the file to its end, overwriting the ring. */
  method FillRing(f: Bytes, lines: nat) returns (ring: array<Bytes>, index: nat, count: nat)
    requires lines > 0
    ensures fresh(ring) && ring.Length == lines
    ensures count == Min(lines, |Chunks(f)|) && index < lines
    ensures RingHolds(ring[..], Chunks(f), |Chunks(f)|, index, count)
  {
    ring := new Bytes[lines](_ => []);
    count, index := 0, 0;
    var pos, eof := 0, false;
    ghost var n := 0;
    ghost var all := Chunks(f);
    assert f[0..] == f;
    while !eof
      invariant pos <= |f| && index < lines
      invariant AtChunk(f, pos, all, n)
      invariant eof ==> pos == |f|
      invariant count == Min(lines, n)
      invariant RingHolds(ring[..], all, n, index, count)
      decreases |f| - pos, !eof
    {
      var chunk;
      chunk, eof := ReadBytes(f, pos);
      if |chunk| > 0 {
        NextChunk(f, pos, all, n, chunk);
        index, count := Push(ring, index, count, chunk, all, n);
        n := n + 1;
        pos := pos + |chunk|;
      }
    }
    assert all[n..] == [];
  }

  /** Append the ring's chunks, oldest first. */
  method UnrollRing(ring: array<Bytes>, index: nat, count: nat, ghost all: seq<Bytes>) returns (buf: Bytes)
    requires index < ring.Length && RingHolds(ring[..], all, |all|, index, count)
    ensures buf == Concat(all[|all| - count..])
  {
    var lines := ring.Length;
    Wrap(index - count + lines, lines);
    var start := (index - count + lines) % lines;
    buf := [];
    ghost var first := |all| - count;
    for i := 0 to count
      invariant buf == Concat(all[first..first + i])
    {
      Wrap(start + i, lines);
      var pos := (start + i) % lines;
      assert pos == Back(index, count - 1 - i, lines);
      assert ring[..][pos] == all[|all| - 1 - (count - 1 - i)];
      ConcatLast(all[first..first + i], all[first + i]);
      assert all[first..first + i + 1] == all[first..first + i] + [all[first + i]];
      buf := buf + ring[pos];
    }
    assert all[first..first + count] == all[first..];
  }

  method TailProjectLog(file: Option<Bytes>, lines: int) returns (r: Result<Bytes, TailError>)
    ensures r.Err? && r.error == LimitExceeded <==> lines > 5000
    ensures r.Err? && r.error == NotFound <==> 0 < lines <= 5000 && file.None?
    ensures r.Ok? && lines <= 0 ==> r.value == []
    ensures r.Ok? && lines > 0 ==> file.Some? && r.value == Concat(LastChunks(file.value, lines))
  {
    if lines <= 0 {
      return Ok([]);
    }
    if lines > MAX_PROJECT_TAIL_LINES {
      return Err(LimitExceeded);
    }
    if file.None? {
      return Err(NotFound);
    }
    var ring, index, count := FillRing(file.value, lines);
    if count == 0 {
      return Ok([]);
    }
    var buf := UnrollRing(ring, index, count, Chunks(file.value));
    return Ok(buf);
  }

  /** n of the chunks lie before position pos. */
  ghost predicate AtChunk(f: Bytes, pos: nat, all: seq<Bytes>, n: nat) {
    pos <= |f| && n <= |all| && all[n..] == Chunks(f[pos..])
  }

  lemma NextChunk(f: Bytes, pos: nat, all: seq<Bytes>, n: nat, chunk: Bytes)
    requires AtChunk(f, pos, all, n) && pos < |f| && chunk == NextLine(f, pos)
    ensures n < |all| && all[n] == chunk
    ensures AtChunk(f, pos + |chunk|, all, n + 1)
  {
    assert f[pos..][FirstLength(f[pos..])..] == f[pos + FirstLength(f[pos..])..];
    assert all[n] == all[n..][0];
    assert all[n + 1..] == all[n..][1..];
  }
}
