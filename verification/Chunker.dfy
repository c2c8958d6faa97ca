/** TextChunker: a character window of `chunkSize` that advances by chunkSize - overlap. */
module Chunker {
  import opened Common

  datatype Error = ValueError

  /** What the constructor accepts. It does not ask for overlap >= 0. */
  predicate Accepted(chunkSize: int, overlap: int) {
    chunkSize > 0 && overlap < chunkSize
  }

  type Settings = c: (int, int) | Accepted(c.0, c.1) witness (1, 0)

  function NewChunker(chunkSize: int, overlap: int): (r: Result<Settings, Error>)
    ensures r.Ok? <==> chunkSize > 0 && overlap < chunkSize
    ensures r.Ok? ==> r.value == (chunkSize, overlap)
  {
    if chunkSize <= 0 then Err(ValueError)
    else if overlap >= chunkSize then Err(ValueError)
    else Ok((chunkSize, overlap))
  }

  /** text[lo:hi] with an end past the text cut off. */
  function Slice(text: string, lo: int, hi: int): string
    requires 0 <= lo <= |text| && lo <= hi
  {
    text[lo..if hi < |text| then hi else |text|]
  }

  /** Where the windows start, from `start` on: the last one is the first to reach the end. */
  function Starts(n: int, c: Settings, start: int): (r: seq<int>)
    ensures start < n ==> r != [] && r[0] == start
    ensures forall i :: 0 <= i < |r| ==> start <= r[i] < n
    decreases n - start
  {
    if start >= n then []
    else if start + c.0 >= n then [start]
    else [start] + Starts(n, c, start + c.0 - c.1)
  }

  predicate InText(text: string, starts: seq<int>) {
    forall i :: 0 <= i < |starts| ==> 0 <= starts[i] < |text|
  }

  function Cut(text: string, size: int, starts: seq<int>): (r: seq<string>)
    requires size > 0 && InText(text, starts)
    ensures |r| == |starts|
    ensures forall i :: 0 <= i < |r| ==> r[i] == Slice(text, starts[i], starts[i] + size)
  {
    if starts == [] then []
    else
      var last := starts[|starts| - 1];
      Cut(text, size, starts[..|starts| - 1]) + [Slice(text, last, last + size)]
  }

  lemma CutSnoc(text: string, size: int, starts: seq<int>, start: int)
    requires size > 0 && InText(text, starts) && 0 <= start < |text|
    ensures InText(text, starts + [start])
    ensures Cut(text, size, starts + [start]) == Cut(text, size, starts) + [Slice(text, start, start + size)]
  {
    assert (starts + [start])[..|starts|] == starts;
  }

  lemma StartsSplit(n: int, c: Settings, done: seq<int>, start: int)
    requires start < n && Starts(n, c, 0) == done + Starts(n, c, start)
    ensures Starts(n, c, 0) == done + [start] + if start + c.0 >= n then [] else Starts(n, c, start + c.0 - c.1)
  {
  }

  /** The chunks of a text: the windows that start at Starts. */
  function Chunks(text: string, c: Settings): seq<string> {
    Cut(text, c.0, Starts(|text|, c, 0))
  }

  method Chunk(text: string, c: Settings) returns (chunks: seq<string>)
    ensures chunks == Chunks(text, c)
  {
    if text == "" { return []; }
    if |text| <= c.0 {
      SingleChunk(text, c);
      return [text];
    }
    var step := c.0 - c.1;
    chunks := [];
    var start := 0;
    ghost var done: seq<int> := [];
    ProgressBegins(text, c);
    while start < |text|
      invariant Progress(text, c, done, start, chunks)
      decreases |text| - start
    {
      var end := start + c.0;
      ProgressStep(text, c, done, start, chunks);
      chunks := chunks + [Slice(text, start, end)];
      if end >= |text| {
        return;
      }
      done := done + [start];
      start := start + step;
    }
    ProgressEnds(text, c, done, start, chunks);
  }

  lemma SingleChunk(text: string, c: Settings)
    requires 0 < |text| <= c.0
    ensures Chunks(text, c) == [text]
  {
    assert Starts(|text|, c, 0) == [0] && [0][..0] == [];
    assert Slice(text, 0, c.0) == text;
  }

  /** `chunks` are the windows at `done`; what is left starts at `start`. */
  ghost predicate Progress(text: string, c: Settings, done: seq<int>, start: int, chunks: seq<string>) {
    && 0 <= start && InText(text, done) && chunks == Cut(text, c.0, done)
    && Starts(|text|, c, 0) == done + Starts(|text|, c, start)
  }

  lemma ProgressBegins(text: string, c: Settings)
    ensures Progress(text, c, [], 0, [])
  {
  }

  lemma ProgressEnds(text: string, c: Settings, done: seq<int>, start: int, chunks: seq<string>)
    requires Progress(text, c, done, start, chunks) && start >= |text|
    ensures chunks == Chunks(text, c)
  {
  }

  lemma ProgressStep(text: string, c: Settings, done: seq<int>, start: int, chunks: seq<string>)
    requires Progress(text, c, done, start, chunks) && start < |text|
    ensures var more := chunks + [Slice(text, start, start + c.0)];
      if start + c.0 >= |text| then more == Chunks(text, c)
      else Progress(text, c, done + [start], start + c.0 - c.1, more)
  {
    StartsSplit(|text|, c, done, start);
    CutSnoc(text, c.0, done, start);
  }

  // ----- main results -----

  predicate LongerThan(chunks: seq<string>, overlap: nat) {
    forall i :: 1 <= i < |chunks| ==> |chunks[i]| > overlap
  }

  /** The chunks joined again: the first whole, each later one without its first `overlap` characters. */
  function Rejoin(chunks: seq<string>, overlap: nat): string
    requires LongerThan(chunks, overlap)
    decreases |chunks|
  {
    if chunks == [] then ""
    else if |chunks| == 1 then chunks[0]
    else Rejoin(chunks[..|chunks| - 1], overlap) + chunks[|chunks| - 1][overlap..]
  }

  /** Every chunk is non-empty and no longer than chunkSize. */
  lemma ChunkLengths(text: string, c: Settings, i: nat)
    requires i < |Chunks(text, c)|
    ensures 1 <= |Chunks(text, c)[i]| <= c.0
  {
    var starts := Starts(|text|, c, 0);
    assert Chunks(text, c)[i] == Slice(text, starts[i], starts[i] + c.0);
  }

  /** The windows advance by exactly one step; all but the last are full. */
  lemma {:induction false} StartsAdvance(n: int, c: Settings, start: int, i: nat)
    requires i + 1 < |Starts(n, c, start)|
    ensures var s := Starts(n, c, start);
      s[i + 1] == s[i] + c.0 - c.1 && s[i] + c.0 < n
    decreases n - start
  {
    if i > 0 { StartsAdvance(n, c, start + c.0 - c.1, i - 1); }
  }

  /** With overlap >= 0 the last window reaches the end of the text. */
  lemma {:induction false} LastStartReachesEnd(n: int, c: Settings, start: int)
    requires start < n && c.1 >= 0
    ensures var s := Starts(n, c, start);
      s[|s| - 1] + c.0 >= n
    decreases n - start
  {
    if start + c.0 < n {
      LastStartReachesEnd(n, c, start + c.0 - c.1);
      var s, rest := Starts(n, c, start), Starts(n, c, start + c.0 - c.1);
      assert s[|s| - 1] == rest[|rest| - 1];
    }
  }

  /** A window without its overlap continues where the window before it stopped. */
  lemma Glue(text: string, at: int, size: int, overlap: nat)
    requires 0 <= at && overlap < size && at + overlap < |text|
    ensures |Slice(text, at, at + size)| >= overlap
    ensures Slice(text, 0, at + overlap) + Slice(text, at, at + size)[overlap..] == Slice(text, 0, at + size)
  {
  }

  /** `chunks` are full windows that advance by one step, up to the last one. */
  ghost predicate Windows(text: string, size: int, overlap: nat, chunks: seq<string>, starts: seq<int>) {
    && overlap < size && |chunks| == |starts| && InText(text, starts)
    && (starts != [] ==> starts[0] == 0)
    && (forall i :: 0 <= i < |chunks| ==> chunks[i] == Slice(text, starts[i], starts[i] + size))
    && (forall i :: 1 <= i < |chunks| ==> starts[i - 1] + size == starts[i] + overlap < |text|)
  }

  lemma WindowFollows(n: int, c: Settings, i: nat)
    requires 1 <= i < |Starts(n, c, 0)|
    ensures Starts(n, c, 0)[i - 1] + c.0 == Starts(n, c, 0)[i] + c.1 < n
  {
    StartsAdvance(n, c, 0, i - 1);
  }

  lemma ChunksAreWindows(text: string, c: Settings)
    requires c.1 >= 0
    ensures Windows(text, c.0, c.1, Chunks(text, c), Starts(|text|, c, 0))
  {
    var starts := Starts(|text|, c, 0);
    forall i | 1 <= i < |starts| ensures starts[i - 1] + c.0 == starts[i] + c.1 < |text| {
      WindowFollows(|text|, c, i);
    }
    assert InText(text, starts) && |Cut(text, c.0, starts)| == |starts|;
  }

  lemma WindowsAreLonger(text: string, size: int, overlap: nat, chunks: seq<string>, starts: seq<int>)
    requires Windows(text, size, overlap, chunks, starts)
    ensures LongerThan(chunks, overlap)
  {
  }

  lemma {:induction false} PrefixRejoins(text: string, size: int, overlap: nat, chunks: seq<string>, starts: seq<int>,
      k: nat)
    requires Windows(text, size, overlap, chunks, starts) && 1 <= k <= |chunks| && LongerThan(chunks, overlap)
    ensures Rejoin(chunks[..k], overlap) == Slice(text, 0, starts[k - 1] + size)
    decreases k
  {
    if k == 1 {
      assert chunks[..1] == [chunks[0]];
    } else {
      PrefixRejoins(text, size, overlap, chunks, starts, k - 1);
      RejoinSnoc(chunks, overlap, k);
      Glue(text, starts[k - 1], size, overlap);
    }
  }

  lemma RejoinSnoc(chunks: seq<string>, overlap: nat, k: nat)
    requires 2 <= k <= |chunks| && LongerThan(chunks, overlap)
    ensures Rejoin(chunks[..k], overlap) == Rejoin(chunks[..k - 1], overlap) + chunks[k - 1][overlap..]
  {
    assert chunks[..k][..k - 1] == chunks[..k - 1];
  }

  /** With overlap >= 0 each later chunk is longer than the overlap, and the first chunk followed by each later one
      without its overlap is the text. */
  lemma ChunksRebuildText(text: string, c: Settings)
    requires c.1 >= 0
    ensures LongerThan(Chunks(text, c), c.1)
    ensures Rejoin(Chunks(text, c), c.1) == text
  {
    var chunks, starts := Chunks(text, c), Starts(|text|, c, 0);
    ChunksAreWindows(text, c);
    WindowsAreLonger(text, c.0, c.1, chunks, starts);
    if text != "" {
      PrefixRejoins(text, c.0, c.1, chunks, starts, |chunks|);
      LastStartReachesEnd(|text|, c, 0);
      assert chunks[..|chunks|] == chunks;
    }
  }

  /** Position `p` of the text lies in some chunk. */
  ghost predicate Covered(n: int, c: Settings, p: int) {
    exists i :: 0 <= i < |Starts(n, c, 0)| && Starts(n, c, 0)[i] <= p < Starts(n, c, 0)[i] + c.0
  }

  /** No character is lost exactly when the overlap is not negative or the text fits into one chunk. The constructor
      accepts a negative overlap, and then every longer text loses characters. */
  lemma NothingLostIff(n: nat, c: Settings)
    ensures (forall p :: 0 <= p < n ==> Covered(n, c, p)) <==> c.1 >= 0 || n <= c.0
  {
    if c.1 >= 0 && n > 0 {
      forall p | 0 <= p < n ensures Covered(n, c, p) {
        LastStartReachesEnd(n, c, 0);
        CoveredUpTo(n, c, p, |Starts(n, c, 0)| - 1);
      }
    } else if n <= c.0 {
      forall p | 0 <= p < n ensures Covered(n, c, p) {
        assert Starts(n, c, 0)[0] == 0;
      }
    } else if n > 0 {
      var s := Starts(n, c, 0);
      if Covered(n, c, c.0) {
        var i :| 0 <= i < |s| && s[i] <= c.0 < s[i] + c.0;
        if i > 0 { StartsFrom(n, c, i); }
      }
    }
  }

  lemma {:induction false} CoveredUpTo(n: int, c: Settings, p: int, i: int)
    requires c.1 >= 0 && 0 <= i < |Starts(n, c, 0)| && 0 <= p < Starts(n, c, 0)[i] + c.0
    ensures Covered(n, c, p)
    decreases i
  {
    var s := Starts(n, c, 0);
    if s[i] > p {
      StartsAdvance(n, c, 0, i - 1);
      CoveredUpTo(n, c, p, i - 1);
    }
  }

  /** Every window but the first starts at least one step in. */
  lemma StartsFrom(n: int, c: Settings, i: int)
    requires 1 <= i < |Starts(n, c, 0)|
    ensures Starts(n, c, 0)[i] >= c.0 - c.1
  {
  }

  function CeilDiv(x: int, d: int): int
    requires d > 0
  {
    (x + d - 1) / d
  }

  lemma CeilDivStep(x: int, d: int)
    requires d > 0
    ensures CeilDiv(x, d) == 1 + CeilDiv(x - d, d)
    ensures -d < x <= 0 ==> CeilDiv(x, d) == 0
  {
    var q := (x - 1) / d;
    assert x - 1 + d == d * (q + 1) + (x - 1) % d;
    DivUnique(x - 1 + d, d, q + 1, (x - 1) % d);
  }

  lemma DivUnique(a: int, d: int, q: int, r: int)
    requires d > 0 && a == d * q + r && 0 <= r < d
    ensures a / d == q
  {
    var k := a / d - q;
    assert d * k == r - a % d;
    Multiples(d, k);
  }

  lemma Multiples(d: int, k: int)
    requires d > 0
    ensures (k >= 1 ==> d * k >= d) && (k <= -1 ==> d * k <= -d)
  {
  }

  lemma {:induction false} StartCount(n: int, c: Settings, start: int)
    requires start < n && c.1 >= 0
    ensures |Starts(n, c, start)| == 1 + if start + c.0 < n then CeilDiv(n - start - c.0, c.0 - c.1) else 0
    decreases n - start
  {
    var step := c.0 - c.1;
    if start + c.0 < n {
      StartCount(n, c, start + step);
      CeilDivStep(n - start - c.0, step);
      if n - start - c.0 - step <= 0 { CeilDivStep(n - start - c.0 - step, step); }
    }
  }

  /** How many chunks: 1 + ceil((n - chunkSize) / step) for a text longer than one chunk. */
  lemma ChunkCount(text: string, c: Settings)
    requires c.1 >= 0 && |text| > c.0
    ensures |Chunks(text, c)| == 1 + CeilDiv(|text| - c.0, c.0 - c.1)
  {
    StartCount(|text|, c, 0);
  }

  lemma {:induction false} StartAt(n: int, c: Settings, start: int, i: nat)
    requires i < |Starts(n, c, start)|
    ensures var s, step := Starts(n, c, start), c.0 - c.1;
      && s[i] == start + i * step
      && (i + 1 < |s| <==> s[i] + c.0 < n && s[i] + step < n)
    decreases n - start
  {
    if i > 0 {
      var step := c.0 - c.1;
      StartAt(n, c, start + step, i - 1);
      assert i * step == step + (i - 1) * step;
    }
  }

  /** On the text alone: chunk i is the chunkSize characters from i * step on, cut off at the end of the text, and there
      is a next one exactly when this one stops short of the end and the next start is still inside. */
  lemma ChunkAt(text: string, c: Settings, i: nat)
    ensures Chunks(text, c) == [] <==> text == ""
    ensures i < |Chunks(text, c)| ==>
      var at := i * (c.0 - c.1);
      && 0 <= at < |text|
      && Chunks(text, c)[i] == (if at + c.0 < |text| then text[at..at + c.0] else text[at..])
      && (i + 1 < |Chunks(text, c)| <==> at + c.0 < |text| && at + c.0 - c.1 < |text|)
  {
    var starts := Starts(|text|, c, 0);
    if i < |Chunks(text, c)| {
      StartAt(|text|, c, 0, i);
      assert Chunks(text, c)[i] == Slice(text, starts[i], starts[i] + c.0);
    }
  }
}
