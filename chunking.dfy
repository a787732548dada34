/** Splitting a token sequence into windows of at most `m` tokens, the way
    `DocumentClassifier.classify` does it: one window `tokens[i:i+m]` for every
    `i` in `range(0, len(tokens), m)`. Consecutive windows do not overlap. */
module Chunking {

  /** The number of windows of width `m` needed for `n` items: the ceiling of `n / m`. */
  function CeilDiv(n: nat, m: nat): nat
    requires m > 0
  {
    (n + m - 1) / m
  }

  /** A non-zero multiple of `m` is at least `m` away from zero. */
  lemma MultipleAwayFromZero(d: int, m: int)
    requires m >= 0
    ensures d >= 1 ==> d * m >= m
    ensures d <= -1 ==> d * m <= -m
  {
    assert d * m == m + (d - 1) * m;
    assert d * m == -m + (d + 1) * m;
  }

  /** Division by `m` is characterised by its quotient and remainder. */
  lemma DivUnique(a: nat, m: nat, q: nat, r: nat)
    requires m > 0 && r < m && a == q * m + r
    ensures a / m == q
  {
    var q' := a / m;
    assert a == q' * m + a % m;
    assert (q - q') * m == a % m - r;
    MultipleAwayFromZero(q - q', m);
  }

  /** Adding `m` items adds one window. */
  lemma CeilDivStep(n: nat, m: nat)
    requires m > 0
    ensures CeilDiv(n + m, m) == CeilDiv(n, m) + 1
  {
    var a := n + m - 1;
    DivUnique(a + m, m, a / m + 1, a % m);
  }

  /** Between one and `m` items need exactly one window. */
  lemma CeilDivOne(n: nat, m: nat)
    requires 0 < n <= m
    ensures CeilDiv(n, m) == 1
  {
    DivUnique(n + m - 1, m, 1, n - 1);
  }

  /** Python's `range(start, stop, step)` for a positive step. */
  function Range(start: nat, stop: nat, step: nat): seq<nat>
    requires step > 0
    decreases stop - start
  {
    if start >= stop then [] else [start] + Range(start + step, stop, step)
  }

  /** `range(start, stop, step)` holds `ceil((stop - start) / step)` values,
      namely `start, start + step, start + 2 * step, ...`, all below `stop`. */
  lemma {:induction false} RangeIsArithmetic(start: nat, stop: nat, step: nat)
    requires step > 0
    ensures |Range(start, stop, step)| == if start >= stop then 0 else CeilDiv(stop - start, step)
    ensures forall k :: 0 <= k < |Range(start, stop, step)| ==>
      Range(start, stop, step)[k] == start + k * step < stop
    decreases stop - start
  {
    if start < stop {
      var rest := Range(start + step, stop, step);
      RangeIsArithmetic(start + step, stop, step);
      if start + step < stop {
        CeilDivStep(stop - start - step, step);
      } else {
        CeilDivOne(stop - start, step);
      }
      forall k | 0 < k < |Range(start, stop, step)|
        ensures Range(start, stop, step)[k] == start + k * step < stop
      {
        assert Range(start, stop, step)[k] == rest[k - 1];
        assert start + step + (k - 1) * step == start + k * step;
      }
    }
  }

  /** The slice `s[i:i+m]` for `0 <= i <= len(s)`: Python clamps the end to the length. */
  function Window<T>(s: seq<T>, i: nat, m: nat): seq<T>
    requires i <= |s|
  {
    s[i..if i + m <= |s| then i + m else |s|]
  }

  /** The windows `s[j:j+m]` for `j` in `range(i, len(s), m)`. */
  function ChunksFrom<T>(s: seq<T>, i: nat, m: nat): seq<seq<T>>
    requires m > 0
    decreases |s| - i
  {
    if i >= |s| then [] else [Window(s, i, m)] + ChunksFrom(s, i + m, m)
  }

  /** The chunks `classify` sends to the classifier, in order. */
  function Chunks<T>(s: seq<T>, m: nat): seq<seq<T>>
    requires m > 0
  {
    ChunksFrom(s, 0, m)
  }

  /** Concatenation of a sequence of sequences. */
  function Concat<T>(ss: seq<seq<T>>): seq<T>
  {
    if ss == [] then [] else ss[0] + Concat(ss[1..])
  }

  /** The windows start exactly at the values of the range. */
  lemma {:induction false} ChunksFollowRange<T>(s: seq<T>, i: nat, m: nat)
    requires m > 0
    ensures |ChunksFrom(s, i, m)| == |Range(i, |s|, m)|
    ensures forall k :: 0 <= k < |ChunksFrom(s, i, m)| ==>
      Range(i, |s|, m)[k] < |s| && ChunksFrom(s, i, m)[k] == Window(s, Range(i, |s|, m)[k], m)
    decreases |s| - i
  {
    if i < |s| {
      ChunksFollowRange(s, i + m, m);
    }
  }

  /** `ceil(n / m)` windows of width `m` reach to `n` or beyond. */
  lemma CeilDivCovers(n: nat, m: nat)
    requires m > 0
    ensures CeilDiv(n, m) * m >= n
  {
    var a := n + m - 1;
    assert a == (a / m) * m + a % m;
  }

  /** There are `ceil(|s| / m)` chunks. */
  lemma ChunkCount<T>(s: seq<T>, m: nat)
    requires m > 0
    ensures |Chunks(s, m)| == CeilDiv(|s|, m)
  {
    ChunksFollowRange(s, 0, m);
    RangeIsArithmetic(0, |s|, m);
    assert |s| == 0 ==> CeilDiv(|s|, m) == 0 by { DivUnique(m - 1, m, 0, m - 1); }
  }

  /** Fewer than `ceil(n / m)` windows of width `m` stop short of `n`. */
  lemma CeilDivTight(n: nat, m: nat)
    requires m > 0 && n > 0
    ensures (CeilDiv(n, m) - 1) * m < n
  {
    var a := n + m - 1;
    assert a == (a / m) * m + a % m;
    assert (a / m - 1) * m == (a / m) * m - m;
  }

  /** Chunk `k` exists exactly when `k * m` is below `|s|`. */
  lemma ChunkExists<T>(s: seq<T>, m: nat, k: nat)
    requires m > 0
    ensures k < |Chunks(s, m)| <==> k * m < |s|
  {
    ChunkCount(s, m);
    CeilDivCovers(|s|, m);
    var c := |Chunks(s, m)|;
    if |s| > 0 {
      CeilDivTight(|s|, m);
    }
    assert k * m == c * m + (k - c) * m;
    assert k * m == (c - 1) * m + (k - c + 1) * m;
    MultipleAwayFromZero(k - c, m);
    MultipleAwayFromZero(k - c + 1, m);
  }

  /** Chunk `k` is `s[k*m .. min((k+1)*m, |s|)]`. */
  lemma ChunkAt<T>(s: seq<T>, m: nat, k: nat)
    requires m > 0 && k < |Chunks(s, m)|
    ensures k * m < |s|
    ensures Chunks(s, m)[k] == s[k * m..if (k + 1) * m <= |s| then (k + 1) * m else |s|]
  {
    ChunksFollowRange(s, 0, m);
    RangeIsArithmetic(0, |s|, m);
    assert Range(0, |s|, m)[k] == k * m;
    assert (k + 1) * m == k * m + m;
  }

  /** The chunks, put back together, are exactly the tokens from `i` on: no
      gap, no overlap, original order. */
  lemma {:induction false} ChunksFromCover<T>(s: seq<T>, i: nat, m: nat)
    requires m > 0 && i <= |s|
    ensures Concat(ChunksFrom(s, i, m)) == s[i..]
    decreases |s| - i
  {
    if i < |s| {
      if i + m <= |s| {
        ChunksFromCover(s, i + m, m);
        assert s[i..] == s[i..i + m] + s[i + m..];
      } else {
        assert Concat(ChunksFrom(s, i + m, m)) == [];
      }
    }
  }

  /** The concatenation of the chunks is the token sequence. */
  lemma ChunksCover<T>(s: seq<T>, m: nat)
    requires m > 0
    ensures Concat(Chunks(s, m)) == s
  {
    ChunksFromCover(s, 0, m);
  }

  /** Every chunk holds between one and `m` tokens, and only the last one may
      hold fewer than `m`. */
  lemma {:induction false} ChunksFromSizes<T>(s: seq<T>, i: nat, m: nat)
    requires m > 0
    ensures forall k :: 0 <= k < |ChunksFrom(s, i, m)| ==>
      0 < |ChunksFrom(s, i, m)[k]| <= m
    ensures forall k :: 0 <= k < |ChunksFrom(s, i, m)| - 1 ==>
      |ChunksFrom(s, i, m)[k]| == m
    decreases |s| - i
  {
    if i < |s| {
      ChunksFromSizes(s, i + m, m);
      var c := ChunksFrom(s, i, m);
      assert c[1..] == ChunksFrom(s, i + m, m);
      assert |c| > 1 ==> i + m < |s|;
    }
  }

  /** The chunk sizes of the whole sequence: full chunks, except possibly the
      last. */
  lemma ChunkSizes<T>(s: seq<T>, m: nat)
    requires m > 0
    ensures forall k :: 0 <= k < |Chunks(s, m)| ==> 0 < |Chunks(s, m)[k]| <= m
    ensures forall k :: 0 <= k < |Chunks(s, m)| - 1 ==> |Chunks(s, m)[k]| == m
  {
    ChunksFromSizes(s, 0, m);
  }

  /** More than one chunk is used exactly when there are more than `m` tokens;
      no tokens give no chunk at all. */
  lemma ChunkedIffLonger<T>(s: seq<T>, m: nat)
    requires m > 0
    ensures |Chunks(s, m)| > 1 <==> |s| > m
    ensures |Chunks(s, m)| == 0 <==> |s| == 0
  {
    ChunkExists(s, m, 1);
    ChunkExists(s, m, 0);
  }
}
