/**
 * The segmentation policy: how the matches found in the content become the
 * byte ranges of the splits. With KEEP_SEQUENCE false the delimiter bytes are
 * dropped; with it true they stay, at the end of the preceding split
 * (Trailing, the default location) or at the start of the following split
 * (Leading). A split of zero bytes is never emitted.
 */
module Segmenting {
  import opened Bytes
  import opened Matcher

  datatype Position = Leading | Trailing

  /** The bytes [start, end) of the content, as one split. */
  datatype Segment = Segment(start: nat, end: nat)

  /**
   * For a match, where the split before it ends and where the next split
   * begins.
   */
  function Cut(m: Match, keep: bool, position: Position): (nat, nat)
  {
    if !keep then (m.start, m.end)
    else if position == Trailing then (m.end, m.end)
    else (m.start, m.start)
  }

  /** The range [a, b) as a split, unless it is empty. */
  function NonEmpty(a: nat, b: nat): seq<Segment>
  {
    if a < b then [Segment(a, b)] else []
  }

  function FirstStart(ms: seq<Match>, n: nat): nat
  {
    if ms == [] then n else ms[0].start
  }

  function LastEnd(ms: seq<Match>, lo: nat): nat
  {
    if ms == [] then lo else ms[|ms| - 1].end
  }

  /** Segments inside [lo, hi), each non-empty, in order and disjoint. */
  predicate Ordered(r: seq<Segment>, lo: nat, hi: nat)
  {
    (forall k :: 0 <= k < |r| ==> lo <= r[k].start < r[k].end <= hi) &&
    (forall k :: 0 < k < |r| ==> r[k - 1].end <= r[k].start)
  }

  /** Segments that all lie inside the first `n` bytes. */
  predicate Within(r: seq<Segment>, n: nat)
  {
    forall k :: 0 <= k < |r| ==> r[k].start <= r[k].end <= n
  }

  /** Segments that tile [lo, hi) exactly: no gap, no overlap. */
  predicate Tiling(r: seq<Segment>, lo: nat, hi: nat)
  {
    (r == [] <==> lo == hi) &&
    (r != [] ==> r[0].start == lo && r[|r| - 1].end == hi) &&
    (forall k :: 0 < k < |r| ==> r[k - 1].end == r[k].start)
  }

  lemma {:induction false} JoinOrdered(a: seq<Segment>, b: seq<Segment>, lo: nat, mid: nat, hi: nat)
    requires lo <= mid <= hi && Ordered(a, lo, mid) && Ordered(b, mid, hi)
    ensures Ordered(a + b, lo, hi)
  {
    var c := a + b;
    forall k | 0 < k < |c|
      ensures c[k - 1].end <= c[k].start
    {
      if k == |a| {
        assert c[k - 1] == a[k - 1] && c[k] == b[0];
      }
    }
  }

  lemma {:induction false} JoinTiling(a: seq<Segment>, b: seq<Segment>, lo: nat, mid: nat, hi: nat)
    requires Tiling(a, lo, mid) && Tiling(b, mid, hi)
    requires Ordered(a, lo, mid) && Ordered(b, mid, hi)
    ensures Tiling(a + b, lo, hi)
  {
    var c := a + b;
    forall k | 0 < k < |c|
      ensures c[k - 1].end == c[k].start
    {
      if k == |a| {
        assert c[k - 1] == a[k - 1] && c[k] == b[0];
      }
    }
  }

  /**
   * The splits of the content [segStart, n), given the matches still to be
   * cut at. They never have zero length and never overlap, there is at most
   * one more than there are matches, and keeping the delimiter they tile
   * the content.
   */
  function Segments(n: nat, ms: seq<Match>, keep: bool, position: Position, segStart: nat): (r: seq<Segment>)
    requires Chain(ms, segStart, n)
    ensures Ordered(r, segStart, n) && Within(r, n)
    ensures keep ==> Tiling(r, segStart, n)
    ensures |r| <= |ms| + 1
    decreases |ms|
  {
    if ms == [] then NonEmpty(segStart, n)
    else
      var (end, next) := Cut(ms[0], keep, position);
      ChainWithin(ms, segStart, n);
      ChainLower(ms[1..], ms[0].end, next, n);
      var head := NonEmpty(segStart, end);
      var rest := Segments(n, ms[1..], keep, position, next);
      JoinOrdered(head, rest, segStart, next, n);
      if keep then
        JoinTiling(head, rest, segStart, next, n);
        head + rest
      else
        head + rest
  }

  /** One step of the cutting: the split before the first match, then the rest. */
  lemma {:induction false} SegmentsCons(n: nat, ms: seq<Match>, keep: bool, position: Position, segStart: nat)
    requires Chain(ms, segStart, n) && ms != []
    ensures Chain(ms[1..], Cut(ms[0], keep, position).1, n)
    ensures Segments(n, ms, keep, position, segStart) ==
      NonEmpty(segStart, Cut(ms[0], keep, position).0) +
      Segments(n, ms[1..], keep, position, Cut(ms[0], keep, position).1)
  {
    ChainLower(ms[1..], ms[0].end, Cut(ms[0], keep, position).1, n);
  }

  /** SegmentsCons, for a chain given as its first match and the rest. */
  lemma {:induction false} SegmentsFirst(n: nat, m: Match, rest: seq<Match>, keep: bool, position: Position, segStart: nat)
    requires Chain([m] + rest, segStart, n)
    ensures Chain(rest, Cut(m, keep, position).1, n)
    ensures Segments(n, [m] + rest, keep, position, segStart) ==
      NonEmpty(segStart, Cut(m, keep, position).0) + Segments(n, rest, keep, position, Cut(m, keep, position).1)
  {
    var ms := [m] + rest;
    assert ms[0] == m && ms[1..] == rest;
    SegmentsCons(n, ms, keep, position, segStart);
  }

  /**
   * Keeping the delimiter, there is one split per match, plus one for the
   * bytes after the last delimiter (Trailing) or before the first (Leading)
   * when there are any; with Leading, those bytes are the first split.
   */
  lemma {:induction false} KeepCount(n: nat, ms: seq<Match>, position: Position, segStart: nat)
    requires Chain(ms, segStart, n)
    ensures var r := Segments(n, ms, true, position, segStart);
      |r| == |ms| + (if position == Trailing then (if LastEnd(ms, segStart) < n then 1 else 0)
                     else (if segStart < FirstStart(ms, n) then 1 else 0))
    ensures position == Leading && segStart < FirstStart(ms, n) ==>
      Segments(n, ms, true, position, segStart)[0] == Segment(segStart, FirstStart(ms, n))
    decreases |ms|
  {
    if ms != [] {
      var (end, next) := Cut(ms[0], true, position);
      ChainWithin(ms, segStart, n);
      ChainLower(ms[1..], ms[0].end, next, n);
      KeepCount(n, ms[1..], position, next);
      if ms[1..] != [] {
        ChainBounds(ms[1..], ms[0].end, n, 0);
        assert LastEnd(ms[1..], next) == LastEnd(ms, segStart);
      }
    }
  }

  /** The bytes of each segment. */
  function Contents(data: seq<byte>, r: seq<Segment>): (c: seq<seq<byte>>)
    requires Within(r, |data|)
    ensures |c| == |r|
    ensures forall k :: 0 <= k < |r| ==> c[k] == data[r[k].start..r[k].end]
  {
    seq(|r|, k requires 0 <= k < |r| => data[r[k].start..r[k].end])
  }

  /**
   * The splits of the content for the delimiter and the policy: the
   * contents of the segments cut at every match of the delimiter.
   * No split is empty.
   */
  function Split(data: seq<byte>, d: Delimiter, keep: bool, position: Position): (r: seq<seq<byte>>)
    requires WellFormed(d)
    ensures forall k :: 0 <= k < |r| ==> |r[k]| > 0
  {
    Contents(data, Segments(|data|, Matches(data, d, 0), keep, position, 0))
  }

  // -----------------------------------------------------------------------
  // What the policy promises

  /** In ordered segments every earlier one ends before every later one starts. */
  lemma {:induction false} OrderedBefore(r: seq<Segment>, lo: nat, hi: nat, i: nat, j: nat)
    requires Ordered(r, lo, hi) && i < j < |r|
    ensures r[i].end <= r[j].start
    decreases j - i
  {
    if i + 1 < j {
      OrderedBefore(r, lo, hi, i, j - 1);
    }
  }

  lemma {:induction false} TilingTail(r: seq<Segment>, lo: nat, hi: nat)
    requires r != [] && Tiling(r, lo, hi) && Ordered(r, lo, hi)
    ensures Tiling(r[1..], r[0].end, hi) && Ordered(r[1..], r[0].end, hi)
  {
    var r' := r[1..];
    if r' != [] {
      assert r'[0] == r[1];
      assert r'[|r'| - 1] == r[|r| - 1];
    }
    forall k | 0 <= k < |r'|
      ensures r[0].end <= r'[k].start
    {
      OrderedBefore(r, lo, hi, 0, k + 1);
    }
  }

  lemma {:induction false} SliceJoin(data: seq<byte>, lo: nat, m: nat, hi: nat)
    requires lo <= m <= hi <= |data|
    ensures data[lo..m] + data[m..hi] == data[lo..hi]
  {
  }

  /** Segments that tile [lo, hi) hold exactly the bytes data[lo..hi]. */
  lemma {:induction false} TilingConcat(data: seq<byte>, r: seq<Segment>, lo: nat, hi: nat)
    requires hi <= |data| && Tiling(r, lo, hi) && Ordered(r, lo, hi)
    ensures Concat(Contents(data, r)) == data[lo..hi]
    decreases |r|
  {
    if r != [] {
      var c := Contents(data, r);
      var r' := r[1..];
      var m := r[0].end;
      TilingTail(r, lo, hi);
      TilingConcat(data, r', m, hi);
      assert c[1..] == Contents(data, r');
      assert Concat(c) == data[lo..m] + data[m..hi];
      SliceJoin(data, lo, m, hi);
    }
  }

  /**
   * Keeping the delimiter, concatenating the splits in index order gives
   * back the content exactly, whatever the location.
   */
  lemma {:induction false} KeepRoundTrip(data: seq<byte>, d: Delimiter, position: Position)
    requires WellFormed(d)
    ensures Concat(Split(data, d, true, position)) == data
  {
    var r := Segments(|data|, Matches(data, d, 0), true, position, 0);
    TilingConcat(data, r, 0, |data|);
    assert data[0..|data|] == data;
  }

  /** The content with the matched delimiter bytes taken out. */
  function Stripped(data: seq<byte>, ms: seq<Match>, lo: nat): (s: seq<byte>)
    requires Chain(ms, lo, |data|)
    ensures |s| <= |data| - lo
    decreases |ms|
  {
    if ms == [] then data[lo..]
    else
      ChainWithin(ms, lo, |data|);
      data[lo..ms[0].start] + Stripped(data, ms[1..], ms[0].end)
  }

  lemma {:induction false} ContentsAppend(data: seq<byte>, a: seq<Segment>, b: seq<Segment>)
    requires Within(a, |data|) && Within(b, |data|)
    ensures Contents(data, a + b) == Contents(data, a) + Contents(data, b)
  {
    var c := a + b;
    forall k | 0 <= k < |c|
      ensures Contents(data, c)[k] == (Contents(data, a) + Contents(data, b))[k]
    {
      if k >= |a| {
        assert c[k] == b[k - |a|];
      }
    }
  }

  /** The bytes of the split before a match: the whole gap, or nothing when it is empty. */
  lemma {:induction false} GapConcat(data: seq<byte>, lo: nat, a: nat)
    requires lo <= a <= |data|
    ensures Concat(Contents(data, NonEmpty(lo, a))) == data[lo..a]
  {
    if lo < a {
      assert Concat(Contents(data, NonEmpty(lo, a))) == data[lo..a] + Concat([]);
    }
  }

  lemma {:induction false} DropConcat(data: seq<byte>, ms: seq<Match>, position: Position, lo: nat)
    requires Chain(ms, lo, |data|)
    ensures Concat(Contents(data, Segments(|data|, ms, false, position, lo))) == Stripped(data, ms, lo)
    decreases |ms|
  {
    if ms == [] {
      GapConcat(data, lo, |data|);
    } else {
      SegmentsCons(|data|, ms, false, position, lo);
      ChainWithin(ms, lo, |data|);
      var head := NonEmpty(lo, ms[0].start);
      var rest := Segments(|data|, ms[1..], false, position, ms[0].end);
      ContentsAppend(data, head, rest);
      ConcatAppend(Contents(data, head), Contents(data, rest));
      GapConcat(data, lo, ms[0].start);
      DropConcat(data, ms[1..], position, ms[0].end);
    }
  }

  /**
   * Dropping the delimiter, concatenating the splits gives the content with
   * exactly the matched delimiter bytes removed.
   */
  lemma {:induction false} DropRemovesDelimiters(data: seq<byte>, d: Delimiter, position: Position)
    requires WellFormed(d)
    ensures Concat(Split(data, d, false, position)) == Stripped(data, Matches(data, d, 0), 0)
  {
    DropConcat(data, Matches(data, d, 0), position, 0);
  }

  /** Without any occurrence of the delimiter the only split is the whole content. */
  lemma {:induction false} NoDelimiterOneSplit(data: seq<byte>, d: Delimiter, keep: bool, position: Position)
    requires WellFormed(d) && |data| > 0
    requires forall i :: 0 <= i < |data| ==> !StartsAt(data, d, i)
    ensures Split(data, d, keep, position) == [data]
  {
    assert Matches(data, d, 0) == [];
    assert data[0..|data|] == data;
  }

  /** Empty content has no split at all: a split is never empty. */
  lemma {:induction false} EmptyNoSplit(d: Delimiter, keep: bool, position: Position)
    requires WellFormed(d)
    ensures Split([], d, keep, position) == []
  {
    NoMatchAtEnd([], d);
  }

  /** The segment ends with the whole match. */
  predicate EndsWithMatch(s: Segment, m: Match)
  {
    s.start <= m.start && s.end == m.end
  }

  /** The segment begins with the whole match. */
  predicate BeginsWithMatch(s: Segment, m: Match)
  {
    s.start == m.start && m.end <= s.end
  }

  /**
   * Trailing: each kept delimiter ends a split, which holds all of it; the
   * split that the match j ends is split j.
   */
  lemma {:induction false} TrailingPlacement(n: nat, ms: seq<Match>, lo: nat, j: nat)
    requires Chain(ms, lo, n) && j < |ms|
    ensures j < |Segments(n, ms, true, Trailing, lo)|
    ensures EndsWithMatch(Segments(n, ms, true, Trailing, lo)[j], ms[j])
    decreases |ms|
  {
    SegmentsCons(n, ms, true, Trailing, lo);
    var r := Segments(n, ms, true, Trailing, lo);
    var r' := Segments(n, ms[1..], true, Trailing, ms[0].end);
    assert r == [Segment(lo, ms[0].end)] + r';
    if j > 0 {
      TrailingPlacement(n, ms[1..], ms[0].end, j - 1);
      assert r[j] == r'[j - 1];
    }
  }

  /** Leading: the first match starts the split after the bytes before it. */
  lemma {:induction false} LeadingFirstSplit(n: nat, ms: seq<Match>, lo: nat)
    requires Chain(ms, lo, n) && ms != []
    ensures var head := NonEmpty(lo, ms[0].start);
      |head| < |Segments(n, ms, true, Leading, lo)| &&
      BeginsWithMatch(Segments(n, ms, true, Leading, lo)[|head|], ms[0])
  {
    SegmentsCons(n, ms, true, Leading, lo);
    var r' := Segments(n, ms[1..], true, Leading, ms[0].start);
    if ms[1..] != [] {
      ChainBounds(ms[1..], ms[0].end, n, 0);
    }
    KeepCount(n, ms[1..], Leading, ms[0].start);
    assert r'[0] == Segment(ms[0].start, FirstStart(ms[1..], n));
  }

  /** Leading: the split pending at a later match starts at the match before it. */
  lemma {:induction false} LeadingCons(n: nat, ms: seq<Match>, lo: nat)
    requires Chain(ms, lo, n) && |ms| > 1
    ensures Chain(ms[1..], ms[0].start, n)
    ensures Segments(n, ms, true, Leading, lo) ==
      NonEmpty(lo, ms[0].start) + Segments(n, ms[1..], true, Leading, ms[0].start)
    ensures |NonEmpty(ms[0].start, ms[1..][0].start)| == 1
  {
    SegmentsCons(n, ms, true, Leading, lo);
    ChainBounds(ms, lo, n, 0);
    ChainBounds(ms[1..], ms[0].end, n, 0);
  }

  /**
   * Leading: each kept delimiter starts a split, which holds all of it; the
   * split that the match j starts is split j, or split j + 1 when there are
   * bytes before the first match.
   */
  lemma {:induction false} LeadingPlacement(n: nat, ms: seq<Match>, lo: nat, j: nat)
    requires Chain(ms, lo, n) && j < |ms|
    ensures |NonEmpty(lo, ms[0].start)| + j < |Segments(n, ms, true, Leading, lo)|
    ensures BeginsWithMatch(Segments(n, ms, true, Leading, lo)[|NonEmpty(lo, ms[0].start)| + j], ms[j])
    decreases |ms|, 1
  {
    if j == 0 {
      LeadingFirstSplit(n, ms, lo);
    } else {
      LeadingPlacementLater(n, ms, lo, j);
    }
  }

  /** A later match starts the split its position in the rest of the chain gives. */
  lemma {:induction false} LeadingPlacementLater(n: nat, ms: seq<Match>, lo: nat, j: nat)
    requires Chain(ms, lo, n) && 0 < j < |ms|
    ensures |NonEmpty(lo, ms[0].start)| + j < |Segments(n, ms, true, Leading, lo)|
    ensures BeginsWithMatch(Segments(n, ms, true, Leading, lo)[|NonEmpty(lo, ms[0].start)| + j], ms[j])
    decreases |ms|, 0
  {
    var head := NonEmpty(lo, ms[0].start);
    LeadingCons(n, ms, lo);
    var r := Segments(n, ms, true, Leading, lo);
    var r' := Segments(n, ms[1..], true, Leading, ms[0].start);
    LeadingPlacement(n, ms[1..], ms[0].start, j - 1);
    assert r[|head| + j] == r'[j];
  }

  /**
   * Leading: the last split starts at the last match and runs to the end of
   * the content, so when the content ends with the delimiter, the delimiter
   * is the last split on its own.
   */
  lemma {:induction false} LeadingLastSplit(n: nat, ms: seq<Match>, lo: nat)
    requires Chain(ms, lo, n) && ms != []
    ensures var r := Segments(n, ms, true, Leading, lo);
      r != [] && r[|r| - 1] == Segment(ms[|ms| - 1].start, n)
  {
    var r := Segments(n, ms, true, Leading, lo);
    var head := NonEmpty(lo, ms[0].start);
    LeadingPlacement(n, ms, lo, |ms| - 1);
    KeepCount(n, ms, Leading, lo);
    ChainBounds(ms, lo, n, 0);
    assert |head| + |ms| - 1 == |r| - 1;
  }

  /**
   * Dropped: no split holds any byte of a matched delimiter.
   */
  lemma {:induction false} DropPlacement(n: nat, ms: seq<Match>, position: Position, lo: nat, j: nat, k: nat)
    requires Chain(ms, lo, n) && j < |ms|
    requires k < |Segments(n, ms, false, position, lo)|
    ensures var r := Segments(n, ms, false, position, lo);
      r[k].end <= ms[j].start || ms[j].end <= r[k].start
    decreases |ms|
  {
    var r := Segments(n, ms, false, position, lo);
    var r' := Segments(n, ms[1..], false, position, ms[0].end);
    var head := NonEmpty(lo, ms[0].start);
    assert r == head + r';
    if j > 0 {
      ChainBounds(ms[1..], ms[0].end, n, j - 1);
    }
    if k >= |head| {
      assert r[k] == r'[k - |head|];
      if j > 0 {
        DropPlacement(n, ms[1..], position, ms[0].end, j - 1, k - |head|);
      }
    }
  }
}
