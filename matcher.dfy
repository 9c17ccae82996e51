/**
 * The delimiter matcher: finds the next occurrence of the delimiter at or
 * after a position. A literal delimiter is an exact, case-sensitive byte
 * pattern; the regular-expression delimiters in use are runs of one or more
 * bytes drawn from a character class (`[\n\r]+`, `\n+`), which match
 * greedily, so an occurrence extends to the end of the run.
 */
module Matcher {
  import opened Wrappers
  import opened Bytes

  datatype Delimiter =
    | Literal(pattern: seq<byte>)
    | Run(members: set<byte>)

  /** A literal delimiter must have at least one byte (an empty match is refused). */
  predicate WellFormed(d: Delimiter)
  {
    d.Literal? ==> |d.pattern| > 0
  }

  /** An occurrence of the delimiter at [start, end) of the data. */
  datatype Match = Match(start: nat, end: nat)

  /** The pattern occurs at `i`: its bytes agree with the data's, one by one. */
  predicate PatternAt(data: seq<byte>, pattern: seq<byte>, i: nat)
  {
    i + |pattern| <= |data| && AgreeFrom(data, pattern, i, 0)
  }

  predicate AgreeFrom(data: seq<byte>, pattern: seq<byte>, i: nat, k: nat)
    requires i + |pattern| <= |data|
    decreases |pattern| - k
  {
    k >= |pattern| || (data[i + k] == pattern[k] && AgreeFrom(data, pattern, i, k + 1))
  }

  /** Agreement from `k` on means every later byte agrees. */
  lemma {:induction false} AgreeFromAll(data: seq<byte>, pattern: seq<byte>, i: nat, k: nat)
    requires i + |pattern| <= |data| && k <= |pattern|
    ensures AgreeFrom(data, pattern, i, k) <==>
      forall j :: k <= j < |pattern| ==> data[i + j] == pattern[j]
    decreases |pattern| - k
  {
    if k < |pattern| {
      AgreeFromAll(data, pattern, i, k + 1);
    }
  }

  /** An occurrence is exactly a slice of the data equal to the pattern. */
  lemma {:induction false} PatternAtSlice(data: seq<byte>, pattern: seq<byte>, i: nat)
    requires i + |pattern| <= |data|
    ensures PatternAt(data, pattern, i) <==> data[i..i + |pattern|] == pattern
  {
    AgreeFromAll(data, pattern, i, 0);
    if data[i..i + |pattern|] == pattern {
      forall j | 0 <= j < |pattern| ensures data[i + j] == pattern[j] {
        assert data[i..i + |pattern|][j] == data[i + j];
      }
    }
  }

  /** The end of the run of member bytes that begins at `i`. */
  function RunEnd(data: seq<byte>, members: set<byte>, i: nat): (j: nat)
    requires i <= |data|
    ensures i <= j <= |data|
    ensures forall k :: i <= k < j ==> data[k] in members
    ensures j == |data| || data[j] !in members
    decreases |data| - i
  {
    if i < |data| && data[i] in members then RunEnd(data, members, i + 1) else i
  }

  /** The run end is the first non-member byte at or after any point inside the run. */
  lemma {:induction false} RunEndIs(data: seq<byte>, members: set<byte>, i: nat, j: nat)
    requires i <= j <= |data|
    requires forall k :: i <= k < j ==> data[k] in members
    requires j == |data| || data[j] !in members
    ensures RunEnd(data, members, i) == j
    decreases j - i
  {
    if i < j {
      RunEndIs(data, members, i + 1, j);
    }
  }

  /** Does an occurrence of the delimiter begin at `i`? */
  predicate StartsAt(data: seq<byte>, d: Delimiter, i: nat)
  {
    match d
    case Literal(p) => PatternAt(data, p, i)
    case Run(s) => i < |data| && data[i] in s
  }

  /** The end of the occurrence that begins at `i`. */
  function EndAt(data: seq<byte>, d: Delimiter, i: nat): (e: nat)
    requires WellFormed(d) && StartsAt(data, d, i)
    ensures i < e <= |data|
  {
    match d
    case Literal(p) => i + |p|
    case Run(s) => RunEnd(data, s, i)
  }

  /**
   * The leftmost occurrence beginning at or after `from`: it is a real
   * occurrence, nothing begins between `from` and it, and when there is
   * none, no occurrence begins anywhere from `from` on.
   */
  function FindFrom(data: seq<byte>, d: Delimiter, from: nat): (r: Option<Match>)
    requires WellFormed(d) && from <= |data|
    ensures r.Some? ==> from <= r.value.start < r.value.end <= |data|
    ensures r.Some? ==> StartsAt(data, d, r.value.start) && r.value.end == EndAt(data, d, r.value.start)
    ensures r.Some? ==> forall i :: from <= i < r.value.start ==> !StartsAt(data, d, i)
    ensures r.None? ==> forall i :: from <= i <= |data| ==> !StartsAt(data, d, i)
    decreases |data| - from
  {
    if from == |data| then
      assert !StartsAt(data, d, from);
      None
    else if StartsAt(data, d, from) then Some(Match(from, EndAt(data, d, from)))
    else FindFrom(data, d, from + 1)
  }

  /**
   * A chain of matches between `lo` and `hi`: each non-empty, in increasing
   * order, not overlapping the previous one.
   */
  predicate Chain(ms: seq<Match>, lo: nat, hi: nat)
    decreases |ms|
  {
    if ms == [] then lo <= hi
    else lo <= ms[0].start < ms[0].end && Chain(ms[1..], ms[0].end, hi)
  }

  lemma {:induction false} ChainLower(ms: seq<Match>, lo: nat, lo': nat, hi: nat)
    requires lo' <= lo && Chain(ms, lo, hi)
    ensures Chain(ms, lo', hi)
  {
  }

  lemma {:induction false} ChainWithin(ms: seq<Match>, lo: nat, hi: nat)
    requires Chain(ms, lo, hi)
    ensures lo <= hi
    ensures ms != [] ==> ms[0].end <= hi
    decreases |ms|
  {
    if ms != [] {
      ChainWithin(ms[1..], ms[0].end, hi);
    }
  }

  /** A chain lies inside its bounds. */
  lemma {:induction false} ChainBounds(ms: seq<Match>, lo: nat, hi: nat, k: nat)
    requires Chain(ms, lo, hi) && k < |ms|
    ensures lo <= ms[k].start < ms[k].end <= hi
    decreases |ms|
  {
    if k == 0 {
      if |ms| > 1 {
        ChainBounds(ms[1..], ms[0].end, hi, 0);
      }
    } else {
      ChainBounds(ms[1..], ms[0].end, hi, k - 1);
    }
  }

  /**
   * Every occurrence the scan finds, from `from` on: each search resumes at
   * the end of the previous match, so the matches are leftmost and do not
   * overlap.
   */
  function Matches(data: seq<byte>, d: Delimiter, from: nat): (ms: seq<Match>)
    requires WellFormed(d) && from <= |data|
    ensures Chain(ms, from, |data|)
    decreases |data| - from
  {
    match FindFrom(data, d, from)
    case None => []
    case Some(m) => [m] + Matches(data, d, m.end)
  }

  /** Each match starts at an occurrence of the delimiter and ends after the whole pattern (a literal) or at the end of the maximal run of class bytes (a class). */
  lemma {:induction false} MatchesAreOccurrences(data: seq<byte>, d: Delimiter, from: nat, k: nat)
    requires WellFormed(d) && from <= |data| && k < |Matches(data, d, from)|
    ensures var m := Matches(data, d, from)[k];
      StartsAt(data, d, m.start) && m.end == EndAt(data, d, m.start)
    decreases |data| - from
  {
    var m := FindFrom(data, d, from).value;
    if k > 0 {
      MatchesAreOccurrences(data, d, m.end, k - 1);
    }
  }

  /** Skipping a position where no occurrence begins changes nothing. */
  lemma {:induction false} SkipNonStart(data: seq<byte>, d: Delimiter, from: nat)
    requires WellFormed(d) && from < |data| && !StartsAt(data, d, from)
    ensures Matches(data, d, from) == Matches(data, d, from + 1)
  {
  }

  /** An occurrence beginning at the search position is the first match. */
  lemma {:induction false} StartHere(data: seq<byte>, d: Delimiter, from: nat)
    requires WellFormed(d) && from <= |data| && StartsAt(data, d, from)
    ensures Matches(data, d, from) == [Match(from, EndAt(data, d, from))] + Matches(data, d, EndAt(data, d, from))
  {
  }

  /** The search finds nothing once it has reached the end of the content. */
  lemma {:induction false} NoMatchAtEnd(data: seq<byte>, d: Delimiter)
    requires WellFormed(d)
    ensures Matches(data, d, |data|) == []
  {
    assert !StartsAt(data, d, |data|);
  }

  /** No occurrence of the delimiter begins at any position of [lo, hi). */
  predicate NoStartIn(data: seq<byte>, d: Delimiter, lo: nat, hi: nat)
    decreases hi - lo
  {
    lo >= hi || (!StartsAt(data, d, lo) && NoStartIn(data, d, lo + 1, hi))
  }

  lemma {:induction false} NoStartInAll(data: seq<byte>, d: Delimiter, lo: nat, hi: nat)
    ensures NoStartIn(data, d, lo, hi) <==> forall i :: lo <= i < hi ==> !StartsAt(data, d, i)
    decreases hi - lo
  {
    if lo < hi {
      NoStartInAll(data, d, lo + 1, hi);
    }
  }

  /** With nothing beginning before `a` and an occurrence at `a`, the next match is the one at `a`. */
  lemma {:induction false} NextMatchAt(data: seq<byte>, d: Delimiter, from: nat, a: nat)
    requires WellFormed(d) && from <= a <= |data|
    requires NoStartIn(data, d, from, a) && StartsAt(data, d, a)
    ensures Matches(data, d, from) == [Match(a, EndAt(data, d, a))] + Matches(data, d, EndAt(data, d, a))
    decreases a - from
  {
    if from < a {
      SkipNonStart(data, d, from);
      NextMatchAt(data, d, from + 1, a);
    } else {
      StartHere(data, d, from);
    }
  }

  /** With nothing beginning from `from` on, there are no more matches. */
  lemma {:induction false} NoMoreMatches(data: seq<byte>, d: Delimiter, from: nat)
    requires WellFormed(d) && from <= |data| && NoStartIn(data, d, from, |data|)
    ensures Matches(data, d, from) == []
    decreases |data| - from
  {
    if from < |data| {
      SkipNonStart(data, d, from);
      NoMoreMatches(data, d, from + 1);
    } else {
      NoMatchAtEnd(data, d);
    }
  }

  /** A run of delimiter bytes starting at `a` and ending at `b` is the next match. */
  lemma {:induction false} RunAt(data: seq<byte>, members: set<byte>, a: nat, b: nat)
    requires a < b <= |data|
    requires forall k :: a <= k < b ==> data[k] in members
    requires b == |data| || data[b] !in members
    ensures Matches(data, Run(members), a) != []
    ensures Matches(data, Run(members), a)[0] == Match(a, b)
    ensures Matches(data, Run(members), a)[1..] == Matches(data, Run(members), b)
  {
    RunEndIs(data, members, a, b);
    StartHere(data, Run(members), a);
    var rest := Matches(data, Run(members), b);
    assert ([Match(a, b)] + rest)[1..] == rest;
  }

  predicate Inside(m: Match, i: nat)
  {
    m.start <= i < m.end
  }

  /**
   * Nothing the scan skips is an occurrence: every occurrence of the
   * delimiter begins inside one of the matches (it is one of them, overlaps
   * one, or, for a run, lies inside a longer run that was matched).
   */
  lemma {:induction false} EveryOccurrenceCovered(data: seq<byte>, d: Delimiter, from: nat, i: nat)
    requires WellFormed(d) && from <= i <= |data| && StartsAt(data, d, i)
    ensures exists k :: 0 <= k < |Matches(data, d, from)| && Inside(Matches(data, d, from)[k], i)
    decreases |data| - from
  {
    var ms := Matches(data, d, from);
    assert FindFrom(data, d, from).Some?;
    var m := FindFrom(data, d, from).value;
    assert ms[0] == m;
    assert m.start <= i;
    if i < m.end {
      assert Inside(ms[0], i);
    } else {
      EveryOccurrenceCovered(data, d, m.end, i);
      var ms' := Matches(data, d, m.end);
      var k :| 0 <= k < |ms'| && Inside(ms'[k], i);
      assert ms[k + 1] == ms'[k];
    }
  }
}
