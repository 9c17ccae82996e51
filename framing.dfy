/**
 * Content made of lines separated by runs of delimiter bytes, the shape of
 * every regular-expression test: with a character-class delimiter such as
 * [\n\r]+ the splits are the lines, or the lines with their runs attached.
 */
module Framing {
  import opened Bytes
  import opened Matcher
  import opened Segmenting

  /** A line of text: no delimiter byte in it. */
  predicate Clean(s: seq<byte>, members: set<byte>)
  {
    forall k :: 0 <= k < |s| ==> s[k] !in members
  }

  /** A separator: delimiter bytes only. */
  predicate AllMembers(s: seq<byte>, members: set<byte>)
  {
    forall k :: 0 <= k < |s| ==> s[k] in members
  }

  /** A line and the run of delimiter bytes next to it, both non-empty. */
  datatype Line = Line(text: seq<byte>, separator: seq<byte>)

  predicate WellSeparated(lines: seq<Line>, members: set<byte>)
  {
    forall i :: 0 <= i < |lines| ==>
      |lines[i].text| > 0 && Clean(lines[i].text, members) &&
      |lines[i].separator| > 0 && AllMembers(lines[i].separator, members)
  }

  /** Each line followed by its separator. */
  function TrailingForm(lines: seq<Line>): seq<byte>
  {
    if lines == [] then [] else lines[0].text + lines[0].separator + TrailingForm(lines[1..])
  }

  /** Each line preceded by its separator. */
  function LeadingForm(lines: seq<Line>): seq<byte>
  {
    if lines == [] then [] else lines[0].separator + lines[0].text + LeadingForm(lines[1..])
  }

  function Texts(lines: seq<Line>): (r: seq<seq<byte>>)
    ensures |r| == |lines|
    ensures forall i :: 0 <= i < |lines| ==> r[i] == lines[i].text
  {
    if lines == [] then [] else [lines[0].text] + Texts(lines[1..])
  }

  function TextsThenSeparators(lines: seq<Line>): (r: seq<seq<byte>>)
    ensures |r| == |lines|
    ensures forall i :: 0 <= i < |lines| ==> r[i] == lines[i].text + lines[i].separator
  {
    if lines == [] then [] else [lines[0].text + lines[0].separator] + TextsThenSeparators(lines[1..])
  }

  function SeparatorsThenTexts(lines: seq<Line>): (r: seq<seq<byte>>)
    ensures |r| == |lines|
    ensures forall i :: 0 <= i < |lines| ==> r[i] == lines[i].separator + lines[i].text
  {
    if lines == [] then [] else [lines[0].separator + lines[0].text] + SeparatorsThenTexts(lines[1..])
  }

  /** Positions of a clean stretch are skipped by the search. */
  lemma {:induction false} SkipClean(data: seq<byte>, members: set<byte>, lo: nat, hi: nat)
    requires lo <= hi <= |data|
    requires forall k :: lo <= k < hi ==> data[k] !in members
    ensures Matches(data, Run(members), lo) == Matches(data, Run(members), hi)
    decreases hi - lo
  {
    if lo < hi {
      SkipNonStart(data, Run(members), lo);
      SkipClean(data, members, lo + 1, hi);
    }
  }

  /** The first match from `from` on is the run [a, b). */
  predicate FirstRun(data: seq<byte>, members: set<byte>, from: nat, a: nat, b: nat)
    requires from <= |data| && b <= |data|
  {
    var ms := Matches(data, Run(members), from);
    ms != [] && ms[0] == Match(a, b) && ms[1..] == Matches(data, Run(members), b)
  }

  /** The content holds the bytes `s` from position `p` on. */
  predicate BytesAt(data: seq<byte>, p: nat, s: seq<byte>)
  {
    p + |s| <= |data| && forall k :: 0 <= k < |s| ==> data[p + k] == s[k]
  }

  lemma {:induction false} ByteAt(data: seq<byte>, p: nat, s: seq<byte>, k: nat)
    requires BytesAt(data, p, s) && p <= k < p + |s|
    ensures data[k] == s[k - p]
  {
    assert data[p + (k - p)] == s[k - p];
  }

  lemma {:induction false} BytesAtSlice(data: seq<byte>, p: nat, s: seq<byte>)
    requires BytesAt(data, p, s)
    ensures data[p..p + |s|] == s
  {
    forall k | 0 <= k < |s|
      ensures data[p..p + |s|][k] == s[k]
    {
      ByteAt(data, p, s, p + k);
    }
  }

  lemma {:induction false} BytesAtJoin(data: seq<byte>, p: nat, a: seq<byte>, b: seq<byte>)
    requires BytesAt(data, p, a) && BytesAt(data, p + |a|, b)
    ensures BytesAt(data, p, a + b)
  {
    forall k | 0 <= k < |a + b|
      ensures data[p + k] == (a + b)[k]
    {
      if k < |a| {
        ByteAt(data, p, a, p + k);
      } else {
        ByteAt(data, p + |a|, b, p + k);
      }
    }
  }

  /** From position `p` on, the content is the lines, each followed by its separator. */
  predicate TrailingAt(data: seq<byte>, p: nat, lines: seq<Line>)
    decreases |lines|
  {
    if lines == [] then p == |data|
    else
      BytesAt(data, p, lines[0].text) && BytesAt(data, p + |lines[0].text|, lines[0].separator) &&
      TrailingAt(data, p + |lines[0].text| + |lines[0].separator|, lines[1..])
  }

  /** From position `p` on, the content is the lines, each preceded by its separator. */
  predicate LeadingAt(data: seq<byte>, p: nat, lines: seq<Line>)
    decreases |lines|
  {
    if lines == [] then p == |data|
    else
      BytesAt(data, p, lines[0].separator) && BytesAt(data, p + |lines[0].separator|, lines[0].text) &&
      LeadingAt(data, p + |lines[0].separator| + |lines[0].text|, lines[1..])
  }

  /** Two byte strings written after `pre` sit right after it, one after the other. */
  lemma {:induction false} TwoPartsAt(pre: seq<byte>, a: seq<byte>, b: seq<byte>, y: seq<byte>)
    ensures BytesAt(pre + (a + b + y), |pre|, a) && BytesAt(pre + (a + b + y), |pre| + |a|, b)
    ensures pre + (a + b + y) == (pre + a + b) + y
  {
    var data := pre + (a + b + y);
    forall k | 0 <= k < |a|
      ensures data[|pre| + k] == a[k]
    {
    }
    forall k | 0 <= k < |b|
      ensures data[|pre| + |a| + k] == b[k]
    {
    }
  }

  lemma {:induction false} TrailingFormAt(pre: seq<byte>, lines: seq<Line>)
    ensures TrailingAt(pre + TrailingForm(lines), |pre|, lines)
    decreases |lines|
  {
    if lines == [] {
      assert pre + [] == pre;
    } else {
      var text, sep, y := lines[0].text, lines[0].separator, TrailingForm(lines[1..]);
      assert TrailingForm(lines) == text + sep + y;
      TwoPartsAt(pre, text, sep, y);
      TrailingFormAt(pre + text + sep, lines[1..]);
    }
  }

  lemma {:induction false} LeadingFormAt(pre: seq<byte>, lines: seq<Line>)
    ensures LeadingAt(pre + LeadingForm(lines), |pre|, lines)
    decreases |lines|
  {
    if lines == [] {
      assert pre + [] == pre;
    } else {
      var sep, text, y := lines[0].separator, lines[0].text, LeadingForm(lines[1..]);
      assert LeadingForm(lines) == sep + text + y;
      TwoPartsAt(pre, sep, text, y);
      LeadingFormAt(pre + sep + text, lines[1..]);
    }
  }

  /** The first byte after a line and its separator starts the next line. */
  lemma {:induction false} TrailingNext(data: seq<byte>, p: nat, lines: seq<Line>, members: set<byte>)
    requires WellSeparated(lines, members) && TrailingAt(data, p, lines)
    ensures p == |data| || (p < |data| && data[p] !in members)
  {
    if lines != [] {
      ByteAt(data, p, lines[0].text, p);
    }
  }

  /** One line and separator opening the content at `p`, and the lines after them from `r` on. */
  lemma {:induction false} TrailingHead(data: seq<byte>, p: nat, q: nat, r: nat, lines: seq<Line>)
    requires lines != [] && TrailingAt(data, p, lines)
    requires q == p + |lines[0].text| && r == q + |lines[0].separator|
    ensures BytesAt(data, p, lines[0].text) && BytesAt(data, q, lines[0].separator)
    ensures TrailingAt(data, r, lines[1..])
  {
  }

  /** A line then its separator: the separator is the first match from the start of the line on. */
  lemma {:induction false} TrailingFirstRun(data: seq<byte>, p: nat, q: nat, r: nat, lines: seq<Line>, members: set<byte>)
    requires WellSeparated(lines, members) && lines != []
    requires q == p + |lines[0].text| && r == q + |lines[0].separator|
    requires BytesAt(data, p, lines[0].text) && BytesAt(data, q, lines[0].separator)
    requires TrailingAt(data, r, lines[1..])
    ensures r <= |data| && FirstRun(data, members, p, q, r)
  {
    forall k | p <= k < q
      ensures data[k] !in members
    {
      ByteAt(data, p, lines[0].text, k);
    }
    SkipClean(data, members, p, q);
    forall k | q <= k < r
      ensures data[k] in members
    {
      ByteAt(data, q, lines[0].separator, k);
    }
    assert WellSeparated(lines[1..], members);
    TrailingNext(data, r, lines[1..], members);
    RunAt(data, members, q, r);
  }

  /** One separator and line opening the content at `p`, and the lines after them from `r` on. */
  lemma {:induction false} LeadingHead(data: seq<byte>, p: nat, q: nat, r: nat, lines: seq<Line>)
    requires lines != [] && LeadingAt(data, p, lines)
    requires q == p + |lines[0].separator| && r == q + |lines[0].text|
    ensures BytesAt(data, p, lines[0].separator) && BytesAt(data, q, lines[0].text)
    ensures LeadingAt(data, r, lines[1..])
  {
  }

  /** The bytes from `p` to `r` are the separator and then the line. */
  lemma {:induction false} LeadingSlice(data: seq<byte>, p: nat, q: nat, r: nat, line: Line)
    requires q == p + |line.separator| && r == q + |line.text|
    requires BytesAt(data, p, line.separator) && BytesAt(data, q, line.text)
    ensures r <= |data| && data[p..r] == line.separator + line.text
  {
    BytesAtJoin(data, p, line.separator, line.text);
    BytesAtSlice(data, p, line.separator + line.text);
  }

  /** The separator opening the content at `p` is the first match from `p` on. */
  lemma {:induction false} LeadingFirstRun(data: seq<byte>, p: nat, q: nat, lines: seq<Line>, members: set<byte>)
    requires WellSeparated(lines, members) && lines != [] && q == p + |lines[0].separator|
    requires BytesAt(data, p, lines[0].separator) && BytesAt(data, q, lines[0].text)
    ensures q <= |data| && FirstRun(data, members, p, p, q)
  {
    forall k | p <= k < q
      ensures data[k] in members
    {
      ByteAt(data, p, lines[0].separator, k);
    }
    ByteAt(data, q, lines[0].text, q);
    RunAt(data, members, p, q);
  }

  /** The line after a leading separator holds no delimiter byte: the search passes over it. */
  lemma {:induction false} LeadingText(data: seq<byte>, q: nat, r: nat, lines: seq<Line>, members: set<byte>)
    requires WellSeparated(lines, members) && lines != [] && r == q + |lines[0].text|
    requires BytesAt(data, q, lines[0].text)
    ensures r <= |data| && Matches(data, Run(members), q) == Matches(data, Run(members), r)
  {
    forall k | q <= k < r
      ensures data[k] !in members
    {
      ByteAt(data, q, lines[0].text, k);
    }
    SkipClean(data, members, q, r);
  }

  /** The first split is the bytes before the first cut; the rest follow the cut. */
  lemma {:induction false} ContentsCons(data: seq<byte>, ms: seq<Match>, keep: bool, position: Position, lo: nat)
    requires Chain(ms, lo, |data|) && ms != [] && lo < Cut(ms[0], keep, position).0 <= |data|
    ensures Chain(ms[1..], Cut(ms[0], keep, position).1, |data|)
    ensures Contents(data, Segments(|data|, ms, keep, position, lo)) ==
      [data[lo..Cut(ms[0], keep, position).0]] +
      Contents(data, Segments(|data|, ms[1..], keep, position, Cut(ms[0], keep, position).1))
  {
    SegmentsCons(|data|, ms, keep, position, lo);
    ContentsAppend(data, [Segment(lo, Cut(ms[0], keep, position).0)],
      Segments(|data|, ms[1..], keep, position, Cut(ms[0], keep, position).1));
  }

  /** A match where the pending split begins cuts off nothing. */
  lemma {:induction false} SegmentsSkip(n: nat, ms: seq<Match>, keep: bool, position: Position, lo: nat)
    requires Chain(ms, lo, n) && ms != [] && lo == Cut(ms[0], keep, position).0
    ensures Chain(ms[1..], Cut(ms[0], keep, position).1, n)
    ensures Segments(n, ms, keep, position, lo) == Segments(n, ms[1..], keep, position, Cut(ms[0], keep, position).1)
  {
    SegmentsCons(n, ms, keep, position, lo);
  }

  /** Dropping: a match [a, b) closes the split pending since `lo`, and the next one starts at b. */
  lemma {:induction false} DropCut(data: seq<byte>, ms: seq<Match>, position: Position, lo: nat, a: nat, b: nat, tail: seq<seq<byte>>)
    requires Chain(ms, lo, |data|) && ms != [] && ms[0] == Match(a, b) && lo < a <= |data|
    requires Chain(ms[1..], b, |data|)
    requires Contents(data, Segments(|data|, ms[1..], false, position, b)) == tail
    ensures Contents(data, Segments(|data|, ms, false, position, lo)) == [data[lo..a]] + tail
  {
    ChainWithin(ms, lo, |data|);
    ContentsCons(data, ms, false, position, lo);
  }

  lemma {:induction false} DropAssemble(data: seq<byte>, ms: seq<Match>, position: Position, lo: nat, a: nat, b: nat, lines: seq<Line>)
    requires Chain(ms, lo, |data|) && ms != [] && ms[0] == Match(a, b) && lo < a <= |data|
    requires Chain(ms[1..], b, |data|) && lines != [] && data[lo..a] == lines[0].text
    requires Contents(data, Segments(|data|, ms[1..], false, position, b)) == Texts(lines[1..])
    ensures Contents(data, Segments(|data|, ms, false, position, lo)) == Texts(lines)
  {
    DropCut(data, ms, position, lo, a, b, Texts(lines[1..]));
    assert Texts(lines) == [lines[0].text] + Texts(lines[1..]);
  }

  /** Leading: a match at `p` closes the split pending since `lo`, and opens the next one. */
  lemma {:induction false} LeadingCut(data: seq<byte>, ms: seq<Match>, lo: nat, p: nat)
    requires Chain(ms, p, |data|) && ms != [] && ms[0].start == p && lo < p
    ensures Chain(ms, lo, |data|)
    ensures Contents(data, Segments(|data|, ms, true, Leading, lo)) ==
      [data[lo..p]] + Contents(data, Segments(|data|, ms, true, Leading, p))
  {
    ChainLower(ms, p, lo, |data|);
    ChainWithin(ms, p, |data|);
    ContentsCons(data, ms, true, Leading, lo);
    SegmentsSkip(|data|, ms, true, Leading, p);
  }

  /** Keeping the delimiter at the end: a match ending at `b` closes the split pending since `lo`. */
  lemma {:induction false} TrailingAssemble(data: seq<byte>, ms: seq<Match>, lo: nat, a: nat, b: nat, lines: seq<Line>)
    requires Chain(ms, lo, |data|) && ms != [] && ms[0] == Match(a, b) && lo < b <= |data|
    requires Chain(ms[1..], b, |data|) && lines != [] && data[lo..b] == lines[0].text + lines[0].separator
    requires Contents(data, Segments(|data|, ms[1..], true, Trailing, b)) == TextsThenSeparators(lines[1..])
    ensures Contents(data, Segments(|data|, ms, true, Trailing, lo)) == TextsThenSeparators(lines)
  {
    ContentsCons(data, ms, true, Trailing, lo);
    assert TextsThenSeparators(lines) == [lines[0].text + lines[0].separator] + TextsThenSeparators(lines[1..]);
  }

  lemma {:induction false} LeadingAssemble(data: seq<byte>, ms: seq<Match>, lo: nat, p: nat, lines: seq<Line>)
    requires Chain(ms, p, |data|) && ms != [] && ms[0].start == p && lo < p <= |data|
    requires lines != [] && data[lo..p] == lines[0].separator + lines[0].text
    requires Contents(data, Segments(|data|, ms, true, Leading, p)) == SeparatorsThenTexts(lines[1..])
    ensures Chain(ms, lo, |data|)
    ensures Contents(data, Segments(|data|, ms, true, Leading, lo)) == SeparatorsThenTexts(lines)
  {
    LeadingCut(data, ms, lo, p);
    assert SeparatorsThenTexts(lines) == [lines[0].separator + lines[0].text] + SeparatorsThenTexts(lines[1..]);
  }

  /** The bytes from `p` are the line, up to `q`, and then its separator, up to `r`. */
  lemma {:induction false} TrailingSlices(data: seq<byte>, p: nat, q: nat, r: nat, line: Line)
    requires q == p + |line.text| && r == q + |line.separator|
    requires BytesAt(data, p, line.text) && BytesAt(data, q, line.separator)
    ensures r <= |data| && data[p..q] == line.text && data[p..r] == line.text + line.separator
  {
    BytesAtSlice(data, p, line.text);
    BytesAtJoin(data, p, line.text, line.separator);
    BytesAtSlice(data, p, line.text + line.separator);
  }

  /** A line and its separator open the content from `p` on; the rest of the lines follow. */
  lemma {:induction false} TrailingOpen(data: seq<byte>, p: nat, q: nat, r: nat, lines: seq<Line>, members: set<byte>)
    requires WellSeparated(lines, members) && lines != [] && TrailingAt(data, p, lines)
    requires q == p + |lines[0].text| && r == q + |lines[0].separator|
    ensures p < q <= r <= |data|
    ensures WellSeparated(lines[1..], members) && TrailingAt(data, r, lines[1..])
    ensures FirstRun(data, members, p, q, r)
    ensures data[p..q] == lines[0].text
    ensures data[p..r] == lines[0].text + lines[0].separator
  {
    TrailingHead(data, p, q, r, lines);
    TrailingFirstRun(data, p, q, r, lines, members);
    TrailingSlices(data, p, q, r, lines[0]);
  }

  /** Dropping: the first run [a, b) from `lo` on closes the line before it. */
  lemma {:induction false} DropStep(data: seq<byte>, members: set<byte>, position: Position, lo: nat, a: nat, b: nat, lines: seq<Line>)
    requires lo < a <= b <= |data| && FirstRun(data, members, lo, a, b)
    requires lines != [] && data[lo..a] == lines[0].text
    requires Contents(data, Segments(|data|, Matches(data, Run(members), b), false, position, b)) == Texts(lines[1..])
    ensures Contents(data, Segments(|data|, Matches(data, Run(members), lo), false, position, lo)) == Texts(lines)
  {
    var ms := Matches(data, Run(members), lo);
    DropAssemble(data, ms, position, lo, a, b, lines);
  }

  /** Keeping trailing: the first run [a, b) from `lo` on closes the line and itself. */
  lemma {:induction false} TrailingStep(data: seq<byte>, members: set<byte>, lo: nat, a: nat, b: nat, lines: seq<Line>)
    requires lo < b <= |data| && a <= b && FirstRun(data, members, lo, a, b)
    requires lines != [] && data[lo..b] == lines[0].text + lines[0].separator
    requires Contents(data, Segments(|data|, Matches(data, Run(members), b), true, Trailing, b)) ==
      TextsThenSeparators(lines[1..])
    ensures Contents(data, Segments(|data|, Matches(data, Run(members), lo), true, Trailing, lo)) ==
      TextsThenSeparators(lines)
  {
    var ms := Matches(data, Run(members), lo);
    TrailingAssemble(data, ms, lo, a, b, lines);
  }

  lemma {:induction false} RunSplitDropAt(data: seq<byte>, p: nat, lines: seq<Line>, members: set<byte>, position: Position)
    requires WellSeparated(lines, members) && TrailingAt(data, p, lines)
    ensures p <= |data|
    ensures Contents(data, Segments(|data|, Matches(data, Run(members), p), false, position, p)) == Texts(lines)
    decreases |lines|
  {
    if lines == [] {
      NoMatchAtEnd(data, Run(members));
    } else {
      var q := p + |lines[0].text|;
      var r := q + |lines[0].separator|;
      TrailingOpen(data, p, q, r, lines, members);
      RunSplitDropAt(data, r, lines[1..], members, position);
      DropStep(data, members, position, p, q, r, lines);
    }
  }

  /** Dropping runs of delimiter bytes between clean lines leaves the lines. */
  lemma {:induction false} RunSplitDrop(lines: seq<Line>, members: set<byte>, position: Position)
    requires WellSeparated(lines, members)
    ensures Split(TrailingForm(lines), Run(members), false, position) == Texts(lines)
  {
    TrailingFormAt([], lines);
    assert [] + TrailingForm(lines) == TrailingForm(lines);
    RunSplitDropAt(TrailingForm(lines), 0, lines, members, position);
  }

  lemma {:induction false} RunSplitTrailingAt(data: seq<byte>, p: nat, lines: seq<Line>, members: set<byte>)
    requires WellSeparated(lines, members) && TrailingAt(data, p, lines)
    ensures p <= |data|
    ensures Contents(data, Segments(|data|, Matches(data, Run(members), p), true, Trailing, p)) ==
      TextsThenSeparators(lines)
    decreases |lines|
  {
    if lines == [] {
      NoMatchAtEnd(data, Run(members));
    } else {
      var q := p + |lines[0].text|;
      var r := q + |lines[0].separator|;
      TrailingOpen(data, p, q, r, lines, members);
      RunSplitTrailingAt(data, r, lines[1..], members);
      TrailingStep(data, members, p, q, r, lines);
    }
  }

  /** Keeping trailing runs, each split is a line with the run after it. */
  lemma {:induction false} RunSplitTrailing(lines: seq<Line>, members: set<byte>)
    requires WellSeparated(lines, members)
    ensures Split(TrailingForm(lines), Run(members), true, Trailing) == TextsThenSeparators(lines)
  {
    TrailingFormAt([], lines);
    assert [] + TrailingForm(lines) == TrailingForm(lines);
    RunSplitTrailingAt(TrailingForm(lines), 0, lines, members);
  }

  /**
   * Leading: the run [p, q) at the start of the pending split cuts off
   * nothing, and the line after it holds no match, so the split runs on to `r`.
   */
  lemma {:induction false} LeadingSkip(data: seq<byte>, members: set<byte>, p: nat, q: nat, r: nat)
    requires p < q <= r <= |data| && FirstRun(data, members, p, p, q)
    requires Matches(data, Run(members), q) == Matches(data, Run(members), r)
    ensures Chain(Matches(data, Run(members), r), p, |data|)
    ensures Segments(|data|, Matches(data, Run(members), p), true, Leading, p) ==
      Segments(|data|, Matches(data, Run(members), r), true, Leading, p)
  {
    var ms := Matches(data, Run(members), p);
    SegmentsSkip(|data|, ms, true, Leading, p);
    ChainLower(Matches(data, Run(members), r), r, p, |data|);
  }

  /**
   * Leading: the first separator and line of `lines`, from `p` to `r`, are
   * one pending split that the next run (or the end) closes.
   */
  lemma {:induction false} LeadingPrefix(data: seq<byte>, p: nat, q: nat, r: nat, lines: seq<Line>, members: set<byte>)
    requires WellSeparated(lines, members) && lines != [] && LeadingAt(data, p, lines)
    requires q == p + |lines[0].separator| && r == q + |lines[0].text|
    ensures p < r <= |data|
    ensures WellSeparated(lines[1..], members) && LeadingAt(data, r, lines[1..])
    ensures data[p..r] == lines[0].separator + lines[0].text
    ensures Chain(Matches(data, Run(members), r), p, |data|)
    ensures Segments(|data|, Matches(data, Run(members), p), true, Leading, p) ==
      Segments(|data|, Matches(data, Run(members), r), true, Leading, p)
  {
    LeadingHead(data, p, q, r, lines);
    LeadingFirstRun(data, p, q, lines, members);
    LeadingText(data, q, r, lines, members);
    LeadingSlice(data, p, q, r, lines[0]);
    LeadingSkip(data, members, p, q, r);
  }

  /** Where a separator opens the lines, the first match begins. */
  lemma {:induction false} LeadingRunStarts(data: seq<byte>, r: nat, lines: seq<Line>, members: set<byte>)
    requires WellSeparated(lines, members) && lines != [] && LeadingAt(data, r, lines)
    ensures r <= |data|
    ensures Matches(data, Run(members), r) != [] && Matches(data, Run(members), r)[0].start == r
  {
    var q := r + |lines[0].separator|;
    LeadingHead(data, r, q, q + |lines[0].text|, lines);
    LeadingFirstRun(data, r, q, lines, members);
  }

  /** Leading: the run opening the next line at `r` closes the split pending since `p`. */
  lemma {:induction false} LeadingStep(data: seq<byte>, members: set<byte>, p: nat, r: nat, lines: seq<Line>)
    requires p < r <= |data| && lines != []
    requires Matches(data, Run(members), r) != [] && Matches(data, Run(members), r)[0].start == r
    requires data[p..r] == lines[0].separator + lines[0].text
    requires Contents(data, Segments(|data|, Matches(data, Run(members), r), true, Leading, r)) ==
      SeparatorsThenTexts(lines[1..])
    ensures Contents(data, Segments(|data|, Matches(data, Run(members), r), true, Leading, p)) ==
      SeparatorsThenTexts(lines)
  {
    var ms := Matches(data, Run(members), r);
    LeadingAssemble(data, ms, p, r, lines);
  }

  lemma {:induction false} RunSplitLeadingAt(data: seq<byte>, p: nat, lines: seq<Line>, members: set<byte>)
    requires WellSeparated(lines, members) && lines != [] && LeadingAt(data, p, lines)
    ensures p <= |data|
    ensures Contents(data, Segments(|data|, Matches(data, Run(members), p), true, Leading, p)) ==
      SeparatorsThenTexts(lines)
    decreases |lines|, 1
  {
    if |lines| == 1 {
      RunSplitLeadingLast(data, p, lines, members);
    } else {
      RunSplitLeadingStep(data, p, lines, members);
    }
  }

  /** The last separator and line make the last split. */
  lemma {:induction false} RunSplitLeadingLast(data: seq<byte>, p: nat, lines: seq<Line>, members: set<byte>)
    requires WellSeparated(lines, members) && |lines| == 1 && LeadingAt(data, p, lines)
    ensures p <= |data|
    ensures Contents(data, Segments(|data|, Matches(data, Run(members), p), true, Leading, p)) ==
      SeparatorsThenTexts(lines)
  {
    var r := p + |lines[0].separator| + |lines[0].text|;
    LeadingPrefix(data, p, p + |lines[0].separator|, r, lines, members);
    assert lines[1..] == [];
    NoMatchAtEnd(data, Run(members));
    assert Segments(|data|, Matches(data, Run(members), r), true, Leading, p) == [Segment(p, r)];
    assert SeparatorsThenTexts(lines) == [lines[0].separator + lines[0].text];
  }

  lemma {:induction false} RunSplitLeadingStep(data: seq<byte>, p: nat, lines: seq<Line>, members: set<byte>)
    requires WellSeparated(lines, members) && |lines| > 1 && LeadingAt(data, p, lines)
    ensures p <= |data|
    ensures Contents(data, Segments(|data|, Matches(data, Run(members), p), true, Leading, p)) ==
      SeparatorsThenTexts(lines)
    decreases |lines|, 0
  {
    var r := p + |lines[0].separator| + |lines[0].text|;
    var rest := lines[1..];
    LeadingPrefix(data, p, p + |lines[0].separator|, r, lines, members);
    RunSplitLeadingAt(data, r, rest, members);
    LeadingRunStarts(data, r, rest, members);
    LeadingStep(data, members, p, r, lines);
  }

  /** Keeping leading runs, each split is a run with the line after it. */
  lemma {:induction false} RunSplitLeading(lines: seq<Line>, members: set<byte>)
    requires WellSeparated(lines, members)
    ensures Split(LeadingForm(lines), Run(members), true, Leading) == SeparatorsThenTexts(lines)
  {
    if lines != [] {
      LeadingFormAt([], lines);
      assert [] + LeadingForm(lines) == LeadingForm(lines);
      RunSplitLeadingAt(LeadingForm(lines), 0, lines, members);
    }
  }
}
