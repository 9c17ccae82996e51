/**
 * The state of a streaming search, as values: where the search stands, the
 * delimiter run it may be inside, and the splits recorded so far; and the
 * steps that move it on, each proved to keep the recorded splits in
 * agreement with the pure model.
 */
module ScanState {
  import opened Bytes
  import opened Matcher
  import opened Segmenting

  /** An occurrence of the pattern at `c` is the next match. */
  lemma {:induction false} LiteralHit(data: seq<byte>, d: Delimiter, c: nat)
    requires d.Literal? && WellFormed(d) && PatternAt(data, d.pattern, c)
    ensures c + |d.pattern| <= |data|
    ensures Matches(data, d, c) == [Match(c, c + |d.pattern|)] + Matches(data, d, c + |d.pattern|)
  {
    StartHere(data, d, c);
  }

  /** No occurrence of the pattern at `c`: no match begins there. */
  lemma {:induction false} LiteralMiss(data: seq<byte>, d: Delimiter, c: nat)
    requires d.Literal? && !PatternAt(data, d.pattern, c)
    ensures !StartsAt(data, d, c)
  {
  }

  /** A run of delimiter bytes [a, b), with none just after it, is the next match from `a` on. */
  lemma {:induction false} RunClosed(data: seq<byte>, members: set<byte>, a: nat, b: nat)
    requires a < b <= |data|
    requires forall k :: a <= k < b ==> data[k] in members
    requires b == |data| || data[b] !in members
    ensures Matches(data, Run(members), a) == [Match(a, b)] + Matches(data, Run(members), b)
  {
    RunEndIs(data, members, a, b);
    StartHere(data, Run(members), a);
  }

  /** Fewer bytes are left than the pattern has: there is no further match. */
  lemma {:induction false} LiteralExhausted(data: seq<byte>, d: Delimiter, c: nat)
    requires d.Literal? && WellFormed(d) && c <= |data| < c + |d.pattern|
    ensures Matches(data, d, c) == []
  {
    assert FindFrom(data, d, c).None?;
  }

  /**
   * The splits recorded so far, followed by the splits still to be cut from
   * the search position `resume` on (the pending split beginning at
   * `segStart`), are the splits of the whole content.
   */
  predicate Accounted(data: seq<byte>, d: Delimiter, keep: bool, position: Position,
                      resume: nat, segStart: nat, recorded: seq<Segment>)
    requires WellFormed(d)
  {
    resume <= |data| && Chain(Matches(data, d, resume), segStart, |data|) &&
    recorded + Segments(|data|, Matches(data, d, resume), keep, position, segStart) ==
      Segments(|data|, Matches(data, d, 0), keep, position, 0)
  }

  /** Nothing is recorded and the search has not begun. */
  lemma {:induction false} AccountStart(data: seq<byte>, d: Delimiter, keep: bool, position: Position)
    requires WellFormed(d)
    ensures Accounted(data, d, keep, position, 0, 0, [])
  {
    assert [] + Segments(|data|, Matches(data, d, 0), keep, position, 0) ==
      Segments(|data|, Matches(data, d, 0), keep, position, 0);
  }

  /**
   * The next match [a, b) cuts the pending split: the part before the cut is
   * recorded, and the next split and the search both go on after the match.
   */
  lemma {:induction false} AccountCut(data: seq<byte>, d: Delimiter, keep: bool, position: Position,
                                      resume: nat, a: nat, b: nat, segStart: nat, recorded: seq<Segment>)
    requires WellFormed(d) && Accounted(data, d, keep, position, resume, segStart, recorded)
    requires b <= |data| && Matches(data, d, resume) == [Match(a, b)] + Matches(data, d, b)
    ensures Accounted(data, d, keep, position, b, Cut(Match(a, b), keep, position).1,
      recorded + NonEmpty(segStart, Cut(Match(a, b), keep, position).0))
  {
    var cut := Cut(Match(a, b), keep, position);
    SegmentsFirst(|data|, Match(a, b), Matches(data, d, b), keep, position, segStart);
    var head := NonEmpty(segStart, cut.0);
    var rest := Segments(|data|, Matches(data, d, b), keep, position, cut.1);
    assert recorded + (head + rest) == (recorded + head) + rest;
  }

  /**
   * The state of the search at `cursor`: an open run, if any, is made of
   * delimiter bytes from `runStart` up to the cursor, and the recorded splits
   * account for everything before the open run or the cursor.
   */
  predicate Scanning(data: seq<byte>, d: Delimiter, keep: bool, position: Position,
                     cursor: nat, inRun: bool, runStart: nat, segStart: nat, recorded: seq<Segment>)
  {
    WellFormed(d) && cursor <= |data| &&
    (inRun ==> (d.Run? && runStart < cursor && forall k :: runStart <= k < cursor ==> data[k] in d.members)) &&
    Accounted(data, d, keep, position, if inRun then runStart else cursor, segStart, recorded)
  }

  /** The scan so far: finished with every split recorded, or in the state Scanning describes. */
  predicate Status(data: seq<byte>, d: Delimiter, keep: bool, position: Position, cursor: nat, inRun: bool,
                   runStart: nat, segStart: nat, recorded: seq<Segment>, done: bool)
  {
    WellFormed(d) && cursor <= |data| &&
    if done then !inRun && recorded == Segments(|data|, Matches(data, d, 0), keep, position, 0)
    else Scanning(data, d, keep, position, cursor, inRun, runStart, segStart, recorded)
  }

  lemma {:induction false} ScanStart(data: seq<byte>, d: Delimiter, keep: bool, position: Position)
    requires WellFormed(d)
    ensures Status(data, d, keep, position, 0, false, 0, 0, [], false)
  {
    AccountStart(data, d, keep, position);
  }

  /** Outside a run, a position where no occurrence begins is skipped. */
  lemma {:induction false} ScanSkip(data: seq<byte>, d: Delimiter, keep: bool, position: Position,
                                    c: nat, inRun: bool, runStart: nat, segStart: nat, recorded: seq<Segment>)
    requires Status(data, d, keep, position, c, inRun, runStart, segStart, recorded, false)
    requires !inRun && c < |data| && !StartsAt(data, d, c)
    ensures Status(data, d, keep, position, c + 1, inRun, runStart, segStart, recorded, false)
  {
    SkipNonStart(data, d, c);
  }

  /** A delimiter byte opens a run, or extends the open one. */
  lemma {:induction false} ScanRunByte(data: seq<byte>, d: Delimiter, keep: bool, position: Position,
                                       c: nat, inRun: bool, runStart: nat, segStart: nat, recorded: seq<Segment>)
    requires Status(data, d, keep, position, c, inRun, runStart, segStart, recorded, false)
    requires d.Run? && c < |data| && data[c] in d.members
    ensures Status(data, d, keep, position, c + 1, true, if inRun then runStart else c, segStart, recorded, false)
  {
  }

  /**
   * The match [a, b) found from where the search stands is cut at: the
   * search goes on after it, outside any run.
   */
  lemma {:induction false} ScanCut(data: seq<byte>, d: Delimiter, keep: bool, position: Position,
                                   c: nat, inRun: bool, runStart: nat, segStart: nat, recorded: seq<Segment>,
                                   a: nat, b: nat)
    requires Status(data, d, keep, position, c, inRun, runStart, segStart, recorded, false)
    requires a == (if inRun then runStart else c) && b <= |data|
    requires Matches(data, d, a) == [Match(a, b)] + Matches(data, d, b)
    ensures Status(data, d, keep, position, b, false, runStart, Cut(Match(a, b), keep, position).1,
      recorded + NonEmpty(segStart, Cut(Match(a, b), keep, position).0), false)
  {
    AccountCut(data, d, keep, position, a, a, b, segStart, recorded);
  }

  /** Outside a run and with no match left, the bytes after the last cut make the last split. */
  lemma {:induction false} ScanEnd(data: seq<byte>, d: Delimiter, keep: bool, position: Position,
                                   c: nat, inRun: bool, runStart: nat, segStart: nat, recorded: seq<Segment>)
    requires Status(data, d, keep, position, c, inRun, runStart, segStart, recorded, false)
    requires !inRun && Matches(data, d, c) == []
    ensures recorded + NonEmpty(segStart, |data|) == Segments(|data|, Matches(data, d, 0), keep, position, 0)
    ensures Status(data, d, keep, position, c, inRun, runStart, segStart, recorded + NonEmpty(segStart, |data|), true)
  {
  }
}
