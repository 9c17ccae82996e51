/**
 * The processor's documented examples, as lemmas about the model. Content
 * and delimiters are written as their bytes; the text ones are ASCII, one
 * byte a character, and the comment beside each gives the text.
 */
module Vectors {
  import opened Wrappers
  import opened Bytes
  import opened Matcher
  import opened Segmenting
  import opened Config
  import opened Fragments
  import opened Processor

  // -----------------------------------------------------------------------
  // Helpers: the search and the cut, step by step on concrete bytes

  /** An occurrence of a literal at `a`, with none between `from` and it, is the next match. */
  lemma {:induction false} LiteralNext(data: seq<byte>, p: seq<byte>, from: nat, a: nat)
    requires |p| > 0 && from <= a && NoStartIn(data, Literal(p), from, a) && PatternAt(data, p, a)
    ensures Matches(data, Literal(p), from) == [Match(a, a + |p|)] + Matches(data, Literal(p), a + |p|)
  {
    NextMatchAt(data, Literal(p), from, a);
  }

  /** Each segment from the k-th on holds the expected bytes. */
  predicate PiecesFrom(data: seq<byte>, segs: seq<Segment>, expected: seq<seq<byte>>, k: nat)
    requires |segs| == |expected|
    decreases |segs| - k
  {
    k >= |segs| ||
    (segs[k].end == segs[k].start + |expected[k]| && PatternAt(data, expected[k], segs[k].start) &&
     PiecesFrom(data, segs, expected, k + 1))
  }

  lemma {:induction false} PiecesAt(data: seq<byte>, segs: seq<Segment>, expected: seq<seq<byte>>, k: nat, j: nat)
    requires |segs| == |expected| && PiecesFrom(data, segs, expected, k) && k <= j < |segs|
    ensures segs[j].start <= segs[j].end <= |data| && data[segs[j].start..segs[j].end] == expected[j]
    decreases j - k
  {
    if k < j {
      PiecesAt(data, segs, expected, k + 1, j);
    } else {
      PatternAtSlice(data, expected[j], segs[j].start);
    }
  }

  /** The splits are the expected bytes when the segments hold them. */
  lemma {:induction false} SplitIs(data: seq<byte>, d: Delimiter, keep: bool, position: Position,
                                   segs: seq<Segment>, expected: seq<seq<byte>>)
    requires WellFormed(d) && Segments(|data|, Matches(data, d, 0), keep, position, 0) == segs
    requires |expected| == |segs| && PiecesFrom(data, segs, expected, 0)
    ensures Split(data, d, keep, position) == expected
  {
    forall j | 0 <= j < |segs|
      ensures data[segs[j].start..segs[j].end] == expected[j]
    {
      PiecesAt(data, segs, expected, 0, j);
    }
  }

  /** Two adjacent ranges where the delimiter never begins make one. */
  lemma {:induction false} NoStartInJoin(data: seq<byte>, d: Delimiter, lo: nat, mid: nat, hi: nat)
    requires lo <= mid <= hi && NoStartIn(data, d, lo, mid) && NoStartIn(data, d, mid, hi)
    ensures NoStartIn(data, d, lo, hi)
    decreases mid - lo
  {
    if lo < mid {
      NoStartInJoin(data, d, lo + 1, mid, hi);
    }
  }

  /** The middle of three joined byte strings, cut out again. */
  lemma {:induction false} Middle(x: seq<byte>, y: seq<byte>, z: seq<byte>)
    ensures |x| <= |x| + |y| <= |x + y + z| && (x + y + z)[|x|..|x| + |y|] == y
  {
  }

  /** The front of two joined byte strings, cut out again. */
  lemma {:induction false} Front(y: seq<byte>, z: seq<byte>)
    ensures |y| <= |y + z| && (y + z)[0..|y|] == y
  {
  }

  /** The splits are the expected bytes when each segment's slice is. */
  lemma {:induction false} SplitFrom(data: seq<byte>, d: Delimiter, keep: bool, position: Position,
                                     segs: seq<Segment>, expected: seq<seq<byte>>)
    requires WellFormed(d) && Segments(|data|, Matches(data, d, 0), keep, position, 0) == segs
    requires |expected| == |segs|
    requires forall j :: 0 <= j < |segs| ==> segs[j].start <= segs[j].end <= |data| && data[segs[j].start..segs[j].end] == expected[j]
    ensures Split(data, d, keep, position) == expected
  {
  }

  // -----------------------------------------------------------------------
  // The byte-sequence property in its formats

  /** Hexadecimal "FFFF" is the two bytes 0xFF 0xFF. */
  lemma {:induction false} HexFFFF()
    ensures DecodeSequence(HexSequence("FFFF")) == Ok(Literal([255, 255]))
  {
    var b: seq<byte> := [255, 255];
    assert HexEncode(b[1..]) == "FF" by {
      assert b[1..][1..] == [];
    }
    assert HexEncode(b) == "FFFF";
    HexSequenceAccepted(b);
  }

  /** Hexadecimal "FF" is the one byte 0xFF. */
  lemma {:induction false} HexFF()
    ensures DecodeSequence(HexSequence("FF")) == Ok(Literal([255]))
  {
    var b: seq<byte> := [255];
    assert HexEncode(b) == "FF" by {
      assert b[1..] == [];
    }
    HexSequenceAccepted(b);
  }

  /** Hexadecimal "05050505" is four bytes 0x05. */
  lemma {:induction false} Hex05050505()
    ensures DecodeSequence(HexSequence("05050505")) == Ok(Literal([5, 5, 5, 5]))
  {
    var b: seq<byte> := [5, 5, 5, 5];
    assert HexEncode(b[3..]) == "05" by {
      assert b[3..][1..] == [];
    }
    assert HexEncode(b[2..]) == "0505" by {
      assert b[2..][1..] == b[3..];
    }
    assert HexEncode(b[1..]) == "050505" by {
      assert b[1..][1..] == b[2..];
    }
    assert HexEncode(b) == "05050505";
    HexSequenceAccepted(b);
  }

  /** Text "ub" is the bytes of 'u' and 'b'. */
  lemma {:induction false} TextUb()
    ensures DecodeSequence(TextSequence("ub")) == Ok(Literal([117, 98]))
  {
    assert Utf8("ub") == [117, 98];
  }

  /** Text "," is the one byte of the comma. */
  lemma {:induction false} TextComma()
    ensures DecodeSequence(TextSequence(",")) == Ok(Literal([44]))
  {
    assert Utf8(",") == [44];
  }

  // -----------------------------------------------------------------------
  // The contents the examples split

  /** The text "rub-a-dub-dub". */
  const Rub: seq<byte> := [114, 117, 98, 45, 97, 45, 100, 117, 98, 45, 100, 117, 98]
  /** Five bytes, three bytes 0xFF, five bytes. */
  const Small: seq<byte> := [1, 2, 3, 4, 5, 255, 255, 255, 5, 4, 3, 2, 1]
  /** Five bytes, one byte 0xFF, five bytes. */
  const Single: seq<byte> := [1, 2, 3, 4, 5, 255, 5, 4, 3, 2, 1]
  /** 1 2 3 4, six bytes 0x05, 4 3 2 1. */
  const Larger: seq<byte> := [1, 2, 3, 4, 5, 5, 5, 5, 5, 5, 4, 3, 2, 1]
  /** 1 2 3 4, then four bytes 0x05. */
  const EndsWith: seq<byte> := [1, 2, 3, 4, 5, 5, 5, 5]
  /** Four bytes 0x05, then 1 2 3 4. */
  const StartsWith: seq<byte> := [5, 5, 5, 5, 1, 2, 3, 4]
  /** The text "UVAT". */
  const Uvat: seq<byte> := [85, 86, 65, 84]

  // The search, match by match

  /** Where the sequence occurs and where it does not. */
  lemma {:induction false} RubScan()
    ensures NoStartIn(Rub, Literal([117, 98]), 0, 1) && PatternAt(Rub, [117, 98], 1)
    ensures NoStartIn(Rub, Literal([117, 98]), 3, 7) && PatternAt(Rub, [117, 98], 7)
    ensures NoStartIn(Rub, Literal([117, 98]), 9, 11) && PatternAt(Rub, [117, 98], 11)
    ensures NoStartIn(Rub, Literal([117, 98]), 13, 13)
  {
  }

  lemma {:induction false} RubMatches()
    ensures Matches(Rub, Literal([117, 98]), 0) == [Match(1, 3), Match(7, 9), Match(11, 13)]
  {
    RubScan();
    LiteralNext(Rub, [117, 98], 0, 1);
    LiteralNext(Rub, [117, 98], 3, 7);
    LiteralNext(Rub, [117, 98], 9, 11);
    NoMoreMatches(Rub, Literal([117, 98]), 13);
  }

  /** Where the sequence occurs and where it does not. */
  lemma {:induction false} SmallScan()
    ensures NoStartIn(Small, Literal([255, 255]), 0, 5) && PatternAt(Small, [255, 255], 5)
    ensures NoStartIn(Small, Literal([255, 255]), 7, 13)
  {
  }

  lemma {:induction false} SmallMatches()
    ensures Matches(Small, Literal([255, 255]), 0) == [Match(5, 7)]
  {
    SmallScan();
    LiteralNext(Small, [255, 255], 0, 5);
    NoMoreMatches(Small, Literal([255, 255]), 7);
  }

  /** Where the sequence occurs and where it does not. */
  lemma {:induction false} SingleScan()
    ensures NoStartIn(Single, Literal([255]), 0, 5) && PatternAt(Single, [255], 5)
    ensures NoStartIn(Single, Literal([255]), 6, 11)
  {
  }

  lemma {:induction false} SingleMatches()
    ensures Matches(Single, Literal([255]), 0) == [Match(5, 6)]
  {
    SingleScan();
    LiteralNext(Single, [255], 0, 5);
    NoMoreMatches(Single, Literal([255]), 6);
  }

  /** Where the sequence occurs and where it does not. */
  lemma {:induction false} LargerScan()
    ensures NoStartIn(Larger, Literal([5, 5, 5, 5]), 0, 4) && PatternAt(Larger, [5, 5, 5, 5], 4)
    ensures NoStartIn(Larger, Literal([5, 5, 5, 5]), 8, 14)
  {
  }

  lemma {:induction false} LargerMatches()
    ensures Matches(Larger, Literal([5, 5, 5, 5]), 0) == [Match(4, 8)]
  {
    LargerScan();
    LiteralNext(Larger, [5, 5, 5, 5], 0, 4);
    NoMoreMatches(Larger, Literal([5, 5, 5, 5]), 8);
  }

  /** Where the sequence occurs and where it does not. */
  lemma {:induction false} EndsWithScan()
    ensures NoStartIn(EndsWith, Literal([5, 5, 5, 5]), 0, 4) && PatternAt(EndsWith, [5, 5, 5, 5], 4)
    ensures NoStartIn(EndsWith, Literal([5, 5, 5, 5]), 8, 8)
  {
  }

  lemma {:induction false} EndsWithMatches()
    ensures Matches(EndsWith, Literal([5, 5, 5, 5]), 0) == [Match(4, 8)]
  {
    EndsWithScan();
    LiteralNext(EndsWith, [5, 5, 5, 5], 0, 4);
    NoMoreMatches(EndsWith, Literal([5, 5, 5, 5]), 8);
  }

  /** Where the sequence occurs and where it does not. */
  lemma {:induction false} StartsWithScan()
    ensures NoStartIn(StartsWith, Literal([5, 5, 5, 5]), 0, 0) && PatternAt(StartsWith, [5, 5, 5, 5], 0)
    ensures NoStartIn(StartsWith, Literal([5, 5, 5, 5]), 4, 8)
  {
  }

  lemma {:induction false} StartsWithMatches()
    ensures Matches(StartsWith, Literal([5, 5, 5, 5]), 0) == [Match(0, 4)]
  {
    StartsWithScan();
    LiteralNext(StartsWith, [5, 5, 5, 5], 0, 0);
    NoMoreMatches(StartsWith, Literal([5, 5, 5, 5]), 4);
  }


  // The splits

  /** The segments RubLeading is cut into. */
  lemma {:induction false} RubLeadingCuts()
    ensures Segments(13, [Match(1, 3), Match(7, 9), Match(11, 13)], true, Leading, 0) == [Segment(0, 1), Segment(1, 7), Segment(7, 11), Segment(11, 13)]
  {
  }

  /** The bytes of each of those segments. */
  lemma {:induction false} RubLeadingPieces()
    ensures PiecesFrom(Rub, [Segment(0, 1), Segment(1, 7), Segment(7, 11), Segment(11, 13)], [[114], [117, 98, 45, 97, 45, 100], [117, 98, 45, 100], [117, 98]], 0)
  {
  }

  /** "rub-a-dub-dub" at "ub", kept leading: "r", "ub-a-d", "ub-d", "ub". */
  lemma {:induction false} RubLeading()
    ensures Split(Rub, Literal([117, 98]), true, Leading) == [[114], [117, 98, 45, 97, 45, 100], [117, 98, 45, 100], [117, 98]]
  {
    RubMatches();
    RubLeadingCuts();
    RubLeadingPieces();
    SplitIs(Rub, Literal([117, 98]), true, Leading, [Segment(0, 1), Segment(1, 7), Segment(7, 11), Segment(11, 13)], [[114], [117, 98, 45, 97, 45, 100], [117, 98, 45, 100], [117, 98]]);
  }

  /** The segments RubTrailing is cut into. */
  lemma {:induction false} RubTrailingCuts()
    ensures Segments(13, [Match(1, 3), Match(7, 9), Match(11, 13)], true, Trailing, 0) == [Segment(0, 3), Segment(3, 9), Segment(9, 13)]
  {
  }

  /** The bytes of each of those segments. */
  lemma {:induction false} RubTrailingPieces()
    ensures PiecesFrom(Rub, [Segment(0, 3), Segment(3, 9), Segment(9, 13)], [[114, 117, 98], [45, 97, 45, 100, 117, 98], [45, 100, 117, 98]], 0)
  {
  }

  /** "rub-a-dub-dub" at "ub", kept trailing: "rub", "-a-dub", "-dub". */
  lemma {:induction false} RubTrailing()
    ensures Split(Rub, Literal([117, 98]), true, Trailing) == [[114, 117, 98], [45, 97, 45, 100, 117, 98], [45, 100, 117, 98]]
  {
    RubMatches();
    RubTrailingCuts();
    RubTrailingPieces();
    SplitIs(Rub, Literal([117, 98]), true, Trailing, [Segment(0, 3), Segment(3, 9), Segment(9, 13)], [[114, 117, 98], [45, 97, 45, 100, 117, 98], [45, 100, 117, 98]]);
  }

  /** The segments SmallDropped is cut into. */
  lemma {:induction false} SmallDroppedCuts()
    ensures Segments(13, [Match(5, 7)], false, Trailing, 0) == [Segment(0, 5), Segment(7, 13)]
  {
  }

  /** The bytes of each of those segments. */
  lemma {:induction false} SmallDroppedPieces()
    ensures PiecesFrom(Small, [Segment(0, 5), Segment(7, 13)], [[1, 2, 3, 4, 5], [255, 5, 4, 3, 2, 1]], 0)
  {
  }

  /** The first two 0xFF go; the third begins the second split. */
  lemma {:induction false} SmallDropped()
    ensures Split(Small, Literal([255, 255]), false, Trailing) == [[1, 2, 3, 4, 5], [255, 5, 4, 3, 2, 1]]
  {
    SmallMatches();
    SmallDroppedCuts();
    SmallDroppedPieces();
    SplitIs(Small, Literal([255, 255]), false, Trailing, [Segment(0, 5), Segment(7, 13)], [[1, 2, 3, 4, 5], [255, 5, 4, 3, 2, 1]]);
  }

  /** The segments SmallKept is cut into. */
  lemma {:induction false} SmallKeptCuts()
    ensures Segments(13, [Match(5, 7)], true, Trailing, 0) == [Segment(0, 7), Segment(7, 13)]
  {
  }

  /** The bytes of each of those segments. */
  lemma {:induction false} SmallKeptPieces()
    ensures PiecesFrom(Small, [Segment(0, 7), Segment(7, 13)], [[1, 2, 3, 4, 5, 255, 255], [255, 5, 4, 3, 2, 1]], 0)
  {
  }

  /** Kept trailing, the first split ends with the two 0xFF it was cut at. */
  lemma {:induction false} SmallKept()
    ensures Split(Small, Literal([255, 255]), true, Trailing) == [[1, 2, 3, 4, 5, 255, 255], [255, 5, 4, 3, 2, 1]]
  {
    SmallMatches();
    SmallKeptCuts();
    SmallKeptPieces();
    SplitIs(Small, Literal([255, 255]), true, Trailing, [Segment(0, 7), Segment(7, 13)], [[1, 2, 3, 4, 5, 255, 255], [255, 5, 4, 3, 2, 1]]);
  }

  /** The segments SingleDropped is cut into. */
  lemma {:induction false} SingleDroppedCuts()
    ensures Segments(11, [Match(5, 6)], false, Trailing, 0) == [Segment(0, 5), Segment(6, 11)]
  {
  }

  /** The bytes of each of those segments. */
  lemma {:induction false} SingleDroppedPieces()
    ensures PiecesFrom(Single, [Segment(0, 5), Segment(6, 11)], [[1, 2, 3, 4, 5], [5, 4, 3, 2, 1]], 0)
  {
  }

  /** A one-byte sequence is dropped like a longer one. */
  lemma {:induction false} SingleDropped()
    ensures Split(Single, Literal([255]), false, Trailing) == [[1, 2, 3, 4, 5], [5, 4, 3, 2, 1]]
  {
    SingleMatches();
    SingleDroppedCuts();
    SingleDroppedPieces();
    SplitIs(Single, Literal([255]), false, Trailing, [Segment(0, 5), Segment(6, 11)], [[1, 2, 3, 4, 5], [5, 4, 3, 2, 1]]);
  }

  /** The segments LargerDropped is cut into. */
  lemma {:induction false} LargerDroppedCuts()
    ensures Segments(14, [Match(4, 8)], false, Trailing, 0) == [Segment(0, 4), Segment(8, 14)]
  {
  }

  /** The bytes of each of those segments. */
  lemma {:induction false} LargerDroppedPieces()
    ensures PiecesFrom(Larger, [Segment(0, 4), Segment(8, 14)], [[1, 2, 3, 4], [5, 5, 4, 3, 2, 1]], 0)
  {
  }

  /** The leftmost four 0x05 go; the two after them stay. */
  lemma {:induction false} LargerDropped()
    ensures Split(Larger, Literal([5, 5, 5, 5]), false, Trailing) == [[1, 2, 3, 4], [5, 5, 4, 3, 2, 1]]
  {
    LargerMatches();
    LargerDroppedCuts();
    LargerDroppedPieces();
    SplitIs(Larger, Literal([5, 5, 5, 5]), false, Trailing, [Segment(0, 4), Segment(8, 14)], [[1, 2, 3, 4], [5, 5, 4, 3, 2, 1]]);
  }

  /** The segments LargerKept is cut into. */
  lemma {:induction false} LargerKeptCuts()
    ensures Segments(14, [Match(4, 8)], true, Trailing, 0) == [Segment(0, 8), Segment(8, 14)]
  {
  }

  /** The bytes of each of those segments. */
  lemma {:induction false} LargerKeptPieces()
    ensures PiecesFrom(Larger, [Segment(0, 8), Segment(8, 14)], [[1, 2, 3, 4, 5, 5, 5, 5], [5, 5, 4, 3, 2, 1]], 0)
  {
  }

  /** Kept trailing, the four 0x05 end the first split. */
  lemma {:induction false} LargerKept()
    ensures Split(Larger, Literal([5, 5, 5, 5]), true, Trailing) == [[1, 2, 3, 4, 5, 5, 5, 5], [5, 5, 4, 3, 2, 1]]
  {
    LargerMatches();
    LargerKeptCuts();
    LargerKeptPieces();
    SplitIs(Larger, Literal([5, 5, 5, 5]), true, Trailing, [Segment(0, 8), Segment(8, 14)], [[1, 2, 3, 4, 5, 5, 5, 5], [5, 5, 4, 3, 2, 1]]);
  }

  /** The segments EndsWithDropped is cut into. */
  lemma {:induction false} EndsWithDroppedCuts()
    ensures Segments(8, [Match(4, 8)], false, Trailing, 0) == [Segment(0, 4)]
  {
  }

  /** The bytes of each of those segments. */
  lemma {:induction false} EndsWithDroppedPieces()
    ensures PiecesFrom(EndsWith, [Segment(0, 4)], [[1, 2, 3, 4]], 0)
  {
  }

  /** A sequence at the very end leaves one split and no empty one after it. */
  lemma {:induction false} EndsWithDropped()
    ensures Split(EndsWith, Literal([5, 5, 5, 5]), false, Trailing) == [[1, 2, 3, 4]]
  {
    EndsWithMatches();
    EndsWithDroppedCuts();
    EndsWithDroppedPieces();
    SplitIs(EndsWith, Literal([5, 5, 5, 5]), false, Trailing, [Segment(0, 4)], [[1, 2, 3, 4]]);
  }

  /** The segments EndsWithKept is cut into. */
  lemma {:induction false} EndsWithKeptCuts()
    ensures Segments(8, [Match(4, 8)], true, Trailing, 0) == [Segment(0, 8)]
  {
  }

  /** The bytes of each of those segments. */
  lemma {:induction false} EndsWithKeptPieces()
    ensures PiecesFrom(EndsWith, [Segment(0, 8)], [[1, 2, 3, 4, 5, 5, 5, 5]], 0)
  {
  }

  /** Kept trailing, a sequence at the very end leaves the content whole. */
  lemma {:induction false} EndsWithKept()
    ensures Split(EndsWith, Literal([5, 5, 5, 5]), true, Trailing) == [[1, 2, 3, 4, 5, 5, 5, 5]]
  {
    EndsWithMatches();
    EndsWithKeptCuts();
    EndsWithKeptPieces();
    SplitIs(EndsWith, Literal([5, 5, 5, 5]), true, Trailing, [Segment(0, 8)], [[1, 2, 3, 4, 5, 5, 5, 5]]);
  }

  /** The segments StartsWithDropped is cut into. */
  lemma {:induction false} StartsWithDroppedCuts()
    ensures Segments(8, [Match(0, 4)], false, Trailing, 0) == [Segment(4, 8)]
  {
  }

  /** The bytes of each of those segments. */
  lemma {:induction false} StartsWithDroppedPieces()
    ensures PiecesFrom(StartsWith, [Segment(4, 8)], [[1, 2, 3, 4]], 0)
  {
  }

  /** A sequence at the very start leaves one split and no empty one before it. */
  lemma {:induction false} StartsWithDropped()
    ensures Split(StartsWith, Literal([5, 5, 5, 5]), false, Trailing) == [[1, 2, 3, 4]]
  {
    StartsWithMatches();
    StartsWithDroppedCuts();
    StartsWithDroppedPieces();
    SplitIs(StartsWith, Literal([5, 5, 5, 5]), false, Trailing, [Segment(4, 8)], [[1, 2, 3, 4]]);
  }

  /** The segments StartsWithKept is cut into. */
  lemma {:induction false} StartsWithKeptCuts()
    ensures Segments(8, [Match(0, 4)], true, Trailing, 0) == [Segment(0, 4), Segment(4, 8)]
  {
  }

  /** The bytes of each of those segments. */
  lemma {:induction false} StartsWithKeptPieces()
    ensures PiecesFrom(StartsWith, [Segment(0, 4), Segment(4, 8)], [[5, 5, 5, 5], [1, 2, 3, 4]], 0)
  {
  }

  /** Kept trailing, a sequence at the very start is a split of its own. */
  lemma {:induction false} StartsWithKept()
    ensures Split(StartsWith, Literal([5, 5, 5, 5]), true, Trailing) == [[5, 5, 5, 5], [1, 2, 3, 4]]
  {
    StartsWithMatches();
    StartsWithKeptCuts();
    StartsWithKeptPieces();
    SplitIs(StartsWith, Literal([5, 5, 5, 5]), true, Trailing, [Segment(0, 4), Segment(4, 8)], [[5, 5, 5, 5], [1, 2, 3, 4]]);
  }

  // -----------------------------------------------------------------------
  // The examples end to end: settings and content to what is sent on. The
  // buffer size is any that fits the sequence, the identifier any value.

  /** Text "ub", kept leading: four splits, and the original carries count 4. */
  lemma {:induction false} TextFormatLeadingPosition(bufferSize: nat, id: nat)
    requires bufferSize >= 2
    ensures Outcome(Settings(TextSequence("ub"), true, Some(Leading), bufferSize), Rub, id) == Ok(Emit(Rub, [[114], [117, 98, 45, 97, 45, 100], [117, 98, 45, 100], [117, 98]], id))
  {
    TextUb();
    RubLeading();
  }

  /** Text "ub", kept trailing: three splits, and the original carries count 3. */
  lemma {:induction false} TextFormatTrailingPosition(bufferSize: nat, id: nat)
    requires bufferSize >= 2
    ensures Outcome(Settings(TextSequence("ub"), true, Some(Trailing), bufferSize), Rub, id) == Ok(Emit(Rub, [[114, 117, 98], [45, 97, 45, 100, 117, 98], [45, 100, 117, 98]], id))
  {
    TextUb();
    RubTrailing();
  }

  /** Hexadecimal "FFFF", dropped: [1 2 3 4 5] and [0xFF 5 4 3 2 1], count 2. */
  lemma {:induction false} SmallSplits(bufferSize: nat, id: nat)
    requires bufferSize >= 2
    ensures Outcome(Defaults("FFFF", bufferSize), Small, id) == Ok(Emit(Small, [[1, 2, 3, 4, 5], [255, 5, 4, 3, 2, 1]], id))
  {
    HexFFFF();
    SmallDropped();
  }

  /** Hexadecimal "FF", dropped: [1 2 3 4 5] and [5 4 3 2 1], count 2. */
  lemma {:induction false} WithSingleByteSplit(bufferSize: nat, id: nat)
    requires bufferSize >= 1
    ensures Outcome(Defaults("FF", bufferSize), Single, id) == Ok(Emit(Single, [[1, 2, 3, 4, 5], [5, 4, 3, 2, 1]], id))
  {
    HexFF();
    SingleDropped();
  }

  /** Hexadecimal "05050505", dropped: [1 2 3 4] and [5 5 4 3 2 1], count 2. */
  lemma {:induction false} WithLargerSplit(bufferSize: nat, id: nat)
    requires bufferSize >= 4
    ensures Outcome(Defaults("05050505", bufferSize), Larger, id) == Ok(Emit(Larger, [[1, 2, 3, 4], [5, 5, 4, 3, 2, 1]], id))
  {
    Hex05050505();
    LargerDropped();
  }

  /** Kept, location not set (so trailing): [1 2 3 4 5 5 5 5] and [5 5 4 3 2 1], count 2. */
  lemma {:induction false} KeepingSequence(bufferSize: nat, id: nat)
    requires bufferSize >= 4
    ensures Outcome(Settings(HexSequence("05050505"), true, None, bufferSize), Larger, id) == Ok(Emit(Larger, [[1, 2, 3, 4, 5, 5, 5, 5], [5, 5, 4, 3, 2, 1]], id))
  {
    Hex05050505();
    LargerKept();
  }

  /** Sequence at the end, dropped: [1 2 3 4] alone, count 1. */
  lemma {:induction false} EndsWithSequence(bufferSize: nat, id: nat)
    requires bufferSize >= 4
    ensures Outcome(Defaults("05050505", bufferSize), EndsWith, id) == Ok(Emit(EndsWith, [[1, 2, 3, 4]], id))
  {
    Hex05050505();
    EndsWithDropped();
  }

  /** Sequence at the end, kept: the whole content as one split, count 1. */
  lemma {:induction false} EndsWithSequenceAndKeepSequence(bufferSize: nat, id: nat)
    requires bufferSize >= 4
    ensures Outcome(Settings(HexSequence("05050505"), true, None, bufferSize), EndsWith, id) == Ok(Emit(EndsWith, [[1, 2, 3, 4, 5, 5, 5, 5]], id))
  {
    Hex05050505();
    EndsWithKept();
  }

  /** Sequence at the start, dropped: [1 2 3 4] alone, count 1. */
  lemma {:induction false} StartsWithSequence(bufferSize: nat, id: nat)
    requires bufferSize >= 4
    ensures Outcome(Defaults("05050505", bufferSize), StartsWith, id) == Ok(Emit(StartsWith, [[1, 2, 3, 4]], id))
  {
    Hex05050505();
    StartsWithDropped();
  }

  /** Sequence at the start, kept: [5 5 5 5] and [1 2 3 4], count 2. */
  lemma {:induction false} StartsWithSequenceAndKeepSequence(bufferSize: nat, id: nat)
    requires bufferSize >= 4
    ensures Outcome(Settings(HexSequence("05050505"), true, None, bufferSize), StartsWith, id) == Ok(Emit(StartsWith, [[5, 5, 5, 5], [1, 2, 3, 4]], id))
  {
    Hex05050505();
    StartsWithKept();
  }

  /**
   * Hexadecimal "FFFF", kept (trailing by default): [1 2 3 4 5 0xFF 0xFF]
   * and [0xFF 5 4 3 2 1]; merged in defragment mode, in whatever order they
   * arrive, they give the original content back.
   */
  lemma {:induction false} SmallSplitsThenMerge(bufferSize: nat, id: nat, arrived: seq<Fragment>)
    requires bufferSize >= 2
    requires DistinctIndices(arrived)
    requires multiset(arrived) == multiset(Outcome(Settings(HexSequence("FFFF"), true, None, bufferSize), Small, id).value.splits)
    ensures Outcome(Settings(HexSequence("FFFF"), true, None, bufferSize), Small, id) == Ok(Emit(Small, [[1, 2, 3, 4, 5, 255, 255], [255, 5, 4, 3, 2, 1]], id))
    ensures Defragment(arrived) == Some(Small)
  {
    HexFFFF();
    SmallKept();
    SplitThenMerge(Settings(HexSequence("FFFF"), true, None, bufferSize), Small, id, arrived);
  }

  /**
   * Text ",", which "UVAT" does not hold: one split, the content itself,
   * with index 1 and count 1.
   */
  lemma {:induction false} NoSplitterInString(bufferSize: nat, id: nat)
    requires bufferSize >= 1
    ensures Outcome(Settings(TextSequence(","), false, Some(Trailing), bufferSize), Uvat, id) ==
      Ok(Emission(Original(Uvat, id, 1), [Fragment(Uvat, id, 1, 1)]))
  {
    TextComma();
    assert NoStartIn(Uvat, Literal([44]), 0, 4);
    NoStartInAll(Uvat, Literal([44]), 0, 4);
    NoDelimiterOneFragment(Settings(TextSequence(","), false, Some(Trailing), bufferSize), Uvat, id);
  }
}
