/**
 * The text-format example over two sentences: the sequence "test" occurs
 * three times in lower case, and "Test" at the end of the first sentence
 * is not an occurrence. The second sentence ends in "test" itself. The
 * sentences are written as their parts, so that the splits can be read off
 * as joins of the parts.
 */
module Sentences {
  import opened Wrappers
  import opened Bytes
  import opened Matcher
  import opened Segmenting
  import opened Config
  import opened Fragments
  import opened Processor
  import opened Vectors

  // -----------------------------------------------------------------------
  // The sentences of the text-format test, written as their parts

  /** "This is a " */
  const A: seq<byte> := [84, 104, 105, 115, 32, 105, 115, 32, 97, 32]
  /** "test" */
  const T: seq<byte> := [116, 101, 115, 116]
  /** ". This is another " */
  const B: seq<byte> := [46, 32, 84, 104, 105, 115, 32, 105, 115, 32, 97, 110, 111, 116, 104, 101, 114, 32]
  /** ". And this is yet another " */
  const C: seq<byte> := [46, 32, 65, 110, 100, 32, 116, 104, 105, 115, 32, 105, 115, 32, 121, 101, 116, 32, 97, 110, 111, 116, 104, 101, 114, 32]
  /** ". Finally this is the last Test." */
  const D: seq<byte> := [46, 32, 70, 105, 110, 97, 108, 108, 121, 32, 116, 104, 105, 115, 32, 105, 115, 32, 116, 104, 101, 32, 108, 97, 115, 116, 32, 84, 101, 115, 116, 46]
  /** ". Finally this is the last " */
  const E: seq<byte> := [46, 32, 70, 105, 110, 97, 108, 108, 121, 32, 116, 104, 105, 115, 32, 105, 115, 32, 116, 104, 101, 32, 108, 97, 115, 116, 32]

  /** "This is a test. This is another test. And this is yet another test. Finally this is the last Test." */
  const Sentence: seq<byte> := A + T + B + T + C + T + D
  /** The same, ending in "the last test". */
  const SentenceEnding: seq<byte> := A + T + B + T + C + T + E + T

  /** Text "test" is its four bytes. */
  lemma {:induction false} TextTest()
    ensures DecodeSequence(TextSequence("test")) == Ok(Literal(T))
  {
    assert Utf8("test") == T;
  }

  // Where "test" does not begin, four positions at a time, joined per stretch

  lemma {:induction false} SentenceClear0()
    ensures NoStartIn(Sentence, Literal(T), 0, 4)
  {
  }

  lemma {:induction false} SentenceClear4()
    ensures NoStartIn(Sentence, Literal(T), 4, 8)
  {
  }

  lemma {:induction false} SentenceClear8()
    ensures NoStartIn(Sentence, Literal(T), 8, 10)
  {
  }

  lemma {:induction false} SentenceGap0()
    ensures NoStartIn(Sentence, Literal(T), 0, 10) && PatternAt(Sentence, T, 10)
  {
    SentenceClear0();
    SentenceClear4();
    SentenceClear8();
    NoStartInJoin(Sentence, Literal(T), 4, 8, 10);
    NoStartInJoin(Sentence, Literal(T), 0, 4, 10);
  }

  lemma {:induction false} SentenceClear14()
    ensures NoStartIn(Sentence, Literal(T), 14, 18)
  {
  }

  lemma {:induction false} SentenceClear18()
    ensures NoStartIn(Sentence, Literal(T), 18, 22)
  {
  }

  lemma {:induction false} SentenceClear22()
    ensures NoStartIn(Sentence, Literal(T), 22, 26)
  {
  }

  lemma {:induction false} SentenceClear26()
    ensures NoStartIn(Sentence, Literal(T), 26, 30)
  {
  }

  lemma {:induction false} SentenceClear30()
    ensures NoStartIn(Sentence, Literal(T), 30, 32)
  {
  }

  lemma {:induction false} SentenceGap14()
    ensures NoStartIn(Sentence, Literal(T), 14, 32) && PatternAt(Sentence, T, 32)
  {
    SentenceClear14();
    SentenceClear18();
    SentenceClear22();
    SentenceClear26();
    SentenceClear30();
    NoStartInJoin(Sentence, Literal(T), 26, 30, 32);
    NoStartInJoin(Sentence, Literal(T), 22, 26, 32);
    NoStartInJoin(Sentence, Literal(T), 18, 22, 32);
    NoStartInJoin(Sentence, Literal(T), 14, 18, 32);
  }

  lemma {:induction false} SentenceClear36()
    ensures NoStartIn(Sentence, Literal(T), 36, 40)
  {
  }

  lemma {:induction false} SentenceClear40()
    ensures NoStartIn(Sentence, Literal(T), 40, 44)
  {
  }

  lemma {:induction false} SentenceClear44()
    ensures NoStartIn(Sentence, Literal(T), 44, 48)
  {
  }

  lemma {:induction false} SentenceClear48()
    ensures NoStartIn(Sentence, Literal(T), 48, 52)
  {
  }

  lemma {:induction false} SentenceClear52()
    ensures NoStartIn(Sentence, Literal(T), 52, 56)
  {
  }

  lemma {:induction false} SentenceClear56()
    ensures NoStartIn(Sentence, Literal(T), 56, 60)
  {
  }

  lemma {:induction false} SentenceClear60()
    ensures NoStartIn(Sentence, Literal(T), 60, 62)
  {
  }

  lemma {:induction false} SentenceGap36()
    ensures NoStartIn(Sentence, Literal(T), 36, 62) && PatternAt(Sentence, T, 62)
  {
    SentenceClear36();
    SentenceClear40();
    SentenceClear44();
    SentenceClear48();
    SentenceClear52();
    SentenceClear56();
    SentenceClear60();
    NoStartInJoin(Sentence, Literal(T), 56, 60, 62);
    NoStartInJoin(Sentence, Literal(T), 52, 56, 62);
    NoStartInJoin(Sentence, Literal(T), 48, 52, 62);
    NoStartInJoin(Sentence, Literal(T), 44, 48, 62);
    NoStartInJoin(Sentence, Literal(T), 40, 44, 62);
    NoStartInJoin(Sentence, Literal(T), 36, 40, 62);
  }

  lemma {:induction false} SentenceClear66()
    ensures NoStartIn(Sentence, Literal(T), 66, 70)
  {
  }

  lemma {:induction false} SentenceClear70()
    ensures NoStartIn(Sentence, Literal(T), 70, 74)
  {
  }

  lemma {:induction false} SentenceClear74()
    ensures NoStartIn(Sentence, Literal(T), 74, 78)
  {
  }

  lemma {:induction false} SentenceClear78()
    ensures NoStartIn(Sentence, Literal(T), 78, 82)
  {
  }

  lemma {:induction false} SentenceClear82()
    ensures NoStartIn(Sentence, Literal(T), 82, 86)
  {
  }

  lemma {:induction false} SentenceClear86()
    ensures NoStartIn(Sentence, Literal(T), 86, 90)
  {
  }

  lemma {:induction false} SentenceClear90()
    ensures NoStartIn(Sentence, Literal(T), 90, 94)
  {
  }

  lemma {:induction false} SentenceClear94()
    ensures NoStartIn(Sentence, Literal(T), 94, 98)
  {
  }

  lemma {:induction false} SentenceGap66()
    ensures NoStartIn(Sentence, Literal(T), 66, 98)
  {
    SentenceClear66();
    SentenceClear70();
    SentenceClear74();
    SentenceClear78();
    SentenceClear82();
    SentenceClear86();
    SentenceClear90();
    SentenceClear94();
    NoStartInJoin(Sentence, Literal(T), 90, 94, 98);
    NoStartInJoin(Sentence, Literal(T), 86, 90, 98);
    NoStartInJoin(Sentence, Literal(T), 82, 86, 98);
    NoStartInJoin(Sentence, Literal(T), 78, 82, 98);
    NoStartInJoin(Sentence, Literal(T), 74, 78, 98);
    NoStartInJoin(Sentence, Literal(T), 70, 74, 98);
    NoStartInJoin(Sentence, Literal(T), 66, 70, 98);
  }

  lemma {:induction false} SentenceFrom66()
    ensures Matches(Sentence, Literal(T), 66) == []
  {
    SentenceGap66();
    NoMoreMatches(Sentence, Literal(T), 66);
  }

  lemma {:induction false} SentenceFrom36()
    ensures Matches(Sentence, Literal(T), 36) == [Match(62, 66)]
  {
    SentenceGap36();
    LiteralNext(Sentence, T, 36, 62);
    SentenceFrom66();
  }

  lemma {:induction false} SentenceFrom14()
    ensures Matches(Sentence, Literal(T), 14) == [Match(32, 36), Match(62, 66)]
  {
    SentenceGap14();
    LiteralNext(Sentence, T, 14, 32);
    SentenceFrom36();
  }

  /** "test" occurs three times in lower case; "Test" is not "test". */
  lemma {:induction false} SentenceFrom0()
    ensures Matches(Sentence, Literal(T), 0) == [Match(10, 14), Match(32, 36), Match(62, 66)]
  {
    SentenceGap0();
    LiteralNext(Sentence, T, 0, 10);
    SentenceFrom14();
  }

  lemma {:induction false} SentenceEndingClear0()
    ensures NoStartIn(SentenceEnding, Literal(T), 0, 4)
  {
  }

  lemma {:induction false} SentenceEndingClear4()
    ensures NoStartIn(SentenceEnding, Literal(T), 4, 8)
  {
  }

  lemma {:induction false} SentenceEndingClear8()
    ensures NoStartIn(SentenceEnding, Literal(T), 8, 10)
  {
  }

  lemma {:induction false} SentenceEndingGap0()
    ensures NoStartIn(SentenceEnding, Literal(T), 0, 10) && PatternAt(SentenceEnding, T, 10)
  {
    SentenceEndingClear0();
    SentenceEndingClear4();
    SentenceEndingClear8();
    NoStartInJoin(SentenceEnding, Literal(T), 4, 8, 10);
    NoStartInJoin(SentenceEnding, Literal(T), 0, 4, 10);
  }

  lemma {:induction false} SentenceEndingClear14()
    ensures NoStartIn(SentenceEnding, Literal(T), 14, 18)
  {
  }

  lemma {:induction false} SentenceEndingClear18()
    ensures NoStartIn(SentenceEnding, Literal(T), 18, 22)
  {
  }

  lemma {:induction false} SentenceEndingClear22()
    ensures NoStartIn(SentenceEnding, Literal(T), 22, 26)
  {
  }

  lemma {:induction false} SentenceEndingClear26()
    ensures NoStartIn(SentenceEnding, Literal(T), 26, 30)
  {
  }

  lemma {:induction false} SentenceEndingClear30()
    ensures NoStartIn(SentenceEnding, Literal(T), 30, 32)
  {
  }

  lemma {:induction false} SentenceEndingGap14()
    ensures NoStartIn(SentenceEnding, Literal(T), 14, 32) && PatternAt(SentenceEnding, T, 32)
  {
    SentenceEndingClear14();
    SentenceEndingClear18();
    SentenceEndingClear22();
    SentenceEndingClear26();
    SentenceEndingClear30();
    NoStartInJoin(SentenceEnding, Literal(T), 26, 30, 32);
    NoStartInJoin(SentenceEnding, Literal(T), 22, 26, 32);
    NoStartInJoin(SentenceEnding, Literal(T), 18, 22, 32);
    NoStartInJoin(SentenceEnding, Literal(T), 14, 18, 32);
  }

  lemma {:induction false} SentenceEndingClear36()
    ensures NoStartIn(SentenceEnding, Literal(T), 36, 40)
  {
  }

  lemma {:induction false} SentenceEndingClear40()
    ensures NoStartIn(SentenceEnding, Literal(T), 40, 44)
  {
  }

  lemma {:induction false} SentenceEndingClear44()
    ensures NoStartIn(SentenceEnding, Literal(T), 44, 48)
  {
  }

  lemma {:induction false} SentenceEndingClear48()
    ensures NoStartIn(SentenceEnding, Literal(T), 48, 52)
  {
  }

  lemma {:induction false} SentenceEndingClear52()
    ensures NoStartIn(SentenceEnding, Literal(T), 52, 56)
  {
  }

  lemma {:induction false} SentenceEndingClear56()
    ensures NoStartIn(SentenceEnding, Literal(T), 56, 60)
  {
  }

  lemma {:induction false} SentenceEndingClear60()
    ensures NoStartIn(SentenceEnding, Literal(T), 60, 62)
  {
  }

  lemma {:induction false} SentenceEndingGap36()
    ensures NoStartIn(SentenceEnding, Literal(T), 36, 62) && PatternAt(SentenceEnding, T, 62)
  {
    SentenceEndingClear36();
    SentenceEndingClear40();
    SentenceEndingClear44();
    SentenceEndingClear48();
    SentenceEndingClear52();
    SentenceEndingClear56();
    SentenceEndingClear60();
    NoStartInJoin(SentenceEnding, Literal(T), 56, 60, 62);
    NoStartInJoin(SentenceEnding, Literal(T), 52, 56, 62);
    NoStartInJoin(SentenceEnding, Literal(T), 48, 52, 62);
    NoStartInJoin(SentenceEnding, Literal(T), 44, 48, 62);
    NoStartInJoin(SentenceEnding, Literal(T), 40, 44, 62);
    NoStartInJoin(SentenceEnding, Literal(T), 36, 40, 62);
  }

  lemma {:induction false} SentenceEndingClear66()
    ensures NoStartIn(SentenceEnding, Literal(T), 66, 70)
  {
  }

  lemma {:induction false} SentenceEndingClear70()
    ensures NoStartIn(SentenceEnding, Literal(T), 70, 74)
  {
  }

  lemma {:induction false} SentenceEndingClear74()
    ensures NoStartIn(SentenceEnding, Literal(T), 74, 78)
  {
  }

  lemma {:induction false} SentenceEndingClear78()
    ensures NoStartIn(SentenceEnding, Literal(T), 78, 82)
  {
  }

  lemma {:induction false} SentenceEndingClear82()
    ensures NoStartIn(SentenceEnding, Literal(T), 82, 86)
  {
  }

  lemma {:induction false} SentenceEndingClear86()
    ensures NoStartIn(SentenceEnding, Literal(T), 86, 90)
  {
  }

  lemma {:induction false} SentenceEndingClear90()
    ensures NoStartIn(SentenceEnding, Literal(T), 90, 93)
  {
  }

  lemma {:induction false} SentenceEndingGap66()
    ensures NoStartIn(SentenceEnding, Literal(T), 66, 93) && PatternAt(SentenceEnding, T, 93)
  {
    SentenceEndingClear66();
    SentenceEndingClear70();
    SentenceEndingClear74();
    SentenceEndingClear78();
    SentenceEndingClear82();
    SentenceEndingClear86();
    SentenceEndingClear90();
    NoStartInJoin(SentenceEnding, Literal(T), 86, 90, 93);
    NoStartInJoin(SentenceEnding, Literal(T), 82, 86, 93);
    NoStartInJoin(SentenceEnding, Literal(T), 78, 82, 93);
    NoStartInJoin(SentenceEnding, Literal(T), 74, 78, 93);
    NoStartInJoin(SentenceEnding, Literal(T), 70, 74, 93);
    NoStartInJoin(SentenceEnding, Literal(T), 66, 70, 93);
  }

  lemma {:induction false} SentenceEndingFrom97()
    ensures Matches(SentenceEnding, Literal(T), 97) == []
  {
    NoMoreMatches(SentenceEnding, Literal(T), 97);
  }

  lemma {:induction false} SentenceEndingFrom66()
    ensures Matches(SentenceEnding, Literal(T), 66) == [Match(93, 97)]
  {
    SentenceEndingGap66();
    LiteralNext(SentenceEnding, T, 66, 93);
    SentenceEndingFrom97();
  }

  lemma {:induction false} SentenceEndingFrom36()
    ensures Matches(SentenceEnding, Literal(T), 36) == [Match(62, 66), Match(93, 97)]
  {
    SentenceEndingGap36();
    LiteralNext(SentenceEnding, T, 36, 62);
    SentenceEndingFrom66();
  }

  lemma {:induction false} SentenceEndingFrom14()
    ensures Matches(SentenceEnding, Literal(T), 14) == [Match(32, 36), Match(62, 66), Match(93, 97)]
  {
    SentenceEndingGap14();
    LiteralNext(SentenceEnding, T, 14, 32);
    SentenceEndingFrom36();
  }

  /** "test" occurs three times in lower case and once more at the very end; "Test" is not "test". */
  lemma {:induction false} SentenceEndingFrom0()
    ensures Matches(SentenceEnding, Literal(T), 0) == [Match(10, 14), Match(32, 36), Match(62, 66), Match(93, 97)]
  {
    SentenceEndingGap0();
    LiteralNext(SentenceEnding, T, 0, 10);
    SentenceEndingFrom14();
  }

  // The splits, piece by piece

  /** Byte strings written one after the other, grouped differently. */
  lemma {:induction false} Regroup1_2_4(a: seq<byte>, b: seq<byte>, c: seq<byte>, d: seq<byte>, e: seq<byte>, f: seq<byte>, g: seq<byte>)
    ensures a + b + c + d + e + f + g == (a) + (b + c) + (d + e + f + g)
  {
  }

  lemma {:induction false} Regroup1_2_5(a: seq<byte>, b: seq<byte>, c: seq<byte>, d: seq<byte>, e: seq<byte>, f: seq<byte>, g: seq<byte>, h: seq<byte>)
    ensures a + b + c + d + e + f + g + h == (a) + (b + c) + (d + e + f + g + h)
  {
  }

  lemma {:induction false} Regroup1_6(a: seq<byte>, b: seq<byte>, c: seq<byte>, d: seq<byte>, e: seq<byte>, f: seq<byte>, g: seq<byte>)
    ensures a + b + c + d + e + f + g == (a) + (b + c + d + e + f + g)
  {
  }

  lemma {:induction false} Regroup1_7(a: seq<byte>, b: seq<byte>, c: seq<byte>, d: seq<byte>, e: seq<byte>, f: seq<byte>, g: seq<byte>, h: seq<byte>)
    ensures a + b + c + d + e + f + g + h == (a) + (b + c + d + e + f + g + h)
  {
  }

  lemma {:induction false} Regroup2_1_4(a: seq<byte>, b: seq<byte>, c: seq<byte>, d: seq<byte>, e: seq<byte>, f: seq<byte>, g: seq<byte>)
    ensures a + b + c + d + e + f + g == (a + b) + (c) + (d + e + f + g)
  {
  }

  lemma {:induction false} Regroup2_2_3(a: seq<byte>, b: seq<byte>, c: seq<byte>, d: seq<byte>, e: seq<byte>, f: seq<byte>, g: seq<byte>)
    ensures a + b + c + d + e + f + g == (a + b) + (c + d) + (e + f + g)
  {
  }

  lemma {:induction false} Regroup2_2_4(a: seq<byte>, b: seq<byte>, c: seq<byte>, d: seq<byte>, e: seq<byte>, f: seq<byte>, g: seq<byte>, h: seq<byte>)
    ensures a + b + c + d + e + f + g + h == (a + b) + (c + d) + (e + f + g + h)
  {
  }

  lemma {:induction false} Regroup2_5(a: seq<byte>, b: seq<byte>, c: seq<byte>, d: seq<byte>, e: seq<byte>, f: seq<byte>, g: seq<byte>)
    ensures a + b + c + d + e + f + g == (a + b) + (c + d + e + f + g)
  {
  }

  lemma {:induction false} Regroup2_6(a: seq<byte>, b: seq<byte>, c: seq<byte>, d: seq<byte>, e: seq<byte>, f: seq<byte>, g: seq<byte>, h: seq<byte>)
    ensures a + b + c + d + e + f + g + h == (a + b) + (c + d + e + f + g + h)
  {
  }

  lemma {:induction false} Regroup3_2_2(a: seq<byte>, b: seq<byte>, c: seq<byte>, d: seq<byte>, e: seq<byte>, f: seq<byte>, g: seq<byte>)
    ensures a + b + c + d + e + f + g == (a + b + c) + (d + e) + (f + g)
  {
  }

  lemma {:induction false} Regroup3_2_3(a: seq<byte>, b: seq<byte>, c: seq<byte>, d: seq<byte>, e: seq<byte>, f: seq<byte>, g: seq<byte>, h: seq<byte>)
    ensures a + b + c + d + e + f + g + h == (a + b + c) + (d + e) + (f + g + h)
  {
  }

  lemma {:induction false} Regroup4_1_2(a: seq<byte>, b: seq<byte>, c: seq<byte>, d: seq<byte>, e: seq<byte>, f: seq<byte>, g: seq<byte>)
    ensures a + b + c + d + e + f + g == (a + b + c + d) + (e) + (f + g)
  {
  }

  lemma {:induction false} Regroup4_2_1(a: seq<byte>, b: seq<byte>, c: seq<byte>, d: seq<byte>, e: seq<byte>, f: seq<byte>, g: seq<byte>)
    ensures a + b + c + d + e + f + g == (a + b + c + d) + (e + f) + (g)
  {
  }

  lemma {:induction false} Regroup4_2_2(a: seq<byte>, b: seq<byte>, c: seq<byte>, d: seq<byte>, e: seq<byte>, f: seq<byte>, g: seq<byte>, h: seq<byte>)
    ensures a + b + c + d + e + f + g + h == (a + b + c + d) + (e + f) + (g + h)
  {
  }

  lemma {:induction false} Regroup5_2_0(a: seq<byte>, b: seq<byte>, c: seq<byte>, d: seq<byte>, e: seq<byte>, f: seq<byte>, g: seq<byte>)
    ensures a + b + c + d + e + f + g == (a + b + c + d + e) + (f + g) + []
  {
  }

  lemma {:induction false} Regroup5_2_1(a: seq<byte>, b: seq<byte>, c: seq<byte>, d: seq<byte>, e: seq<byte>, f: seq<byte>, g: seq<byte>, h: seq<byte>)
    ensures a + b + c + d + e + f + g + h == (a + b + c + d + e) + (f + g) + (h)
  {
  }

  lemma {:induction false} Regroup6_1_0(a: seq<byte>, b: seq<byte>, c: seq<byte>, d: seq<byte>, e: seq<byte>, f: seq<byte>, g: seq<byte>)
    ensures a + b + c + d + e + f + g == (a + b + c + d + e + f) + (g) + []
  {
  }

  lemma {:induction false} Regroup6_2_0(a: seq<byte>, b: seq<byte>, c: seq<byte>, d: seq<byte>, e: seq<byte>, f: seq<byte>, g: seq<byte>, h: seq<byte>)
    ensures a + b + c + d + e + f + g + h == (a + b + c + d + e + f) + (g + h) + []
  {
  }

  lemma {:induction false} Regroup7_1_0(a: seq<byte>, b: seq<byte>, c: seq<byte>, d: seq<byte>, e: seq<byte>, f: seq<byte>, g: seq<byte>, h: seq<byte>)
    ensures a + b + c + d + e + f + g + h == (a + b + c + d + e + f + g) + (h) + []
  {
  }

  lemma {:induction false} SentenceSlice0To10()
    ensures Sentence[0..10] == A
  {
    Regroup1_6(A, T, B, T, C, T, D);
    Front(A, T + B + T + C + T + D);
  }

  lemma {:induction false} SentenceSlice10To32()
    ensures Sentence[10..32] == T + B
  {
    Regroup1_2_4(A, T, B, T, C, T, D);
    Middle(A, T + B, T + C + T + D);
  }

  lemma {:induction false} SentenceSlice32To62()
    ensures Sentence[32..62] == T + C
  {
    Regroup3_2_2(A, T, B, T, C, T, D);
    Middle(A + T + B, T + C, T + D);
  }

  lemma {:induction false} SentenceSlice62To98()
    ensures Sentence[62..98] == T + D
  {
    Regroup5_2_0(A, T, B, T, C, T, D);
    Middle(A + T + B + T + C, T + D, []);
  }

  lemma {:induction false} SentenceLeadingCuts()
    ensures Segments(98, [Match(10, 14), Match(32, 36), Match(62, 66)], true, Leading, 0) == [Segment(0, 10), Segment(10, 32), Segment(32, 62), Segment(62, 98)]
  {
  }

  /** Kept leading: each later split begins with "test". */
  lemma {:induction false} SentenceLeading()
    ensures Split(Sentence, Literal(T), true, Leading) == [A, T + B, T + C, T + D]
  {
    SentenceFrom0();
    SentenceLeadingCuts();
    SentenceSlice0To10();
    SentenceSlice10To32();
    SentenceSlice32To62();
    SentenceSlice62To98();
    SplitFrom(Sentence, Literal(T), true, Leading, [Segment(0, 10), Segment(10, 32), Segment(32, 62), Segment(62, 98)], [A, T + B, T + C, T + D]);
  }

  lemma {:induction false} SentenceSlice14To32()
    ensures Sentence[14..32] == B
  {
    Regroup2_1_4(A, T, B, T, C, T, D);
    Middle(A + T, B, T + C + T + D);
  }

  lemma {:induction false} SentenceSlice36To62()
    ensures Sentence[36..62] == C
  {
    Regroup4_1_2(A, T, B, T, C, T, D);
    Middle(A + T + B + T, C, T + D);
  }

  lemma {:induction false} SentenceSlice66To98()
    ensures Sentence[66..98] == D
  {
    Regroup6_1_0(A, T, B, T, C, T, D);
    Middle(A + T + B + T + C + T, D, []);
  }

  lemma {:induction false} SentenceDroppedCuts()
    ensures Segments(98, [Match(10, 14), Match(32, 36), Match(62, 66)], false, Leading, 0) == [Segment(0, 10), Segment(14, 32), Segment(36, 62), Segment(66, 98)]
  {
  }

  /** Dropped: the three "test" go, "Test" stays. */
  lemma {:induction false} SentenceDropped()
    ensures Split(Sentence, Literal(T), false, Leading) == [A, B, C, D]
  {
    SentenceFrom0();
    SentenceDroppedCuts();
    SentenceSlice0To10();
    SentenceSlice14To32();
    SentenceSlice36To62();
    SentenceSlice66To98();
    SplitFrom(Sentence, Literal(T), false, Leading, [Segment(0, 10), Segment(14, 32), Segment(36, 62), Segment(66, 98)], [A, B, C, D]);
  }

  lemma {:induction false} SentenceSlice0To14()
    ensures Sentence[0..14] == A + T
  {
    Regroup2_5(A, T, B, T, C, T, D);
    Front(A + T, B + T + C + T + D);
  }

  lemma {:induction false} SentenceSlice14To36()
    ensures Sentence[14..36] == B + T
  {
    Regroup2_2_3(A, T, B, T, C, T, D);
    Middle(A + T, B + T, C + T + D);
  }

  lemma {:induction false} SentenceSlice36To66()
    ensures Sentence[36..66] == C + T
  {
    Regroup4_2_1(A, T, B, T, C, T, D);
    Middle(A + T + B + T, C + T, D);
  }

  lemma {:induction false} SentenceTrailingCuts()
    ensures Segments(98, [Match(10, 14), Match(32, 36), Match(62, 66)], true, Trailing, 0) == [Segment(0, 14), Segment(14, 36), Segment(36, 66), Segment(66, 98)]
  {
  }

  /** Kept trailing: the first three splits end with "test". */
  lemma {:induction false} SentenceTrailing()
    ensures Split(Sentence, Literal(T), true, Trailing) == [A + T, B + T, C + T, D]
  {
    SentenceFrom0();
    SentenceTrailingCuts();
    SentenceSlice0To14();
    SentenceSlice14To36();
    SentenceSlice36To66();
    SentenceSlice66To98();
    SplitFrom(Sentence, Literal(T), true, Trailing, [Segment(0, 14), Segment(14, 36), Segment(36, 66), Segment(66, 98)], [A + T, B + T, C + T, D]);
  }

  lemma {:induction false} SentenceEndingSlice0To14()
    ensures SentenceEnding[0..14] == A + T
  {
    Regroup2_6(A, T, B, T, C, T, E, T);
    Front(A + T, B + T + C + T + E + T);
  }

  lemma {:induction false} SentenceEndingSlice14To36()
    ensures SentenceEnding[14..36] == B + T
  {
    Regroup2_2_4(A, T, B, T, C, T, E, T);
    Middle(A + T, B + T, C + T + E + T);
  }

  lemma {:induction false} SentenceEndingSlice36To66()
    ensures SentenceEnding[36..66] == C + T
  {
    Regroup4_2_2(A, T, B, T, C, T, E, T);
    Middle(A + T + B + T, C + T, E + T);
  }

  lemma {:induction false} SentenceEndingSlice66To97()
    ensures SentenceEnding[66..97] == E + T
  {
    Regroup6_2_0(A, T, B, T, C, T, E, T);
    Middle(A + T + B + T + C + T, E + T, []);
  }

  lemma {:induction false} SentenceEndingTrailingCuts()
    ensures Segments(97, [Match(10, 14), Match(32, 36), Match(62, 66), Match(93, 97)], true, Trailing, 0) == [Segment(0, 14), Segment(14, 36), Segment(36, 66), Segment(66, 97)]
  {
  }

  /** Kept trailing: the last "test" ends the fourth split; nothing follows it. */
  lemma {:induction false} SentenceEndingTrailing()
    ensures Split(SentenceEnding, Literal(T), true, Trailing) == [A + T, B + T, C + T, E + T]
  {
    SentenceEndingFrom0();
    SentenceEndingTrailingCuts();
    SentenceEndingSlice0To14();
    SentenceEndingSlice14To36();
    SentenceEndingSlice36To66();
    SentenceEndingSlice66To97();
    SplitFrom(SentenceEnding, Literal(T), true, Trailing, [Segment(0, 14), Segment(14, 36), Segment(36, 66), Segment(66, 97)], [A + T, B + T, C + T, E + T]);
  }

  lemma {:induction false} SentenceEndingSlice0To10()
    ensures SentenceEnding[0..10] == A
  {
    Regroup1_7(A, T, B, T, C, T, E, T);
    Front(A, T + B + T + C + T + E + T);
  }

  lemma {:induction false} SentenceEndingSlice10To32()
    ensures SentenceEnding[10..32] == T + B
  {
    Regroup1_2_5(A, T, B, T, C, T, E, T);
    Middle(A, T + B, T + C + T + E + T);
  }

  lemma {:induction false} SentenceEndingSlice32To62()
    ensures SentenceEnding[32..62] == T + C
  {
    Regroup3_2_3(A, T, B, T, C, T, E, T);
    Middle(A + T + B, T + C, T + E + T);
  }

  lemma {:induction false} SentenceEndingSlice62To93()
    ensures SentenceEnding[62..93] == T + E
  {
    Regroup5_2_1(A, T, B, T, C, T, E, T);
    Middle(A + T + B + T + C, T + E, T);
  }

  lemma {:induction false} SentenceEndingSlice93To97()
    ensures SentenceEnding[93..97] == T
  {
    Regroup7_1_0(A, T, B, T, C, T, E, T);
    Middle(A + T + B + T + C + T + E, T, []);
  }

  lemma {:induction false} SentenceEndingLeadingCuts()
    ensures Segments(97, [Match(10, 14), Match(32, 36), Match(62, 66), Match(93, 97)], true, Leading, 0) == [Segment(0, 10), Segment(10, 32), Segment(32, 62), Segment(62, 93), Segment(93, 97)]
  {
  }

  /** Kept leading: the last "test" is a fifth split of its own. */
  lemma {:induction false} SentenceEndingLeading()
    ensures Split(SentenceEnding, Literal(T), true, Leading) == [A, T + B, T + C, T + E, T]
  {
    SentenceEndingFrom0();
    SentenceEndingLeadingCuts();
    SentenceEndingSlice0To10();
    SentenceEndingSlice10To32();
    SentenceEndingSlice32To62();
    SentenceEndingSlice62To93();
    SentenceEndingSlice93To97();
    SplitFrom(SentenceEnding, Literal(T), true, Leading, [Segment(0, 10), Segment(10, 32), Segment(32, 62), Segment(62, 93), Segment(93, 97)], [A, T + B, T + C, T + E, T]);
  }

  // End to end: settings and sentence to what is sent on

  /** Text "test", kept leading: "This is a ", "test. This is another ", "test. And this is yet another ", "test. Finally this is the last Test.", count 4. */
  lemma {:induction false} TextFormatSplitsLeading(bufferSize: nat, id: nat)
    requires bufferSize >= 4
    ensures Outcome(Settings(TextSequence("test"), true, Some(Leading), bufferSize), Sentence, id) == Ok(Emit(Sentence, [A, T + B, T + C, T + D], id))
  {
    TextTest();
    SentenceLeading();
  }

  /** Text "test", dropped: "This is a ", ". This is another ", ". And this is yet another ", ". Finally this is the last Test.", count 4. */
  lemma {:induction false} TextFormatSplitsDropped(bufferSize: nat, id: nat)
    requires bufferSize >= 4
    ensures Outcome(Settings(TextSequence("test"), false, Some(Leading), bufferSize), Sentence, id) == Ok(Emit(Sentence, [A, B, C, D], id))
  {
    TextTest();
    SentenceDropped();
  }

  /** Text "test", kept trailing: "This is a test", ". This is another test", ". And this is yet another test", ". Finally this is the last Test.", count 4. */
  lemma {:induction false} TextFormatSplitsTrailing(bufferSize: nat, id: nat)
    requires bufferSize >= 4
    ensures Outcome(Settings(TextSequence("test"), true, Some(Trailing), bufferSize), Sentence, id) == Ok(Emit(Sentence, [A + T, B + T, C + T, D], id))
  {
    TextTest();
    SentenceTrailing();
  }

  /** Ending in "test", kept trailing: four splits, the last ". Finally this is the last test", count 4. */
  lemma {:induction false} TextFormatSplitsEndingTrailing(bufferSize: nat, id: nat)
    requires bufferSize >= 4
    ensures Outcome(Settings(TextSequence("test"), true, Some(Trailing), bufferSize), SentenceEnding, id) == Ok(Emit(SentenceEnding, [A + T, B + T, C + T, E + T], id))
  {
    TextTest();
    SentenceEndingTrailing();
  }

  /** Ending in "test", kept leading: five splits, the last "test" alone, count 5. */
  lemma {:induction false} TextFormatSplitsEndingLeading(bufferSize: nat, id: nat)
    requires bufferSize >= 4
    ensures Outcome(Settings(TextSequence("test"), true, Some(Leading), bufferSize), SentenceEnding, id) == Ok(Emit(SentenceEnding, [A, T + B, T + C, T + E, T], id))
  {
    TextTest();
    SentenceEndingLeading();
  }
}
