/**
 * The regular-expression examples: lines of text, each next to a run of
 * line-break characters, written out as one string by a loop and sent as
 * its UTF-8 bytes; the delimiter is a run of characters from a class
 * ([\n\r]+, or \n+). The lines may hold any other character, non-ASCII
 * ones included: their UTF-8 bytes are all 0x80 or above and never match
 * an ASCII class.
 */
module RunExamples {
  import opened Wrappers
  import opened Bytes
  import opened Matcher
  import opened Segmenting
  import opened Framing
  import opened Config
  import opened Fragments
  import opened Processor

  /** The class of [\n\r]+. */
  const LineBreaks: set<char> := {'\n', '\r'}

  /** A line of the examples: not empty, and none of the class's characters. */
  predicate IsLine(s: string, cls: set<char>)
  {
    s != [] && forall k :: 0 <= k < |s| ==> s[k] !in cls
  }

  /** A separator of the examples: not empty, and the class's characters only. */
  predicate IsBreak(s: string, cls: set<char>)
  {
    s != [] && forall k :: 0 <= k < |s| ==> s[k] in cls
  }

  /** As many separators as lines, each of its kind. */
  predicate Framed(texts: seq<string>, seps: seq<string>, cls: set<char>)
  {
    |texts| == |seps| && forall i :: 0 <= i < |texts| ==> IsLine(texts[i], cls) && IsBreak(seps[i], cls)
  }

  /** Each text followed by its separator, as one string. */
  function JoinTrailing(texts: seq<string>, seps: seq<string>): string
    requires |texts| == |seps|
    decreases |texts|
  {
    if texts == [] then [] else texts[0] + seps[0] + JoinTrailing(texts[1..], seps[1..])
  }

  /** Each text preceded by its separator, as one string. */
  function JoinLeading(texts: seq<string>, seps: seq<string>): string
    requires |texts| == |seps|
    decreases |texts|
  {
    if texts == [] then [] else seps[0] + texts[0] + JoinLeading(texts[1..], seps[1..])
  }

  /** One more line and separator at the end add their text at the end. */
  lemma {:induction false} JoinTrailingSnoc(texts: seq<string>, seps: seq<string>, t: string, s: string)
    requires |texts| == |seps|
    ensures JoinTrailing(texts + [t], seps + [s]) == JoinTrailing(texts, seps) + t + s
    decreases |texts|
  {
    if texts != [] {
      assert (texts + [t])[1..] == texts[1..] + [t];
      assert (seps + [s])[1..] == seps[1..] + [s];
      JoinTrailingSnoc(texts[1..], seps[1..], t, s);
    }
  }

  lemma {:induction false} JoinLeadingSnoc(texts: seq<string>, seps: seq<string>, t: string, s: string)
    requires |texts| == |seps|
    ensures JoinLeading(texts + [t], seps + [s]) == JoinLeading(texts, seps) + s + t
    decreases |texts|
  {
    if texts != [] {
      assert (texts + [t])[1..] == texts[1..] + [t];
      assert (seps + [s])[1..] == seps[1..] + [s];
      JoinLeadingSnoc(texts[1..], seps[1..], t, s);
    }
  }

  /** The examples' loop: append each line and then its separator. */
  method BuildTrailing(texts: seq<string>, seps: seq<string>) returns (content: string)
    requires |texts| == |seps|
    ensures content == JoinTrailing(texts, seps)
  {
    content := "";
    var i := 0;
    while i < |texts|
      invariant i <= |texts|
      invariant content == JoinTrailing(texts[..i], seps[..i])
    {
      JoinTrailingSnoc(texts[..i], seps[..i], texts[i], seps[i]);
      assert texts[..i + 1] == texts[..i] + [texts[i]];
      assert seps[..i + 1] == seps[..i] + [seps[i]];
      content := content + texts[i] + seps[i];
      i := i + 1;
    }
    assert texts[..i] == texts && seps[..i] == seps;
  }

  /** The leading example's loop: append each separator and then its line. */
  method BuildLeading(texts: seq<string>, seps: seq<string>) returns (content: string)
    requires |texts| == |seps|
    ensures content == JoinLeading(texts, seps)
  {
    content := "";
    var i := 0;
    while i < |texts|
      invariant i <= |texts|
      invariant content == JoinLeading(texts[..i], seps[..i])
    {
      JoinLeadingSnoc(texts[..i], seps[..i], texts[i], seps[i]);
      assert texts[..i + 1] == texts[..i] + [texts[i]];
      assert seps[..i + 1] == seps[..i] + [seps[i]];
      content := content + seps[i] + texts[i];
      i := i + 1;
    }
    assert texts[..i] == texts && seps[..i] == seps;
  }

  /** The lines as bytes: each text and separator encoded. */
  function Encoded(texts: seq<string>, seps: seq<string>): seq<Line>
    requires |texts| == |seps|
  {
    seq(|texts|, i requires 0 <= i < |texts| => Line(Utf8(texts[i]), Utf8(seps[i])))
  }

  /** The UTF-8 bytes of each string. */
  function Encodings(ss: seq<string>): seq<seq<byte>>
  {
    seq(|ss|, i requires 0 <= i < |ss| => Utf8(ss[i]))
  }

  /** Each text with its separator after it, or before it. */
  function TextThenBreak(texts: seq<string>, seps: seq<string>): seq<string>
    requires |texts| == |seps|
  {
    seq(|texts|, i requires 0 <= i < |texts| => texts[i] + seps[i])
  }

  function BreakThenText(texts: seq<string>, seps: seq<string>): seq<string>
    requires |texts| == |seps|
  {
    seq(|texts|, i requires 0 <= i < |texts| => seps[i] + texts[i])
  }

  /** Encoding the written-out string is writing out the encoded lines. */
  lemma {:induction false} EncodedTrailing(texts: seq<string>, seps: seq<string>)
    requires |texts| == |seps|
    ensures Utf8(JoinTrailing(texts, seps)) == TrailingForm(Encoded(texts, seps))
    decreases |texts|
  {
    if texts != [] {
      EncodedTrailing(texts[1..], seps[1..]);
      Utf8Append(texts[0] + seps[0], JoinTrailing(texts[1..], seps[1..]));
      Utf8Append(texts[0], seps[0]);
      assert Encoded(texts, seps)[1..] == Encoded(texts[1..], seps[1..]);
    }
  }

  lemma {:induction false} EncodedLeading(texts: seq<string>, seps: seq<string>)
    requires |texts| == |seps|
    ensures Utf8(JoinLeading(texts, seps)) == LeadingForm(Encoded(texts, seps))
    decreases |texts|
  {
    if texts != [] {
      EncodedLeading(texts[1..], seps[1..]);
      Utf8Append(seps[0] + texts[0], JoinLeading(texts[1..], seps[1..]));
      Utf8Append(seps[0], texts[0]);
      assert Encoded(texts, seps)[1..] == Encoded(texts[1..], seps[1..]);
    }
  }

  /** A string without the class's characters encodes to bytes without the class's bytes. */
  lemma {:induction false} LineBytes(s: string, cls: set<char>)
    requires forall k :: 0 <= k < |s| ==> s[k] !in cls
    ensures Clean(Utf8(s), ClassBytes(cls))
    decreases |s|
  {
    if s != [] {
      LineBytes(s[1..], cls);
      var head := Utf8Char(s[0]);
      forall k | 0 <= k < |head|
        ensures head[k] !in ClassBytes(cls)
      {
        if |head| == 1 {
          assert head[k] == s[0] as int;
        } else {
          assert head[k] >= 0x80;
        }
      }
      assert Utf8(s) == head + Utf8(s[1..]);
    }
  }

  /** A string of the class's (ASCII) characters encodes to the class's bytes only. */
  lemma {:induction false} BreakBytes(s: string, cls: set<char>)
    requires AsciiClass(cls) && forall k :: 0 <= k < |s| ==> s[k] in cls
    ensures |Utf8(s)| == |s| && AllMembers(Utf8(s), ClassBytes(cls))
    decreases |s|
  {
    if s != [] {
      BreakBytes(s[1..], cls);
      assert (s[0] as int) in ClassBytes(cls);
      assert Utf8(s) == [s[0] as int] + Utf8(s[1..]);
    }
  }

  /** Lines and separators of their kinds encode to well-separated lines. */
  lemma {:induction false} EncodedSeparated(texts: seq<string>, seps: seq<string>, cls: set<char>)
    requires AsciiClass(cls) && Framed(texts, seps, cls)
    ensures WellSeparated(Encoded(texts, seps), ClassBytes(cls))
  {
    forall i | 0 <= i < |texts|
      ensures Clean(Utf8(texts[i]), ClassBytes(cls)) && AllMembers(Utf8(seps[i]), ClassBytes(cls))
      ensures |Utf8(texts[i])| > 0 && |Utf8(seps[i])| > 0
    {
      LineBytes(texts[i], cls);
      BreakBytes(seps[i], cls);
    }
  }

  /** The encoded lines' texts are the texts encoded. */
  lemma {:induction false} Dropped(texts: seq<string>, seps: seq<string>)
    requires |texts| == |seps|
    ensures Texts(Encoded(texts, seps)) == Encodings(texts)
  {
  }

  /** Each encoded line with its encoded separator is the encoding of the two joined. */
  lemma {:induction false} KeptAfter(texts: seq<string>, seps: seq<string>)
    requires |texts| == |seps|
    ensures TextsThenSeparators(Encoded(texts, seps)) == Encodings(TextThenBreak(texts, seps))
  {
    forall i | 0 <= i < |texts|
      ensures TextsThenSeparators(Encoded(texts, seps))[i] == Encodings(TextThenBreak(texts, seps))[i]
    {
      Utf8Append(texts[i], seps[i]);
    }
  }

  lemma {:induction false} KeptBefore(texts: seq<string>, seps: seq<string>)
    requires |texts| == |seps|
    ensures SeparatorsThenTexts(Encoded(texts, seps)) == Encodings(BreakThenText(texts, seps))
  {
    forall i | 0 <= i < |texts|
      ensures SeparatorsThenTexts(Encoded(texts, seps))[i] == Encodings(BreakThenText(texts, seps))[i]
    {
      Utf8Append(seps[i], texts[i]);
    }
  }

  /** An ASCII class that is not empty is accepted as the run of its bytes. */
  lemma {:induction false} ClassAccepted(cls: set<char>, keep: bool, location: Option<Position>, bufferSize: nat)
    requires cls != {} && AsciiClass(cls) && bufferSize >= 1
    ensures Validate(Settings(RegexRun(cls), keep, location, bufferSize)) ==
      Ok(Plan(Run(ClassBytes(cls)), keep, if location.Some? then location.value else Trailing, bufferSize))
  {
  }

  /**
   * Dropping the runs: the splits are the lines' own bytes, one per line,
   * for every buffer size.
   */
  lemma {:induction false} RegexSearch(texts: seq<string>, seps: seq<string>, cls: set<char>,
                                       location: Option<Position>, bufferSize: nat, id: nat)
    requires cls != {} && AsciiClass(cls) && Framed(texts, seps, cls) && bufferSize >= 1
    ensures var content := Utf8(JoinTrailing(texts, seps));
      Outcome(Settings(RegexRun(cls), false, location, bufferSize), content, id) ==
      Ok(Emit(content, Encodings(texts), id))
  {
    var lines := Encoded(texts, seps);
    ClassAccepted(cls, false, location, bufferSize);
    EncodedTrailing(texts, seps);
    EncodedSeparated(texts, seps, cls);
    RunSplitDrop(lines, ClassBytes(cls), if location.Some? then location.value else Trailing);
    Dropped(texts, seps);
  }

  /** Keeping the runs at the end: each split is a line with its run, as bytes. */
  lemma {:induction false} RegexTrailingSearch(texts: seq<string>, seps: seq<string>, cls: set<char>, bufferSize: nat, id: nat)
    requires cls != {} && AsciiClass(cls) && Framed(texts, seps, cls) && bufferSize >= 1
    ensures var content := Utf8(JoinTrailing(texts, seps));
      Outcome(Settings(RegexRun(cls), true, Some(Trailing), bufferSize), content, id) ==
      Ok(Emit(content, Encodings(TextThenBreak(texts, seps)), id))
  {
    var lines := Encoded(texts, seps);
    ClassAccepted(cls, true, Some(Trailing), bufferSize);
    EncodedTrailing(texts, seps);
    EncodedSeparated(texts, seps, cls);
    RunSplitTrailing(lines, ClassBytes(cls));
    KeptAfter(texts, seps);
  }

  /** Keeping the runs at the start: each split is a run with its line, as bytes. */
  lemma {:induction false} RegexLeadingSearch(texts: seq<string>, seps: seq<string>, cls: set<char>, bufferSize: nat, id: nat)
    requires cls != {} && AsciiClass(cls) && Framed(texts, seps, cls) && bufferSize >= 1
    ensures var content := Utf8(JoinLeading(texts, seps));
      Outcome(Settings(RegexRun(cls), true, Some(Leading), bufferSize), content, id) ==
      Ok(Emit(content, Encodings(BreakThenText(texts, seps)), id))
  {
    var lines := Encoded(texts, seps);
    ClassAccepted(cls, true, Some(Leading), bufferSize);
    EncodedLeading(texts, seps);
    EncodedSeparated(texts, seps, cls);
    RunSplitLeading(lines, ClassBytes(cls));
    KeptBefore(texts, seps);
  }

  /**
   * The large example: lines of ASCII characters between runs of \n. There
   * is one split per line, and each split is exactly as long as its line.
   */
  lemma {:induction false} RegexLargeMultiReadSearch(texts: seq<string>, seps: seq<string>, bufferSize: nat, id: nat)
    requires Framed(texts, seps, {'\n'}) && bufferSize >= 1
    requires forall i, k :: 0 <= i < |texts| && 0 <= k < |texts[i]| ==> texts[i][k] as int < 0x80
    ensures var r := Outcome(Settings(RegexRun({'\n'}), false, None, bufferSize), Utf8(JoinTrailing(texts, seps)), id);
      r.Ok? && |r.value.splits| == |texts| &&
      forall i :: 0 <= i < |texts| ==> |r.value.splits[i].content| == |texts[i]|
  {
    RegexSearch(texts, seps, {'\n'}, None, bufferSize, id);
    forall i | 0 <= i < |texts|
      ensures |Utf8(texts[i])| == |texts[i]|
    {
      AsciiTextBytes(texts[i]);
    }
  }
}
