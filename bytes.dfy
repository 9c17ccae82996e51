/**
 * Raw bytes, and the two ways a delimiter property value becomes bytes:
 * hexadecimal text (the default format) and the UTF-8 bytes of a string
 * (the text format).
 */
module Bytes {
  import opened Wrappers

  type byte = b: nat | b < 256

  /** The bytes of several byte strings written one after the other. */
  function Concat(parts: seq<seq<byte>>): (r: seq<byte>)
  {
    if parts == [] then [] else parts[0] + Concat(parts[1..])
  }

  lemma {:induction false} ConcatAppend(a: seq<seq<byte>>, b: seq<seq<byte>>)
    ensures Concat(a + b) == Concat(a) + Concat(b)
  {
    if a == [] {
      assert a + b == b;
    } else {
      assert (a + b)[1..] == a[1..] + b;
      ConcatAppend(a[1..], b);
    }
  }

  // ---------------------------------------------------------------------
  // UTF-8, as String.getBytes produces it for a Unicode scalar value

  /** The UTF-8 encoding of one character. */
  function Utf8Char(c: char): (r: seq<byte>)
    ensures 1 <= |r| <= 4
    ensures (c as int < 0x80) <==> |r| == 1
    ensures |r| == 1 ==> r[0] == c as int
    ensures |r| > 1 ==> forall k :: 0 <= k < |r| ==> r[k] >= 0x80
  {
    var cp := c as int;
    if cp < 0x80 then [cp]
    else if cp < 0x800 then [0xC0 + cp / 64, 0x80 + cp % 64]
    else if cp < 0x10000 then [0xE0 + cp / 4096, 0x80 + (cp / 64) % 64, 0x80 + cp % 64]
    else [0xF0 + cp / 262144, 0x80 + (cp / 4096) % 64, 0x80 + (cp / 64) % 64, 0x80 + cp % 64]
  }

  /** The UTF-8 encoding of a string. */
  function Utf8(s: string): (r: seq<byte>)
    ensures |s| <= |r| <= 4 * |s|
  {
    if s == [] then [] else Utf8Char(s[0]) + Utf8(s[1..])
  }

  lemma {:induction false} Utf8Append(a: string, b: string)
    ensures Utf8(a + b) == Utf8(a) + Utf8(b)
  {
    if a == [] {
      assert a + b == b;
    } else {
      assert (a + b)[1..] == a[1..] + b;
      Utf8Append(a[1..], b);
    }
  }

  /**
   * A byte below 0x80 occurs in the encoding of a string only where the
   * string holds that very ASCII character: multi-byte sequences never
   * contain an ASCII byte, so an ASCII delimiter cannot match inside one.
   */
  lemma {:induction false} Utf8AsciiByte(s: string, b: byte)
    requires b < 0x80
    requires b in Utf8(s)
    ensures exists k :: 0 <= k < |s| && s[k] as int == b
  {
    if s == [] {
    } else if b in Utf8Char(s[0]) {
      var i :| 0 <= i < |Utf8Char(s[0])| && Utf8Char(s[0])[i] == b;
      assert s[0] as int == b;
    } else {
      assert Utf8(s) == Utf8Char(s[0]) + Utf8(s[1..]);
      Utf8AsciiByte(s[1..], b);
      var k :| 0 <= k < |s[1..]| && s[1..][k] as int == b;
      assert s[k + 1] as int == b;
    }
  }

  // ---------------------------------------------------------------------
  // Hexadecimal text, two digits per byte, either letter case

  datatype HexError = OddLength | NotAHexDigit(at: nat)

  function HexDigitValue(c: char): (r: Option<nat>)
    ensures r.Some? ==> r.value < 16
  {
    if '0' <= c <= '9' then Some(c as int - '0' as int)
    else if 'A' <= c <= 'F' then Some(c as int - 'A' as int + 10)
    else if 'a' <= c <= 'f' then Some(c as int - 'a' as int + 10)
    else None
  }

  function HexDigit(v: nat): (c: char)
    requires v < 16
    ensures HexDigitValue(c) == Some(v)
  {
    if v < 10 then ('0' as int + v) as char else ('A' as int + v - 10) as char
  }

  /** Decodes hexadecimal text starting at position `from` (used to report the bad digit). */
  function HexDecodeFrom(s: string, from: nat): (r: Result<seq<byte>, HexError>)
    ensures r.Ok? ==> 2 * |r.value| == |s|
    ensures r.Err? && r.error.NotAHexDigit? ==> from <= r.error.at < from + |s|
    decreases |s|
  {
    if |s| == 0 then Ok([])
    else if |s| == 1 then Err(OddLength)
    else if HexDigitValue(s[0]).None? then Err(NotAHexDigit(from))
    else if HexDigitValue(s[1]).None? then Err(NotAHexDigit(from + 1))
    else
      match HexDecodeFrom(s[2..], from + 2)
      case Err(e) => Err(e)
      case Ok(rest) => Ok([16 * HexDigitValue(s[0]).value + HexDigitValue(s[1]).value] + rest)
  }

  function HexDecode(s: string): (r: Result<seq<byte>, HexError>)
  {
    HexDecodeFrom(s, 0)
  }

  /** Upper-case hexadecimal text of bytes, the inverse of HexDecode. */
  function HexEncode(b: seq<byte>): (s: string)
    ensures |s| == 2 * |b|
  {
    if b == [] then "" else [HexDigit(b[0] / 16), HexDigit(b[0] % 16)] + HexEncode(b[1..])
  }

  lemma {:induction false} HexRoundTrip(b: seq<byte>, from: nat)
    ensures HexDecodeFrom(HexEncode(b), from) == Ok(b)
  {
    if b != [] {
      var s := HexEncode(b);
      assert s[2..] == HexEncode(b[1..]);
      assert HexDigitValue(s[0]) == Some(b[0] / 16) && HexDigitValue(s[1]) == Some(b[0] % 16);
      HexRoundTrip(b[1..], from + 2);
      assert [b[0]] + b[1..] == b;
    }
  }

  /** Decoding either fails or gives bytes whose encoding is the input up to letter case. */
  lemma {:induction false} HexDecodeEncode(s: string, from: nat)
    requires HexDecodeFrom(s, from).Ok?
    ensures var b := HexDecodeFrom(s, from).value;
      |HexEncode(b)| == |s| &&
      forall k :: 0 <= k < |s| ==> HexDigitValue(HexEncode(b)[k]) == HexDigitValue(s[k])
  {
    if |s| > 0 {
      HexDecodeEncode(s[2..], from + 2);
      var b := HexDecodeFrom(s, from).value;
      assert b[1..] == HexDecodeFrom(s[2..], from + 2).value;
      HexDecodeEncodeStep(s, b);
    }
  }

  /** The first two digits decode to the first byte; the rest is the encoding of the rest. */
  lemma {:induction false} HexDecodeEncodeStep(s: string, b: seq<byte>)
    requires |s| >= 2 && |b| >= 1
    requires HexDigitValue(s[0]).Some? && HexDigitValue(s[1]).Some?
    requires b[0] == 16 * HexDigitValue(s[0]).value + HexDigitValue(s[1]).value
    requires |HexEncode(b[1..])| == |s| - 2
    requires forall k :: 0 <= k < |s| - 2 ==> HexDigitValue(HexEncode(b[1..])[k]) == HexDigitValue(s[2..][k])
    ensures |HexEncode(b)| == |s|
    ensures forall k :: 0 <= k < |s| ==> HexDigitValue(HexEncode(b)[k]) == HexDigitValue(s[k])
  {
    var e := HexEncode(b);
    var tail := HexEncode(b[1..]);
    assert e == [HexDigit(b[0] / 16), HexDigit(b[0] % 16)] + tail;
    forall k | 0 <= k < |s|
      ensures HexDigitValue(e[k]) == HexDigitValue(s[k])
    {
      if k >= 2 {
        assert e[k] == tail[k - 2];
        assert s[k] == s[2..][k - 2];
      }
    }
  }
}
