/**
 * The processor's properties and their validation: the byte sequence in one
 * of three formats (hexadecimal, the default; text, taken as its UTF-8
 * bytes; a regular expression, modelled only in the form of a run of
 * characters from a class, such as [\n\r]+), whether to keep the sequence,
 * where to keep it (Trailing when not set) and the read-buffer size.
 * Validation happens once, before any content is read, and either fails
 * with a configuration error or gives the delimiter and policy the splitter
 * runs with.
 */
module Config {
  import opened Wrappers
  import opened Bytes
  import opened Matcher
  import opened Segmenting

  /** The byte-sequence property, with the format it is written in. */
  datatype ByteSequence =
    | HexSequence(text: string)
    | TextSequence(text: string)
    | RegexRun(members: set<char>)   // the regular expression [members]+

  datatype Settings = Settings(
    sequence: ByteSequence,
    keep: bool,
    location: Option<Position>,
    bufferSize: nat)

  datatype ConfigError =
    | BadHex(cause: HexError)
    | EmptySequence
    | NonAsciiClass
    | BufferTooSmall

  /** What the splitter runs with once the settings are accepted. */
  datatype Plan = Plan(delimiter: Delimiter, keep: bool, position: Position, capacity: nat)

  /** Only the byte sequence is given: hexadecimal, delimiter dropped, location unset. */
  function Defaults(hex: string, bufferSize: nat): Settings
  {
    Settings(HexSequence(hex), false, None, bufferSize)
  }

  /** The bytes a character class stands for: the ASCII codes of its characters. */
  function ClassBytes(members: set<char>): set<byte>
  {
    set c | c in members && c as int < 0x80 :: c as int as byte
  }

  predicate AsciiClass(members: set<char>)
  {
    forall c :: c in members ==> c as int < 0x80
  }

  /**
   * The delimiter the byte-sequence property denotes. It is never empty, a
   * hexadecimal text that does not decode is refused with the decoder's
   * error, and a character class must be ASCII to denote bytes.
   */
  function DecodeSequence(s: ByteSequence): (r: Result<Delimiter, ConfigError>)
    ensures r.Ok? ==> WellFormed(r.value)
    ensures r.Ok? && s.RegexRun? ==> r.value == Run(ClassBytes(s.members)) && r.value.members != {}
    ensures r.Ok? && !s.RegexRun? ==> r.value.Literal? && |r.value.pattern| > 0
  {
    match s
    case HexSequence(text) =>
      (match HexDecode(text)
       case Err(e) => Err(BadHex(e))
       case Ok(bytes) => if bytes == [] then Err(EmptySequence) else Ok(Literal(bytes)))
    case TextSequence(text) =>
      if text == [] then Err(EmptySequence) else Ok(Literal(Utf8(text)))
    case RegexRun(members) =>
      if members == {} then Err(EmptySequence)
      else if !AsciiClass(members) then Err(NonAsciiClass)
      else
        var c :| c in members;
        assert (c as int) in ClassBytes(members);
        Ok(Run(ClassBytes(members)))
  }

  /** The buffer must hold at least one byte, and for a literal the whole sequence. */
  predicate Fits(d: Delimiter, bufferSize: nat)
  {
    bufferSize >= 1 && (d.Literal? ==> bufferSize >= |d.pattern|)
  }

  /**
   * Validation: the accepted plan carries the decoded delimiter, the keep
   * flag as given and the location, Trailing when it is not set; and what
   * the splitter needs of it (a well-formed delimiter, a buffer it fits) holds.
   */
  function Validate(c: Settings): (r: Result<Plan, ConfigError>)
    ensures r.Ok? ==> WellFormed(r.value.delimiter) && Fits(r.value.delimiter, r.value.capacity)
    ensures r.Ok? ==> r.value.keep == c.keep && r.value.capacity == c.bufferSize
    ensures r.Ok? ==> r.value.position == (if c.location.Some? then c.location.value else Trailing)
    ensures r.Ok? <==> DecodeSequence(c.sequence).Ok? && Fits(DecodeSequence(c.sequence).value, c.bufferSize)
  {
    match DecodeSequence(c.sequence)
    case Err(e) => Err(e)
    case Ok(d) =>
      if !Fits(d, c.bufferSize) then Err(BufferTooSmall)
      else
        var position := match c.location case Some(p) => p case None => Trailing;
        Ok(Plan(d, c.keep, position, c.bufferSize))
  }

  /** Any non-empty byte string written in hexadecimal is accepted as itself. */
  lemma {:induction false} HexSequenceAccepted(bytes: seq<byte>)
    requires bytes != []
    ensures DecodeSequence(HexSequence(HexEncode(bytes))) == Ok(Literal(bytes))
  {
    HexRoundTrip(bytes, 0);
  }

  /** Text format: the delimiter is exactly the bytes the text encodes to; ASCII text is one byte a character. */
  lemma {:induction false} AsciiTextBytes(text: string)
    requires text != [] && forall k :: 0 <= k < |text| ==> text[k] as int < 0x80
    ensures DecodeSequence(TextSequence(text)) == Ok(Literal(Utf8(text)))
    ensures |Utf8(text)| == |text| && forall k :: 0 <= k < |text| ==> Utf8(text)[k] == text[k] as int
    decreases |text|
  {
    if |text| > 1 {
      AsciiTextBytes(text[1..]);
      assert Utf8(text) == [text[0] as int] + Utf8(text[1..]);
    }
  }

  /**
   * A character class over ASCII characters matches a byte of the encoded
   * text only where the text holds one of the class's characters: running
   * the expression over the decoded text and running the byte class over
   * the raw bytes look at the same positions.
   */
  lemma {:induction false} ClassByteIsClassChar(text: string, members: set<char>, b: byte)
    requires b in Utf8(text) && b in ClassBytes(members)
    ensures exists k :: 0 <= k < |text| && text[k] as int == b && text[k] in members
  {
    var c :| c in members && c as int < 0x80 && c as int == b;
    Utf8AsciiByte(text, b);
    var k :| 0 <= k < |text| && text[k] as int == b;
    assert text[k] == c;
  }
}
