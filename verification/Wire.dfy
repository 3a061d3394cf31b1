/** Content-Length framing (`dap-client/src/wire.rs`). Bodies are byte strings; their JSON is not looked at. */
module Wires {
  import opened Types

  const MAX_CONTENT_LENGTH: nat := 64 * 1024 * 1024

  datatype IoKind = UnexpectedEof | InvalidData

  /** Text is a sequence of Unicode scalar values. */
  type Text = seq<int>

  datatype WireError = Eof | Io(kind: IoKind) | MissingContentLength | InvalidContentLength(value: Text)

  /** What a read made of a stream, and what it left of it. */
  datatype Outcome<T> = Got(value: T, rest: seq<Byte>) | Refused(error: WireError, rest: seq<Byte>)

  // ----- text

  function Codes(s: string): (r: seq<Byte>)
    requires forall i | 0 <= i < |s| :: s[i] as int < 128
    ensures |r| == |s| && forall i | 0 <= i < |s| :: r[i] == s[i] as int
  {
    seq(|s|, i requires 0 <= i < |s| => s[i] as int)
  }

  predicate Follows(b: Byte) {
    0x80 <= b <= 0xBF
  }

  /** Bytes of the first encoded character, by the table of section 4 of RFC 3629; 0 if ill-formed. */
  function Width(s: seq<Byte>): (n: nat)
    requires s != []
    ensures n <= |s|
  {
    var b := s[0];
    if b < 0x80 then 1
    else if |s| >= 2 && 0xC2 <= b <= 0xDF && Follows(s[1]) then 2
    else if |s| >= 3 && 0xE0 <= b <= 0xEF && Follows(s[1]) && Follows(s[2])
            && (b == 0xE0 ==> s[1] >= 0xA0) && (b == 0xED ==> s[1] <= 0x9F) then 3
    else if |s| >= 4 && 0xF0 <= b <= 0xF4 && Follows(s[1]) && Follows(s[2]) && Follows(s[3])
            && (b == 0xF0 ==> s[1] >= 0x90) && (b == 0xF4 ==> s[1] <= 0x8F) then 4
    else 0
  }

  function Scalar(s: seq<Byte>): int
    requires s != [] && Width(s) > 0
  {
    var c: seq<int> := s;
    match Width(s)
    case 1 => c[0]
    case 2 => (c[0] - 0xC0) * 64 + (c[1] - 0x80)
    case 3 => (c[0] - 0xE0) * 4096 + (c[1] - 0x80) * 64 + (c[2] - 0x80)
    case _ => (c[0] - 0xF0) * 262144 + (c[1] - 0x80) * 4096 + (c[2] - 0x80) * 64 + (c[3] - 0x80)
  }

  function DecodeUtf8(s: seq<Byte>): Option<Text>
    decreases |s|
  {
    if s == [] then Some([])
    else if Width(s) == 0 then None
    else match DecodeUtf8(s[Width(s)..])
      case None => None
      case Some(t) => Some([Scalar(s)] + t)
  }

  predicate IsCrLf(c: int) {
    c == 10 || c == 13
  }

  /** Unicode White_Space. */
  predicate IsWhite(c: int) {
    || 9 <= c <= 13 || c == 0x20 || c == 0x85 || c == 0xA0 || c == 0x1680 || 0x2000 <= c <= 0x200A
    || c == 0x2028 || c == 0x2029 || c == 0x202F || c == 0x205F || c == 0x3000
  }

  function TrimEndCrLf(t: Text): Text {
    if t != [] && IsCrLf(t[|t| - 1]) then TrimEndCrLf(t[..|t| - 1]) else t
  }

  function TrimStart(t: Text): Text {
    if t != [] && IsWhite(t[0]) then TrimStart(t[1..]) else t
  }

  function TrimEnd(t: Text): Text {
    if t != [] && IsWhite(t[|t| - 1]) then TrimEnd(t[..|t| - 1]) else t
  }

  function Trim(t: Text): Text {
    TrimEnd(TrimStart(t))
  }

  predicate IsDigit(c: int) {
    48 <= c <= 57
  }

  predicate AllDigits(t: Text) {
    forall i | 0 <= i < |t| :: IsDigit(t[i])
  }

  function Number(t: Text): nat
    requires AllDigits(t)
  {
    if t == [] then 0 else 10 * Number(t[..|t| - 1]) + (t[|t| - 1] - 48)
  }

  /** `str::parse::<usize>`: an optional plus sign, then one or more digits that fit 64 bits. */
  function ParseUsize(t: Text): Option<nat> {
    var digits := if t != [] && t[0] == 43 then t[1..] else t;
    if digits == [] || !AllDigits(digits) || Number(digits) >= TWO64 then None else Some(Number(digits))
  }

  /** Decimal `{}`. */
  function Decimal(n: nat): (r: seq<Byte>)
    ensures |r| >= 1 && AllDigits(r)
  {
    if n < 10 then [48 + n] else Decimal(n / 10) + [48 + n % 10]
  }

  // ----- what `DecodeUtf8` accepts

  /** A Unicode scalar value: any code point but the surrogates. */
  predicate IsScalar(c: int) {
    0 <= c < 0xD800 || 0xE000 <= c < 0x11_0000
  }

  predicate IsText(t: Text) {
    forall i | 0 <= i < |t| :: IsScalar(t[i])
  }

  function EncodeScalar(c: int): (r: seq<Byte>)
    requires IsScalar(c)
    ensures 1 <= |r| <= 4
  {
    if c < 0x80 then [c]
    else if c < 0x800 then [0xC0 + c / 64, 0x80 + c % 64]
    else if c < 0x1_0000 then [0xE0 + c / 4096, 0x80 + c / 64 % 64, 0x80 + c % 64]
    else [0xF0 + c / 262144, 0x80 + c / 4096 % 64, 0x80 + c / 64 % 64, 0x80 + c % 64]
  }

  function EncodeUtf8(t: Text): seq<Byte>
    requires IsText(t)
  {
    if t == [] then [] else EncodeScalar(t[0]) + EncodeUtf8(t[1..])
  }

  lemma TwoDigits(c: int, a: int, b: int)
    requires c == a * 64 + b && 0 <= b < 64
    ensures c / 64 == a && c % 64 == b
  {
  }

  lemma ThreeDigits(c: int, a: int, b: int, d: int)
    requires c == a * 4096 + b * 64 + d && 0 <= b < 64 && 0 <= d < 64
    ensures c / 4096 == a && c / 64 % 64 == b && c % 64 == d
  {
    TwoDigits(c, a * 64 + b, d);
    TwoDigits(c / 64, a, b);
    assert c / 4096 == c / 64 / 64;
  }

  lemma FourDigits(c: int, a: int, b: int, d: int, e: int)
    requires c == a * 262144 + b * 4096 + d * 64 + e && 0 <= b < 64 && 0 <= d < 64 && 0 <= e < 64
    ensures c / 262144 == a && c / 4096 % 64 == b && c / 64 % 64 == d && c % 64 == e
  {
    TwoDigits(c, a * 4096 + b * 64 + d, e);
    ThreeDigits(c / 64, a, b, d);
    assert c / 4096 == c / 64 / 64 && c / 262144 == c / 64 / 4096;
  }

  /** A well-formed first character is the encoding of its scalar value. */
  lemma FirstIsEncoded(s: seq<Byte>)
    requires s != [] && Width(s) > 0
    ensures IsScalar(Scalar(s)) && s[..Width(s)] == EncodeScalar(Scalar(s))
  {
    var c := Scalar(s);
    match Width(s)
    case 1 =>
    case 2 =>
      TwoDigits(c, s[0] - 0xC0, s[1] - 0x80);
    case 3 =>
      ThreeDigits(c, s[0] - 0xE0, s[1] - 0x80, s[2] - 0x80);
    case _ =>
      FourDigits(c, s[0] - 0xF0, s[1] - 0x80, s[2] - 0x80, s[3] - 0x80);
  }

  lemma EncodedTwo(c: int, s: seq<Byte>)
    requires 0x80 <= c < 0x800 && EncodeScalar(c) <= s
    ensures Width(s) == 2 && Scalar(s) == c
  {
  }

  lemma EncodedThree(c: int, s: seq<Byte>)
    requires IsScalar(c) && 0x800 <= c < 0x1_0000 && EncodeScalar(c) <= s
    ensures Width(s) == 3 && Scalar(s) == c
  {
    assert c == (c / 4096) * 4096 + (c / 64 % 64) * 64 + c % 64;
  }

  lemma EncodedFour(c: int, s: seq<Byte>)
    requires 0x1_0000 <= c < 0x11_0000 && EncodeScalar(c) <= s
    ensures Width(s) == 4 && Scalar(s) == c
  {
    assert c == (c / 262144) * 262144 + (c / 4096 % 64) * 4096 + (c / 64 % 64) * 64 + c % 64;
  }

  /** And the encoding of a scalar value is a well-formed first character. */
  lemma EncodedIsFirst(c: int, rest: seq<Byte>)
    requires IsScalar(c)
    ensures var s := EncodeScalar(c) + rest;
            Width(s) == |EncodeScalar(c)| && Scalar(s) == c && s[Width(s)..] == rest
  {
    var s := EncodeScalar(c) + rest;
    if c < 0x80 {
      assert s[0] == c;
    } else if c < 0x800 {
      EncodedTwo(c, s);
    } else if c < 0x1_0000 {
      EncodedThree(c, s);
    } else {
      EncodedFour(c, s);
    }
  }

  lemma {:induction false} DecodedIsEncoded(s: seq<Byte>)
    requires DecodeUtf8(s).Some?
    ensures IsText(DecodeUtf8(s).value) && EncodeUtf8(DecodeUtf8(s).value) == s
    decreases |s|
  {
    if s != [] {
      var n := Width(s);
      DecodedIsEncoded(s[n..]);
      FirstIsEncoded(s);
      EncodePush(s, n, Scalar(s), DecodeUtf8(s[n..]).value);
    }
  }

  lemma EncodePush(s: seq<Byte>, n: nat, c: int, t: Text)
    requires IsScalar(c) && IsText(t) && n <= |s| && s[..n] == EncodeScalar(c) && s[n..] == EncodeUtf8(t)
    ensures IsText([c] + t) && EncodeUtf8([c] + t) == s
  {
    assert ([c] + t)[1..] == t;
    assert s == s[..n] + s[n..];
  }

  lemma {:induction false} EncodedDecodes(t: Text)
    requires IsText(t)
    ensures DecodeUtf8(EncodeUtf8(t)) == Some(t)
  {
    if t != [] {
      EncodedIsFirst(t[0], EncodeUtf8(t[1..]));
      EncodedDecodes(t[1..]);
      assert [t[0]] + t[1..] == t;
    }
  }

  /** A line is text exactly when it is the UTF-8 encoding of that text. */
  lemma DecodesExactlyUtf8(s: seq<Byte>, t: Text)
    ensures DecodeUtf8(s) == Some(t) <==> IsText(t) && s == EncodeUtf8(t)
  {
    if DecodeUtf8(s) == Some(t) { DecodedIsEncoded(s); }
    if IsText(t) && s == EncodeUtf8(t) { EncodedDecodes(t); }
  }

  // ----- what trimming takes off

  lemma {:induction false} TrimStartTakes(t: Text)
    ensures var r := TrimStart(t);
            && |r| <= |t| && r == t[|t| - |r|..] && (r != [] ==> !IsWhite(r[0]))
            && forall i | 0 <= i < |t| - |r| :: IsWhite(t[i])
  {
    if t != [] && IsWhite(t[0]) {
      TrimStartTakes(t[1..]);
      assert forall i | 1 <= i < |t| :: t[i] == t[1..][i - 1];
    }
  }

  lemma {:induction false} TrimEndTakes(t: Text)
    ensures var r := TrimEnd(t);
            && |r| <= |t| && r == t[..|r|] && (r != [] ==> !IsWhite(r[|r| - 1]))
            && forall i | |r| <= i < |t| :: IsWhite(t[i])
  {
    if t != [] && IsWhite(t[|t| - 1]) {
      TrimEndTakes(t[..|t| - 1]);
      assert forall i | 0 <= i < |t| - 1 :: t[i] == t[..|t| - 1][i];
    }
  }

  predicate AllWhite(t: Text) {
    forall i | 0 <= i < |t| :: IsWhite(t[i])
  }

  /** Trimming takes all the white space off both ends and nothing else. */
  lemma TrimTakesWhiteEnds(t: Text) returns (left: Text, right: Text)
    ensures t == left + Trim(t) + right && AllWhite(left) && AllWhite(right)
    ensures Trim(t) != [] ==> !IsWhite(Trim(t)[0]) && !IsWhite(Trim(t)[|Trim(t)| - 1])
  {
    TrimStartTakes(t);
    var middle := TrimStart(t);
    TrimEndTakes(middle);
    left, right := t[..|t| - |middle|], middle[|Trim(t)|..];
  }

  // ----- header lines

  const NAME: string := "Content-Length:"

  function Name(): (r: seq<Byte>)
    ensures |r| == 15
  {
    Codes(NAME)
  }

  /** What one header line is to `read_header`. */
  datatype Field = Blank | Length(n: nat) | BadLength(value: Text) | BadText | Unknown

  function LengthField(value: Text): Field {
    match ParseUsize(Trim(value))
    case None => BadLength(Trim(value))
    case Some(n) => if n > MAX_CONTENT_LENGTH then BadLength(Trim(value)) else Length(n)
  }

  function FieldOfTrimmed(trimmed: Text): Field {
    if trimmed == [] then Blank
    else if Name() <= trimmed then LengthField(trimmed[|Name()|..])
    else Unknown
  }

  function FieldOf(line: seq<Byte>): Field {
    match DecodeUtf8(line)
    case None => BadText
    case Some(t) => FieldOfTrimmed(TrimEndCrLf(t))
  }

  /** Bytes up to and including the first line feed, or all of them. */
  function LineLength(s: seq<Byte>): (n: nat)
    ensures n <= |s| && (s != [] ==> n > 0)
    ensures forall i | 0 <= i < n - 1 :: s[i] != 10
    ensures n < |s| ==> s[n - 1] == 10
  {
    if s == [] then 0 else if s[0] == 10 then 1 else 1 + LineLength(s[1..])
  }

  /** `read_header` as a function of the unread bytes. */
  function Header(s: seq<Byte>, length: Option<nat>, first: bool): (r: Outcome<nat>)
    ensures r.Got? ==> |r.rest| < |s| && r.rest == s[|s| - |r.rest|..]
    ensures r.Got? && (length.Some? ==> length.value <= MAX_CONTENT_LENGTH) ==> r.value <= MAX_CONTENT_LENGTH
    decreases |s|
  {
    if s == [] then Refused(if first then Eof else Io(UnexpectedEof), [])
    else
      var n := LineLength(s);
      match FieldOf(s[..n])
      case BadText => Refused(Io(InvalidData), s[n..])
      case BadLength(v) => Refused(InvalidContentLength(v), s[n..])
      case Length(k) => Header(s[n..], Some(k), false)
      case Unknown => Header(s[n..], length, false)
      case Blank => if length.None? then Refused(MissingContentLength, s[n..]) else Got(length.value, s[n..])
  }

  /** `read_message` up to the decoding of the body. */
  function ReadFrame(s: seq<Byte>): (r: Outcome<seq<Byte>>)
    ensures r.Got? ==> |r.value| <= MAX_CONTENT_LENGTH && |r.value| + |r.rest| < |s|
    ensures r.Got? ==> s[|s| - |r.value| - |r.rest|..] == r.value + r.rest
  {
    match Header(s, None, true)
    case Refused(e, rest) => Refused(e, rest)
    case Got(n, rest) => if n > |rest| then Refused(Io(UnexpectedEof), []) else Got(rest[..n], rest[n..])
  }

  /** The buffered reader. */
  class Reader {
    var rest: seq<Byte>

    constructor (bytes: seq<Byte>)
      ensures rest == bytes
    {
      rest := bytes;
    }

    method ReadLine() returns (line: seq<Byte>)
      modifies this
      ensures line == old(rest)[..LineLength(old(rest))] && rest == old(rest)[LineLength(old(rest))..]
    {
      var n := 0;
      while n < |rest| && (n == 0 || rest[n - 1] != 10)
        invariant n <= |rest| && rest == old(rest)
        invariant n + (if n > 0 && rest[n - 1] == 10 then 0 else LineLength(rest[n..])) == LineLength(rest)
      {
        assert rest[n..][1..] == rest[n + 1..];
        n := n + 1;
      }
      line := rest[..n];
      rest := rest[n..];
    }

    method ReadHeader() returns (r: Outcome<nat>)
      modifies this
      ensures r == Header(old(rest), None, true) && rest == r.rest
    {
      var contentLength: Option<nat> := None;
      var firstLine := true;
      ghost var want := Header(rest, contentLength, firstLine);
      while true
        invariant want == Header(rest, contentLength, firstLine)
        decreases |rest|
      {
        ghost var field := if rest == [] then Unknown else FieldOf(rest[..LineLength(rest)]);
        var line := ReadLine();
        if line == [] {
          return Refused(if firstLine then Eof else Io(UnexpectedEof), rest);
        }
        firstLine := false;
        var text := DecodeUtf8(line);
        if text.None? {
          return Refused(Io(InvalidData), rest);
        }
        var trimmed := TrimEndCrLf(text.value);
        assert field == FieldOfTrimmed(trimmed);
        if trimmed == [] {
          break;
        }
        if Name() <= trimmed {
          var value := trimmed[|Name()|..];
          var parsed := ParseUsize(Trim(value));
          if parsed.None? || parsed.value > MAX_CONTENT_LENGTH {
            return Refused(InvalidContentLength(Trim(value)), rest);
          }
          contentLength := parsed;
        }
      }
      r := if contentLength.None? then Refused(MissingContentLength, rest) else Got(contentLength.value, rest);
    }

    /** `read_message`, without the JSON. */
    method ReadMessage() returns (r: Outcome<seq<Byte>>)
      modifies this
      ensures r == ReadFrame(old(rest)) && rest == r.rest
    {
      var header := ReadHeader();
      if header.Refused? {
        return Refused(header.error, rest);
      }
      if header.value > |rest| {
        rest := [];
        return Refused(Io(UnexpectedEof), rest);
      }
      var body := rest[..header.value];
      rest := rest[header.value..];
      r := Got(body, rest);
    }
  }

  // ----- the writer

  function HeaderLine(n: nat): (r: seq<Byte>) {
    Name() + [32] + Decimal(n) + [13, 10]
  }

  function Frame(body: seq<Byte>): seq<Byte> {
    HeaderLine(|body|) + [13, 10] + body
  }

  /** The frames of several messages, one after the other. */
  function Frames(bodies: seq<seq<Byte>>): seq<Byte> {
    if bodies == [] then [] else Frame(bodies[0]) + Frames(bodies[1..])
  }

  class Writer {
    var written: seq<Byte>

    constructor ()
      ensures written == []
    {
      written := [];
    }

    /** `write_message`, given the serialized body. */
    method WriteMessage(body: seq<Byte>)
      modifies this
      ensures written == old(written) + Frame(body)
    {
      var header := Codes("Content-Length: ") + Decimal(|body|) + Codes("\r\n\r\n");
      HeaderBytes(|body|);
      written := written + header;
      written := written + body;
    }
  }

  lemma HeaderBytes(n: nat)
    ensures Codes("Content-Length: ") + Decimal(n) + Codes("\r\n\r\n") == HeaderLine(n) + [13, 10]
  {
    assert Codes("Content-Length: ") == Name() + [32];
    assert Codes("\r\n\r\n") == [13, 10] + [13, 10];
  }

  // ----- what the written header line means to the reader

  predicate Ascii(s: seq<Byte>) {
    forall i | 0 <= i < |s| :: s[i] < 0x80
  }

  lemma {:induction false} AsciiDecodes(s: seq<Byte>)
    requires Ascii(s)
    ensures DecodeUtf8(s) == Some(s)
  {
    if s != [] {
      assert Ascii(s[1..]);
      AsciiDecodes(s[1..]);
      assert [s[0]] + s[1..] == s;
    }
  }

  lemma {:induction false} DecimalNumber(n: nat)
    ensures Number(Decimal(n)) == n
  {
    if n < 10 {
      assert Decimal(n)[..0] == [];
    } else {
      DecimalNumber(n / 10);
      assert Decimal(n)[..|Decimal(n)| - 1] == Decimal(n / 10);
    }
  }

  lemma DigitsNotTrimmed(t: Text)
    requires AllDigits(t) && t != []
    ensures Trim([32] + t) == t
  {
    assert ([32] + t)[1..] == t;
    assert IsDigit(t[0]) && IsDigit(t[|t| - 1]);
    assert TrimStart(t) == t;
  }

  lemma CrLfTrimmed(t: Text)
    requires t != [] && !IsCrLf(t[|t| - 1])
    ensures TrimEndCrLf(t + [13, 10]) == t
  {
    var u := t + [13, 10];
    assert u[..|u| - 1] == t + [13];
    assert (t + [13])[..|t|] == t;
    assert TrimEndCrLf(t) == t;
    assert TrimEndCrLf(t + [13]) == t;
  }

  /** The length of a frame is understood if it is allowed, and refused by its digits if not. */
  function WrittenField(n: nat): Field {
    if n <= MAX_CONTENT_LENGTH then Length(n) else BadLength(Decimal(n))
  }

  lemma DecimalField(n: nat)
    ensures LengthField([32] + Decimal(n)) == WrittenField(n)
  {
    DecimalNumber(n);
    DigitsNotTrimmed(Decimal(n));
    assert IsDigit(Decimal(n)[0]);
  }

  lemma NameIsAscii()
    ensures |Name()| == 15 && Ascii(Name()) && Name()[0] == 67
    ensures forall i | 0 <= i < 15 :: !IsCrLf(Name()[i])
  {
    assert NAME == ['C', 'o', 'n', 't', 'e', 'n', 't', '-', 'L', 'e', 'n', 'g', 't', 'h', ':'];
  }

  /** The header line is one line of ASCII, and starts with a letter. */
  lemma HeaderLineShape(n: nat)
    ensures IsLine(HeaderLine(n)) && Ascii(HeaderLine(n)) && HeaderLine(n)[0] == 67 && |HeaderLine(n)| >= 19
  {
    NameIsAscii();
    var digits := Decimal(n);
    forall i | 0 <= i < |digits| ensures 48 <= digits[i] <= 57 {
      assert IsDigit(digits[i]);
    }
  }

  lemma WrittenHeaderField(n: nat)
    ensures FieldOf(HeaderLine(n)) == WrittenField(n)
  {
    var value := [32] + Decimal(n);
    var t := Name() + value;
    HeaderLineShape(n);
    AsciiDecodes(HeaderLine(n));
    assert HeaderLine(n) == t + [13, 10];
    assert IsDigit(Decimal(n)[|Decimal(n)| - 1]);
    assert t[|t| - 1] == Decimal(n)[|Decimal(n)| - 1];
    CrLfTrimmed(t);
    assert t[|Name()|..] == value;
    DecimalField(n);
  }

  lemma CrLfIsBlank()
    ensures IsLine([13, 10]) && FieldOf([13, 10]) == Blank && FieldOf([13]) == Blank
  {
    AsciiDecodes([13, 10]);
    AsciiDecodes([13]);
    var t: Text := [13, 10];
    assert t[..1] == [13];
    assert t[..1][..0] == [];
    var u: Text := [13];
    assert u[..0] == [];
  }

  // ----- header blocks

  predicate IsLine(line: seq<Byte>) {
    line != [] && line[|line| - 1] == 10 && forall i | 0 <= i < |line| - 1 :: line[i] != 10
  }

  lemma {:induction false} LineOf(line: seq<Byte>, tail: seq<Byte>)
    requires IsLine(line)
    ensures LineLength(line + tail) == |line|
  {
    if |line| > 1 {
      assert (line + tail)[1..] == line[1..] + tail;
      LineOf(line[1..], tail);
    }
  }

  /** One header line at the front of the stream. */
  lemma HeaderStep(line: seq<Byte>, tail: seq<Byte>, length: Option<nat>, first: bool)
    requires IsLine(line)
    ensures Header(line + tail, length, first) == match FieldOf(line)
              case BadText => Refused(Io(InvalidData), tail)
              case BadLength(v) => Refused(InvalidContentLength(v), tail)
              case Length(k) => Header(tail, Some(k), false)
              case Unknown => Header(tail, length, false)
              case Blank => if length.None? then Refused(MissingContentLength, tail) else Got(length.value, tail)
  {
    LineOf(line, tail);
    var s := line + tail;
    assert s[..|line|] == line && s[|line|..] == tail;
  }

  /** A header line that does not end the read: a length in range, or a field nobody asked for. */
  predicate Acceptable(line: seq<Byte>) {
    IsLine(line) && (FieldOf(line).Length? || FieldOf(line).Unknown?)
  }

  predicate AllAcceptable(lines: seq<seq<Byte>>) {
    forall i | 0 <= i < |lines| :: Acceptable(lines[i])
  }

  function Flat(lines: seq<seq<Byte>>): seq<Byte> {
    if lines == [] then [] else lines[0] + Flat(lines[1..])
  }

  /** The last length among the lines, or the one known before them. */
  function LastLength(lines: seq<seq<Byte>>, length: Option<nat>): Option<nat> {
    if lines == [] then length
    else LastLength(lines[1..], if FieldOf(lines[0]).Length? then Some(FieldOf(lines[0]).n) else length)
  }

  lemma {:induction false} HeaderBlock(lines: seq<seq<Byte>>, blank: seq<Byte>, tail: seq<Byte>, length: Option<nat>, first: bool)
    requires AllAcceptable(lines) && IsLine(blank) && FieldOf(blank).Blank?
    ensures Header(Flat(lines) + blank + tail, length, first) == match LastLength(lines, length)
              case None => Refused(MissingContentLength, tail)
              case Some(n) => Got(n, tail)
    decreases |lines|
  {
    if lines == [] {
      assert Flat(lines) + blank + tail == blank + tail;
      HeaderStep(blank, tail, length, first);
    } else {
      var after := Flat(lines[1..]) + blank + tail;
      assert Flat(lines) + blank + tail == lines[0] + after;
      assert Acceptable(lines[0]);
      HeaderStep(lines[0], after, length, first);
      HeaderBlock(lines[1..], blank, tail, if FieldOf(lines[0]).Length? then Some(FieldOf(lines[0]).n) else length, false);
    }
  }

  /** The blank line before `rest`: a whole line, or one that the end of the stream cut short. */
  predicate Closes(blank: seq<Byte>, rest: seq<Byte>) {
    && blank != [] && FieldOf(blank).Blank?
    && (IsLine(blank) || (rest == [] && forall i | 0 <= i < |blank| :: blank[i] != 10))
  }

  /** A line cut off the stream is whole, unless it is all there is. */
  lemma FirstLine(s: seq<Byte>)
    requires s != []
    ensures var line := s[..LineLength(s)];
            && s == line + s[LineLength(s)..] && line != []
            && (IsLine(line) || (s[LineLength(s)..] == [] && forall i | 0 <= i < |line| :: line[i] != 10))
  {
  }

  /** The first line of a header the reader accepts. */
  lemma AcceptedLine(s: seq<Byte>, length: Option<nat>, first: bool)
    requires Header(s, length, first).Got?
    ensures s != []
    ensures var n := LineLength(s);
            match FieldOf(s[..n])
            case Blank => length.Some? && Header(s, length, first) == Got(length.value, s[n..])
            case Length(k) => s[n..] != [] && Header(s, length, first) == Header(s[n..], Some(k), false)
            case Unknown => s[n..] != [] && Header(s, length, first) == Header(s[n..], length, false)
            case _ => false
  {
  }

  /** The bytes are acceptable lines and a blank one in front of `rest`, and their last length is `n`. */
  ghost predicate IsHeader(s: seq<Byte>, lines: seq<seq<Byte>>, blank: seq<Byte>, rest: seq<Byte>, n: nat, length: Option<nat>) {
    && AllAcceptable(lines) && Closes(blank, rest)
    && s == Flat(lines) + blank + rest && LastLength(lines, length) == Some(n)
  }

  /** A header the reader accepts, taken apart: the converse of `HeaderBlock`. */
  lemma {:induction false} HeaderParts(s: seq<Byte>, length: Option<nat>, first: bool)
    returns (lines: seq<seq<Byte>>, blank: seq<Byte>)
    requires Header(s, length, first).Got?
    ensures IsHeader(s, lines, blank, Header(s, length, first).rest, Header(s, length, first).value, length)
    decreases |s|
  {
    var n := LineLength(s);
    var line, tail := s[..n], s[n..];
    var r := Header(s, length, first);
    FirstLine(s);
    AcceptedLine(s, length, first);
    if FieldOf(line).Blank? {
      lines, blank := [], line;
      BlankIsHeader(s, line, tail, length);
    } else {
      var next := if FieldOf(line).Length? then Some(FieldOf(line).n) else length;
      var more: seq<seq<Byte>>;
      more, blank := HeaderParts(tail, next, false);
      lines := [line] + more;
      PushHeader(s, line, tail, more, blank, r.rest, r.value, length);
    }
  }

  lemma BlankIsHeader(s: seq<Byte>, blank: seq<Byte>, rest: seq<Byte>, length: Option<nat>)
    requires s == blank + rest && Closes(blank, rest) && length.Some?
    ensures IsHeader(s, [], blank, rest, length.value, length)
  {
    assert Flat([]) + blank == blank;
  }

  lemma PushHeader(s: seq<Byte>, line: seq<Byte>, tail: seq<Byte>, more: seq<seq<Byte>>, blank: seq<Byte>, rest: seq<Byte>,
                   n: nat, length: Option<nat>)
    requires s == line + tail && Acceptable(line)
    requires IsHeader(tail, more, blank, rest, n, if FieldOf(line).Length? then Some(FieldOf(line).n) else length)
    ensures IsHeader(s, [line] + more, blank, rest, n, length)
  {
    PushLine(line, more, length);
    Reassociate(line, Flat(more), blank, rest);
  }

  lemma Reassociate(a: seq<Byte>, b: seq<Byte>, c: seq<Byte>, d: seq<Byte>)
    ensures a + (b + c + d) == a + b + c + d
  {
  }

  lemma PushLine(line: seq<Byte>, more: seq<seq<Byte>>, length: Option<nat>)
    requires Acceptable(line) && AllAcceptable(more)
    ensures AllAcceptable([line] + more) && Flat([line] + more) == line + Flat(more)
    ensures LastLength([line] + more, length) == LastLength(more, if FieldOf(line).Length? then Some(FieldOf(line).n) else length)
  {
    assert ([line] + more)[1..] == more;
  }

  // ----- main results

  /**
   * A written frame is read back as its body, whatever bytes the body holds and whatever
   * follows, if and only if the body is within the limit; a longer one is refused by length.
   */
  lemma FrameReadsBack(body: seq<Byte>, tail: seq<Byte>)
    ensures |body| <= MAX_CONTENT_LENGTH ==> ReadFrame(Frame(body) + tail) == Got(body, tail)
    ensures |body| > MAX_CONTENT_LENGTH ==>
              ReadFrame(Frame(body) + tail) == Refused(InvalidContentLength(Decimal(|body|)), [13, 10] + body + tail)
  {
    FrameParts(body, tail);
    if |body| <= MAX_CONTENT_LENGTH {
      AfterHeader(|body|, body + tail);
      BodyTaken(body, tail);
    } else {
      CutOverlong(body, [13, 10] + (body + tail));
    }
  }

  lemma FrameParts(body: seq<Byte>, tail: seq<Byte>)
    ensures Frame(body) + tail == HeaderLine(|body|) + ([13, 10] + (body + tail))
    ensures [13, 10] + body + tail == [13, 10] + (body + tail)
  {
  }

  lemma BodyTaken(body: seq<Byte>, tail: seq<Byte>)
    ensures (body + tail)[..|body|] == body && (body + tail)[|body|..] == tail
  {
  }

  /** A written header is read as its length, and read up to its end. */
  lemma AfterHeader(n: nat, rest: seq<Byte>)
    requires n <= MAX_CONTENT_LENGTH
    ensures Header(HeaderLine(n) + ([13, 10] + rest), None, true) == Got(n, rest)
  {
    HeaderLineShape(n);
    WrittenHeaderField(n);
    CrLfIsBlank();
    HeaderStep(HeaderLine(n), [13, 10] + rest, None, true);
    HeaderStep([13, 10], rest, Some(n), false);
  }

  /** What reading message after message gives: the bodies, then the error and the unread bytes. */
  datatype Transcript = Transcript(bodies: seq<seq<Byte>>, error: WireError, rest: seq<Byte>)

  function ReadStream(s: seq<Byte>): Transcript
    decreases |s|
  {
    match ReadFrame(s)
    case Refused(e, rest) => Transcript([], e, rest)
    case Got(body, rest) => var t := ReadStream(rest); Transcript([body] + t.bodies, t.error, t.rest)
  }

  /** Every stream of written frames is read back exactly, then ends cleanly with nothing unread. */
  lemma {:induction false} StreamReadsBack(bodies: seq<seq<Byte>>)
    requires forall i | 0 <= i < |bodies| :: |bodies[i]| <= MAX_CONTENT_LENGTH
    ensures ReadStream(Frames(bodies)) == Transcript(bodies, Eof, [])
  {
    if bodies == [] {
      EmptyStream();
    } else {
      StreamReadsBack(bodies[1..]);
      FirstOfStream(bodies[0], Frames(bodies[1..]), bodies[1..], bodies);
    }
  }

  lemma EmptyStream()
    ensures ReadStream([]) == Transcript([], Eof, [])
  {
    assert Header([], None, true) == Refused(Eof, []);
  }

  lemma FirstOfStream(body: seq<Byte>, tail: seq<Byte>, more: seq<seq<Byte>>, all: seq<seq<Byte>>)
    requires |body| <= MAX_CONTENT_LENGTH && ReadStream(tail) == Transcript(more, Eof, [])
    requires all != [] && body == all[0] && more == all[1..]
    ensures ReadStream(Frame(body) + tail) == Transcript(all, Eof, [])
  {
    var s := Frame(body) + tail;
    FrameReadsBack(body, tail);
    StreamStep(s, body, tail, more);
    HeadAndTail(all);
  }

  lemma HeadAndTail(all: seq<seq<Byte>>)
    requires all != []
    ensures [all[0]] + all[1..] == all
  {
  }

  lemma StreamStep(s: seq<Byte>, body: seq<Byte>, rest: seq<Byte>, more: seq<seq<Byte>>)
    requires ReadFrame(s) == Got(body, rest) && ReadStream(rest) == Transcript(more, Eof, [])
    ensures ReadStream(s) == Transcript([body] + more, Eof, [])
  {
  }

  /** Bytes with no line feed before the last one, and not blank, are no whole header. */
  lemma PartOfLine(s: seq<Byte>)
    requires s != [] && (forall i | 0 <= i < |s| - 1 :: s[i] != 10) && !FieldOf(s).Blank?
    ensures ReadFrame(s).Refused? && ReadFrame(s).error != Eof
  {
    assert LineLength(s) == |s|;
    assert s[..|s|] == s && s[|s|..] == [];
    var next := if FieldOf(s).Length? then Some(FieldOf(s).n) else None;
    assert Header(s[|s|..], next, false) == Refused(Io(UnexpectedEof), []);
  }

  lemma NotBlank(s: seq<Byte>)
    requires s != [] && Ascii(s) && s[0] == 67
    ensures !FieldOf(s).Blank?
  {
    AsciiDecodes(s);
    TrimKeepsFirst(s);
  }

  lemma {:induction false} TrimKeepsFirst(t: Text)
    requires t != [] && !IsCrLf(t[0])
    ensures TrimEndCrLf(t) != []
  {
    if |t| > 1 { TrimKeepsFirst(t[..|t| - 1]); }
  }

  /** A frame cut inside its header line. */
  lemma CutInHeaderLine(body: seq<Byte>, k: nat)
    requires 0 < k <= |HeaderLine(|body|)|
    ensures ReadFrame(Frame(body)[..k]).Refused? && ReadFrame(Frame(body)[..k]).error != Eof
  {
    HeaderLineShape(|body|);
    var s := Frame(body)[..k];
    assert s == HeaderLine(|body|)[..k];
    NotBlank(s);
    PartOfLine(s);
  }

  /** A frame cut between the carriage return and the line feed of its blank line. */
  lemma CutInBlank(body: seq<Byte>)
    requires |body| <= MAX_CONTENT_LENGTH
    ensures ReadFrame(HeaderLine(|body|) + [13]) == if body == [] then Got([], []) else Refused(Io(UnexpectedEof), [])
  {
    HeaderLineShape(|body|);
    WrittenHeaderField(|body|);
    CrLfIsBlank();
    HeaderStep(HeaderLine(|body|), [13], None, true);
    var s: seq<Byte> := [13];
    assert LineLength(s) == 1 && s[..1] == s && s[1..] == [];
  }

  lemma CutInBody(body: seq<Byte>, part: seq<Byte>)
    requires |part| < |body| <= MAX_CONTENT_LENGTH
    ensures ReadFrame(HeaderLine(|body|) + [13, 10] + part) == Refused(Io(UnexpectedEof), [])
  {
    assert HeaderLine(|body|) + [13, 10] + part == HeaderLine(|body|) + ([13, 10] + part);
    AfterHeader(|body|, part);
  }

  lemma CutOverlong(body: seq<Byte>, part: seq<Byte>)
    requires |body| > MAX_CONTENT_LENGTH
    ensures ReadFrame(HeaderLine(|body|) + part) == Refused(InvalidContentLength(Decimal(|body|)), part)
  {
    HeaderLineShape(|body|);
    WrittenHeaderField(|body|);
    HeaderStep(HeaderLine(|body|), part, None, true);
  }

  /**
   * Every strict prefix of a frame is refused, with the clean end-of-stream error exactly for
   * the empty one; the single exception is the frame of the empty body less its last byte.
   */
  lemma TruncationDetected(body: seq<Byte>, k: nat)
    requires k < |Frame(body)|
    ensures ReadFrame(Frame(body)[..k]).Refused? <==> !(body == [] && k == |Frame(body)| - 1)
    ensures ReadFrame(Frame(body)[..k]).Refused? ==> (ReadFrame(Frame(body)[..k]).error == Eof <==> k == 0)
  {
    var line := HeaderLine(|body|);
    var s := Frame(body)[..k];
    HeaderLineShape(|body|);
    if k == 0 {
      assert s == [];
    } else if k <= |line| {
      CutInHeaderLine(body, k);
    } else if |body| > MAX_CONTENT_LENGTH {
      assert s == line + s[|line|..];
      CutOverlong(body, s[|line|..]);
    } else if k == |line| + 1 {
      assert s == line + [13];
      CutInBlank(body);
    } else {
      var part := body[..k - |line| - 2];
      assert s == line + [13, 10] + part;
      CutInBody(body, part);
    }
  }

  /** Header lines the reader does not know, anywhere in the header block, change nothing. */
  lemma UnknownHeadersIgnored(before: seq<seq<Byte>>, after: seq<seq<Byte>>, body: seq<Byte>, tail: seq<Byte>)
    requires forall i | 0 <= i < |before| :: IsLine(before[i]) && FieldOf(before[i]).Unknown?
    requires forall i | 0 <= i < |after| :: IsLine(after[i]) && FieldOf(after[i]).Unknown?
    requires |body| <= MAX_CONTENT_LENGTH
    ensures ReadFrame(Flat(before) + HeaderLine(|body|) + Flat(after) + [13, 10] + body + tail) == Got(body, tail)
  {
    var line := HeaderLine(|body|);
    var lines := before + [line] + after;
    HeaderLineShape(|body|);
    WrittenHeaderField(|body|);
    CrLfIsBlank();
    assert AllAcceptable(lines);
    UnknownKeepLength(before, line, after, None);
    FlatAround(before, line, after);
    HeaderBlock(lines, [13, 10], body + tail, None, true);
    assert Flat(before) + line + Flat(after) + [13, 10] + body + tail == Flat(lines) + [13, 10] + (body + tail);
    assert (body + tail)[..|body|] == body && (body + tail)[|body|..] == tail;
  }

  lemma {:induction false} FlatAround(before: seq<seq<Byte>>, line: seq<Byte>, after: seq<seq<Byte>>)
    ensures Flat(before + [line] + after) == Flat(before) + line + Flat(after)
  {
    var lines := before + [line] + after;
    if before == [] {
      assert lines == [line] + after && lines[1..] == after;
    } else {
      assert lines[1..] == before[1..] + [line] + after;
      FlatAround(before[1..], line, after);
    }
  }

  lemma {:induction false} UnknownKeepLength(before: seq<seq<Byte>>, line: seq<Byte>, after: seq<seq<Byte>>, length: Option<nat>)
    requires forall i | 0 <= i < |before| :: FieldOf(before[i]).Unknown?
    requires forall i | 0 <= i < |after| :: FieldOf(after[i]).Unknown?
    requires FieldOf(line).Length?
    ensures LastLength(before + [line] + after, length) == Some(FieldOf(line).n)
    decreases |before|
  {
    var lines := before + [line] + after;
    if before == [] {
      assert lines == [line] + after && lines[1..] == after;
      UnknownLast(after, Some(FieldOf(line).n));
    } else {
      assert lines[1..] == before[1..] + [line] + after;
      UnknownKeepLength(before[1..], line, after, length);
    }
  }

  lemma {:induction false} UnknownLast(lines: seq<seq<Byte>>, length: Option<nat>)
    requires forall i | 0 <= i < |lines| :: FieldOf(lines[i]).Unknown?
    ensures LastLength(lines, length) == length
  {
    if lines != [] { UnknownLast(lines[1..], length); }
  }

  /** A message text: acceptable header lines, a blank line, then a body of the last length given. */
  ghost predicate IsMessageByField(s: seq<Byte>, lines: seq<seq<Byte>>, blank: seq<Byte>, body: seq<Byte>, rest: seq<Byte>) {
    && AllAcceptable(lines) && Closes(blank, body + rest)
    && LastLength(lines, None) == Some(|body|)
    && s == Flat(lines) + blank + (body + rest)
  }

  /** The reader takes a body off a stream exactly when the stream starts with a message carrying it. */
  lemma ReadsByField(s: seq<Byte>, body: seq<Byte>, rest: seq<Byte>)
    ensures ReadFrame(s) == Got(body, rest) <==> exists lines, blank :: IsMessageByField(s, lines, blank, body, rest)
  {
    if ReadFrame(s) == Got(body, rest) {
      var lines, blank := HeaderParts(s, None, true);
      assert body + rest == Header(s, None, true).rest;
      assert IsMessageByField(s, lines, blank, body, rest);
    }
    forall lines, blank | IsMessageByField(s, lines, blank, body, rest) ensures ReadFrame(s) == Got(body, rest) {
      MessageIsRead(s, lines, blank, body, rest);
    }
  }

  lemma MessageIsRead(s: seq<Byte>, lines: seq<seq<Byte>>, blank: seq<Byte>, body: seq<Byte>, rest: seq<Byte>)
    requires IsMessageByField(s, lines, blank, body, rest)
    ensures ReadFrame(s) == Got(body, rest)
  {
    var all := body + rest;
    if IsLine(blank) {
      HeaderBlock(lines, blank, all, None, true);
    } else {
      OpenBlank(lines, blank, None, true);
      assert s == Flat(lines) + blank;
    }
    assert all[..|body|] == body && all[|body|..] == rest;
  }

  /** A blank line that the end of the stream cut short still ends the header. */
  lemma {:induction false} OpenBlank(lines: seq<seq<Byte>>, blank: seq<Byte>, length: Option<nat>, first: bool)
    requires AllAcceptable(lines) && Closes(blank, []) && !IsLine(blank)
    requires LastLength(lines, length).Some?
    ensures Header(Flat(lines) + blank, length, first) == Got(LastLength(lines, length).value, [])
    decreases |lines|
  {
    if lines == [] {
      assert Flat(lines) + blank == blank;
      assert LineLength(blank) == |blank| && blank[..|blank|] == blank && blank[|blank|..] == [];
    } else {
      var after := Flat(lines[1..]) + blank;
      assert Flat(lines) + blank == lines[0] + after;
      assert Acceptable(lines[0]);
      HeaderStep(lines[0], after, length, first);
      OpenBlank(lines[1..], blank, if FieldOf(lines[0]).Length? then Some(FieldOf(lines[0]).n) else length, false);
    }
  }
}
