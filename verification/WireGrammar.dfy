/** What the frame reader accepts and why it refuses, said of the text of the header lines. */
module WireGrammar {
  import opened Types
  import opened Wires

  // ----- the text of a line

  predicate AllCrLf(t: Text) {
    forall i | 0 <= i < |t| :: t[i] == 10 || t[i] == 13
  }

  predicate NoWhiteEnds(t: Text) {
    t != [] ==> !IsWhite(t[0]) && !IsWhite(t[|t| - 1])
  }

  /** The name, white space, an optional plus, one or more digits of value n, white space. */
  ghost predicate Spells(t: Text, left: Text, plus: Text, digits: Text, right: Text, n: nat) {
    && t == Name() + left + plus + digits + right
    && AllWhite(left) && AllWhite(right) && (plus == [] || plus == [43])
    && digits != [] && AllDigits(digits) && Value(digits) == n
  }

  /** The value of digits by their places. */
  function Value(digits: Text): nat
    requires AllDigits(digits)
  {
    if digits == [] then 0
    else
      assert IsDigit(digits[0]);
      Shifted(digits[0] - '0' as int, |digits| - 1) + Value(digits[1..])
  }

  /** A digit with n places behind it. */
  function Shifted(d: nat, n: nat): nat {
    if n == 0 then d else 10 * Shifted(d, n - 1)
  }

  lemma {:induction false} ValueSnoc(digits: Text, d: int)
    requires AllDigits(digits) && IsDigit(d)
    ensures AllDigits(digits + [d]) && Value(digits + [d]) == 10 * Value(digits) + (d - 48)
    decreases |digits|
  {
    if digits == [] {
      assert ([] + [d])[1..] == [];
    } else {
      assert (digits + [d])[1..] == digits[1..] + [d];
      ValueSnoc(digits[1..], d);
    }
  }

  lemma {:induction false} NumberIsValue(digits: Text)
    requires AllDigits(digits)
    ensures Number(digits) == Value(digits)
  {
    if digits != [] {
      var init, d := digits[..|digits| - 1], digits[|digits| - 1];
      NumberIsValue(init);
      assert IsDigit(d);
      ValueSnoc(init, d);
      assert init + [d] == digits;
    }
  }

  /** The text gives the length n, which is within the limit. */
  ghost predicate Gives(t: Text, n: nat) {
    n <= MAX_CONTENT_LENGTH && exists left, plus, digits, right :: Spells(t, left, plus, digits, right, n)
  }

  ghost predicate Names(t: Text, left: Text, value: Text, right: Text) {
    t == Name() + left + value + right && AllWhite(left) && AllWhite(right) && NoWhiteEnds(value)
  }

  /** The text has the name, but no length that is allowed; `value` is what stands there. */
  ghost predicate Misstates(t: Text, value: Text) {
    (exists left, right :: Names(t, left, value, right)) && forall n :: !Gives(t, n)
  }

  /** The text is neither blank nor about the length. */
  predicate IsOther(t: Text) {
    !AllCrLf(t) && !(Name() <= t)
  }

  // ----- trimming

  lemma {:induction false} WhiteFrontGoes(left: Text, x: Text)
    requires AllWhite(left)
    ensures TrimStart(left + x) == TrimStart(x)
  {
    if left == [] {
      assert left + x == x;
    } else {
      assert (left + x)[1..] == left[1..] + x;
      WhiteFrontGoes(left[1..], x);
    }
  }

  lemma {:induction false} WhiteBackGoes(x: Text, right: Text)
    requires AllWhite(right)
    ensures TrimEnd(x + right) == TrimEnd(x)
    decreases |right|
  {
    if right == [] {
      assert x + right == x;
    } else {
      assert (x + right)[..|x + right| - 1] == x + right[..|right| - 1];
      WhiteBackGoes(x, right[..|right| - 1]);
    }
  }

  /** What is left between white ends is what trimming leaves. */
  lemma TrimIs(left: Text, value: Text, right: Text)
    requires AllWhite(left) && AllWhite(right) && NoWhiteEnds(value)
    ensures Trim(left + value + right) == value
  {
    assert left + value + right == left + (value + right);
    WhiteFrontGoes(left, value + right);
    if value == [] {
      WhiteFrontGoes(right, []);
      assert right + [] == right && value + right == right;
    } else {
      assert TrimStart(value + right) == value + right;
      WhiteBackGoes(value, right);
    }
  }

  lemma {:induction false} CrLfEndGoes(t: Text)
    ensures var core := TrimEndCrLf(t);
            && |core| <= |t| && core == t[..|core|] && AllCrLf(t[|core|..])
            && (core != [] ==> !IsCrLf(core[|core| - 1]))
  {
    if t != [] && IsCrLf(t[|t| - 1]) {
      var shorter := t[..|t| - 1];
      CrLfEndGoes(shorter);
      var core := TrimEndCrLf(t);
      assert t[|core|..] == shorter[|core|..] + [t[|t| - 1]];
    }
  }

  lemma CrLfIsWhite(t: Text)
    requires AllCrLf(t)
    ensures AllWhite(t)
  {
  }

  lemma {:induction false} OthersStay(t: Text, i: nat)
    requires i < |t| && !IsCrLf(t[i])
    ensures i < |TrimEndCrLf(t)|
  {
    if IsCrLf(t[|t| - 1]) { OthersStay(t[..|t| - 1], i); }
  }

  /** The name survives the trimming of the line end. */
  lemma NameStays(t: Text)
    requires Name() <= t
    ensures Name() <= TrimEndCrLf(t)
  {
    CrLfEndGoes(t);
    NameIsAscii();
    assert t[14] == Name()[14];
    OthersStay(t, 14);
    assert TrimEndCrLf(t)[..15] == t[..15];
  }

  lemma NameSurvives(t: Text)
    ensures Name() <= t <==> Name() <= TrimEndCrLf(t)
  {
    CrLfEndGoes(t);
    if Name() <= t { NameStays(t); }
    if Name() <= TrimEndCrLf(t) { assert t[..15] == TrimEndCrLf(t)[..15]; }
  }

  /** What follows the name on a line, without the line end. */
  function ValueOf(t: Text): Text {
    if Name() <= TrimEndCrLf(t) then TrimEndCrLf(t)[|Name()|..] else []
  }

  /** The value of a length line, trimmed, with and without the line end. */
  lemma ValueTrimmed(t: Text) returns (left: Text, right: Text)
    requires Name() <= t
    ensures Names(t, left, Trim(ValueOf(t)), right)
  {
    NameSurvives(t);
    CrLfEndGoes(t);
    var core := TrimEndCrLf(t);
    var value, ends := ValueOf(t), t[|core|..];
    var inner: Text;
    left, inner := TrimTakesWhiteEnds(value);
    right := inner + ends;
    CrLfIsWhite(ends);
    assert core == Name() + value && t == core + ends;
    Regroup(Name(), left, Trim(value), inner, ends);
  }

  lemma Regroup(a: Text, b: Text, c: Text, d: Text, e: Text)
    ensures a + (b + c + d) + e == a + b + c + (d + e)
  {
  }

  lemma NamesUnique(t: Text, l1: Text, v1: Text, r1: Text, l2: Text, v2: Text, r2: Text)
    requires Names(t, l1, v1, r1) && Names(t, l2, v2, r2)
    ensures v1 == v2
  {
    TrimIs(l1, v1, r1);
    TrimIs(l2, v2, r2);
    assert t[|Name()|..] == l1 + v1 + r1;
    assert t[|Name()|..] == l2 + v2 + r2;
  }

  // ----- a length line

  lemma ParsesExactly(v: Text, n: nat)
    ensures ParseUsize(v) == Some(n) && n <= MAX_CONTENT_LENGTH <==>
              n <= MAX_CONTENT_LENGTH && exists plus, digits :: Numeral(v, plus, digits, n)
  {
    if ParseUsize(v) == Some(n) {
      var plus := if v != [] && v[0] == 43 then [43] else [];
      var digits := if v != [] && v[0] == 43 then v[1..] else v;
      assert v == plus + digits;
      assert Numeral(v, plus, digits, n);
    }
    forall plus, digits | Numeral(v, plus, digits, n) && n <= MAX_CONTENT_LENGTH ensures ParseUsize(v) == Some(n) {
      NumeralParses(v, plus, digits, n);
    }
  }

  ghost predicate Numeral(v: Text, plus: Text, digits: Text, n: nat) {
    v == plus + digits && (plus == [] || plus == [43]) && digits != [] && AllDigits(digits) && Number(digits) == n
  }

  lemma NumeralParses(v: Text, plus: Text, digits: Text, n: nat)
    requires Numeral(v, plus, digits, n) && n <= MAX_CONTENT_LENGTH
    ensures ParseUsize(v) == Some(n)
  {
    assert IsDigit(digits[0]);
    if plus == [] {
      assert v == digits;
    } else {
      assert v[1..] == digits;
    }
  }

  lemma NumeralHasNoWhiteEnds(v: Text, plus: Text, digits: Text, n: nat)
    requires Numeral(v, plus, digits, n)
    ensures NoWhiteEnds(v) && v != []
  {
    assert IsDigit(digits[0]) && IsDigit(digits[|digits| - 1]);
    assert v[|v| - 1] == digits[|digits| - 1];
  }

  lemma SpelledIsNumeral(t: Text, left: Text, plus: Text, digits: Text, right: Text, n: nat)
    requires Spells(t, left, plus, digits, right, n)
    ensures Name() <= t && Numeral(plus + digits, plus, digits, n) && Names(t, left, plus + digits, right)
  {
    NumberIsValue(digits);
    NumeralHasNoWhiteEnds(plus + digits, plus, digits, n);
    assert Name() + left + plus + digits + right == Name() + left + (plus + digits) + right;
    assert t == Name() + (left + plus + digits + right);
  }

  lemma NumeralIsSpelled(t: Text, left: Text, plus: Text, digits: Text, right: Text, n: nat)
    requires Names(t, left, plus + digits, right) && Numeral(plus + digits, plus, digits, n)
    ensures Spells(t, left, plus, digits, right, n)
  {
    NumberIsValue(digits);
    assert Name() + left + plus + digits + right == Name() + left + (plus + digits) + right;
  }

  /** Spelling a length is naming a numeral. */
  lemma GivesIsNumeral(t: Text, n: nat)
    requires Name() <= t
    ensures Gives(t, n) <==> ParseUsize(Trim(ValueOf(t))) == Some(n) && n <= MAX_CONTENT_LENGTH
  {
    var l, r := ValueTrimmed(t);
    var v := Trim(ValueOf(t));
    ParsesExactly(v, n);
    forall left, plus, digits, right | Spells(t, left, plus, digits, right, n) ensures Numeral(v, plus, digits, n) {
      SpelledIsNumeral(t, left, plus, digits, right, n);
      NamesUnique(t, l, v, r, left, plus + digits, right);
    }
    forall plus, digits | Numeral(v, plus, digits, n) ensures Spells(t, l, plus, digits, r, n) {
      NumeralIsSpelled(t, l, plus, digits, r, n);
    }
  }

  lemma GivesNames(t: Text, n: nat)
    requires Gives(t, n)
    ensures Name() <= t
  {
    forall left, plus, digits, right | Spells(t, left, plus, digits, right, n) ensures Name() <= t {
      SpelledIsNumeral(t, left, plus, digits, right, n);
    }
  }

  lemma NamesName(t: Text, left: Text, v: Text, right: Text)
    requires Names(t, left, v, right)
    ensures Name() <= t
  {
    assert t == Name() + (left + v + right);
  }

  lemma MisstatesNames(t: Text, v: Text)
    requires Misstates(t, v)
    ensures Name() <= t
  {
    forall left, right | Names(t, left, v, right) ensures Name() <= t { NamesName(t, left, v, right); }
  }

  lemma MisstatesIff(t: Text, v: Text)
    requires Name() <= t
    ensures Misstates(t, v) <==> v == Trim(ValueOf(t)) && forall n :: !Gives(t, n)
  {
    var l, r := ValueTrimmed(t);
    var w := Trim(ValueOf(t));
    forall left, right | Names(t, left, v, right) ensures v == w {
      NamesUnique(t, l, w, r, left, v, right);
    }
  }

  // ----- every line

  /** What a line's text is to the reader, said of the text alone. */
  lemma TextDecides(t: Text)
    ensures var f := FieldOfTrimmed(TrimEndCrLf(t));
            && (f.Blank? <==> AllCrLf(t))
            && (f.Unknown? <==> IsOther(t))
            && (forall n :: f == Length(n) <==> Gives(t, n))
            && (forall v :: f == BadLength(v) <==> Misstates(t, v))
  {
    var f := FieldOfTrimmed(TrimEndCrLf(t));
    CrLfEndGoes(t);
    NameSurvives(t);
    BlankIff(t);
    if Name() <= t {
      NamedLine(t);
    } else {
      UnnamedLine(t);
    }
  }

  lemma UnnamedLine(t: Text)
    requires !(Name() <= t)
    ensures forall n :: !Gives(t, n)
    ensures forall v :: !Misstates(t, v)
  {
    forall n ensures !Gives(t, n) { if Gives(t, n) { GivesNames(t, n); } }
    forall v ensures !Misstates(t, v) { if Misstates(t, v) { MisstatesNames(t, v); } }
  }

  lemma {:induction false} CrLfTrimsAway(t: Text)
    requires AllCrLf(t)
    ensures TrimEndCrLf(t) == []
  {
    if t != [] { CrLfTrimsAway(t[..|t| - 1]); }
  }

  lemma BlankIff(t: Text)
    ensures TrimEndCrLf(t) == [] <==> AllCrLf(t)
    ensures AllCrLf(t) ==> !(Name() <= t)
  {
    CrLfEndGoes(t);
    NameIsAscii();
    if AllCrLf(t) {
      CrLfTrimsAway(t);
      NameSurvives(t);
    } else {
      assert t[0..] == t;
    }
  }

  lemma NamedLine(t: Text)
    requires Name() <= t
    ensures var f := FieldOfTrimmed(TrimEndCrLf(t));
            && !f.Blank? && !f.Unknown?
            && (forall n :: f == Length(n) <==> Gives(t, n))
            && (forall v :: f == BadLength(v) <==> Misstates(t, v))
  {
    NameSurvives(t);
    var f := FieldOfTrimmed(TrimEndCrLf(t));
    assert f == LengthField(ValueOf(t));
    forall n ensures f == Length(n) <==> Gives(t, n) { GivesIsNumeral(t, n); }
    forall v ensures f == BadLength(v) <==> Misstates(t, v) {
      MisstatesIff(t, v);
    }
  }

  // ----- lines as bytes

  /** The bytes encode text of that kind. */
  ghost predicate LineGives(line: seq<Byte>, n: nat) {
    exists t :: Encodes(line, t) && Gives(t, n)
  }

  ghost predicate LineMisstates(line: seq<Byte>, value: Text) {
    exists t :: Encodes(line, t) && Misstates(t, value)
  }

  ghost predicate LineOther(line: seq<Byte>) {
    exists t :: Encodes(line, t) && IsOther(t)
  }

  ghost predicate LineBlank(line: seq<Byte>) {
    exists t :: Encodes(line, t) && AllCrLf(t)
  }

  ghost predicate NotText(line: seq<Byte>) {
    forall t :: !Encodes(line, t)
  }

  ghost predicate Encodes(line: seq<Byte>, t: Text) {
    IsText(t) && line == EncodeUtf8(t)
  }

  /** A header line is of exactly one kind, and its bytes alone say which. */
  lemma LineDecides(line: seq<Byte>)
    ensures FieldOf(line).BadText? <==> NotText(line)
    ensures FieldOf(line).Blank? <==> LineBlank(line)
    ensures FieldOf(line).Unknown? <==> LineOther(line)
    ensures forall n :: FieldOf(line) == Length(n) <==> LineGives(line, n)
    ensures forall v :: FieldOf(line) == BadLength(v) <==> LineMisstates(line, v)
  {
    forall t ensures Encodes(line, t) <==> DecodeUtf8(line) == Some(t) { DecodesExactlyUtf8(line, t); }
    if DecodeUtf8(line).Some? {
      var t := DecodeUtf8(line).value;
      assert Encodes(line, t);
      TextDecides(t);
    }
  }

  // ----- streams

  /** A line the reader goes past: a length in range, or a field nobody asked for. */
  ghost predicate Passable(line: seq<Byte>) {
    IsLine(line) && ((exists n :: LineGives(line, n)) || LineOther(line))
  }

  ghost predicate AllPassable(lines: seq<seq<Byte>>) {
    forall i | 0 <= i < |lines| :: Passable(lines[i])
  }

  /** The last length the lines give is n. */
  ghost predicate LastGives(lines: seq<seq<Byte>>, n: nat) {
    exists i :: 0 <= i < |lines| && LineGives(lines[i], n) && forall j | i < j < |lines| :: LineOther(lines[j])
  }

  lemma PassableIsAcceptable(lines: seq<seq<Byte>>)
    ensures AllPassable(lines) <==> AllAcceptable(lines)
  {
    forall i | 0 <= i < |lines| ensures Passable(lines[i]) <==> Acceptable(lines[i]) {
      LineDecides(lines[i]);
      if FieldOf(lines[i]).Length? { assert LineGives(lines[i], FieldOf(lines[i]).n); }
    }
  }

  ghost predicate SameLast(lines: seq<seq<Byte>>) {
    forall n: nat :: LastLength(lines, None) == Some(n) <==> LastGives(lines, n)
  }

  lemma SameLastSnoc(lines: seq<seq<Byte>>, line: seq<Byte>)
    requires SameLast(lines) && Acceptable(line)
    ensures SameLast(lines + [line])
  {
    LastLengthSnoc(lines, line, None);
    LastGivesSnoc(lines, line);
  }

  lemma {:induction false} LastLengthIs(lines: seq<seq<Byte>>)
    requires AllAcceptable(lines)
    ensures SameLast(lines)
  {
    if lines != [] {
      var init, line := lines[..|lines| - 1], lines[|lines| - 1];
      assert AllAcceptable(init) && Acceptable(line);
      LastLengthIs(init);
      SameLastSnoc(init, line);
      InitAndLast(lines);
    }
  }

  lemma InitAndLast(lines: seq<seq<Byte>>)
    requires lines != []
    ensures lines[..|lines| - 1] + [lines[|lines| - 1]] == lines
  {
  }

  lemma {:induction false} LastLengthSnoc(lines: seq<seq<Byte>>, line: seq<Byte>, length: Option<nat>)
    ensures LastLength(lines + [line], length) ==
              if FieldOf(line).Length? then Some(FieldOf(line).n) else LastLength(lines, length)
    decreases |lines|
  {
    if lines == [] {
      assert ([] + [line])[1..] == [];
    } else {
      assert (lines + [line])[1..] == lines[1..] + [line];
      LastLengthSnoc(lines[1..], line, if FieldOf(lines[0]).Length? then Some(FieldOf(lines[0]).n) else length);
    }
  }

  lemma LastGivesSnoc(lines: seq<seq<Byte>>, line: seq<Byte>)
    requires Acceptable(line)
    ensures forall n: nat :: LastGives(lines + [line], n) <==>
              if FieldOf(line).Length? then FieldOf(line).n == n else LastGives(lines, n)
  {
    LineDecides(line);
    var all := lines + [line];
    var last := |lines|;
    assert all[last] == line;
    forall n: nat ensures LastGives(all, n) <==> if FieldOf(line).Length? then FieldOf(line).n == n else LastGives(lines, n) {
      if FieldOf(line).Length? {
        if FieldOf(line).n == n { assert LineGives(all[last], n); }
        forall i | 0 <= i < |all| && LineGives(all[i], n) && (forall j | i < j < |all| :: LineOther(all[j])) ensures i == last {
        }
      } else {
        forall i | 0 <= i < |lines| && LineGives(lines[i], n) && (forall j | i < j < |lines| :: LineOther(lines[j])) ensures LastGives(all, n) {
          assert LineGives(all[i], n);
        }
        forall i | 0 <= i < |all| && LineGives(all[i], n) && (forall j | i < j < |all| :: LineOther(all[j])) ensures LastGives(lines, n) {
          assert i != last;
          assert LineGives(lines[i], n);
          assert forall j | i < j < |lines| :: lines[j] == all[j];
        }
      }
    }
  }

  /** The blank line in front of `rest`: a whole line, or one the end of the stream cut short. */
  ghost predicate Ends(piece: seq<Byte>, rest: seq<Byte>) {
    piece != [] && (IsLine(piece) || (rest == [] && forall i | 0 <= i < |piece| :: piece[i] != 10))
  }

  /** Lines the reader goes past, a blank one, and a body as long as the last of them says. */
  ghost predicate IsMessage(s: seq<Byte>, lines: seq<seq<Byte>>, blank: seq<Byte>, body: seq<Byte>, rest: seq<Byte>) {
    && AllPassable(lines) && LineBlank(blank) && Ends(blank, body + rest)
    && LastGives(lines, |body|)
    && s == Flat(lines) + blank + (body + rest)
  }

  lemma MessageByField(s: seq<Byte>, lines: seq<seq<Byte>>, blank: seq<Byte>, body: seq<Byte>, rest: seq<Byte>)
    ensures IsMessage(s, lines, blank, body, rest) <==> IsMessageByField(s, lines, blank, body, rest)
  {
    PassableIsAcceptable(lines);
    LineDecides(blank);
    if AllAcceptable(lines) { LastLengthIs(lines); }
  }

  /** The reader takes a body off a stream exactly when the stream starts with a message carrying it. */
  lemma ReadsExactlyMessages(s: seq<Byte>, body: seq<Byte>, rest: seq<Byte>)
    ensures ReadFrame(s) == Got(body, rest) <==> exists lines, blank :: IsMessage(s, lines, blank, body, rest)
  {
    ReadsByField(s, body, rest);
    forall lines, blank ensures IsMessage(s, lines, blank, body, rest) <==> IsMessageByField(s, lines, blank, body, rest) {
      MessageByField(s, lines, blank, body, rest);
    }
  }

  // ----- refusals

  /** The reader gets past acceptable lines, remembering the last length. */
  lemma {:induction false} GoesPast(lines: seq<seq<Byte>>, tail: seq<Byte>, length: Option<nat>, first: bool)
    requires AllAcceptable(lines)
    ensures Header(Flat(lines) + tail, length, first) == Header(tail, LastLength(lines, length), first && lines == [])
    decreases |lines|
  {
    if lines == [] {
      assert Flat(lines) + tail == tail;
    } else {
      var after := Flat(lines[1..]) + tail;
      assert Flat(lines) + tail == lines[0] + after;
      assert Acceptable(lines[0]);
      HeaderStep(lines[0], after, length, first);
      GoesPast(lines[1..], tail, if FieldOf(lines[0]).Length? then Some(FieldOf(lines[0]).n) else length, false);
    }
  }

  /** The lines the reader gets past, and what it finds then. */
  lemma {:induction false} TakesLines(s: seq<Byte>) returns (lines: seq<seq<Byte>>, tail: seq<Byte>)
    ensures AllAcceptable(lines) && s == Flat(lines) + tail
    ensures tail != [] ==> !Acceptable(tail[..LineLength(tail)])
    decreases |s|
  {
    if s == [] || !Acceptable(s[..LineLength(s)]) {
      lines, tail := [], s;
      assert Flat(lines) + tail == s;
    } else {
      var n := LineLength(s);
      var more;
      more, tail := TakesLines(s[n..]);
      lines := [s[..n]] + more;
      PushLine(s[..n], more, None);
      LineAndRest(s, n, Flat(more), tail);
    }
  }

  lemma LineAndRest(s: seq<Byte>, n: nat, more: seq<Byte>, tail: seq<Byte>)
    requires n <= |s| && s[n..] == more + tail
    ensures s == s[..n] + more + tail
  {
    assert s == s[..n] + s[n..];
  }

  /** Why a header is refused, after the lines the reader got past, at `tail`. */
  ghost predicate Refusal(lines: seq<seq<Byte>>, tail: seq<Byte>, e: WireError, rest: seq<Byte>) {
    || EndsBetween(lines, tail, e, rest)
    || EndsWithin(tail, e, rest)
    || exists piece :: StopsAt(lines, tail, piece, e, rest)
  }

  /** The stream ends between two lines; if it ends before the first, that is a clean end. */
  ghost predicate EndsBetween(lines: seq<seq<Byte>>, tail: seq<Byte>, e: WireError, rest: seq<Byte>) {
    tail == [] && rest == [] && e == if lines == [] then Eof else Io(UnexpectedEof)
  }

  /** The stream ends within a line that could have been gone past. */
  ghost predicate EndsWithin(tail: seq<Byte>, e: WireError, rest: seq<Byte>) {
    OpenLine(tail) && ((exists n :: LineGives(tail, n)) || LineOther(tail)) && rest == [] && e == Io(UnexpectedEof)
  }

  ghost predicate StopsAt(lines: seq<seq<Byte>>, tail: seq<Byte>, piece: seq<Byte>, e: WireError, rest: seq<Byte>) {
    tail == piece + rest && Ends(piece, rest) && Offends(lines, piece, e)
  }

  /** The stream ends within this line. */
  predicate OpenLine(tail: seq<Byte>) {
    tail != [] && forall i | 0 <= i < |tail| :: tail[i] != 10
  }

  /** The line that cannot be gone past: no text, no allowed length, or the end of a header without one. */
  ghost predicate Offends(lines: seq<seq<Byte>>, piece: seq<Byte>, e: WireError) {
    || (NotText(piece) && e == Io(InvalidData))
    || (exists v :: LineMisstates(piece, v) && e == InvalidContentLength(v))
    || (LineBlank(piece) && (forall n: nat :: !LastGives(lines, n)) && e == MissingContentLength)
  }

  lemma FirstPiece(tail: seq<Byte>, piece: seq<Byte>, rest: seq<Byte>)
    requires tail == piece + rest && Ends(piece, rest)
    ensures tail != [] && LineLength(tail) == |piece| && tail[..|piece|] == piece && tail[|piece|..] == rest
  {
    if IsLine(piece) { LineOf(piece, rest); } else { assert tail == piece; }
  }

  /** What a line of that kind leads to. */
  function Next(f: Field, rest: seq<Byte>, length: Option<nat>): Outcome<nat> {
    match f
    case BadText => Refused(Io(InvalidData), rest)
    case BadLength(v) => Refused(InvalidContentLength(v), rest)
    case Length(k) => Header(rest, Some(k), false)
    case Unknown => Header(rest, length, false)
    case Blank => if length.None? then Refused(MissingContentLength, rest) else Got(length.value, rest)
  }

  /** One line at the front, whole or cut short, by what it is. */
  lemma HeaderAt(tail: seq<Byte>, piece: seq<Byte>, rest: seq<Byte>, length: Option<nat>, first: bool)
    requires tail == piece + rest && Ends(piece, rest)
    ensures Header(tail, length, first) == Next(FieldOf(piece), rest, length)
  {
    FirstPiece(tail, piece, rest);
  }

  lemma FirstPieceEnds(tail: seq<Byte>)
    requires tail != []
    ensures Ends(tail[..LineLength(tail)], tail[LineLength(tail)..])
    ensures tail == tail[..LineLength(tail)] + tail[LineLength(tail)..]
  {
    FirstLine(tail);
  }

  /** A header refused, seen at the line where it happens. */
  lemma RefusalAt(lines: seq<seq<Byte>>, tail: seq<Byte>, e: WireError, rest: seq<Byte>)
    requires AllAcceptable(lines) && (tail != [] ==> !Acceptable(tail[..LineLength(tail)]))
    requires Header(Flat(lines) + tail, None, true) == Refused(e, rest)
    ensures Refusal(lines, tail, e, rest)
  {
    GoesPast(lines, tail, None, true);
    LastLengthIs(lines);
    if tail != [] {
      var n := LineLength(tail);
      var piece, after := tail[..n], tail[n..];
      FirstPieceEnds(tail);
      HeaderAt(tail, piece, after, LastLength(lines, None), lines == []);
      LineDecides(piece);
      if FieldOf(piece).Length? || FieldOf(piece).Unknown? {
        assert !IsLine(piece) && after == [] && piece == tail;
        if FieldOf(piece).Length? { assert LineGives(tail, FieldOf(piece).n); }
      } else {
        OffendsAt(lines, piece, e, after);
        assert StopsAt(lines, tail, piece, e, rest);
      }
    }
  }

  lemma OffendsAt(lines: seq<seq<Byte>>, piece: seq<Byte>, e: WireError, rest: seq<Byte>)
    requires AllAcceptable(lines) && !FieldOf(piece).Length? && !FieldOf(piece).Unknown?
    requires Next(FieldOf(piece), rest, LastLength(lines, None)) == Refused(e, rest)
    ensures Offends(lines, piece, e)
  {
    LineDecides(piece);
    LastLengthIs(lines);
    if FieldOf(piece).BadLength? { assert LineMisstates(piece, FieldOf(piece).value); }
  }

  lemma OffenceRefused(lines: seq<seq<Byte>>, tail: seq<Byte>, piece: seq<Byte>, e: WireError, rest: seq<Byte>, first: bool)
    requires AllAcceptable(lines) && StopsAt(lines, tail, piece, e, rest)
    ensures Header(tail, LastLength(lines, None), first) == Refused(e, rest)
  {
    HeaderAt(tail, piece, rest, LastLength(lines, None), first);
    OffendsIs(lines, piece, e, rest);
  }

  lemma OffendsIs(lines: seq<seq<Byte>>, piece: seq<Byte>, e: WireError, rest: seq<Byte>)
    requires AllAcceptable(lines) && Offends(lines, piece, e)
    ensures Next(FieldOf(piece), rest, LastLength(lines, None)) == Refused(e, rest)
  {
    LineDecides(piece);
    LastLengthIs(lines);
    if LastLength(lines, None).Some? { assert LastGives(lines, LastLength(lines, None).value); }
  }

  lemma RefusalRefuses(lines: seq<seq<Byte>>, tail: seq<Byte>, e: WireError, rest: seq<Byte>)
    requires AllAcceptable(lines) && Refusal(lines, tail, e, rest)
    ensures Header(Flat(lines) + tail, None, true) == Refused(e, rest)
  {
    GoesPast(lines, tail, None, true);
    TailRefused(lines, tail, e, rest);
  }

  lemma TailRefused(lines: seq<seq<Byte>>, tail: seq<Byte>, e: WireError, rest: seq<Byte>)
    requires AllAcceptable(lines) && Refusal(lines, tail, e, rest)
    ensures Header(tail, LastLength(lines, None), lines == []) == Refused(e, rest)
  {
    if EndsWithin(tail, e, rest) {
      OpenRefuses(tail, LastLength(lines, None), lines == []);
    } else if !EndsBetween(lines, tail, e, rest) {
      forall piece | StopsAt(lines, tail, piece, e, rest)
        ensures Header(tail, LastLength(lines, None), lines == []) == Refused(e, rest)
      {
        OffenceRefused(lines, tail, piece, e, rest, lines == []);
      }
    }
  }

  lemma OpenRefuses(tail: seq<Byte>, length: Option<nat>, first: bool)
    requires OpenLine(tail) && ((exists n :: LineGives(tail, n)) || LineOther(tail))
    ensures Header(tail, length, first) == Refused(Io(UnexpectedEof), [])
  {
    LineDecides(tail);
    assert tail + [] == tail;
    HeaderAt(tail, tail, [], length, first);
    var next := if FieldOf(tail).Length? then Some(FieldOf(tail).n) else length;
    assert Header([], next, false) == Refused(Io(UnexpectedEof), []);
  }

  /** The header is whole, and the body shorter than it says. */
  ghost predicate BodyShort(s: seq<Byte>, lines: seq<seq<Byte>>, blank: seq<Byte>, body: seq<Byte>, n: nat) {
    && AllPassable(lines) && LineBlank(blank) && Ends(blank, body) && LastGives(lines, n) && |body| < n
    && s == Flat(lines) + blank + body
  }

  /** Every refusal and its reason: in the header, or for want of a body. */
  ghost predicate Refuses(s: seq<Byte>, e: WireError, rest: seq<Byte>) {
    || (exists lines, tail :: AllPassable(lines) && s == Flat(lines) + tail && Refusal(lines, tail, e, rest))
    || (rest == [] && e == Io(UnexpectedEof) && exists lines, blank, body, n :: BodyShort(s, lines, blank, body, n))
  }

  lemma RefusalsAreAll(s: seq<Byte>, e: WireError, rest: seq<Byte>)
    requires ReadFrame(s) == Refused(e, rest)
    ensures Refuses(s, e, rest)
  {
    if Header(s, None, true).Refused? {
      var lines, tail := TakesLines(s);
      PassableIsAcceptable(lines);
      RefusalAt(lines, tail, e, rest);
    } else {
      var lines, blank := HeaderParts(s, None, true);
      var h := Header(s, None, true);
      PassableIsAcceptable(lines);
      LastLengthIs(lines);
      LineDecides(blank);
      assert BodyShort(s, lines, blank, h.rest, h.value);
    }
  }

  lemma WholeHeader(lines: seq<seq<Byte>>, blank: seq<Byte>, rest: seq<Byte>, n: nat)
    requires AllAcceptable(lines) && LastLength(lines, None) == Some(n) && FieldOf(blank).Blank? && Ends(blank, rest)
    ensures Header(Flat(lines) + blank + rest, None, true) == Got(n, rest)
  {
    Associate(Flat(lines), blank, rest);
    GoesPast(lines, blank + rest, None, true);
    HeaderAt(blank + rest, blank, rest, Some(n), lines == []);
  }

  lemma Associate(a: seq<Byte>, b: seq<Byte>, c: seq<Byte>)
    ensures a + b + c == a + (b + c)
  {
  }

  lemma ShortBodyRefused(s: seq<Byte>, lines: seq<seq<Byte>>, blank: seq<Byte>, body: seq<Byte>, n: nat)
    requires BodyShort(s, lines, blank, body, n)
    ensures ReadFrame(s) == Refused(Io(UnexpectedEof), [])
  {
    PassableIsAcceptable(lines);
    LastLengthIs(lines);
    LineDecides(blank);
    WholeHeader(lines, blank, body, n);
  }

  /** The reader refuses a stream, with the error and the unread bytes, exactly for one of these reasons. */
  lemma RefusesExactly(s: seq<Byte>, e: WireError, rest: seq<Byte>)
    ensures ReadFrame(s) == Refused(e, rest) <==> Refuses(s, e, rest)
  {
    if ReadFrame(s) == Refused(e, rest) { RefusalsAreAll(s, e, rest); }
    forall lines, tail | AllPassable(lines) && s == Flat(lines) + tail && Refusal(lines, tail, e, rest)
      ensures ReadFrame(s) == Refused(e, rest)
    {
      PassableIsAcceptable(lines);
      RefusalRefuses(lines, tail, e, rest);
    }
    forall lines, blank, body, n | BodyShort(s, lines, blank, body, n) ensures ReadFrame(s) == Refused(Io(UnexpectedEof), []) {
      ShortBodyRefused(s, lines, blank, body, n);
    }
  }

  // ----- what is written

  ghost predicate IsDecimal(digits: seq<Byte>, n: nat) {
    digits != [] && AllDigits(digits) && Value(digits) == n && (digits[0] == 48 ==> |digits| == 1)
  }

  lemma {:induction false} DecimalHasNoLeadingZero(n: nat)
    ensures Decimal(n)[0] == 48 ==> n == 0
  {
    if n >= 10 { DecimalHasNoLeadingZero(n / 10); }
  }

  /** A frame to the byte: the name, one space, the body's length without leading zeros, two line ends, the body. */
  lemma FrameLayout(body: seq<Byte>)
    ensures exists digits :: IsDecimal(digits, |body|) && Frame(body) == Name() + [32] + digits + [13, 10, 13, 10] + body
  {
    var digits := Decimal(|body|);
    DecimalNumber(|body|);
    NumberIsValue(digits);
    DecimalHasNoLeadingZero(|body|);
    assert IsDecimal(digits, |body|);
    assert Frame(body) == Name() + [32] + digits + [13, 10, 13, 10] + body;
  }
}
