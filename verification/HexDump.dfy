/** The hex dump (`mcp-tools/src/format.rs`), and a decoder that reads it back. */
module HexDumps {
  import opened Types

  const DIGITS: string := "0123456789abcdef"

  function Digit(d: int): char
    requires 0 <= d < 16
  {
    DIGITS[d]
  }

  function Value(c: char): int {
    if '0' <= c <= '9' then c as int - '0' as int
    else if 'a' <= c <= 'f' then c as int - 'a' as int + 10
    else 0
  }

  lemma DigitValue(d: int)
    requires 0 <= d < 16
    ensures Value(Digit(d)) == d && Digit(d) != ':' && Digit(d) != ' ' && Digit(d) != '\n'
  {
    assert DIGITS == ['0', '1', '2', '3', '4', '5', '6', '7', '8', '9', 'a', 'b', 'c', 'd', 'e', 'f'];
  }

  // ----- the format

  /** `{:x}`. */
  function Hex(n: nat): string {
    if n < 16 then [Digit(n)] else Hex(n / 16) + [Digit(n % 16)]
  }

  function Zeros(n: nat): (r: string)
    ensures |r| == n && forall i | 0 <= i < n :: r[i] == '0'
  {
    if n == 0 then "" else ['0'] + Zeros(n - 1)
  }

  /** `{:08x}`: at least eight digits. */
  function Hex8(n: nat): string {
    if |Hex(n)| >= 8 then Hex(n) else Zeros(8 - |Hex(n)|) + Hex(n)
  }

  /** A column of a row: a byte, or nothing past the end of the data. */
  datatype Cell = Blank | Full(b: Byte)

  /** The sixteen columns of a row. */
  function Padded(row: seq<Byte>): (r: seq<Cell>)
    ensures |r| == 16 && forall i | 0 <= i < 16 :: r[i] == if i < |row| then Full(row[i]) else Blank
  {
    seq(16, i requires 0 <= i < 16 => if i < |row| then Full(row[i]) else Blank)
  }

  /** One byte column: `{:02x} `, or three spaces past the end of the row. */
  function CellText(c: Cell): (r: string)
    ensures |r| == 3
  {
    match c
    case Blank => "   "
    case Full(b) => [Digit(b / 16), Digit(b % 16), ' ']
  }

  function Columns(cells: seq<Cell>): string {
    if cells == [] then ""
    else
      var last := |cells| - 1;
      Columns(cells[..last]) + (if last == 8 then " " else "") + CellText(cells[last])
  }

  function GutterChar(c: Cell): char {
    match c
    case Blank => ' '
    case Full(b) => if 0x20 <= b <= 0x7e then b as char else '.'
  }

  function Gutter(cells: seq<Cell>): string {
    if cells == [] then "" else Gutter(cells[..|cells| - 1]) + [GutterChar(cells[|cells| - 1])]
  }

  function Body(row: seq<Byte>): string {
    Columns(Padded(row)) + " |" + Gutter(Padded(row)) + "|"
  }

  function Row(row: seq<Byte>, address: nat): string {
    "0x" + Hex8(address) + ": " + Body(row)
  }

  function RowCount(n: nat): nat {
    (n + 15) / 16
  }

  function Slice(data: seq<Byte>, k: nat): seq<Byte>
    requires 16 * k < |data|
  {
    data[16 * k..if 16 * k + 16 < |data| then 16 * k + 16 else |data|]
  }

  /** Row k holds bytes 16k.. and is labelled with the wrapped address. */
  function RowAt(data: seq<Byte>, start: nat, k: nat): string
    requires 16 * k < |data|
  {
    Row(Slice(data, k), Label(start, 16 * k))
  }

  /** The address a row is labelled with: 64-bit addition. */
  function Label(start: nat, offset: nat): nat {
    (start + offset) % TWO64
  }

  function Rows(data: seq<Byte>, start: nat): (r: seq<string>)
    ensures |r| == RowCount(|data|)
    ensures forall k | 0 <= k < |r| :: r[k] == RowAt(data, start, k)
  {
    seq(RowCount(|data|), k requires 0 <= k < RowCount(|data|) => RowAt(data, start, k))
  }

  function Join(rows: seq<string>): string {
    if |rows| == 0 then ""
    else if |rows| == 1 then rows[0]
    else Join(rows[..|rows| - 1]) + "\n" + rows[|rows| - 1]
  }

  lemma ColumnsNext(cells: seq<Cell>, i: nat)
    requires i < |cells|
    ensures i == 8 ==> Columns(cells[..i + 1]) == Columns(cells[..i]) + " " + CellText(cells[i])
    ensures i != 8 ==> Columns(cells[..i + 1]) == Columns(cells[..i]) + CellText(cells[i])
  {
    assert cells[..i + 1][..i] == cells[..i];
    assert Columns(cells[..i]) + "" == Columns(cells[..i]);
  }

  /** The byte columns of one row. */
  method FormatColumns(row: seq<Byte>) returns (sb: string)
    ensures sb == Columns(Padded(row))
  {
    sb := "";
    ghost var cells := Padded(row);
    for i := 0 to 16
      invariant sb == Columns(cells[..i])
    {
      ColumnsNext(cells, i);
      if i == 8 {
        sb := sb + " ";
      }
      if i < |row| {
        sb := sb + [Digit(row[i] / 16), Digit(row[i] % 16), ' '];
      } else {
        sb := sb + "   ";
      }
    }
    assert cells[..16] == cells;
  }

  /** The ASCII gutter of one row. */
  method FormatGutter(row: seq<Byte>) returns (sb: string)
    ensures sb == Gutter(Padded(row))
  {
    sb := "";
    ghost var cells := Padded(row);
    for i := 0 to 16
      invariant sb == Gutter(cells[..i])
    {
      assert cells[..i + 1][..i] == cells[..i];
      if i < |row| {
        var b := row[i];
        sb := sb + [if 0x20 <= b <= 0x7e then b as char else '.'];
      } else {
        sb := sb + " ";
      }
    }
    assert cells[..16] == cells;
  }

  /** The text of the first k rows, with the line feed that announces another. */
  function Partial(rows: seq<string>, k: nat): string
    requires k <= |rows|
  {
    Join(rows[..k]) + (if 0 < k < |rows| then "\n" else "")
  }

  /** One row, up to its closing bar. */
  method FormatRow(row: seq<Byte>, address: nat) returns (line: string)
    ensures line == Row(row, address)
  {
    var columns := FormatColumns(row);
    var gutter := FormatGutter(row);
    line := "0x" + Hex8(address) + ": " + (columns + " |" + gutter + "|");
  }

  /** `format_hex_dump`. */
  method FormatHexDump(data: seq<Byte>, start: nat) returns (sb: string)
    requires start < TWO64
    ensures sb == Join(Rows(data, start))
  {
    sb := "";
    var offset := 0;
    ghost var rows := Rows(data, start);
    ghost var k := 0;
    PartialStart(rows);
    while offset < |data|
      invariant offset == 16 * k && k <= |rows| && (offset < |data| <==> k < |rows|)
      invariant sb == Partial(rows, k)
    {
      var end := if offset + 16 < |data| then offset + 16 else |data|;
      var line := FormatRow(data[offset..end], Label(start, offset));
      RowStartingAt(data, start, offset, k);
      PartialNext(rows, k);
      sb := sb + line;
      if offset + 16 < |data| {
        sb := sb + "\n";
      }
      offset := offset + 16;
      k := k + 1;
    }
    PartialEnd(rows);
  }

  lemma RowStartingAt(data: seq<Byte>, start: nat, offset: nat, k: nat)
    requires offset == 16 * k < |data|
    ensures var end := if offset + 16 < |data| then offset + 16 else |data|;
            k < RowCount(|data|) && Rows(data, start)[k] == Row(data[offset..end], Label(start, offset))
  {
    var end := if offset + 16 < |data| then offset + 16 else |data|;
    assert Slice(data, k) == data[offset..end];
  }

  lemma PartialStart(rows: seq<string>)
    ensures Partial(rows, 0) == ""
  {
    assert rows[..0] == [];
  }

  lemma PartialEnd(rows: seq<string>)
    ensures Partial(rows, |rows|) == Join(rows)
  {
    assert rows[..|rows|] == rows;
  }

  lemma PartialNext(rows: seq<string>, k: nat)
    requires k < |rows|
    ensures k + 1 < |rows| ==> Partial(rows, k + 1) == Partial(rows, k) + rows[k] + "\n"
    ensures k + 1 == |rows| ==> Partial(rows, k + 1) == Partial(rows, k) + rows[k]
  {
    JoinNext(rows, k);
  }

  lemma JoinNext(rows: seq<string>, k: nat)
    requires k < |rows|
    ensures Join(rows[..k + 1]) == Join(rows[..k]) + (if k > 0 then "\n" else "") + rows[k]
  {
    if k > 0 {
      assert rows[..k + 1][..k] == rows[..k];
    } else {
      assert rows[..0] == [];
    }
  }

  // ----- the decoder

  /** Split at line feeds. */
  function Split(text: string): (r: seq<string>)
    ensures |r| >= 1
  {
    if text == "" then [""]
    else
      var r := Split(text[..|text| - 1]);
      var c := text[|text| - 1];
      if c == '\n' then r + [""] else r[..|r| - 1] + [r[|r| - 1] + [c]]
  }

  /** Number of characters before the first colon. */
  function Colon(s: string): (i: nat)
    ensures i <= |s|
  {
    if s == "" || s[0] == ':' then 0 else 1 + Colon(s[1..])
  }

  function Number(s: string): nat {
    if s == "" then 0 else 16 * Number(s[..|s| - 1]) + Value(s[|s| - 1])
  }

  /** Where column i starts: three characters each, one more after the eighth. */
  function Column(i: nat): nat {
    3 * i + (if i >= 8 then 1 else 0)
  }

  function Bytes(columns: string, i: nat): seq<int>
    decreases |columns| - Column(i)
  {
    if i >= 16 || Column(i) + 1 >= |columns| || columns[Column(i)] == ' ' then []
    else [16 * Value(columns[Column(i)]) + Value(columns[Column(i) + 1])] + Bytes(columns, i + 1)
  }

  function RowAddress(line: string): nat
  {
    if |line| < 2 then 0 else Number(line[2..][..Colon(line[2..])])
  }

  function RowBytes(line: string): seq<int> {
    if |line| < 2 || Colon(line[2..]) + 4 > |line| then []
    else Bytes(line[Colon(line[2..]) + 4..], 0)
  }

  function AllBytes(lines: seq<string>): seq<int> {
    if lines == [] then [] else AllBytes(lines[..|lines| - 1]) + RowBytes(lines[|lines| - 1])
  }

  datatype Dump = Dump(data: seq<int>, start: nat)

  function Decode(text: string): Dump {
    Dump(AllBytes(Split(text)), RowAddress(Split(text)[0]))
  }

  // ----- numbers

  predicate NoBreak(s: string) {
    forall i | 0 <= i < |s| :: s[i] != '\n'
  }

  predicate Plain(s: string) {
    forall i | 0 <= i < |s| :: s[i] != ':' && s[i] != '\n'
  }

  lemma {:induction false} HexNumber(n: nat)
    ensures Number(Hex(n)) == n && Plain(Hex(n)) && |Hex(n)| >= 1
  {
    if n < 16 {
      DigitValue(n);
      assert [Digit(n)][..0] == "";
    } else {
      HexNumber(n / 16);
      DigitValue(n % 16);
      assert Hex(n)[..|Hex(n)| - 1] == Hex(n / 16);
    }
  }

  lemma {:induction false} ZerosNumber(k: nat, s: string)
    ensures Number(Zeros(k) + s) == Number(s)
    decreases |s|, k
  {
    if s == "" {
      assert Zeros(k) + s == Zeros(k);
      if k > 0 {
        assert Zeros(k)[..k - 1] == Zeros(k - 1) + "";
        ZerosNumber(k - 1, "");
      }
    } else {
      assert (Zeros(k) + s)[..|Zeros(k) + s| - 1] == Zeros(k) + s[..|s| - 1];
      ZerosNumber(k, s[..|s| - 1]);
    }
  }

  lemma {:induction false} Hex8Number(n: nat)
    ensures Number(Hex8(n)) == n && Plain(Hex8(n))
  {
    HexNumber(n);
    if |Hex(n)| < 8 { ZerosNumber(8 - |Hex(n)|, Hex(n)); }
  }

  lemma {:induction false} ColonAfterPlain(s: string, t: string)
    requires Plain(s) && t != "" && t[0] == ':'
    ensures Colon(s + t) == |s|
  {
    if s == "" {
      assert s + t == t;
    } else {
      assert (s + t)[1..] == s[1..] + t;
      ColonAfterPlain(s[1..], t);
    }
  }

  // ----- one row

  lemma {:induction false} ColumnsShape(cells: seq<Cell>)
    requires |cells| <= 16
    ensures |Columns(cells)| == 3 * |cells| + (if |cells| > 8 then 1 else 0)
    ensures NoBreak(Columns(cells))
  {
    if cells != [] {
      ColumnsShape(cells[..|cells| - 1]);
      CellPlain(cells[|cells| - 1]);
    }
  }

  lemma {:induction false} ColumnHolds(cells: seq<Cell>, i: nat)
    requires i < |cells| <= 16
    ensures Column(i) + 2 < |Columns(cells)|
    ensures Columns(cells)[Column(i)] == CellText(cells[i])[0] && Columns(cells)[Column(i) + 1] == CellText(cells[i])[1]
  {
    var last := |cells| - 1;
    ColumnsShape(cells);
    ColumnsShape(cells[..last]);
    if i < last {
      ColumnHolds(cells[..last], i);
    }
  }

  lemma CellPlain(c: Cell)
    ensures NoBreak(CellText(c))
    ensures c.Full? ==> CellText(c)[0] != ' ' && 16 * Value(CellText(c)[0]) + Value(CellText(c)[1]) == c.b
    ensures c.Blank? ==> CellText(c)[0] == ' '
  {
    if c.Full? {
      DigitValue(c.b / 16);
      DigitValue(c.b % 16);
    }
  }

  lemma {:induction false} GutterShape(cells: seq<Cell>)
    ensures |Gutter(cells)| == |cells| && NoBreak(Gutter(cells))
  {
    if cells != [] { GutterShape(cells[..|cells| - 1]); }
  }

  lemma ColumnReads(row: seq<Byte>, text: string, i: nat)
    requires i < 16 && Columns(Padded(row)) <= text
    ensures Column(i) + 1 < |text| && (text[Column(i)] == ' ' <==> i >= |row|)
    ensures i < |row| ==> 16 * Value(text[Column(i)]) + Value(text[Column(i) + 1]) == row[i]
  {
    ColumnHolds(Padded(row), i);
    CellPlain(Padded(row)[i]);
  }

  lemma {:induction false} BytesOfRow(row: seq<Byte>, text: string, i: nat)
    requires |row| <= 16 && i <= |row| && Columns(Padded(row)) <= text
    ensures Bytes(text, i) == row[i..]
    decreases 16 - i
  {
    if i < 16 {
      ColumnReads(row, text, i);
      if i < |row| {
        BytesOfRow(row, text, i + 1);
        assert row[i..] == [row[i]] + row[i + 1..];
      }
    }
  }

  /** How a line of the shape `0x<digits>: <rest>` is taken apart. */
  lemma {:induction false} LineParts(digits: string, rest: string)
    requires Plain(digits)
    ensures var line := "0x" + digits + ": " + rest;
            RowAddress(line) == Number(digits) && RowBytes(line) == Bytes(rest, 0)
  {
    var line := "0x" + digits + ": " + rest;
    assert line[2..] == digits + (": " + rest);
    ColonAfterPlain(digits, ": " + rest);
    assert line[2..][..|digits|] == digits;
    assert line[|digits| + 4..] == rest;
  }

  lemma BodyHasNoBreak(row: seq<Byte>)
    ensures NoBreak(Body(row))
  {
    ColumnsShape(Padded(row));
    GutterShape(Padded(row));
  }

  /** A row reads back as its address and its bytes, and has no line feed in it. */
  lemma {:induction false} RowReadsBack(row: seq<Byte>, a: nat)
    requires |row| <= 16
    ensures RowAddress(Row(row, a)) == a && RowBytes(Row(row, a)) == row && NoBreak(Row(row, a))
  {
    var rest := Body(row);
    Hex8Number(a);
    BodyHasNoBreak(row);
    LineParts(Hex8(a), rest);
    BytesOfBody(row);
  }

  lemma BytesOfBody(row: seq<Byte>)
    requires |row| <= 16
    ensures Bytes(Body(row), 0) == row
  {
    assert Columns(Padded(row)) <= Body(row);
    BytesOfRow(row, Body(row), 0);
    assert row[0..] == row;
  }

  // ----- where everything stands in a row

  predicate LowerHex(s: string) {
    forall i | 0 <= i < |s| :: '0' <= s[i] <= '9' || 'a' <= s[i] <= 'f'
  }

  lemma DigitIsLower(d: int)
    requires 0 <= d < 16
    ensures '0' <= Digit(d) <= '9' || 'a' <= Digit(d) <= 'f'
    ensures d > 0 ==> Digit(d) != '0'
  {
    assert DIGITS == ['0', '1', '2', '3', '4', '5', '6', '7', '8', '9', 'a', 'b', 'c', 'd', 'e', 'f'];
  }

  lemma {:induction false} HexDigits(n: nat)
    ensures Hex(n) != "" && LowerHex(Hex(n)) && (n > 0 ==> Hex(n)[0] != '0')
  {
    if n < 16 {
      DigitIsLower(n);
    } else {
      HexDigits(n / 16);
      DigitIsLower(n % 16);
    }
  }

  /** The address column: at least eight lower-case digits, more only as needed. */
  lemma AddressDigits(a: nat)
    ensures |Hex8(a)| >= 8 && LowerHex(Hex8(a)) && Number(Hex8(a)) == a && (|Hex8(a)| > 8 ==> Hex8(a)[0] != '0')
  {
    HexDigits(a);
    Hex8Number(a);
    if |Hex(a)| < 8 {
      assert LowerHex(Zeros(8 - |Hex(a)|));
    } else if a == 0 {
      assert |Hex(a)| == 1;
    }
  }

  lemma {:induction false} GutterHolds(cells: seq<Cell>, i: nat)
    requires i < |cells|
    ensures |Gutter(cells)| == |cells| && Gutter(cells)[i] == GutterChar(cells[i])
  {
    GutterShape(cells);
    GutterShape(cells[..|cells| - 1]);
    if i < |cells| - 1 { GutterHolds(cells[..|cells| - 1], i); }
  }

  /** The space behind each column. */
  lemma {:induction false} ColumnGaps(cells: seq<Cell>, i: nat)
    requires i < |cells| <= 16
    ensures Column(i) + 2 < |Columns(cells)| && Columns(cells)[Column(i) + 2] == ' '
  {
    var last := |cells| - 1;
    ColumnsShape(cells);
    ColumnsShape(cells[..last]);
    CellEndsInSpace(cells[last]);
    if i < last { ColumnGaps(cells[..last], i); }
  }

  /** The gap before column 8. */
  lemma {:induction false} MiddleGap(cells: seq<Cell>)
    requires 8 < |cells| <= 16
    ensures |Columns(cells)| > 24 && Columns(cells)[24] == ' '
  {
    var last := |cells| - 1;
    ColumnsShape(cells);
    ColumnsShape(cells[..last]);
    if last > 8 { MiddleGap(cells[..last]); }
  }

  lemma CellEndsInSpace(c: Cell)
    ensures CellText(c)[2] == ' '
  {
  }

  /** The text of one byte column. */
  predicate ColumnAt(body: string, row: seq<Byte>, i: nat)
    requires i < 16 && |body| == 68
  {
    var c := Column(i);
    && body[c + 2] == ' '
    && (i < |row| ==> LowerHex([body[c], body[c + 1]]) && 16 * Value(body[c]) + Value(body[c + 1]) == row[i])
    && (i >= |row| ==> body[c] == ' ' && body[c + 1] == ' ')
  }

  /** The gutter: the byte itself if it is printable ASCII, a dot if not, a space past the data. */
  predicate GutterAt(body: string, row: seq<Byte>, i: nat)
    requires i < 16 && |body| == 68
  {
    var g := 51 + i;
    && (i < |row| && 0x20 <= row[i] <= 0x7e ==> body[g] as int == row[i])
    && (i < |row| && !(0x20 <= row[i] <= 0x7e) ==> body[g] == '.')
    && (i >= |row| ==> body[g] == ' ')
  }

  lemma BodyParts(row: seq<Byte>)
    ensures |Body(row)| == 68 && Body(row)[24] == ' ' && Body(row)[49..51] == " |" && Body(row)[67] == '|'
    ensures Body(row)[..49] == Columns(Padded(row)) && Body(row)[51..67] == Gutter(Padded(row))
  {
    ColumnsShape(Padded(row));
    GutterShape(Padded(row));
    MiddleGap(Padded(row));
  }

  lemma CellDigits(c: Cell)
    ensures c.Full? ==> LowerHex([CellText(c)[0], CellText(c)[1]])
    ensures c.Blank? ==> CellText(c)[0] == ' ' && CellText(c)[1] == ' '
  {
    if c.Full? {
      DigitIsLower(c.b / 16);
      DigitIsLower(c.b % 16);
    }
  }

  lemma BodyAt(row: seq<Byte>, i: nat)
    requires |row| <= 16 && i < 16
    ensures |Body(row)| == 68 && ColumnAt(Body(row), row, i) && GutterAt(Body(row), row, i)
  {
    var cells := Padded(row);
    BodyParts(row);
    ColumnHolds(cells, i);
    ColumnGaps(cells, i);
    CellPlain(cells[i]);
    CellDigits(cells[i]);
    GutterHolds(cells, i);
    var c := Column(i);
    assert Body(row)[..49][c] == Body(row)[c] && Body(row)[..49][c + 1] == Body(row)[c + 1] && Body(row)[..49][c + 2] == Body(row)[c + 2];
    assert Body(row)[51..67][i] == Body(row)[51 + i];
  }

  lemma TakenApart(digits: string, body: string)
    ensures var line, h := "0x" + digits + ": " + body, |digits|;
            && |line| == h + 4 + |body| && line[..2] == "0x" && line[2..2 + h] == digits
            && line[2 + h..4 + h] == ": " && line[4 + h..] == body
  {
  }

  /**
   * A row, character by character: `0x`, the address in at least eight lower-case digits, `: `,
   * sixteen columns with a gap after the eighth, ` |`, the gutter and `|`.
   */
  lemma RowLayout(row: seq<Byte>, a: nat)
    requires |row| <= 16
    ensures var line, h := Row(row, a), |Hex8(a)|;
            && |line| == h + 72 && h >= 8 && line[..2] == "0x" && line[2 + h..4 + h] == ": "
            && LowerHex(line[2..2 + h]) && Number(line[2..2 + h]) == a && (h > 8 ==> line[2] != '0')
            && var body := line[4 + h..];
               && |body| == 68 && body[24] == ' ' && body[49..51] == " |" && body[67] == '|'
               && forall i | 0 <= i < 16 :: ColumnAt(body, row, i) && GutterAt(body, row, i)
  {
    AddressDigits(a);
    BodyParts(row);
    TakenApart(Hex8(a), Body(row));
    forall i | 0 <= i < 16 ensures ColumnAt(Body(row), row, i) && GutterAt(Body(row), row, i) {
      BodyAt(row, i);
    }
  }

  // ----- the whole dump

  /** The last line goes on with `b`. */
  function GoOn(lines: seq<string>, b: string): (r: seq<string>)
    requires lines != []
    ensures |r| == |lines|
  {
    lines[..|lines| - 1] + [lines[|lines| - 1] + b]
  }

  lemma SplitOne(a: string, c: char)
    ensures Split(a + [c]) == if c == '\n' then Split(a) + [""] else GoOn(Split(a), [c])
  {
    assert (a + [c])[..|a|] == a;
  }

  lemma GoOnTwice(lines: seq<string>, b: string, c: string)
    requires lines != []
    ensures GoOn(GoOn(lines, b), c) == GoOn(lines, b + c)
  {
    var last := lines[|lines| - 1];
    assert last + b + c == last + (b + c);
  }

  lemma {:induction false} SplitAppend(a: string, b: string)
    requires NoBreak(b)
    ensures Split(a + b) == GoOn(Split(a), b)
    decreases |b|
  {
    if b == "" {
      GoOnWithNothing(Split(a), a);
    } else {
      var init, c := b[..|b| - 1], b[|b| - 1];
      SplitAppend(a, init);
      SplitAppendOne(a, init, c);
      Rejoin(a, b);
    }
  }

  lemma GoOnWithNothing(lines: seq<string>, a: string)
    requires lines != []
    ensures GoOn(lines, "") == lines && a + "" == a
  {
    assert lines[|lines| - 1] + "" == lines[|lines| - 1];
  }

  lemma Rejoin(a: string, b: string)
    requires b != ""
    ensures b[..|b| - 1] + [b[|b| - 1]] == b && a + b[..|b| - 1] + [b[|b| - 1]] == a + b
  {
  }

  lemma SplitAppendOne(a: string, b: string, c: char)
    requires Split(a + b) == GoOn(Split(a), b) && c != '\n'
    ensures Split(a + b + [c]) == GoOn(Split(a), b + [c])
  {
    SplitOne(a + b, c);
    GoOnTwice(Split(a), b, [c]);
  }

  lemma {:induction false} SplitJoin(rows: seq<string>)
    requires |rows| >= 1 && forall i | 0 <= i < |rows| :: NoBreak(rows[i])
    ensures Split(Join(rows)) == rows
  {
    var last := |rows| - 1;
    if last == 0 {
      SplitLine(rows[0]);
      assert [rows[0]] == rows;
    } else {
      SplitJoin(rows[..last]);
      SplitJoinOne(Join(rows[..last]), rows[..last], rows[last]);
      assert rows[..last] + [rows[last]] == rows;
    }
  }

  lemma SplitLine(row: string)
    requires NoBreak(row)
    ensures Split(row) == [row]
  {
    SplitAppend("", row);
    assert "" + row == row && Split("") == [""];
  }

  lemma SplitJoinOne(head: string, rows: seq<string>, row: string)
    requires Split(head) == rows && NoBreak(row)
    ensures Split(head + "\n" + row) == rows + [row]
  {
    SplitOne(head, '\n');
    SplitAppend(head + "\n", row);
    assert "" + row == row;
  }

  lemma SliceNext(data: seq<Byte>, k: nat)
    requires 16 * k < |data|
    ensures data[..16 * k] + Slice(data, k) == data[..if 16 * (k + 1) < |data| then 16 * (k + 1) else |data|]
  {
  }

  /** Line k carries the bytes and the label of row k, and is one line. */
  ghost predicate ReadsAs(line: string, data: seq<Byte>, start: nat, k: nat)
    requires 16 * k < |data|
  {
    && NoBreak(line)
    && RowAddress(line) == (start + 16 * k) % TWO64
    && RowBytes(line) == Slice(data, k)
  }

  lemma {:induction false} BytesOfRows(rows: seq<string>, data: seq<Byte>, start: nat, k: nat)
    requires k <= |rows| == RowCount(|data|)
    requires forall i | 0 <= i < |rows| :: ReadsAs(rows[i], data, start, i)
    ensures AllBytes(rows[..k]) == data[..if 16 * k < |data| then 16 * k else |data|]
  {
    if k > 0 {
      BytesOfRows(rows, data, start, k - 1);
      assert rows[..k][..k - 1] == rows[..k - 1];
      SliceNext(data, k - 1);
      assert ReadsAs(rows[k - 1], data, start, k - 1);
    }
  }

  lemma {:induction false} EachRowReadsBack(data: seq<Byte>, start: nat, k: nat)
    requires k < RowCount(|data|)
    ensures ReadsAs(RowAt(data, start, k), data, start, k)
  {
    RowReadsBack(Slice(data, k), Label(start, 16 * k));
  }

  /** Any lines that read as the rows of the data decode to the data and its address. */
  lemma {:induction false} DecodeLines(rows: seq<string>, data: seq<Byte>, start: nat)
    requires data != [] && start < TWO64 && |rows| == RowCount(|data|)
    requires forall i | 0 <= i < |rows| :: ReadsAs(rows[i], data, start, i)
    ensures Split(Join(rows)) == rows && Decode(Join(rows)) == Dump(data, start)
  {
    forall i | 0 <= i < |rows| ensures NoBreak(rows[i]) {
      assert ReadsAs(rows[i], data, start, i);
    }
    SplitJoin(rows);
    AllBytesOfRows(rows, data, start);
    FirstLabel(rows[0], data, start);
  }

  lemma AllBytesOfRows(rows: seq<string>, data: seq<Byte>, start: nat)
    requires |rows| == RowCount(|data|)
    requires forall i | 0 <= i < |rows| :: ReadsAs(rows[i], data, start, i)
    ensures AllBytes(rows) == data
  {
    var k := |rows|;
    BytesOfRows(rows, data, start, k);
    assert rows[..k] == rows;
    assert 16 * k >= |data|;
  }

  lemma FirstLabel(line: string, data: seq<Byte>, start: nat)
    requires data != [] && start < TWO64 && ReadsAs(line, data, start, 0)
    ensures RowAddress(line) == start
  {
  }

  /**
   * The dump can be read back: for all non-empty data and every 64-bit start address the
   * decoder recovers both from the text; there is one line per started group of 16 bytes, and
   * line k is labelled start + 16k modulo 2^64.
   */
  lemma {:induction false} DecodeInvertsFormat(data: seq<Byte>, start: nat)
    requires data != [] && start < TWO64
    ensures Decode(Join(Rows(data, start))) == Dump(data, start)
    ensures Split(Join(Rows(data, start))) == Rows(data, start)
    ensures forall k | 0 <= k < RowCount(|data|) :: ReadsAs(Rows(data, start)[k], data, start, k)
  {
    var rows := Rows(data, start);
    forall k | 0 <= k < |rows| ensures ReadsAs(rows[k], data, start, k) {
      EachRowReadsBack(data, start, k);
    }
    DecodeLines(rows, data, start);
  }
}
