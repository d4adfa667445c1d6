/** The CSV encoder of the finance exports, against a reader of section 2 of RFC 4180. */
module ExportCsv {
  import opened Wrappers
  import opened Text

  const BYTE_ORDER_MARK: string := "\U{FEFF}"
  const QUOTE: char := '"'
  const COMMA: char := ','
  const CR: char := '\r'
  const LF: char := '\n'

  predicate IsFormulaStart(c: char) {
    c == '=' || c == '+' || c == '-' || c == '@' || c == '\t' || c == '\r'
  }

  /** Prefixes a single quote to a cell a spreadsheet would read as a formula. */
  function Neutralize(value: string): string {
    if value != [] && IsFormulaStart(value[0]) then ['\''] + value else value
  }

  /** Every double quote doubled. */
  function Doubled(value: string): string {
    if value == [] then []
    else Doubled(value[..|value| - 1]) + if value[|value| - 1] == QUOTE then [QUOTE, QUOTE] else [value[|value| - 1]]
  }

  function EncodeCell(value: string): string {
    [QUOTE] + Doubled(Neutralize(value)) + [QUOTE]
  }

  /** Cells joined by commas. */
  function Cells(row: seq<string>): string {
    if row == [] then []
    else if |row| == 1 then EncodeCell(row[0])
    else Cells(row[..|row| - 1]) + [COMMA] + EncodeCell(row[|row| - 1])
  }

  function Line(row: seq<string>): string {
    Cells(row) + [CR, LF]
  }

  function Lines(rows: seq<seq<string>>): string {
    if rows == [] then [] else Lines(rows[..|rows| - 1]) + Line(rows[|rows| - 1])
  }

  predicate AllWide(rows: seq<seq<string>>, width: nat) {
    forall i | 0 <= i < |rows| :: |rows[i]| == width
  }

  function Encoded(header: seq<string>, rows: seq<seq<string>>): string {
    BYTE_ORDER_MARK + Lines([header] + rows)
  }

  lemma LinesSnoc(rows: seq<seq<string>>, row: seq<string>)
    ensures Lines(rows + [row]) == Lines(rows) + Line(row)
  {
    hide Line;
    assert (rows + [row])[..|rows|] == rows;
  }

  lemma OneLine(row: seq<string>)
    ensures Lines([row]) == Line(row)
  {
    LinesSnoc([], row);
    assert [] + [row] == [row];
  }

  /** No text when some row is not as wide as the header. */
  method EncodeCsv(header: seq<string>, rows: seq<seq<string>>) returns (text: Option<string>)
    ensures text.Some? <==> AllWide(rows, |header|)
    ensures text.Some? ==> text.value == Encoded(header, rows)
  {
    hide Lines, Line;
    var out := BYTE_ORDER_MARK + Line(header);
    OneLine(header);
    assert [header] + rows[..0] == [header];
    for i := 0 to |rows|
      invariant AllWide(rows[..i], |header|)
      invariant out == BYTE_ORDER_MARK + Lines([header] + rows[..i])
    {
      if |rows[i]| != |header| {
        return None;
      }
      LinesSnoc([header] + rows[..i], rows[i]);
      assert rows[..i + 1] == rows[..i] + [rows[i]];
      assert [header] + rows[..i + 1] == ([header] + rows[..i]) + [rows[i]];
      out := out + Line(rows[i]);
    }
    assert rows[..|rows|] == rows;
    return Some(out);
  }

  // ---------------------------------------------------------------- the reader

  datatype Mode = LineStart | FieldStart | Plain | Quoted | QuoteSeen | CrSeen | Malformed

  datatype Reader = Reader(mode: Mode, field: string, record: seq<string>, records: seq<seq<string>>)

  const FRESH := Reader(LineStart, [], [], [])

  function EndField(r: Reader, mode: Mode): Reader {
    r.(mode := mode, field := [], record := r.record + [r.field])
  }

  /** One character of the file, outside and inside quotes. */
  function Read(r: Reader, c: char): Reader {
    match r.mode
    case Quoted => if c == QUOTE then r.(mode := QuoteSeen) else r.(field := r.field + [c])
    case QuoteSeen =>
      if c == QUOTE then r.(mode := Quoted, field := r.field + [c])
      else if c == COMMA then EndField(r, FieldStart)
      else if c == CR then EndField(r, CrSeen)
      else r.(mode := Malformed)
    case CrSeen =>
      if c == LF then Reader(LineStart, [], [], r.records + [r.record]) else r.(mode := Malformed)
    case Malformed => r
    case Plain =>
      if c == COMMA then EndField(r, FieldStart)
      else if c == CR then EndField(r, CrSeen)
      else if c == QUOTE || c == LF then r.(mode := Malformed)
      else r.(field := r.field + [c])
    case _ =>
      if c == QUOTE then r.(mode := Quoted)
      else if c == COMMA then EndField(r, FieldStart)
      else if c == CR then EndField(r, CrSeen)
      else if c == LF then r.(mode := Malformed)
      else r.(mode := Plain, field := [c])
  }

  function ReadAll(r: Reader, text: string): Reader {
    if text == [] then r else Read(ReadAll(r, text[..|text| - 1]), text[|text| - 1])
  }

  /** The records of a file; the last one may lack its line ending. */
  function Finish(r: Reader): Option<seq<seq<string>>> {
    match r.mode
    case LineStart => Some(r.records)
    case FieldStart => Some(r.records + [r.record + [r.field]])
    case Plain => Some(r.records + [r.record + [r.field]])
    case QuoteSeen => Some(r.records + [r.record + [r.field]])
    case _ => None
  }

  function Decode(text: string): Option<seq<seq<string>>> {
    var body := if BYTE_ORDER_MARK <= text then text[|BYTE_ORDER_MARK|..] else text;
    Finish(ReadAll(FRESH, body))
  }

  // ---------------------------------------------------------------- round trip

  lemma {:induction false} ReadConcat(r: Reader, s: string, t: string)
    ensures ReadAll(r, s + t) == ReadAll(ReadAll(r, s), t)
  {
    if t == [] {
      assert s + t == s;
    } else {
      ReadConcat(r, s, t[..|t| - 1]);
      assert (s + t)[..|s + t| - 1] == s + t[..|t| - 1];
    }
  }

  lemma ReadOne(r: Reader, c: char)
    ensures ReadAll(r, [c]) == Read(r, c)
  {
    assert [c][..0] == [];
  }

  lemma ReadNoText(r: Reader)
    ensures ReadAll(r, []) == r
  {
  }

  /** Inside quotes one character reads back as itself, a quote from its two. */
  lemma ReadDoubledOne(r: Reader, c: char)
    requires r.mode.Quoted?
    ensures ReadAll(r, if c == QUOTE then [QUOTE, QUOTE] else [c]) == r.(field := r.field + [c])
  {
    hide ReadAll;
    if c == QUOTE {
      assert [QUOTE, QUOTE] == [QUOTE] + [QUOTE];
      ReadConcat(r, [QUOTE], [QUOTE]);
      ReadOne(r, QUOTE);
      ReadOne(Read(r, QUOTE), QUOTE);
    } else {
      ReadOne(r, c);
    }
  }

  /** Inside quotes the doubled text reads back as the text. */
  lemma {:induction false} ReadDoubled(r: Reader, value: string)
    requires r.mode.Quoted? && r.field == []
    ensures ReadAll(r, Doubled(value)) == r.(field := value)
  {
    hide ReadAll, Read;
    if value == [] {
      ReadNoText(r);
    } else {
      var n := |value| - 1;
      var c := value[n];
      ReadDoubled(r, value[..n]);
      ReadConcat(r, Doubled(value[..n]), if c == QUOTE then [QUOTE, QUOTE] else [c]);
      ReadDoubledOne(r.(field := value[..n]), c);
      assert value == value[..n] + [c];
    }
  }

  lemma ReadCell(r: Reader, value: string)
    requires (r.mode.LineStart? || r.mode.FieldStart?) && r.field == []
    ensures ReadAll(r, EncodeCell(value)) == r.(mode := QuoteSeen, field := Neutralize(value))
  {
    var body := Doubled(Neutralize(value));
    ReadConcat(r, [QUOTE] + body, [QUOTE]);
    ReadConcat(r, [QUOTE], body);
    ReadOne(r, QUOTE);
    ReadDoubled(r.(mode := Quoted), Neutralize(value));
    ReadOne(r.(mode := Quoted, field := Neutralize(value)), QUOTE);
  }

  function Neutralized(row: seq<string>): (cells: seq<string>)
    ensures |cells| == |row|
  {
    seq(|row|, i requires 0 <= i < |row| => Neutralize(row[i]))
  }

  function NeutralizedRows(rows: seq<seq<string>>): (decoded: seq<seq<string>>)
    ensures |decoded| == |rows|
  {
    seq(|rows|, i requires 0 <= i < |rows| => Neutralized(rows[i]))
  }

  lemma {:induction false} ReadCells(r: Reader, row: seq<string>)
    requires r.mode.LineStart? && r.field == [] && r.record == [] && row != []
    ensures var n := |row| - 1;
            ReadAll(r, Cells(row)) == Reader(QuoteSeen, Neutralize(row[n]), Neutralized(row[..n]), r.records)
  {
    hide EncodeCell, ReadAll, Neutralize;
    var n := |row| - 1;
    if n == 0 {
      ReadCell(r, row[0]);
    } else {
      ReadCells(r, row[..n]);
      OneMoreCell(r, row[..n], row[n]);
      assert row == row[..n] + [row[n]];
    }
  }

  lemma CellsSnoc(init: seq<string>, value: string)
    requires init != []
    ensures Cells(init + [value]) == Cells(init) + [COMMA] + EncodeCell(value)
  {
    hide EncodeCell;
    assert (init + [value])[..|init|] == init;
  }

  lemma NeutralizedSnoc(row: seq<string>)
    requires row != []
    ensures Neutralized(row) == Neutralized(row[..|row| - 1]) + [Neutralize(row[|row| - 1])]
  {
    hide Neutralize;
  }

  lemma ReadJoined(r: Reader, first: string, last: string)
    ensures ReadAll(r, first + [COMMA] + last) == ReadAll(Read(ReadAll(r, first), COMMA), last)
  {
    hide ReadAll, Read;
    ReadConcat(r, first + [COMMA], last);
    ReadConcat(r, first, [COMMA]);
    ReadOne(ReadAll(r, first), COMMA);
  }

  lemma ReadComma(field: string, record: seq<string>, records: seq<seq<string>>)
    ensures Read(Reader(QuoteSeen, field, record, records), COMMA) == Reader(FieldStart, [], record + [field], records)
  {
  }

  /** One more cell after a closed one: the closed field joins the record. */
  lemma ReadNext(r: Reader, cells: string, field: string, record: seq<string>, value: string)
    requires ReadAll(r, cells) == Reader(QuoteSeen, field, record, r.records)
    ensures ReadAll(r, cells + [COMMA] + EncodeCell(value)) == Reader(QuoteSeen, Neutralize(value), record + [field], r.records)
  {
    hide EncodeCell, ReadAll, Read, Neutralize;
    ReadJoined(r, cells, EncodeCell(value));
    ReadComma(field, record, r.records);
    ReadCell(Reader(FieldStart, [], record + [field], r.records), value);
  }

  lemma OneMoreCell(r: Reader, init: seq<string>, value: string)
    requires init != []
    requires ReadAll(r, Cells(init)) ==
             Reader(QuoteSeen, Neutralize(init[|init| - 1]), Neutralized(init[..|init| - 1]), r.records)
    ensures ReadAll(r, Cells(init + [value])) == Reader(QuoteSeen, Neutralize(value), Neutralized(init), r.records)
  {
    hide EncodeCell, ReadAll, Neutralize, Neutralized, Cells;
    CellsSnoc(init, value);
    NeutralizedSnoc(init);
    ReadNext(r, Cells(init), Neutralize(init[|init| - 1]), Neutralized(init[..|init| - 1]), value);
  }

  lemma ReadLine(r: Reader, row: seq<string>)
    requires r.mode.LineStart? && r.field == [] && r.record == [] && row != []
    ensures ReadAll(r, Line(row)) == Reader(LineStart, [], [], r.records + [Neutralized(row)])
  {
    hide Cells, ReadAll, Neutralize;
    var n := |row| - 1;
    ReadCells(r, row);
    var before := Reader(QuoteSeen, Neutralize(row[n]), Neutralized(row[..n]), r.records);
    assert Neutralized(row[..n]) + [Neutralize(row[n])] == Neutralized(row);
    ReadConcat(r, Cells(row), [CR, LF]);
    ReadEnding(before);
  }

  lemma ReadEnding(r: Reader)
    ensures ReadAll(r, [CR, LF]) == Read(Read(r, CR), LF)
  {
    ReadConcat(r, [CR], [LF]);
    assert [CR, LF] == [CR] + [LF];
    ReadOne(r, CR);
    ReadOne(Read(r, CR), LF);
  }

  lemma ReadNothing(r: Reader)
    ensures ReadAll(r, Lines([])) == r
  {
  }

  lemma {:induction false} ReadLines(rows: seq<seq<string>>)
    requires forall i | 0 <= i < |rows| :: rows[i] != []
    ensures ReadAll(FRESH, Lines(rows)) == Reader(LineStart, [], [], NeutralizedRows(rows))
  {
    hide ReadAll, Lines, Line, Neutralized;
    if rows == [] {
      ReadNothing(FRESH);
    } else {
      var n := |rows| - 1;
      ReadLines(rows[..n]);
      assert rows == rows[..n] + [rows[n]];
      LinesSnoc(rows[..n], rows[n]);
      ReadConcat(FRESH, Lines(rows[..n]), Line(rows[n]));
      ReadLine(Reader(LineStart, [], [], NeutralizedRows(rows[..n])), rows[n]);
      assert NeutralizedRows(rows[..n]) + [Neutralized(rows[n])] == NeutralizedRows(rows);
    }
  }

  /** The reader drops the byte-order mark and nothing else. */
  lemma DecodeEncoded(header: seq<string>, rows: seq<seq<string>>)
    ensures Decode(Encoded(header, rows)) == Finish(ReadAll(FRESH, Lines([header] + rows)))
  {
    hide Lines, ReadAll, Finish;
    var text := Encoded(header, rows);
    assert text[|BYTE_ORDER_MARK|..] == Lines([header] + rows);
  }

  /**
   * Reading the encoded file back gives the header and exactly the rows, each cell as neutralised; the one
   * exception is a table of no columns, whose lines read as one empty field.
   */
  lemma CsvRoundTrip(header: seq<string>, rows: seq<seq<string>>)
    requires AllWide(rows, |header|)
    ensures Decode(Encoded(header, rows)) == Some([Neutralized(header)] + NeutralizedRows(rows)) <==> header != []
  {
    hide ReadAll, Lines, Decode, Encoded, Neutralize;
    var all := [header] + rows;
    DecodeEncoded(header, rows);
    if header != [] {
      ReadLines(all);
      assert NeutralizedRows(all) == [Neutralized(header)] + NeutralizedRows(rows);
    } else {
      EmptyLines(all);
      var records := ReadAll(FRESH, Lines(all)).records;
      assert |records[0]| == 1;
      assert |([Neutralized(header)] + NeutralizedRows(rows))[0]| == 0;
    }
  }

  /** A line of no cells reads as one empty field. */
  lemma EmptyLine(records: seq<seq<string>>)
    ensures ReadAll(Reader(LineStart, [], [], records), Line([])) == Reader(LineStart, [], [], records + [[""]])
  {
    hide ReadAll;
    assert Line([]) == [CR, LF];
    assert [] + [""] == [""];
    ReadEnding(Reader(LineStart, [], [], records));
  }

  lemma {:induction false} EmptyLines(rows: seq<seq<string>>)
    requires forall i | 0 <= i < |rows| :: rows[i] == []
    ensures var r := ReadAll(FRESH, Lines(rows));
            r.mode.LineStart? && r.field == [] && r.record == [] && |r.records| == |rows|
            && forall i | 0 <= i < |rows| :: r.records[i] == [""]
  {
    hide ReadAll, Lines, Line;
    if rows == [] {
      ReadNothing(FRESH);
    } else {
      var n := |rows| - 1;
      EmptyLines(rows[..n]);
      assert rows == rows[..n] + [[]];
      LinesSnoc(rows[..n], []);
      ReadConcat(FRESH, Lines(rows[..n]), Line([]));
      EmptyLine(ReadAll(FRESH, Lines(rows[..n])).records);
    }
  }

  /** No cell of the file, header included, begins the way a formula does. */
  lemma NoCellIsAFormula(value: string)
    ensures Neutralize(value) == [] || !IsFormulaStart(Neutralize(value)[0])
    ensures Neutralize(value) == value <==> value == [] || !IsFormulaStart(value[0])
  {
  }

  // ---------------------------------------------------------------- amounts

  /** `toFixed(2)` of an amount in centavos. */
  function FormatAmount(n: int): (s: string)
    ensures s != []
  {
    if n < 0 then ['-'] + (Decimal(-n / 100) + ['.'] + Pad(-n % 100, 2))
    else Decimal(n / 100) + ['.'] + Pad(n % 100, 2)
  }

  function ParseAmount(s: string): Option<int> {
    if s != [] && s[0] == '-' then
      var r := ParseMagnitude(s[1..]);
      if r.Some? then Some(-r.value) else None
    else
      ParseMagnitude(s)
  }

  predicate IsNumeral(s: string) {
    s != [] && forall i | 0 <= i < |s| :: '0' <= s[i] <= '9'
  }

  function ParseMagnitude(s: string): Option<int> {
    if |s| < 4 || s[|s| - 3] != '.' || !IsNumeral(s[..|s| - 3]) || !IsNumeral(s[|s| - 2..]) then None
    else Some(100 * Value(s[..|s| - 3]) + Value(s[|s| - 2..]))
  }

  lemma MagnitudeRoundTrip(n: nat)
    ensures ParseMagnitude(Decimal(n / 100) + ['.'] + Pad(n % 100, 2)) == Some(n)
  {
    hide Decimal, Pad, Value;
    var whole, cents := Decimal(n / 100), Pad(n % 100, 2);
    var s := whole + ['.'] + cents;
    assert s[..|s| - 3] == whole && s[|s| - 2..] == cents && s[|s| - 3] == '.';
    ValueOfDecimal(n / 100);
    assert Pow10(1) == 10 * Pow10(0) && Pow10(2) == 10 * Pow10(1);
    ValueOfPad(n % 100, 2);
  }

  /** The printed amount reads back exactly, and passes the formula check untouched exactly when it is not negative. */
  lemma AmountCellIsExact(n: int)
    ensures ParseAmount(FormatAmount(n)) == Some(n)
    ensures Neutralize(FormatAmount(n)) == FormatAmount(n) <==> n >= 0
  {
    MagnitudeRoundTrip(if n < 0 then -n else n);
    if n < 0 {
      assert FormatAmount(n)[1..] == Decimal(-n / 100) + ['.'] + Pad(-n % 100, 2);
    } else {
      assert FormatAmount(n)[0] == Decimal(n / 100)[0];
    }
  }
}
