/**
 * The CSV export of the loan list: cell quoting with a guard against
 * spreadsheet formula injection, the header and data rows, and the file text.
 * Quoting follows section 2 of RFC 4180: every field is enclosed in double
 * quotes and a double quote inside a field is written twice.
 */
module CsvUtils {
  import opened Wrappers
  import opened Dates
  import opened PlanCalculations

  /** The characters that make a spreadsheet read a cell as a formula. */
  predicate IsFormulaStart(c: char) {
    c == '=' || c == '+' || c == '-' || c == '@'
  }

  /** The cell text after the injection guard: a leading `'` exactly when the text starts a formula. */
  function Guarded(s: string): (r: string)
    ensures s != [] && IsFormulaStart(s[0]) ==> r == ['\''] + s
    ensures !(s != [] && IsFormulaStart(s[0])) ==> r == s
    ensures r == [] || !IsFormulaStart(r[0])
  {
    if s != [] && IsFormulaStart(s[0]) then ['\''] + s else s
  }

  /** `replace(/"/g, '""')`: every double quote written twice. */
  function DoubleQuotes(s: string): (r: string)
    ensures |r| >= |s|
    decreases |s|
  {
    if s == [] then []
    else if s[0] == '"' then "\"\"" + DoubleQuotes(s[1..])
    else [s[0]] + DoubleQuotes(s[1..])
  }

  /** `sanitizeCell`: a missing value is the empty quoted field; any other is guarded, quote-doubled and enclosed in quotes. */
  function SanitizeCell(cell: Option<string>): (r: string)
    ensures |r| >= 2 && r[0] == '"' && r[|r| - 1] == '"'
    ensures cell.None? ==> r == "\"\""
    ensures cell.Some? ==> r == "\"" + DoubleQuotes(Guarded(cell.value)) + "\""
  {
    match cell
    case None => "\"\""
    case Some(s) => "\"" + DoubleQuotes(Guarded(s)) + "\""
  }

  /** The text a spreadsheet shows for a cell. */
  function CellText(cell: Option<string>): string {
    match cell
    case None => []
    case Some(s) => Guarded(s)
  }

  // ------------------------------------------------------------ lines and file

  /** `cells.map(sanitizeCell).join(',')`. */
  function Line(cells: seq<Option<string>>): string
    decreases |cells|
  {
    if cells == [] then []
    else if |cells| == 1 then SanitizeCell(cells[0])
    else SanitizeCell(cells[0]) + "," + Line(cells[1..])
  }

  /** `lines.join('\n')`. */
  function JoinLines(lines: seq<string>): string
    decreases |lines|
  {
    if lines == [] then []
    else if |lines| == 1 then lines[0]
    else lines[0] + "\n" + JoinLines(lines[1..])
  }

  /** The names of the loan types as stored and passed to the translator. */
  function LoanTypeKey(t: LoanType): string {
    match t
    case Finance => "Finance"
    case Tender => "Tender"
    case InterestRate => "InterestRate"
  }

  function StatusKey(s: LoanStatus): string {
    match s
    case Active => "Active"
    case Completed => "Completed"
    case Overdue => "Overdue"
  }

  /**
   * The eleven column titles, each passed through the translator `tr`.
   */
  function Headers(tr: string -> string): (r: seq<Option<string>>)
    ensures |r| == 11
  {
    [ Some(tr("Loan ID")), Some(tr("Customer Name")), Some(tr("Phone Number")),
      Some(tr("Loan Type")), Some(tr("Status")), Some(tr("Issue Date")),
      Some(tr("Principal Amount")), Some(tr("Given Amount (Disbursed)")),
      Some(tr("Total Amount")), Some(tr("Amount Paid")), Some(tr("Balance Due")) ]
  }

  /**
   * The eleven cells of one loan, column by column under the headers:
   * id, name, phone, translated type, translated status, issue date, then
   * principal, given amount, total, paid and balance formatted by `money`.
   */
  function Row(loan: Loan, now: Date, tr: string -> string, money: real -> string, date: Date -> string): (r: seq<Option<string>>)
    ensures |r| == 11
  {
    [ Some(loan.id), Some(loan.customerName), Some(loan.phone),
      Some(tr(LoanTypeKey(TypeOf(loan.plan)))), Some(tr(StatusKey(Status(loan, now)))),
      Some(date(loan.createdAt)),
      Some(money(loan.loanAmount)), Some(money(loan.givenAmount)),
      Some(money(TotalAmount(loan, now))), Some(money(AmountPaid(loan.transactions))),
      Some(money(Balance(loan, now))) ]
  }

  /** The records of the export: the header record, then one record per loan in list order. */
  function Records(loans: seq<Loan>, now: Date, tr: string -> string, money: real -> string, date: Date -> string): (r: seq<seq<Option<string>>>)
    ensures |r| == |loans| + 1 && r[0] == Headers(tr)
    ensures r[1..] == Rows(loans, now, tr, money, date)
    ensures forall i :: 0 <= i < |r| ==> |r[i]| == 11
  {
    [Headers(tr)] + Rows(loans, now, tr, money, date)
  }

  /** `loans.map(...)`: one row per loan, in list order. */
  function Rows(loans: seq<Loan>, now: Date, tr: string -> string, money: real -> string, date: Date -> string): (r: seq<seq<Option<string>>>)
    ensures |r| == |loans|
    ensures forall i :: 0 <= i < |loans| ==> r[i] == Row(loans[i], now, tr, money, date)
    ensures forall i :: 0 <= i < |r| ==> |r[i]| == 11
  {
    seq(|loans|, i requires 0 <= i < |loans| => Row(loans[i], now, tr, money, date))
  }

  function Lines(records: seq<seq<Option<string>>>): (r: seq<string>)
    ensures |r| == |records|
    ensures forall i :: 0 <= i < |r| ==> r[i] == Line(records[i])
  {
    seq(|records|, i requires 0 <= i < |records| => Line(records[i]))
  }

  /** The CSV text before it is put behind the data-URI prefix. */
  function CsvText(loans: seq<Loan>, now: Date, tr: string -> string, money: real -> string, date: Date -> string): string {
    JoinLines(Lines(Records(loans, now, tr, money, date)))
  }

  const DataUriPrefix: string := "data:text/csv;charset=utf-8,"

  function CsvContent(loans: seq<Loan>, now: Date, tr: string -> string, money: real -> string, date: Date -> string): string {
    DataUriPrefix + CsvText(loans, now, tr, money, date)
  }

  // ------------------------------------------------------- an RFC 4180 reader

  /**
   * Reads the inside of a quoted field (the opening quote already read):
   * `""` stands for one quote, a lone `"` closes the field.  Yields the field
   * text and what follows the closing quote.
   */
  function ReadQuoted(t: string): (r: Option<(string, string)>)
    ensures r.Some? ==> |r.value.1| < |t|
    decreases |t|
  {
    if t == [] then None
    else if t[0] == '"' then
      if |t| >= 2 && t[1] == '"' then
        match ReadQuoted(t[2..])
        case None => None
        case Some((text, rest)) => Some(("\"" + text, rest))
      else Some(([], t[1..]))
    else
      match ReadQuoted(t[1..])
      case None => None
      case Some((text, rest)) => Some(([t[0]] + text, rest))
  }

  function ReadField(t: string): (r: Option<(string, string)>)
    ensures r.Some? ==> |r.value.1| < |t|
  {
    if t != [] && t[0] == '"' then ReadQuoted(t[1..]) else None
  }

  /** Reads comma-separated quoted fields up to the end of the text or of the line. */
  function ReadRecord(t: string): (r: Option<(seq<string>, string)>)
    ensures r.Some? ==> |r.value.1| < |t|
    decreases |t|
  {
    match ReadField(t)
    case None => None
    case Some((text, rest)) =>
      if rest != [] && rest[0] == ',' then
        match ReadRecord(rest[1..])
        case None => None
        case Some((texts, after)) => Some(([text] + texts, after))
      else Some(([text], rest))
  }

  /** Reads newline-separated records up to the end of the text. */
  function ReadFile(t: string): Option<seq<seq<string>>>
    decreases |t|
  {
    match ReadRecord(t)
    case None => None
    case Some((texts, rest)) =>
      if rest == [] then Some([texts])
      else if rest[0] == '\n' then
        match ReadFile(rest[1..])
        case None => None
        case Some(records) => Some([texts] + records)
      else None
  }

  function RecordTexts(cells: seq<Option<string>>): (r: seq<string>)
    ensures |r| == |cells|
    ensures forall i :: 0 <= i < |cells| ==> r[i] == CellText(cells[i])
  {
    seq(|cells|, i requires 0 <= i < |cells| => CellText(cells[i]))
  }

  function FileTexts(records: seq<seq<Option<string>>>): (r: seq<seq<string>>)
    ensures |r| == |records|
    ensures forall i :: 0 <= i < |records| ==> r[i] == RecordTexts(records[i])
  {
    seq(|records|, i requires 0 <= i < |records| => RecordTexts(records[i]))
  }

  // ----------------------------------------------------------------- round trips

  /** Doubled quotes are read back as single ones; the closing quote ends the field. */
  lemma {:induction false} ReadDoubledQuotes(s: string, rest: string)
    requires rest == [] || rest[0] != '"'
    ensures ReadQuoted(DoubleQuotes(s) + "\"" + rest) == Some((s, rest))
    decreases |s|
  {
    var t := DoubleQuotes(s) + "\"" + rest;
    if s == [] {
      assert t == "\"" + rest;
      assert t[1..] == rest;
    } else if s[0] == '"' {
      assert t == "\"\"" + (DoubleQuotes(s[1..]) + "\"" + rest);
      assert t[2..] == DoubleQuotes(s[1..]) + "\"" + rest;
      ReadDoubledQuotes(s[1..], rest);
      assert "\"" + s[1..] == s;
    } else {
      assert t == [s[0]] + (DoubleQuotes(s[1..]) + "\"" + rest);
      assert t[1..] == DoubleQuotes(s[1..]) + "\"" + rest;
      ReadDoubledQuotes(s[1..], rest);
      assert [s[0]] + s[1..] == s;
    }
  }

  /** A sanitized cell reads back as the guarded text, whatever follows it on the line. */
  lemma ReadSanitizedCell(cell: Option<string>, rest: string)
    requires rest == [] || rest[0] != '"'
    ensures ReadField(SanitizeCell(cell) + rest) == Some((CellText(cell), rest))
  {
    var inner := match cell case None => [] case Some(s) => Guarded(s);
    assert SanitizeCell(cell) == "\"" + DoubleQuotes(inner) + "\"";
    var t := SanitizeCell(cell) + rest;
    assert t[1..] == DoubleQuotes(inner) + "\"" + rest;
    ReadDoubledQuotes(inner, rest);
  }

  /** Stripping the quotes and un-doubling gives back the text, with the guard quote only for a formula. */
  lemma UnquoteSanitizedCell(s: string)
    ensures ReadField(SanitizeCell(Some(s))) == Some((Guarded(s), []))
    ensures s != [] && IsFormulaStart(s[0]) ==> Guarded(s) == ['\''] + s
    ensures !(s != [] && IsFormulaStart(s[0])) ==> Guarded(s) == s
  {
    ReadSanitizedCell(Some(s), []);
    assert SanitizeCell(Some(s)) + [] == SanitizeCell(Some(s));
  }

  lemma RecordTextsCons(cells: seq<Option<string>>)
    requires cells != []
    ensures RecordTexts(cells) == [CellText(cells[0])] + RecordTexts(cells[1..])
  {
  }

  /** A line of sanitized cells reads back cell by cell, up to the end of the line. */
  lemma {:induction false} ReadLine(cells: seq<Option<string>>, rest: string)
    requires cells != []
    requires rest == [] || rest[0] == '\n'
    ensures ReadRecord(Line(cells) + rest) == Some((RecordTexts(cells), rest))
    decreases |cells|
  {
    if |cells| == 1 {
      ReadSanitizedCell(cells[0], rest);
      assert RecordTexts(cells) == [CellText(cells[0])];
    } else {
      ReadLine(cells[1..], rest);
      ReadLineCons(cells, rest);
    }
  }

  /** One step of `ReadLine`: the first cell, a comma, and a tail that reads back. */
  lemma ReadLineCons(cells: seq<Option<string>>, rest: string)
    requires |cells| >= 2
    requires ReadRecord(Line(cells[1..]) + rest) == Some((RecordTexts(cells[1..]), rest))
    ensures ReadRecord(Line(cells) + rest) == Some((RecordTexts(cells), rest))
  {
    var tail := Line(cells[1..]) + rest;
    LineCons(cells, rest);
    ReadSanitizedCell(cells[0], "," + tail);
    ReadRecordStep(Line(cells) + rest, CellText(cells[0]), tail, RecordTexts(cells[1..]), rest);
    RecordTextsCons(cells);
  }

  lemma LineCons(cells: seq<Option<string>>, rest: string)
    requires |cells| >= 2
    ensures Line(cells) + rest == SanitizeCell(cells[0]) + ("," + (Line(cells[1..]) + rest))
  {
  }

  /** A field followed by a comma and a record that reads back reads back as one longer record. */
  lemma ReadRecordStep(t: string, text: string, tail: string, texts: seq<string>, rest: string)
    requires ReadField(t) == Some((text, "," + tail))
    requires ReadRecord(tail) == Some((texts, rest))
    ensures ReadRecord(t) == Some(([text] + texts, rest))
  {
    assert ("," + tail)[1..] == tail;
  }

  /** The whole export reads back record by record: no cell text can break a field, a line or the file. */
  lemma {:induction false} ReadLines(records: seq<seq<Option<string>>>)
    requires records != []
    requires forall i :: 0 <= i < |records| ==> records[i] != []
    ensures ReadFile(JoinLines(Lines(records))) == Some(FileTexts(records))
    decreases |records|
  {
    if |records| == 1 {
      ReadLine(records[0], []);
      assert Line(records[0]) + [] == Line(records[0]);
      assert FileTexts(records) == [RecordTexts(records[0])];
    } else {
      var tail := JoinLines(Lines(records[1..]));
      JoinLinesCons(records);
      ReadLine(records[0], "\n" + tail);
      ReadLines(records[1..]);
      ReadFileStep(JoinLines(Lines(records)), RecordTexts(records[0]), tail, FileTexts(records[1..]));
      FileTextsCons(records);
    }
  }

  lemma JoinLinesCons(records: seq<seq<Option<string>>>)
    requires |records| >= 2
    ensures JoinLines(Lines(records)) == Line(records[0]) + ("\n" + JoinLines(Lines(records[1..])))
  {
    assert Lines(records[1..]) == Lines(records)[1..];
  }

  /** A record, a line break and a file that reads back read back as one longer file. */
  lemma ReadFileStep(t: string, texts: seq<string>, tail: string, records: seq<seq<string>>)
    requires ReadRecord(t) == Some((texts, "\n" + tail))
    requires ReadFile(tail) == Some(records)
    ensures ReadFile(t) == Some([texts] + records)
  {
    assert ("\n" + tail)[1..] == tail;
  }

  lemma FileTextsCons(records: seq<seq<Option<string>>>)
    requires records != []
    ensures FileTexts(records) == [RecordTexts(records[0])] + FileTexts(records[1..])
  {
  }

  /** The export holds the translated headers and then each loan's eleven cells, each read back as its guarded text. */
  lemma ExportRoundTrip(loans: seq<Loan>, now: Date, tr: string -> string, money: real -> string, date: Date -> string)
    ensures ReadFile(CsvText(loans, now, tr, money, date)) == Some(FileTexts(Records(loans, now, tr, money, date)))
  {
    var records := Records(loans, now, tr, money, date);
    assert forall i :: 0 <= i < |records| ==> |records[i]| == 11;
    ReadLines(records);
  }
}
