/** The CSV exports of invoices and credit notes, and a reader of section 2 of RFC 4180
    whose only record break is a line feed. */
module InvoiceCsv {
  import opened Common
  import Decimal

  // ---------------------------------------------------------------- printing

  predicate NeedsQuotes(cell: string) { '"' in cell || ',' in cell || '\n' in cell }

  function Doubled(cell: string): string {
    if cell == [] then [] else (if cell[0] == '"' then "\"\"" else [cell[0]]) + Doubled(cell[1..])
  }

  function CsvEscape(cell: string): string { if NeedsQuotes(cell) then "\"" + Doubled(cell) + "\"" else cell }

  function PrintRow(row: seq<string>): string
    requires row != []
  {
    if |row| == 1 then CsvEscape(row[0]) else CsvEscape(row[0]) + "," + PrintRow(row[1..])
  }

  ghost predicate Filled(rows: seq<seq<string>>) { forall i :: 0 <= i < |rows| ==> rows[i] != [] }

  function PrintRows(rows: seq<seq<string>>): string
    requires rows != [] && forall i :: 0 <= i < |rows| ==> rows[i] != []
  {
    if |rows| == 1 then PrintRow(rows[0]) else PrintRow(rows[0]) + "\n" + PrintRows(rows[1..])
  }

  datatype Line = Line(
    lineNumber: int, eventType: string, description: string, quantity: int, amountMinor: int, vatRateBps: Option<int>,
    netAmountMinor: Option<int>, taxAmountMinor: Option<int>, grossAmountMinor: Option<int>, currency: string)

  function OrElse(x: Option<int>, fallback: int): int { if x.Some? then x.value else fallback }

  /** The columns shared by both exports. */
  function LineCells(l: Line): (r: seq<string>)
    ensures |r| == 9
  {
    [Decimal.Print(l.lineNumber), l.eventType, l.description, Decimal.Print(l.quantity),
     Decimal.Print(OrElse(l.netAmountMinor, l.amountMinor)),
     if l.vatRateBps.None? then "" else Decimal.Print(l.vatRateBps.value),
     Decimal.Print(OrElse(l.taxAmountMinor, 0)), Decimal.Print(OrElse(l.grossAmountMinor, l.amountMinor)), l.currency]
  }

  const LINE_HEADER: seq<string> :=
    ["lineNumber", "eventType", "description", "quantity", "netAmountMinor", "vatRateBps", "taxAmountMinor",
     "grossAmountMinor", "currency"]

  /** The columns that name the document, the same on every row. */
  datatype Document =
    | Invoice(invoiceNumber: string, clientCode: string, warehouseCode: string, periodStart: string, periodEnd: string)
    | CreditNote(creditNoteNumber: string, invoiceNumber: string, clientCode: string, warehouseCode: string)

  function DocumentHeader(d: Document): seq<string> {
    match d
    case Invoice(_, _, _, _, _) => ["invoiceNumber", "clientCode", "warehouseCode", "periodStart", "periodEnd"]
    case CreditNote(_, _, _, _) => ["creditNoteNumber", "invoiceNumber", "clientCode", "warehouseCode"]
  }

  function DocumentCells(d: Document): seq<string> {
    match d
    case Invoice(number, client, warehouse, from, to) => [number, client, warehouse, from, to]
    case CreditNote(note, number, client, warehouse) => [note, number, client, warehouse]
  }

  function Table(d: Document, lines: seq<Line>): (rows: seq<seq<string>>)
    ensures |rows| == |lines| + 1 && Filled(rows)
  {
    [DocumentHeader(d) + LINE_HEADER]
        + seq(|lines|, i requires 0 <= i < |lines| => DocumentCells(d) + LineCells(lines[i]))
  }

  function ExportCsv(d: Document, lines: seq<Line>): string { PrintRows(Table(d, lines)) }

  // ---------------------------------------------------------------- reading

  datatype Read<T> = Read(item: T, rest: string) | Malformed

  /** Inside quotes: a doubled quote stands for one, a single one closes the field. */
  function ReadQuoted(s: string): (r: Read<string>)
    ensures r.Read? ==> |r.rest| < |s|
  {
    if s == [] then Malformed
    else if s[0] != '"' then
      match ReadQuoted(s[1..]) case Malformed => Malformed case Read(f, rest) => Read([s[0]] + f, rest)
    else if |s| > 1 && s[1] == '"' then
      match ReadQuoted(s[2..]) case Malformed => Malformed case Read(f, rest) => Read("\"" + f, rest)
    else Read("", s[1..])
  }

  /** Outside quotes: up to a comma, a line feed or the end, and a quote is an error. */
  function ReadPlain(s: string): (r: Read<string>)
    ensures r.Read? ==> |r.rest| <= |s|
  {
    if s == [] || s[0] == ',' || s[0] == '\n' then Read("", s)
    else if s[0] == '"' then Malformed
    else match ReadPlain(s[1..]) case Malformed => Malformed case Read(f, rest) => Read([s[0]] + f, rest)
  }

  function ReadField(s: string): (r: Read<string>)
    ensures r.Read? ==> |r.rest| <= |s|
  {
    if s != [] && s[0] == '"' then ReadQuoted(s[1..]) else ReadPlain(s)
  }

  function ReadRecord(s: string): (r: Read<seq<string>>)
    ensures r.Read? ==> |r.rest| <= |s|
    decreases |s|
  {
    match ReadField(s)
    case Malformed => Malformed
    case Read(f, rest) =>
      if rest != [] && rest[0] == ',' then
        match ReadRecord(rest[1..]) case Malformed => Malformed case Read(fs, end) => Read([f] + fs, end)
      else if rest == [] || rest[0] == '\n' then Read([f], rest)
      else Malformed
  }

  function ReadCsv(s: string): Option<seq<seq<string>>>
    decreases |s|
  {
    match ReadRecord(s)
    case Malformed => None
    case Read(row, rest) =>
      if rest == [] then Some([row])
      else match ReadCsv(rest[1..]) case None => None case Some(rows) => Some([row] + rows)
  }

  // ---------------------------------------------------------------- round trip

  predicate Ends(tail: string) { tail == [] || tail[0] == ',' || tail[0] == '\n' }

  lemma {:induction false} ReadsDoubled(cell: string, tail: string)
    requires Ends(tail)
    ensures ReadQuoted(Doubled(cell) + "\"" + tail) == Read(cell, tail)
  {
    var s := Doubled(cell) + "\"" + tail;
    if cell == [] {
      assert s == "\"" + tail && s[1..] == tail;
    } else {
      var more := Doubled(cell[1..]) + "\"" + tail;
      ReadsDoubled(cell[1..], tail);
      if cell[0] == '"' { assert s == "\"\"" + more && s[2..] == more; }
      else { assert s == [cell[0]] + more && s[1..] == more; }
      assert cell == [cell[0]] + cell[1..];
    }
  }

  lemma {:induction false} ReadsPlain(cell: string, tail: string)
    requires Ends(tail) && !NeedsQuotes(cell)
    ensures ReadPlain(cell + tail) == Read(cell, tail)
  {
    if cell == [] {
      assert cell + tail == tail;
    } else {
      assert cell[0] in cell && forall c :: c in cell[1..] ==> c in cell;
      ReadsPlain(cell[1..], tail);
      assert (cell + tail)[1..] == cell[1..] + tail && cell == [cell[0]] + cell[1..];
    }
  }

  lemma {:induction false} ReadsUnquoted(cell: string, tail: string)
    requires Ends(tail) && !NeedsQuotes(cell)
    ensures ReadField(cell + tail) == Read(cell, tail)
  {
    ReadsPlain(cell, tail);
    if cell != [] { assert cell[0] in cell && (cell + tail)[0] == cell[0]; } else { assert cell + tail == tail; }
  }

  lemma {:induction false} ReadsQuoted(cell: string, tail: string)
    requires Ends(tail)
    ensures ReadField("\"" + Doubled(cell) + "\"" + tail) == Read(cell, tail)
  {
    ReadsDoubled(cell, tail);
    assert ("\"" + Doubled(cell) + "\"" + tail)[1..] == Doubled(cell) + "\"" + tail;
  }

  lemma {:induction false} ReadsField(cell: string, tail: string)
    requires Ends(tail)
    ensures ReadField(CsvEscape(cell) + tail) == Read(cell, tail)
  {
    if NeedsQuotes(cell) { ReadsQuoted(cell, tail); } else { ReadsUnquoted(cell, tail); }
  }

  lemma {:induction false} ReadsCellThen(cell: string, more: string, row: seq<string>, tail: string)
    requires ReadRecord(more) == Read(row, tail)
    ensures ReadRecord(CsvEscape(cell) + ("," + more)) == Read([cell] + row, tail)
  {
    ReadsField(cell, "," + more);
    assert ("," + more)[1..] == more;
  }

  lemma {:induction false} ReadsLastCell(cell: string, tail: string)
    requires tail == [] || tail[0] == '\n'
    ensures ReadRecord(CsvEscape(cell) + tail) == Read([cell], tail)
  {
    ReadsField(cell, tail);
  }

  lemma {:induction false} ReadsRow(row: seq<string>, tail: string)
    requires row != [] && (tail == [] || tail[0] == '\n')
    ensures ReadRecord(PrintRow(row) + tail) == Read(row, tail)
    decreases |row|
  {
    if |row| == 1 {
      ReadsLastCell(row[0], tail);
      assert row == [row[0]];
    } else {
      var more := PrintRow(row[1..]) + tail;
      assert PrintRow(row) + tail == CsvEscape(row[0]) + ("," + more);
      ReadsRow(row[1..], tail);
      ReadsCellThen(row[0], more, row[1..], tail);
      assert row == [row[0]] + row[1..];
    }
  }

  lemma {:induction false} Regroup(a: string, b: string, c: string)
    ensures a + b + c == a + (b + c)
  {
  }

  lemma {:induction false} AfterFirst(more: string)
    ensures ("\n" + more)[1..] == more
  {
  }

  lemma {:induction false} OnlyRow(row: seq<string>)
    requires row != []
    ensures ReadCsv(PrintRow(row)) == Some([row])
  {
    ReadsRow(row, "");
    assert PrintRow(row) + "" == PrintRow(row);
  }

  lemma {:induction false} OneMoreRow(row: seq<string>, text: string, rest: string, rows: seq<seq<string>>)
    requires ReadRecord(text) == Read(row, "\n" + rest) && ReadCsv(rest) == Some(rows)
    ensures ReadCsv(text) == Some([row] + rows)
  {
    AfterFirst(rest);
  }

  /** Whatever the cells contain, reading what was printed gives the same table. */
  lemma {:induction false} ReadsBack(rows: seq<seq<string>>)
    requires rows != [] && Filled(rows)
    ensures ReadCsv(PrintRows(rows)) == Some(rows)
    decreases |rows|
  {
    HeadAndTail(rows);
    if |rows| == 1 {
      OnlyRow(rows[0]);
    } else {
      var row, more := PrintRow(rows[0]), PrintRows(rows[1..]);
      Regroup(row, "\n", more);
      ReadsRow(rows[0], "\n" + more);
      ReadsBack(rows[1..]);
      OneMoreRow(rows[0], row + ("\n" + more), more, rows[1..]);
    }
  }

  lemma {:induction false} HeadAndTail(rows: seq<seq<string>>)
    requires rows != []
    ensures [rows[0]] + rows[1..] == rows && (|rows| == 1 ==> [rows[0]] == rows)
  {
  }

  /** An exported document reads back as its header and rows, so two documents of a kind with the same
      text agree on every printed field: numbers, texts and the missing VAT rate included. */
  lemma {:induction false} ExportDetermines(d: Document, lines: seq<Line>, d': Document, lines': seq<Line>)
    requires ExportCsv(d, lines) == ExportCsv(d', lines')
    ensures ReadCsv(ExportCsv(d, lines)) == Some(Table(d, lines)) && Table(d, lines) == Table(d', lines')
    ensures |lines| == |lines'| && d.Invoice? == d'.Invoice? && (lines != [] ==> d == d')
    ensures forall i :: 0 <= i < |lines| ==> LineCells(lines[i]) == LineCells(lines'[i])
  {
    ReadsBack(Table(d, lines));
    ReadsBack(Table(d', lines'));
    var t, t' := Table(d, lines), Table(d', lines');
    assert t == t';
    assert t[0] == DocumentHeader(d) + LINE_HEADER && t'[0] == DocumentHeader(d') + LINE_HEADER;
    assert t[0][0] == DocumentHeader(d)[0] && t'[0][0] == DocumentHeader(d')[0];
    assert "invoiceNumber"[0] != "creditNoteNumber"[0];
    var k := |DocumentCells(d)|;
    assert k == |DocumentCells(d')|;
    forall i | 0 <= i < |lines|
      ensures LineCells(lines[i]) == LineCells(lines'[i]) && DocumentCells(d) == DocumentCells(d')
    {
      assert t[i + 1] == DocumentCells(d) + LineCells(lines[i])
        && t'[i + 1] == DocumentCells(d') + LineCells(lines'[i]);
      assert t[i + 1][..k] == DocumentCells(d) && t'[i + 1][..k] == DocumentCells(d');
      assert t[i + 1][k..] == LineCells(lines[i]) && t'[i + 1][k..] == LineCells(lines'[i]);
    }
    if lines != [] { SameDocument(d, d'); }
  }

  lemma {:induction false} SameDocument(d: Document, d': Document)
    requires d.Invoice? == d'.Invoice? && DocumentCells(d) == DocumentCells(d')
    ensures d == d'
  {
    var c, c' := DocumentCells(d), DocumentCells(d');
    assert c[0] == c'[0] && c[1] == c'[1] && c[2] == c'[2] && c[3] == c'[3];
    if d.Invoice? { assert c[4] == c'[4]; }
  }
}
