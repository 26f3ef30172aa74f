/** What a reader finds in the exported documents: the columns of the CSV files, and the texts, amounts and frame
    of the PDF. */
module BillingExports {
  import opened Common
  import opened Decimal
  import InvoiceCsv
  import opened BillingPdf

  // ---------------------------------------------------------------- the CSV files

  /** The nine cells that a line fills in either export. */
  ghost predicate ShowsLine(cells: seq<string>, at: nat, l: InvoiceCsv.Line) {
    && |cells| == at + 9
    && cells[at] == Print(l.lineNumber) && cells[at + 1] == l.eventType && cells[at + 2] == l.description
    && cells[at + 3] == Print(l.quantity)
    && cells[at + 4] == Print(match l.netAmountMinor case Some(net) => net case None => l.amountMinor)
    && cells[at + 5] == (match l.vatRateBps case Some(bps) => Print(bps) case None => "")
    && cells[at + 6] == Print(match l.taxAmountMinor case Some(tax) => tax case None => 0)
    && cells[at + 7] == Print(match l.grossAmountMinor case Some(gross) => gross case None => l.amountMinor)
    && cells[at + 8] == l.currency
  }

  /** A reader finds the column names, and under them one record a line: the document's own cells, then the line's. */
  ghost predicate ReadsAs(text: string, names: seq<string>, own: seq<string>, lines: seq<InvoiceCsv.Line>) {
    var read := InvoiceCsv.ReadCsv(text);
    && read.Some? && |read.value| == |lines| + 1 && read.value[0] == names
    && forall i :: 0 <= i < |lines| ==>
         own <= read.value[i + 1] && ShowsLine(read.value[i + 1], |own|, lines[i])
  }

  lemma {:induction false} LineShown(before: seq<string>, l: InvoiceCsv.Line)
    ensures ShowsLine(before + InvoiceCsv.LineCells(l), |before|, l)
    ensures before <= before + InvoiceCsv.LineCells(l)
  {
    var cells := InvoiceCsv.LineCells(l);
    forall k | 0 <= k < 9 ensures (before + cells)[|before| + k] == cells[k] { }
  }

  lemma {:induction false} ExportReadsAs(d: InvoiceCsv.Document, lines: seq<InvoiceCsv.Line>)
    ensures ReadsAs(InvoiceCsv.ExportCsv(d, lines), InvoiceCsv.DocumentHeader(d) + InvoiceCsv.LINE_HEADER,
                    InvoiceCsv.DocumentCells(d), lines)
  {
    InvoiceCsv.ReadsBack(InvoiceCsv.Table(d, lines));
    forall i | 0 <= i < |lines|
      ensures InvoiceCsv.DocumentCells(d) <= InvoiceCsv.Table(d, lines)[i + 1]
      ensures ShowsLine(InvoiceCsv.Table(d, lines)[i + 1], |InvoiceCsv.DocumentCells(d)|, lines[i])
    {
      LineShown(InvoiceCsv.DocumentCells(d), lines[i]);
    }
  }

  /** The names of the nine columns that both exports share. */
  function LineNames(): seq<string> {
    ["lineNumber", "eventType", "description", "quantity", "netAmountMinor", "vatRateBps", "taxAmountMinor",
     "grossAmountMinor", "currency"]
  }

  /** An invoice's CSV names the invoice, client, warehouse and period before the columns of its lines, and repeats its
      own before each. */
  lemma {:induction false} InvoiceColumns(number: string, client: string, warehouse: string, from: string, to: string,
                                          lines: seq<InvoiceCsv.Line>)
    ensures ReadsAs(InvoiceCsv.ExportCsv(InvoiceCsv.Invoice(number, client, warehouse, from, to), lines),
                    ["invoiceNumber", "clientCode", "warehouseCode", "periodStart", "periodEnd"] + LineNames(),
                    [number, client, warehouse, from, to], lines)
  {
    ExportReadsAs(InvoiceCsv.Invoice(number, client, warehouse, from, to), lines);
  }

  /** A credit note's CSV names the note, the invoice, the client and the warehouse before them. */
  lemma {:induction false} CreditNoteColumns(note: string, number: string, client: string, warehouse: string,
                                             lines: seq<InvoiceCsv.Line>)
    ensures ReadsAs(InvoiceCsv.ExportCsv(InvoiceCsv.CreditNote(note, number, client, warehouse), lines),
                    ["creditNoteNumber", "invoiceNumber", "clientCode", "warehouseCode"] + LineNames(),
                    [note, number, client, warehouse], lines)
  {
    ExportReadsAs(InvoiceCsv.CreditNote(note, number, client, warehouse), lines);
  }

  // ---------------------------------------------------------------- amounts in the PDF

  /** An amount is shown in whole units with two decimals, a minus sign exactly when it is negative, and its
      currency: the digits read back as its minor units. */
  lemma {:induction false} AmountReadsBack(value: int, currency: string) returns (units: string, cents: string)
    ensures (forall c :: c in units ==> IsDigit(c)) && (forall c :: c in cents ==> IsDigit(c))
    ensures FormatMinor(value, currency) == (if value < 0 then "-" else "") + units + "." + cents + " " + currency
    ensures |units| >= 1 && |cents| == 2
    ensures 100 * ReadNat(units) + ReadNat(cents) == if value < 0 then -value else value
  {
    var n := if value < 0 then -value else value;
    units, cents := Digits(n / 100), PadStart(Digits(n % 100), 2);
    ReadDigits(n / 100);
    PadReadsBack(n % 100, 2);
    DigitsFit(n % 100, 2);
    assert Pow10(2) == 10 * Pow10(1);
  }

  // ---------------------------------------------------------------- what the page shows

  /** The operator at `k` shows exactly this text to a reader of PDF strings. */
  ghost predicate Shows(operators: seq<string>, k: nat, text: string) {
    && k < |operators| && operators[k] != "" && operators[k][0] == '('
    && ReadLiteral(operators[k][1..], 0) == Some((text, " Tj"))
  }

  lemma {:induction false} ShowOperator(text: string)
    ensures Shows(["(" + PdfEscape(text) + ") Tj"], 0, text)
  {
    LiteralReadsBack(text, " Tj");
    assert ("(" + PdfEscape(text) + ") Tj")[1..] == PdfEscape(text) + ")" + " Tj";
  }

  lemma {:induction false} LineOperators(nfkd: string -> string, lines: seq<string>, k: nat)
    requires k < |lines|
    ensures |ShowLines(nfkd, lines)| == 2 * |lines|
    ensures Shows(ShowLines(nfkd, lines), 2 * k, ToPdfSafeText(nfkd, lines[k]))
    ensures ShowLines(nfkd, lines)[2 * k + 1] == "0 -12 Td"
    decreases |lines|
  {
    var first := ["(" + PdfEscape(ToPdfSafeText(nfkd, lines[0])) + ") Tj", "0 -12 Td"];
    ShowOperator(ToPdfSafeText(nfkd, lines[0]));
    if |lines| > 1 {
      LineOperators(nfkd, lines[1..], if k == 0 then 0 else k - 1);
    } else {
      assert ShowLines(nfkd, lines[1..]) == [];
    }
  }

  lemma {:induction false} OpeningShows(nfkd: string -> string, lines: seq<string>)
    ensures var ops := PageOperators(nfkd, lines);
      && |ops| == 7 + |ShowLines(nfkd, Body(lines))|
      && ops[0] == "BT" && ops[1] == "/F1 16 Tf" && ops[2] == "50 800 Td"
      && Shows(ops, 3, if lines == [] then "WMS document" else lines[0])
      && ops[4] == "/F1 9 Tf" && ops[5] == "0 -22 Td" && ops[|ops| - 1] == "ET"
    ensures forall i :: 0 <= i < |ShowLines(nfkd, Body(lines))| ==>
      PageOperators(nfkd, lines)[6 + i] == ShowLines(nfkd, Body(lines))[i]
  {
    ShowOperator(if lines == [] then "WMS document" else lines[0]);
  }

  lemma {:induction false} BodyShows(nfkd: string -> string, lines: seq<string>, k: nat)
    requires 1 <= k < |lines| && k < 70
    ensures var shown := ShowLines(nfkd, Body(lines));
      2 * k <= |shown| && Shows(shown, 2 * (k - 1), ToPdfSafeText(nfkd, lines[k])) && shown[2 * k - 1] == "0 -12 Td"
  {
    assert Body(lines)[k - 1] == lines[k];
    LineOperators(nfkd, Body(lines), k - 1);
  }

  lemma {:induction false} BodySize(nfkd: string -> string, lines: seq<string>)
    ensures |ShowLines(nfkd, Body(lines))| == 2 * if |lines| == 0 then 0 else if |lines| > 70 then 69 else |lines| - 1
  {
    if Body(lines) != [] { LineOperators(nfkd, Body(lines), 0); }
  }

  /** An operator list that shows a title in the larger font and then, under it, `count` lines twelve points apart. */
  ghost predicate Frames(ops: seq<string>, title: string, count: nat) {
    && |ops| == 7 + 2 * count
    && ops[0] == "BT" && ops[1] == "/F1 16 Tf" && ops[2] == "50 800 Td" && Shows(ops, 3, title)
    && ops[4] == "/F1 9 Tf" && ops[5] == "0 -22 Td" && ops[|ops| - 1] == "ET"
  }

  /** The page shows the first line as its title and below it each of the next sixty-nine; what is beyond those is not
      shown, and a page of no lines has a title of its own. */
  lemma {:induction false} PageShows(nfkd: string -> string, lines: seq<string>, k: nat)
    ensures var ops := PageOperators(nfkd, lines);
      && Frames(ops, if lines == [] then "WMS document" else lines[0],
                if |lines| == 0 then 0 else if |lines| > 70 then 69 else |lines| - 1)
      && (1 <= k < |lines| && k < 70 ==>
            Shows(ops, 4 + 2 * k, ToPdfSafeText(nfkd, lines[k])) && ops[5 + 2 * k] == "0 -12 Td")
  {
    OpeningShows(nfkd, lines);
    BodySize(nfkd, lines);
    if 1 <= k < |lines| && k < 70 {
      BodyShows(nfkd, lines, k);
      Moved(PageOperators(nfkd, lines), ShowLines(nfkd, Body(lines)), 2 * (k - 1), ToPdfSafeText(nfkd, lines[k]));
    }
  }

  lemma {:induction false} Moved(ops: seq<string>, shown: seq<string>, i: nat, text: string)
    requires |ops| == 7 + |shown| && i + 1 < |shown| && Shows(shown, i, text)
    requires forall j :: 0 <= j < |shown| ==> ops[6 + j] == shown[j]
    ensures Shows(ops, 6 + i, text) && ops[7 + i] == shown[i + 1]
  {
    assert ops[6 + i] == shown[i] && ops[6 + (i + 1)] == shown[i + 1];
  }

  // ---------------------------------------------------------------- the lines of a document

  /** Where the lines of the document begin. */
  function HeadingSize(d: Document): nat {
    10 + (if d.sourceDocumentNumber.Some? && d.sourceDocumentNumber.value != "" then 1 else 0)
    + if d.period.Some? then 1 else 0
  }

  lemma {:induction false} FlatPairs<T>(f: T -> seq<string>, items: seq<T>, k: nat)
    requires k < |items| && forall x :: |f(x)| == 2
    ensures |FlatMap(f, items)| == 2 * |items|
    ensures FlatMap(f, items)[2 * k] == f(items[k])[0] && FlatMap(f, items)[2 * k + 1] == f(items[k])[1]
    decreases |items|
  {
    var first, rest := f(items[0]), FlatMap(f, items[1..]);
    assert FlatMap(f, items) == first + rest;
    if |items| > 1 {
      FlatPairs(f, items[1..], if k == 0 then 0 else k - 1);
      if k > 0 { assert forall i :: 2 <= i < |first + rest| ==> (first + rest)[i] == rest[i - 2]; }
    } else {
      assert rest == [];
    }
  }

  /** The heading says what the document is, its status, parties and currency, its source and period if it has them,
      and its three totals. */
  lemma {:induction false} HeadingSays(d: Document)
    ensures var texts, h := Heading(d), HeadingSize(d);
      && |texts| == h
      && texts[0] == (if d.documentType.InvoiceDocument? then "INVOICE" else "CREDIT NOTE") + " " + d.documentNumber
      && texts[1] == "Status: " + d.status && texts[2] == "Client: " + d.clientCode
      && texts[3] == "Warehouse: " + d.warehouseCode && texts[4] == "Currency: " + d.currency
      && (d.sourceDocumentNumber.Some? && d.sourceDocumentNumber.value != "" ==>
            texts[5] == "Source invoice: " + d.sourceDocumentNumber.value)
      && (d.period.Some? ==> texts[h - 6] == "Period: " + d.period.value.0 + " - " + d.period.value.1)
      && texts[h - 5] == "Subtotal: " + FormatMinor(d.subtotalMinor, d.currency)
      && texts[h - 4] == "Tax: " + FormatMinor(d.taxTotalMinor, d.currency)
      && texts[h - 3] == "Total: " + FormatMinor(d.totalAmountMinor, d.currency)
      && texts[h - 2] == "" && texts[h - 1] == "Lines:"
  {
  }

  function ItemText(l: DocumentLine): string {
    Print(l.lineNumber) + ". " + l.eventType + " qty=" + Print(l.quantity)
    + " net=" + FormatMinor(l.netAmountMinor, l.currency) + " tax=" + FormatMinor(l.taxAmountMinor, l.currency)
    + " gross=" + FormatMinor(l.grossAmountMinor, l.currency)
  }

  lemma {:induction false} Between(a: seq<string>, b: seq<string>, c: seq<string>, k: nat)
    requires k < |b|
    ensures (a + b + c)[|a| + k] == b[k]
  {
  }

  lemma {:induction false} Around(a: seq<string>, b: seq<string>, c: seq<string>)
    ensures a <= a + b + c && |a + b + c| == |a| + |b| + |c|
    ensures c != [] ==> (a + b + c)[|a| + |b|] == c[0]
  {
  }

  lemma {:induction false} ItemTexts(l: DocumentLine)
    ensures LineTexts(l)[0] == ItemText(l) && LineTexts(l)[1] == "   " + l.description
  {
  }

  lemma {:induction false} ItemsShown(items: seq<DocumentLine>, k: nat)
    requires k < |items|
    ensures var shown := FlatMap(LineTexts, items);
      && |shown| == 2 * |items|
      && shown[2 * k] == ItemText(items[k]) && shown[2 * k + 1] == "   " + items[k].description
  {
    FlatPairs(LineTexts, items, k);
    ItemTexts(items[k]);
  }

  /** Two texts for each item between a heading and a note. */
  lemma {:induction false} PairsBetween(heading: seq<string>, shown: seq<string>, note: seq<string>, k: nat)
    requires 2 * k + 1 < |shown|
    ensures var texts, h := heading + shown + note, |heading|;
      texts[h + 2 * k] == shown[2 * k] && texts[h + 2 * k + 1] == shown[2 * k + 1]
  {
    Between(heading, shown, note, 2 * k);
    Between(heading, shown, note, 2 * k + 1);
  }

  lemma {:induction false} NoteOf(d: Document)
    ensures OmittedNote(d) == OmittedTexts(d.lines)
  {
  }

  /** Below a heading there are two texts for each of the first thirty-two lines, and how many lines there are beyond
      those if any. */
  ghost predicate Lists(texts: seq<string>, heading: seq<string>, lines: seq<DocumentLine>, k: nat) {
    var h := |heading|;
    && heading <= texts
    && |texts| == h + 2 * (if |lines| > 32 then 32 else |lines|) + (if |lines| > 32 then 1 else 0)
    && (|lines| > 32 ==>
          texts[h + 64] == "... " + Digits(|lines| - 32) + " more lines omitted in compact PDF export")
    && (k < |lines| && k < 32 ==>
          texts[h + 2 * k] == ItemText(lines[k]) && texts[h + 2 * k + 1] == "   " + lines[k].description)
  }

  function OmittedTexts(lines: seq<DocumentLine>): seq<string> {
    if |lines| > 32 then ["... " + Digits(|lines| - 32) + " more lines omitted in compact PDF export"] else []
  }

  lemma {:induction false} ListsParts(heading: seq<string>, lines: seq<DocumentLine>, shown: seq<string>, k: nat)
    requires |shown| == 2 * if |lines| > 32 then 32 else |lines|
    requires k < |lines| && k < 32 ==>
      shown[2 * k] == ItemText(lines[k]) && shown[2 * k + 1] == "   " + lines[k].description
    ensures Lists(heading + shown + OmittedTexts(lines), heading, lines, k)
  {
    Around(heading, shown, OmittedTexts(lines));
    if k < |lines| && k < 32 { PairsBetween(heading, shown, OmittedTexts(lines), k); }
  }

  lemma {:induction false} FirstItems(lines: seq<DocumentLine>, k: nat)
    ensures var shown := FlatMap(LineTexts, lines[..Min(32, |lines|)]);
      && |shown| == 2 * (if |lines| > 32 then 32 else |lines|)
      && (k < |lines| && k < 32 ==>
            shown[2 * k] == ItemText(lines[k]) && shown[2 * k + 1] == "   " + lines[k].description)
  {
    var items := lines[..Min(32, |lines|)];
    if items != [] { ItemsShown(items, if k < |items| then k else 0); }
  }

  /** So does every document. */
  lemma {:induction false} DocumentSays(d: Document, k: nat)
    ensures Lists(PlainLines(d), Heading(d), d.lines, k)
  {
    NoteOf(d);
    FirstItems(d.lines, k);
    ListsParts(Heading(d), d.lines, FlatMap(LineTexts, d.lines[..Min(32, |d.lines|)]), k);
  }

  // ---------------------------------------------------------------- the frame of the file

  /** The file of a document begins as PDF 1.4, has a table for five objects and the free entry where its last lines
      say, and ends by naming the first object as its root. */
  lemma {:induction false} FileFrame(nfkd: string -> string, d: Document)
    ensures var objects := DocumentObjects(nfkd, d);
      var pdf, xrefAt := Pdf(objects), |Prefix(objects, 5)|;
      && |objects| == 5 && "%PDF-1.4\n" <= pdf
      && Starts(pdf, xrefAt, "xref\n0 " + "6" + "\n" + "0000000000 65535 f \n")
      && EndsWith(pdf, "trailer\n<< /Size " + "6" + " /Root 1 0 R >>\n"
                       + ("startxref\n" + Digits(xrefAt) + "\n%%EOF\n"))
  {
    FrameOfFive(DocumentObjects(nfkd, d));
  }

  /** What a file says of each of its objects. */
  function ObjectBody(content: string, number: nat): string {
    match number
    case 1 => "<< /Type /Catalog /Pages 2 0 R >>"
    case 2 => "<< /Type /Pages /Kids [3 0 R] /Count 1 >>"
    case 3 =>
      "<< /Type /Page /Parent 2 0 R /MediaBox [0 0 595 842] /Resources << /Font << /F1 4 0 R >> >> /Contents 5 0 R >>"
    case 4 => "<< /Type /Font /Subtype /Type1 /BaseFont /Helvetica >>"
    case _ => ContentStream(content)
  }

  /** The table's entry for a number points at the object that bears it, with this body. */
  ghost predicate Numbered(objects: seq<string>, number: nat, digit: char, body: string)
    requires |objects| == 5 && 1 <= number
  {
    EntryPoints(Pdf(objects), |Prefix(objects, 5)| + |TableHead(5)|, number - 1, TextUnder(digit, body))
  }

  function TextUnder(digit: char, body: string): string { [digit] + " 0 obj\n" + body + "\nendobj\n" }

  /** Where the table's entry for a number points, a reader finds the object of that number: the catalog, the pages,
      the page that names its font and contents, the font, and the contents. */
  lemma {:induction false} ObjectsAreNumbered(content: string, number: nat, digit: char)
    requires 1 <= number <= 5 && digit == "012345"[number] && |content| < 20_000
    ensures Numbered(Objects(content), number, digit, ObjectBody(content, number))
  {
    FileSize(content);
    BodyOf(content, number);
    NumberedAt(Objects(content), number, digit, ObjectBody(content, number));
  }

  lemma {:induction false} BodyOf(content: string, number: nat)
    requires 1 <= number <= 5
    ensures Objects(content)[number - 1] == ObjectBody(content, number)
  {
  }

  lemma {:induction false} OneDigit(n: nat, digit: char)
    requires 1 <= n <= 5 && digit == "012345"[n]
    ensures Digits(n) == [digit]
  {
    assert Digits(n) == [Digit(n)];
  }

  lemma {:induction false} NumberedAt(objects: seq<string>, number: nat, digit: char, body: string)
    requires |objects| == 5 && |Prefix(objects, 5)| < Pow10(10)
    requires 1 <= number <= 5 && digit == "012345"[number] && objects[number - 1] == body
    ensures Numbered(objects, number, digit, body)
  {
    NumberedText(number, digit, body);
    EntriesPoint(objects, number - 1);
    PointsAlike(Pdf(objects), |Prefix(objects, 5)| + |TableHead(5)|, number - 1, ObjectText(number - 1, body),
                TextUnder(digit, body));
  }

  lemma {:induction false} PointsAlike(pdf: string, tableAt: nat, i: nat, text: string, same: string)
    requires EntryPoints(pdf, tableAt, i, text) && text == same
    ensures EntryPoints(pdf, tableAt, i, same)
  {
  }

  lemma {:induction false} NumberedText(number: nat, digit: char, body: string)
    requires 1 <= number <= 5 && digit == "012345"[number]
    ensures ObjectText(number - 1, body) == TextUnder(digit, body)
  {
    OneDigit(number, digit);
  }

  lemma {:induction false} FrameOfFive(objects: seq<string>)
    requires |objects| == 5
    ensures var pdf, xrefAt := Pdf(objects), |Prefix(objects, 5)|;
      && "%PDF-1.4\n" <= pdf
      && Starts(pdf, xrefAt, "xref\n0 " + "6" + "\n" + "0000000000 65535 f \n")
      && EndsWith(pdf, "trailer\n<< /Size " + "6" + " /Root 1 0 R >>\n"
                       + ("startxref\n" + Digits(xrefAt) + "\n%%EOF\n"))
  {
    TableIsThere(objects);
    SixEntries();
    FrameParts(objects);
  }

  lemma {:induction false} SixEntries()
    ensures Digits(6) == "6"
  {
    assert Digits(6) == [Digit(6)];
  }

  lemma {:induction false} FrameParts(objects: seq<string>)
    ensures var n := |objects|;
      HEAD <= Pdf(objects) && EndsWith(Pdf(objects), Trailer(n, |Prefix(objects, n)|))
  {
    var n := |objects|;
    var rest := Trailer(n, |Prefix(objects, n)|);
    Wholes(HEAD, ObjectTexts(objects, n), TableHead(n) + FREE_ENTRY + Entries(objects, n), rest);
    RegroupMiddle(Prefix(objects, n), TableHead(n), FREE_ENTRY, Entries(objects, n), rest);
  }

  lemma {:induction false} RegroupMiddle(a: string, b: string, c: string, d: string, e: string)
    ensures a + b + c + d + e == a + (b + c + d) + e
  {
  }

  lemma {:induction false} Wholes(head: string, a: string, b: string, end: string)
    ensures head <= head + a + b + end && EndsWith(head + a + b + end, end)
  {
  }
}
