/** The hand-written billing PDF: wrapped text, page content, and a file whose cross-reference
    table (section 7.5.4 of ISO 32000-1) must point at the right bytes. Text is ASCII once made
    safe, so characters and bytes coincide. */
module BillingPdf {
  import opened Common
  import opened Decimal

  // ---------------------------------------------------------------- safe text

  predicate Safe(c: char) { ' ' <= c <= '~' }

  predicate SafeText(s: string) { forall i :: 0 <= i < |s| ==> Safe(s[i]) }

  /** `toPdfSafeText`, after Unicode normalisation by `nfkd`. */
  function ToPdfSafeText(nfkd: string -> string, value: string): (r: string)
    ensures SafeText(r) && (SafeText(nfkd(value)) ==> r == nfkd(value))
  {
    var text := nfkd(value);
    seq(|text|, i requires 0 <= i < |text| => if Safe(text[i]) then text[i] else '?')
  }

  // ---------------------------------------------------------------- wrapping

  const WIDTH := 92

  /** The last space at `upTo` or before, or -1. */
  function LastSpace(s: string, upTo: nat): (i: int)
    requires upTo < |s|
    ensures -1 <= i <= upTo && (i >= 0 ==> s[i] == ' ') && forall j :: i < j <= upTo ==> s[j] != ' '
  {
    if s[upTo] == ' ' then upTo else if upTo == 0 then -1 else LastSpace(s, upTo - 1)
  }

  /** Safe text has no white space but spaces. */
  function TrimStart(s: string): (r: string)
    ensures |r| <= |s| && (r == [] || r[0] != ' ') && (SafeText(s) ==> SafeText(r))
  {
    if s != [] && s[0] == ' ' then TrimStart(s[1..]) else s
  }

  function NonSpace(s: string): string {
    if s == [] then [] else (if s[0] == ' ' then [] else [s[0]]) + NonSpace(s[1..])
  }

  function Joined(pieces: seq<string>): string { if pieces == [] then [] else pieces[0] + Joined(pieces[1..]) }

  lemma {:induction false} NonSpaceConcat(a: string, b: string)
    ensures NonSpace(a + b) == NonSpace(a) + NonSpace(b)
  {
    if a == [] { assert a + b == b; }
    else { assert (a + b)[1..] == a[1..] + b; NonSpaceConcat(a[1..], b); }
  }

  lemma {:induction false} NonSpaceTrim(s: string)
    ensures NonSpace(TrimStart(s)) == NonSpace(s)
  {
    if s != [] && s[0] == ' ' { NonSpaceTrim(s[1..]); }
  }

  predicate Fits(line: string) { |line| <= WIDTH && SafeText(line) }

  /** Where a long line is broken: at the last space that leaves at most 92 characters, and inside a word only
      when there is no such space after the first character. */
  function CutAt(s: string): (cut: nat)
    requires |s| > WIDTH
    ensures 1 <= cut <= 92
    ensures s[cut] == ' ' || (cut == 92 && forall j :: 1 <= j <= 92 ==> s[j] != ' ')
    ensures s[cut] == ' ' ==> forall j :: cut < j <= 92 ==> s[j] != ' '
  {
    var cut := LastSpace(s, WIDTH);
    if cut <= 0 then WIDTH else cut
  }

  function Pieces(s: string): seq<string>
    decreases |s|
  {
    if s == "" then [] else if |s| <= WIDTH then [s] else [s[..CutAt(s)]] + Pieces(TrimStart(s[CutAt(s)..]))
  }

  /** A line that fits is kept as it is, even when empty. */
  function Wrap(text: string): seq<string> { if |text| <= WIDTH then [text] else Pieces(text) }

  lemma {:induction false} PiecesFit(s: string)
    requires SafeText(s)
    ensures forall i :: 0 <= i < |Pieces(s)| ==> Fits(Pieces(s)[i]) && Pieces(s)[i] != ""
    ensures s != "" ==> Pieces(s) != []
    decreases |s|
  {
    if |s| > WIDTH { PiecesFit(TrimStart(s[CutAt(s)..])); }
  }

  lemma {:induction false} PiecesKeep(s: string)
    ensures NonSpace(Joined(Pieces(s))) == NonSpace(s)
    decreases |s|
  {
    if |s| > WIDTH {
      var head, tail := s[..CutAt(s)], s[CutAt(s)..];
      PiecesKeep(TrimStart(tail));
      NonSpaceTrim(tail);
      assert s == head + tail && Pieces(s)[1..] == Pieces(TrimStart(tail));
      NonSpaceConcat(head, tail);
      NonSpaceConcat(head, Joined(Pieces(TrimStart(tail))));
    } else if s != "" {
      JoinedOne(s);
    }
  }

  lemma {:induction false} JoinedOne(s: string)
    ensures Joined([s]) == s
  {
    assert [s][1..] == [] && Joined([]) == "";
  }

  /** Wrapped lines fit, there is at least one, and no non-space character is lost or moved. */
  lemma {:induction false} WrapCorrect(text: string)
    requires SafeText(text)
    ensures forall i :: 0 <= i < |Wrap(text)| ==> Fits(Wrap(text)[i]) && |Wrap(text)[i]| <= 92
    ensures |text| <= 92 ==> Wrap(text) == [text]
    ensures Wrap(text) != [] && NonSpace(Joined(Wrap(text))) == NonSpace(text)
  {
    if |text| <= WIDTH { JoinedOne(text); } else { PiecesFit(text); PiecesKeep(text); }
  }

  method WrapPdfLine(nfkd: string -> string, value: string) returns (wrapped: seq<string>)
    ensures wrapped == Wrap(ToPdfSafeText(nfkd, value))
  {
    var text := ToPdfSafeText(nfkd, value);
    if |text| <= WIDTH { return [text]; }
    wrapped := [];
    var cursor := text;
    while |cursor| > WIDTH
      invariant wrapped + Pieces(cursor) == Pieces(text)
      decreases |cursor|
    {
      var cut := CutAt(cursor);
      wrapped := wrapped + [cursor[..cut]];
      cursor := TrimStart(cursor[cut..]);
    }
    if cursor != "" { wrapped := wrapped + [cursor]; }
  }

  // ---------------------------------------------------------------- string literals

  /** `replace(/c/g, '\\' + c)`: a backslash before every `c`. */
  function Slashed(c: char, s: string): string {
    if s == [] then [] else (if s[0] == c then ['\\', c] else [s[0]]) + Slashed(c, s[1..])
  }

  function PdfEscape(s: string): string { Slashed(')', Slashed('(', Slashed('\\', s))) }

  predicate Special(c: char) { c == '\\' || c == '(' || c == ')' }

  function Escaped(s: string): (r: string)
    ensures |s| <= |r| <= 2 * |s|
  {
    if s == [] then [] else (if Special(s[0]) then ['\\', s[0]] else [s[0]]) + Escaped(s[1..])
  }

  lemma {:induction false} SlashedConcat(c: char, a: string, b: string)
    ensures Slashed(c, a + b) == Slashed(c, a) + Slashed(c, b)
  {
    if a == [] { assert a + b == b; }
    else { assert (a + b)[1..] == a[1..] + b; SlashedConcat(c, a[1..], b); }
  }

  lemma {:induction false} SlashedOne(c: char, x: char)
    ensures Slashed(c, [x]) == if x == c then ['\\', c] else [x]
  {
    assert [x][1..] == [] && Slashed(c, []) == [];
  }

  lemma {:induction false} SlashedPair(c: char, x: char)
    requires c != '\\'
    ensures Slashed(c, ['\\', x]) == ['\\'] + Slashed(c, [x])
  {
    assert ['\\', x][1..] == [x];
  }

  /** Backslashes are doubled first, so the three replacements together put exactly one backslash before
      each special character. */
  lemma {:induction false} PdfEscapeIsEscaped(s: string)
    ensures PdfEscape(s) == Escaped(s)
  {
    if s != [] {
      var x, rest := s[0], s[1..];
      PdfEscapeIsEscaped(rest);
      var one := Slashed('\\', [x]);
      assert s == [x] + rest;
      SlashedConcat('\\', [x], rest);
      SlashedConcat('(', one, Slashed('\\', rest));
      SlashedConcat(')', Slashed('(', one), Slashed('(', Slashed('\\', rest)));
      EscapeOne(x);
    }
  }

  lemma {:induction false} EscapeOne(x: char)
    ensures PdfEscape([x]) == if Special(x) then ['\\', x] else [x]
  {
    SlashedOne('\\', x);
    SlashedOne('(', x);
    SlashedOne(')', x);
    SlashedPair('(', '\\');
    SlashedPair(')', '\\');
    SlashedPair(')', '(');
    SlashedOne('(', '\\');
    SlashedOne(')', '\\');
    SlashedOne(')', '(');
    assert ['\\'] + ['\\'] == ['\\', '\\'] && ['\\'] + ['('] == ['\\', '('];
  }

  /** A literal string as section 7.3.4.2 of ISO 32000-1 reads it, after its opening parenthesis: a backslash
      takes the next special character as it is, and parentheses nest. */
  function ReadLiteral(s: string, depth: nat): Option<(string, string)> {
    if s == [] then None
    else if s[0] == '\\' then
      if |s| > 1 && Special(s[1]) then Prefixed(s[1], ReadLiteral(s[2..], depth)) else None
    else if s[0] == ')' && depth == 0 then Some(("", s[1..]))
    else Prefixed(s[0],
      ReadLiteral(s[1..], if s[0] == '(' then depth + 1 else if s[0] == ')' then depth - 1 else depth))
  }

  function Prefixed(c: char, r: Option<(string, string)>): Option<(string, string)> {
    if r.Some? then Some(([c] + r.value.0, r.value.1)) else None
  }

  lemma {:induction false} ReadsEscaped(s: string, tail: string)
    ensures ReadLiteral(Escaped(s) + ")" + tail, 0) == Some((s, tail))
  {
    var all := Escaped(s) + ")" + tail;
    if s == [] {
      assert all == ")" + tail && all[1..] == tail;
    } else {
      var more := Escaped(s[1..]) + ")" + tail;
      ReadsEscaped(s[1..], tail);
      if Special(s[0]) { assert all == ['\\', s[0]] + more && all[2..] == more; }
      else { assert all == [s[0]] + more && all[1..] == more; }
      assert s == [s[0]] + s[1..];
    }
  }

  /** A PDF reader shows exactly the text that was escaped. */
  lemma {:induction false} LiteralReadsBack(s: string, tail: string)
    ensures ReadLiteral(PdfEscape(s) + ")" + tail, 0) == Some((s, tail))
  {
    PdfEscapeIsEscaped(s);
    ReadsEscaped(s, tail);
  }

  // ---------------------------------------------------------------- page content

  function Join(parts: seq<string>, separator: string): string {
    if parts == [] then "" else if |parts| == 1 then parts[0] else parts[0] + separator + Join(parts[1..], separator)
  }

  /** The operators for the body lines, two each. */
  function ShowLines(nfkd: string -> string, lines: seq<string>): seq<string> {
    if lines == [] then []
    else ["(" + PdfEscape(ToPdfSafeText(nfkd, lines[0])) + ") Tj", "0 -12 Td"] + ShowLines(nfkd, lines[1..])
  }

  const PRINTED := 70

  function Body(lines: seq<string>): seq<string> {
    if lines == [] then [] else lines[1..Min(PRINTED, |lines|)]
  }

  function PageOperators(nfkd: string -> string, lines: seq<string>): seq<string> {
    var title := if lines == [] then "WMS document" else lines[0];
    ["BT", "/F1 16 Tf", "50 800 Td", "(" + PdfEscape(title) + ") Tj", "/F1 9 Tf", "0 -22 Td"]
    + ShowLines(nfkd, Body(lines)) + ["ET"]
  }

  function PageContent(nfkd: string -> string, lines: seq<string>): string { Join(PageOperators(nfkd, lines), "\n") }

  lemma {:induction false} ShowSnoc(nfkd: string -> string, lines: seq<string>, line: string)
    ensures ShowLines(nfkd, lines + [line])
      == ShowLines(nfkd, lines) + ["(" + PdfEscape(ToPdfSafeText(nfkd, line)) + ") Tj", "0 -12 Td"]
  {
    if lines == [] { assert [line][1..] == [] && lines + [line] == [line]; }
    else { assert (lines + [line])[1..] == lines[1..] + [line]; ShowSnoc(nfkd, lines[1..], line); }
  }

  method BuildPageContent(nfkd: string -> string, lines: seq<string>) returns (content: string)
    ensures content == PageContent(nfkd, lines)
  {
    var title := if lines == [] then "WMS document" else lines[0];
    var operators := ["BT", "/F1 16 Tf", "50 800 Td", "(" + PdfEscape(title) + ") Tj", "/F1 9 Tf", "0 -22 Td"];
    ghost var opening := operators;
    var body := Body(lines);
    for i := 0 to |body|
      invariant operators == opening + ShowLines(nfkd, body[..i])
    {
      assert body[..i + 1] == body[..i] + [body[i]];
      ShowSnoc(nfkd, body[..i], body[i]);
      operators := operators + ["(" + PdfEscape(ToPdfSafeText(nfkd, body[i])) + ") Tj", "0 -12 Td"];
    }
    assert body[..|body|] == body;
    operators := operators + ["ET"];
    content := Join(operators, "\n");
  }

  // ---------------------------------------------------------------- the file

  const CATALOG := "<< /Type /Catalog /Pages 2 0 R >>"
  const PAGES := "<< /Type /Pages /Kids [3 0 R] /Count 1 >>"
  const PAGE :=
    "<< /Type /Page /Parent 2 0 R /MediaBox [0 0 595 842] /Resources << /Font << /F1 4 0 R >> >> /Contents 5 0 R >>"
  const FONT := "<< /Type /Font /Subtype /Type1 /BaseFont /Helvetica >>"

  function ContentStream(content: string): string {
    "<< /Length " + Digits(|content|) + " >>\nstream\n" + content + "\nendstream"
  }

  function Objects(content: string): (r: seq<string>)
    ensures |r| == 5
  {
    [CATALOG, PAGES, PAGE, FONT, ContentStream(content)]
  }

  function ObjectText(index: nat, text: string): string { Digits(index + 1) + " 0 obj\n" + text + "\nendobj\n" }

  function EntryText(offset: nat): string { PadStart(Digits(offset), 10) + " 00000 n \n" }

  const FREE_ENTRY := "0000000000 65535 f \n"

  function TableHead(count: nat): string { "xref\n0 " + Digits(count + 1) + "\n" }

  function TrailerDictionary(count: nat): string { "trailer\n<< /Size " + Digits(count + 1) + " /Root 1 0 R >>\n" }

  function Trailer(count: nat, xrefOffset: nat): string {
    TrailerDictionary(count) + Footer(Digits(xrefOffset))
  }

  function Footer(number: string): string { "startxref\n" + number + "\n%%EOF\n" }

  predicate Starts(s: string, at: nat, piece: string) { at <= |s| && piece <= s[at..] }

  /** The cross-reference entry for object `i + 1` is twenty bytes: ten digits that read as the object's
      position, then the generation and the in-use mark. */
  ghost predicate EntryPoints(pdf: string, tableAt: nat, i: nat, objectText: string) {
    var at := tableAt + 20 * (i + 1);
    && at + 20 <= |pdf|
    && (forall k :: at <= k < at + 10 ==> IsDigit(pdf[k]))
    && pdf[at + 10..at + 20] == " 00000 n \n"
    && Starts(pdf, ReadNat(pdf[at..at + 10]), objectText)
  }

  predicate EndsWith(s: string, piece: string) { |piece| <= |s| && s[|s| - |piece|..] == piece }

  /** The file ends with a footer whose `number` gives `xrefAt` in decimal. */
  ghost predicate EndsGiving(pdf: string, xrefAt: nat, number: string) {
    && (forall k :: 0 <= k < |number| ==> IsDigit(number[k])) && ReadNat(number) == xrefAt
    && EndsWith(pdf, Footer(number))
  }

  /** A reader that starts from the end of the file finds the table where `startxref` says, and through its
      entries the first `n` objects. */
  ghost predicate Reachable(pdf: string, objects: seq<string>, xrefAt: nat, number: string, n: nat)
    requires n <= |objects|
  {
    if n == 0 then EndsGiving(pdf, xrefAt, number) && Starts(pdf, xrefAt, TableHead(|objects|) + FREE_ENTRY)
    else
      && Reachable(pdf, objects, xrefAt, number, n - 1)
      && EntryPoints(pdf, xrefAt + |TableHead(|objects|)|, n - 1, ObjectText(n - 1, objects[n - 1]))
  }

  const HEAD := "%PDF-1.4\n"

  function ObjectTexts(objects: seq<string>, n: nat): string
    requires n <= |objects|
  {
    if n == 0 then "" else ObjectTexts(objects, n - 1) + ObjectText(n - 1, objects[n - 1])
  }

  /** Everything before object `n + 1`. */
  function Prefix(objects: seq<string>, n: nat): string
    requires n <= |objects|
  {
    HEAD + ObjectTexts(objects, n)
  }

  function Entries(objects: seq<string>, n: nat): string
    requires n <= |objects|
  {
    if n == 0 then "" else Entries(objects, n - 1) + EntryText(|Prefix(objects, n - 1)|)
  }

  function Pdf(objects: seq<string>): string {
    var n := |objects|;
    Prefix(objects, n) + TableHead(n) + FREE_ENTRY + Entries(objects, n) + Trailer(n, |Prefix(objects, n)|)
  }

  lemma {:induction false} StartsLater(s: string, more: string, at: nat, piece: string)
    requires Starts(s, at, piece)
    ensures Starts(s + more, at, piece)
  {
  }

  lemma {:induction false} ObjectAt(objects: seq<string>, i: nat, n: nat)
    requires i < n <= |objects|
    ensures Starts(Prefix(objects, n), |Prefix(objects, i)|, ObjectText(i, objects[i]))
    ensures |Prefix(objects, i)| <= |Prefix(objects, n)|
  {
    var last := ObjectText(n - 1, objects[n - 1]);
    assert Prefix(objects, n) == Prefix(objects, n - 1) + last;
    if i < n - 1 {
      ObjectAt(objects, i, n - 1);
      StartsLater(Prefix(objects, n - 1), last, |Prefix(objects, i)|, ObjectText(i, objects[i]));
    }
  }

  lemma {:induction false} EntryShape(offset: nat)
    requires offset < Pow10(10)
    ensures var e := EntryText(offset);
      && |e| == 20 && (forall k :: 0 <= k < 10 ==> IsDigit(e[k]))
            && ReadNat(e[..10]) == offset && e[10..] == " 00000 n \n"
  {
    DigitsFit(offset, 10);
    PadReadsBack(offset, 10);
    var digits := PadStart(Digits(offset), 10);
    assert EntryText(offset)[..10] == digits;
    forall k | 0 <= k < 10 ensures IsDigit(EntryText(offset)[k]) { assert EntryText(offset)[k] == digits[k]; }
  }

  lemma {:induction false} EntriesLength(objects: seq<string>, n: nat)
    requires n <= |objects| && |Prefix(objects, |objects|)| < Pow10(10)
    ensures |Entries(objects, n)| == 20 * n
  {
    if n > 0 {
      ObjectAt(objects, n - 1, |objects|);
      EntryShape(|Prefix(objects, n - 1)|);
      EntriesLength(objects, n - 1);
    }
  }

  lemma {:induction false} AppendKeepsSlice(a: string, b: string, from: nat, to: nat)
    requires from <= to <= |a|
    ensures (a + b)[from..to] == a[from..to]
  {
  }

  lemma {:induction false} AppendedSlice(a: string, b: string)
    ensures (a + b)[|a|..|a| + |b|] == b
  {
  }

  lemma {:induction false} EntryAt(objects: seq<string>, i: nat, n: nat)
    requires i < n <= |objects| && |Prefix(objects, |objects|)| < Pow10(10)
    ensures |Entries(objects, n)| == 20 * n
    ensures Entries(objects, n)[20 * i..20 * i + 20] == EntryText(|Prefix(objects, i)|)
  {
    var before, last := Entries(objects, n - 1), EntryText(|Prefix(objects, n - 1)|);
    EntriesLength(objects, n);
    EntriesLength(objects, n - 1);
    if i < n - 1 {
      EntryAt(objects, i, n - 1);
      AppendKeepsSlice(before, last, 20 * i, 20 * i + 20);
    } else {
      AppendedSlice(before, last);
    }
  }

  lemma {:induction false} EntrySlice(whole: string, before: string, middle: string, after: string, at: nat,
                                      piece: string)
    requires whole == before + middle + after && at + |piece| <= |middle| && middle[at..at + |piece|] == piece
    ensures |before| + at + |piece| <= |whole| && whole[|before| + at..|before| + at + |piece|] == piece
    ensures forall k :: 0 <= k < |piece| ==> whole[|before| + at + k] == piece[k]
  {
    forall k | 0 <= k < |piece| ensures whole[|before| + at + k] == piece[k] { assert middle[at + k] == piece[k]; }
  }

  /** An entry of the table, seen inside the whole file. */
  lemma {:induction false} EntryInFile(pdf: string, before: string, entries: string, after: string, i: nat, offset: nat,
                                       objectText: string)
    requires pdf == before + entries + after && |before| >= 20
    requires EntryStands(entries, i, offset) && Starts(pdf, offset, objectText)
    ensures EntryPoints(pdf, |before| - 20, i, objectText)
  {
    EntryShape(offset);
    EntrySlice(pdf, before, entries, after, 20 * i, EntryText(offset));
    EntryShown(pdf, |before| - 20, i, EntryText(offset), offset, objectText);
  }

  lemma {:induction false} EntryShown(pdf: string, tableAt: nat, i: nat, e: string, offset: nat, objectText: string)
    requires |e| == 20 && (forall k :: 0 <= k < 10 ==> IsDigit(e[k]))
    requires ReadNat(e[..10]) == offset && e[10..] == " 00000 n \n"
    requires tableAt + 20 * i + 40 <= |pdf| && pdf[tableAt + 20 * i + 20..tableAt + 20 * i + 40] == e
    requires Starts(pdf, offset, objectText)
    ensures EntryPoints(pdf, tableAt, i, objectText)
  {
    var at := tableAt + 20 * (i + 1);
    DigitsOfSlice(pdf, at, e);
    SliceOfSlice(pdf, at, e, 0, 10);
    SliceOfSlice(pdf, at, e, 10, 20);
  }

  lemma {:induction false} DigitsOfSlice(whole: string, at: nat, piece: string)
    requires at + |piece| <= |whole| && whole[at..at + |piece|] == piece
    requires |piece| >= 10 && forall k :: 0 <= k < 10 ==> IsDigit(piece[k])
    ensures forall k :: at <= k < at + 10 ==> IsDigit(whole[k])
  {
    var part := whole[at..at + |piece|];
    forall k | at <= k < at + 10 ensures IsDigit(whole[k]) { assert part[k - at] == whole[k]; }
  }

  lemma {:induction false} SliceOfSlice(whole: string, at: nat, piece: string, from: nat, to: nat)
    requires at + |piece| <= |whole| && whole[at..at + |piece|] == piece && from <= to <= |piece|
    ensures whole[at + from..at + to] == piece[from..to]
  {
    var part := whole[at..at + |piece|];
    forall k | from <= k < to ensures whole[at + k] == piece[k] { assert part[k] == whole[at + k]; }
  }

  lemma {:induction false} ObjectInPdf(objects: seq<string>, i: nat)
    requires i < |objects|
    ensures Starts(Pdf(objects), |Prefix(objects, i)|, ObjectText(i, objects[i]))
  {
    var n := |objects|;
    var head, entries, after := TableHead(n), Entries(objects, n), Trailer(n, |Prefix(objects, n)|);
    ObjectAt(objects, i, n);
    StartsLater(Prefix(objects, n), head + FREE_ENTRY + entries + after,
                |Prefix(objects, i)|, ObjectText(i, objects[i]));
    Regroup(Prefix(objects, n), head, FREE_ENTRY, entries, after);
  }

  ghost predicate EntryStands(entries: string, i: nat, offset: nat) {
    20 * i + 20 <= |entries| && entries[20 * i..20 * i + 20] == EntryText(offset) && offset < Pow10(10)
  }

  lemma {:induction false} EntryReady(objects: seq<string>, i: nat)
    requires i < |objects| && |Prefix(objects, |objects|)| < Pow10(10)
    ensures EntryStands(Entries(objects, |objects|), i, |Prefix(objects, i)|)
  {
    EntryAt(objects, i, |objects|);
    ObjectAt(objects, i, |objects|);
  }

  ghost predicate Assembled(pdf: string, prefix: string, head: string, entries: string, after: string) {
    pdf == prefix + head + FREE_ENTRY + entries + after
  }

  lemma {:induction false} PdfParts(objects: seq<string>)
    ensures var n := |objects|;
      Assembled(Pdf(objects), Prefix(objects, n), TableHead(n), Entries(objects, n), Trailer(n, |Prefix(objects, n)|))
  {
  }

  lemma {:induction false} EntriesPoint(objects: seq<string>, i: nat)
    requires i < |objects| && |Prefix(objects, |objects|)| < Pow10(10)
    ensures EntryPoints(Pdf(objects), |Prefix(objects, |objects|)| + |TableHead(|objects|)|, i,
                        ObjectText(i, objects[i]))
  {
    var n := |objects|;
    EntryReady(objects, i);
    ObjectInPdf(objects, i);
    PdfParts(objects);
    EntryInTable(Pdf(objects), Prefix(objects, n), TableHead(n), Entries(objects, n), Trailer(n, |Prefix(objects, n)|),
                 i, |Prefix(objects, i)|, ObjectText(i, objects[i]));
  }

  /** The same with the parts of the file named. */
  lemma {:induction false} EntryInTable(pdf: string, prefix: string, head: string, entries: string, after: string,
                                        i: nat, offset: nat, objectText: string)
    requires Assembled(pdf, prefix, head, entries, after)
    requires EntryStands(entries, i, offset) && Starts(pdf, offset, objectText)
    ensures EntryPoints(pdf, |prefix| + |head|, i, objectText)
  {
    TableBefore(prefix, head);
    EntryInFile(pdf, prefix + head + FREE_ENTRY, entries, after, i, offset, objectText);
  }

  lemma {:induction false} TableBefore(a: string, b: string)
    ensures |a + b + FREE_ENTRY| == |a| + |b| + 20
  {
  }

  lemma {:induction false} Regroup(a: string, b: string, c: string, d: string, e: string)
    ensures a + b + c + d + e == a + (b + c + d + e)
  {
  }

  lemma {:induction false} TableStarts(a: string, b: string, c: string, more: string)
    ensures Starts(a + b + c + more, |a|, b + c)
  {
    assert a + b + c + more == a + (b + c) + more;
  }

  lemma {:induction false} TableIsThere(objects: seq<string>)
    ensures Starts(Pdf(objects), |Prefix(objects, |objects|)|, TableHead(|objects|) + FREE_ENTRY)
  {
    var n, xrefAt := |objects|, |Prefix(objects, |objects|)|;
    TableStarts(Prefix(objects, n), TableHead(n), FREE_ENTRY, Entries(objects, n));
    StartsLater(Prefix(objects, n) + TableHead(n) + FREE_ENTRY + Entries(objects, n), Trailer(n, xrefAt), xrefAt,
                TableHead(n) + FREE_ENTRY);
  }

  lemma {:induction false} FooterGives(objects: seq<string>)
    ensures EndsGiving(Pdf(objects), |Prefix(objects, |objects|)|, Digits(|Prefix(objects, |objects|)|))
  {
    var n, xrefAt := |objects|, |Prefix(objects, |objects|)|;
    var before := Prefix(objects, n) + TableHead(n) + FREE_ENTRY + Entries(objects, n);
    ReadDigits(xrefAt);
    assert Pdf(objects) == before + TrailerDictionary(n) + Footer(Digits(xrefAt));
  }

  /** The file the builder writes can be followed from its last line to every object, whatever the
      objects, as long as its offsets fit in ten digits. */
  lemma {:induction false} PdfIsWellFormed(objects: seq<string>, n: nat)
    requires n <= |objects| && |Prefix(objects, |objects|)| < Pow10(10)
    ensures Reachable(Pdf(objects), objects, |Prefix(objects, |objects|)|, Digits(|Prefix(objects, |objects|)|), n)
  {
    if n == 0 {
      FooterGives(objects);
      TableIsThere(objects);
    } else {
      PdfIsWellFormed(objects, n - 1);
      EntriesPoint(objects, n - 1);
    }
  }

  lemma {:induction false} JoinedSnoc(pieces: seq<string>, piece: string)
    ensures Joined(pieces + [piece]) == Joined(pieces) + piece
  {
    if pieces == [] {
      assert [] + [piece] == [piece];
      JoinedOne(piece);
    } else {
      assert (pieces + [piece])[1..] == pieces[1..] + [piece];
      JoinedSnoc(pieces[1..], piece);
    }
  }

  lemma {:induction false} PrefixNext(objects: seq<string>, n: nat)
    requires n < |objects|
    ensures Prefix(objects, n + 1) == Prefix(objects, n) + ObjectText(n, objects[n])
  {
  }

  ghost predicate StartingAt(objects: seq<string>, offsets: seq<nat>) {
    |offsets| <= |objects| && forall k :: 0 <= k < |offsets| ==> offsets[k] == |Prefix(objects, k)|
  }

  lemma {:induction false} OneMoreOffset(objects: seq<string>, offsets: seq<nat>, offset: nat)
    requires StartingAt(objects, offsets) && |offsets| < |objects| && offset == |Prefix(objects, |offsets|)|
    ensures StartingAt(objects, offsets + [offset])
  {
  }

  /** The numbered objects, and the offset at which each one starts. */
  method WriteObjects(objects: seq<string>) returns (chunks: seq<string>, offsets: seq<nat>)
    ensures Joined(chunks) == Prefix(objects, |objects|)
    ensures |offsets| == |objects| && forall k :: 0 <= k < |objects| ==> offsets[k] == |Prefix(objects, k)|
  {
    chunks := [HEAD];
    offsets := [];
    JoinedOne(HEAD);
    for index := 0 to |objects|
      invariant Joined(chunks) == Prefix(objects, index) && |offsets| == index && StartingAt(objects, offsets)
    {
      var text := ObjectText(index, objects[index]);
      OneMoreOffset(objects, offsets, |Joined(chunks)|);
      JoinedSnoc(chunks, text);
      PrefixNext(objects, index);
      offsets := offsets + [|Joined(chunks)|];
      chunks := chunks + [text];
    }
  }

  method WriteEntries(offsets: seq<nat>, ghost objects: seq<string>) returns (chunks: seq<string>)
    requires |offsets| == |objects| && forall k :: 0 <= k < |objects| ==> offsets[k] == |Prefix(objects, k)|
    ensures Joined(chunks) == Entries(objects, |objects|)
  {
    chunks := [];
    for i := 0 to |offsets|
      invariant Joined(chunks) == Entries(objects, i)
    {
      JoinedSnoc(chunks, EntryText(offsets[i]));
      chunks := chunks + [EntryText(offsets[i])];
    }
  }

  lemma {:induction false} JoinedConcat(a: seq<string>, b: seq<string>)
    ensures Joined(a + b) == Joined(a) + Joined(b)
  {
    if a == [] { assert a + b == b; }
    else { assert (a + b)[1..] == a[1..] + b; JoinedConcat(a[1..], b); }
  }

  method WriteFile(objects: seq<string>) returns (pdf: string)
    ensures pdf == Pdf(objects)
  {
    var chunks, offsets := WriteObjects(objects);
    var xrefOffset := |Joined(chunks)|;
    JoinedSnoc(chunks, TableHead(|objects|));
    chunks := chunks + [TableHead(|objects|)];
    JoinedSnoc(chunks, FREE_ENTRY);
    chunks := chunks + [FREE_ENTRY];
    var entries := WriteEntries(offsets, objects);
    JoinedConcat(chunks, entries);
    chunks := chunks + entries;
    JoinedSnoc(chunks, Trailer(|objects|, xrefOffset));
    chunks := chunks + [Trailer(|objects|, xrefOffset)];
    pdf := Joined(chunks);
  }

  method BuildPdfBuffer(nfkd: string -> string, lines: seq<string>) returns (pdf: string)
    ensures pdf == Pdf(Objects(PageContent(nfkd, lines)))
  {
    var content := BuildPageContent(nfkd, lines);
    pdf := WriteFile(Objects(content));
  }

  // ---------------------------------------------------------------- the document

  datatype DocumentType = InvoiceDocument | CreditNoteDocument

  datatype DocumentLine = DocumentLine(
    lineNumber: int, eventType: string, description: string, quantity: int,
    netAmountMinor: int, taxAmountMinor: int, grossAmountMinor: int, currency: string)

  datatype Document = Document(
    documentType: DocumentType, documentNumber: string, sourceDocumentNumber: Option<string>, clientCode: string,
    warehouseCode: string, currency: string, subtotalMinor: int, taxTotalMinor: int, totalAmountMinor: int,
    period: Option<(string, string)>, status: string, lines: seq<DocumentLine>)

  /** Whole minor units with two decimals. */
  function FormatMinor(value: int, currency: string): string {
    var units := if value < 0 then -value else value;
    (if value < 0 then "-" else "") + Digits(units / 100) + "." + PadStart(Digits(units % 100), 2) + " " + currency
  }

  const LISTED := 32

  function LineTexts(l: DocumentLine): seq<string> {
    [Print(l.lineNumber) + ". " + l.eventType + " qty=" + Print(l.quantity)
     + " net=" + FormatMinor(l.netAmountMinor, l.currency) + " tax=" + FormatMinor(l.taxAmountMinor, l.currency)
     + " gross=" + FormatMinor(l.grossAmountMinor, l.currency),
     "   " + l.description]
  }

  function FlatMap<T>(f: T -> seq<string>, items: seq<T>): seq<string> {
    if items == [] then [] else f(items[0]) + FlatMap(f, items[1..])
  }

  function Heading(d: Document): seq<string> {
    [(if d.documentType.InvoiceDocument? then "INVOICE" else "CREDIT NOTE") + " " + d.documentNumber,
     "Status: " + d.status, "Client: " + d.clientCode, "Warehouse: " + d.warehouseCode, "Currency: " + d.currency]
    + (if d.sourceDocumentNumber.Some? && d.sourceDocumentNumber.value != ""
        then ["Source invoice: " + d.sourceDocumentNumber.value] else [])
    + (if d.period.Some? then ["Period: " + d.period.value.0 + " - " + d.period.value.1] else [])
    + ["Subtotal: " + FormatMinor(d.subtotalMinor, d.currency), "Tax: " + FormatMinor(d.taxTotalMinor, d.currency),
       "Total: " + FormatMinor(d.totalAmountMinor, d.currency), "", "Lines:"]
  }

  function PlainLines(d: Document): seq<string> {
    Heading(d) + FlatMap(LineTexts, d.lines[..Min(LISTED, |d.lines|)]) + OmittedNote(d)
  }

  function OmittedNote(d: Document): seq<string> {
    if |d.lines| > LISTED then ["... " + Digits(|d.lines| - LISTED) + " more lines omitted in compact PDF export"]
      else []
  }

  function WrapAll(nfkd: string -> string, lines: seq<string>): seq<string> {
    if lines == [] then [] else Wrap(ToPdfSafeText(nfkd, lines[0])) + WrapAll(nfkd, lines[1..])
  }

  function DocumentObjects(nfkd: string -> string, d: Document): seq<string> {
    Objects(PageContent(nfkd, WrapAll(nfkd, PlainLines(d))))
  }

  lemma {:induction false} FlatMapSnoc<T>(f: T -> seq<string>, items: seq<T>, x: T)
    ensures FlatMap(f, items + [x]) == FlatMap(f, items) + f(x)
  {
    if items == [] { assert [] + [x] == [x] && [x][1..] == []; assert FlatMap(f, [x]) == f(x) + []; }
    else { assert (items + [x])[1..] == items[1..] + [x]; FlatMapSnoc(f, items[1..], x); }
  }

  lemma {:induction false} WrapAllSnoc(nfkd: string -> string, lines: seq<string>, line: string)
    ensures WrapAll(nfkd, lines + [line]) == WrapAll(nfkd, lines) + Wrap(ToPdfSafeText(nfkd, line))
  {
    if lines == [] {
      assert [] + [line] == [line] && [line][1..] == [];
      assert WrapAll(nfkd, [line]) == Wrap(ToPdfSafeText(nfkd, line)) + [];
    }
    else { assert (lines + [line])[1..] == lines[1..] + [line]; WrapAllSnoc(nfkd, lines[1..], line); }
  }

  /** Push the texts of every item after those already there. */
  method PushAll<T>(f: T -> seq<string>, items: seq<T>, before: seq<string>) returns (texts: seq<string>)
    ensures texts == before + FlatMap(f, items)
  {
    texts := before;
    for i := 0 to |items|
      invariant texts == before + FlatMap(f, items[..i])
    {
      assert items[..i + 1] == items[..i] + [items[i]];
      FlatMapSnoc(f, items[..i], items[i]);
      texts := texts + f(items[i]);
    }
    assert items[..|items|] == items;
  }

  method WrapLines(nfkd: string -> string, lines: seq<string>) returns (wrapped: seq<string>)
    ensures wrapped == WrapAll(nfkd, lines)
  {
    wrapped := [];
    for i := 0 to |lines|
      invariant wrapped == WrapAll(nfkd, lines[..i])
    {
      assert lines[..i + 1] == lines[..i] + [lines[i]];
      WrapAllSnoc(nfkd, lines[..i], lines[i]);
      var pieces := WrapPdfLine(nfkd, lines[i]);
      wrapped := wrapped + pieces;
    }
    assert lines[..|lines|] == lines;
  }

  method BuildBillingPdfLines(nfkd: string -> string, d: Document) returns (wrapped: seq<string>)
    ensures wrapped == WrapAll(nfkd, PlainLines(d))
  {
    var lines := PushAll(LineTexts, d.lines[..Min(LISTED, |d.lines|)], Heading(d));
    lines := lines + OmittedNote(d);
    wrapped := WrapLines(nfkd, lines);
  }

  method BuildBillingPdf(nfkd: string -> string, d: Document) returns (pdf: string)
    ensures pdf == Pdf(DocumentObjects(nfkd, d))
  {
    var lines := BuildBillingPdfLines(nfkd, d);
    pdf := BuildPdfBuffer(nfkd, lines);
  }

  // ---------------------------------------------------------------- every document is small enough

  /** Normalisation leaves ASCII text alone. */
  ghost predicate AsciiStable(nfkd: string -> string) { forall s :: SafeText(s) ==> nfkd(s) == s }

  lemma {:induction false} WrapAllFits(nfkd: string -> string, lines: seq<string>)
    ensures forall i :: 0 <= i < |WrapAll(nfkd, lines)| ==> Fits(WrapAll(nfkd, lines)[i])
  {
    if lines != [] {
      WrapCorrect(ToPdfSafeText(nfkd, lines[0]));
      WrapAllFits(nfkd, lines[1..]);
    }
  }

  function Size(parts: seq<string>): nat { if parts == [] then 0 else |parts[0]| + 1 + Size(parts[1..]) }

  lemma {:induction false} JoinSize(parts: seq<string>)
    ensures |Join(parts, "\n")| <= Size(parts)
  {
    if |parts| > 1 { JoinSize(parts[1..]); }
  }

  lemma {:induction false} SizeConcat(a: seq<string>, b: seq<string>)
    ensures Size(a + b) == Size(a) + Size(b)
  {
    if a == [] { assert a + b == b; }
    else { assert (a + b)[1..] == a[1..] + b; SizeConcat(a[1..], b); }
  }

  lemma {:induction false} EscapedFits(line: string)
    requires |line| <= WIDTH
    ensures |PdfEscape(line)| <= 2 * WIDTH
  {
    PdfEscapeIsEscaped(line);
  }

  lemma {:induction false} ShownSize(nfkd: string -> string, lines: seq<string>)
    requires AsciiStable(nfkd) && forall i :: 0 <= i < |lines| ==> Fits(lines[i])
    ensures Size(ShowLines(nfkd, lines)) <= 199 * |lines|
  {
    if lines != [] {
      var text := ToPdfSafeText(nfkd, lines[0]);
      EscapedFits(lines[0]);
      var two := ["(" + PdfEscape(text) + ") Tj", "0 -12 Td"];
      ShownSize(nfkd, lines[1..]);
      SizeConcat(two, ShowLines(nfkd, lines[1..]));
      SizeTwo(two[0], two[1]);
      assert |"0 -12 Td"| == 8 && |") Tj"| == 4;
    }
  }

  lemma {:induction false} SizeTwo(a: string, b: string)
    ensures Size([a, b]) == |a| + |b| + 2
  {
    assert [a, b][1..] == [b] && [b][1..] == [] && Size([b]) == |b| + 1;
  }

  lemma {:induction false} OpeningSize(title: string)
    requires |title| <= WIDTH
    ensures Size(["BT", "/F1 16 Tf", "50 800 Td", "(" + PdfEscape(title) + ") Tj", "/F1 9 Tf", "0 -22 Td"]) <= 300
  {
    EscapedFits(title);
    var shown := "(" + PdfEscape(title) + ") Tj";
    var a, b, c := ["BT", "/F1 16 Tf"], ["50 800 Td", shown], ["/F1 9 Tf", "0 -22 Td"];
    SizeTwo("BT", "/F1 16 Tf");
    SizeTwo("50 800 Td", shown);
    SizeTwo("/F1 9 Tf", "0 -22 Td");
    SizeConcat(a, b);
    SizeConcat(a + b, c);
    assert a + b + c == ["BT", "/F1 16 Tf", "50 800 Td", shown, "/F1 9 Tf", "0 -22 Td"];
  }

  lemma {:induction false} ContentSize(nfkd: string -> string, lines: seq<string>)
    requires AsciiStable(nfkd) && forall i :: 0 <= i < |lines| ==> Fits(lines[i])
    ensures |PageContent(nfkd, lines)| < 20_000
  {
    var title := if lines == [] then "WMS document" else lines[0];
    var opening := ["BT", "/F1 16 Tf", "50 800 Td", "(" + PdfEscape(title) + ") Tj", "/F1 9 Tf", "0 -22 Td"];
    var shown := ShowLines(nfkd, Body(lines));
    OpeningSize(title);
    ShownSize(nfkd, Body(lines));
    SizeConcat(opening, shown);
    SizeConcat(opening + shown, ["ET"]);
    assert Size(["ET"]) == 3 by { assert ["ET"][1..] == []; }
    JoinSize(PageOperators(nfkd, lines));
  }

  lemma {:induction false} FixedSizes()
    ensures |CATALOG| + |PAGES| + |PAGE| + |FONT| <= 400
  {
    assert |CATALOG| == 33 && |PAGES| == 41 && |PAGE| == 110 && |FONT| == 54;
  }

  lemma {:induction false} ObjectSize(index: nat, text: string)
    requires index < 9
    ensures |ObjectText(index, text)| <= |text| + 20
  {
  }

  lemma {:induction false} FileSize(content: string)
    requires |content| < 20_000
    ensures |Prefix(Objects(content), 5)| < Pow10(10)
  {
    var objects := Objects(content);
    FixedSizes();
    DigitsFit(|content|, 5);
    for i := 0 to 5
      invariant |Prefix(objects, i)| <= |HEAD| + 20 * i + (if i > 0 then |CATALOG| else 0)
        + (if i > 1 then |PAGES| else 0)
        + (if i > 2 then |PAGE| else 0) + (if i > 3 then |FONT| else 0)
            + (if i > 4 then |ContentStream(content)| else 0)
    {
      PrefixNext(objects, i);
      ObjectSize(i, objects[i]);
    }
  }

  /** The content stream declares its own length, and the page text follows. */
  ghost predicate StreamHolds(stream: string, content: string, number: string) {
    && (forall k :: 0 <= k < |number| ==> IsDigit(number[k])) && ReadNat(number) == |content|
    && stream == "<< /Length " + number + " >>\nstream\n" + content + "\nendstream"
  }

  /** Every invoice or credit note, whatever its texts, amounts and number of lines, becomes a file in which
      each of the five objects is found through the cross-reference table, and whose content stream has
      exactly the length it declares. */
  lemma {:induction false} EveryDocumentIsWellFormed(nfkd: string -> string, d: Document)
    requires AsciiStable(nfkd)
    ensures var objects := DocumentObjects(nfkd, d);
      && |objects| == 5
      && Reachable(Pdf(objects), objects, |Prefix(objects, 5)|, Digits(|Prefix(objects, 5)|), 5)
    ensures var content := PageContent(nfkd, WrapAll(nfkd, PlainLines(d)));
      StreamHolds(DocumentObjects(nfkd, d)[4], content, Digits(|content|))
  {
    var lines := WrapAll(nfkd, PlainLines(d));
    WrapAllFits(nfkd, PlainLines(d));
    ContentSize(nfkd, lines);
    FileSize(PageContent(nfkd, lines));
    PdfIsWellFormed(DocumentObjects(nfkd, d), 5);
    ReadDigits(|PageContent(nfkd, lines)|);
  }
}
