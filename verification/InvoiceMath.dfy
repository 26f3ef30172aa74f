/** Invoice lines, tax rounding, credit notes and storage days. Amounts are whole minor units. */
module InvoiceMath {
  import opened Common
  import opened Sorting

  const BASIS_POINTS := 10_000
  const MS_PER_DAY := 86_400_000

  // ---------------------------------------------------------------- tax

  datatype Tax = Tax(vatRateBps: Option<int>, net: int, tax: int, gross: int)

  function NormalizeRate(rate: Option<int>): Option<int> {
    if rate.None? then None else Some(Min(BASIS_POINTS, Max(0, rate.value)))
  }

  /** `Math.round` of `n / 10000` for `n >= 0`: halves go up. */
  function RoundedShare(n: nat): nat { (n + BASIS_POINTS / 2) / BASIS_POINTS }

  function RateOf(rate: Option<int>): nat {
    if rate.None? then 0 else NormalizeRate(rate).value
  }

  function CalculateTaxAmounts(amountMinor: int, vatRateBps: Option<int>): Tax {
    var net := Max(0, amountMinor);
    var rate := NormalizeRate(vatRateBps);
    var tax := if rate.None? then 0 else RoundedShare(net * rate.value);
    Tax(rate, net, tax, net + tax)
  }

  /** Rounding a share of at most the whole. */
  lemma {:induction false} ShareIsNearest(net: int, rate: int)
    requires net >= 0 && 0 <= rate <= BASIS_POINTS
    ensures -5000 < BASIS_POINTS * RoundedShare(net * rate) - net * rate <= 5000
      && 0 <= RoundedShare(net * rate) <= net
  {
    ShareBounds(net, rate);
    RoundedNearest(net * rate);
  }

  lemma {:induction false} ShareBounds(net: int, rate: int)
    requires net >= 0 && 0 <= rate <= BASIS_POINTS
    ensures 0 <= net * rate <= net * BASIS_POINTS
  {
  }

  lemma {:induction false} RoundedNearest(scaled: nat)
    ensures -5000 < BASIS_POINTS * RoundedShare(scaled) - scaled <= 5000
  {
  }

  /** Each line's tax is the whole minor unit nearest to the exact share, and the higher one of two equally near.
      A rate outside 0..10,000 basis points counts as the nearer bound, a negative amount as nothing. */
  lemma {:induction false} TaxIsNearest(amountMinor: int, vatRateBps: Option<int>)
    ensures var t := CalculateTaxAmounts(amountMinor, vatRateBps);
      && t.net == (if amountMinor >= 0 then amountMinor else 0) && t.gross == t.net + t.tax && 0 <= t.tax <= t.net
      && match vatRateBps
         case None => t.vatRateBps == None && t.tax == 0
         case Some(asked) =>
           var bps := if asked < 0 then 0 else if asked > 10_000 then 10_000 else asked;
           && t.vatRateBps == Some(bps) && RateOf(vatRateBps) == bps
           && -5000 < 10_000 * t.tax - bps * t.net <= 5000
  {
    var net := Max(0, amountMinor);
    if vatRateBps.Some? {
      ShareIsNearest(net, RateOf(vatRateBps));
    }
  }

  // ---------------------------------------------------------------- invoice lines

  datatype Event = Event(
    id: string, eventType: string, reference: string, description: string, quantity: int, amountMinor: int,
    vatRateBps: Option<int>, currency: string, occurredAt: int)

  datatype Line = Line(
    lineNumber: int, sourceId: string, eventType: string, description: string, quantity: int, amountMinor: int,
    tax: Tax, currency: string)

  /** By time, then by the collation of the reference (`localeCompare(a, b) <= 0`). */
  function ByOccurrence(collate: (string, string) -> bool): (Event, Event) -> bool {
    (a: Event, b: Event) => a.occurredAt < b.occurredAt
        || (a.occurredAt == b.occurredAt && collate(a.reference, b.reference))
  }

  lemma {:induction false} OccurrencesOrdered(collate: (string, string) -> bool)
    requires TotalPreorder(collate)
    ensures TotalPreorder(ByOccurrence(collate))
  {
    var le := ByOccurrence(collate);
    forall a, b ensures le(a, b) || le(b, a) {
      assert collate(a.reference, b.reference) || collate(b.reference, a.reference);
    }
    forall a, b, c | le(a, b) && le(b, c) ensures le(a, c) {
      assert collate(a.reference, b.reference) && collate(b.reference, c.reference) ==>
          collate(a.reference, c.reference);
    }
  }

  function LineFor(e: Event, index: nat): Line {
    Line(index + 1, e.id, e.eventType, if e.description != "" then e.description else e.eventType + " " + e.reference,
         Max(0, e.quantity), Max(0, e.amountMinor),
         CalculateTaxAmounts(Max(0, e.amountMinor), e.vatRateBps), e.currency)
  }

  function BuildInvoiceLines(collate: (string, string) -> bool, events: seq<Event>): seq<Line> {
    var sorted := Sort(ByOccurrence(collate), events);
    seq(|sorted|, i requires 0 <= i < |sorted| => LineFor(sorted[i], i))
  }

  datatype Summary = Summary(subtotal: int, taxTotal: int, total: int, currency: string, lineCount: nat)

  datatype Amounts = Amounts(net: int, tax: int, gross: int)

  function Plus(a: Amounts, b: Amounts): Amounts { Amounts(a.net + b.net, a.tax + b.tax, a.gross + b.gross) }

  predicate AtMost(a: Amounts, b: Amounts) { a.net <= b.net && a.tax <= b.tax && a.gross <= b.gross }

  function AmountsOf(l: Line): Amounts { Amounts(Max(0, l.tax.net), Max(0, l.tax.tax), Max(0, l.tax.gross)) }

  function Totals(lines: seq<Line>): Amounts {
    if lines == [] then Amounts(0, 0, 0) else Plus(AmountsOf(lines[0]), Totals(lines[1..]))
  }

  function Summarize(lines: seq<Line>): Summary {
    var t := Totals(lines);
    Summary(t.net, t.tax, t.gross, if lines == [] then "EUR" else lines[0].currency, |lines|)
  }

  /** Lines as invoices carry them: their tax fields come from the tax calculation. */
  ghost predicate Taxed(lines: seq<Line>) {
    forall l :: l in lines ==> l.tax == CalculateTaxAmounts(l.amountMinor, l.tax.vatRateBps)
  }

  /** What the rates ask for, before rounding, in ten-thousandths of a minor unit. */
  function ExactTax(lines: seq<Line>): int {
    if lines == [] then 0 else RateOf(lines[0].tax.vatRateBps) * lines[0].tax.net + ExactTax(lines[1..])
  }

  /** Over any lines, whatever their rates, the total is subtotal plus tax and the tax total is
      within half a minor unit a line of the exact tax. */
  lemma {:induction false} TaxTotalNearExact(lines: seq<Line>)
    requires Taxed(lines)
    ensures Totals(lines).gross == Totals(lines).net + Totals(lines).tax
    ensures -5000 * |lines| <= BASIS_POINTS * Totals(lines).tax - ExactTax(lines) <= 5000 * |lines|
  {
    if lines != [] {
      var l := lines[0];
      assert l in lines;
      TaxIsNearest(l.amountMinor, l.tax.vatRateBps);
      TaxTotalNearExact(lines[1..]);
    }
  }

  /** A stored rate is within bounds, and the net amount is not negative. */
  lemma {:induction false} StoredRate(amountMinor: int, rate: Option<int>, bps: int)
    requires CalculateTaxAmounts(amountMinor, rate).vatRateBps == Some(bps)
    ensures 0 <= bps <= BASIS_POINTS && RateOf(Some(bps)) == bps && CalculateTaxAmounts(amountMinor, rate).net >= 0
  {
  }

  /** The exact tax of a first line and of the rest. */
  lemma {:induction false} ExactTaxNext(l: Line, rest: seq<Line>, bps: int)
    requires l.tax.vatRateBps == Some(bps) && RateOf(Some(bps)) == bps && l.tax.net >= 0
    requires ExactTax(rest) == bps * Totals(rest).net
    ensures ExactTax([l] + rest) == bps * Totals([l] + rest).net
  {
    assert ([l] + rest)[1..] == rest;
    Distribute(bps, l.tax.net, Totals(rest).net);
  }

  lemma {:induction false} ExactTaxAtOneRate(lines: seq<Line>, bps: int)
    requires Taxed(lines) && forall l :: l in lines ==> l.tax.vatRateBps == Some(bps)
    ensures 0 <= bps <= BASIS_POINTS || lines == []
    ensures ExactTax(lines) == bps * Totals(lines).net
  {
    if lines != [] {
      var l := lines[0];
      assert l in lines && [l] + lines[1..] == lines;
      StoredRate(l.amountMinor, l.tax.vatRateBps, bps);
      ExactTaxAtOneRate(lines[1..], bps);
      ExactTaxNext(l, lines[1..], bps);
    }
  }

  /** An invoice built at one VAT rate: the stored total adds up, and the tax of `n` lines is within
      `n` half-units of the rate applied to the subtotal. */
  lemma {:induction false} OneRateInvoice(collate: (string, string) -> bool, events: seq<Event>, rate: int)
    requires forall e :: e in events ==> e.vatRateBps == Some(rate)
    requires TotalPreorder(collate)
    ensures var s := Summarize(BuildInvoiceLines(collate, events));
      var bps := Min(BASIS_POINTS, Max(0, rate));
      && s.total == s.subtotal + s.taxTotal && s.lineCount == |events|
      && -5000 * |events| <= BASIS_POINTS * s.taxTotal - bps * s.subtotal <= 5000 * |events|
  {
    OccurrencesOrdered(collate);
    var lines := BuildInvoiceLines(collate, events);
    var bps := Min(BASIS_POINTS, Max(0, rate));
    SortCorrect(ByOccurrence(collate), events);
    forall l | l in lines
      ensures l.tax == CalculateTaxAmounts(l.amountMinor, l.tax.vatRateBps) && l.tax.vatRateBps == Some(bps)
    {
      var i :| 0 <= i < |lines| && lines[i] == l;
      var e := Sort(ByOccurrence(collate), events)[i];
      SortMembers(ByOccurrence(collate), events, e);
    }
    TaxTotalNearExact(lines);
    ExactTaxAtOneRate(lines, bps);
  }

  /** What the events themselves come to, before they are ordered and numbered. */
  function EventNet(events: seq<Event>): int {
    if events == [] then 0 else Max(0, events[0].amountMinor) + EventNet(events[1..])
  }

  lemma {:induction false} InsertNet(le: (Event, Event) -> bool, e: Event, events: seq<Event>)
    ensures EventNet(Insert(le, e, events)) == Max(0, e.amountMinor) + EventNet(events)
  {
    if !(events == [] || le(e, events[0])) { InsertNet(le, e, events[1..]); }
  }

  lemma {:induction false} SortNet(le: (Event, Event) -> bool, events: seq<Event>)
    ensures EventNet(Sort(le, events)) == EventNet(events)
  {
    if events != [] { SortNet(le, events[1..]); InsertNet(le, events[0], Sort(le, events[1..])); }
  }

  function NumberFrom(events: seq<Event>, first: nat): seq<Line> {
    seq(|events|, i requires 0 <= i < |events| => LineFor(events[i], first + i))
  }

  lemma {:induction false} NumberedTail(events: seq<Event>, first: nat)
    requires events != []
    ensures NumberFrom(events, first)[1..] == NumberFrom(events[1..], first + 1)
    ensures AmountsOf(NumberFrom(events, first)[0]).net == Max(0, events[0].amountMinor)
  {
  }

  lemma {:induction false} NumberedNet(events: seq<Event>, first: nat)
    ensures Totals(NumberFrom(events, first)).net == EventNet(events)
  {
    if events != [] {
      NumberedNet(events[1..], first + 1);
      NumberedTail(events, first);
    }
  }

  /** Ordering and numbering lose nothing: the subtotal is the sum of the events' amounts, line `i` is
      numbered `i + 1`, every event has its line, and lines follow the occurrence order. */
  lemma {:induction false} InvoiceLinesComplete(collate: (string, string) -> bool, events: seq<Event>)
    requires TotalPreorder(collate)
    ensures var lines := BuildInvoiceLines(collate, events);
      var sorted := Sort(ByOccurrence(collate), events);
      && Totals(lines).net == EventNet(events)
      && |lines| == |events| && multiset(sorted) == multiset(events) && SortedBy(ByOccurrence(collate), sorted)
      && forall i :: 0 <= i < |lines| ==> lines[i].lineNumber == i + 1 && lines[i].sourceId == sorted[i].id
  {
    OccurrencesOrdered(collate);
    var sorted := Sort(ByOccurrence(collate), events);
    SortCorrect(ByOccurrence(collate), events);
    SortNet(ByOccurrence(collate), events);
    NumberedNet(sorted, 0);
    assert BuildInvoiceLines(collate, events) == NumberFrom(sorted, 0);
  }

  /** A line tells of its event: who, what and how much, with nothing negative, the event's description or else its
      type and reference, and the tax of its amount. */
  ghost predicate Tells(l: Line, e: Event) {
    && l.sourceId == e.id && l.eventType == e.eventType && l.currency == e.currency
    && l.description == (if e.description == "" then e.eventType + " " + e.reference else e.description)
    && l.quantity == (if e.quantity >= 0 then e.quantity else 0)
    && l.amountMinor == l.tax.net == (if e.amountMinor >= 0 then e.amountMinor else 0)
    && l.tax == CalculateTaxAmounts(e.amountMinor, e.vatRateBps)
  }

  /** Oldest first, and by the collation of their references among events of one time. */
  ghost predicate Chronological(collate: (string, string) -> bool, events: seq<Event>) {
    forall i, j :: 0 <= i < j < |events| ==>
      || events[i].occurredAt < events[j].occurredAt
      || (events[i].occurredAt == events[j].occurredAt && collate(events[i].reference, events[j].reference))
  }

  /** The invoice is its events in order of time, one numbered line each, and its summary names the currency of the
      first, or euros for none. */
  lemma {:induction false} InvoiceTellsOfEvents(collate: (string, string) -> bool, events: seq<Event>)
    returns (ordered: seq<Event>)
    requires TotalPreorder(collate)
    ensures multiset(ordered) == multiset(events) && Chronological(collate, ordered)
    ensures var lines := BuildInvoiceLines(collate, events);
      && |lines| == |ordered| == |events|
      && (forall i :: 0 <= i < |lines| ==> lines[i].lineNumber == i + 1 && Tells(lines[i], ordered[i]))
      && Summarize(lines).currency == (if events == [] then "EUR" else ordered[0].currency)
  {
    OccurrencesOrdered(collate);
    ordered := Sort(ByOccurrence(collate), events);
    SortCorrect(ByOccurrence(collate), events);
    assert forall i, j :: 0 <= i < j < |ordered| ==> ByOccurrence(collate)(ordered[i], ordered[j]);
  }

  // ---------------------------------------------------------------- credit notes

  datatype CreditError = NoInvoiceLine

  /** No usable number selects every line. */
  function Selection(numbers: seq<int>): Option<set<int>> {
    var positive := set n | n in numbers && n > 0;
    if positive == {} then None else Some(positive)
  }

  predicate Selected(s: Option<set<int>>, l: Line) { s.None? || l.lineNumber in s.value }

  function Chosen(lines: seq<Line>, s: Option<set<int>>): seq<Line> {
    if lines == [] then [] else (if Selected(s, lines[0]) then [lines[0]] else []) + Chosen(lines[1..], s)
  }

  function Omitted(lines: seq<Line>, s: Option<set<int>>): seq<Line> {
    if lines == [] then [] else (if Selected(s, lines[0]) then [] else [lines[0]]) + Omitted(lines[1..], s)
  }

  function ByNumber(): (Line, Line) -> bool { (a: Line, b: Line) => a.lineNumber - b.lineNumber <= 0 }

  function CreditLine(l: Line, index: nat): Line {
    var a := AmountsOf(l);
    Line(index + 1, l.sourceId, l.eventType, CreditText(l.description), Max(0, l.quantity), Max(0, l.amountMinor),
         Tax(NormalizeRate(l.tax.vatRateBps), a.net, a.tax, a.gross), l.currency)
  }

  function CreditText(description: string): string {
    var text := "Credit: " + description;
    if |text| <= 500 then text else text[..500]
  }

  function BuildCreditNoteLines(lines: seq<Line>, numbers: seq<int>): Result<seq<Line>, CreditError> {
    var eligible := Sort(ByNumber(), Chosen(lines, Selection(numbers)));
    if eligible == [] then Failure(NoInvoiceLine)
    else Success(seq(|eligible|, i requires 0 <= i < |eligible| => CreditLine(eligible[i], i)))
  }

  lemma {:induction false} TotalsCons(l: Line, rest: seq<Line>)
    ensures Totals([l] + rest) == Plus(AmountsOf(l), Totals(rest))
  {
    assert ([l] + rest)[1..] == rest;
  }

  lemma {:induction false} InsertTotals(le: (Line, Line) -> bool, l: Line, lines: seq<Line>)
    ensures Totals(Insert(le, l, lines)) == Plus(AmountsOf(l), Totals(lines))
  {
    if !(lines == [] || le(l, lines[0])) { InsertTotals(le, l, lines[1..]); }
  }

  lemma {:induction false} SortTotals(le: (Line, Line) -> bool, lines: seq<Line>)
    ensures Totals(Sort(le, lines)) == Totals(lines)
  {
    if lines != [] { SortTotals(le, lines[1..]); InsertTotals(le, lines[0], Sort(le, lines[1..])); }
  }

  function CreditFrom(lines: seq<Line>, first: nat): seq<Line> {
    seq(|lines|, i requires 0 <= i < |lines| => CreditLine(lines[i], first + i))
  }

  lemma {:induction false} CreditTotals(lines: seq<Line>, first: nat)
    ensures Totals(CreditFrom(lines, first)) == Totals(lines)
  {
    if lines != [] {
      CreditTotals(lines[1..], first + 1);
      assert CreditFrom(lines, first)[1..] == CreditFrom(lines[1..], first + 1);
    }
  }

  lemma {:induction false} PlusMoves(head: Amounts, a: Amounts, b: Amounts, sum: Amounts, x: Amounts, y: Amounts,
                                     whole: Amounts)
    requires Plus(a, b) == sum && whole == Plus(head, sum)
    requires (x == Plus(head, a) && y == b) || (x == a && y == Plus(head, b))
    ensures Plus(x, y) == whole
  {
  }

  lemma {:induction false} ChosenStep(lines: seq<Line>, s: Option<set<int>>)
    requires lines != []
    ensures Selected(s, lines[0]) ==>
      Chosen(lines, s) == [lines[0]] + Chosen(lines[1..], s) && Omitted(lines, s) == Omitted(lines[1..], s)
    ensures !Selected(s, lines[0]) ==>
      Chosen(lines, s) == Chosen(lines[1..], s) && Omitted(lines, s) == [lines[0]] + Omitted(lines[1..], s)
  {
    assert [] + Omitted(lines[1..], s) == Omitted(lines[1..], s) && [] + Chosen(lines[1..], s) == Chosen(lines[1..], s);
  }

  lemma {:induction false} NothingChosen(lines: seq<Line>, s: Option<set<int>>)
    requires lines == []
    ensures Totals(Chosen(lines, s)) == Totals(Omitted(lines, s)) == Totals(lines) == Amounts(0, 0, 0)
  {
    assert Chosen(lines, s) == [];
  }

  lemma {:induction false} ChosenAndOmittedStep(lines: seq<Line>, s: Option<set<int>>)
    requires lines != []
    requires Plus(Totals(Chosen(lines[1..], s)), Totals(Omitted(lines[1..], s))) == Totals(lines[1..])
    ensures Plus(Totals(Chosen(lines, s)), Totals(Omitted(lines, s))) == Totals(lines)
  {
    var l, chosen, omitted := lines[0], Chosen(lines[1..], s), Omitted(lines[1..], s);
    ChosenStep(lines, s);
    TotalsCons(l, if Selected(s, l) then chosen else omitted);
    PlusMoves(AmountsOf(l), Totals(chosen), Totals(omitted), Totals(lines[1..]),
              Totals(Chosen(lines, s)), Totals(Omitted(lines, s)), Totals(lines));
  }

  /** What is credited and what is left out make up the invoice. */
  lemma {:induction false} ChosenAndOmitted(lines: seq<Line>, s: Option<set<int>>)
    ensures Plus(Totals(Chosen(lines, s)), Totals(Omitted(lines, s))) == Totals(lines)
  {
    if lines == [] {
      NothingChosen(lines, s);
    } else {
      ChosenAndOmitted(lines[1..], s);
      ChosenAndOmittedStep(lines, s);
    }
  }

  lemma {:induction false} PlusZero(a: Amounts, b: Amounts)
    requires AtMost(Amounts(0, 0, 0), a) && AtMost(Amounts(0, 0, 0), b)
    ensures AtMost(Amounts(0, 0, 0), Plus(a, b))
    ensures Plus(a, b) == Amounts(0, 0, 0) <==> a == Amounts(0, 0, 0) && b == Amounts(0, 0, 0)
  {
  }

  lemma {:induction false} ZeroExactlyWhenAllZero(lines: seq<Line>)
    ensures AtMost(Amounts(0, 0, 0), Totals(lines))
    ensures Totals(lines) == Amounts(0, 0, 0) <==> forall l :: l in lines ==> AmountsOf(l) == Amounts(0, 0, 0)
  {
    if lines != [] {
      var first, rest := lines[0], lines[1..];
      assert forall l :: l in lines <==> l == first || l in rest;
      ZeroExactlyWhenAllZero(rest);
      assert AtMost(Amounts(0, 0, 0), AmountsOf(first));
      PlusZero(AmountsOf(first), Totals(rest));
      assert Totals(lines) == Plus(AmountsOf(first), Totals(rest));
    }
  }

  lemma {:induction false} CreditedTotals(lines: seq<Line>, numbers: seq<int>)
    requires Chosen(lines, Selection(numbers)) != []
    ensures BuildCreditNoteLines(lines, numbers).Success?
    ensures Totals(BuildCreditNoteLines(lines, numbers).value) == Totals(Chosen(lines, Selection(numbers)))
  {
    var chosen := Chosen(lines, Selection(numbers));
    var eligible := Sort(ByNumber(), chosen);
    assert TotalPreorder(ByNumber());
    SortCorrect(ByNumber(), chosen);
    SortTotals(ByNumber(), chosen);
    CreditTotals(eligible, 0);
    assert BuildCreditNoteLines(lines, numbers).value == CreditFrom(eligible, 0);
  }

  lemma {:induction false} PartOfWhole(part: Amounts, rest: Amounts, whole: Amounts)
    requires Plus(part, rest) == whole && AtMost(Amounts(0, 0, 0), rest)
    ensures AtMost(part, whole) && (part == whole <==> rest == Amounts(0, 0, 0))
  {
  }

  ghost predicate WorthNothing(lines: seq<Line>) { forall l :: l in lines ==> AmountsOf(l) == Amounts(0, 0, 0) }

  /** A credit note fails exactly when no line is selected; otherwise it never credits more than its invoice in
      net, tax or gross, and credits all of it exactly when the lines it leaves out are worth nothing. */
  lemma {:induction false} CreditWithinInvoice(lines: seq<Line>, numbers: seq<int>)
    ensures BuildCreditNoteLines(lines, numbers).Failure? <==> Chosen(lines, Selection(numbers)) == []
    ensures BuildCreditNoteLines(lines, numbers).Success? ==>
      var credit := BuildCreditNoteLines(lines, numbers).value;
      && AtMost(Totals(credit), Totals(lines))
      && (Totals(credit) == Totals(lines) <==> WorthNothing(Omitted(lines, Selection(numbers))))
  {
    var s := Selection(numbers);
    if Chosen(lines, s) != [] {
      CreditedTotals(lines, numbers);
      ChosenAndOmitted(lines, s);
      ZeroExactlyWhenAllZero(Omitted(lines, s));
      PartOfWhole(Totals(Chosen(lines, s)), Totals(Omitted(lines, s)), Totals(lines));
    }
  }

  /** The line's number is asked for, or no usable number is. */
  predicate AskedFor(numbers: seq<int>, l: Line) {
    (l.lineNumber > 0 && l.lineNumber in numbers) || forall n :: n in numbers ==> n <= 0
  }

  lemma {:induction false} SelectedIsAsked(numbers: seq<int>, l: Line)
    ensures Selected(Selection(numbers), l) <==> AskedFor(numbers, l)
  {
    var positive := set n | n in numbers && n > 0;
    if n :| n in numbers && n > 0 { assert n in positive; }
  }

  lemma {:induction false} ChosenAreSelected(lines: seq<Line>, s: Option<set<int>>, l: Line)
    ensures multiset(Chosen(lines, s))[l] == if Selected(s, l) then multiset(lines)[l] else 0
  {
    if lines != [] {
      var rest := Chosen(lines[1..], s);
      ChosenAreSelected(lines[1..], s, l);
      assert lines == [lines[0]] + lines[1..];
      assert multiset([lines[0]] + rest) == multiset{lines[0]} + multiset(rest);
      assert multiset([] + rest) == multiset(rest);
    }
  }

  /** A credit line repeats its invoice line, under its own number and with nothing negative. */
  ghost predicate Credits(c: Line, l: Line) {
    && c.sourceId == l.sourceId && c.eventType == l.eventType && c.currency == l.currency
    && c.description <= "Credit: " + l.description && |c.description| == Min(500, 8 + |l.description|)
    && c.quantity == (if l.quantity >= 0 then l.quantity else 0)
    && c.amountMinor == (if l.amountMinor >= 0 then l.amountMinor else 0)
    && c.tax.net == (if l.tax.net >= 0 then l.tax.net else 0) && c.tax.tax == (if l.tax.tax >= 0 then l.tax.tax else 0)
    && c.tax.gross == (if l.tax.gross >= 0 then l.tax.gross else 0)
  }

  /** A credit note has one line, numbered from one, for each invoice line that is asked for and for no other, by
      invoice line number; it fails exactly when there is none. */
  lemma {:induction false} CreditNoteCorrect(lines: seq<Line>, numbers: seq<int>) returns (picked: seq<Line>)
    ensures forall l :: multiset(picked)[l] == if AskedFor(numbers, l) then multiset(lines)[l] else 0
    ensures forall i, j :: 0 <= i < j < |picked| ==> picked[i].lineNumber <= picked[j].lineNumber
    ensures match BuildCreditNoteLines(lines, numbers)
      case Failure(_) => picked == []
      case Success(credit) =>
        && picked != [] && |credit| == |picked|
        && forall i :: 0 <= i < |credit| ==> credit[i].lineNumber == i + 1 && Credits(credit[i], picked[i])
  {
    var s := Selection(numbers);
    picked := Sort(ByNumber(), Chosen(lines, s));
    assert TotalPreorder(ByNumber());
    SortCorrect(ByNumber(), Chosen(lines, s));
    forall l ensures multiset(picked)[l] == if AskedFor(numbers, l) then multiset(lines)[l] else 0 {
      SelectedIsAsked(numbers, l);
      ChosenAreSelected(lines, s, l);
    }
    forall i, j | 0 <= i < j < |picked| ensures picked[i].lineNumber <= picked[j].lineNumber {
      assert ByNumber()(picked[i], picked[j]);
    }
  }

  // ---------------------------------------------------------------- storage days

  /** A JavaScript date: milliseconds since the epoch, or an invalid date. */
  datatype Date = At(ms: int) | InvalidDate

  function StartOfUtcDay(d: Date): Date { if d.At? then At(d.ms - d.ms % MS_PER_DAY) else InvalidDate }

  /** Comparisons with an invalid date are false. */
  predicate After(a: Date, b: Date) { a.At? && b.At? && a.ms > b.ms }

  function CeilDays(ms: nat): nat { (ms + MS_PER_DAY - 1) / MS_PER_DAY }

  datatype PeriodError = NotADate | EmptyPeriod

  datatype Period = Period(start: int, end: int)

  function NormalizePeriod(start: Date, end: Date): Result<Period, PeriodError> {
    var from, to := StartOfUtcDay(start), StartOfUtcDay(end);
    if from.InvalidDate? || to.InvalidDate? then Failure(NotADate)
    else if to.ms <= from.ms then Failure(EmptyPeriod)
    else Success(Period(from.ms, to.ms))
  }

  /** An absent `ownedTo` means owned to the end of the period. */
  function ChargeableDays(start: Date, end: Date, ownedFrom: Date, ownedTo: Option<Date>): nat {
    var periodStart, periodEnd := StartOfUtcDay(start), StartOfUtcDay(end);
    var ownedStart := StartOfUtcDay(ownedFrom);
    var ownedEnd := if ownedTo.Some? then StartOfUtcDay(ownedTo.value) else periodEnd;
    var from := if After(ownedStart, periodStart) then ownedStart else periodStart;
    var to := if After(periodEnd, ownedEnd) then ownedEnd else periodEnd;
    if from.At? && to.At? && to.ms > from.ms then CeilDays(to.ms - from.ms) else 0
  }

  lemma {:induction false} WholeDays(ms: int)
    ensures StartOfUtcDay(At(ms)) == At(MS_PER_DAY * (ms / MS_PER_DAY))
  {
  }

  lemma {:induction false} CeilWhole(days: nat)
    ensures CeilDays(MS_PER_DAY * days) == days
  {
  }

  /** Ownership as day numbers: bounded only on the sides that are known. */
  function Overlap(start: int, end: int, ownedFrom: Option<int>, ownedTo: Option<int>): nat {
    var from := if ownedFrom.Some? then Max(start, ownedFrom.value) else start;
    var to := if ownedTo.Some? then Min(end, ownedTo.value) else end;
    if to > from then to - from else 0
  }

  function DayOf(d: Date): Option<int> { if d.At? then Some(d.ms / MS_PER_DAY) else None }

  /** Chargeable days are the whole UTC days of the period on which the stock is owned; an unknown
      or invalid bound of ownership bounds nothing. */
  lemma {:induction false} DaysAreOverlap(start: int, end: int, ownedFrom: Date, ownedTo: Option<Date>)
    ensures ChargeableDays(At(start), At(end), ownedFrom, ownedTo)
      == Overlap(start / MS_PER_DAY, end / MS_PER_DAY, DayOf(ownedFrom),
          if ownedTo.Some? then DayOf(ownedTo.value) else None)
  {
    WholeDays(start);
    WholeDays(end);
    if ownedFrom.At? { WholeDays(ownedFrom.ms); }
    if ownedTo.Some? && ownedTo.value.At? { WholeDays(ownedTo.value.ms); }
    CeilWhole(Overlap(start / MS_PER_DAY, end / MS_PER_DAY, DayOf(ownedFrom),
              if ownedTo.Some? then DayOf(ownedTo.value) else None));
  }

  /** Days cut at any point in between add up, wherever ownership begins and ends. */
  lemma {:induction false} DaysAdd(start: int, middle: int, end: int, ownedFrom: Date, ownedTo: Option<Date>)
    requires start <= middle <= end
    ensures ChargeableDays(At(start), At(end), ownedFrom, ownedTo)
      == ChargeableDays(At(start), At(middle), ownedFrom, ownedTo)
          + ChargeableDays(At(middle), At(end), ownedFrom, ownedTo)
  {
    DaysAreOverlap(start, end, ownedFrom, ownedTo);
    DaysAreOverlap(start, middle, ownedFrom, ownedTo);
    DaysAreOverlap(middle, end, ownedFrom, ownedTo);
  }

  datatype Snapshot = Snapshot(stockQuantId: string, quantity: int, ownedFrom: Date, ownedTo: Option<Date>)

  datatype StorageEvent = StorageEvent(resourceId: string, quantity: int, amountMinor: int)

  function StorageEventFor(p: Period, unitPrice: int, s: Snapshot): StorageEvent {
    var units := Max(0, s.quantity) * ChargeableDays(At(p.start), At(p.end), s.ownedFrom, s.ownedTo);
    StorageEvent(s.stockQuantId, units, units * Max(0, unitPrice))
  }

  /** Events worth nothing are dropped. */
  function StorageEvents(p: Period, unitPrice: int, snapshots: seq<Snapshot>): seq<StorageEvent> {
    if snapshots == [] then []
    else
      var e := StorageEventFor(p, unitPrice, snapshots[0]);
      (if e.quantity > 0 && e.amountMinor > 0 then [e] else []) + StorageEvents(p, unitPrice, snapshots[1..])
  }

  function BuildStorageDayBillingEvents(start: Date, end: Date, unitPrice: int,
                                        snapshots: seq<Snapshot>): Result<seq<StorageEvent>, PeriodError>
  {
    match NormalizePeriod(start, end)
    case Failure(e) => Failure(e)
    case Success(p) => Success(StorageEvents(p, unitPrice, snapshots))
  }

  /** A period is the whole UTC days from its first to before its last, refused without two dates or a day between. */
  lemma {:induction false} PeriodIsWholeDays(start: Date, end: Date)
    ensures NormalizePeriod(start, end) == Failure(NotADate) <==> start == InvalidDate || end == InvalidDate
    ensures NormalizePeriod(start, end) == Failure(EmptyPeriod) <==>
      start.At? && end.At? && end.ms / 86_400_000 <= start.ms / 86_400_000
    ensures match NormalizePeriod(start, end)
      case Failure(_) => true
      case Success(p) =>
        && p.start % 86_400_000 == 0 && p.start <= start.ms < p.start + 86_400_000
        && p.end % 86_400_000 == 0 && p.end <= end.ms < p.end + 86_400_000
  {
  }

  /** A quant is billed for its units on each whole UTC day that the period and its ownership have in common, at the
      unit price a day, and not at all when that comes to nothing. Negative numbers count as nothing. */
  lemma {:induction false} StorageBillsOverlap(p: Period, unitPrice: int, s: Snapshot, more: seq<Snapshot>)
    ensures var days := Overlap(p.start / 86_400_000, p.end / 86_400_000, DayOf(s.ownedFrom),
                                if s.ownedTo.Some? then DayOf(s.ownedTo.value) else None);
      StorageEvents(p, unitPrice, [s] + more) ==
        (if s.quantity > 0 && unitPrice > 0 && days > 0
         then [StorageEvent(s.stockQuantId, s.quantity * days, s.quantity * days * unitPrice)] else [])
        + StorageEvents(p, unitPrice, more)
  {
    DaysAreOverlap(p.start, p.end, s.ownedFrom, s.ownedTo);
    var days := ChargeableDays(At(p.start), At(p.end), s.ownedFrom, s.ownedTo);
    assert ([s] + more)[1..] == more;
    ProductNonNegative(Max(0, s.quantity), days);
    ProductNonNegative(Max(0, s.quantity) * days, Max(0, unitPrice));
  }

  /** What events bill: unit days and their price. */
  datatype Billed = Billed(units: int, amountMinor: int)

  function Add(a: Billed, b: Billed): Billed { Billed(a.units + b.units, a.amountMinor + b.amountMinor) }

  /** What the events bill for one stock quant. */
  function BilledFor(events: seq<StorageEvent>, stockQuantId: string): Billed {
    if events == [] then Billed(0, 0)
    else Add(if events[0].resourceId == stockQuantId
             then Billed(events[0].quantity, events[0].amountMinor) else Billed(0, 0),
             BilledFor(events[1..], stockQuantId))
  }

  /** The event of one snapshot, if it is not dropped. */
  function Kept(p: Period, unitPrice: int, s: Snapshot): Billed {
    var e := StorageEventFor(p, unitPrice, s);
    if e.quantity > 0 && e.amountMinor > 0 then Billed(e.quantity, e.amountMinor) else Billed(0, 0)
  }

  /** What a number of unit days bills: at a positive price nothing is dropped but nothing at all. */
  function Priced(units: int, unitPrice: int): Billed {
    if unitPrice > 0 then Billed(units, units * unitPrice) else Billed(0, 0)
  }

  function Units(p: Period, s: Snapshot): (units: int)
    ensures units >= 0
  {
    ProductNonNegative(Max(0, s.quantity), ChargeableDays(At(p.start), At(p.end), s.ownedFrom, s.ownedTo));
    Max(0, s.quantity) * ChargeableDays(At(p.start), At(p.end), s.ownedFrom, s.ownedTo)
  }

  lemma {:induction false} ProductNonNegative(a: int, b: int)
    requires a >= 0 && b >= 0
    ensures a * b >= 0 && (a > 0 && b > 0 ==> a * b > 0)
  {
    if a > 0 { assert a * b >= b; }
  }

  lemma {:induction false} KeptIsPriced(p: Period, unitPrice: int, s: Snapshot)
    ensures Kept(p, unitPrice, s) == Priced(Units(p, s), unitPrice)
  {
    var units := Units(p, s);
    assert StorageEventFor(p, unitPrice, s) == StorageEvent(s.stockQuantId, units, units * Max(0, unitPrice));
    DroppedExactly(units, unitPrice);
  }

  lemma {:induction false} DroppedExactly(units: int, unitPrice: int)
    requires units >= 0
    ensures units > 0 && units * Max(0, unitPrice) > 0 <==> units > 0 && unitPrice > 0
    ensures unitPrice > 0 && units == 0 ==> units * unitPrice == 0
  {
    if units > 0 && unitPrice > 0 { ProductNonNegative(units, unitPrice); }
  }

  /** What each snapshot owes for one stock quant. */
  function Term(p: Period, unitPrice: int, stockQuantId: string): Snapshot -> Billed {
    (s: Snapshot) => if s.stockQuantId == stockQuantId then Priced(Units(p, s), unitPrice) else Billed(0, 0)
  }

  function SumOf(term: Snapshot -> Billed, snapshots: seq<Snapshot>): Billed {
    if snapshots == [] then Billed(0, 0) else Add(term(snapshots[0]), SumOf(term, snapshots[1..]))
  }

  /** One term agrees with two others on every snapshot. */
  ghost predicate TermsAdd(whole: Snapshot -> Billed, a: Snapshot -> Billed, b: Snapshot -> Billed,
                           snapshots: seq<Snapshot>)
  {
    forall i :: 0 <= i < |snapshots| ==> whole(snapshots[i]) == Add(a(snapshots[i]), b(snapshots[i]))
  }

  lemma {:induction false} SumsAdd(whole: Snapshot -> Billed, a: Snapshot -> Billed, b: Snapshot -> Billed,
                                   snapshots: seq<Snapshot>)
    requires TermsAdd(whole, a, b, snapshots)
    ensures SumOf(whole, snapshots) == Add(SumOf(a, snapshots), SumOf(b, snapshots))
  {
    if snapshots != [] {
      var rest := snapshots[1..];
      assert TermsAdd(whole, a, b, rest);
      SumsAdd(whole, a, b, rest);
      AddsUp(whole(snapshots[0]), a(snapshots[0]), b(snapshots[0]), SumOf(whole, rest), SumOf(a, rest), SumOf(b, rest));
    }
  }

  /** Sums of a first term and the rest. */
  lemma {:induction false} AddsUp(x: Billed, y: Billed, z: Billed, xs: Billed, ys: Billed, zs: Billed)
    requires x == Add(y, z) && xs == Add(ys, zs)
    ensures Add(x, xs) == Add(Add(y, ys), Add(z, zs))
  {
  }

  lemma {:induction false} EventsAreDue(p: Period, unitPrice: int, snapshots: seq<Snapshot>, id: string)
    ensures BilledFor(StorageEvents(p, unitPrice, snapshots), id) == SumOf(Term(p, unitPrice, id), snapshots)
  {
    if snapshots != [] {
      var e, rest := StorageEventFor(p, unitPrice, snapshots[0]), StorageEvents(p, unitPrice, snapshots[1..]);
      EventsAreDue(p, unitPrice, snapshots[1..], id);
      KeptIsPriced(p, unitPrice, snapshots[0]);
      if e.quantity > 0 && e.amountMinor > 0 { assert ([e] + rest)[1..] == rest; } else { assert [] + rest == rest; }
    }
  }

  lemma {:induction false} UnitsAdd(whole: Period, a: Period, b: Period, s: Snapshot)
    requires whole == Period(a.start, b.end) && a.end == b.start && a.start <= a.end <= b.end
    ensures Units(whole, s) == Units(a, s) + Units(b, s)
  {
    DaysAdd(a.start, a.end, b.end, s.ownedFrom, s.ownedTo);
    Distribute(Max(0, s.quantity), ChargeableDays(At(a.start), At(a.end), s.ownedFrom, s.ownedTo),
               ChargeableDays(At(b.start), At(b.end), s.ownedFrom, s.ownedTo));
  }

  lemma {:induction false} Distribute(q: int, x: int, y: int)
    ensures q * (x + y) == q * x + q * y && (x + y) * q == x * q + y * q
  {
  }

  lemma {:induction false} PricedAdds(units: int, x: int, y: int, unitPrice: int)
    requires units == x + y
    ensures Priced(units, unitPrice) == Add(Priced(x, unitPrice), Priced(y, unitPrice))
  {
    Distribute(unitPrice, x, y);
  }

  lemma {:induction false} TermAdds(whole: Period, a: Period, b: Period, unitPrice: int, s: Snapshot, id: string)
    requires whole == Period(a.start, b.end) && a.end == b.start && a.start <= a.end <= b.end
    ensures Term(whole, unitPrice, id)(s) == Add(Term(a, unitPrice, id)(s), Term(b, unitPrice, id)(s))
  {
    UnitsAdd(whole, a, b, s);
    PricedAdds(Units(whole, s), Units(a, s), Units(b, s), unitPrice);
  }

  lemma {:induction false} DueAdds(whole: Period, a: Period, b: Period, unitPrice: int, snapshots: seq<Snapshot>,
                                   id: string)
    requires whole == Period(a.start, b.end) && a.end == b.start && a.start <= a.end <= b.end
    ensures SumOf(Term(whole, unitPrice, id), snapshots)
      == Add(SumOf(Term(a, unitPrice, id), snapshots), SumOf(Term(b, unitPrice, id), snapshots))
  {
    forall i | 0 <= i < |snapshots|
      ensures Term(whole, unitPrice, id)(snapshots[i])
        == Add(Term(a, unitPrice, id)(snapshots[i]), Term(b, unitPrice, id)(snapshots[i]))
    {
      TermAdds(whole, a, b, unitPrice, snapshots[i], id);
    }
    SumsAdd(Term(whole, unitPrice, id), Term(a, unitPrice, id), Term(b, unitPrice, id), snapshots);
  }

  /** Cut points that fall on successive days. */
  ghost predicate Successive(cuts: seq<int>) {
    forall i :: 0 <= i < |cuts| - 1 ==> cuts[i] / MS_PER_DAY < cuts[i + 1] / MS_PER_DAY
  }

  function BilledOver(cuts: seq<int>, unitPrice: int, snapshots: seq<Snapshot>, id: string): Billed
    requires |cuts| >= 2
  {
    match BuildStorageDayBillingEvents(At(cuts[0]), At(cuts[1]), unitPrice, snapshots)
    case Failure(_) => Billed(0, 0)
    case Success(events) =>
      Add(BilledFor(events, id), if |cuts| == 2 then Billed(0, 0) else BilledOver(cuts[1..], unitPrice, snapshots, id))
  }

  /** The chargeable days of all the parts together. */
  function DaysOver(cuts: seq<int>, ownedFrom: Date, ownedTo: Option<Date>): nat
    requires |cuts| >= 2
  {
    ChargeableDays(At(cuts[0]), At(cuts[1]), ownedFrom, ownedTo)
    + if |cuts| == 2 then 0 else DaysOver(cuts[1..], ownedFrom, ownedTo)
  }

  lemma {:induction false} DaysOverAdd(cuts: seq<int>, ownedFrom: Date, ownedTo: Option<Date>)
    requires |cuts| >= 2 && Successive(cuts)
    ensures DaysOver(cuts, ownedFrom, ownedTo) == ChargeableDays(At(cuts[0]), At(cuts[|cuts| - 1]), ownedFrom, ownedTo)
    decreases |cuts|
  {
    if |cuts| > 2 {
      assert cuts[0] / MS_PER_DAY < cuts[0 + 1] / MS_PER_DAY;
      SuccessiveTail(cuts);
      FirstBeforeLast(cuts[1..]);
      DaysOverAdd(cuts[1..], ownedFrom, ownedTo);
      DaysAdd(cuts[0], cuts[1], cuts[|cuts| - 1], ownedFrom, ownedTo);
    }
  }

  lemma {:induction false} DayOrder(a: int, b: int)
    requires a / MS_PER_DAY < b / MS_PER_DAY
    ensures NormalizePeriod(At(a), At(b)) == Success(Period(StartOfUtcDay(At(a)).ms, StartOfUtcDay(At(b)).ms))
    ensures StartOfUtcDay(At(a)).ms < StartOfUtcDay(At(b)).ms
  {
    WholeDays(a);
    WholeDays(b);
  }

  lemma {:induction false} FirstBeforeLast(cuts: seq<int>)
    requires |cuts| >= 2 && Successive(cuts)
    ensures cuts[0] / MS_PER_DAY < cuts[|cuts| - 1] / MS_PER_DAY
  {
    assert cuts[0] / MS_PER_DAY < cuts[0 + 1] / MS_PER_DAY;
    if |cuts| > 2 { SuccessiveTail(cuts); FirstBeforeLast(cuts[1..]); }
  }

  lemma {:induction false} SuccessiveTail(cuts: seq<int>)
    requires |cuts| >= 1 && Successive(cuts)
    ensures Successive(cuts[1..])
  {
    forall i | 0 <= i < |cuts[1..]| - 1 ensures cuts[1..][i] / MS_PER_DAY < cuts[1..][i + 1] / MS_PER_DAY {
      assert cuts[1 + i] / MS_PER_DAY < cuts[1 + i + 1] / MS_PER_DAY;
    }
  }

  /** Billing a period in any number of consecutive parts charges each snapshot the days, and bills each stock
      quant the units and the amount, that billing it at once would, wherever its ownership begins and ends. */
  lemma {:induction false} SplitPeriodsBillTheSame(cuts: seq<int>, unitPrice: int, snapshots: seq<Snapshot>, id: string)
    requires |cuts| >= 2 && Successive(cuts)
    ensures BuildStorageDayBillingEvents(At(cuts[0]), At(cuts[|cuts| - 1]), unitPrice, snapshots).Success?
    ensures BilledOver(cuts, unitPrice, snapshots, id)
      == BilledFor(BuildStorageDayBillingEvents(At(cuts[0]), At(cuts[|cuts| - 1]), unitPrice, snapshots).value, id)
    ensures forall s :: s in snapshots ==>
      DaysOver(cuts, s.ownedFrom, s.ownedTo)
        == ChargeableDays(At(cuts[0]), At(cuts[|cuts| - 1]), s.ownedFrom, s.ownedTo)
  {
    PartsBillTheSame(cuts, unitPrice, snapshots, id);
    forall s | s in snapshots
      ensures DaysOver(cuts, s.ownedFrom, s.ownedTo)
        == ChargeableDays(At(cuts[0]), At(cuts[|cuts| - 1]), s.ownedFrom, s.ownedTo)
    {
      DaysOverAdd(cuts, s.ownedFrom, s.ownedTo);
    }
  }

  lemma {:induction false} PartsBillTheSame(cuts: seq<int>, unitPrice: int, snapshots: seq<Snapshot>, id: string)
    requires |cuts| >= 2 && Successive(cuts)
    ensures BuildStorageDayBillingEvents(At(cuts[0]), At(cuts[|cuts| - 1]), unitPrice, snapshots).Success?
    ensures BilledOver(cuts, unitPrice, snapshots, id)
      == BilledFor(BuildStorageDayBillingEvents(At(cuts[0]), At(cuts[|cuts| - 1]), unitPrice, snapshots).value, id)
    decreases |cuts|
  {
    FirstBeforeLast(cuts);
    DayOrder(cuts[0], cuts[|cuts| - 1]);
    assert cuts[0] / MS_PER_DAY < cuts[0 + 1] / MS_PER_DAY;
    DayOrder(cuts[0], cuts[1]);
    if |cuts| > 2 {
      SuccessiveTail(cuts);
      PartsBillTheSame(cuts[1..], unitPrice, snapshots, id);
      FirstBeforeLast(cuts[1..]);
      var first, middle, last :=
        StartOfUtcDay(At(cuts[0])).ms, StartOfUtcDay(At(cuts[1])).ms, StartOfUtcDay(At(cuts[|cuts| - 1])).ms;
      DayOrder(cuts[1], cuts[|cuts| - 1]);
      PartsAdd(first, middle, last, unitPrice, snapshots, id);
    }
  }

  lemma {:induction false} PartsAdd(first: int, middle: int, last: int, unitPrice: int, snapshots: seq<Snapshot>,
                                    id: string)
    requires first <= middle <= last
    ensures BilledFor(StorageEvents(Period(first, last), unitPrice, snapshots), id)
      == Add(BilledFor(StorageEvents(Period(first, middle), unitPrice, snapshots), id),
             BilledFor(StorageEvents(Period(middle, last), unitPrice, snapshots), id))
  {
    EventsAreDue(Period(first, last), unitPrice, snapshots, id);
    EventsAreDue(Period(first, middle), unitPrice, snapshots, id);
    EventsAreDue(Period(middle, last), unitPrice, snapshots, id);
    DueAdds(Period(first, last), Period(first, middle), Period(middle, last), unitPrice, snapshots, id);
  }
}
