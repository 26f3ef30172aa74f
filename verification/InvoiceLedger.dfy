/** The life of billing events and invoices: create, finalize and void an invoice, void an event. */
module InvoiceLedger {
  import opened Common

  datatype EventStatus = Pending | Billable | Invoiced | Voided

  datatype InvoiceStatus = Draft | Finalized | InvoiceVoided

  /** Who is billed where. */
  datatype Account = Account(warehouseId: string, clientId: string)

  datatype Event = Event(account: Account, status: EventStatus, occurredAt: int, amountMinor: int)

  datatype Line = Line(billingEventId: Option<string>, amountMinor: int)

  datatype Invoice = Invoice(account: Account, invoiceNumber: string, status: InvoiceStatus, lines: seq<Line>)

  /** The two tables; `billing_event_id` is unique over all lines. */
  datatype Ledger = Ledger(events: map<string, Event>, invoices: map<string, Invoice>)

  datatype BillingError = InvalidPeriod | NothingBillable | DuplicateNumber | NotFound | NotDraft | AlreadyInvoiced

  /** What an invoice is asked to cover. An empty `statuses` stands for the default filter. */
  datatype Request = Request(
    account: Account, periodStart: int, periodEnd: int, statuses: set<EventStatus>,
        invoiceNumber: string, finalize: bool)

  function StatusFilter(statuses: set<EventStatus>): set<EventStatus> {
    if statuses == {} then {Billable} else statuses
  }

  /** A place in the lines table. */
  datatype Place = Place(invoiceId: string, line: nat)

  function ReferenceAt(l: Ledger, p: Place): Option<string> {
    if p.invoiceId in l.invoices && p.line < |l.invoices[p.invoiceId].lines|
    then l.invoices[p.invoiceId].lines[p.line].billingEventId else None
  }

  ghost predicate Referenced(l: Ledger, eventId: string) { exists p :: ReferenceAt(l, p) == Some(eventId) }

  /** The query of `createBillingInvoice`, including `invoiceLine: null`. */
  ghost predicate Wanted(l: Ledger, r: Request, eventId: string) {
    && eventId in l.events
    && l.events[eventId].account == r.account
    && l.events[eventId].status in StatusFilter(r.statuses)
    && r.periodStart <= l.events[eventId].occurredAt < r.periodEnd
    && !Referenced(l, eventId)
  }

  /** `found` lists the rows that the query selects, each once, in the database's order. */
  ghost predicate Answers(l: Ledger, r: Request, found: seq<string>) {
    && (forall e :: e in found <==> Wanted(l, r, e))
    && (forall i, j :: 0 <= i < j < |found| ==> found[i] != found[j])
  }

  function LinesFor(l: Ledger, found: seq<string>): seq<Line>
    requires forall e :: e in found ==> e in l.events
  {
    seq(|found|, i requires 0 <= i < |found| => Line(Some(found[i]), Max(0, l.events[found[i]].amountMinor)))
  }

  function WithStatus(events: map<string, Event>, ids: set<string>, status: EventStatus): map<string, Event> {
    map e | e in events :: if e in ids then events[e].(status := status) else events[e]
  }

  /** Voiding releases only the events that the invoice had billed. */
  function Released(events: map<string, Event>, ids: set<string>): map<string, Event> {
    map e | e in events ::
        if e in ids && events[e].status == Invoiced then events[e].(status := Billable) else events[e]
  }

  function Detached(lines: seq<Line>): seq<Line> {
    seq(|lines|, i requires 0 <= i < |lines| => lines[i].(billingEventId := None))
  }

  /** `buildInvoiceVoidReinvoicePlan`: the distinct event ids on the lines. */
  function EventIds(lines: seq<Line>): set<string> {
    set k | 0 <= k < |lines| && lines[k].billingEventId.Some? :: lines[k].billingEventId.value
  }

  function IdSet(found: seq<string>): set<string> { set e | e in found }

  predicate NumberTaken(l: Ledger, account: Account, number: string) {
    exists i :: i in l.invoices && l.invoices[i].account.clientId == account.clientId
        && l.invoices[i].invoiceNumber == number
  }

  function Create(l: Ledger, r: Request, found: seq<string>, invoiceId: string): Result<Ledger, BillingError>
    requires forall e :: e in found ==> e in l.events
  {
    if r.periodEnd <= r.periodStart then Failure(InvalidPeriod)
    else if found == [] then Failure(NothingBillable)
    else if NumberTaken(l, r.account, r.invoiceNumber) then Failure(DuplicateNumber)
    else
      var invoice := Invoice(r.account, r.invoiceNumber, if r.finalize then Finalized else Draft, LinesFor(l, found));
      Success(Ledger(if r.finalize then WithStatus(l.events, IdSet(found), Invoiced) else l.events,
                     l.invoices[invoiceId := invoice]))
  }

  function Finalize(l: Ledger, invoiceId: string): Result<Ledger, BillingError> {
    if invoiceId !in l.invoices then Failure(NotFound)
    else if l.invoices[invoiceId].status != Draft then Failure(NotDraft)
    else Success(Ledger(WithStatus(l.events, EventIds(l.invoices[invoiceId].lines), Invoiced),
                        l.invoices[invoiceId := l.invoices[invoiceId].(status := Finalized)]))
  }

  function VoidInvoice(l: Ledger, invoiceId: string): Result<Ledger, BillingError> {
    if invoiceId !in l.invoices then Failure(NotFound)
    else
      var invoice := l.invoices[invoiceId];
      if invoice.status == InvoiceVoided then Success(l)
      else Success(Ledger(Released(l.events, EventIds(invoice.lines)),
                          l.invoices[invoiceId := invoice.(status := InvoiceVoided, lines := Detached(invoice.lines))]))
  }

  function VoidEvent(l: Ledger, eventId: string): Result<Ledger, BillingError> {
    if eventId !in l.events then Failure(NotFound)
    else if l.events[eventId].status == Invoiced then Failure(AlreadyInvoiced)
    else Success(l.(events := l.events[eventId := l.events[eventId].(status := Voided)]))
  }

  // ---------------------------------------------------------------- what every operation keeps

  ghost predicate ReferencedOnce(l: Ledger) {
    forall p, q :: ReferenceAt(l, p).Some? && ReferenceAt(l, p) == ReferenceAt(l, q) ==> p == q
  }

  /** What a line at a place says about the event it references. */
  ghost predicate Backed(l: Ledger, p: Place) {
    ReferenceAt(l, p).Some? ==>
      && ReferenceAt(l, p).value in l.events
      && l.invoices[p.invoiceId].status != InvoiceVoided
      && l.invoices[p.invoiceId].account == l.events[ReferenceAt(l, p).value].account
      && (l.invoices[p.invoiceId].status == Finalized <==> l.events[ReferenceAt(l, p).value].status == Invoiced)
  }

  ghost predicate BilledBy(l: Ledger, eventId: string, p: Place) {
    ReferenceAt(l, p) == Some(eventId) && l.invoices[p.invoiceId].status == Finalized
  }

  /** An event is INVOICED iff a line of a finalized invoice references it, no event is referenced
      twice, and a voided invoice references none. */
  ghost predicate Inv(l: Ledger) {
    && ReferencedOnce(l)
    && (forall p :: Backed(l, p))
    && (forall e :: e in l.events && l.events[e].status == Invoiced ==> exists p :: BilledBy(l, e, p))
  }

  lemma {:induction false} IdsOnLines(l: Ledger, invoiceId: string, e: string)
    requires invoiceId in l.invoices
    ensures e in EventIds(l.invoices[invoiceId].lines) <==>
      exists k: nat :: ReferenceAt(l, Place(invoiceId, k)) == Some(e)
  {
    var lines := l.invoices[invoiceId].lines;
    if e in EventIds(lines) {
      var k :| 0 <= k < |lines| && lines[k].billingEventId.Some? && lines[k].billingEventId.value == e;
      assert ReferenceAt(l, Place(invoiceId, k)) == Some(e);
    }
    if k: nat :| ReferenceAt(l, Place(invoiceId, k)) == Some(e) { assert lines[k].billingEventId.value == e; }
  }

  lemma {:induction false} CreateKeepsInv(l: Ledger, r: Request, found: seq<string>, invoiceId: string, l': Ledger)
    requires Inv(l) && Answers(l, r, found) && invoiceId !in l.invoices
    requires forall e :: e in found ==> e in l.events
    requires Create(l, r, found, invoiceId) == Success(l')
    ensures Inv(l')
  {
    forall p ensures ReferenceAt(l', p) ==
      if p.invoiceId != invoiceId then ReferenceAt(l, p) else if p.line < |found| then Some(found[p.line]) else None { }
    forall p, q | ReferenceAt(l', p).Some? && ReferenceAt(l', p) == ReferenceAt(l', q) ensures p == q {
      FreshOrOld(l, r, found, invoiceId, l', p);
      FreshOrOld(l, r, found, invoiceId, l', q);
    }
    forall p ensures Backed(l', p) {
      assert Backed(l, p);
      FreshOrOld(l, r, found, invoiceId, l', p);
    }
    forall e | e in l'.events && l'.events[e].status == Invoiced ensures exists p :: BilledBy(l', e, p) {
      if r.finalize && e in found {
        var k :| 0 <= k < |found| && found[k] == e;
        assert BilledBy(l', e, Place(invoiceId, k));
      } else {
        var p :| BilledBy(l, e, p);
        assert BilledBy(l', e, p);
      }
    }
  }

  lemma {:induction false} FreshOrOld(l: Ledger, r: Request, found: seq<string>, invoiceId: string, l': Ledger,
                                      p: Place)
    requires Answers(l, r, found) && invoiceId !in l.invoices && forall e :: e in found ==> e in l.events
    requires Create(l, r, found, invoiceId) == Success(l')
    ensures p.invoiceId == invoiceId && ReferenceAt(l', p).Some? ==>
      p.line < |found| && ReferenceAt(l', p) == Some(found[p.line]) && Wanted(l, r, found[p.line])
    ensures p.invoiceId != invoiceId ==> ReferenceAt(l', p) == ReferenceAt(l, p)
    ensures p.invoiceId != invoiceId && ReferenceAt(l, p).Some? ==> ReferenceAt(l, p).value !in found
  {
    if p.invoiceId == invoiceId && ReferenceAt(l', p).Some? { assert found[p.line] in found; }
    if p.invoiceId != invoiceId && ReferenceAt(l, p).Some? { assert Referenced(l, ReferenceAt(l, p).value); }
  }

  lemma {:induction false} FinalizeKeepsInv(l: Ledger, invoiceId: string, l': Ledger)
    requires Inv(l) && Finalize(l, invoiceId) == Success(l')
    ensures Inv(l')
  {
    forall p ensures ReferenceAt(l', p) == ReferenceAt(l, p) { }
    forall p ensures Backed(l', p) {
      assert Backed(l, p);
      if ReferenceAt(l, p).Some? {
        var e := ReferenceAt(l, p).value;
        IdsOnLines(l, invoiceId, e);
        assert p.invoiceId == invoiceId ==> ReferenceAt(l, Place(invoiceId, p.line)) == Some(e);
      }
    }
    forall e | e in l'.events && l'.events[e].status == Invoiced ensures exists p :: BilledBy(l', e, p) {
      IdsOnLines(l, invoiceId, e);
      if e in EventIds(l.invoices[invoiceId].lines) {
        var k: nat :| ReferenceAt(l, Place(invoiceId, k)) == Some(e);
        assert BilledBy(l', e, Place(invoiceId, k));
      } else {
        var p :| BilledBy(l, e, p);
        assert BilledBy(l', e, p);
      }
    }
  }

  lemma {:induction false} VoidInvoiceKeepsInv(l: Ledger, invoiceId: string, l': Ledger)
    requires Inv(l) && VoidInvoice(l, invoiceId) == Success(l')
    ensures Inv(l')
  {
    if l' != l {
      forall p ensures ReferenceAt(l', p) == if p.invoiceId == invoiceId then None else ReferenceAt(l, p) { }
      forall p ensures Backed(l', p) {
        assert Backed(l, p);
        if ReferenceAt(l', p).Some? { IdsOnLines(l, invoiceId, ReferenceAt(l, p).value); }
      }
      forall e | e in l'.events && l'.events[e].status == Invoiced ensures exists p :: BilledBy(l', e, p) {
        var p :| BilledBy(l, e, p);
        IdsOnLines(l, invoiceId, e);
        assert p == Place(p.invoiceId, p.line);
        assert BilledBy(l', e, p);
      }
    }
  }

  lemma {:induction false} VoidEventKeepsInv(l: Ledger, eventId: string, l': Ledger)
    requires Inv(l) && VoidEvent(l, eventId) == Success(l')
    ensures Inv(l')
  {
    forall p ensures ReferenceAt(l', p) == ReferenceAt(l, p) { }
    forall p ensures Backed(l', p) { assert Backed(l, p); }
    forall e | e in l'.events && l'.events[e].status == Invoiced ensures exists p :: BilledBy(l', e, p) {
      var p :| BilledBy(l, e, p);
      assert BilledBy(l', e, p);
    }
  }

  // ---------------------------------------------------------------- runs

  datatype Action =
    | CreateInvoice(request: Request, found: seq<string>, invoiceId: string)
    | FinalizeInvoice(invoiceId: string)
    | VoidTheInvoice(invoiceId: string)
    | VoidTheEvent(eventId: string)

  /** The database answers the query, and generates an id it has not used. */
  ghost predicate Enabled(l: Ledger, a: Action) {
    a.CreateInvoice? ==> Answers(l, a.request, a.found) && a.invoiceId !in l.invoices
  }

  ghost function Attempt(l: Ledger, a: Action): Result<Ledger, BillingError>
    requires Enabled(l, a)
  {
    match a
    case CreateInvoice(r, found, id) =>
      assert forall e :: e in found ==> Wanted(l, r, e);
      Create(l, r, found, id)
    case FinalizeInvoice(id) => Finalize(l, id)
    case VoidTheInvoice(id) => VoidInvoice(l, id)
    case VoidTheEvent(id) => VoidEvent(l, id)
  }

  /** A failed operation changes nothing; one the database would not run is skipped. */
  ghost function Next(l: Ledger, a: Action): Ledger {
    if Enabled(l, a) && Attempt(l, a).Success? then Attempt(l, a).value else l
  }

  ghost function Run(l: Ledger, actions: seq<Action>): Ledger
    decreases |actions|
  {
    if actions == [] then l else Run(Next(l, actions[0]), actions[1..])
  }

  lemma {:induction false} NextKeepsInv(l: Ledger, a: Action)
    requires Inv(l)
    ensures Inv(Next(l, a))
  {
    if Enabled(l, a) && Attempt(l, a).Success? {
      var l' := Attempt(l, a).value;
      match a
      case CreateInvoice(r, found, id) =>
        assert forall e :: e in found ==> Wanted(l, r, e);
        CreateKeepsInv(l, r, found, id, l');
      case FinalizeInvoice(id) => FinalizeKeepsInv(l, id, l');
      case VoidTheInvoice(id) => VoidInvoiceKeepsInv(l, id, l');
      case VoidTheEvent(id) => VoidEventKeepsInv(l, id, l');
    }
  }

  lemma {:induction false} RunKeepsInv(l: Ledger, actions: seq<Action>)
    requires Inv(l)
    ensures Inv(Run(l, actions))
    decreases |actions|
  {
    if actions != [] { NextKeepsInv(l, actions[0]); RunKeepsInv(Next(l, actions[0]), actions[1..]); }
  }

  /** Over every run from recorded events none of which is INVOICED: an event is INVOICED exactly when a
      line of a finalized invoice references it, at most one line ever references it, and a voided
      invoice references nothing. */
  lemma {:induction false} InvoicedExactlyWhenBilled(events: map<string, Event>, actions: seq<Action>)
    requires forall e :: e in events ==> events[e].status != Invoiced
    ensures var l := Run(Ledger(events, map[]), actions);
      && (forall e :: e in l.events ==> (l.events[e].status == Invoiced <==> exists p :: BilledBy(l, e, p)))
      && (forall p, q :: ReferenceAt(l, p).Some? && ReferenceAt(l, p) == ReferenceAt(l, q) ==> p == q)
      && (forall p :: ReferenceAt(l, p).Some? ==> l.invoices[p.invoiceId].status != InvoiceVoided)
  {
    var l0 := Ledger(events, map[]);
    forall p ensures Backed(l0, p) { }
    assert Inv(l0);
    RunKeepsInv(l0, actions);
    var l := Run(l0, actions);
    forall e | e in l.events ensures l.events[e].status == Invoiced <==> exists p :: BilledBy(l, e, p) {
      if p :| BilledBy(l, e, p) { assert Backed(l, p); }
    }
    forall p | ReferenceAt(l, p).Some? ensures l.invoices[p.invoiceId].status != InvoiceVoided { assert Backed(l, p); }
  }

  // ---------------------------------------------------------------- voiding and invoicing again

  /** Voiding a finalized invoice makes every event it billed billable again and leaves it unreferenced;
      any other event keeps its row. */
  lemma {:induction false} VoidingReleases(l: Ledger, invoiceId: string, e: string)
    requires Inv(l) && invoiceId in l.invoices && l.invoices[invoiceId].status == Finalized && e in l.events
    ensures VoidInvoice(l, invoiceId).Success?
    ensures var l' := VoidInvoice(l, invoiceId).value;
      if e in EventIds(l.invoices[invoiceId].lines)
      then l'.events[e] == l.events[e].(status := Billable) && !Referenced(l', e)
      else l'.events[e] == l.events[e]
  {
    IdsOnLines(l, invoiceId, e);
    if e in EventIds(l.invoices[invoiceId].lines) {
      var l' := VoidInvoice(l, invoiceId).value;
      var k: nat :| ReferenceAt(l, Place(invoiceId, k)) == Some(e);
      assert Backed(l, Place(invoiceId, k));
      forall p ensures ReferenceAt(l', p) != Some(e) {
        if p.invoiceId != invoiceId { assert ReferenceAt(l', p) == ReferenceAt(l, p); }
      }
    }
  }

  /** Every line that references an event bills that event's amount. */
  ghost predicate Priced(l: Ledger) {
    forall p :: ReferenceAt(l, p).Some? && ReferenceAt(l, p).value in l.events ==>
      l.invoices[p.invoiceId].lines[p.line].amountMinor == Max(0, l.events[ReferenceAt(l, p).value].amountMinor)
  }

  /** Operations change an event's status and nothing else of it. */
  ghost predicate SameEvents(l: Ledger, l': Ledger) {
    l'.events.Keys == l.events.Keys
        && forall e :: e in l.events ==> l'.events[e] == l.events[e].(status := l'.events[e].status)
  }

  lemma {:induction false} NextKeepsPrices(l: Ledger, a: Action)
    requires Priced(l)
    ensures Priced(Next(l, a)) && SameEvents(l, Next(l, a))
  {
    var l' := Next(l, a);
    if l' != l && a.CreateInvoice? {
      assert forall e :: e in a.found ==> Wanted(l, a.request, e);
      forall p | ReferenceAt(l', p).Some? && ReferenceAt(l', p).value in l'.events
        ensures l'.invoices[p.invoiceId].lines[p.line].amountMinor
          == Max(0, l'.events[ReferenceAt(l', p).value].amountMinor)
      {
        FreshOrOld(l, a.request, a.found, a.invoiceId, l', p);
      }
    } else {
      forall p | ReferenceAt(l', p).Some? ensures ReferenceAt(l, p) == ReferenceAt(l', p) { }
    }
  }

  lemma {:induction false} RunKeepsPrices(l: Ledger, actions: seq<Action>)
    requires Priced(l)
    ensures Priced(Run(l, actions)) && SameEvents(l, Run(l, actions))
    decreases |actions|
  {
    if actions != [] { NextKeepsPrices(l, actions[0]); RunKeepsPrices(Next(l, actions[0]), actions[1..]); }
  }

  /** A line bills an event at a given amount. */
  ghost predicate BillsAt(l: Ledger, p: Place, e: string, amountMinor: int) {
    && p.invoiceId in l.invoices && p.line < |l.invoices[p.invoiceId].lines|
    && l.invoices[p.invoiceId].lines[p.line] == Line(Some(e), amountMinor)
  }

  /** However long after its invoice was voided, while a released event is still billable: the next invoice of
      its account over its time leaves it on exactly one line, at its own amount. That is a line of the new
      invoice, unless a draft made in the meantime already has it. */
  lemma {:induction false} ReinvoicedOnce(l: Ledger, invoiceId: string, e: string, actions: seq<Action>, r: Request,
                                          found: seq<string>, again: string, l2: Ledger) returns (at: Place)
    requires Inv(l) && Priced(l) && invoiceId in l.invoices && l.invoices[invoiceId].status == Finalized
    requires e in EventIds(l.invoices[invoiceId].lines) && e in l.events
    requires r.account == l.events[e].account && r.periodStart <= l.events[e].occurredAt < r.periodEnd
    requires Billable in StatusFilter(r.statuses)
    requires var l1 := Run(l, [VoidTheInvoice(invoiceId)] + actions);
      && e in l1.events && l1.events[e].status == Billable
      && Answers(l1, r, found) && again !in l1.invoices && (forall x :: x in found ==> x in l1.events)
      && Create(l1, r, found, again) == Success(l2)
    ensures BillsAt(l2, at, e, Max(0, l.events[e].amountMinor))
    ensures forall p :: ReferenceAt(l2, p) == Some(e) ==> p == at
    ensures var l1 := Run(l, [VoidTheInvoice(invoiceId)] + actions);
      && (at.invoiceId == again <==> !Referenced(l1, e))
      && (Referenced(l1, e) ==> at.invoiceId in l2.invoices && l2.invoices[at.invoiceId].status == Draft)
      && l2.events[e].status == (if r.finalize && !Referenced(l1, e) then Invoiced else Billable)
  {
    var steps := [VoidTheInvoice(invoiceId)] + actions;
    var l1 := Run(l, steps);
    RunKeepsInv(l, steps);
    RunKeepsPrices(l, steps);
    CreateKeepsInv(l1, r, found, again, l2);
    if Referenced(l1, e) {
      at :| ReferenceAt(l1, at) == Some(e);
      assert Backed(l1, at) && e !in found;
      FreshOrOld(l1, r, found, again, l2, at);
    } else {
      assert Wanted(l1, r, e);
      var k :| 0 <= k < |found| && found[k] == e;
      at := Place(again, k);
    }
    assert ReferenceAt(l2, at) == Some(e);
  }

  // ---------------------------------------------------------------- voided events

  /** A step that bills a voided event: a draft that references it is finalized, or an invoice that is created
      finalized asks for voided events of its account over its time and finds it unreferenced. */
  ghost predicate BillsVoided(l: Ledger, a: Action, e: string)
    requires e in l.events
  {
    match a
    case FinalizeInvoice(id) => id in l.invoices && l.invoices[id].status == Draft
        && e in EventIds(l.invoices[id].lines)
    case CreateInvoice(r, found, id) =>
      && Enabled(l, a) && r.finalize && !NumberTaken(l, r.account, r.invoiceNumber)
      && Voided in StatusFilter(r.statuses) && r.account == l.events[e].account
      && r.periodStart <= l.events[e].occurredAt < r.periodEnd && !Referenced(l, e)
    case _ => false
  }

  /** A voided event is INVOICED by exactly those steps, and no step does anything else to it. */
  lemma {:induction false} VoidedBilledExactlyBy(l: Ledger, a: Action, e: string)
    requires e in l.events && l.events[e].status == Voided
    ensures e in Next(l, a).events
    ensures Next(l, a).events[e] == l.events[e].(status := if BillsVoided(l, a, e) then Invoiced else Voided)
  {
    if a.CreateInvoice? && Enabled(l, a) {
      assert e in a.found <==> Wanted(l, a.request, e);
      assert forall x :: x in a.found ==> Wanted(l, a.request, x);
    }
  }

  /** The states a run passes through. */
  ghost predicate VoidedThroughout(l: Ledger, actions: seq<Action>, e: string)
    decreases |actions|
  {
    && e in l.events && l.events[e].status == Voided
    && (actions != [] ==> VoidedThroughout(Next(l, actions[0]), actions[1..], e))
  }

  /** Some step of the run bills the event, voided, in the state that step finds. */
  ghost predicate SomeStepBills(l: Ledger, actions: seq<Action>, e: string)
    decreases |actions|
  {
    actions != [] && e in l.events &&
      (BillsVoided(l, actions[0], e) || SomeStepBills(Next(l, actions[0]), actions[1..], e))
  }

  lemma {:induction false} VoidedUntilBilled(l: Ledger, actions: seq<Action>, e: string)
    requires e in l.events && l.events[e].status == Voided
    ensures VoidedThroughout(l, actions, e) <==> !SomeStepBills(l, actions, e)
    decreases |actions|
  {
    if actions != [] {
      VoidedBilledExactlyBy(l, actions[0], e);
      if BillsVoided(l, actions[0], e) {
        assert !VoidedThroughout(Next(l, actions[0]), actions[1..], e);
      } else {
        VoidedUntilBilled(Next(l, actions[0]), actions[1..], e);
      }
    }
  }

  /** After an event is voided, a run leaves it voided exactly when none of its steps bills a voided event. */
  lemma {:induction false} VoidingHoldsExactlyUntilBilled(l: Ledger, e: string, actions: seq<Action>)
    requires VoidEvent(l, e).Success?
    ensures VoidedThroughout(VoidEvent(l, e).value, actions, e) <==> !SomeStepBills(VoidEvent(l, e).value, actions, e)
  {
    VoidedUntilBilled(VoidEvent(l, e).value, actions, e);
  }

  /** Both ways are open: a draft that already references the event is finalized, ... */
  lemma {:induction false} FinalizingBillsVoided(l: Ledger, e: string, p: Place)
    requires Inv(l) && VoidEvent(l, e).Success? && ReferenceAt(l, p) == Some(e)
    ensures var l2 := Run(l, [VoidTheEvent(e), FinalizeInvoice(p.invoiceId)]);
      e in l2.events && l2.events[e].status == Invoiced
  {
    var l1 := VoidEvent(l, e).value;
    assert Backed(l, p);
    assert ReferenceAt(l1, Place(p.invoiceId, p.line)) == Some(e);
    IdsOnLines(l1, p.invoiceId, e);
    TwoSteps(l, VoidTheEvent(e), FinalizeInvoice(p.invoiceId));
    VoidedBilledExactlyBy(l1, FinalizeInvoice(p.invoiceId), e);
  }

  lemma {:induction false} TwoSteps(l: Ledger, a: Action, b: Action)
    ensures Run(l, [a, b]) == Next(Next(l, a), b)
  {
    assert [a, b][1..] == [b] && [b][1..] == [];
    assert Run(Next(l, a), [b]) == Run(Next(Next(l, a), b), []);
  }

  /** ... and an unreferenced event is billed by asking for voided events, here in a ledger with nothing else. */
  lemma {:induction false} AskingForVoidedBillsIt(e: string, event: Event, id: string)
    requires event.status == Billable
    ensures var l := Ledger(map[e := event], map[]);
      var r := Request(event.account, event.occurredAt, event.occurredAt + 1, {Voided}, "", true);
      var l2 := Run(l, [VoidTheEvent(e), CreateInvoice(r, [e], id)]);
      Inv(l) && !Referenced(l, e) && e in l2.events && l2.events[e].status == Invoiced
  {
    var l := Ledger(map[e := event], map[]);
    var r := Request(event.account, event.occurredAt, event.occurredAt + 1, {Voided}, "", true);
    var a := CreateInvoice(r, [e], id);
    var l1 := VoidEvent(l, e).value;
    forall p ensures Backed(l, p) && ReferenceAt(l, p) == None && ReferenceAt(l1, p) == None { }
    assert Answers(l1, r, [e]);
    TwoSteps(l, VoidTheEvent(e), a);
    VoidedBilledExactlyBy(l1, a, e);
  }

  // ---------------------------------------------------------------- the service

  class BillingService {
    var events: map<string, Event>
    var invoices: map<string, Invoice>

    ghost function Tables(): Ledger
      reads this
    {
      Ledger(events, invoices)
    }

    constructor (recorded: map<string, Event>)
      ensures Tables() == Ledger(recorded, map[])
    {
      events := recorded;
      invoices := map[];
    }

    /** `found` is the database's answer to the query and `invoiceId` the id it generates. */
    method CreateBillingInvoice(r: Request, found: seq<string>, invoiceId: string)
      returns (result: Result<Invoice, BillingError>)
      requires Answers(Tables(), r, found) && invoiceId !in invoices
      requires forall e :: e in found ==> e in events
      modifies this
      ensures result.Success? <==> Create(old(Tables()), r, found, invoiceId).Success?
      ensures match Create(old(Tables()), r, found, invoiceId)
        case Success(l) => Tables() == l && result.value == l.invoices[invoiceId]
        case Failure(e) => Tables() == old(Tables()) && result.error == e
    {
      if r.periodEnd <= r.periodStart { return Failure(InvalidPeriod); }
      if |found| == 0 { return Failure(NothingBillable); }
      var lines: seq<Line> := [];
      for i := 0 to |found|
        invariant |lines| == i
          && forall k :: 0 <= k < i ==> lines[k] == Line(Some(found[k]), Max(0, events[found[k]].amountMinor))
      {
        assert found[i] in found;
        lines := lines + [Line(Some(found[i]), Max(0, events[found[i]].amountMinor))];
      }
      assert lines == LinesFor(Tables(), found);
      if exists i :: i in invoices
                     && invoices[i].account.clientId == r.account.clientId
                     && invoices[i].invoiceNumber == r.invoiceNumber
      {
        return Failure(DuplicateNumber);
      }
      var invoice := Invoice(r.account, r.invoiceNumber, if r.finalize then Finalized else Draft, lines);
      invoices := invoices[invoiceId := invoice];
      if r.finalize { events := WithStatus(events, IdSet(found), Invoiced); }
      return Success(invoice);
    }

    method FinalizeBillingInvoice(invoiceId: string) returns (result: Result<Invoice, BillingError>)
      modifies this
      ensures match Finalize(old(Tables()), invoiceId)
        case Success(l) => Tables() == l && result == Success(l.invoices[invoiceId])
        case Failure(e) => Tables() == old(Tables()) && result == Failure(e)
    {
      if invoiceId !in invoices { return Failure(NotFound); }
      var invoice := invoices[invoiceId];
      if invoice.status != Draft { return Failure(NotDraft); }
      var eventIds := EventIds(invoice.lines);
      invoices := invoices[invoiceId := invoice.(status := Finalized)];
      if eventIds != {} { events := WithStatus(events, eventIds, Invoiced); }
      assert eventIds == {} ==> WithStatus(events, eventIds, Invoiced) == events;
      return Success(invoices[invoiceId]);
    }

    method VoidBillingInvoice(invoiceId: string) returns (result: Result<Invoice, BillingError>)
      modifies this
      ensures match VoidInvoice(old(Tables()), invoiceId)
        case Success(l) => Tables() == l && result == Success(l.invoices[invoiceId])
        case Failure(e) => Tables() == old(Tables()) && result == Failure(e)
    {
      if invoiceId !in invoices { return Failure(NotFound); }
      var invoice := invoices[invoiceId];
      if invoice.status == InvoiceVoided { return Success(invoice); }
      var eventIds := EventIds(invoice.lines);
      if eventIds != {} {
        events := Released(events, eventIds);
        invoice := invoice.(lines := Detached(invoice.lines));
      }
      NothingToRelease(events, invoice.lines);
      invoices := invoices[invoiceId := invoice.(status := InvoiceVoided)];
      return Success(invoices[invoiceId]);
    }

    method VoidBillingEvent(eventId: string) returns (result: Result<Event, BillingError>)
      modifies this
      ensures match VoidEvent(old(Tables()), eventId)
        case Success(l) => Tables() == l && result == Success(l.events[eventId])
        case Failure(e) => Tables() == old(Tables()) && result == Failure(e)
    {
      if eventId !in events { return Failure(NotFound); }
      if events[eventId].status == Invoiced { return Failure(AlreadyInvoiced); }
      events := events[eventId := events[eventId].(status := Voided)];
      return Success(events[eventId]);
    }
  }

  lemma {:induction false} NothingToRelease(events: map<string, Event>, lines: seq<Line>)
    ensures EventIds(lines) == {} ==> Released(events, {}) == events && Detached(lines) == lines
  {
    forall i | 0 <= i < |lines| && lines[i].billingEventId.Some? ensures EventIds(lines) != {} {
      assert lines[i].billingEventId.value in EventIds(lines);
    }
  }
}
