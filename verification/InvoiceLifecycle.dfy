/** What each billing operation does to the rows of events and invoices, and how an invoice ages. */
module InvoiceLifecycle {
  import opened Common
  import opened InvoiceLedger

  // ---------------------------------------------------------------- one operation

  ghost predicate OthersKept(l: Ledger, l': Ledger, invoiceId: string) {
    && l'.invoices.Keys == l.invoices.Keys + {invoiceId}
    && forall i :: i in l.invoices && i != invoiceId ==> l'.invoices[i] == l.invoices[i]
  }

  ghost predicate OnLine(l: Ledger, invoiceId: string, e: string) {
    exists k: nat :: ReferenceAt(l, Place(invoiceId, k)) == Some(e)
  }

  /** Creating an invoice, exactly: it is refused for an empty period, when no event qualifies, and for a number
      the client has already used; otherwise its lines reference each qualifying event, which is INVOICED at once
      if the invoice is to be final. Without a status filter only BILLABLE events qualify. */
  lemma {:induction false} CreationOutcome(l: Ledger, r: Request, found: seq<string>, invoiceId: string, e: string)
    requires Answers(l, r, found) && invoiceId !in l.invoices && forall x :: x in found ==> x in l.events
    ensures Create(l, r, found, invoiceId) == Failure(InvalidPeriod) <==> r.periodEnd <= r.periodStart
    ensures Create(l, r, found, invoiceId) == Failure(NothingBillable) <==>
      r.periodStart < r.periodEnd && forall x :: !Wanted(l, r, x)
    ensures Create(l, r, found, invoiceId) == Failure(DuplicateNumber) <==>
      && r.periodStart < r.periodEnd && (exists x :: Wanted(l, r, x))
      && exists i :: i in l.invoices && l.invoices[i].account.clientId == r.account.clientId
           && l.invoices[i].invoiceNumber == r.invoiceNumber
    ensures match Create(l, r, found, invoiceId)
      case Failure(error) => error == InvalidPeriod || error == NothingBillable || error == DuplicateNumber
      case Success(l') =>
        && OthersKept(l, l', invoiceId)
        && l'.invoices[invoiceId].account == r.account && l'.invoices[invoiceId].invoiceNumber == r.invoiceNumber
        && l'.invoices[invoiceId].status == (if r.finalize then Finalized else Draft)
        && (OnLine(l', invoiceId, e) <==>
              && e in l.events && l.events[e].account == r.account
              && (if r.statuses == {} then l.events[e].status == Billable else l.events[e].status in r.statuses)
              && r.periodStart <= l.events[e].occurredAt < r.periodEnd && !Referenced(l, e))
        && (e in l.events ==>
              e in l'.events && l'.events[e] ==
                if r.finalize && OnLine(l', invoiceId, e) then l.events[e].(status := Invoiced) else l.events[e])
  {
    assert found != [] ==> found[0] in found;
    if Create(l, r, found, invoiceId).Success? {
      var l' := Create(l, r, found, invoiceId).value;
      if e in found {
        var k: nat :| k < |found| && found[k] == e;
        assert ReferenceAt(l', Place(invoiceId, k)) == Some(e);
      }
      if k: nat :| ReferenceAt(l', Place(invoiceId, k)) == Some(e) { assert found[k] == e; }
    }
  }

  /** Cutting a period in two neither loses nor repeats an event. */
  lemma {:induction false} PeriodsPartition(l: Ledger, r: Request, cut: int, e: string)
    requires r.periodStart <= cut <= r.periodEnd
    ensures var early, late := Wanted(l, r.(periodEnd := cut), e), Wanted(l, r.(periodStart := cut), e);
      (Wanted(l, r, e) <==> early || late) && !(early && late)
  {
  }

  /** Finalizing, exactly: only a draft can be, and then its events and no others are INVOICED. */
  lemma {:induction false} FinalizingOutcome(l: Ledger, invoiceId: string, e: string)
    ensures Finalize(l, invoiceId) == Failure(NotFound) <==> invoiceId !in l.invoices
    ensures Finalize(l, invoiceId) == Failure(NotDraft) <==>
      invoiceId in l.invoices && (l.invoices[invoiceId].status == Finalized
                                  || l.invoices[invoiceId].status == InvoiceVoided)
    ensures match Finalize(l, invoiceId)
      case Failure(error) => error == NotFound || error == NotDraft
      case Success(l') =>
        && OthersKept(l, l', invoiceId)
        && l'.invoices[invoiceId] == l.invoices[invoiceId].(status := Finalized)
        && (e in l.events ==>
              e in l'.events && l'.events[e] ==
                if OnLine(l, invoiceId, e) then l.events[e].(status := Invoiced) else l.events[e])
  {
    if invoiceId in l.invoices { IdsOnLines(l, invoiceId, e); }
  }

  /** A voided invoice keeps its account, its number and its amounts, and references nothing. */
  ghost predicate VoidedFrom(before: Invoice, after: Invoice) {
    && after.status == InvoiceVoided && after.account == before.account && after.invoiceNumber == before.invoiceNumber
    && |after.lines| == |before.lines|
    && forall k :: 0 <= k < |before.lines| ==>
         after.lines[k].amountMinor == before.lines[k].amountMinor && after.lines[k].billingEventId == None
  }

  lemma {:induction false} VoidedIsBare(l: Ledger, invoiceId: string)
    requires Inv(l) && invoiceId in l.invoices && l.invoices[invoiceId].status == InvoiceVoided
    ensures VoidedFrom(l.invoices[invoiceId], l.invoices[invoiceId])
  {
    forall k | 0 <= k < |l.invoices[invoiceId].lines|
      ensures l.invoices[invoiceId].lines[k].billingEventId == None
    {
      assert Backed(l, Place(invoiceId, k));
    }
  }

  /** Voiding, exactly: it refuses only an unknown invoice, leaves that invoice VOIDED and bare and every other one
      as it was, and turns back to BILLABLE just the INVOICED events on its lines. */
  lemma {:induction false} VoidingOutcome(l: Ledger, invoiceId: string, e: string)
    requires Inv(l)
    ensures VoidInvoice(l, invoiceId) == Failure(NotFound) <==> invoiceId !in l.invoices
    ensures match VoidInvoice(l, invoiceId)
      case Failure(error) => error == NotFound
      case Success(l') =>
        && OthersKept(l, l', invoiceId)
        && VoidedFrom(l.invoices[invoiceId], l'.invoices[invoiceId])
        && (e in l.events ==>
              e in l'.events && l'.events[e] ==
                if OnLine(l, invoiceId, e) && l.events[e].status == Invoiced then l.events[e].(status := Billable)
                else l.events[e])
  {
    if invoiceId in l.invoices {
      IdsOnLines(l, invoiceId, e);
      if l.invoices[invoiceId].status == InvoiceVoided {
        VoidedIsBare(l, invoiceId);
      }
    }
  }

  /** Voiding an event, exactly: an INVOICED one is refused, any other is VOIDED, and nothing else changes. */
  lemma {:induction false} EventVoidingOutcome(l: Ledger, eventId: string)
    ensures VoidEvent(l, eventId) == Failure(NotFound) <==> eventId !in l.events
    ensures VoidEvent(l, eventId) == Failure(AlreadyInvoiced) <==>
      eventId in l.events && l.events[eventId].status == Invoiced
    ensures match VoidEvent(l, eventId)
      case Failure(error) => error == NotFound || error == AlreadyInvoiced
      case Success(l') =>
        && l'.invoices == l.invoices && l'.events.Keys == l.events.Keys
        && l'.events[eventId] == l.events[eventId].(status := Voided)
        && forall x :: x in l.events && x != eventId ==> l'.events[x] == l.events[x]
  {
  }

  // ---------------------------------------------------------------- every run

  /** A recorded invoice is left alone by every step but its own finalization, while a draft, and its own voiding. */
  lemma {:induction false} InvoiceChangedExactlyBy(l: Ledger, a: Action, invoiceId: string)
    requires Inv(l) && invoiceId in l.invoices
    ensures invoiceId in Next(l, a).invoices
    ensures var before, after := l.invoices[invoiceId], Next(l, a).invoices[invoiceId];
      if a == FinalizeInvoice(invoiceId) && before.status == Draft then after == before.(status := Finalized)
      else if a == VoidTheInvoice(invoiceId) then VoidedFrom(before, after)
      else after == before
  {
    if a.VoidTheInvoice? { VoidingOutcome(l, a.invoiceId, ""); }
    if a.FinalizeInvoice? { FinalizingOutcome(l, a.invoiceId, ""); }
  }

  /** Draft, then perhaps FINALIZED, then perhaps VOIDED, and never back. */
  ghost predicate Aged(before: Invoice, after: Invoice) {
    || after == before
    || (before.status == Draft && after == before.(status := Finalized))
    || VoidedFrom(before, after)
  }

  /** In every run an invoice only ages, and keeps its account, its number and its amounts. */
  lemma {:induction false} InvoicesOnlyAge(l: Ledger, actions: seq<Action>, invoiceId: string)
    requires Inv(l) && invoiceId in l.invoices
    ensures invoiceId in Run(l, actions).invoices
    ensures Aged(l.invoices[invoiceId], Run(l, actions).invoices[invoiceId])
    decreases |actions|
  {
    if actions != [] {
      NextKeepsInv(l, actions[0]);
      InvoiceChangedExactlyBy(l, actions[0], invoiceId);
      InvoicesOnlyAge(Next(l, actions[0]), actions[1..], invoiceId);
    }
  }

  lemma {:induction false} VoidedStays(l: Ledger, actions: seq<Action>, invoiceId: string)
    requires Inv(l) && invoiceId in l.invoices && l.invoices[invoiceId].status == InvoiceVoided
    ensures var l' := Run(l, actions);
      Inv(l') && invoiceId in l'.invoices && l'.invoices[invoiceId] == l.invoices[invoiceId]
    decreases |actions|
  {
    if actions != [] {
      var l1 := Next(l, actions[0]);
      NextKeepsInv(l, actions[0]);
      InvoiceChangedExactlyBy(l, actions[0], invoiceId);
      assert l1.invoices[invoiceId] == l.invoices[invoiceId];
      VoidedStays(l1, actions[1..], invoiceId);
    }
  }

  /** A voided invoice stays as the voiding left it whatever is done later: it cannot be finalized again, and
      voiding it again changes nothing. */
  lemma {:induction false} VoidingIsForGood(l: Ledger, invoiceId: string, actions: seq<Action>)
    requires Inv(l) && invoiceId in l.invoices
    ensures var l' := Run(l, [VoidTheInvoice(invoiceId)] + actions);
      && invoiceId in l'.invoices && VoidedFrom(l.invoices[invoiceId], l'.invoices[invoiceId])
      && Finalize(l', invoiceId) == Failure(NotDraft) && VoidInvoice(l', invoiceId) == Success(l')
  {
    var void := VoidTheInvoice(invoiceId);
    assert ([void] + actions)[1..] == actions;
    NextKeepsInv(l, void);
    InvoiceChangedExactlyBy(l, void, invoiceId);
    VoidedStays(Next(l, void), actions, invoiceId);
  }
}
