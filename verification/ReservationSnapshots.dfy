/** The simple atomic reservation on one stock row, which the locked step of a concurrent
    allocation refines. */
module ReservationSnapshots {
  import opened Common
  import opened StockFreezes
  import opened StockAllocation
  import opened AllocationRuns

  datatype Snapshot = Snapshot(quantity: int, reserved: int, version: Option<int>)

  datatype Attempt = Attempt(quantity: int, expectedVersion: Option<int>)

  datatype Reason = Ok | NonPositiveQuantity | StaleVersion | InsufficientAvailableQuantity

  datatype Outcome = Outcome(reason: Reason, availableBefore: nat, availableAfter: nat, snapshot: Snapshot)

  function AvailableOn(s: Snapshot): nat { Max(0, s.quantity - s.reserved) }

  function Apply(s: Snapshot, a: Attempt): Outcome {
    var before := AvailableOn(s);
    if a.quantity <= 0 then Outcome(NonPositiveQuantity, before, before, s)
    else if a.expectedVersion.Some? && s.version.Some? && a.expectedVersion != s.version
      then Outcome(StaleVersion, before, before, s)
    else if before < a.quantity then Outcome(InsufficientAvailableQuantity, before, before, s)
    else
      var updated := Snapshot(s.quantity, s.reserved
        + a.quantity, if s.version.Some? then Some(s.version.value + 1) else None);
      Outcome(Ok, before, AvailableOn(updated), updated)
  }

  /** An attempt, exactly: each refusal has its one reason and changes nothing, and a success takes its quantity out
      of what was available and moves the version on. */
  lemma {:induction false} AttemptOutcome(s: Snapshot, a: Attempt)
    ensures var o := Apply(s, a);
      && (o.reason == NonPositiveQuantity <==> a.quantity <= 0)
      && (o.reason == StaleVersion <==>
            a.quantity > 0 && a.expectedVersion != s.version && a.expectedVersion != None && s.version != None)
      && (o.reason == InsufficientAvailableQuantity <==>
            && a.quantity > 0 && s.quantity - s.reserved < a.quantity
            && (a.expectedVersion == s.version || a.expectedVersion == None || s.version == None))
      && o.availableBefore == (if s.reserved <= s.quantity then s.quantity - s.reserved else 0)
      && o.availableAfter == o.availableBefore - (if o.reason == Ok then a.quantity else 0)
      && o.snapshot == (if o.reason != Ok then s
                        else Snapshot(s.quantity, s.reserved + a.quantity,
                                      if s.version == None then None else Some(s.version.value + 1)))
  {
  }

  function ApplyAll(s: Snapshot, attempts: seq<Attempt>): Snapshot
    decreases |attempts|
  {
    if attempts == [] then s else ApplyAll(Apply(s, attempts[0]).snapshot, attempts[1..])
  }

  /** How many of the attempts succeed, and how much they reserve. */
  function Successes(s: Snapshot, attempts: seq<Attempt>): (nat, int)
    decreases |attempts|
  {
    if attempts == [] then (0, 0)
    else
      var o := Apply(s, attempts[0]);
      var (n, total) := Successes(o.snapshot, attempts[1..]);
      if o.reason == Ok then (n + 1, total + attempts[0].quantity) else (n, total)
  }

  /** Over any attempts: exactly the successful quantities are added, the version counts the successes, and a row
      that starts within its stock never exceeds it. */
  lemma {:induction false} AttemptsConserve(s: Snapshot, attempts: seq<Attempt>)
    ensures var end := ApplyAll(s, attempts); var (n, total) := Successes(s, attempts);
      && end.quantity == s.quantity && end.reserved == s.reserved + total
      && end.version == (if s.version.Some? then Some(s.version.value + n) else None)
      && (s.reserved <= s.quantity ==> end.reserved <= end.quantity)
    decreases |attempts|
  {
    if attempts != [] { AttemptsConserve(Apply(s, attempts[0]).snapshot, attempts[1..]); }
  }

  /** Of any attempts made against one version of a row, at most one succeeds: no update is lost. */
  lemma {:induction false} OneWinnerPerVersion(s: Snapshot, attempts: seq<Attempt>, version: int)
    requires s.version.Some? && s.version.value >= version
      && forall a :: a in attempts ==> a.expectedVersion == Some(version)
    ensures Successes(s, attempts).0 <= if s.version.value == version then 1 else 0
    decreases |attempts|
  {
    if attempts != [] {
      assert attempts[0] in attempts;
      OneWinnerPerVersion(Apply(s, attempts[0]).snapshot, attempts[1..], version);
    }
  }

  function SnapshotOf(row: Quant): Snapshot { Snapshot(row.quantity, row.reserved, None) }

  /** The row as transaction `x` sees it: committed, plus its own writes. */
  function SeenRow(w: World, x: Tx, id: nat): Quant
    requires x.Alloc? && id < |w.db.quants|
  {
    Applied(w.db, x.staged).quants[id]
  }

  /** With the row locked and not frozen, the step of a concurrent allocation does to the row exactly what the
      atomic snapshot does, and rolls back exactly when the snapshot refuses. */
  lemma {:induction false} LockedStepRefinesSnapshot(w: World, t: nat, x: Tx, w': World)
    requires x.Alloc? && x.pc.Locked? && x.pc.k < |x.lines| && x.pc.next < |x.pc.cands|
    requires x.pc.cands[x.pc.next].id < |w.db.quants| && Min(Available(x.pc.cands[x.pc.next].row), x.pc.remaining) > 0
    requires !IsFrozen(w.db.freezes, x.pc.cands[x.pc.next].id, SeenRow(w, x, x.pc.cands[x.pc.next].id))
    requires ProceedAlloc(w, t, x) == Some(w')
    ensures w'.db == w.db && t in w'.txs && w'.txs[t].Alloc?
    ensures var id := x.pc.cands[x.pc.next].id;
      var o := Apply(SnapshotOf(SeenRow(w, x, id)),
        Attempt(Min(Available(x.pc.cands[x.pc.next].row), x.pc.remaining), None));
      && (o.reason == Ok ==> SnapshotOf(SeenRow(w', w'.txs[t], id)) == o.snapshot && w'.txs[t].pc.Draining?)
      && (o.reason != Ok ==> w'.txs[t].pc == RolledBack(false))
      && (o.reason == Ok ==>
            forall q :: 0 <= q < |w.db.quants| && q != id ==> SeenRow(w', w'.txs[t], q) == SeenRow(w, x, q))
  {
    var id := x.pc.cands[x.pc.next].id;
    var row := Reservation(x.lines[x.pc.k].id, id, Min(Available(x.pc.cands[x.pc.next].row), x.pc.remaining), true);
    assert (x.staged + [row])[..|x.staged|] == x.staged;
  }
}
