/** The allocation transaction as the service runs it: nested loops that count down what
    remains of a line and change rows one by one, rolled back when a check throws. */
module AllocationService {
  import opened Common
  import opened StockFreezes
  import opened StockAllocation

  class StockDatabase {
    var quants: seq<Quant>
    var reservations: seq<Reservation>
    var orders: map<string, Order>
    var freezes: seq<Freeze>

    function Snapshot(): Tables
      reads this
    {
      Tables(quants, reservations, orders, freezes)
    }

    constructor (t: Tables)
      ensures Snapshot() == t
    {
      quants, reservations, orders, freezes := t.quants, t.reservations, t.orders, t.freezes;
    }

    /** `reserveStockQuant`: reload the row, refuse a frozen or too small one, raise `reserved`. */
    method ReserveStockQuant(id: nat, quantity: int) returns (refusal: Option<AllocError>)
      requires id < |quants|
      modifies this`quants
      ensures refusal
           == (if IsFrozen(freezes, id, old(quants)[id]) then Some(Frozen)
               else if quantity > Available(old(quants)[id])
               then Some(InsufficientAfterLock(quantity, Available(old(quants)[id])))
               else None)
      ensures quants
           == (if refusal.Some? then old(quants)
               else old(quants)[id := old(quants)[id].(reserved := old(quants)[id].reserved + quantity)])
    {
      var locked := quants[id];
      if IsFrozen(freezes, id, locked) { return Some(Frozen); }
      var available := Available(locked);
      if quantity > available { return Some(InsufficientAfterLock(quantity, available)); }
      quants := quants[id := locked.(reserved := locked.reserved + quantity)];
      return None;
    }

    /** The candidate loop of one line, by the amount still `remaining`. */
    method FillFrom(line: Line, cands: seq<Candidate>, required: int) returns (r: Result<int, AllocError>)
      requires forall c :: c in cands ==> c.id < |quants|
      modifies this`quants, this`reservations
      ensures match r
        case Failure(e) => FillLine(old(Snapshot()), line, cands, required) == Failure(e)
        case Success(allocatedQuantity) =>
          && FillLine(old(Snapshot()), line, cands, required) == Success(Snapshot())
          && ActiveFor(reservations, line.id) == ActiveFor(old(reservations), line.id) + allocatedQuantity
    {
      var allocatedQuantity, remaining, j := 0, required, 0;
      while j < |cands|
        invariant j <= |cands| && |quants| == |old(quants)|
        invariant FillLine(Snapshot(), line, cands[j..], remaining) == FillLine(old(Snapshot()), line, cands, required)
        invariant ActiveFor(reservations, line.id) == ActiveFor(old(reservations), line.id) + allocatedQuantity
      {
        if remaining <= 0 { break; }
        var candidate := cands[j];
        var quantity := Min(Available(candidate.row), remaining);
        if quantity > 0 {
          var refusal := ReserveStockQuant(candidate.id, quantity);
          if refusal.Some? { return Failure(refusal.value); }
          var row := Reservation(line.id, candidate.id, quantity, true);
          ActiveForSnoc(reservations, row);
          reservations := reservations + [row];
          assert cands[j..][1..] == cands[j + 1..];
          allocatedQuantity := allocatedQuantity + quantity;
          remaining := remaining - quantity;
        }
        j := j + 1;
      }
      return Success(allocatedQuantity);
    }

    /** One line: what it still requires, its candidates, and their total before any write. */
    method AllocateOneLine(line: Line, owned: Option<set<nat>>, strategy: Strategy)
      returns (r: Result<LineResult, AllocError>)
      modifies this`quants, this`reservations
      ensures match r
        case Failure(e) => AllocateLine(old(Snapshot()), line, owned, strategy) == Failure(e)
        case Success(result) =>
          && AllocateLine(old(Snapshot()), line, owned, strategy) == Success(Snapshot())
          && result == LineResultOf(old(reservations), reservations, line)
    {
      var alreadyReserved := ActiveFor(reservations, line.id);
      var required := Required(reservations, line);
      var allocatedQuantity := 0;
      if required > 0 {
        var cands := FindCandidates(quants, line, owned, strategy);
        CandidatesMatch(quants, line, owned, strategy);
        var total := TotalAvailable(cands);
        if total < required { return Failure(InsufficientStock(required, total)); }
        var filled := FillFrom(line, cands, required);
        if filled.Failure? { return Failure(filled.error); }
        allocatedQuantity := filled.value;
      }
      return Success(LineResult(line.id, alreadyReserved, allocatedQuantity, Max(required - allocatedQuantity, 0)));
    }

    /** `allocateOrderInTransaction`: every line in turn, then the order's status. */
    method AllocateOrderInTransaction(order: string, owned: Option<set<nat>>, strategy: Strategy)
      returns (r: Result<seq<LineResult>, AllocError>)
      requires order in orders
      modifies this`quants, this`reservations, this`orders
      ensures match r
        case Failure(e) =>
          || (old(orders)[order].lines == [] && e == NoLines)
          || AllocateLines(old(Snapshot()), old(orders)[order].lines, owned, strategy) == Failure(e)
        case Success(results) =>
          && old(orders)[order].lines != []
          && orders == old(orders)[order := old(orders)[order].(status := "ALLOCATED")]
          && AllocateLines(old(Snapshot()), old(orders)[order].lines, owned, strategy)
               == Success(Allocation(Tables(quants, reservations, old(orders), freezes), results))
    {
      var lines := orders[order].lines;
      if lines == [] { return Failure(NoLines); }
      var results, k := [], 0;
      assert lines[0..] == lines;
      PrependNothing(AllocateLines(Snapshot(), lines, owned, strategy));
      while k < |lines|
        invariant k <= |lines| && orders == old(orders)
        invariant AllocateLines(old(Snapshot()), lines, owned, strategy)
               == Prepend(results, AllocateLines(Snapshot(), lines[k..], owned, strategy))
      {
        var one := AllocateOneLine(lines[k], owned, strategy);
        assert lines[k..][1..] == lines[k + 1..];
        if one.Failure? { return Failure(one.error); }
        PrependSnoc(results, one.value, AllocateLines(Snapshot(), lines[k + 1..], owned, strategy));
        results := results + [one.value];
        k := k + 1;
      }
      assert results + [] == results;
      orders := orders[order := orders[order].(status := "ALLOCATED")];
      return Success(results);
    }

    /** `allocateOutboundOrder` with no concurrent transaction: it commits what `AllocateOrder`
        says, or throws the same error and leaves every table as it was. */
    method AllocateOutboundOrder(order: string, owned: Option<set<nat>>, strategy: Strategy)
      returns (r: Result<seq<LineResult>, AllocError>)
      modifies this
      ensures match AllocateOrder(old(Snapshot()), order, owned, strategy)
        case Failure(e) => r == Failure(e) && Snapshot() == old(Snapshot())
        case Success(a) => r == Success(a.lines) && Snapshot() == a.tables
    {
      if order !in orders { return Failure(OrderNotFound); }
      if orders[order].status in CLOSED_STATUSES { return Failure(NotAllocatable); }
      var quants0, reservations0, orders0 := quants, reservations, orders;
      r := AllocateOrderInTransaction(order, owned, strategy);
      if r.Failure? {
        quants, reservations, orders := quants0, reservations0, orders0;
      }
    }
  }

  lemma {:induction false} ActiveForSnoc(rs: seq<Reservation>, row: Reservation)
    ensures row.active ==> ActiveFor(rs + [row], row.line) == ActiveFor(rs, row.line) + row.quantity
  {
    assert (rs + [row])[..|rs|] == rs;
  }

  function Prepend(done: seq<LineResult>, rest: Result<Allocation, AllocError>): Result<Allocation, AllocError> {
    match rest
    case Failure(e) => Failure(e)
    case Success(a) => Success(Allocation(a.tables, done + a.lines))
  }

  lemma {:induction false} PrependNothing(rest: Result<Allocation, AllocError>)
    ensures Prepend([], rest) == rest
  {
    if rest.Success? { assert [] + rest.value.lines == rest.value.lines; }
  }

  lemma {:induction false} PrependSnoc(done: seq<LineResult>, one: LineResult, rest: Result<Allocation, AllocError>)
    ensures Prepend(done, Prepend([one], rest)) == Prepend(done + [one], rest)
  {
    if rest.Success? { assert done + ([one] + rest.value.lines) == done + [one] + rest.value.lines; }
  }
}
