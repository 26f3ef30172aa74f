/** What `allocateOutboundOrder` does to the stock. */
module StockAllocation {
  // Its serial meaning: candidate order, greedy draining of a line, reservation of a quant, and the
  // order transaction over the stock tables.

  import opened Common
  import opened Sorting
  import opened StockFreezes

  datatype Strategy = FEFO | FIFO | LIFO

  /** A row of `stock_quants`; its id is its index in the table. */
  datatype Quant = Quant(
    quantity: int,
    reserved: int,
    sku: string,
    location: string,
    isAvailable: bool,
    expiry: Option<int>,
    createdAt: int)

  datatype Line = Line(id: string, sku: string, ordered: int, picked: int)

  datatype Order = Order(status: string, lines: seq<Line>)

  datatype Reservation = Reservation(line: string, quant: nat, quantity: int, active: bool)

  datatype Tables = Tables(
    quants: seq<Quant>,
    reservations: seq<Reservation>,
    orders: map<string, Order>,
    freezes: seq<Freeze>)

  datatype AllocError =
    | OrderNotFound
    | NotAllocatable
    | NoLines
    | InsufficientStock(requested: int, available: int)
    | InsufficientAfterLock(requested: int, available: int)
    | Frozen

  datatype LineResult = LineResult(line: string, alreadyReserved: int, allocatedQuantity: int, remainingQuantity: int)

  const CLOSED_STATUSES := {"CANCELLED", "SHIPPED", "CLOSED", "COMPLETED"}

  function Available(q: Quant): nat { Max(q.quantity - q.reserved, 0) }

  // ---------------------------------------------------------------- preference

  function CompareCreatedAt(left: Quant, right: Quant): int { left.createdAt - right.createdAt }

  function Compare(left: Quant, right: Quant, strategy: Strategy): int {
    match strategy
    case LIFO => CompareCreatedAt(right, left)
    case FIFO => CompareCreatedAt(left, right)
    case FEFO =>
      if left.expiry.Some? && right.expiry.Some? && left.expiry.value != right.expiry.value
      then left.expiry.value - right.expiry.value
      else if left.expiry.Some? && right.expiry.None? then -1
      else if left.expiry.None? && right.expiry.Some? then 1
      else CompareCreatedAt(left, right)
  }

  /** A candidate is the row as it was read, together with its id. */
  datatype Candidate = Candidate(id: nat, row: Quant)

  function Prefers(strategy: Strategy): (Candidate, Candidate) -> bool {
    (a: Candidate, b: Candidate) => Compare(a.row, b.row, strategy) <= 0
  }

  /** Which of two rows a strategy takes first: FIFO the older one, LIFO the newer one, FEFO the one that
      expires earlier, dated stock before undated, and the older one among equal expiries. */
  predicate ComesFirst(left: Quant, right: Quant, strategy: Strategy) {
    match strategy
    case FIFO => left.createdAt < right.createdAt
    case LIFO => left.createdAt > right.createdAt
    case FEFO =>
      || (left.expiry.Some? && (right.expiry == None || left.expiry.value < right.expiry.value))
      || (left.expiry == right.expiry && left.createdAt < right.createdAt)
  }

  /** Each strategy's comparator ranks every pair and is transitive, and is negative exactly for the row that
      comes first and zero exactly when neither does. */
  lemma {:induction false} CompareTotalPreorder(strategy: Strategy)
    ensures TotalPreorder(Prefers(strategy))
    ensures forall l, r :: Compare(l, r, strategy) < 0 <==> ComesFirst(l, r, strategy)
    ensures forall l, r :: Compare(l, r, strategy) > 0 <==> ComesFirst(r, l, strategy)
  {
    var le := Prefers(strategy);
    forall a, b ensures le(a, b) || le(b, a) { CompareTotal(a.row, b.row, strategy); }
    forall a, b, c | le(a, b) && le(b, c) ensures le(a, c) { CompareTransitive(a.row, b.row, c.row, strategy); }
  }

  lemma {:induction false} CompareTotal(l: Quant, r: Quant, strategy: Strategy)
    ensures Compare(l, r, strategy) <= 0 || Compare(r, l, strategy) <= 0
  {
  }

  lemma {:induction false} CompareTransitive(a: Quant, b: Quant, c: Quant, strategy: Strategy)
    requires Compare(a, b, strategy) <= 0 && Compare(b, c, strategy) <= 0
    ensures Compare(a, c, strategy) <= 0
  {
  }

  predicate Matches(q: Quant, id: nat, line: Line, owned: Option<set<nat>>) {
    q.isAvailable && q.sku == line.sku && (owned.None? || id in owned.value) && Available(q) > 0
  }

  function Matching(quants: seq<Quant>, first: nat, line: Line, owned: Option<set<nat>>): seq<Candidate>
    requires first <= |quants|
    decreases |quants| - first
  {
    if first == |quants| then []
    else
      (if Matches(quants[first], first, line, owned) then [Candidate(first, quants[first])] else [])
      + Matching(quants, first + 1, line, owned)
  }

  /** `findAvailableStockQuants` before its total check. */
  function FindCandidates(quants: seq<Quant>, line: Line, owned: Option<set<nat>>, strategy: Strategy): seq<Candidate> {
    Sort(Prefers(strategy), Matching(quants, 0, line, owned))
  }

  function TotalAvailable(cands: seq<Candidate>): nat {
    if cands == [] then 0 else Available(cands[0].row) + TotalAvailable(cands[1..])
  }

  ghost predicate IdsDistinct(cands: seq<Candidate>) {
    forall i, j :: 0 <= i < j < |cands| ==> cands[i].id != cands[j].id
  }

  /** The candidate list of a snapshot: each matching row once, as read. */
  ghost predicate CandidatesOf(cands: seq<Candidate>, quants: seq<Quant>) {
    && (forall c :: c in cands ==> c.id < |quants| && c.row == quants[c.id] && Available(c.row) > 0)
    && IdsDistinct(cands)
  }

  lemma {:induction false} MatchingRows(quants: seq<Quant>, first: nat, line: Line, owned: Option<set<nat>>)
    requires first <= |quants|
    ensures var m := Matching(quants, first, line, owned);
      && (forall c :: c in m <==>
            first <= c.id < |quants| && c.row == quants[c.id] && Matches(c.row, c.id, line, owned))
      && (forall i, j :: 0 <= i < j < |m| ==> m[i].id < m[j].id)
    decreases |quants| - first
  {
    if first < |quants| {
      MatchingRows(quants, first + 1, line, owned);
      var rest := Matching(quants, first + 1, line, owned);
      forall c | c in rest ensures first < c.id { }
      assert forall i :: 0 <= i < |rest| ==> rest[i] in rest;
    }
  }

  /** The candidates are exactly the matching rows, each once, most preferred first. */
  lemma {:induction false} CandidatesMatch(quants: seq<Quant>, line: Line, owned: Option<set<nat>>,
                                                 strategy: Strategy)
    ensures var cands := FindCandidates(quants, line, owned, strategy);
      && CandidatesOf(cands, quants)
      && (forall i :: 0 <= i < |quants| ==>
            (Matches(quants[i], i, line, owned) <==> Candidate(i, quants[i]) in cands))
      && SortedBy(Prefers(strategy), cands)
  {
    var m := Matching(quants, 0, line, owned);
    var le := Prefers(strategy);
    MatchingRows(quants, 0, line, owned);
    CompareTotalPreorder(strategy);
    SortCorrect(le, m);
    forall c ensures c in Sort(le, m) <==> c in m { SortMembers(le, m, c); }
    SortDistinct(le, m);
    var cands := Sort(le, m);
    forall i, j | 0 <= i < j < |cands| ensures cands[i].id != cands[j].id {
      assert cands[i] in m && cands[j] in m && cands[i] != cands[j];
    }
  }

  /** The candidates are exactly the available rows of the line's SKU, and of its owner if it has one, that have
      unreserved stock: each once, and none before a row that the strategy takes first. */
  lemma {:induction false} FindCandidatesCorrect(quants: seq<Quant>, line: Line, owned: Option<set<nat>>,
                                                 strategy: Strategy)
    ensures var cands := FindCandidates(quants, line, owned, strategy);
      && (forall c :: c in cands ==> c.id < |quants| && c.row == quants[c.id])
      && (forall i :: 0 <= i < |quants| ==>
            (Candidate(i, quants[i]) in cands <==>
               && quants[i].isAvailable && quants[i].sku == line.sku && (owned == None || i in owned.value)
               && quants[i].quantity > quants[i].reserved))
      && (forall a, b :: 0 <= a < b < |cands| ==>
            cands[a].id != cands[b].id && !ComesFirst(cands[b].row, cands[a].row, strategy))
  {
    var cands := FindCandidates(quants, line, owned, strategy);
    CandidatesMatch(quants, line, owned, strategy);
    CompareTotalPreorder(strategy);
    forall a, b | 0 <= a < b < |cands| ensures !ComesFirst(cands[b].row, cands[a].row, strategy) {
      assert Prefers(strategy)(cands[a], cands[b]);
    }
  }

  // ---------------------------------------------------------------- reservations

  function SumOn(rs: seq<Reservation>, quant: nat): int {
    if rs == [] then 0
    else SumOn(rs[..|rs| - 1], quant) + (if rs[|rs| - 1].quant == quant then rs[|rs| - 1].quantity else 0)
  }

  /** `countActiveReservations`. */
  function ActiveFor(rs: seq<Reservation>, line: string): int {
    if rs == [] then 0
    else ActiveFor(rs[..|rs| - 1], line)
         + (if rs[|rs| - 1].active && rs[|rs| - 1].line == line then rs[|rs| - 1].quantity else 0)
  }

  lemma {:induction false} SumOnConcat(a: seq<Reservation>, b: seq<Reservation>, quant: nat)
    ensures SumOn(a + b, quant) == SumOn(a, quant) + SumOn(b, quant)
  {
    if b == [] {
      assert a + b == a;
    } else {
      assert (a + b)[..|a + b| - 1] == a + b[..|b| - 1];
      SumOnConcat(a, b[..|b| - 1], quant);
    }
  }

  lemma {:induction false} ActiveForConcat(a: seq<Reservation>, b: seq<Reservation>, line: string)
    ensures ActiveFor(a + b, line) == ActiveFor(a, line) + ActiveFor(b, line)
  {
    if b == [] {
      assert a + b == a;
    } else {
      assert (a + b)[..|a + b| - 1] == a + b[..|b| - 1];
      ActiveForConcat(a, b[..|b| - 1], line);
    }
  }

  function Required(rs: seq<Reservation>, line: Line): nat {
    Max(line.ordered - line.picked - ActiveFor(rs, line.id), 0)
  }

  /** What a line is to hold once allocated: what was ordered, or more if more was already held. */
  function Target(rs: seq<Reservation>, line: Line): int {
    Max(line.ordered, line.picked + ActiveFor(rs, line.id))
  }

  function Reserve(t: Tables, line: Line, quant: nat, quantity: int): Tables
    requires quant < |t.quants|
  {
    t.(quants := t.quants[quant := t.quants[quant].(reserved := t.quants[quant].reserved + quantity)],
       reservations := t.reservations + [Reservation(line.id, quant, quantity, true)])
  }

  predicate IsFrozen(freezes: seq<Freeze>, id: nat, q: Quant) {
    exists i :: 0 <= i < |freezes| && Blocks(freezes[i], id, q.location, q.sku)
  }

  /** The candidate loop of one line: stale amount, row reload, freeze check, re-check, write. */
  function FillLine(t: Tables, line: Line, cands: seq<Candidate>, remaining: int): Result<Tables, AllocError>
    requires forall c :: c in cands ==> c.id < |t.quants|
    decreases |cands|
  {
    if cands == [] || remaining <= 0 then Success(t)
    else
      var c := cands[0];
      var quantity := Min(Available(c.row), remaining);
      if quantity <= 0 then FillLine(t, line, cands[1..], remaining)
      else
        var locked := t.quants[c.id];
        if IsFrozen(t.freezes, c.id, locked) then Failure(Frozen)
        else if quantity > Available(locked) then Failure(InsufficientAfterLock(quantity, Available(locked)))
        else FillLine(Reserve(t, line, c.id, quantity), line, cands[1..], remaining - quantity)
  }

  function AllocateLine(t: Tables, line: Line, owned: Option<set<nat>>, strategy: Strategy): Result<Tables, AllocError>
  {
    var required := Required(t.reservations, line);
    if required == 0 then Success(t)
    else
      var cands := FindCandidates(t.quants, line, owned, strategy);
      CandidatesMatch(t.quants, line, owned, strategy);
      if TotalAvailable(cands) < required then Failure(InsufficientStock(required, TotalAvailable(cands)))
      else FillLine(t, line, cands, required)
  }

  function LineResultOf(before: seq<Reservation>, after: seq<Reservation>, line: Line): LineResult {
    var already := ActiveFor(before, line.id);
    var added := ActiveFor(after, line.id) - already;
    LineResult(line.id, already, added, Max(Required(before, line) - added, 0))
  }

  datatype Allocation = Allocation(tables: Tables, lines: seq<LineResult>)

  function AllocateLines(t: Tables, lines: seq<Line>, owned: Option<set<nat>>,
                         strategy: Strategy): Result<Allocation, AllocError>
    decreases |lines|
  {
    if lines == [] then Success(Allocation(t, []))
    else
      match AllocateLine(t, lines[0], owned, strategy)
      case Failure(e) => Failure(e)
      case Success(t1) =>
        match AllocateLines(t1, lines[1..], owned, strategy)
        case Failure(e) => Failure(e)
        case Success(rest) =>
          Success(Allocation(rest.tables, [LineResultOf(t.reservations, t1.reservations, lines[0])] + rest.lines))
  }

  /** The order transaction: what it commits, or why it rolls back. */
  function AllocateOrder(t: Tables, order: string, owned: Option<set<nat>>,
                         strategy: Strategy): Result<Allocation, AllocError>
  {
    if order !in t.orders then Failure(OrderNotFound)
    else if t.orders[order].status in CLOSED_STATUSES then Failure(NotAllocatable)
    else if t.orders[order].lines == [] then Failure(NoLines)
    else
      match AllocateLines(t, t.orders[order].lines, owned, strategy)
      case Failure(e) => Failure(e)
      case Success(a) =>
        Success(a.(tables := a.tables.(orders := t.orders[order := t.orders[order].(status := "ALLOCATED")])))
  }

  // ---------------------------------------------------------------- what a line takes

  /** The reservations the candidate loop makes when no check fails. */
  function Drain(cands: seq<Candidate>, line: Line, remaining: int): seq<Reservation> {
    if cands == [] || remaining <= 0 then []
    else
      var quantity := Min(Available(cands[0].row), remaining);
      (if quantity > 0 then [Reservation(line.id, cands[0].id, quantity, true)] else [])
      + Drain(cands[1..], line, remaining - quantity)
  }

  /** Committing reservation rows: append them and raise `reserved` on their quants. */
  function Applied(t: Tables, rows: seq<Reservation>): Tables {
    t.(quants := seq(|t.quants|, i requires 0 <= i < |t.quants| =>
         t.quants[i].(reserved := t.quants[i].reserved + SumOn(rows, i))),
       reservations := t.reservations + rows)
  }

  lemma {:induction false} AppliedConcat(t: Tables, a: seq<Reservation>, b: seq<Reservation>)
    ensures Applied(Applied(t, a), b) == Applied(t, a + b)
    ensures Applied(t, []) == t
  {
    forall i | 0 <= i < |t.quants| ensures SumOn(a + b, i) == SumOn(a, i) + SumOn(b, i) { SumOnConcat(a, b, i); }
    assert t.reservations + a + b == t.reservations + (a + b);
    assert Applied(Applied(t, a), b).quants == Applied(t, a + b).quants;
    assert Applied(t, []).quants == t.quants && t.reservations + [] == t.reservations;
  }

  lemma {:induction false} DrainRows(cands: seq<Candidate>, line: Line, remaining: int)
    ensures var rows := Drain(cands, line, remaining);
      && (forall r :: r in rows ==> r.line == line.id && r.active && 0 < r.quantity)
      && (forall r :: r in rows ==> exists i :: 0 <= i < |cands| && cands[i].id == r.quant)
  {
    if cands != [] && remaining > 0 {
      var left := remaining - Min(Available(cands[0].row), remaining);
      DrainRows(cands[1..], line, left);
      forall r | r in Drain(cands, line, remaining) ensures exists i :: 0 <= i < |cands| && cands[i].id == r.quant {
        if r in Drain(cands[1..], line, left) {
          var i :| 0 <= i < |cands[1..]| && cands[1..][i].id == r.quant;
          assert cands[i + 1].id == r.quant;
        } else {
          assert cands[0].id == r.quant;
        }
      }
    }
  }

  lemma {:induction false} DrainTotal(cands: seq<Candidate>, line: Line, remaining: nat)
    ensures ActiveFor(Drain(cands, line, remaining), line.id) == Min(remaining, TotalAvailable(cands))
  {
    if cands != [] && remaining > 0 {
      var quantity := Min(Available(cands[0].row), remaining);
      var first := if quantity > 0 then [Reservation(line.id, cands[0].id, quantity, true)] else [];
      DrainTotal(cands[1..], line, remaining - quantity);
      ActiveForConcat(first, Drain(cands[1..], line, remaining - quantity), line.id);
      assert quantity > 0 ==> first[..0] == [] && ActiveFor(first, line.id) == quantity;
    }
  }

  lemma {:induction false} DrainStep(cands: seq<Candidate>, line: Line, remaining: int, quant: nat)
    requires cands != [] && remaining > 0
    ensures var quantity := Min(Available(cands[0].row), remaining);
      SumOn(Drain(cands, line, remaining), quant)
        == (if cands[0].id == quant then quantity else 0) + SumOn(Drain(cands[1..], line, remaining - quantity), quant)
  {
    var quantity := Min(Available(cands[0].row), remaining);
    var rest := Drain(cands[1..], line, remaining - quantity);
    if quantity > 0 {
      var first := Reservation(line.id, cands[0].id, quantity, true);
      SumOnConcat([first], rest, quant);
      SumOnSingle(first, quant);
    } else {
      assert [] + rest == rest;
    }
  }

  lemma {:induction false} SumOnSingle(r: Reservation, quant: nat)
    ensures SumOn([r], quant) == if r.quant == quant then r.quantity else 0
  {
    assert [r][..0] == [];
  }

  /** How much the loop takes from candidate `i`: what is left after all earlier candidates
      have been emptied, capped by what the row had. */
  lemma {:induction false} DrainTakes(cands: seq<Candidate>, line: Line, remaining: nat, i: nat)
    requires i < |cands| && IdsDistinct(cands)
    ensures SumOn(Drain(cands, line, remaining), cands[i].id)
         == Max(0, Min(Available(cands[i].row), remaining - TotalAvailable(cands[..i])))
  {
    if remaining > 0 {
      var left := remaining - Min(Available(cands[0].row), remaining);
      DrainStep(cands, line, remaining, cands[i].id);
      if i == 0 {
        DrainRows(cands[1..], line, left);
        SumOnZero(Drain(cands[1..], line, left), cands[0].id);
      } else {
        assert cands[1..][i - 1] == cands[i] && cands[0].id != cands[i].id;
        DrainTakes(cands[1..], line, left, i - 1);
        assert cands[..i][1..] == cands[1..][..i - 1];
      }
    } else {
      assert Drain(cands, line, remaining) == [];
    }
  }

  lemma {:induction false} TotalAvailableSplit(cands: seq<Candidate>, i: nat, j: nat)
    requires i < j <= |cands|
    ensures TotalAvailable(cands[..j]) >= TotalAvailable(cands[..i]) + Available(cands[i].row)
  {
    if i == 0 {
      assert cands[..j][0] == cands[0];
    } else {
      assert cands[..i][1..] == cands[1..][..i - 1] && cands[..j][1..] == cands[1..][..j - 1];
      TotalAvailableSplit(cands[1..], i - 1, j - 1);
    }
  }

  /** Draining never exceeds a row, and touches a candidate only after every earlier one is emptied. */
  lemma {:induction false} DrainInOrder(cands: seq<Candidate>, quants: seq<Quant>, line: Line, remaining: nat, i: nat,
                                        j: nat)
    requires CandidatesOf(cands, quants) && i < j < |cands|
    ensures var rows := Drain(cands, line, remaining);
      && 0 <= SumOn(rows, cands[j].id) <= Available(cands[j].row)
      && (SumOn(rows, cands[j].id) > 0 ==> SumOn(rows, cands[i].id) == Available(cands[i].row))
  {
    DrainTakes(cands, line, remaining, i);
    DrainTakes(cands, line, remaining, j);
    TotalAvailableSplit(cands, i, j);
  }

  lemma {:induction false} DrainWithinStock(cands: seq<Candidate>, quants: seq<Quant>, line: Line, remaining: nat,
                                            quant: nat)
    requires CandidatesOf(cands, quants)
    ensures 0 <= SumOn(Drain(cands, line, remaining), quant)
    ensures quant < |quants| ==> SumOn(Drain(cands, line, remaining), quant) <= Available(quants[quant])
  {
    DrainRows(cands, line, remaining);
    if i: nat :| i < |cands| && cands[i].id == quant {
      DrainTakes(cands, line, remaining, i);
      assert cands[i] in cands;
    } else {
      SumOnZero(Drain(cands, line, remaining), quant);
    }
  }

  lemma {:induction false} SumOnZero(rows: seq<Reservation>, quant: nat)
    requires forall r :: r in rows ==> r.quant != quant
    ensures SumOn(rows, quant) == 0
  {
    if rows != [] {
      assert rows[|rows| - 1] in rows;
      SumOnZero(rows[..|rows| - 1], quant);
    }
  }

  lemma {:induction false} ActiveForZero(rows: seq<Reservation>, line: string)
    requires forall r :: r in rows ==> r.line != line
    ensures ActiveFor(rows, line) == 0
  {
    if rows != [] {
      assert rows[|rows| - 1] in rows;
      ActiveForZero(rows[..|rows| - 1], line);
    }
  }

  // ---------------------------------------------------------------- what an order takes

  /** Some row of the list names a quant that a freeze blocks. */
  predicate MeetsFreeze(t: Tables, rows: seq<Reservation>) {
    exists k :: 0 <= k < |rows| && rows[k].quant < |t.quants|
      && IsFrozen(t.freezes, rows[k].quant, t.quants[rows[k].quant])
  }

  lemma {:induction false} MeetsFreezeCons(t: Tables, r: Reservation, rest: seq<Reservation>)
    requires r.quant < |t.quants|
    ensures MeetsFreeze(t, [r] + rest) <==> IsFrozen(t.freezes, r.quant, t.quants[r.quant]) || MeetsFreeze(t, rest)
  {
    var rows := [r] + rest;
    if IsFrozen(t.freezes, r.quant, t.quants[r.quant]) { assert rows[0] == r; }
    if MeetsFreeze(t, rest) {
      var k :| 0 <= k < |rest| && rest[k].quant < |t.quants|
        && IsFrozen(t.freezes, rest[k].quant, t.quants[rest[k].quant]);
      assert rows[k + 1] == rest[k];
    }
  }

  lemma {:induction false} FreezeIgnoresReserved(t: Tables, rows: seq<Reservation>, more: seq<Reservation>)
    ensures MeetsFreeze(Applied(t, more), rows) <==> MeetsFreeze(t, rows)
  {
    assert forall i :: 0 <= i < |t.quants| ==>
      (IsFrozen(t.freezes, i, Applied(t, more).quants[i]) <==> IsFrozen(t.freezes, i, t.quants[i]));
  }

  lemma {:induction false} ReserveIsApplied(t: Tables, line: Line, quant: nat, quantity: int)
    requires quant < |t.quants|
    ensures Reserve(t, line, quant, quantity) == Applied(t, [Reservation(line.id, quant, quantity, true)])
  {
    var r := Reservation(line.id, quant, quantity, true);
    forall i: nat | i < |t.quants|
      ensures Reserve(t, line, quant, quantity).quants[i] == Applied(t, [r]).quants[i]
    {
      SumOnSingle(r, i);
    }
    assert Reserve(t, line, quant, quantity).quants == Applied(t, [r]).quants;
  }

  /** A candidate list stays fresh when its first row is reserved and dropped. */
  lemma {:induction false} TailStaysFresh(cands: seq<Candidate>, t: Tables, line: Line, quantity: int)
    requires cands != [] && CandidatesOf(cands, t.quants)
    ensures cands[0].id < |t.quants|
    ensures CandidatesOf(cands[1..], t.quants)
    ensures CandidatesOf(cands[1..], Reserve(t, line, cands[0].id, quantity).quants)
  {
    assert cands[0] in cands;
    forall d | d in cands[1..] ensures d in cands && d.id != cands[0].id {
      var k :| 0 <= k < |cands[1..]| && cands[1..][k] == d;
      assert cands[k + 1] == d;
    }
  }

  /** With fresh rows the re-check after the lock never fires; the loop either meets a
      frozen row or commits exactly what `Drain` takes. */
  lemma {:induction false} FirstThenRest(t: Tables, first: Reservation, rest: seq<Reservation>)
    requires first.quant < |t.quants|
    ensures Applied(Applied(t, [first]), rest) == Applied(t, [first] + rest)
    ensures MeetsFreeze(t, [first] + rest) <==>
      IsFrozen(t.freezes, first.quant, t.quants[first.quant]) || MeetsFreeze(Applied(t, [first]), rest)
  {
    AppliedConcat(t, [first], rest);
    MeetsFreezeCons(t, first, rest);
    FreezeIgnoresReserved(t, rest, [first]);
  }

  lemma {:induction false} FillLineDrains(t: Tables, line: Line, cands: seq<Candidate>, remaining: int)
    requires CandidatesOf(cands, t.quants)
    ensures FillLine(t, line, cands, remaining)
         == if MeetsFreeze(t, Drain(cands, line, remaining)) then Failure(Frozen)
            else Success(Applied(t, Drain(cands, line, remaining)))
    decreases |cands|
  {
    if cands == [] || remaining <= 0 {
      AppliedConcat(t, [], []);
    } else {
      var c := cands[0];
      assert c in cands;
      var quantity := Min(Available(c.row), remaining);
      var first := Reservation(line.id, c.id, quantity, true);
      TailStaysFresh(cands, t, line, quantity);
      ReserveIsApplied(t, line, c.id, quantity);
      FillLineDrains(Applied(t, [first]), line, cands[1..], remaining - quantity);
      FirstThenRest(t, first, Drain(cands[1..], line, remaining - quantity));
    }
  }

  function LineRows(t: Tables, line: Line, owned: Option<set<nat>>, strategy: Strategy): seq<Reservation> {
    Drain(FindCandidates(t.quants, line, owned, strategy), line, Required(t.reservations, line))
  }

  function OrderRows(t: Tables, lines: seq<Line>, owned: Option<set<nat>>, strategy: Strategy): seq<Reservation>
    decreases |lines|
  {
    if lines == [] then []
    else
      var rows := LineRows(t, lines[0], owned, strategy);
      rows + OrderRows(Applied(t, rows), lines[1..], owned, strategy)
  }

  ghost predicate StockOk(quants: seq<Quant>) {
    forall i :: 0 <= i < |quants| ==> 0 <= quants[i].reserved <= quants[i].quantity
  }

  /** Rows a quant can bear: nothing negative, nothing beyond what is available. */
  ghost predicate WithinStock(t: Tables, rows: seq<Reservation>) {
    forall q: nat :: 0 <= SumOn(rows, q) && (q < |t.quants| ==> SumOn(rows, q) <= Available(t.quants[q]))
  }

  /** One line: it fails exactly for want of stock or because a freeze blocks a chosen quant;
      otherwise it reserves precisely what was still required, within the stock there is. */
  lemma {:induction false} AllocateLineCorrect(t: Tables, line: Line, owned: Option<set<nat>>, strategy: Strategy)
    ensures var required := Required(t.reservations, line);
      var total := TotalAvailable(FindCandidates(t.quants, line, owned, strategy));
      var rows := LineRows(t, line, owned, strategy);
      && AllocateLine(t, line, owned, strategy)
           == (if total < required then Failure(InsufficientStock(required, total))
               else if MeetsFreeze(t, rows) then Failure(Frozen)
               else Success(Applied(t, rows)))
      && (total >= required ==> ActiveFor(rows, line.id) == required)
      && WithinStock(t, rows)
      && (forall r :: r in rows ==> r.line == line.id && r.active && r.quantity > 0)
  {
    var cands := FindCandidates(t.quants, line, owned, strategy);
    var required := Required(t.reservations, line);
    CandidatesMatch(t.quants, line, owned, strategy);
    DrainRows(cands, line, required);
    DrainTotal(cands, line, required);
    FillLineDrains(t, line, cands, required);
    AppliedConcat(t, [], []);
    forall q: nat ensures 0 <= SumOn(LineRows(t, line, owned, strategy), q)
      && (q < |t.quants| ==> SumOn(LineRows(t, line, owned, strategy), q) <= Available(t.quants[q]))
    {
      DrainWithinStock(cands, t.quants, line, required, q);
    }
  }

  lemma {:induction false} SumOnPositive(rows: seq<Reservation>, quant: nat)
    requires forall r :: r in rows ==> r.quantity > 0
    ensures SumOn(rows, quant) >= 0
    ensures SumOn(rows, quant) > 0 <==> exists k :: 0 <= k < |rows| && rows[k].quant == quant
  {
    if rows != [] {
      var front := rows[..|rows| - 1];
      SumOnPositive(front, quant);
      if k :| 0 <= k < |rows| && rows[k].quant == quant { assert k < |front| ==> front[k].quant == quant; }
      if k :| 0 <= k < |front| && front[k].quant == quant { assert rows[k].quant == quant; }
    }
  }

  /** Some freeze in force blocks this quant. */
  ghost predicate Blocked(t: Tables, quant: nat)
    requires quant < |t.quants|
  {
    exists f :: f in t.freezes && Blocks(f, quant, t.quants[quant].location, t.quants[quant].sku)
  }

  lemma {:induction false} FrozenIsBlocked(t: Tables, quant: nat)
    requires quant < |t.quants|
    ensures IsFrozen(t.freezes, quant, t.quants[quant]) <==> Blocked(t, quant)
  {
    if f :| f in t.freezes && Blocks(f, quant, t.quants[quant].location, t.quants[quant].sku) {
      var i :| 0 <= i < |t.freezes| && t.freezes[i] == f;
    }
  }

  /** A line for which there is stock enough is refused exactly when its drain comes to a quant that a freeze blocks, so
      what a line reserves is never blocked. */
  lemma {:induction false} FrozenExactlyWhen(t: Tables, line: Line, owned: Option<set<nat>>, strategy: Strategy)
    ensures var rows := LineRows(t, line, owned, strategy);
      AllocateLine(t, line, owned, strategy) == Failure(Frozen) <==>
        && TotalAvailable(FindCandidates(t.quants, line, owned, strategy)) >= Required(t.reservations, line)
        && exists q: nat :: q < |t.quants| && SumOn(rows, q) > 0 && Blocked(t, q)
  {
    var rows := LineRows(t, line, owned, strategy);
    AllocateLineCorrect(t, line, owned, strategy);
    forall q: nat | q < |t.quants| ensures IsFrozen(t.freezes, q, t.quants[q]) <==> Blocked(t, q) {
      FrozenIsBlocked(t, q);
    }
    forall q: nat ensures SumOn(rows, q) > 0 <==> exists k :: 0 <= k < |rows| && rows[k].quant == q {
      SumOnPositive(rows, q);
    }
  }

  /** Preference is respected: while a line uses a quant, no matching quant that the strategy takes first
      keeps stock, and at most one used quant is left with stock. */
  lemma {:induction false} PreferredStockFirst(t: Tables, line: Line, owned: Option<set<nat>>, strategy: Strategy,
                                               i: nat, j: nat)
    requires i < |t.quants| && j < |t.quants| && i != j
    requires Matches(t.quants[i], i, line, owned) && Matches(t.quants[j], j, line, owned)
    requires AllocateLine(t, line, owned, strategy).Success?
    ensures var after := AllocateLine(t, line, owned, strategy).value.quants;
      && |after| == |t.quants|
      && (after[j].reserved > t.quants[j].reserved && ComesFirst(t.quants[i], t.quants[j], strategy) ==>
            after[i].reserved >= after[i].quantity)
      && (after[i].reserved > t.quants[i].reserved && after[j].reserved > t.quants[j].reserved ==>
            after[i].reserved >= after[i].quantity || after[j].reserved >= after[j].quantity)
  {
    var cands := FindCandidates(t.quants, line, owned, strategy);
    var required := Required(t.reservations, line);
    CandidatesMatch(t.quants, line, owned, strategy);
    AllocateLineCorrect(t, line, owned, strategy);
    CompareTotalPreorder(strategy);
    assert Candidate(i, t.quants[i]) in cands && Candidate(j, t.quants[j]) in cands;
    var a :| 0 <= a < |cands| && cands[a] == Candidate(i, t.quants[i]);
    var b :| 0 <= b < |cands| && cands[b] == Candidate(j, t.quants[j]);
    if a < b {
      DrainInOrder(cands, t.quants, line, required, a, b);
    } else {
      DrainInOrder(cands, t.quants, line, required, b, a);
      assert Prefers(strategy)(cands[b], cands[a]);
    }
  }

  /** Rows that can have come from allocating these lines. */
  ghost predicate RowsFor(rows: seq<Reservation>, lines: seq<Line>) {
    forall r :: r in rows ==> r.active && r.quantity > 0 && exists k :: 0 <= k < |lines| && lines[k].id == r.line
  }

  ghost predicate LineIdsDistinct(lines: seq<Line>) {
    forall i, j :: 0 <= i < j < |lines| ==> lines[i].id != lines[j].id
  }

  lemma {:induction false} AllocateLinesApplied(t: Tables, lines: seq<Line>, owned: Option<set<nat>>,
                                                strategy: Strategy)
    requires AllocateLines(t, lines, owned, strategy).Success?
    ensures var rows := OrderRows(t, lines, owned, strategy);
      && AllocateLines(t, lines, owned, strategy).value.tables == Applied(t, rows)
      && WithinStock(t, rows)
      && RowsFor(rows, lines)
    decreases |lines|
  {
    if lines == [] {
      AppliedConcat(t, [], []);
    } else {
      var rows := LineRows(t, lines[0], owned, strategy);
      var rest := OrderRows(Applied(t, rows), lines[1..], owned, strategy);
      AllocateLineCorrect(t, lines[0], owned, strategy);
      AllocateLinesApplied(Applied(t, rows), lines[1..], owned, strategy);
      AppliedConcat(t, rows, rest);
      ConcatWithinStock(t, rows, rest);
      ConcatRowsFor(rows, rest, lines);
    }
  }

  lemma {:induction false} OtherRowsDoNotCount(rows: seq<Reservation>, lines: seq<Line>, id: string)
    requires RowsFor(rows, lines) && forall k :: 0 <= k < |lines| ==> lines[k].id != id
    ensures ActiveFor(rows, id) == 0
  {
    ActiveForZero(rows, id);
  }

  lemma {:induction false} AllocateLineSucceeds(t: Tables, line: Line, owned: Option<set<nat>>, strategy: Strategy)
    requires AllocateLine(t, line, owned, strategy).Success?
    ensures var rows := LineRows(t, line, owned, strategy);
      && AllocateLine(t, line, owned, strategy).value == Applied(t, rows)
      && ActiveFor(rows, line.id) == Required(t.reservations, line)
      && ActiveFor(Applied(t, rows).reservations, line.id)
           == ActiveFor(t.reservations, line.id) + Required(t.reservations, line)
      && (forall id :: id != line.id ==> ActiveFor(rows, id) == 0)
      && (forall id :: id != line.id ==> ActiveFor(Applied(t, rows).reservations, id) == ActiveFor(t.reservations, id))
  {
    var rows := LineRows(t, line, owned, strategy);
    AllocateLineCorrect(t, line, owned, strategy);
    ActiveForConcat(t.reservations, rows, line.id);
    forall id | id != line.id
      ensures ActiveFor(rows, id) == 0
      ensures ActiveFor(Applied(t, rows).reservations, id) == ActiveFor(t.reservations, id)
    {
      ActiveForZero(rows, id);
      ActiveForConcat(t.reservations, rows, id);
    }
  }

  /** Each line gains exactly what it still required. */
  lemma {:induction false} AllocateLinesFill(t: Tables, lines: seq<Line>, owned: Option<set<nat>>, strategy: Strategy,
                                             k: nat)
    requires LineIdsDistinct(lines) && k < |lines|
    requires AllocateLines(t, lines, owned, strategy).Success?
    ensures ActiveFor(OrderRows(t, lines, owned, strategy), lines[k].id) == Required(t.reservations, lines[k])
    decreases |lines|
  {
    var rows := LineRows(t, lines[0], owned, strategy);
    var t1 := Applied(t, rows);
    var rest := OrderRows(t1, lines[1..], owned, strategy);
    AllocateLineSucceeds(t, lines[0], owned, strategy);
    ActiveForConcat(rows, rest, lines[k].id);
    if k == 0 {
      AllocateLinesApplied(t1, lines[1..], owned, strategy);
      OtherRowsDoNotCount(rest, lines[1..], lines[0].id);
    } else {
      AllocateLinesFill(t1, lines[1..], owned, strategy, k - 1);
      assert lines[1..][k - 1] == lines[k] && lines[k].id != lines[0].id;
    }
  }

  lemma {:induction false} ReportsFirst(t: Tables, line: Line, t1: Tables)
    requires ActiveFor(t1.reservations, line.id) == ActiveFor(t.reservations, line.id) + Required(t.reservations, line)
    ensures LineResultOf(t.reservations, t1.reservations, line)
         == LineResult(line.id, ActiveFor(t.reservations, line.id), Required(t.reservations, line), 0)
  {
  }

  /** ... and reports it: nothing remains open on a line of a committed order. */
  lemma {:induction false} AllocateLinesReport(t: Tables, lines: seq<Line>, owned: Option<set<nat>>, strategy: Strategy,
                                               k: nat)
    requires LineIdsDistinct(lines)
    requires AllocateLines(t, lines, owned, strategy).Success?
    ensures var report := AllocateLines(t, lines, owned, strategy).value.lines;
      && |report| == |lines|
      && (k < |lines| ==> report[k] == LineResult(lines[k].id, ActiveFor(t.reservations, lines[k].id),
                                                  Required(t.reservations, lines[k]), 0))
    decreases |lines|
  {
    if lines != [] {
      AllocateLineSucceeds(t, lines[0], owned, strategy);
      var t1 := AllocateLine(t, lines[0], owned, strategy).value;
      AllocateLinesReport(t1, lines[1..], owned, strategy, if k == 0 then 0 else k - 1);
      if 0 < k < |lines| {
        assert lines[1..][k - 1] == lines[k] && lines[k].id != lines[0].id;
        assert Required(t1.reservations, lines[k]) == Required(t.reservations, lines[k]);
      } else if k == 0 {
        ReportsFirst(t, lines[0], t1);
      }
    }
  }

  lemma {:induction false} ConcatWithinStock(t: Tables, a: seq<Reservation>, b: seq<Reservation>)
    requires WithinStock(t, a) && WithinStock(Applied(t, a), b)
    ensures WithinStock(t, a + b)
  {
    forall q: nat ensures 0 <= SumOn(a + b, q) && (q < |t.quants| ==> SumOn(a + b, q) <= Available(t.quants[q])) {
      SumOnConcat(a, b, q);
      assert 0 <= SumOn(a, q) && 0 <= SumOn(b, q);
      if q < |t.quants| { assert SumOn(b, q) <= Available(Applied(t, a).quants[q]); }
    }
  }

  lemma {:induction false} ConcatRowsFor(a: seq<Reservation>, b: seq<Reservation>, lines: seq<Line>)
    requires lines != [] && (forall r :: r in a ==> r.line == lines[0].id && r.active && r.quantity > 0)
    requires RowsFor(b, lines[1..])
    ensures RowsFor(a + b, lines)
  {
    forall r | r in a + b ensures r.active && r.quantity > 0 && exists k :: 0 <= k < |lines| && lines[k].id == r.line {
      if r in a { assert lines[0].id == r.line; }
      else {
        var k :| 0 <= k < |lines[1..]| && lines[1..][k].id == r.line;
        assert lines[k + 1].id == r.line;
      }
    }
  }

  /** A committed order leaves each of its lines at its target and every other line as it was. */
  lemma {:induction false} AllocateOrderFills(t: Tables, order: string, owned: Option<set<nat>>, strategy: Strategy)
    requires order in t.orders && LineIdsDistinct(t.orders[order].lines)
    requires AllocateOrder(t, order, owned, strategy).Success?
    ensures var a := AllocateOrder(t, order, owned, strategy).value;
      var lines := t.orders[order].lines;
      && (forall k :: 0 <= k < |lines| ==>
            lines[k].picked + ActiveFor(a.tables.reservations, lines[k].id) == Target(t.reservations, lines[k]))
      && (forall id :: (forall k :: 0 <= k < |lines| ==> lines[k].id != id) ==>
            ActiveFor(a.tables.reservations, id) == ActiveFor(t.reservations, id))
      && (forall k :: 0 <= k < |a.lines| ==> a.lines[k].remainingQuantity == 0)
  {
    var lines := t.orders[order].lines;
    var rows := OrderRows(t, lines, owned, strategy);
    AllocateLinesApplied(t, lines, owned, strategy);
    var a := AllocateOrder(t, order, owned, strategy).value;
    forall k | 0 <= k < |lines|
      ensures lines[k].picked + ActiveFor(a.tables.reservations, lines[k].id) == Target(t.reservations, lines[k])
    {
      AllocateLinesFill(t, lines, owned, strategy, k);
      ActiveForConcat(t.reservations, rows, lines[k].id);
    }
    forall k | 0 <= k < |a.lines| ensures a.lines[k].remainingQuantity == 0 {
      AllocateLinesReport(t, lines, owned, strategy, k);
    }
    forall id | forall k :: 0 <= k < |lines| ==> lines[k].id != id
      ensures ActiveFor(a.tables.reservations, id) == ActiveFor(t.reservations, id)
    {
      ActiveForConcat(t.reservations, rows, id);
      OtherRowsDoNotCount(rows, lines, id);
    }
  }

  /** A committed order keeps every quant within bounds, and what `reserved` gained on a quant
      is exactly what the appended reservations hold on it. */
  lemma {:induction false} AllocateOrderConserves(t: Tables, order: string, owned: Option<set<nat>>, strategy: Strategy)
    requires AllocateOrder(t, order, owned, strategy).Success?
    ensures var t1 := AllocateOrder(t, order, owned, strategy).value.tables;
      && (StockOk(t.quants) ==> StockOk(t1.quants))
      && t.reservations <= t1.reservations
      && |t1.quants| == |t.quants|
      && (forall q :: 0 <= q < |t.quants| ==>
            && t1.quants[q].quantity == t.quants[q].quantity
            && t1.quants[q].reserved == t.quants[q].reserved + SumOn(t1.reservations[|t.reservations|..], q))
  {
    var rows := OrderRows(t, t.orders[order].lines, owned, strategy);
    AllocateLinesApplied(t, t.orders[order].lines, owned, strategy);
    assert (t.reservations + rows)[|t.reservations|..] == rows;
  }

  lemma {:induction false} NothingRequired(t: Tables, lines: seq<Line>, owned: Option<set<nat>>, strategy: Strategy)
    requires forall k :: 0 <= k < |lines| ==> Required(t.reservations, lines[k]) == 0
    ensures AllocateLines(t, lines, owned, strategy).Success?
    ensures AllocateLines(t, lines, owned, strategy).value.tables == t
    decreases |lines|
  {
    if lines != [] { NothingRequired(t, lines[1..], owned, strategy); }
  }

  /** Allocating the same order again, with any owner and any strategy, succeeds and reserves nothing. */
  lemma {:induction false} SecondAllocationReservesNothing(t: Tables, order: string, owned: Option<set<nat>>,
                                                           strategy: Strategy,
                                        owned2: Option<set<nat>>, strategy2: Strategy)
    requires order in t.orders && LineIdsDistinct(t.orders[order].lines)
    requires AllocateOrder(t, order, owned, strategy).Success?
    ensures var t1 := AllocateOrder(t, order, owned, strategy).value.tables;
      && AllocateOrder(t1, order, owned2, strategy2).Success?
      && AllocateOrder(t1, order, owned2, strategy2).value.tables == t1
  {
    var lines := t.orders[order].lines;
    var t1 := AllocateOrder(t, order, owned, strategy).value.tables;
    forall k | 0 <= k < |lines| ensures Required(t1.reservations, lines[k]) == 0 {
      AllocateOrderFills(t, order, owned, strategy);
      assert lines[k].picked + ActiveFor(t1.reservations, lines[k].id) == Target(t.reservations, lines[k]);
    }
    NothingRequired(t1, lines, owned2, strategy2);
    assert t1.orders[order := t1.orders[order].(status := "ALLOCATED")] == t1.orders;
  }

  /** `ts` are the tables before each line in turn, and after the last one that was allocated. */
  ghost predicate InTurn(ts: seq<Tables>, t: Tables, lines: seq<Line>, owned: Option<set<nat>>, strategy: Strategy) {
    && 0 < |ts| <= |lines| + 1 && ts[0] == t
    && forall k :: 0 <= k < |ts| - 1 ==> AllocateLine(ts[k], lines[k], owned, strategy) == Success(ts[k + 1])
  }

  lemma {:induction false} LinesInTurn(t: Tables, lines: seq<Line>, owned: Option<set<nat>>, strategy: Strategy)
    returns (ts: seq<Tables>)
    ensures InTurn(ts, t, lines, owned, strategy)
    ensures match AllocateLines(t, lines, owned, strategy)
      case Success(a) => |ts| == |lines| + 1 && a.tables == ts[|lines|]
      case Failure(e) => |ts| <= |lines| && AllocateLine(ts[|ts| - 1], lines[|ts| - 1], owned, strategy) == Failure(e)
    decreases |lines|
  {
    ts := [t];
    if lines != [] && AllocateLine(t, lines[0], owned, strategy).Success? {
      var rest := LinesInTurn(AllocateLine(t, lines[0], owned, strategy).value, lines[1..], owned, strategy);
      ts := [t] + rest;
      forall k | 0 <= k < |ts| - 1 ensures AllocateLine(ts[k], lines[k], owned, strategy) == Success(ts[k + 1]) {
        if k > 0 { assert lines[1..][k - 1] == lines[k] && ts[k] == rest[k - 1] && ts[k + 1] == rest[k]; }
      }
    }
  }

  /** An order is refused when it is unknown, closed, or has no lines; otherwise its lines are allocated in turn, under
      the asked owner and strategy, until one fails, and an order that none fails is ALLOCATED. */
  lemma {:induction false} AllocateOrderOutcome(t: Tables, order: string, owned: Option<set<nat>>, strategy: Strategy)
    returns (ts: seq<Tables>)
    ensures var r := AllocateOrder(t, order, owned, strategy);
      if order !in t.orders then r == Failure(OrderNotFound)
      else if t.orders[order].status in {"CANCELLED", "SHIPPED", "CLOSED", "COMPLETED"}
      then r == Failure(NotAllocatable)
      else if t.orders[order].lines == [] then r == Failure(NoLines)
      else
        var lines := t.orders[order].lines;
        && InTurn(ts, t, lines, owned, strategy)
        && match r
           case Success(a) =>
             && |ts| == |lines| + 1
             && a.tables == ts[|lines|].(orders := t.orders[order := Order("ALLOCATED", lines)])
           case Failure(e) =>
             |ts| <= |lines| && AllocateLine(ts[|ts| - 1], lines[|ts| - 1], owned, strategy) == Failure(e)
  {
    ts := [t];
    if order in t.orders && t.orders[order].lines != [] {
      ts := LinesInTurn(t, t.orders[order].lines, owned, strategy);
    }
  }
}
