/** Concurrent allocations and count approvals, one database statement at a time. */
module AllocationRuns {
  // A transaction reads committed rows plus its own writes, waits for row locks, and holds
  // them until it commits or rolls back. `Next` is deterministic: all scheduling and all
  // database aborts are in the action.

  import opened Common
  import opened Sorting
  import opened StockFreezes
  import opened StockAllocation

  const MAX_ATTEMPTS := 3

  datatype Pc =
    | WaitOrder
    | ReadOrder
    | AtLine(k: nat)
    | Search(k: nat, required: nat)
    | Draining(k: nat, cands: seq<Candidate>, next: nat, remaining: int, base: nat)
    | Locked(k: nat, cands: seq<Candidate>, next: nat, remaining: int, base: nat)
    | Committed
    | RolledBack(retryable: bool)

  datatype CountPc = WaitQuant | Recheck | Written | CountDone

  datatype Tx =
    | Alloc(order: string, owned: Option<set<nat>>, strategy: Strategy, attempt: nat,
            lines: seq<Line>, staged: seq<Reservation>, pc: Pc)
    | Count(quant: nat, counted: nat, countPc: CountPc)

  /** `db` holds committed rows only; uncommitted reservations are in the transaction's `staged`. */
  datatype World = World(db: Tables, txs: map<nat, Tx>, orderLock: map<string, nat>, quantLock: map<nat, nat>)

  datatype Action =
    | BeginAllocation(t: nat, order: string, owned: Option<set<nat>>, strategy: Strategy)
    | BeginApproval(t: nat, quant: nat, counted: nat)
    | Proceed(t: nat)
    | Abort(t: nat)
    | Retry(t: nat)

  // ---------------------------------------------------------------- steps

  function Update(w: World, t: nat, x: Tx): World { w.(txs := w.txs[t := x]) }

  function Unlock(w: World, t: nat): World {
    w.(orderLock := map o | o in w.orderLock && w.orderLock[o] != t :: w.orderLock[o],
       quantLock := map q | q in w.quantLock && w.quantLock[q] != t :: w.quantLock[q])
  }

  predicate FreeOrder(w: World, order: string, t: nat) { order !in w.orderLock || w.orderLock[order] == t }

  predicate FreeQuant(w: World, quant: nat, t: nat) { quant !in w.quantLock || w.quantLock[quant] == t }

  function RollBack(w: World, t: nat, x: Tx, retryable: bool): World
    requires x.Alloc?
  {
    Update(Unlock(w, t), t, x.(lines := [], staged := [], pc := RolledBack(retryable)))
  }

  function CommitOrder(w: World, t: nat, x: Tx): World
    requires x.Alloc? && x.order in w.db.orders
  {
    var db := Applied(w.db, x.staged);
    Update(Unlock(w, t), t, x.(lines := [], staged := [], pc := Committed))
      .(db := db.(orders := db.orders[x.order := db.orders[x.order].(status := "ALLOCATED")]))
  }

  /** The next statement of allocation `t`; `None` while it waits for a lock or has ended. */
  function ProceedAlloc(w: World, t: nat, x: Tx): Option<World>
    requires x.Alloc?
  {
    match x.pc
    case WaitOrder =>
      if x.order !in w.db.orders then Some(RollBack(w, t, x, false))
      else if !FreeOrder(w, x.order, t) then None
      else Some(Update(w, t, x.(pc := ReadOrder)).(orderLock := w.orderLock[x.order := t]))
    case ReadOrder =>
      if x.order !in w.db.orders then Some(RollBack(w, t, x, false))
      else
        var order := w.db.orders[x.order];
        if order.status in CLOSED_STATUSES || order.lines == [] then Some(RollBack(w, t, x, false))
        else Some(Update(w, t, x.(lines := order.lines, pc := AtLine(0))))
    case AtLine(k) =>
      if k < |x.lines| then
        var required := Required(w.db.reservations + x.staged, x.lines[k]);
        Some(Update(w, t, x.(pc := if required > 0 then Search(k, required) else AtLine(k + 1))))
      else if x.order !in w.db.orders then Some(RollBack(w, t, x, false))
      else Some(CommitOrder(w, t, x))
    case Search(k, required) =>
      if k >= |x.lines| then None
      else
        var cands := FindCandidates(Applied(w.db, x.staged).quants, x.lines[k], x.owned, x.strategy);
        if TotalAvailable(cands) < required then Some(RollBack(w, t, x, false))
        else Some(Update(w, t, x.(pc := Draining(k, cands, 0, required, |x.staged|))))
    case Draining(k, cands, next, remaining, base) =>
      if remaining <= 0 || next >= |cands| then Some(Update(w, t, x.(pc := AtLine(k + 1))))
      else if Min(Available(cands[next].row), remaining) <= 0
      then Some(Update(w, t, x.(pc := Draining(k, cands, next + 1, remaining, base))))
      else if !FreeQuant(w, cands[next].id, t) then None
      else Some(Update(w, t, x.(pc := Locked(k, cands, next, remaining, base)))
                  .(quantLock := w.quantLock[cands[next].id := t]))
    case Locked(k, cands, next, remaining, base) =>
      if k >= |x.lines| || next >= |cands| then None
      else
        var id := cands[next].id;
        var quantity := Min(Available(cands[next].row), remaining);
        if id >= |w.db.quants| then Some(RollBack(w, t, x, false))
        else
          var row := Applied(w.db, x.staged).quants[id];
          if IsFrozen(w.db.freezes, id, row) || quantity > Available(row) then Some(RollBack(w, t, x, false))
          else Some(Update(w, t, x.(staged := x.staged + [Reservation(x.lines[k].id, id, quantity, true)],
                                    pc := Draining(k, cands, next + 1, remaining - quantity, base))))
    case Committed => None
    case RolledBack(_) => None
  }

  /** The next statement of a count approval with a variance: lock, re-read, write, commit. */
  function ProceedCount(w: World, t: nat, x: Tx): Option<World>
    requires x.Count?
  {
    match x.countPc
    case WaitQuant =>
      if !FreeQuant(w, x.quant, t) then None
      else Some(Update(w, t, x.(countPc := Recheck)).(quantLock := w.quantLock[x.quant := t]))
    case Recheck =>
      if x.quant >= |w.db.quants| || w.db.quants[x.quant].reserved > x.counted
      then Some(Update(Unlock(w, t), t, x.(countPc := CountDone)))
      else Some(Update(w, t, x.(countPc := Written)))
    case Written =>
      if x.quant >= |w.db.quants| then None
      else Some(Update(Unlock(w, t), t, x.(countPc := CountDone))
                  .(db := w.db.(quants := w.db.quants[x.quant := w.db.quants[x.quant].(quantity := x.counted)])))
    case CountDone => None
  }

  function Next(w: World, a: Action): Option<World> {
    match a
    case BeginAllocation(t, order, owned, strategy) =>
      if t in w.txs then None else Some(Update(w, t, Alloc(order, owned, strategy, 1, [], [], WaitOrder)))
    case BeginApproval(t, quant, counted) =>
      if t in w.txs then None else Some(Update(w, t, Count(quant, counted, WaitQuant)))
    case Proceed(t) =>
      if t !in w.txs then None
      else if w.txs[t].Alloc? then ProceedAlloc(w, t, w.txs[t]) else ProceedCount(w, t, w.txs[t])
    case Abort(t) =>
      if t !in w.txs then None
      else if w.txs[t].Count? then Some(Update(Unlock(w, t), t, w.txs[t].(countPc := CountDone)))
      else if w.txs[t].pc.Committed? || w.txs[t].pc.RolledBack? then None
      else Some(RollBack(w, t, w.txs[t], true))
    case Retry(t) =>
      if t in w.txs && w.txs[t].Alloc? && w.txs[t].pc == RolledBack(true) && w.txs[t].attempt < MAX_ATTEMPTS
      then Some(Update(w, t, w.txs[t].(attempt := w.txs[t].attempt + 1, pc := WaitOrder)))
      else None
  }

  function Start(db: Tables): World { World(db, map[], map[], map[]) }

  /** The world a schedule leads to; an action that is not enabled leaves it as it is. */
  function Run(w: World, schedule: seq<Action>): World
    decreases |schedule|
  {
    if schedule == [] then w
    else Run(match Next(w, schedule[0]) { case Some(w1) => w1 case None => w }, schedule[1..])
  }

  // ---------------------------------------------------------------- invariant

  ghost predicate LinesApart(lines: seq<Line>, others: seq<Line>) {
    forall i, j :: 0 <= i < |lines| && 0 <= j < |others| ==> lines[i].id != others[j].id
  }

  /** A line id belongs to one line of one order. */
  ghost predicate OrdersOk(orders: map<string, Order>) {
    && (forall o :: o in orders ==> LineIdsDistinct(orders[o].lines))
    && (forall o1, o2 :: o1 in orders && o2 in orders && o1 != o2 ==> LinesApart(orders[o1].lines, orders[o2].lines))
  }

  ghost predicate HoldsOrder(w: World, t: nat, order: string) { order in w.orderLock && w.orderLock[order] == t }

  ghost predicate HoldsQuant(w: World, t: nat, quant: nat) { quant in w.quantLock && w.quantLock[quant] == t }

  predicate Started(pc: Pc) { !pc.WaitOrder? && !pc.Committed? && !pc.RolledBack? && !pc.ReadOrder? }

  /** Staged rows: for this order's lines, on quants whose row lock is held, within stock. */
  ghost predicate StagedOk(w: World, t: nat, staged: seq<Reservation>, lines: seq<Line>) {
    && RowsFor(staged, lines)
    && (forall r :: r in staged ==> HoldsQuant(w, t, r.quant))
    && WithinStock(w.db, staged)
  }

  function CurrentLine(pc: Pc): nat
    requires Started(pc)
  {
    match pc
    case AtLine(k) => k
    case Search(k, _) => k
    case Draining(k, _, _, _, _) => k
    case Locked(k, _, _, _, _) => k
  }

  /** Lines before line `k` hold what they required; lines after it are untouched. */
  ghost predicate LinesOk(rs: seq<Reservation>, staged: seq<Reservation>, lines: seq<Line>, k: nat) {
    && k <= |lines|
    && (forall i :: 0 <= i < k ==> ActiveFor(staged, lines[i].id) == Required(rs, lines[i]))
    && (forall i :: k < i < |lines| ==> ActiveFor(staged, lines[i].id) == 0)
  }

  /** The candidate loop: what is staged for the line plus what the rest of the loop would
      take is exactly what the snapshot prescribes. */
  ghost predicate LoopOk(rs: seq<Reservation>, staged: seq<Reservation>, line: Line, strategy: Strategy,
                         cands: seq<Candidate>, next: nat, remaining: int, base: nat)
  {
    && IdsDistinct(cands) && SortedBy(Prefers(strategy), cands) && next <= |cands| && base <= |staged|
    && 0 <= remaining <= TotalAvailable(cands[next..])
    && ActiveFor(staged, line.id) + remaining == Required(rs, line)
    && staged[base..] + Drain(cands[next..], line, remaining) == Drain(cands, line, Required(rs, line))
  }

  ghost predicate CurrentOk(w: World, t: nat, staged: seq<Reservation>, lines: seq<Line>, strategy: Strategy, pc: Pc) {
    match pc
    case AtLine(k) => k < |lines| ==> ActiveFor(staged, lines[k].id) == 0
    case Search(k, required) =>
      && k < |lines| && required == Required(w.db.reservations, lines[k])
      && ActiveFor(staged, lines[k].id) == 0
    case Draining(k, cands, next, remaining, base) =>
      k < |lines| && LoopOk(w.db.reservations, staged, lines[k], strategy, cands, next, remaining, base)
    case Locked(k, cands, next, remaining, base) =>
      && k < |lines| && LoopOk(w.db.reservations, staged, lines[k], strategy, cands, next, remaining, base)
      && next < |cands| && Min(Available(cands[next].row), remaining) > 0
      && HoldsQuant(w, t, cands[next].id)
    case _ => true
  }

  ghost predicate TxOk(w: World, t: nat, x: Tx) {
    match x
    case Count(quant, counted, pc) =>
      && (pc.Recheck? || pc.Written? ==> HoldsQuant(w, t, quant))
      && (pc.Written? ==> quant < |w.db.quants| && w.db.quants[quant].reserved <= counted)
    case Alloc(order, _, strategy, _, lines, staged, pc) =>
      if Started(pc) then
        && HoldsOrder(w, t, order) && order in w.db.orders && lines == w.db.orders[order].lines
        && StagedOk(w, t, staged, lines)
        && LinesOk(w.db.reservations, staged, lines, CurrentLine(pc))
        && CurrentOk(w, t, staged, lines, strategy, pc)
      else staged == [] && (pc.ReadOrder? ==> HoldsOrder(w, t, order) && order in w.db.orders)
  }

  /** Against the database the run began with: same rows, same order lines, reservations only
      appended, and `reserved` on each quant up by exactly what was appended on it. */
  ghost predicate Ledger(db0: Tables, db: Tables) {
    && |db.quants| == |db0.quants|
    && db0.reservations <= db.reservations
    && db.freezes == db0.freezes
    && db.orders.Keys == db0.orders.Keys
    && (forall o :: o in db0.orders ==> db.orders[o].lines == db0.orders[o].lines)
    && (forall q :: 0 <= q < |db.quants| ==>
          db.quants[q].reserved == db0.quants[q].reserved + SumOn(db.reservations[|db0.reservations|..], q))
  }

  ghost predicate Inv(db0: Tables, w: World) {
    && StockOk(w.db.quants) && OrdersOk(w.db.orders) && Ledger(db0, w.db)
    && (forall t :: t in w.txs ==> TxOk(w, t, w.txs[t]))
  }

  // ---------------------------------------------------------------- preservation

  ghost predicate KeepsLocks(w: World, w': World, t: nat) {
    && (forall o :: HoldsOrder(w, t, o) ==> HoldsOrder(w', t, o))
    && (forall q :: HoldsQuant(w, t, q) ==> HoldsQuant(w', t, q))
  }

  /** A transaction does not notice a step that leaves the rows and its own locks alone. */
  lemma {:induction false} SameRowsKeepTx(w: World, w': World, t: nat, x: Tx)
    requires TxOk(w, t, x) && w'.db == w.db && KeepsLocks(w, w', t)
    ensures TxOk(w', t, x)
  {
  }

  /** Own step: take the order lock, then read the order. */
  lemma {:induction false} ProceedToLines(w: World, t: nat, x: Tx)
    requires TxOk(w, t, x) && x.Alloc? && (x.pc.WaitOrder? || x.pc.ReadOrder?)
    ensures match ProceedAlloc(w, t, x)
      case None => true
      case Some(w') => t in w'.txs && TxOk(w', t, w'.txs[t])
  {
    if x.pc.ReadOrder? {
      var x' := x.(lines := w.db.orders[x.order].lines, pc := AtLine(0));
      assert forall q: nat :: SumOn([], q) == 0;
      assert forall id :: ActiveFor([], id) == 0;
      assert StagedOk(w, t, x'.staged, x'.lines);
    }
  }

  /** Own step: count the line's active reservations, own rows included. */
  lemma {:induction false} ProceedFromLine(w: World, t: nat, x: Tx, k: nat)
    requires TxOk(w, t, x) && x.Alloc? && x.pc == AtLine(k) && k < |x.lines|
    ensures match ProceedAlloc(w, t, x)
      case None => false
      case Some(w') => t in w'.txs && TxOk(w', t, w'.txs[t])
  {
    ActiveForConcat(w.db.reservations, x.staged, x.lines[k].id);
    assert ActiveFor(x.staged, x.lines[k].id) == 0;
  }

  /** Own step: read the candidates. */
  lemma {:induction false} ProceedFromSearch(w: World, t: nat, x: Tx, k: nat, required: nat)
    requires TxOk(w, t, x) && x.Alloc? && x.pc == Search(k, required)
    ensures match ProceedAlloc(w, t, x)
      case None => false
      case Some(w') => t in w'.txs && TxOk(w', t, w'.txs[t])
  {
    var quants := Applied(w.db, x.staged).quants;
    var cands := FindCandidates(quants, x.lines[k], x.owned, x.strategy);
    CandidatesMatch(quants, x.lines[k], x.owned, x.strategy);
    assert cands[0..] == cands && x.staged[|x.staged|..] == [];
    assert [] + Drain(cands, x.lines[k], required) == Drain(cands, x.lines[k], required);
  }

  /** The candidate loop's invariant: at the end nothing remains, an empty candidate is passed
      over, and taking one candidate moves its amount from the rest to the staged rows. */
  lemma {:induction false} LoopEnds(rs: seq<Reservation>, staged: seq<Reservation>, line: Line, strategy: Strategy,
                 cands: seq<Candidate>, next: nat, remaining: int, base: nat)
    requires LoopOk(rs, staged, line, strategy, cands, next, remaining, base)
    requires remaining <= 0 || next >= |cands|
    ensures remaining == 0 && ActiveFor(staged, line.id) == Required(rs, line)
    ensures staged[base..] == Drain(cands, line, Required(rs, line))
  {
    if next >= |cands| { assert cands[next..] == []; }
    assert staged[base..] + [] == staged[base..];
  }

  lemma {:induction false} LoopSkips(rs: seq<Reservation>, staged: seq<Reservation>, line: Line, strategy: Strategy,
                  cands: seq<Candidate>, next: nat, remaining: int, base: nat)
    requires LoopOk(rs, staged, line, strategy, cands, next, remaining, base)
    requires remaining > 0 && next < |cands| && Min(Available(cands[next].row), remaining) <= 0
    ensures LoopOk(rs, staged, line, strategy, cands, next + 1, remaining, base)
  {
    assert cands[next..][0] == cands[next] && cands[next..][1..] == cands[next + 1..];
    assert [] + Drain(cands[next + 1..], line, remaining) == Drain(cands[next + 1..], line, remaining);
  }

  lemma {:induction false} LoopTakes(rs: seq<Reservation>, staged: seq<Reservation>, line: Line, strategy: Strategy,
                  cands: seq<Candidate>, next: nat, remaining: int, base: nat, row: Reservation)
    requires LoopOk(rs, staged, line, strategy, cands, next, remaining, base)
    requires next < |cands| && Min(Available(cands[next].row), remaining) > 0
    requires row == Reservation(line.id, cands[next].id, Min(Available(cands[next].row), remaining), true)
    ensures LoopOk(rs, staged + [row], line, strategy, cands, next + 1, remaining - row.quantity, base)
  {
    var rest := Drain(cands[next + 1..], line, remaining - row.quantity);
    assert cands[next..][0] == cands[next] && cands[next..][1..] == cands[next + 1..];
    assert Drain(cands[next..], line, remaining) == [row] + rest;
    assert (staged + [row])[base..] == staged[base..] + [row];
    assert staged[base..] + ([row] + rest) == staged[base..] + [row] + rest;
    assert (staged + [row])[..|staged|] == staged;
  }

  /** Own step: the line is done, ... */
  lemma {:induction false} ProceedPastLine(w: World, t: nat, x: Tx, k: nat, cands: seq<Candidate>, next: nat,
                                           remaining: int, base: nat)
    requires TxOk(w, t, x) && x.Alloc? && x.pc == Draining(k, cands, next, remaining, base)
    requires remaining <= 0 || next >= |cands|
    ensures TxOk(w, t, x.(pc := AtLine(k + 1)))
  {
    LoopEnds(w.db.reservations, x.staged, x.lines[k], x.strategy, cands, next, remaining, base);
  }

  /** ... a candidate without stock is passed over, ... */
  lemma {:induction false} ProceedPastCandidate(w: World, t: nat, x: Tx, k: nat, cands: seq<Candidate>, next: nat,
                                                remaining: int, base: nat)
    requires TxOk(w, t, x) && x.Alloc? && x.pc == Draining(k, cands, next, remaining, base)
    requires remaining > 0 && next < |cands| && Min(Available(cands[next].row), remaining) <= 0
    ensures TxOk(w, t, x.(pc := Draining(k, cands, next + 1, remaining, base)))
  {
    LoopSkips(w.db.reservations, x.staged, x.lines[k], x.strategy, cands, next, remaining, base);
  }

  /** ... or the row lock of one with stock is taken. */
  lemma {:induction false} LockCandidate(w: World, t: nat, x: Tx, k: nat, cands: seq<Candidate>, next: nat,
                                         remaining: int, base: nat)
    requires TxOk(w, t, x) && x.Alloc? && x.pc == Draining(k, cands, next, remaining, base)
    requires next < |cands| && Min(Available(cands[next].row), remaining) > 0
    ensures var w' := w.(quantLock := w.quantLock[cands[next].id := t]);
      FreeQuant(w, cands[next].id, t) ==> TxOk(w', t, x.(pc := Locked(k, cands, next, remaining, base)))
  {
  }

  lemma {:induction false} UpdateKeepsTx(w: World, t: nat, x: Tx)
    requires TxOk(w, t, x)
    ensures TxOk(Update(w, t, x), t, x)
  {
  }

  lemma {:induction false} ProceedFromCandidate(w: World, t: nat, x: Tx, k: nat, cands: seq<Candidate>, next: nat,
                                                remaining: int, base: nat)
    requires TxOk(w, t, x) && x.Alloc? && x.pc == Draining(k, cands, next, remaining, base)
    ensures match ProceedAlloc(w, t, x)
      case None => true
      case Some(w') => t in w'.txs && TxOk(w', t, w'.txs[t])
  {
    if remaining <= 0 || next >= |cands| {
      ProceedPastLine(w, t, x, k, cands, next, remaining, base);
      UpdateKeepsTx(w, t, x.(pc := AtLine(k + 1)));
    } else if Min(Available(cands[next].row), remaining) <= 0 {
      ProceedPastCandidate(w, t, x, k, cands, next, remaining, base);
      UpdateKeepsTx(w, t, x.(pc := Draining(k, cands, next + 1, remaining, base)));
    } else if FreeQuant(w, cands[next].id, t) {
      LockCandidate(w, t, x, k, cands, next, remaining, base);
      UpdateKeepsTx(w.(quantLock := w.quantLock[cands[next].id := t]), t,
                    x.(pc := Locked(k, cands, next, remaining, base)));
    }
  }

  function TakenRow(x: Tx): Reservation
    requires x.Alloc? && x.pc.Locked? && x.pc.k < |x.lines| && x.pc.next < |x.pc.cands|
  {
    Reservation(x.lines[x.pc.k].id, x.pc.cands[x.pc.next].id,
                Min(Available(x.pc.cands[x.pc.next].row), x.pc.remaining), true)
  }

  function AfterTaking(x: Tx): Tx
    requires x.Alloc? && x.pc.Locked? && x.pc.k < |x.lines| && x.pc.next < |x.pc.cands|
  {
    x.(staged := x.staged + [TakenRow(x)],
       pc := Draining(x.pc.k, x.pc.cands, x.pc.next + 1, x.pc.remaining - TakenRow(x).quantity, x.pc.base))
  }

  lemma {:induction false} LockedStep(w: World, t: nat, x: Tx)
    requires x.Alloc? && x.pc.Locked? && x.pc.k < |x.lines| && x.pc.next < |x.pc.cands|
    ensures match ProceedAlloc(w, t, x)
      case None => false
      case Some(w') =>
        && t in w'.txs && w'.db == w.db
        && (|| w'.txs[t] == x.(lines := [], staged := [], pc := RolledBack(false))
            || (&& TakenRow(x).quant < |w.db.quants|
                && TakenRow(x).quantity <= Available(Applied(w.db, x.staged).quants[TakenRow(x).quant])
                && w'.orderLock == w.orderLock && w'.quantLock == w.quantLock
                && w'.txs[t] == AfterTaking(x)))
  {
  }

  lemma {:induction false} TakenRowKeepsShape(w: World, t: nat, x: Tx)
    requires TxOk(w, t, x) && x.Alloc? && x.pc.Locked? && OrdersOk(w.db.orders)
    requires TakenRow(x).quant < |w.db.quants|
    requires TakenRow(x).quantity <= Available(Applied(w.db, x.staged).quants[TakenRow(x).quant])
    ensures StagedOk(w, t, AfterTaking(x).staged, x.lines)
    ensures LinesOk(w.db.reservations, AfterTaking(x).staged, x.lines, x.pc.k)
  {
    StageOneMore(w, x.staged, TakenRow(x), x.pc.k, x.lines);
  }

  lemma {:induction false} TakenRowKeepsLoop(w: World, t: nat, x: Tx)
    requires TxOk(w, t, x) && x.Alloc? && x.pc.Locked?
    ensures CurrentOk(w, t, AfterTaking(x).staged, x.lines, x.strategy, AfterTaking(x).pc)
  {
    LoopTakes(w.db.reservations, x.staged, x.lines[x.pc.k], x.strategy,
              x.pc.cands, x.pc.next, x.pc.remaining, x.pc.base, TakenRow(x));
  }

  /** Own step: the reloaded row passes the check, so one more reservation is staged. */
  lemma {:induction false} ProceedFromLock(w: World, t: nat, x: Tx)
    requires TxOk(w, t, x) && x.Alloc? && x.pc.Locked? && OrdersOk(w.db.orders)
    ensures match ProceedAlloc(w, t, x)
      case None => false
      case Some(w') => t in w'.txs && TxOk(w', t, w'.txs[t])
  {
    LockedStep(w, t, x);
    var w' := ProceedAlloc(w, t, x).value;
    if w'.txs[t] == AfterTaking(x) {
      TakenRowKeepsShape(w, t, x);
      TakenRowKeepsLoop(w, t, x);
      LocksOnlyMatter(w, w', t, AfterTaking(x).staged, x.lines, x.strategy, AfterTaking(x).pc);
    }
  }

  lemma {:induction false} LocksOnlyMatter(w: World, w': World, t: nat, staged: seq<Reservation>, lines: seq<Line>,
                                           strategy: Strategy, pc: Pc)
    requires w'.db == w.db && w'.orderLock == w.orderLock && w'.quantLock == w.quantLock
    ensures StagedOk(w, t, staged, lines) ==> StagedOk(w', t, staged, lines)
    ensures CurrentOk(w, t, staged, lines, strategy, pc) ==> CurrentOk(w', t, staged, lines, strategy, pc)
  {
  }

  lemma {:induction false} StageOneMore(w: World, staged: seq<Reservation>, row: Reservation, k: nat, lines: seq<Line>)
    requires k < |lines| && LineIdsDistinct(lines) && row.line == lines[k].id && row.active && row.quantity > 0
    requires RowsFor(staged, lines) && WithinStock(w.db, staged)
    requires row.quant < |w.db.quants| && row.quantity <= Available(Applied(w.db, staged).quants[row.quant])
    ensures RowsFor(staged + [row], lines) && WithinStock(w.db, staged + [row])
    ensures ActiveFor(staged + [row], lines[k].id) == ActiveFor(staged, lines[k].id) + row.quantity
    ensures forall i :: 0 <= i < |lines| && i != k ==>
      ActiveFor(staged + [row], lines[i].id) == ActiveFor(staged, lines[i].id)
  {
    assert (staged + [row])[..|staged|] == staged;
  }

  /** Two transactions never stage on the same quant, because staging needs its row lock. */
  lemma {:induction false} StagedApart(w: World, t: nat, t2: nat, staged: seq<Reservation>, quant: nat)
    requires t != t2 && HoldsQuant(w, t2, quant)
    requires forall r :: r in staged ==> HoldsQuant(w, t, r.quant)
    ensures SumOn(staged, quant) == 0
  {
    SumOnZero(staged, quant);
  }

  /** A commit of another order changes no active reservation of these lines. */
  lemma {:induction false} OtherOrdersKeepRequired(rs: seq<Reservation>, staged: seq<Reservation>, lines: seq<Line>,
                                                   others: seq<Line>, i: nat)
    requires LinesApart(lines, others) && RowsFor(staged, lines) && i < |others|
    ensures Required(rs + staged, others[i]) == Required(rs, others[i])
  {
    OtherRowsDoNotCount(staged, lines, others[i].id);
    ActiveForConcat(rs, staged, others[i].id);
  }

  lemma {:induction false} CommitKeepsStock(w: World, t: nat, t2: nat, staged: seq<Reservation>,
                                            staged2: seq<Reservation>)
    requires t != t2 && StockOk(w.db.quants)
    requires WithinStock(w.db, staged) && WithinStock(w.db, staged2)
    requires forall r :: r in staged ==> HoldsQuant(w, t, r.quant)
    requires forall r :: r in staged2 ==> HoldsQuant(w, t2, r.quant)
    ensures WithinStock(Applied(w.db, staged), staged2)
  {
    forall q: nat | q < |w.db.quants| ensures SumOn(staged2, q) <= Available(Applied(w.db, staged).quants[q]) {
      if HoldsQuant(w, t2, q) { StagedApart(w, t, t2, staged, q); } else { SumOnZero(staged2, q); }
    }
  }

  /** A commit does not disturb any other transaction, whatever it has read or staged so far. */
  lemma {:induction false} CommitKeepsOther(w: World, t: nat, x: Tx, t2: nat, x2: Tx)
    requires t != t2 && TxOk(w, t, x) && TxOk(w, t2, x2) && StockOk(w.db.quants) && OrdersOk(w.db.orders)
    requires x.Alloc? && x.pc == AtLine(|x.lines|)
    ensures TxOk(CommitOrder(w, t, x), t2, x2)
  {
    var w' := CommitOrder(w, t, x);
    assert KeepsLocks(w, w', t2);
    match x2
    case Count(quant, _, pc) =>
      if pc.Written? { StagedApart(w, t, t2, x.staged, quant); }
    case Alloc(order2, _, _, _, lines2, staged2, pc2) =>
      if Started(pc2) {
        CommitKeepsStock(w, t, t2, x.staged, staged2);
        forall i | 0 <= i < |lines2|
          ensures Required(w'.db.reservations, lines2[i]) == Required(w.db.reservations, lines2[i])
        {
          OtherOrdersKeepRequired(w.db.reservations, x.staged, x.lines, lines2, i);
        }
      }
  }

  lemma {:induction false} ApprovalKeepsOther(w: World, t: nat, x: Tx, t2: nat, x2: Tx)
    requires t != t2 && TxOk(w, t, x) && TxOk(w, t2, x2)
    requires x.Count? && x.countPc.Written?
    ensures TxOk(ProceedCount(w, t, x).value, t2, x2)
  {
    var w' := ProceedCount(w, t, x).value;
    assert KeepsLocks(w, w', t2);
    if x2.Alloc? && Started(x2.pc) {
      forall q: nat | q < |w.db.quants| ensures SumOn(x2.staged, q) <= Available(w'.db.quants[q]) {
        if q == x.quant { SumOnZero(x2.staged, q); }
      }
      assert WithinStock(w'.db, x2.staged);
    }
  }

  lemma {:induction false} CommitKeepsTables(db0: Tables, w: World, t: nat, x: Tx)
    requires Inv(db0, w) && TxOk(w, t, x) && x.Alloc? && x.pc == AtLine(|x.lines|)
    ensures var db := CommitOrder(w, t, x).db;
      StockOk(db.quants) && OrdersOk(db.orders) && Ledger(db0, db)
  {
    var db := CommitOrder(w, t, x).db;
    var added := w.db.reservations[|db0.reservations|..];
    assert db.reservations[|db0.reservations|..] == added + x.staged;
    forall q | 0 <= q < |db.quants|
      ensures db.quants[q].reserved == db0.quants[q].reserved + SumOn(db.reservations[|db0.reservations|..], q)
    {
      SumOnConcat(added, x.staged, q);
    }
  }

  /** A step that touches only transaction `t` and locks no other transaction holds. */
  ghost predicate LocalStep(w: World, w': World, t: nat) {
    && w'.db == w.db && t in w'.txs && w'.txs == w.txs[t := w'.txs[t]]
    && (forall t2 :: t2 != t ==> KeepsLocks(w, w', t2))
  }

  lemma {:induction false} LocalStepKeepsInv(db0: Tables, w: World, w': World, t: nat)
    requires Inv(db0, w) && LocalStep(w, w', t) && TxOk(w', t, w'.txs[t])
    ensures Inv(db0, w')
  {
    forall t2 | t2 in w'.txs && t2 != t ensures TxOk(w', t2, w'.txs[t2]) { SameRowsKeepTx(w, w', t2, w.txs[t2]); }
  }

  lemma {:induction false} OwnStepKeepsTx(w: World, t: nat, x: Tx)
    requires TxOk(w, t, x) && OrdersOk(w.db.orders)
    requires x.Alloc? && !(x.pc == AtLine(|x.lines|)) && ProceedAlloc(w, t, x).Some?
    ensures var w' := ProceedAlloc(w, t, x).value; t in w'.txs && TxOk(w', t, w'.txs[t])
  {
    match x.pc
    case WaitOrder => ProceedToLines(w, t, x);
    case ReadOrder => ProceedToLines(w, t, x);
    case AtLine(k) => ProceedFromLine(w, t, x, k);
    case Search(k, required) => ProceedFromSearch(w, t, x, k, required);
    case Draining(k, cands, next, remaining, base) => ProceedFromCandidate(w, t, x, k, cands, next, remaining, base);
    case Locked(_, _, _, _, _) => ProceedFromLock(w, t, x);
  }

  lemma {:induction false} OwnStepIsLocal(w: World, t: nat, x: Tx)
    requires x.Alloc? && t in w.txs && ProceedAlloc(w, t, x).Some?
    requires x.pc.AtLine? ==> x.pc.k < |x.lines|
    ensures LocalStep(w, ProceedAlloc(w, t, x).value, t)
  {
    forall rb: bool ensures LocalStep(w, RollBack(w, t, x, rb), t) { }
  }

  lemma {:induction false} AllocStepKeepsInv(db0: Tables, w: World, t: nat)
    requires Inv(db0, w) && t in w.txs && w.txs[t].Alloc? && ProceedAlloc(w, t, w.txs[t]).Some?
    ensures Inv(db0, ProceedAlloc(w, t, w.txs[t]).value)
  {
    var x := w.txs[t];
    assert TxOk(w, t, x);
    var w' := ProceedAlloc(w, t, x).value;
    if x.pc == AtLine(|x.lines|) {
      assert w' == CommitOrder(w, t, x);
      CommitKeepsTables(db0, w, t, x);
      forall t2 | t2 in w'.txs && t2 != t ensures TxOk(w', t2, w'.txs[t2]) { CommitKeepsOther(w, t, x, t2, w.txs[t2]); }
    } else {
      OwnStepKeepsTx(w, t, x);
      OwnStepIsLocal(w, t, x);
      LocalStepKeepsInv(db0, w, w', t);
    }
  }

  lemma {:induction false} CountStepKeepsInv(db0: Tables, w: World, t: nat)
    requires Inv(db0, w) && t in w.txs && w.txs[t].Count? && ProceedCount(w, t, w.txs[t]).Some?
    ensures Inv(db0, ProceedCount(w, t, w.txs[t]).value)
  {
    var x := w.txs[t];
    assert TxOk(w, t, x);
    var w' := ProceedCount(w, t, x).value;
    if x.countPc.Written? {
      forall t2 | t2 in w'.txs && t2 != t
        ensures TxOk(w', t2, w'.txs[t2])
      {
        ApprovalKeepsOther(w, t, x, t2, w.txs[t2]);
      }
    } else {
      LocalStepKeepsInv(db0, w, w', t);
    }
  }

  /** Every step of every transaction keeps the invariant. */
  lemma {:induction false} StepKeepsInv(db0: Tables, w: World, a: Action)
    requires Inv(db0, w) && Next(w, a).Some?
    ensures Inv(db0, Next(w, a).value)
  {
    if a.Proceed? {
      if w.txs[a.t].Alloc? { AllocStepKeepsInv(db0, w, a.t); } else { CountStepKeepsInv(db0, w, a.t); }
    } else {
      assert a.t in w.txs ==> TxOk(w, a.t, w.txs[a.t]);
      LocalStepKeepsInv(db0, w, Next(w, a).value, a.t);
    }
  }

  /** In every interleaving: stock bounds hold and `reserved` is what it was at the start plus
      exactly the reservations committed since. */
  lemma {:induction false} RunKeepsInv(db0: Tables, w: World, schedule: seq<Action>)
    requires Inv(db0, w)
    ensures Inv(db0, Run(w, schedule))
    decreases |schedule|
  {
    if schedule != [] {
      if Next(w, schedule[0]).Some? { StepKeepsInv(db0, w, schedule[0]); }
      RunKeepsInv(db0, match Next(w, schedule[0]) { case Some(w1) => w1 case None => w }, schedule[1..]);
    }
  }

  // ---------------------------------------------------------------- results over all runs

  /** Whatever the interleaving: no quant is over-reserved, `reserved` has grown by exactly the
      committed reservations, and orders keep their lines. */
  lemma {:induction false} AllRunsConserveStock(db0: Tables, schedule: seq<Action>)
    requires StockOk(db0.quants) && OrdersOk(db0.orders)
    ensures StockOk(Run(Start(db0), schedule).db.quants)
    ensures Ledger(db0, Run(Start(db0), schedule).db)
  {
    assert db0.reservations[|db0.reservations|..] == [];
    assert Inv(db0, Start(db0));
    RunKeepsInv(db0, Start(db0), schedule);
  }

  /** Allocating an order in one atomic step: some rows, within stock, that give each line
      exactly what it still required. */
  ghost predicate AtomicAllocation(db: Tables, order: string, rows: seq<Reservation>, db': Tables) {
    && order in db.orders
    && db' == Applied(db, rows).(orders := db.orders[order := db.orders[order].(status := "ALLOCATED")])
    && RowsFor(rows, db.orders[order].lines)
    && WithinStock(db, rows)
    && forall k :: 0 <= k < |db.orders[order].lines| ==>
         ActiveFor(rows, db.orders[order].lines[k].id) == Required(db.reservations, db.orders[order].lines[k])
  }

  /** Approving a count in one atomic step: the quantity becomes the count, never below `reserved`. */
  predicate AtomicApproval(db: Tables, quant: nat, counted: nat, db': Tables) {
    && quant < |db.quants| && db.quants[quant].reserved <= counted
    && db' == db.(quants := db.quants[quant := db.quants[quant].(quantity := counted)])
  }

  predicate IsCommit(w: World, a: Action) {
    a.Proceed? && a.t in w.txs && w.txs[a.t].Alloc? && w.txs[a.t].pc == AtLine(|w.txs[a.t].lines|)
  }

  /** The interleaved machine refines atomic transactions: every step leaves the committed rows
      alone, or is one atomic allocation, or one atomic approval. */
  lemma {:induction false} StepsRefineAtomicTransactions(db0: Tables, w: World, a: Action)
    requires Inv(db0, w) && Next(w, a).Some?
    ensures var db' := Next(w, a).value.db;
      if IsCommit(w, a) then AtomicAllocation(w.db, w.txs[a.t].order, w.txs[a.t].staged, db')
      else
        || db' == w.db
        || (a.Proceed? && w.txs[a.t].Count? && AtomicApproval(w.db, w.txs[a.t].quant, w.txs[a.t].counted, db'))
  {
    assert a.t in w.txs ==> TxOk(w, a.t, w.txs[a.t]);
  }

  /** The serial function is such an atomic allocation too. */
  lemma {:induction false} SerialOrderIsAtomic(t: Tables, order: string, owned: Option<set<nat>>, strategy: Strategy)
    requires order in t.orders && LineIdsDistinct(t.orders[order].lines)
    requires AllocateOrder(t, order, owned, strategy).Success?
    ensures AtomicAllocation(t, order, OrderRows(t, t.orders[order].lines, owned, strategy),
                             AllocateOrder(t, order, owned, strategy).value.tables)
  {
    var lines := t.orders[order].lines;
    AllocateLinesApplied(t, lines, owned, strategy);
    forall k | 0 <= k < |lines|
      ensures ActiveFor(OrderRows(t, lines, owned, strategy), lines[k].id) == Required(t.reservations, lines[k])
    {
      AllocateLinesFill(t, lines, owned, strategy, k);
    }
  }

  ghost predicate Filled(db: Tables, order: string) {
    && order in db.orders
    && forall k :: 0 <= k < |db.orders[order].lines| ==> Required(db.reservations, db.orders[order].lines[k]) == 0
  }

  /** After a commit each line of the order holds its target: what was ordered, or what it
      already held if that was more. */
  lemma {:induction false} CommitReachesTargets(db: Tables, order: string, rows: seq<Reservation>, db': Tables, k: nat)
    requires AtomicAllocation(db, order, rows, db') && k < |db.orders[order].lines|
    ensures var line := db.orders[order].lines[k];
      line.picked + ActiveFor(db'.reservations, line.id) == Target(db.reservations, line)
    ensures Filled(db', order)
  {
    forall j | 0 <= j < |db.orders[order].lines|
      ensures Required(db'.reservations, db.orders[order].lines[j]) == 0
      ensures ActiveFor(db'.reservations, db.orders[order].lines[j].id)
           == ActiveFor(db.reservations, db.orders[order].lines[j].id)
               + Required(db.reservations, db.orders[order].lines[j])
    {
      ActiveForConcat(db.reservations, rows, db.orders[order].lines[j].id);
    }
  }

  /** In any run, whatever else has happened, a commit leaves each line of its order at its target. */
  lemma {:induction false} EveryCommitReachesTargets(db0: Tables, w: World, schedule: seq<Action>, a: Action)
    requires Inv(db0, w) && IsCommit(Run(w, schedule), a)
    ensures Next(Run(w, schedule), a).Some?
    ensures var w1 := Run(w, schedule);
      var order, db' := w1.txs[a.t].order, Next(w1, a).value.db;
      && Filled(db', order) && order in w1.db.orders
      && forall k :: 0 <= k < |w1.db.orders[order].lines| ==>
           var line := w1.db.orders[order].lines[k];
           line.picked + ActiveFor(db'.reservations, line.id) == Target(w1.db.reservations, line)
  {
    RunKeepsInv(db0, w, schedule);
    var w1 := Run(w, schedule);
    var x := w1.txs[a.t];
    assert TxOk(w1, a.t, x);
    StepsRefineAtomicTransactions(db0, w1, a);
    CommitFills(w1.db, x.order, x.staged, Next(w1, a).value.db);
  }

  lemma {:induction false} CommitFills(db: Tables, order: string, rows: seq<Reservation>, db': Tables)
    requires AtomicAllocation(db, order, rows, db')
    ensures Filled(db', order)
    ensures forall k :: 0 <= k < |db.orders[order].lines| ==>
      var line := db.orders[order].lines[k];
        line.picked + ActiveFor(db'.reservations, line.id) == Target(db.reservations, line)
  {
    forall k | 0 <= k < |db.orders[order].lines|
      ensures var line := db.orders[order].lines[k];
        line.picked + ActiveFor(db'.reservations, line.id) == Target(db.reservations, line)
    {
      CommitReachesTargets(db, order, rows, db', k);
    }
    if db.orders[order].lines != [] { CommitReachesTargets(db, order, rows, db', 0); }
  }

  lemma {:induction false} ActiveForPositive(rows: seq<Reservation>, r: Reservation)
    requires r in rows && forall q :: q in rows ==> q.active && q.quantity > 0
    ensures ActiveFor(rows, r.line) > 0
  {
    var front, last := rows[..|rows| - 1], rows[|rows| - 1];
    assert last in rows && forall q :: q in front ==> q in rows;
    ActiveForNonNegative(front, r.line);
    if r != last {
      assert r in front;
      ActiveForPositive(front, r);
    }
  }

  lemma {:induction false} ActiveForNonNegative(rows: seq<Reservation>, line: string)
    requires forall q :: q in rows ==> q.quantity > 0
    ensures ActiveFor(rows, line) >= 0
  {
    if rows != [] {
      assert rows[|rows| - 1] in rows;
      ActiveForNonNegative(rows[..|rows| - 1], line);
    }
  }

  /** Allocating a filled order again commits no reservation and touches no quant. */
  lemma {:induction false} FilledOrderTakesNothing(db: Tables, order: string, rows: seq<Reservation>, db': Tables)
    requires AtomicAllocation(db, order, rows, db') && Filled(db, order)
    ensures rows == [] && db'.reservations == db.reservations && db'.quants == db.quants
  {
    if rows != [] {
      var r := rows[0];
      assert r in rows;
      var k :| 0 <= k < |db.orders[order].lines| && db.orders[order].lines[k].id == r.line;
      ActiveForPositive(rows, r);
      assert false;
    }
    AppliedConcat(db, [], []);
  }

  lemma {:induction false} StepKeepsFilled(db0: Tables, w: World, a: Action, order: string)
    requires Inv(db0, w) && Next(w, a).Some? && Filled(w.db, order)
    ensures Filled(Next(w, a).value.db, order)
  {
    StepsRefineAtomicTransactions(db0, w, a);
    if IsCommit(w, a) {
      var x := w.txs[a.t];
      forall k | 0 <= k < |w.db.orders[order].lines|
        ensures Required(w.db.reservations + x.staged, w.db.orders[order].lines[k]) == 0
      {
        var id := w.db.orders[order].lines[k].id;
        ActiveForConcat(w.db.reservations, x.staged, id);
        ActiveForNonNegative(x.staged, id);
      }
    }
  }

  /** Once an allocation of an order has committed, no later commit for it, in whatever
      interleaving and after however many retries, reserves anything more. */
  lemma {:induction false} LaterCommitsReserveNothing(db0: Tables, w: World, schedule: seq<Action>, order: string,
                                                      a: Action)
    requires Inv(db0, w) && Filled(w.db, order)
    ensures Filled(Run(w, schedule).db, order)
    ensures var w1 := Run(w, schedule);
      IsCommit(w1, a) && w1.txs[a.t].order == order && Next(w1, a).Some? ==>
        Next(w1, a).value.db.reservations == w1.db.reservations && Next(w1, a).value.db.quants == w1.db.quants
    decreases |schedule|
  {
    if schedule == [] {
      if IsCommit(w, a) && w.txs[a.t].order == order && Next(w, a).Some? {
        StepsRefineAtomicTransactions(db0, w, a);
        FilledOrderTakesNothing(w.db, order, w.txs[a.t].staged, Next(w, a).value.db);
      }
    } else {
      if Next(w, schedule[0]).Some? {
        StepKeepsInv(db0, w, schedule[0]);
        StepKeepsFilled(db0, w, schedule[0], order);
      }
      LaterCommitsReserveNothing(db0, match Next(w, schedule[0]) { case Some(w1) => w1 case None => w },
                                 schedule[1..], order, a);
    }
  }

  /** Draining a list: a used row leaves nothing on any row listed before it, so all used rows but the last
      are emptied. */
  lemma {:induction false} DrainEmptiesEarlier(cands: seq<Candidate>, line: Line, required: nat, a: nat, b: nat)
    requires IdsDistinct(cands) && a < b < |cands|
    requires SumOn(Drain(cands, line, required), cands[b].id) > 0
    ensures SumOn(Drain(cands, line, required), cands[a].id) == Available(cands[a].row)
  {
    DrainTakes(cands, line, required, a);
    DrainTakes(cands, line, required, b);
    TotalAvailableSplit(cands, a, b);
  }

  /** Draining a sorted list: a used row leaves nothing on any strictly preferred one. */
  lemma {:induction false} DrainPrefers(cands: seq<Candidate>, strategy: Strategy, line: Line, required: nat, a: nat,
                                        b: nat)
    requires IdsDistinct(cands) && SortedBy(Prefers(strategy), cands) && a < |cands| && b < |cands|
    requires ComesFirst(cands[a].row, cands[b].row, strategy)
    requires SumOn(Drain(cands, line, required), cands[b].id) > 0
    ensures SumOn(Drain(cands, line, required), cands[a].id) == Available(cands[a].row)
  {
    PreferredIsEarlier(cands, strategy, a, b);
    DrainEmptiesEarlier(cands, line, required, a, b);
  }

  lemma {:induction false} PreferredIsEarlier(cands: seq<Candidate>, strategy: Strategy, a: nat, b: nat)
    requires SortedBy(Prefers(strategy), cands) && a < |cands| && b < |cands|
    requires ComesFirst(cands[a].row, cands[b].row, strategy)
    ensures a < b
  {
    CompareTotalPreorder(strategy);
  }

  /** When a line is done, what was staged for it drained the rows it had read in their order: while one was
      used, no row listed before it, and so no strictly preferred one, kept any of the stock it was read with. */
  lemma {:induction false} LineDrainsItsSnapshot(db0: Tables, w: World, t: nat, a: nat, b: nat)
    requires Inv(db0, w) && t in w.txs && w.txs[t].Alloc? && w.txs[t].pc.Draining?
    requires w.txs[t].pc.remaining <= 0 || w.txs[t].pc.next >= |w.txs[t].pc.cands|
    requires a < |w.txs[t].pc.cands| && b < |w.txs[t].pc.cands|
    ensures var x := w.txs[t];
      var ca, cb, taken := x.pc.cands[a], x.pc.cands[b], x.staged[x.pc.base..];
      && ActiveFor(x.staged, x.lines[x.pc.k].id) == Required(w.db.reservations, x.lines[x.pc.k])
      && (a < b && SumOn(taken, cb.id) > 0 ==> SumOn(taken, ca.id) == Available(ca.row))
      && (ComesFirst(ca.row, cb.row, x.strategy) && SumOn(taken, cb.id) > 0 ==>
            SumOn(taken, ca.id) == Available(ca.row))
  {
    var x := w.txs[t];
    assert TxOk(w, t, x);
    var Draining(k, cands, next, remaining, base) := x.pc;
    LoopEnds(w.db.reservations, x.staged, x.lines[k], x.strategy, cands, next, remaining, base);
    var required := Required(w.db.reservations, x.lines[k]);
    if ComesFirst(cands[a].row, cands[b].row, x.strategy) { PreferredIsEarlier(cands, x.strategy, a, b); }
    if a < b && SumOn(x.staged[base..], cands[b].id) > 0 {
      DrainEmptiesEarlier(cands, x.lines[k], required, a, b);
    }
  }
}
