/** What concurrent allocations may reserve, how they end, and what one does when nothing runs beside it. */
module AllocationOutcomes {
  import opened Common
  import opened StockFreezes
  import opened StockAllocation
  import opened AllocationRuns

  function After(w: World, a: Action): World { match Next(w, a) case Some(w1) => w1 case None => w }

  // ---------------------------------------------------------------- what is reserved

  /** The quant may serve the line: available, of its SKU, of its owner if there is one. */
  ghost predicate Serves(db: Tables, owned: Option<set<nat>>, line: Line, quant: nat) {
    && quant < |db.quants| && db.quants[quant].isAvailable && db.quants[quant].sku == line.sku
    && (owned == None || quant in owned.value)
  }

  /** The row is for a line of the order, on a quant that may serve it and that no freeze blocks. */
  ghost predicate Proper(db: Tables, owned: Option<set<nat>>, lines: seq<Line>, r: Reservation) {
    exists k :: 0 <= k < |lines| && lines[k].id == r.line && Serves(db, owned, lines[k], r.quant)
                && forall f :: f in db.freezes ==>
                     !Blocks(f, r.quant, db.quants[r.quant].location, db.quants[r.quant].sku)
  }

  ghost predicate CandsServe(db: Tables, owned: Option<set<nat>>, lines: seq<Line>, k: nat, cands: seq<Candidate>) {
    k < |lines| && forall c :: c in cands ==> Serves(db, owned, lines[k], c.id)
  }

  predicate Allocatable(order: Order) {
    order.status !in {"CANCELLED", "SHIPPED", "CLOSED", "COMPLETED"} && order.lines != []
  }

  ghost predicate TxProper(w: World, x: Tx) {
    x.Alloc? ==>
      && 1 <= x.attempt <= 3
      && (Started(x.pc) ==> x.order in w.db.orders && Allocatable(w.db.orders[x.order]))
      && (forall r :: r in x.staged ==> Proper(w.db, x.owned, x.lines, r))
      && (x.pc.Draining? ==> CandsServe(w.db, x.owned, x.lines, x.pc.k, x.pc.cands))
      && (x.pc.Locked? ==> CandsServe(w.db, x.owned, x.lines, x.pc.k, x.pc.cands))
  }

  ghost predicate AllProper(w: World) { forall t :: t in w.txs ==> TxProper(w, w.txs[t]) }

  /** What no step changes: the freezes, and of a quant all but its quantities. */
  ghost predicate SameColumns(db: Tables, db': Tables) {
    && db'.freezes == db.freezes && |db'.quants| == |db.quants|
    && forall q :: 0 <= q < |db.quants| ==>
         db'.quants[q] == db.quants[q].(quantity := db'.quants[q].quantity, reserved := db'.quants[q].reserved)
  }

  lemma {:induction false} StepKeepsColumns(w: World, a: Action)
    ensures SameColumns(w.db, After(w, a).db)
  {
    if a.Proceed? && a.t in w.txs && w.txs[a.t].Alloc? { assert SameColumns(w.db, Applied(w.db, w.txs[a.t].staged)); }
  }

  lemma {:induction false} ProperStays(db: Tables, db': Tables, owned: Option<set<nat>>, lines: seq<Line>,
                                       r: Reservation)
    requires SameColumns(db, db') && Proper(db, owned, lines, r)
    ensures Proper(db', owned, lines, r)
  {
    var k :| 0 <= k < |lines| && lines[k].id == r.line && Serves(db, owned, lines[k], r.quant);
    assert Serves(db', owned, lines[k], r.quant);
  }

  lemma {:induction false} AllocKeepsOthers(w: World, t: nat, x: Tx, t2: nat)
    requires x.Alloc? && t2 in w.txs && t2 != t
    ensures match ProceedAlloc(w, t, x)
      case None => true
      case Some(w') => t2 in w'.txs && w'.txs[t2] == w.txs[t2]
  {
  }

  lemma {:induction false} CountKeepsOthers(w: World, t: nat, x: Tx, t2: nat)
    requires x.Count? && t2 in w.txs && t2 != t
    ensures match ProceedCount(w, t, x)
      case None => true
      case Some(w') => t2 in w'.txs && w'.txs[t2] == w.txs[t2]
  {
  }

  lemma {:induction false} OthersStay(w: World, a: Action, t: nat)
    requires t in w.txs && a.t != t
    ensures t in After(w, a).txs && After(w, a).txs[t] == w.txs[t]
  {
    if a.Proceed? && a.t in w.txs {
      var x := w.txs[a.t];
      if x.Alloc? { AllocKeepsOthers(w, a.t, x, t); } else { CountKeepsOthers(w, a.t, x, t); }
    }
  }

  lemma {:induction false} OrdersAfter(w: World, a: Action)
    requires a.t in w.txs ==> TxOk(w, a.t, w.txs[a.t])
    ensures if IsCommit(w, a) && w.txs[a.t].order in w.db.orders
            then After(w, a).db.orders == w.db.orders[w.txs[a.t].order :=
                                            w.db.orders[w.txs[a.t].order].(status := "ALLOCATED")]
            else After(w, a).db.orders == w.db.orders
  {
  }

  /** Nobody else writes the order of a started allocation. */
  lemma {:induction false} OrderStays(w: World, a: Action, t: nat)
    requires t in w.txs && a.t != t && TxOk(w, t, w.txs[t]) && w.txs[t].Alloc? && Started(w.txs[t].pc)
    requires a.t in w.txs ==> TxOk(w, a.t, w.txs[a.t])
    ensures w.txs[t].order in w.db.orders && w.txs[t].order in After(w, a).db.orders
    ensures After(w, a).db.orders[w.txs[t].order] == w.db.orders[w.txs[t].order]
  {
    OrdersAfter(w, a);
    if IsCommit(w, a) { assert HoldsOrder(w, a.t, w.txs[a.t].order); }
  }

  lemma {:induction false} ColumnsKeepProper(w: World, w': World, x: Tx)
    requires SameColumns(w.db, w'.db) && TxProper(w, x)
    requires x.Alloc? && Started(x.pc) ==> x.order in w'.db.orders && w'.db.orders[x.order] == w.db.orders[x.order]
    ensures TxProper(w', x)
  {
    if x.Alloc? {
      forall r | r in x.staged ensures Proper(w'.db, x.owned, x.lines, r) {
        ProperStays(w.db, w'.db, x.owned, x.lines, r);
      }
    }
  }

  /** A transaction that is left alone keeps all this. */
  lemma {:induction false} OthersKeepProper(w: World, a: Action, t: nat)
    requires t in w.txs && a.t != t && TxOk(w, t, w.txs[t]) && TxProper(w, w.txs[t])
    requires a.t in w.txs ==> TxOk(w, a.t, w.txs[a.t])
    ensures t in After(w, a).txs && After(w, a).txs[t] == w.txs[t] && TxProper(After(w, a), w.txs[t])
  {
    OthersStay(w, a, t);
    StepKeepsColumns(w, a);
    if w.txs[t].Alloc? && Started(w.txs[t].pc) { OrderStays(w, a, t); }
    ColumnsKeepProper(w, After(w, a), w.txs[t]);
  }

  lemma {:induction false} SearchServes(w: World, x: Tx)
    requires x.Alloc? && x.pc.Search? && x.pc.k < |x.lines|
    ensures CandsServe(w.db, x.owned, x.lines, x.pc.k,
                       FindCandidates(Applied(w.db, x.staged).quants, x.lines[x.pc.k], x.owned, x.strategy))
  {
    var quants := Applied(w.db, x.staged).quants;
    FindCandidatesCorrect(quants, x.lines[x.pc.k], x.owned, x.strategy);
    forall c | c in FindCandidates(quants, x.lines[x.pc.k], x.owned, x.strategy)
      ensures Serves(w.db, x.owned, x.lines[x.pc.k], c.id)
    {
      assert c == Candidate(c.id, quants[c.id]);
    }
  }

  lemma {:induction false} TakenProper(w: World, t: nat, x: Tx)
    requires TxProper(w, x) && x.Alloc? && x.pc.Locked? && x.pc.k < |x.lines| && x.pc.next < |x.pc.cands|
    requires var c := x.pc.cands[x.pc.next]; c.id < |w.db.quants| && !IsFrozen(w.db.freezes, c.id, w.db.quants[c.id])
    ensures Proper(w.db, x.owned, x.lines, TakenRow(x))
  {
    var c := x.pc.cands[x.pc.next];
    assert c in x.pc.cands;
    assert Serves(w.db, x.owned, x.lines[x.pc.k], c.id);
    forall f | f in w.db.freezes ensures !Blocks(f, c.id, w.db.quants[c.id].location, w.db.quants[c.id].sku) {
      var i :| 0 <= i < |w.db.freezes| && w.db.freezes[i] == f;
    }
  }

  lemma {:induction false} LockedKeepsProper(w: World, t: nat, x: Tx)
    requires TxOk(w, t, x) && TxProper(w, x) && x.Alloc? && x.pc.Locked? && ProceedAlloc(w, t, x).Some?
    ensures var w' := ProceedAlloc(w, t, x).value; t in w'.txs && TxProper(w', w'.txs[t])
  {
    var w', c := ProceedAlloc(w, t, x).value, x.pc.cands[x.pc.next];
    if c.id < |w.db.quants| {
      var row := Applied(w.db, x.staged).quants[c.id];
      assert row.location == w.db.quants[c.id].location && row.sku == w.db.quants[c.id].sku;
      if !IsFrozen(w.db.freezes, c.id, row) && Min(Available(c.row), x.pc.remaining) <= Available(row) {
        assert IsFrozen(w.db.freezes, c.id, row) <==> IsFrozen(w.db.freezes, c.id, w.db.quants[c.id]);
        TakenProper(w, t, x);
      }
    }
  }

  lemma {:induction false} EarlyStepKeepsProper(w: World, t: nat, x: Tx)
    requires TxOk(w, t, x) && TxProper(w, x) && x.Alloc? && ProceedAlloc(w, t, x).Some?
    requires x.pc.WaitOrder? || x.pc.ReadOrder? || x.pc.AtLine?
    ensures var w' := ProceedAlloc(w, t, x).value; t in w'.txs && TxProper(w', w'.txs[t])
  {
  }

  lemma {:induction false} LoopStepKeepsProper(w: World, t: nat, x: Tx)
    requires TxOk(w, t, x) && TxProper(w, x) && x.Alloc? && ProceedAlloc(w, t, x).Some?
    requires x.pc.Search? || x.pc.Draining?
    ensures var w' := ProceedAlloc(w, t, x).value; t in w'.txs && TxProper(w', w'.txs[t])
  {
    if x.pc.Search? { SearchServes(w, x); }
  }

  lemma {:induction false} OwnStepKeepsProper(w: World, t: nat, x: Tx)
    requires TxOk(w, t, x) && TxProper(w, x) && x.Alloc? && ProceedAlloc(w, t, x).Some?
    ensures var w' := ProceedAlloc(w, t, x).value; t in w'.txs && TxProper(w', w'.txs[t])
  {
    if x.pc.Locked? {
      LockedKeepsProper(w, t, x);
    } else if x.pc.Search? || x.pc.Draining? {
      LoopStepKeepsProper(w, t, x);
    } else {
      EarlyStepKeepsProper(w, t, x);
    }
  }

  lemma {:induction false} OwnActionKeepsProper(w: World, a: Action)
    requires a.t in w.txs ==> TxOk(w, a.t, w.txs[a.t]) && TxProper(w, w.txs[a.t])
    ensures a.t in After(w, a).txs ==> TxProper(After(w, a), After(w, a).txs[a.t])
  {
    if a.Proceed? && a.t in w.txs && w.txs[a.t].Alloc? && Next(w, a).Some? { OwnStepKeepsProper(w, a.t, w.txs[a.t]); }
  }

  lemma {:induction false} NoOthers(w: World, a: Action, t: nat)
    requires t in After(w, a).txs && a.t != t
    ensures t in w.txs
  {
  }

  lemma {:induction false} StepKeepsProper(db0: Tables, w: World, a: Action)
    requires Inv(db0, w) && AllProper(w)
    ensures AllProper(After(w, a))
  {
    var w' := After(w, a);
    assert a.t in w.txs ==> TxOk(w, a.t, w.txs[a.t]) && TxProper(w, w.txs[a.t]);
    forall t | t in w'.txs ensures TxProper(w', w'.txs[t]) {
      if a.t != t {
        NoOthers(w, a, t);
        assert TxOk(w, t, w.txs[t]) && TxProper(w, w.txs[t]);
        OthersKeepProper(w, a, t);
      } else {
        OwnActionKeepsProper(w, a);
      }
    }
  }

  lemma {:induction false} RunKeepsProper(db0: Tables, w: World, schedule: seq<Action>)
    requires Inv(db0, w) && AllProper(w)
    ensures Inv(db0, Run(w, schedule)) && AllProper(Run(w, schedule))
    decreases |schedule|
  {
    if schedule != [] {
      if Next(w, schedule[0]).Some? { StepKeepsInv(db0, w, schedule[0]); }
      StepKeepsProper(db0, w, schedule[0]);
      RunKeepsProper(db0, After(w, schedule[0]), schedule[1..]);
    }
  }

  /** In every run, a commit is of an order with lines that is not closed, and reserves only quants that are available,
      of the line's SKU, of the asked owner and under no freeze; and no allocation is tried more than three times. */
  lemma {:induction false} CommitsAreProper(db0: Tables, schedule: seq<Action>, a: Action)
    requires StockOk(db0.quants) && OrdersOk(db0.orders)
    ensures var w := Run(Start(db0), schedule);
      && (forall t :: t in w.txs && w.txs[t].Alloc? ==> 1 <= w.txs[t].attempt <= 3)
      && (IsCommit(w, a) ==>
            var x := w.txs[a.t];
            && x.order in w.db.orders && Allocatable(w.db.orders[x.order]) && Next(w, a).Some?
            && Next(w, a).value.db.reservations == w.db.reservations + x.staged
            && forall r :: r in x.staged ==> Proper(w.db, x.owned, w.db.orders[x.order].lines, r))
  {
    assert db0.reservations[|db0.reservations|..] == [];
    assert Inv(db0, Start(db0)) && AllProper(Start(db0));
    RunKeepsProper(db0, Start(db0), schedule);
    var w := Run(Start(db0), schedule);
    if IsCommit(w, a) { assert TxOk(w, a.t, w.txs[a.t]) && TxProper(w, w.txs[a.t]); }
  }

  // ---------------------------------------------------------------- how an allocation ends

  /** A step leaves an allocation that has ended alone, unless it retries one that the database aborted. */
  lemma {:induction false} EndedStays(w: World, schedule: seq<Action>, t: nat)
    requires t in w.txs && w.txs[t].Alloc?
    requires w.txs[t].pc == Committed || w.txs[t].pc == RolledBack(false)
      || (w.txs[t].pc == RolledBack(true) && w.txs[t].attempt >= 3)
    ensures t in Run(w, schedule).txs && Run(w, schedule).txs[t] == w.txs[t]
    decreases |schedule|
  {
    if schedule != [] {
      StepKeepsEnded(w, schedule[0], t);
      EndedStays(After(w, schedule[0]), schedule[1..], t);
    }
  }

  lemma {:induction false} StepKeepsEnded(w: World, a: Action, t: nat)
    requires t in w.txs && w.txs[t].Alloc?
    requires w.txs[t].pc == Committed || w.txs[t].pc == RolledBack(false)
      || (w.txs[t].pc == RolledBack(true) && w.txs[t].attempt >= 3)
    ensures t in After(w, a).txs && After(w, a).txs[t] == w.txs[t]
  {
    if a.t != t { OthersStay(w, a, t); }
  }

  /** A database abort of a running allocation writes nothing and gives back its locks, and the allocation starts over
      from its order, as often as twice. */
  lemma {:induction false} AbortThenRetry(w: World, t: nat)
    requires t in w.txs && w.txs[t].Alloc? && w.txs[t].pc != Committed && !w.txs[t].pc.RolledBack?
    ensures var x, aborted := w.txs[t], After(w, Abort(t));
      var again := After(aborted, Retry(t));
      && aborted.db == again.db == w.db && t in again.txs
      && (forall o :: !HoldsOrder(again, t, o)) && (forall q :: !HoldsQuant(again, t, q))
      && again.txs[t] == if x.attempt < 3 then Alloc(x.order, x.owned, x.strategy, x.attempt + 1, [], [], WaitOrder)
                         else Alloc(x.order, x.owned, x.strategy, x.attempt, [], [], RolledBack(true))
  {
  }

  // ---------------------------------------------------------------- an allocation on its own

  function Proceeds(t: nat, n: nat): seq<Action> { if n == 0 then [] else [Proceed(t)] + Proceeds(t, n - 1) }

  lemma {:induction false} ProceedFirst(w: World, t: nat, n: nat)
    ensures Run(w, Proceeds(t, n + 1)) == Run(After(w, Proceed(t)), Proceeds(t, n))
  {
    assert Proceeds(t, n + 1)[0] == Proceed(t) && Proceeds(t, n + 1)[1..] == Proceeds(t, n);
  }

  lemma {:induction false} ProceedsJoin(w: World, t: nat, m: nat, n: nat)
    ensures Run(w, Proceeds(t, m + n)) == Run(Run(w, Proceeds(t, m)), Proceeds(t, n))
    decreases m
  {
    if m > 0 {
      ProceedFirst(w, t, m - 1 + n);
      ProceedFirst(w, t, m - 1);
      ProceedsJoin(After(w, Proceed(t)), t, m - 1, n);
    }
  }

  lemma {:induction false} TwoFirst(w: World, t: nat, n: nat)
    ensures Run(w, Proceeds(t, n + 2)) == Run(After(After(w, Proceed(t)), Proceed(t)), Proceeds(t, n))
  {
    ProceedFirst(w, t, n + 1);
    ProceedFirst(After(w, Proceed(t)), t, n);
  }

  /** Allocation `x` of transaction `t`, with every lock there is. */
  ghost predicate Alone(w: World, db: Tables, t: nat, x: Tx) {
    && x.Alloc? && t in w.txs && w.txs[t] == x && w.db == db
    && (forall o :: o in w.orderLock ==> w.orderLock[o] == t) && (forall q :: q in w.quantLock ==> w.quantLock[q] == t)
  }

  /** Rolled back for good, with nothing written. */
  ghost predicate Refused(w: World, db: Tables, t: nat) {
    t in w.txs && w.txs[t].Alloc? && w.txs[t].pc == RolledBack(false) && w.db == db
  }

  /** Line `k` has come to what the serial function says: refused, or `staged` holds what it reserves. */
  ghost predicate LineRan(w: World, db: Tables, t: nat, x: Tx, k: nat, staged: seq<Reservation>,
                          serial: Result<Tables, AllocError>)
    requires x.Alloc?
  {
    match serial
    case Failure(_) => Refused(w, db, t)
    case Success(tables) =>
      tables == Applied(db, staged) && Alone(w, db, t, x.(staged := staged, pc := AtLine(k + 1)))
  }

  lemma {:induction false} TakesOne(db: Tables, staged: seq<Reservation>, line: Line, c: Candidate, quantity: int)
    requires c.id < |db.quants|
    ensures Reserve(Applied(db, staged), line, c.id, quantity)
      == Applied(db, staged + [Reservation(line.id, c.id, quantity, true)])
  {
    ReserveIsApplied(Applied(db, staged), line, c.id, quantity);
    AppliedConcat(db, staged, [Reservation(line.id, c.id, quantity, true)]);
  }

  /** The two statements that reserve a candidate: lock the row, and re-read and write it. */
  lemma {:induction false} ReserveAlone(w: World, db: Tables, t: nat, x: Tx)
    requires Alone(w, db, t, x) && x.pc.Draining? && x.pc.k < |x.lines| && x.pc.next < |x.pc.cands|
    requires x.pc.cands[x.pc.next].id < |db.quants| && x.pc.remaining > 0
    requires Min(Available(x.pc.cands[x.pc.next].row), x.pc.remaining) > 0
    ensures var c := x.pc.cands[x.pc.next];
      var quantity, row := Min(Available(c.row), x.pc.remaining), Applied(db, x.staged).quants[c.id];
      var w2 := After(After(w, Proceed(t)), Proceed(t));
      if IsFrozen(db.freezes, c.id, row) || quantity > Available(row) then Refused(w2, db, t)
      else Alone(w2, db, t, Taken(x))
  {
    var w1 := After(w, Proceed(t));
    var locked := x.(pc := Locked(x.pc.k, x.pc.cands, x.pc.next, x.pc.remaining, x.pc.base));
    assert Alone(w1, db, t, locked);
  }

  /** The candidate loop runs as `FillLine` does. */
  lemma {:induction false} DrainAlone(w: World, db: Tables, t: nat, x: Tx) returns (n: nat, staged: seq<Reservation>)
    requires Alone(w, db, t, x) && x.pc.Draining? && x.pc.k < |x.lines| && x.pc.next <= |x.pc.cands|
    requires forall c :: c in x.pc.cands ==> c.id < |db.quants|
    ensures LineRan(Run(w, Proceeds(t, n)), db, t, x, x.pc.k, staged, Rest(db, x))
    decreases |x.pc.cands| - x.pc.next
  {
    var Draining(k, cands, next, remaining, base) := x.pc;
    var w1 := After(w, Proceed(t));
    if remaining <= 0 || next == |cands| {
      n, staged := 1, x.staged;
      assert Alone(w1, db, t, x.(pc := AtLine(k + 1)));
      ProceedFirst(w, t, 0);
    } else {
      var c, quantity := cands[next], Min(Available(cands[next].row), remaining);
      assert cands[next..][0] == c && cands[next..][1..] == cands[next + 1..] && c in cands;
      if quantity <= 0 {
        var m: nat;
        m, staged := DrainAlone(w1, db, t, x.(pc := Draining(k, cands, next + 1, remaining, base)));
        n := m + 1;
        ProceedFirst(w, t, m);
      } else {
        n, staged := DrainOneAlone(w, db, t, x);
      }
    }
  }

  lemma {:induction false} FillFirst(t: Tables, line: Line, c: Candidate, rest: seq<Candidate>, remaining: int)
    requires c.id < |t.quants| && forall d :: d in rest ==> d.id < |t.quants|
    requires remaining > 0 && Min(Available(c.row), remaining) > 0
    ensures var quantity, row := Min(Available(c.row), remaining), t.quants[c.id];
      && (IsFrozen(t.freezes, c.id, row) || quantity > Available(row) ==>
            FillLine(t, line, [c] + rest, remaining).Failure?)
      && (!IsFrozen(t.freezes, c.id, row) && quantity <= Available(row) ==>
            FillLine(t, line, [c] + rest, remaining)
              == FillLine(Reserve(t, line, c.id, quantity), line, rest, remaining - quantity))
  {
    assert ([c] + rest)[1..] == rest;
  }

  /** The transaction once its next candidate is reserved. */
  function Taken(x: Tx): Tx
    requires x.Alloc? && x.pc.Draining? && x.pc.k < |x.lines| && x.pc.next < |x.pc.cands|
  {
    var c := x.pc.cands[x.pc.next];
    var quantity := Min(Available(c.row), x.pc.remaining);
    x.(staged := x.staged + [Reservation(x.lines[x.pc.k].id, c.id, quantity, true)],
       pc := Draining(x.pc.k, x.pc.cands, x.pc.next + 1, x.pc.remaining - quantity, x.pc.base))
  }

  ghost function Rest(db: Tables, x: Tx): Result<Tables, AllocError>
    requires x.Alloc? && x.pc.Draining? && x.pc.k < |x.lines| && x.pc.next <= |x.pc.cands|
    requires forall c :: c in x.pc.cands ==> c.id < |db.quants|
  {
    FillLine(Applied(db, x.staged), x.lines[x.pc.k], x.pc.cands[x.pc.next..], x.pc.remaining)
  }

  lemma {:induction false} RestOfTaken(db: Tables, x: Tx)
    requires x.Alloc? && x.pc.Draining? && x.pc.k < |x.lines| && x.pc.next < |x.pc.cands|
    requires forall c :: c in x.pc.cands ==> c.id < |db.quants|
    requires x.pc.remaining > 0 && Min(Available(x.pc.cands[x.pc.next].row), x.pc.remaining) > 0
    ensures var c := x.pc.cands[x.pc.next];
      var quantity, row := Min(Available(c.row), x.pc.remaining), Applied(db, x.staged).quants[c.id];
      if IsFrozen(db.freezes, c.id, row) || quantity > Available(row) then Rest(db, x).Failure?
      else Rest(db, x) == Rest(db, Taken(x))
  {
    var Draining(k, cands, next, remaining, base) := x.pc;
    assert cands[next..] == [cands[next]] + cands[next + 1..];
    FillFirst(Applied(db, x.staged), x.lines[k], cands[next], cands[next + 1..], remaining);
    TakesOne(db, x.staged, x.lines[k], cands[next], Min(Available(cands[next].row), remaining));
  }

  lemma {:induction false} DrainOneAlone(w: World, db: Tables, t: nat, x: Tx) returns (n: nat, staged: seq<Reservation>)
    requires Alone(w, db, t, x) && x.pc.Draining? && x.pc.k < |x.lines| && x.pc.next < |x.pc.cands|
    requires forall c :: c in x.pc.cands ==> c.id < |db.quants|
    requires x.pc.remaining > 0 && Min(Available(x.pc.cands[x.pc.next].row), x.pc.remaining) > 0
    ensures LineRan(Run(w, Proceeds(t, n)), db, t, x, x.pc.k, staged, Rest(db, x))
    decreases |x.pc.cands| - x.pc.next, 0
  {
    var w2 := After(After(w, Proceed(t)), Proceed(t));
    ReserveAlone(w, db, t, x);
    RestOfTaken(db, x);
    var m: nat := 0;
    staged := [];
    if Rest(db, x).Success? || !Refused(w2, db, t) { m, staged := DrainAlone(w2, db, t, Taken(x)); }
    n := m + 2;
    TwoFirst(w, t, m);
  }

  /** The two statements before the candidate loop: count what is reserved, and read the candidates. */
  lemma {:induction false} SearchAlone(w: World, db: Tables, t: nat, x: Tx)
    requires Alone(w, db, t, x) && x.pc.AtLine? && x.pc.k < |x.lines|
    requires Required(db.reservations + x.staged, x.lines[x.pc.k]) > 0
    ensures var required := Required(db.reservations + x.staged, x.lines[x.pc.k]);
      var cands := FindCandidates(Applied(db, x.staged).quants, x.lines[x.pc.k], x.owned, x.strategy);
      var w2 := After(After(w, Proceed(t)), Proceed(t));
      if TotalAvailable(cands) < required then Refused(w2, db, t)
      else Alone(w2, db, t, x.(pc := Draining(x.pc.k, cands, 0, required, |x.staged|)))
  {
    var w1 := After(w, Proceed(t));
    assert Alone(w1, db, t, x.(pc := Search(x.pc.k, Required(db.reservations + x.staged, x.lines[x.pc.k]))));
  }

  /** One line runs as `AllocateLine` does. */
  lemma {:induction false} LineAlone(w: World, db: Tables, t: nat, x: Tx) returns (n: nat, staged: seq<Reservation>)
    requires Alone(w, db, t, x) && x.pc.AtLine? && x.pc.k < |x.lines|
    ensures LineRan(Run(w, Proceeds(t, n)), db, t, x, x.pc.k, staged,
                    AllocateLine(Applied(db, x.staged), x.lines[x.pc.k], x.owned, x.strategy))
  {
    var tables, line := Applied(db, x.staged), x.lines[x.pc.k];
    var required := Required(tables.reservations, line);
    if required == 0 {
      n, staged := 1, x.staged;
      ProceedFirst(w, t, 0);
    } else {
      var cands := FindCandidates(tables.quants, line, x.owned, x.strategy);
      var w2 := After(After(w, Proceed(t)), Proceed(t));
      SearchAlone(w, db, t, x);
      CandidatesMatch(tables.quants, line, x.owned, x.strategy);
      assert cands[0..] == cands;
      var m: nat := 0;
      staged := [];
      if TotalAvailable(cands) >= required {
        m, staged := DrainAlone(w2, db, t, x.(pc := Draining(x.pc.k, cands, 0, required, |x.staged|)));
      }
      n := m + 2;
      TwoFirst(w, t, m);
    }
  }

  /** The tables that the serial function leaves after these lines, if none of them fails. */
  function Serial(t: Tables, lines: seq<Line>, owned: Option<set<nat>>, strategy: Strategy): Option<Tables> {
    match AllocateLines(t, lines, owned, strategy)
    case Success(a) => Some(a.tables)
    case Failure(_) => None
  }

  /** The order has come to what the serial function says: refused, or committed with the tables it gives. */
  ghost predicate OrderRan(w: World, db: Tables, t: nat, order: string, serial: Option<Tables>)
    requires order in db.orders
  {
    match serial
    case None => Refused(w, db, t)
    case Some(tables) =>
      && t in w.txs && w.txs[t].Alloc? && w.txs[t].pc == Committed
      && w.db == tables.(orders := db.orders[order := db.orders[order].(status := "ALLOCATED")])
  }

  lemma {:induction false} FirstLine(t: Tables, lines: seq<Line>, k: nat, owned: Option<set<nat>>, strategy: Strategy)
    requires k < |lines|
    ensures Serial(t, lines[k..], owned, strategy) ==
      match AllocateLine(t, lines[k], owned, strategy)
      case Failure(_) => None
      case Success(t1) => Serial(t1, lines[k + 1..], owned, strategy)
  {
    assert lines[k..][0] == lines[k] && lines[k..][1..] == lines[k + 1..];
  }

  lemma {:induction false} CommitAlone(w: World, db: Tables, t: nat, x: Tx)
    requires Alone(w, db, t, x) && x.pc == AtLine(|x.lines|) && x.order in db.orders
    ensures OrderRan(Run(w, Proceeds(t, 1)), db, t, x.order, Some(Applied(db, x.staged)))
  {
    ProceedFirst(w, t, 0);
  }

  /** The lines from `k` on run as `AllocateLines` does, and then the order commits. */
  lemma {:induction false} LinesAlone(w: World, db: Tables, t: nat, x: Tx) returns (n: nat)
    requires Alone(w, db, t, x) && x.pc.AtLine? && x.pc.k <= |x.lines| && x.order in db.orders
    ensures OrderRan(Run(w, Proceeds(t, n)), db, t, x.order,
                     Serial(Applied(db, x.staged), x.lines[x.pc.k..], x.owned, x.strategy))
    decreases |x.lines| - x.pc.k
  {
    var k := x.pc.k;
    if k == |x.lines| {
      n := 1;
      assert x.lines[k..] == [];
      CommitAlone(w, db, t, x);
    } else {
      var m, staged := LineAlone(w, db, t, x);
      FirstLine(Applied(db, x.staged), x.lines, k, x.owned, x.strategy);
      var one := AllocateLine(Applied(db, x.staged), x.lines[k], x.owned, x.strategy);
      var rest: nat := 0;
      if one.Success? {
        rest := LinesAlone(Run(w, Proceeds(t, m)), db, t, x.(staged := staged, pc := AtLine(k + 1)));
      }
      n := m + rest;
      LineThenRest(w, db, t, x, staged, m, one, rest,
                   if one.Success? then Serial(one.value, x.lines[k + 1..], x.owned, x.strategy) else None);
    }
  }

  lemma {:induction false} LineThenRest(w: World, db: Tables, t: nat, x: Tx, staged: seq<Reservation>, m: nat,
                                        one: Result<Tables, AllocError>, rest: nat, serial: Option<Tables>)
    requires x.Alloc? && x.pc.AtLine? && x.order in db.orders
    requires LineRan(Run(w, Proceeds(t, m)), db, t, x, x.pc.k, staged, one)
    requires one.Success? ==> OrderRan(Run(Run(w, Proceeds(t, m)), Proceeds(t, rest)), db, t, x.order, serial)
    requires one.Failure? ==> serial == None && rest == 0
    ensures OrderRan(Run(w, Proceeds(t, m + rest)), db, t, x.order, serial)
  {
    ProceedsJoin(w, t, m, rest);
  }

  /** An allocation with nothing beside it does what the serial function says: it commits exactly those tables, or
      is rolled back for good with nothing written when the function fails. */
  lemma {:induction false} AloneIsSerial(w: World, t: nat, order: string, owned: Option<set<nat>>, strategy: Strategy)
    returns (n: nat)
    requires t !in w.txs && w.orderLock == map[] && w.quantLock == map[]
    ensures var w' := Run(After(w, BeginAllocation(t, order, owned, strategy)), Proceeds(t, n));
      && t in w'.txs && w'.txs[t].Alloc?
      && match AllocateOrder(w.db, order, owned, strategy)
         case Failure(_) => w'.txs[t].pc == RolledBack(false) && w'.db == w.db
         case Success(a) => w'.txs[t].pc == Committed && w'.db == a.tables
  {
    var w0 := After(w, BeginAllocation(t, order, owned, strategy));
    var w1 := After(w0, Proceed(t));
    if order !in w.db.orders {
      n := 1;
      ProceedFirst(w0, t, 0);
    } else {
      var w2 := After(w1, Proceed(t));
      var lines := w.db.orders[order].lines;
      if w.db.orders[order].status in CLOSED_STATUSES || lines == [] {
        n := 2;
      } else {
        AppliedConcat(w.db, [], []);
        assert lines[0..] == lines;
        var m := LinesAlone(w2, w.db, t, Alloc(order, owned, strategy, 1, lines, [], AtLine(0)));
        n := m + 2;
      }
      TwoFirst(w0, t, n - 2);
    }
  }

  // ---------------------------------------------------------------- approvals

  /** Nobody else writes a quant while its row is held. */
  lemma {:induction false} HeldQuantStays(w: World, a: Action, t: nat, quant: nat)
    requires HoldsQuant(w, t, quant) && a.t != t && (a.t in w.txs ==> TxOk(w, a.t, w.txs[a.t]))
    ensures |After(w, a).db.quants| == |w.db.quants|
    ensures quant < |w.db.quants| ==> After(w, a).db.quants[quant] == w.db.quants[quant]
  {
    if a.Proceed? && a.t in w.txs && w.txs[a.t].Alloc? && w.txs[a.t].pc.AtLine? {
      StagedApart(w, a.t, t, w.txs[a.t].staged, quant);
    }
  }

  predicate OwnStep(a: Action, t: nat) { a.Proceed? && a.t == t }

  function OwnSteps(schedule: seq<Action>, t: nat): nat {
    if schedule == [] then 0 else (if OwnStep(schedule[0], t) then 1 else 0) + OwnSteps(schedule[1..], t)
  }

  /** A count with its row held, `n` of its statements later: `fits` says whether the count covers what is reserved. */
  ghost predicate Counting(w: World, t: nat, quant: nat, counted: nat, fits: bool, n: nat) {
    && t in w.txs && w.txs[t].Count? && w.txs[t].quant == quant && w.txs[t].counted == counted
    && (n == 0 ==> w.txs[t].countPc == Recheck
                   && (fits <==> quant < |w.db.quants| && w.db.quants[quant].reserved <= counted))
    && (n == 1 ==> w.txs[t].countPc == if fits then Written else CountDone)
    && (n >= 2 ==> w.txs[t].countPc == CountDone)
  }

  lemma {:induction false} StepCounts(w: World, a: Action, t: nat, quant: nat, counted: nat, fits: bool, n: nat)
    requires Counting(w, t, quant, counted, fits, n) && TxOk(w, t, w.txs[t]) && a != Abort(t)
    requires a.t in w.txs ==> TxOk(w, a.t, w.txs[a.t])
    ensures Counting(After(w, a), t, quant, counted, fits, if OwnStep(a, t) then n + 1 else n)
  {
    if a.t != t {
      OthersStay(w, a, t);
      if n == 0 { HeldQuantStays(w, a, t, quant); }
    }
  }

  lemma {:induction false} RunCounts(db0: Tables, w: World, schedule: seq<Action>, t: nat, quant: nat, counted: nat,
                                     fits: bool, n: nat)
    requires Inv(db0, w) && Counting(w, t, quant, counted, fits, n) && Abort(t) !in schedule
    ensures Counting(Run(w, schedule), t, quant, counted, fits, n + OwnSteps(schedule, t))
    decreases |schedule|
  {
    if schedule != [] {
      var a := schedule[0];
      assert a in schedule && TxOk(w, t, w.txs[t]);
      StepCounts(w, a, t, quant, counted, fits, n);
      if Next(w, a).Some? { StepKeepsInv(db0, w, a); }
      RunCounts(db0, After(w, a), schedule[1..], t, quant, counted, fits, if OwnStep(a, t) then n + 1 else n);
    }
  }

  /** A count approval that holds its quant's row goes through whatever runs beside it, exactly when the count is not
      below what is reserved: its next statement but one writes the count. Otherwise it ends at once. */
  lemma {:induction false} ApprovalDecides(db0: Tables, w: World, schedule: seq<Action>, t: nat)
    requires Inv(db0, w) && t in w.txs && w.txs[t].Count? && w.txs[t].countPc == Recheck && Abort(t) !in schedule
    ensures var quant, counted, w1 := w.txs[t].quant, w.txs[t].counted, Run(w, schedule);
      var fits := quant < |w.db.quants| && w.db.quants[quant].reserved <= counted;
      && t in w1.txs && w1.txs[t].Count?
      && (OwnSteps(schedule, t) >= 2 ==> w1.txs[t].countPc == CountDone)
      && (OwnSteps(schedule, t) == 1 ==>
            if fits then w1.txs[t].countPc == Written && AtomicApproval(w1.db, quant, counted, After(w1, Proceed(t)).db)
            else w1.txs[t].countPc == CountDone)
  {
    var quant, counted, w1 := w.txs[t].quant, w.txs[t].counted, Run(w, schedule);
    var fits := quant < |w.db.quants| && w.db.quants[quant].reserved <= counted;
    RunCounts(db0, w, schedule, t, quant, counted, fits, 0);
    RunKeepsInv(db0, w, schedule);
    assert TxOk(w1, t, w1.txs[t]);
  }
}
