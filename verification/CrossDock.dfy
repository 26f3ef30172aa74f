/** Cross-dock matching and how good it is. */
module CrossDock {
  // Demands by priority are each filled from compatible inbound stock by earliest expiry, and that
  // greedy result is compared with the best possible plan.

  import opened Common
  import opened Sorting

  datatype Supply = Supply(inboundLineId: string, skuId: string, quantity: int,
    lotId: Option<string>, expiry: Option<int>)

  datatype Demand = Demand(outboundLineId: string, skuId: string, quantity: int,
    priority: Option<int>, lotId: Option<string>)

  datatype Opportunity = Opportunity(
    inboundLineId: string, outboundLineId: string, skuId: string, lotId: Option<string>, quantity: int, priority: int)

  /** A quantity moved from one supply to one demand, both by position in the input. */
  datatype Match = Match(supply: nat, demand: nat, quantity: int)

  /** `compareExpiry`: dated stock first, earliest first. */
  function CompareExpiry(left: Option<int>, right: Option<int>): int {
    if left.None? && right.None? then 0
    else if left.None? then 1
    else if right.None? then -1
    else left.value - right.value
  }

  function PriorityOf(d: Demand): int { if d.priority.Some? then d.priority.value else 0 }

  /** An absent or empty lot reference accepts any lot. */
  predicate NamesLot(d: Demand) { d.lotId.Some? && d.lotId.value != "" }

  predicate Compatible(s: Supply, d: Demand) { s.skuId == d.skuId && (!NamesLot(d) || s.lotId == d.lotId) }

  datatype Indexed<T> = Indexed(index: nat, item: T)

  /** Which of two supplies is drawn on first: the one that expires earlier, dated stock before undated, and
      the one listed first among equal expiries. */
  predicate UsedFirst(a: Indexed<Supply>, b: Indexed<Supply>) {
    || (a.item.expiry.Some? && (b.item.expiry == None || a.item.expiry.value < b.item.expiry.value))
    || (a.item.expiry == b.item.expiry && a.index < b.index)
  }

  /** Which of two demands is served first: the one of higher priority, where an absent priority counts as 0,
      and the one listed first among equal priorities. */
  predicate ServedFirst(a: Indexed<Demand>, b: Indexed<Demand>) {
    var pa := match a.item.priority case Some(p) => p case None => 0;
    var pb := match b.item.priority case Some(p) => p case None => 0;
    pa > pb || (pa == pb && a.index < b.index)
  }

  ghost predicate InOrder<T(!new)>(first: (Indexed<T>, Indexed<T>) -> bool, xs: seq<Indexed<T>>) {
    forall i, j :: 0 <= i < j < |xs| ==> first(xs[i], xs[j])
  }

  function ByExpiry(): (Indexed<Supply>, Indexed<Supply>) -> bool {
    (a: Indexed<Supply>, b: Indexed<Supply>) => CompareExpiry(a.item.expiry, b.item.expiry) <= 0
  }

  function ByPriority(): (Indexed<Demand>, Indexed<Demand>) -> bool {
    (a: Indexed<Demand>, b: Indexed<Demand>) => PriorityOf(b.item) - PriorityOf(a.item) <= 0
  }

  /** The positions from `first` on whose item is `wanted`, in input order. */
  function Select<T>(items: seq<T>, wanted: seq<bool>, first: nat): seq<Indexed<T>>
    requires first <= |items| == |wanted|
    decreases |items| - first
  {
    if first == |items| then []
    else (if wanted[first] then [Indexed(first, items[first])] else []) + Select(items, wanted, first + 1)
  }

  function Usable(supplies: seq<Supply>, remaining: seq<int>, d: Demand): seq<bool>
    requires |remaining| == |supplies|
  {
    seq(|supplies|, i requires 0 <= i < |supplies| => remaining[i] > 0 && Compatible(supplies[i], d))
  }

  function CandidateSupplies(supplies: seq<Supply>, remaining: seq<int>, d: Demand): seq<Indexed<Supply>>
    requires |remaining| == |supplies|
  {
    Sort(ByExpiry(), Select(supplies, Usable(supplies, remaining, d), 0))
  }

  function Positive(demands: seq<Demand>): seq<bool> {
    seq(|demands|, i requires 0 <= i < |demands| => demands[i].quantity > 0)
  }

  function RankedDemands(demands: seq<Demand>): seq<Indexed<Demand>> {
    Sort(ByPriority(), Select(demands, Positive(demands), 0))
  }

  /** The inner loop: what one demand takes, and what stock it leaves. */
  function Fill(cands: seq<Indexed<Supply>>, remaining: seq<int>, demand: nat, left: int): (seq<Match>, seq<int>)
    requires forall c :: c in cands ==> c.index < |remaining|
    decreases |cands|
  {
    if cands == [] || left <= 0 then ([], remaining)
    else
      var i := cands[0].index;
      var quantity := Min(left, remaining[i]);
      if quantity <= 0 then Fill(cands[1..], remaining, demand, left)
      else
        var (rest, after) := Fill(cands[1..], remaining[i := remaining[i] - quantity], demand, left - quantity);
        ([Match(i, demand, quantity)] + rest, after)
  }

  lemma {:induction false} InCons<T>(x: T, first: T, rest: seq<T>)
    ensures x in [first] + rest <==> x == first || x in rest
  {
  }

  lemma {:induction false} SelectMembers<T>(items: seq<T>, wanted: seq<bool>, first: nat, x: Indexed<T>)
    requires first <= |items| == |wanted|
    ensures x in Select(items, wanted, first) <==>
      first <= x.index < |items| && wanted[x.index] && x.item == items[x.index]
    decreases |items| - first
  {
    if first < |items| {
      SelectMembers(items, wanted, first + 1, x);
      if wanted[first] { InCons(x, Indexed(first, items[first]), Select(items, wanted, first + 1)); }
    }
  }

  ghost predicate Ascending<T>(xs: seq<Indexed<T>>) { forall i, j :: 0 <= i < j < |xs| ==> xs[i].index < xs[j].index }

  lemma {:induction false} AscendingFirst<T>(x: Indexed<T>, rest: seq<Indexed<T>>)
    requires Ascending(rest) && forall k :: 0 <= k < |rest| ==> x.index < rest[k].index
    ensures Ascending([x] + rest)
  {
  }

  lemma {:induction false} SelectOrdered<T>(items: seq<T>, wanted: seq<bool>, first: nat)
    requires first <= |items| == |wanted|
    ensures Ascending(Select(items, wanted, first))
    decreases |items| - first
  {
    if first < |items| {
      SelectOrdered(items, wanted, first + 1);
      if wanted[first] {
        var rest := Select(items, wanted, first + 1);
        forall k | 0 <= k < |rest| ensures first < rest[k].index { SelectMembers(items, wanted, first + 1, rest[k]); }
        AscendingFirst(Indexed(first, items[first]), rest);
      }
    }
  }

  ghost predicate DistinctIndexes<T>(xs: seq<Indexed<T>>) {
    forall i, j :: 0 <= i < j < |xs| ==> xs[i].index != xs[j].index
  }

  lemma {:induction false} SortedSelection<T(!new)>(le: (Indexed<T>, Indexed<T>) -> bool, items: seq<T>,
                                                          wanted: seq<bool>)
    requires TotalPreorder(le) && |items| == |wanted|
    ensures var xs := Sort(le, Select(items, wanted, 0));
      && (forall x :: x in xs <==> x.index < |items| && wanted[x.index] && x.item == items[x.index])
      && DistinctIndexes(xs) && SortedBy(le, xs)
      && (forall i, j :: 0 <= i < j < |xs| && le(xs[j], xs[i]) ==> xs[i].index < xs[j].index)
  {
    var picked := Select(items, wanted, 0);
    SelectOrdered(items, wanted, 0);
    var listed := (a: Indexed<T>, b: Indexed<T>) => a.index < b.index;
    SortKeepsTies(le, listed, picked);
    assert TiesKeep(le, listed, Sort(le, picked));
    SortCorrect(le, picked);
    forall x ensures x in Sort(le, picked) <==> x.index < |items| && wanted[x.index] && x.item == items[x.index] {
      SortMembers(le, picked, x);
      SelectMembers(items, wanted, 0, x);
    }
    SortDistinct(le, picked);
    var xs := Sort(le, picked);
    forall i, j | 0 <= i < j < |xs| ensures xs[i].index != xs[j].index {
      SelectMembers(items, wanted, 0, xs[i]);
      SelectMembers(items, wanted, 0, xs[j]);
      assert xs[i] in xs && xs[j] in xs && xs[i] != xs[j];
    }
  }

  lemma {:induction false} CandidatesListed(supplies: seq<Supply>, remaining: seq<int>, d: Demand)
    requires |remaining| == |supplies|
    ensures var cands := CandidateSupplies(supplies, remaining, d);
      && (forall c :: c in cands <==>
            c.index < |supplies| && remaining[c.index] > 0
                && Compatible(supplies[c.index], d) && c.item == supplies[c.index])
      && DistinctIndexes(cands)
  {
    assert TotalPreorder(ByExpiry());
    SortedSelection(ByExpiry(), supplies, Usable(supplies, remaining, d));
  }

  /** Candidates are exactly the supplies with stock left of the demand's SKU and, if it names one, its lot:
      each once, earliest expiry first. */
  lemma {:induction false} CandidatesCorrect(supplies: seq<Supply>, remaining: seq<int>, d: Demand)
    requires |remaining| == |supplies|
    ensures var cands := CandidateSupplies(supplies, remaining, d);
      && (forall c :: c in cands <==>
            && c.index < |supplies| && c.item == supplies[c.index] && remaining[c.index] > 0
            && c.item.skuId == d.skuId && (d.lotId == None || d.lotId.value == "" || c.item.lotId == d.lotId))
      && DistinctIndexes(cands) && InOrder(UsedFirst, cands)
  {
    assert TotalPreorder(ByExpiry());
    SortedSelection(ByExpiry(), supplies, Usable(supplies, remaining, d));
    var cands := CandidateSupplies(supplies, remaining, d);
    forall i, j | 0 <= i < j < |cands| ensures UsedFirst(cands[i], cands[j]) {
      assert ByExpiry()(cands[i], cands[j]);
    }
  }

  /** The demands served are exactly the positive ones, each once, highest priority first. */
  lemma {:induction false} RankingCorrect(demands: seq<Demand>)
    ensures var ranked := RankedDemands(demands);
      && (forall x :: x in ranked <==>
            x.index < |demands| && demands[x.index].quantity > 0 && x.item == demands[x.index])
      && DistinctIndexes(ranked) && InOrder(ServedFirst, ranked)
  {
    assert TotalPreorder(ByPriority());
    SortedSelection(ByPriority(), demands, Positive(demands));
    var ranked := RankedDemands(demands);
    forall i, j | 0 <= i < j < |ranked| ensures ServedFirst(ranked[i], ranked[j]) {
      assert ByPriority()(ranked[i], ranked[j]);
    }
  }

  /** One turn of the outer loop: what one demand takes, and the stock it leaves. */
  function Serve(supplies: seq<Supply>, remaining: seq<int>, x: Indexed<Demand>): (r: (seq<Match>, seq<int>))
    requires |remaining| == |supplies|
    ensures |r.1| == |supplies|
  {
    CandidatesListed(supplies, remaining, x.item);
    var cands := CandidateSupplies(supplies, remaining, x.item);
    FillCorrect(cands, remaining, x.index, x.item.quantity);
    Fill(cands, remaining, x.index, x.item.quantity)
  }

  /** The outer loop over the ranked demands. */
  function MatchDemands(supplies: seq<Supply>, ranked: seq<Indexed<Demand>>, remaining: seq<int>): seq<Match>
    requires |remaining| == |supplies|
    decreases |ranked|
  {
    if ranked == [] then []
    else
      var (taken, after) := Serve(supplies, remaining, ranked[0]);
      taken + MatchDemands(supplies, ranked[1..], after)
  }

  function Quantities(supplies: seq<Supply>): seq<int> {
    seq(|supplies|, i requires 0 <= i < |supplies| => supplies[i].quantity)
  }

  function Detect(supplies: seq<Supply>, demands: seq<Demand>): seq<Match> {
    MatchDemands(supplies, RankedDemands(demands), Quantities(supplies))
  }

  function OpportunityOf(s: Supply, d: Demand, quantity: int): Opportunity {
    Opportunity(s.inboundLineId, d.outboundLineId, d.skuId, s.lotId, quantity, PriorityOf(d))
  }

  function Report(supplies: seq<Supply>, demands: seq<Demand>, matches: seq<Match>): seq<Opportunity>
    requires forall m :: m in matches ==> m.supply < |supplies| && m.demand < |demands|
  {
    seq(|matches|, k requires 0 <= k < |matches| =>
      OpportunityOf(supplies[matches[k].supply], demands[matches[k].demand], matches[k].quantity))
  }

  // ---------------------------------------------------------------- plans

  function Supplied(plan: seq<Match>, s: nat): int {
    if plan == [] then 0 else (if plan[0].supply == s then plan[0].quantity else 0) + Supplied(plan[1..], s)
  }

  function Delivered(plan: seq<Match>, d: nat): int {
    if plan == [] then 0 else (if plan[0].demand == d then plan[0].quantity else 0) + Delivered(plan[1..], d)
  }

  function Total(plan: seq<Match>): int { if plan == [] then 0 else plan[0].quantity + Total(plan[1..]) }

  /** A match joins a compatible pair and moves something. */
  predicate Sound(supplies: seq<Supply>, demands: seq<Demand>, m: Match) {
    && m.supply < |supplies| && m.demand < |demands| && m.quantity > 0
    && Compatible(supplies[m.supply], demands[m.demand])
  }

  /** A plan that respects SKU and lot compatibility and every supply and demand quantity. */
  ghost predicate Feasible(supplies: seq<Supply>, demands: seq<Demand>, plan: seq<Match>) {
    && (forall m :: m in plan ==> Sound(supplies, demands, m))
    && (forall s :: 0 <= s < |supplies| ==> Supplied(plan, s) <= Max(supplies[s].quantity, 0))
    && (forall d :: 0 <= d < |demands| ==> Delivered(plan, d) <= Max(demands[d].quantity, 0))
  }

  /** No compatible pair has both stock and need left. */
  ghost predicate Maximal(supplies: seq<Supply>, demands: seq<Demand>, plan: seq<Match>) {
    forall s, d :: 0 <= s < |supplies| && 0 <= d < |demands| && Compatible(supplies[s], demands[d]) ==>
      Supplied(plan, s) >= supplies[s].quantity || Delivered(plan, d) >= demands[d].quantity
  }

  lemma {:induction false} PlanConcat(a: seq<Match>, b: seq<Match>, i: nat)
    ensures Supplied(a + b, i) == Supplied(a, i) + Supplied(b, i)
    ensures Delivered(a + b, i) == Delivered(a, i) + Delivered(b, i)
    ensures Total(a + b) == Total(a) + Total(b)
  {
    if a == [] { assert a + b == b; }
    else { assert (a + b)[1..] == a[1..] + b; PlanConcat(a[1..], b, i); }
  }

  ghost predicate Moves(plan: seq<Match>) { forall m :: m in plan ==> m.quantity > 0 }

  /** A part that only moves positive quantities is used iff some match names it. */
  lemma {:induction false} PlanSigns(plan: seq<Match>, i: nat)
    requires Moves(plan)
    ensures Supplied(plan, i) >= 0 && Delivered(plan, i) >= 0 && Total(plan) >= 0
    ensures Supplied(plan, i) > 0 <==> exists m :: m in plan && m.supply == i
    ensures Delivered(plan, i) > 0 <==> exists m :: m in plan && m.demand == i
  {
    if plan != [] {
      assert plan[0] in plan && forall m :: m in plan <==> m == plan[0] || m in plan[1..];
      PlanSigns(plan[1..], i);
    }
  }

  lemma {:induction false} OneDemand(plan: seq<Match>, d: nat)
    requires forall m :: m in plan ==> m.demand == d
    ensures Delivered(plan, d) == Total(plan)
  {
    if plan != [] { assert plan[0] in plan; OneDemand(plan[1..], d); }
  }

  // ---------------------------------------------------------------- one demand

  ghost predicate Among<T>(xs: seq<Indexed<T>>, i: nat) { exists x :: x in xs && x.index == i }

  /** Candidates with stock, each listed once. */
  ghost predicate Stocked(cands: seq<Indexed<Supply>>, remaining: seq<int>) {
    && (forall c :: c in cands ==> c.index < |remaining| && remaining[c.index] > 0)
    && DistinctIndexes(cands)
  }

  ghost predicate Drawn(remaining: seq<int>, taken: seq<Match>, after: seq<int>) {
    && |after| == |remaining|
    && (forall s :: 0 <= s < |remaining| ==>
          && after[s] == remaining[s] - Supplied(taken, s) && Supplied(taken, s) >= 0
          && (remaining[s] >= 0 ==> after[s] >= 0)
          && (Supplied(taken, s) > 0 ==> remaining[s] > 0))
  }

  ghost predicate Filled(cands: seq<Indexed<Supply>>, remaining: seq<int>, demand: nat, left: int,
                         taken: seq<Match>, after: seq<int>)
    requires forall c :: c in cands ==> c.index < |remaining|
  {
    && (forall m :: m in taken ==> m.demand == demand && m.quantity > 0 && Among(cands, m.supply))
    && Drawn(remaining, taken, after)
    && 0 <= Total(taken) <= Max(left, 0)
    && (Total(taken) >= left || forall c :: c in cands ==> after[c.index] == 0)
    && (forall j, k :: 0 <= j < k < |cands| && Supplied(taken, cands[k].index) > 0 ==> after[cands[j].index] == 0)
  }

  lemma {:induction false} StockedTail(cands: seq<Indexed<Supply>>, remaining: seq<int>, x: int)
    requires cands != [] && Stocked(cands, remaining)
    ensures Stocked(cands[1..], remaining[cands[0].index := x])
  {
    forall c | c in cands[1..] ensures c in cands && c.index != cands[0].index {
      var k :| 0 <= k < |cands[1..]| && cands[1..][k] == c;
      assert cands[k + 1] == c;
    }
  }

  lemma {:induction false} FillCorrect(cands: seq<Indexed<Supply>>, remaining: seq<int>, demand: nat, left: int)
    requires Stocked(cands, remaining)
    ensures Filled(cands, remaining, demand, left, Fill(cands, remaining, demand, left).0,
                   Fill(cands, remaining, demand, left).1)
    decreases |cands|
  {
    if cands != [] && left > 0 {
      var i := cands[0].index;
      assert cands[0] in cands;
      var quantity := Min(left, remaining[i]);
      var remaining' := remaining[i := remaining[i] - quantity];
      StockedTail(cands, remaining, remaining[i] - quantity);
      FillCorrect(cands[1..], remaining', demand, left - quantity);
      FillStep(cands, remaining, demand, left, Fill(cands[1..], remaining', demand, left - quantity).0,
               Fill(cands[1..], remaining', demand, left - quantity).1);
    }
  }

  lemma {:induction false} FirstAmong(cands: seq<Indexed<Supply>>, first: Match, rest: seq<Match>, m: Match)
    requires cands != [] && first.supply == cands[0].index && m in [first] + rest
    requires m in rest ==> Among(cands[1..], m.supply)
    ensures Among(cands, m.supply)
  {
    if m in rest {
      var c :| c in cands[1..] && c.index == m.supply;
      assert c in cands;
    } else {
      assert cands[0] in cands;
    }
  }

  lemma {:induction false} DrawnFirst(remaining: seq<int>, first: Match, rest: seq<Match>, after: seq<int>)
    requires first.supply < |remaining| && 0 < first.quantity <= remaining[first.supply]
    requires Drawn(remaining[first.supply := remaining[first.supply] - first.quantity], rest, after)
    ensures Drawn(remaining, [first] + rest, after)
  {
    assert ([first] + rest)[1..] == rest;
  }

  lemma {:induction false} DrainedInOrder(cands: seq<Indexed<Supply>>, left: int, first: Match, rest: seq<Match>,
                                          after: seq<int>, j: nat, k: nat)
    requires j < k < |cands| && DistinctIndexes(cands) && first.supply == cands[0].index
    requires forall c :: c in cands ==> c.index < |after|
    requires Moves(rest) && Total(rest) <= left - first.quantity
      && (first.quantity < left ==> after[cands[0].index] == 0)
    requires Supplied(rest, cands[k].index) > 0 && j > 0 ==> after[cands[j].index] == 0
    requires Supplied([first] + rest, cands[k].index) > 0
    ensures after[cands[j].index] == 0
  {
    assert ([first] + rest)[1..] == rest;
    if j == 0 {
      if first.quantity >= left { EmptyWhenTotalZero(rest); }
    }
  }

  lemma {:induction false} FillStep(cands: seq<Indexed<Supply>>, remaining: seq<int>, demand: nat, left: int,
                 rest: seq<Match>, after: seq<int>)
    requires cands != [] && left > 0 && Stocked(cands, remaining)
    requires var i := cands[0].index; var quantity := Min(left, remaining[i]);
      Filled(cands[1..], remaining[i := remaining[i] - quantity], demand, left - quantity, rest, after)
    ensures var i := cands[0].index; var quantity := Min(left, remaining[i]);
      Filled(cands, remaining, demand, left, [Match(i, demand, quantity)] + rest, after)
  {
    var i := cands[0].index;
    assert cands[0] in cands;
    var quantity := Min(left, remaining[i]);
    var first := Match(i, demand, quantity);
    var taken := [first] + rest;
    assert taken[1..] == rest && Total(taken) == quantity + Total(rest);
    DrawnFirst(remaining, first, rest, after);
    forall m | m in taken
      ensures m.demand == demand && m.quantity > 0 && Among(cands, m.supply)
    {
      FirstAmong(cands, first, rest, m);
    }
    FirstEmptied(remaining, first, rest, after);
    forall j, k | 0 <= j < k < |cands| && Supplied(taken, cands[k].index) > 0 ensures after[cands[j].index] == 0 {
      assert cands[k] == cands[1..][k - 1] && (j > 0 ==> cands[j] == cands[1..][j - 1]);
      DrainedInOrder(cands, left, first, rest, after, j, k);
    }
    forall c | c in cands && Total(taken) < left ensures after[c.index] == 0 {
      if c != cands[0] { assert c in cands[1..]; }
    }
  }

  /** A candidate taken whole keeps nothing, and nothing more is drawn from it. */
  lemma {:induction false} FirstEmptied(remaining: seq<int>, first: Match, rest: seq<Match>, after: seq<int>)
    requires first.supply < |remaining|
    requires Drawn(remaining[first.supply := remaining[first.supply] - first.quantity], rest, after)
    ensures first.quantity == remaining[first.supply] ==> after[first.supply] == 0
  {
  }

  lemma {:induction false} EmptyWhenTotalZero(plan: seq<Match>)
    requires Moves(plan) && Total(plan) <= 0
    ensures plan == []
  {
    if plan != [] { assert plan[0] in plan; PlanSigns(plan[1..], 0); }
  }

  ghost predicate Served(supplies: seq<Supply>, remaining: seq<int>, x: Indexed<Demand>, taken: seq<Match>,
                         after: seq<int>)
  {
    && |after| == |remaining| == |supplies|
    && (forall m :: m in taken ==>
          && m.demand == x.index && m.quantity > 0
          && m.supply < |supplies| && Compatible(supplies[m.supply], x.item))
    && Drawn(remaining, taken, after)
    && 0 <= Total(taken) <= Max(x.item.quantity, 0)
    && (Total(taken) >= x.item.quantity ||
        forall s :: 0 <= s < |supplies| && Compatible(supplies[s], x.item) ==> after[s] <= 0)
  }

  /** A demand takes stock only from compatible supplies, and stops short only when they are empty. */
  lemma {:induction false} ServeCorrect(supplies: seq<Supply>, remaining: seq<int>, x: Indexed<Demand>)
    requires |remaining| == |supplies|
    ensures Served(supplies, remaining, x, Serve(supplies, remaining, x).0, Serve(supplies, remaining, x).1)
  {
    CandidatesListed(supplies, remaining, x.item);
    var cands := CandidateSupplies(supplies, remaining, x.item);
    FillCorrect(cands, remaining, x.index, x.item.quantity);
    var (taken, after) := Serve(supplies, remaining, x);
    if Total(taken) < x.item.quantity {
      forall s | 0 <= s < |supplies| && Compatible(supplies[s], x.item) ensures after[s] <= 0 {
        if remaining[s] > 0 { assert Indexed(s, supplies[s]) in cands; }
      }
    }
  }

  /** Stock is taken by earliest expiry: while `s` has compatible stock left, nothing later is used. */
  lemma {:induction false} ServeInExpiryOrder(supplies: seq<Supply>, remaining: seq<int>, x: Indexed<Demand>, s: nat,
                                              t: nat)
    requires |remaining| == |supplies| && s < |supplies| && t < |supplies|
    requires Compatible(supplies[s], x.item) && UsedFirst(Indexed(s, supplies[s]), Indexed(t, supplies[t]))
    requires Supplied(Serve(supplies, remaining, x).0, t) > 0
    ensures Serve(supplies, remaining, x).1[s] <= 0
  {
    CandidatesCorrect(supplies, remaining, x.item);
    var cands := CandidateSupplies(supplies, remaining, x.item);
    FillCorrect(cands, remaining, x.index, x.item.quantity);
    var (taken, after) := Serve(supplies, remaining, x);
    if remaining[s] > 0 {
      PlanSigns(taken, t);
      var m :| m in taken && m.supply == t;
      var c :| c in cands && c.index == m.supply;
      FilledInOrder(cands, remaining, x.index, x.item.quantity, taken, after, Indexed(s, supplies[s]), c);
    }
  }

  lemma {:induction false} FilledInOrder(cands: seq<Indexed<Supply>>, remaining: seq<int>, demand: nat, left: int,
                      taken: seq<Match>, after: seq<int>, b: Indexed<Supply>, c: Indexed<Supply>)
    requires Stocked(cands, remaining) && InOrder(UsedFirst, cands)
    requires Filled(cands, remaining, demand, left, taken, after)
    requires b in cands && c in cands && UsedFirst(b, c)
    requires Supplied(taken, c.index) > 0
    ensures after[b.index] == 0
  {
    var j :| 0 <= j < |cands| && cands[j] == b;
    var k :| 0 <= k < |cands| && cands[k] == c;
    assert k < j ==> UsedFirst(c, b);
  }

  // ---------------------------------------------------------------- the whole matching

  ghost predicate Ranked(demands: seq<Demand>, ranked: seq<Indexed<Demand>>) {
    && (forall x :: x in ranked ==> x.index < |demands| && x.item == demands[x.index] && x.item.quantity > 0)
    && DistinctIndexes(ranked)
  }

  lemma {:induction false} RankedTail(demands: seq<Demand>, ranked: seq<Indexed<Demand>>)
    requires ranked != [] && Ranked(demands, ranked)
    ensures Ranked(demands, ranked[1..]) && !Among(ranked[1..], ranked[0].index)
  {
    var rest := ranked[1..];
    forall x | x in rest ensures x in ranked && x.index != ranked[0].index {
      var k :| 0 <= k < |rest| && rest[k] == x;
      assert ranked[k + 1] == x;
    }
  }

  /** What matching the demands of `ranked` against `remaining` stock promises. */
  ghost predicate Matched(supplies: seq<Supply>, demands: seq<Demand>, ranked: seq<Indexed<Demand>>,
                          remaining: seq<int>, plan: seq<Match>) {
    && |remaining| == |supplies|
    && (forall m :: m in plan ==> Sound(supplies, demands, m) && Among(ranked, m.demand))
    && (forall s :: 0 <= s < |supplies| ==> 0 <= Supplied(plan, s) <= Max(remaining[s], 0))
    && (forall x :: x in ranked ==> Delivered(plan, x.index) <= x.item.quantity)
    && (forall s, x :: 0 <= s < |supplies| && x in ranked && Compatible(supplies[s], x.item) ==>
          Supplied(plan, s) >= remaining[s] || Delivered(plan, x.index) >= x.item.quantity)
  }

  lemma {:induction false} MatchedStep(supplies: seq<Supply>, demands: seq<Demand>, ranked: seq<Indexed<Demand>>,
                    remaining: seq<int>, taken: seq<Match>, after: seq<int>, rest: seq<Match>)
    requires ranked != [] && Ranked(demands, ranked)
    requires Served(supplies, remaining, ranked[0], taken, after)
    requires Matched(supplies, demands, ranked[1..], after, rest)
    ensures Matched(supplies, demands, ranked, remaining, taken + rest)
  {
    var x := ranked[0];
    var plan := taken + rest;
    RankedTail(demands, ranked);
    assert x in ranked && forall y :: y in ranked <==> y == x || y in ranked[1..];
    forall m | m in plan ensures Sound(supplies, demands, m) && Among(ranked, m.demand) {
      if m in rest { var y :| y in ranked[1..] && y.index == m.demand; assert y in ranked; }
    }
    forall s | 0 <= s < |supplies| ensures Supplied(plan, s) == Supplied(taken, s) + Supplied(rest, s) {
      PlanConcat(taken, rest, s);
    }
    PlanConcat(taken, rest, x.index);
    OneDemand(taken, x.index);
    PlanSigns(rest, x.index);
    forall y | y in ranked[1..] ensures Delivered(plan, y.index) == Delivered(rest, y.index) {
      PlanConcat(taken, rest, y.index);
      PlanSigns(taken, y.index);
    }
  }

  lemma {:induction false} MatchDemandsCorrect(supplies: seq<Supply>, demands: seq<Demand>,
                                               ranked: seq<Indexed<Demand>>, remaining: seq<int>)
    requires |remaining| == |supplies| && Ranked(demands, ranked)
    ensures Matched(supplies, demands, ranked, remaining, MatchDemands(supplies, ranked, remaining))
    decreases |ranked|
  {
    if ranked != [] {
      var (taken, after) := Serve(supplies, remaining, ranked[0]);
      ServeCorrect(supplies, remaining, ranked[0]);
      RankedTail(demands, ranked);
      MatchDemandsCorrect(supplies, demands, ranked[1..], after);
      MatchedStep(supplies, demands, ranked, remaining, taken, after, MatchDemands(supplies, ranked[1..], after));
    }
  }

  lemma {:induction false} DetectMatched(supplies: seq<Supply>, demands: seq<Demand>)
    ensures Ranked(demands, RankedDemands(demands))
    ensures Matched(supplies, demands, RankedDemands(demands), Quantities(supplies), Detect(supplies, demands))
  {
    RankingCorrect(demands);
    MatchDemandsCorrect(supplies, demands, RankedDemands(demands), Quantities(supplies));
  }

  /** The reported plan is feasible, and no compatible pair is left with both stock and need. */
  lemma {:induction false} DetectFeasible(supplies: seq<Supply>, demands: seq<Demand>)
    ensures Feasible(supplies, demands, Detect(supplies, demands))
    ensures Maximal(supplies, demands, Detect(supplies, demands))
    ensures forall s, d :: 0 <= s < |supplies| && 0 <= d < |demands| ==>
      || supplies[s].skuId != demands[d].skuId
      || (demands[d].lotId.Some? && demands[d].lotId.value != "" && supplies[s].lotId != demands[d].lotId)
      || Supplied(Detect(supplies, demands), s) >= supplies[s].quantity
      || Delivered(Detect(supplies, demands), d) >= demands[d].quantity
  {
    RankingCorrect(demands);
    DetectMatched(supplies, demands);
    var plan := Detect(supplies, demands);
    var ranked := RankedDemands(demands);
    forall d | 0 <= d < |demands|
      ensures Delivered(plan, d) <= Max(demands[d].quantity, 0)
      ensures demands[d].quantity > 0 ==> Indexed(d, demands[d]) in ranked
      ensures Delivered(plan, d) >= 0
    {
      PlanSigns(plan, d);
      if demands[d].quantity > 0 { assert Indexed(d, demands[d]) in ranked; }
    }
    forall s, d | 0 <= s < |supplies| && 0 <= d < |demands| && Compatible(supplies[s], demands[d])
      ensures Supplied(plan, s) >= supplies[s].quantity || Delivered(plan, d) >= demands[d].quantity
    {
      if demands[d].quantity > 0 { var x := Indexed(d, demands[d]); assert x in ranked; }
    }
  }

  lemma {:induction false} EarlierFirst(supplies: seq<Supply>, demands: seq<Demand>, ranked: seq<Indexed<Demand>>,
                                        remaining: seq<int>, m: Match, s: nat)
    requires |remaining| == |supplies| && Ranked(demands, ranked) && s < |supplies|
    requires m in MatchDemands(supplies, ranked, remaining) && m.supply < |supplies| && m.demand < |demands|
    requires Compatible(supplies[s], demands[m.demand])
    requires UsedFirst(Indexed(s, supplies[s]), Indexed(m.supply, supplies[m.supply]))
    ensures Supplied(MatchDemands(supplies, ranked, remaining), s) >= remaining[s]
    decreases |ranked|
  {
    var (taken, after) := Serve(supplies, remaining, ranked[0]);
    var rest := MatchDemands(supplies, ranked[1..], after);
    ServeCorrect(supplies, remaining, ranked[0]);
    RankedTail(demands, ranked);
    MatchDemandsCorrect(supplies, demands, ranked[1..], after);
    PlanConcat(taken, rest, s);
    if m in taken {
      assert ranked[0] in ranked;
      PlanSigns(taken, m.supply);
      ServeInExpiryOrder(supplies, remaining, ranked[0], s, m.supply);
    } else {
      EarlierFirst(supplies, demands, ranked[1..], after, m, s);
    }
  }

  /** First-expiry-first: a match uses a supply only if every compatible supply that expires strictly earlier,
      or equally early and is listed before it, is used up by the plan. */
  lemma {:induction false} ExpiryRespected(supplies: seq<Supply>, demands: seq<Demand>, m: Match, s: nat)
    requires m in Detect(supplies, demands) && s < |supplies| && m.supply < |supplies| && m.demand < |demands|
    requires Compatible(supplies[s], demands[m.demand])
    requires var (early, late) := (supplies[s].expiry, supplies[m.supply].expiry);
      || (early.Some? && (late.None? || early.value < late.value))
      || (early == late && s < m.supply)
    ensures Supplied(Detect(supplies, demands), s) >= supplies[s].quantity
  {
    DetectMatched(supplies, demands);
    EarlierFirst(supplies, demands, RankedDemands(demands), Quantities(supplies), m, s);
  }

  /** While the first demand goes short, later ones find no stock it could have used. */
  lemma {:induction false} HeadFirst(supplies: seq<Supply>, demands: seq<Demand>, ranked: seq<Indexed<Demand>>,
                                     remaining: seq<int>,
                  taken: seq<Match>, after: seq<int>, rest: seq<Match>, m: Match, j: nat)
    requires 0 < j < |ranked| && Ranked(demands, ranked)
    requires Served(supplies, remaining, ranked[0], taken, after)
    requires Matched(supplies, demands, ranked[1..], after, rest)
    requires m in taken + rest && m.supply < |supplies| && m.demand == ranked[j].index
    requires Compatible(supplies[m.supply], ranked[0].item)
    ensures Delivered(taken + rest, ranked[0].index) >= ranked[0].item.quantity
  {
    assert ranked[0].index != ranked[j].index;
    assert m in rest;
    PlanSigns(rest, m.supply);
    PlanConcat(taken, rest, ranked[0].index);
    PlanSigns(rest, ranked[0].index);
    OneDemand(taken, ranked[0].index);
  }

  /** What the first demand takes is for the first demand only. */
  lemma {:induction false} NotTaken(supplies: seq<Supply>, remaining: seq<int>, ranked: seq<Indexed<Demand>>,
                                    taken: seq<Match>, after: seq<int>, m: Match, j: nat)
    requires 0 < j < |ranked| && DistinctIndexes(ranked) && Served(supplies, remaining, ranked[0], taken, after)
    requires m.demand == ranked[j].index
    ensures m !in taken
  {
    assert ranked[0].index != ranked[j].index;
  }

  lemma {:induction false} RankFirst(supplies: seq<Supply>, demands: seq<Demand>, ranked: seq<Indexed<Demand>>,
                                     remaining: seq<int>, m: Match, i: nat, j: nat)
    requires |remaining| == |supplies| && Ranked(demands, ranked) && i < j < |ranked|
    requires m in MatchDemands(supplies, ranked, remaining) && m.supply < |supplies| && m.demand == ranked[j].index
    requires Compatible(supplies[m.supply], ranked[i].item)
    ensures Delivered(MatchDemands(supplies, ranked, remaining), ranked[i].index) >= ranked[i].item.quantity
    decreases |ranked|
  {
    var (taken, after) := Serve(supplies, remaining, ranked[0]);
    var rest := MatchDemands(supplies, ranked[1..], after);
    ServeCorrect(supplies, remaining, ranked[0]);
    RankedTail(demands, ranked);
    MatchDemandsCorrect(supplies, demands, ranked[1..], after);
    if i == 0 {
      HeadFirst(supplies, demands, ranked, remaining, taken, after, rest, m, j);
    } else {
      assert ranked[i] == ranked[1..][i - 1] && ranked[j] == ranked[1..][j - 1];
      NotTaken(supplies, remaining, ranked, taken, after, m, j);
      RankFirst(supplies, demands, ranked[1..], after, m, i - 1, j - 1);
      PlanConcat(taken, rest, ranked[i].index);
      PlanSigns(taken, ranked[i].index);
    }
  }

  lemma {:induction false} RanksByPriority(demands: seq<Demand>, d: nat, e: nat) returns (i: nat, j: nat)
    requires d < |demands| && e < |demands| && demands[d].quantity > 0 && demands[e].quantity > 0
    requires ServedFirst(Indexed(d, demands[d]), Indexed(e, demands[e]))
    ensures i < j < |RankedDemands(demands)|
    ensures RankedDemands(demands)[i] == Indexed(d, demands[d]) && RankedDemands(demands)[j] == Indexed(e, demands[e])
  {
    RankingCorrect(demands);
    var ranked := RankedDemands(demands);
    var x, y := Indexed(d, demands[d]), Indexed(e, demands[e]);
    assert x in ranked && y in ranked;
    i :| 0 <= i < |ranked| && ranked[i] == x;
    j :| 0 <= j < |ranked| && ranked[j] == y;
    assert j < i ==> ServedFirst(y, x);
  }

  /** Highest priority first: while a demand of strictly higher priority, or of equal priority and listed
      before, goes short, no stock it could use goes to another demand. */
  lemma {:induction false} PriorityRespected(supplies: seq<Supply>, demands: seq<Demand>, m: Match, d: nat)
    requires m in Detect(supplies, demands) && d < |demands| && m.supply < |supplies| && m.demand < |demands|
    requires Compatible(supplies[m.supply], demands[d])
    requires ServedFirst(Indexed(d, demands[d]), Indexed(m.demand, demands[m.demand]))
    ensures Delivered(Detect(supplies, demands), d) >= demands[d].quantity
  {
    DetectMatched(supplies, demands);
    var plan, ranked := Detect(supplies, demands), RankedDemands(demands);
    forall k | k in plan ensures k.quantity > 0 { assert Sound(supplies, demands, k); }
    PlanSigns(plan, d);
    if demands[d].quantity > 0 {
      var y :| y in ranked && y.index == m.demand;
      var i, j := RanksByPriority(demands, d, m.demand);
      RankFirst(supplies, demands, ranked, Quantities(supplies), m, i, j);
    }
  }

  // ---------------------------------------------------------------- how good the matching is

  /** The matches whose supply is marked `keep`. */
  function Part(plan: seq<Match>, marked: seq<bool>, keep: bool): seq<Match> {
    if plan == [] then []
    else
      (if plan[0].supply < |marked| && marked[plan[0].supply] == keep then [plan[0]] else [])
      + Part(plan[1..], marked, keep)
  }

  lemma {:induction false} PartMembers(plan: seq<Match>, marked: seq<bool>, keep: bool, m: Match)
    ensures m in Part(plan, marked, keep) <==> m in plan && m.supply < |marked| && marked[m.supply] == keep
  {
    if plan != [] { PartMembers(plan[1..], marked, keep, m); }
  }

  lemma {:induction false} PartSums(plan: seq<Match>, marked: seq<bool>, keep: bool, i: nat)
    requires Moves(plan)
    ensures i < |marked| ==> Supplied(Part(plan, marked, keep), i) == if marked[i] == keep then Supplied(plan, i) else 0
    ensures 0 <= Delivered(Part(plan, marked, keep), i) <= Delivered(plan, i)
  {
    if plan != [] {
      assert plan[0] in plan;
      var head := if plan[0].supply < |marked| && marked[plan[0].supply] == keep then [plan[0]] else [];
      PartSums(plan[1..], marked, keep, i);
      PlanConcat(head, Part(plan[1..], marked, keep), i);
    }
  }

  lemma {:induction false} PartsTotal(plan: seq<Match>, marked: seq<bool>)
    requires forall m :: m in plan ==> m.supply < |marked|
    ensures Total(plan) == Total(Part(plan, marked, true)) + Total(Part(plan, marked, false))
  {
    if plan != [] {
      assert plan[0] in plan;
      PartsTotal(plan[1..], marked);
      var head := [plan[0]];
      PlanConcat(if marked[plan[0].supply] then head else [], Part(plan[1..], marked, true), 0);
      PlanConcat(if marked[plan[0].supply] then [] else head, Part(plan[1..], marked, false), 0);
    }
  }

  function SuppliedUpTo(plan: seq<Match>, n: nat): int {
    if n == 0 then 0 else SuppliedUpTo(plan, n - 1) + Supplied(plan, n - 1)
  }

  lemma {:induction false} SuppliedHead(plan: seq<Match>, n: nat)
    requires plan != []
    ensures SuppliedUpTo(plan, n) == SuppliedUpTo(plan[1..], n) + if plan[0].supply < n then plan[0].quantity else 0
  {
    if n > 0 { SuppliedHead(plan, n - 1); }
  }

  /** Conservation: what a plan moves is what its supplies give. */
  lemma {:induction false} TotalIsSupplied(plan: seq<Match>, n: nat)
    requires forall m :: m in plan ==> m.supply < n
    ensures Total(plan) == SuppliedUpTo(plan, n)
  {
    if plan == [] { NothingSupplied(n); }
    else { assert plan[0] in plan; SuppliedHead(plan, n); TotalIsSupplied(plan[1..], n); }
  }

  lemma {:induction false} NothingSupplied(n: nat)
    ensures SuppliedUpTo([], n) == 0
  {
    if n > 0 { NothingSupplied(n - 1); }
  }

  lemma {:induction false} Dominated(p: seq<Match>, g: seq<Match>, n: nat)
    requires forall s :: 0 <= s < n ==> Supplied(p, s) <= Supplied(g, s)
    ensures SuppliedUpTo(p, n) <= SuppliedUpTo(g, n)
  {
    if n > 0 { Dominated(p, g, n - 1); }
  }

  /** The same plan seen from the other side. */
  function Mirror(plan: seq<Match>): seq<Match> {
    if plan == [] then [] else [Match(plan[0].demand, plan[0].supply, plan[0].quantity)] + Mirror(plan[1..])
  }

  lemma {:induction false} MirrorSums(plan: seq<Match>, i: nat)
    ensures Supplied(Mirror(plan), i) == Delivered(plan, i)
    ensures Total(Mirror(plan)) == Total(plan)
  {
    if plan != [] { MirrorSums(plan[1..], i); }
  }

  lemma {:induction false} MirrorMembers(plan: seq<Match>, n: nat)
    requires forall m :: m in plan ==> m.demand < n
    ensures forall m :: m in Mirror(plan) ==> m.supply < n
  {
    if plan != [] { assert plan[0] in plan; MirrorMembers(plan[1..], n); }
  }

  lemma {:induction false} SupplySideBound(p: seq<Match>, g: seq<Match>, n: nat)
    requires forall m :: m in p + g ==> m.supply < n
    requires forall s :: 0 <= s < n ==> Supplied(p, s) <= Supplied(g, s)
    ensures Total(p) <= Total(g)
  {
    forall m | m in p ensures m.supply < n { assert m in p + g; }
    forall m | m in g ensures m.supply < n { assert m in p + g; }
    TotalIsSupplied(p, n);
    TotalIsSupplied(g, n);
    Dominated(p, g, n);
  }

  lemma {:induction false} DemandSideBound(p: seq<Match>, g: seq<Match>, n: nat)
    requires forall m :: m in p + g ==> m.demand < n
    requires forall d :: 0 <= d < n ==> Delivered(p, d) <= Delivered(g, d)
    ensures Total(p) <= Total(g)
  {
    forall m | m in p ensures m.demand < n { assert m in p + g; }
    forall m | m in g ensures m.demand < n { assert m in p + g; }
    MirrorMembers(p, n);
    MirrorMembers(g, n);
    forall d | 0 <= d < n
      ensures Supplied(Mirror(p), d) <= Supplied(Mirror(g), d)
    {
      MirrorSums(p, d);
      MirrorSums(g, d);
    }
    MirrorSums(p, 0);
    MirrorSums(g, 0);
    SupplySideBound(Mirror(p), Mirror(g), n);
  }

  function UsedUp(supplies: seq<Supply>, plan: seq<Match>): seq<bool> {
    seq(|supplies|, s requires 0 <= s < |supplies| => Supplied(plan, s) >= supplies[s].quantity)
  }

  lemma {:induction false} UsedUpPart(supplies: seq<Supply>, demands: seq<Demand>, p: seq<Match>, g: seq<Match>)
    requires Feasible(supplies, demands, p) && Feasible(supplies, demands, g)
    ensures Total(Part(p, UsedUp(supplies, g), true)) <= Total(g)
  {
    var used := UsedUp(supplies, g);
    var part := Part(p, used, true);
    forall m | m in part + g ensures m.supply < |supplies| { PartMembers(p, used, true, m); }
    forall s | 0 <= s < |supplies| ensures Supplied(part, s) <= Supplied(g, s) {
      PartSums(p, used, true, s);
      PlanSigns(g, s);
    }
    SupplySideBound(part, g, |supplies|);
  }

  lemma {:induction false} LeftOverPart(supplies: seq<Supply>, demands: seq<Demand>, p: seq<Match>, g: seq<Match>)
    requires Feasible(supplies, demands, p) && Feasible(supplies, demands, g) && Maximal(supplies, demands, g)
    ensures Total(Part(p, UsedUp(supplies, g), false)) <= Total(g)
  {
    var used := UsedUp(supplies, g);
    var part := Part(p, used, false);
    forall m | m in part ensures m in p && !used[m.supply] { PartMembers(p, used, false, m); }
    forall m | m in part + g ensures m.demand < |demands| { assert m in part || m in g; }
    forall d | 0 <= d < |demands| ensures Delivered(part, d) <= Delivered(g, d) {
      PartSums(p, used, false, d);
      PlanSigns(g, d);
      PlanSigns(part, d);
    }
    DemandSideBound(part, g, |demands|);
  }

  /** Any maximal feasible plan moves at least half of what the best feasible plan moves. */
  lemma {:induction false} MaximalIsHalfOptimal(supplies: seq<Supply>, demands: seq<Demand>, p: seq<Match>,
                                                g: seq<Match>)
    requires Feasible(supplies, demands, p) && Feasible(supplies, demands, g) && Maximal(supplies, demands, g)
    ensures Total(p) <= 2 * Total(g)
  {
    UsedUpPart(supplies, demands, p, g);
    LeftOverPart(supplies, demands, p, g);
    forall m | m in p ensures m.supply < |supplies| { assert Sound(supplies, demands, m); }
    PartsTotal(p, UsedUp(supplies, g));
  }

  /** Every feasible plan moves at most twice what the detector reports. */
  lemma {:induction false} TwoApproximation(supplies: seq<Supply>, demands: seq<Demand>, p: seq<Match>)
    requires Feasible(supplies, demands, p)
    ensures Total(p) <= 2 * Total(Detect(supplies, demands))
  {
    DetectFeasible(supplies, demands);
    MaximalIsHalfOptimal(supplies, demands, p, Detect(supplies, demands));
  }

  // ---------------------------------------------------------------- one SKU, no lots

  function SupplyOf(supplies: seq<Supply>, sku: string): int {
    if supplies == [] then 0
    else (if supplies[0].skuId == sku then Max(supplies[0].quantity, 0) else 0) + SupplyOf(supplies[1..], sku)
  }

  function DemandOf(demands: seq<Demand>, sku: string): int {
    if demands == [] then 0
    else (if demands[0].skuId == sku then Max(demands[0].quantity, 0) else 0) + DemandOf(demands[1..], sku)
  }

  function OfSku(supplies: seq<Supply>, sku: string): seq<bool> {
    seq(|supplies|, s requires 0 <= s < |supplies| => supplies[s].skuId == sku)
  }

  /** The matches of one SKU. */
  function MatchesOf(supplies: seq<Supply>, plan: seq<Match>, sku: string): seq<Match> {
    Part(plan, OfSku(supplies, sku), true)
  }

  lemma {:induction false} SupplyOfPrefix(supplies: seq<Supply>, sku: string, n: nat)
    requires n < |supplies|
    ensures SupplyOf(supplies[..n + 1], sku) ==
      SupplyOf(supplies[..n], sku) + if supplies[n].skuId == sku then Max(supplies[n].quantity, 0) else 0
  {
    if n > 0 {
      assert supplies[..n + 1][1..] == supplies[1..][..n] && supplies[..n][1..] == supplies[1..][..n - 1];
      SupplyOfPrefix(supplies[1..], sku, n - 1);
    }
  }

  lemma {:induction false} DemandOfPrefix(demands: seq<Demand>, sku: string, n: nat)
    requires n < |demands|
    ensures DemandOf(demands[..n + 1], sku) ==
      DemandOf(demands[..n], sku) + if demands[n].skuId == sku then Max(demands[n].quantity, 0) else 0
  {
    if n > 0 {
      assert demands[..n + 1][1..] == demands[1..][..n] && demands[..n][1..] == demands[1..][..n - 1];
      DemandOfPrefix(demands[1..], sku, n - 1);
    }
  }

  /** A plan of one SKU moves no more than the stock, and all of it when each supply is used up. */
  lemma {:induction false} SuppliedOfSku(supplies: seq<Supply>, plan: seq<Match>, sku: string, n: nat)
    requires n <= |supplies|
    requires forall s :: 0 <= s < n ==>
      Supplied(plan, s) <= if supplies[s].skuId == sku then Max(supplies[s].quantity, 0) else 0
    ensures SuppliedUpTo(plan, n) <= SupplyOf(supplies[..n], sku)
    ensures (forall s :: 0 <= s < n && supplies[s].skuId == sku ==> Supplied(plan, s) >= Max(supplies[s].quantity, 0))
      && (forall s :: 0 <= s < n && supplies[s].skuId != sku ==> Supplied(plan, s) >= 0)
      ==> SuppliedUpTo(plan, n) == SupplyOf(supplies[..n], sku)
  {
    if n > 0 { SuppliedOfSku(supplies, plan, sku, n - 1); SupplyOfPrefix(supplies, sku, n - 1); }
  }

  lemma {:induction false} DeliveredOfSku(demands: seq<Demand>, plan: seq<Match>, sku: string, n: nat)
    requires n <= |demands|
    requires forall d :: 0 <= d < n ==>
      Supplied(plan, d) <= if demands[d].skuId == sku then Max(demands[d].quantity, 0) else 0
    ensures SuppliedUpTo(plan, n) <= DemandOf(demands[..n], sku)
    ensures (forall d :: 0 <= d < n && demands[d].skuId == sku ==> Supplied(plan, d) >= Max(demands[d].quantity, 0))
      && (forall d :: 0 <= d < n && demands[d].skuId != sku ==> Supplied(plan, d) >= 0)
      ==> SuppliedUpTo(plan, n) == DemandOf(demands[..n], sku)
  {
    if n > 0 { DeliveredOfSku(demands, plan, sku, n - 1); DemandOfPrefix(demands, sku, n - 1); }
  }

  lemma {:induction false} MatchesOfSupplied(supplies: seq<Supply>, demands: seq<Demand>, plan: seq<Match>, sku: string)
    requires Feasible(supplies, demands, plan)
    ensures Total(MatchesOf(supplies, plan, sku)) <= SupplyOf(supplies, sku)
    ensures (forall s :: 0 <= s < |supplies| && supplies[s].skuId == sku ==> Supplied(plan, s) >= supplies[s].quantity)
      ==> Total(MatchesOf(supplies, plan, sku)) == SupplyOf(supplies, sku)
  {
    var part := MatchesOf(supplies, plan, sku);
    forall m | m in part ensures m.supply < |supplies| { PartMembers(plan, OfSku(supplies, sku), true, m); }
    forall s | 0 <= s < |supplies|
      ensures Supplied(part, s) == if supplies[s].skuId == sku then Supplied(plan, s) else 0
      ensures Supplied(plan, s) >= 0
    {
      PartSums(plan, OfSku(supplies, sku), true, s);
      PlanSigns(plan, s);
    }
    TotalIsSupplied(part, |supplies|);
    SuppliedOfSku(supplies, part, sku, |supplies|);
    assert supplies[..|supplies|] == supplies;
  }

  /** Matches keep the SKU, so a demand of the SKU receives all its deliveries from this part. */
  lemma {:induction false} PartDelivers(supplies: seq<Supply>, demands: seq<Demand>, plan: seq<Match>, sku: string,
                                        d: nat)
    requires d < |demands| && forall m :: m in plan ==> Sound(supplies, demands, m)
    ensures Delivered(MatchesOf(supplies, plan, sku), d) == if demands[d].skuId == sku then Delivered(plan, d) else 0
  {
    if plan != [] {
      assert Sound(supplies, demands, plan[0]);
      PartDelivers(supplies, demands, plan[1..], sku, d);
      PlanConcat(if OfSku(supplies, sku)[plan[0].supply] then [plan[0]] else [],
                 MatchesOf(supplies, plan[1..], sku), d);
    }
  }

  lemma {:induction false} MatchesOfDelivered(supplies: seq<Supply>, demands: seq<Demand>, plan: seq<Match>,
                                              sku: string)
    requires Feasible(supplies, demands, plan)
    ensures Total(MatchesOf(supplies, plan, sku)) <= DemandOf(demands, sku)
    ensures (forall d :: 0 <= d < |demands| && demands[d].skuId == sku ==> Delivered(plan, d) >= demands[d].quantity)
      ==> Total(MatchesOf(supplies, plan, sku)) == DemandOf(demands, sku)
  {
    var part := MatchesOf(supplies, plan, sku);
    forall m | m in part ensures m.demand < |demands| {
      PartMembers(plan, OfSku(supplies, sku), true, m);
      assert Sound(supplies, demands, m);
    }
    MirrorMembers(part, |demands|);
    forall d | 0 <= d < |demands|
      ensures Supplied(Mirror(part), d) == if demands[d].skuId == sku then Delivered(plan, d) else 0
      ensures Delivered(plan, d) >= 0
    {
      MirrorSums(part, d);
      PartDelivers(supplies, demands, plan, sku, d);
      PlanSigns(plan, d);
    }
    MirrorSums(part, 0);
    TotalIsSupplied(Mirror(part), |demands|);
    DeliveredOfSku(demands, Mirror(part), sku, |demands|);
    assert demands[..|demands|] == demands;
  }

  /** When no demand of a SKU names a lot, the detector matches as much of it as there is to
      match: the smaller of the whole positive supply and the whole positive demand. */
  lemma {:induction false} ExactWithoutLots(supplies: seq<Supply>, demands: seq<Demand>, sku: string)
    requires forall d :: d in demands && d.skuId == sku ==> !NamesLot(d)
    ensures Total(MatchesOf(supplies, Detect(supplies, demands), sku))
      == Min(SupplyOf(supplies, sku), DemandOf(demands, sku))
  {
    DetectFeasible(supplies, demands);
    var plan := Detect(supplies, demands);
    MatchesOfSupplied(supplies, demands, plan, sku);
    MatchesOfDelivered(supplies, demands, plan, sku);
    if s :| 0 <= s < |supplies| && supplies[s].skuId == sku && Supplied(plan, s) < supplies[s].quantity {
      forall d | 0 <= d < |demands| && demands[d].skuId == sku ensures Delivered(plan, d) >= demands[d].quantity {
        assert demands[d] in demands && Compatible(supplies[s], demands[d]);
      }
    }
  }

  /** The factor two is reached at every scale: the unconstrained demand of higher priority takes
      the only stock of the lot that the other demand names. */
  lemma {:induction false} TwoIsTight(n: int) returns (supplies: seq<Supply>, demands: seq<Demand>, best: seq<Match>)
    requires n > 0
    ensures Feasible(supplies, demands, best)
    ensures Total(best) == 2 * n && Total(Detect(supplies, demands)) == n
  {
    supplies := [Supply("in1", "sku", n, Some("lot"), Some(1)), Supply("in2", "sku", n, None, Some(2))];
    demands := [Demand("out1", "sku", n, Some(1), None), Demand("out2", "sku", n, Some(0), Some("lot"))];
    best := [Match(1, 0, n), Match(0, 1, n)];
    forall m | m in best ensures Sound(supplies, demands, m) { assert m == best[0] || m == best[1]; }
    PairSums(best[0], best[1], 0);
    PairSums(best[0], best[1], 1);
    TightRanking(demands);
    TightFirst(supplies, demands, n);
    TightSecond(supplies, demands, n);
    assert RankedDemands(demands)[1..] == [Indexed(1, demands[1])];
    var rest := MatchDemands(supplies, [Indexed(1, demands[1])], [0, n]);
    assert [Indexed(1, demands[1])][1..] == [];
    assert MatchDemands(supplies, [], [0, n]) == [];
    assert rest == [] + [];
    assert Quantities(supplies) == [n, n];
    assert Detect(supplies, demands) == [Match(0, 0, n)] + rest;
    assert Detect(supplies, demands) == [Match(0, 0, n)];
  }

  lemma {:induction false} PairSums(a: Match, b: Match, i: nat)
    ensures Supplied([a, b], i) == (if a.supply == i then a.quantity else 0) + (if b.supply == i then b.quantity else 0)
    ensures Delivered([a, b], i)
      == (if a.demand == i then a.quantity else 0) + (if b.demand == i then b.quantity else 0)
    ensures Total([a, b]) == a.quantity + b.quantity
  {
    assert [a, b][1..] == [b] && [b][1..] == [];
    assert Supplied([b], i) == if b.supply == i then b.quantity else 0;
    assert Delivered([b], i) == if b.demand == i then b.quantity else 0;
    assert Total([b]) == b.quantity;
  }

  lemma {:induction false} TightRanking(demands: seq<Demand>)
    requires |demands| == 2 && demands[0].quantity > 0 && demands[1].quantity > 0
    requires PriorityOf(demands[0]) > PriorityOf(demands[1])
    ensures RankedDemands(demands) == [Indexed(0, demands[0]), Indexed(1, demands[1])]
  {
    SelectPair(demands, Positive(demands));
    SortPair(ByPriority(), Indexed(0, demands[0]), Indexed(1, demands[1]));
  }

  lemma {:induction false} SelectPair<T>(items: seq<T>, wanted: seq<bool>)
    requires |items| == |wanted| == 2 && wanted[0] && wanted[1]
    ensures Select(items, wanted, 0) == [Indexed(0, items[0]), Indexed(1, items[1])]
  {
    assert Select(items, wanted, 2) == [];
    assert Select(items, wanted, 1) == [Indexed(1, items[1])];
  }

  lemma {:induction false} SortPair<T>(le: (T, T) -> bool, a: T, b: T)
    requires le(a, b)
    ensures Sort(le, [a, b]) == [a, b]
  {
    assert [a, b][1..] == [b] && [b][1..] == [];
    assert Sort(le, [b]) == [b];
  }

  lemma {:induction false} TightFirst(supplies: seq<Supply>, demands: seq<Demand>, n: int)
    requires n > 0 && |supplies| == 2 && |demands| > 0
    requires Compatible(supplies[0], demands[0]) && Compatible(supplies[1], demands[0]) && demands[0].quantity == n
    requires CompareExpiry(supplies[0].expiry, supplies[1].expiry) < 0
    ensures Serve(supplies, [n, n], Indexed(0, demands[0])) == ([Match(0, 0, n)], [0, n])
  {
    var x := Indexed(0, demands[0]);
    SelectPair(supplies, Usable(supplies, [n, n], x.item));
    var c0, c1 := Indexed(0, supplies[0]), Indexed(1, supplies[1]);
    SortPair(ByExpiry(), c0, c1);
    assert CandidateSupplies(supplies, [n, n], x.item) == [c0, c1];
    assert [n, n][0 := n - n] == [0, n];
    assert Fill([c0, c1][1..], [0, n], 0, 0) == ([], [0, n]);
    assert Min(n, [n, n][0]) == n;
    assert Fill([c0, c1], [n, n], 0, n).1 == [0, n];
    assert Fill([c0, c1], [n, n], 0, n).0 == [Match(0, 0, n)] + [];
    assert [Match(0, 0, n)] + [] == [Match(0, 0, n)];
  }

  lemma {:induction false} TightSecond(supplies: seq<Supply>, demands: seq<Demand>, n: int)
    requires |supplies| == 2 && |demands| == 2 && !Compatible(supplies[1], demands[1])
    ensures Serve(supplies, [0, n], Indexed(1, demands[1])) == ([], [0, n])
  {
    var x := Indexed(1, demands[1]);
    var (taken, after) := Serve(supplies, [0, n], x);
    ServeCorrect(supplies, [0, n], x);
    PlanSigns(taken, 0);
    PlanSigns(taken, 1);
    TotalIsSupplied(taken, 2);
    assert SuppliedUpTo(taken, 1) == Supplied(taken, 0) == 0 && Supplied(taken, 1) == 0;
    EmptyWhenTotalZero(taken);
    assert after == [0, n];
  }

  // ---------------------------------------------------------------- the program

  lemma {:induction false} PartOfSums(plan: seq<Match>, m: Match)
    requires m in plan && Moves(plan)
    ensures m.quantity <= Supplied(plan, m.supply) && m.quantity <= Delivered(plan, m.demand)
  {
    PlanSigns(plan[1..], m.supply);
    PlanSigns(plan[1..], m.demand);
    if m in plan[1..] { PartOfSums(plan[1..], m); }
  }

  /** Each reported opportunity names a supply line and a demand line of one SKU, the supply's own lot, which is
      the demand's if that names one, a positive quantity that both have, and the demand's priority or 0. */
  lemma {:induction false} ReportIsSound(supplies: seq<Supply>, demands: seq<Demand>, k: nat)
    requires k < |Detect(supplies, demands)|
    ensures var plan := Detect(supplies, demands);
      && (forall m :: m in plan ==> m.supply < |supplies| && m.demand < |demands|)
      && var o := Report(supplies, demands, plan)[k];
         var s, d := supplies[plan[k].supply], demands[plan[k].demand];
         && o.inboundLineId == s.inboundLineId && o.outboundLineId == d.outboundLineId
         && o.skuId == s.skuId == d.skuId && o.lotId == s.lotId
         && (d.lotId == None || d.lotId.value == "" || o.lotId == d.lotId)
         && 0 < o.quantity == plan[k].quantity <= Min(s.quantity, d.quantity)
         && (d.priority == Some(o.priority) || (d.priority == None && o.priority == 0))
  {
    var plan := Detect(supplies, demands);
    DetectFeasible(supplies, demands);
    assert forall m :: m in plan ==> Sound(supplies, demands, m);
    assert plan[k] in plan;
    PartOfSums(plan, plan[k]);
  }

  /** `opportunities` reports exactly the matches of `plan`, in order. */
  ghost predicate Recorded(supplies: seq<Supply>, demands: seq<Demand>, plan: seq<Match>,
                           opportunities: seq<Opportunity>)
  {
    && (forall m :: m in plan ==> m.supply < |supplies| && m.demand < |demands|)
    && opportunities == Report(supplies, demands, plan)
  }

  lemma {:induction false} RecordedSnoc(supplies: seq<Supply>, demands: seq<Demand>, plan: seq<Match>,
                                        opportunities: seq<Opportunity>, m: Match)
    requires Recorded(supplies, demands, plan, opportunities)
    requires m.supply < |supplies| && m.demand < |demands|
    ensures Recorded(supplies, demands, plan + [m],
                     opportunities + [OpportunityOf(supplies[m.supply], demands[m.demand], m.quantity)])
  {
  }

  ghost predicate InBounds(cands: seq<Indexed<Supply>>, n: nat) { forall c :: c in cands ==> c.index < n }

  /** What filling ends with when `taken` is taken so far and the candidates from `k` on remain. */
  ghost function Completed(cands: seq<Indexed<Supply>>, k: nat, stock: seq<int>, demand: nat, left: int,
                           taken: seq<Match>)
    : (seq<Match>, seq<int>)
    requires k <= |cands| && InBounds(cands, |stock|)
  {
    var (rest, after) := Fill(cands[k..], stock, demand, left);
    (taken + rest, after)
  }

  lemma {:induction false} CompletedNext(cands: seq<Indexed<Supply>>, k: nat, stock: seq<int>, demand: nat, left: int,
                                         taken: seq<Match>,
                      quantity: int)
    requires k < |cands| && left > 0 && InBounds(cands, |stock|)
    ensures cands[k].index < |stock|
    ensures quantity == Min(left, stock[cands[k].index]) ==>
      Completed(cands, k, stock, demand, left, taken) ==
      if quantity <= 0 then Completed(cands, k + 1, stock, demand, left, taken)
      else Completed(cands, k + 1, stock[cands[k].index := stock[cands[k].index] - quantity], demand, left - quantity,
                     taken + [Match(cands[k].index, demand, quantity)])
  {
    assert cands[k] in cands && cands[k..][0] == cands[k] && cands[k..][1..] == cands[k + 1..];
    var i := cands[k].index;
    if quantity == Min(left, stock[i]) && quantity > 0 {
      var rest := Fill(cands[k + 1..], stock[i := stock[i] - quantity], demand, left - quantity).0;
      assert taken + ([Match(i, demand, quantity)] + rest) == taken + [Match(i, demand, quantity)] + rest;
    }
  }

  /** The inner loop, drawing down the shared stock in place. */
  method FillDemand(supplies: seq<Supply>, demands: seq<Demand>, x: Indexed<Demand>, remaining: array<int>,
                    ghost plan: seq<Match>, found: seq<Opportunity>)
    returns (opportunities: seq<Opportunity>)
    requires remaining.Length == |supplies| && x.index < |demands| && x.item == demands[x.index]
    requires Recorded(supplies, demands, plan, found)
    modifies remaining
    ensures remaining[..] == Serve(supplies, old(remaining[..]), x).1
    ensures Recorded(supplies, demands, plan + Serve(supplies, old(remaining[..]), x).0, opportunities)
  {
    opportunities := found;
    var remainingDemand := x.item.quantity;
    ghost var whole := Serve(supplies, remaining[..], x);
    var candidates := CandidateSupplies(supplies, remaining[..], x.item);
    ghost var taken: seq<Match>, stock := [], remaining[..];
    var k := 0;
    assert candidates[0..] == candidates && plan + [] == plan && [] + whole.0 == whole.0;
    assert InBounds(candidates, |supplies|) by { CandidatesListed(supplies, remaining[..], x.item); }
    while k < |candidates| && remainingDemand > 0
      invariant 0 <= k <= |candidates|
      invariant |stock| == remaining.Length && forall s :: 0 <= s < |stock| ==> stock[s] == remaining[s]
      invariant Recorded(supplies, demands, plan + taken, opportunities)
      invariant Completed(candidates, k, stock, x.index, remainingDemand, taken) == whole
    {
      assert candidates[k] in candidates;
      var i := candidates[k].index;
      var quantity := Min(remainingDemand, remaining[i]);
      CompletedNext(candidates, k, stock, x.index, remainingDemand, taken, quantity);
      if quantity > 0 {
        ghost var m := Match(i, x.index, quantity);
        RecordedSnoc(supplies, demands, plan + taken, opportunities, m);
        assert plan + (taken + [m]) == plan + taken + [m];
        opportunities := opportunities + [OpportunityOf(supplies[i], x.item, quantity)];
        remaining[i] := remaining[i] - quantity;
        stock := stock[i := stock[i] - quantity];
        remainingDemand := remainingDemand - quantity;
        taken := taken + [m];
      }
      assert Completed(candidates, k + 1, stock, x.index, remainingDemand, taken) == whole;
      k := k + 1;
    }
    assert taken + [] == taken && remaining[..] == stock;
  }

  lemma {:induction false} MatchesNext(supplies: seq<Supply>, ranked: seq<Indexed<Demand>>, n: nat, remaining: seq<int>,
                                       plan: seq<Match>)
    requires n < |ranked| && |remaining| == |supplies|
    ensures plan + MatchDemands(supplies, ranked[n..], remaining)
      == plan + Serve(supplies, remaining, ranked[n]).0
         + MatchDemands(supplies, ranked[n + 1..], Serve(supplies, remaining, ranked[n]).1)
  {
    assert ranked[n..][0] == ranked[n] && ranked[n..][1..] == ranked[n + 1..];
  }

  /** The detector: every ranked demand in turn draws on the same stock. */
  method DetectCrossDockOpportunities(supplies: seq<Supply>, demands: seq<Demand>)
    returns (opportunities: seq<Opportunity>)
    ensures Recorded(supplies, demands, Detect(supplies, demands), opportunities)
  {
    RankingCorrect(demands);
    var remaining := new int[|supplies|](i requires 0 <= i < |supplies| => supplies[i].quantity);
    var ranked := RankedDemands(demands);
    opportunities := [];
    ghost var plan: seq<Match> := [];
    ghost var whole := Detect(supplies, demands);
    assert remaining[..] == Quantities(supplies) && ranked[0..] == ranked && [] + whole == whole;
    for n := 0 to |ranked|
      invariant Recorded(supplies, demands, plan, opportunities)
      invariant whole == plan + MatchDemands(supplies, ranked[n..], remaining[..])
    {
      assert ranked[n] in ranked;
      MatchesNext(supplies, ranked, n, remaining[..], plan);
      ghost var taken := Serve(supplies, remaining[..], ranked[n]).0;
      opportunities := FillDemand(supplies, demands, ranked[n], remaining, plan, opportunities);
      plan := plan + taken;
    }
    assert plan + [] == plan;
  }
}
