/** Cycle counts: plans, tasks, freezes and the stock adjustments that approvals write. Every
    operation is one transaction; runs are serial. */
module CycleCounts {
  import opened Common
  import opened Sorting

  datatype PlanStatus = Draft | Released | Counting | Reconciling | PlanApproved | PlanCancelled

  datatype TaskStatus = Open | InProgress | Submitted | Approved | Rejected | TaskCancelled

  datatype Task = Task(
    planId: string, quantId: string, expected: int, counted: Option<int>, variance: Option<int>, status: TaskStatus)

  // Freezes and quants are narrower rows here than for an allocation: a count reads and writes no other
  // column, and every freeze it makes names its quant.
  datatype Freeze = Freeze(planId: string, quantId: string, active: bool)

  datatype Quant = Quant(quantity: int, reserved: int)

  /** An ADJUST movement. */
  datatype Movement = Movement(quantId: string, quantity: int, taskId: string)

  datatype Tables = Tables(
    plans: map<string, PlanStatus>, tasks: map<string, Task>, freezes: seq<Freeze>,
    quants: map<string, Quant>, movements: seq<Movement>)

  datatype CountError = NotFound | NotDraft | NothingInScope | WrongStatus | Incomplete | BelowReserved

  /** The rows that the release loop creates, in the order of the quants. */
  function NewTasks(s: Tables, planId: string, quantIds: seq<string>, taskIds: seq<string>): map<string, Task>
    requires |quantIds| == |taskIds| && forall q :: q in quantIds ==> q in s.quants
  {
    if quantIds == [] then map[]
    else
      var n := |quantIds| - 1;
      NewTasks(s, planId, quantIds[..n], taskIds[..n])[
        taskIds[n] := Task(planId, quantIds[n], s.quants[quantIds[n]].quantity, None, None, Open)]
  }

  function NewFreezes(planId: string, quantIds: seq<string>): seq<Freeze> {
    seq(|quantIds|, i requires 0 <= i < |quantIds| => Freeze(planId, quantIds[i], true))
  }

  /** `quantIds` is the answer to the scope query and `taskIds` the ids the database generates. */
  function Release(s: Tables, planId: string, quantIds: seq<string>, taskIds: seq<string>): Result<Tables, CountError>
    requires |quantIds| == |taskIds| && forall q :: q in quantIds ==> q in s.quants
  {
    if planId !in s.plans then Failure(NotFound)
    else if s.plans[planId] != Draft then Failure(NotDraft)
    else if quantIds == [] then Failure(NothingInScope)
    else Success(s.(plans := s.plans[planId := Released], tasks := s.tasks + NewTasks(s, planId, quantIds, taskIds),
                    freezes := s.freezes + NewFreezes(planId, quantIds)))
  }

  function Submit(s: Tables, taskId: string, counted: nat): Result<Tables, CountError> {
    if taskId !in s.tasks then Failure(NotFound)
    else
      var t := s.tasks[taskId];
      if t.status != Open && t.status != InProgress then Failure(WrongStatus)
      else
        var variance := counted - t.expected;
        var submitted := t.(counted := Some(counted), variance := Some(variance), status := Submitted);
        Success(s.(tasks := s.tasks[taskId := submitted],
                   plans := s.plans[t.planId := if variance == 0 then Counting else Reconciling]))
  }

  function Thaw(freezes: seq<Freeze>, planId: string, quantId: string): seq<Freeze> {
    seq(|freezes|, i requires 0 <= i < |freezes| =>
      if freezes[i].planId == planId && freezes[i].quantId == quantId then freezes[i].(active := false) else freezes[i])
  }

  function ThawPlan(freezes: seq<Freeze>, planId: string): seq<Freeze> {
    seq(|freezes|, i requires 0 <= i < |freezes| =>
        if freezes[i].planId == planId then freezes[i].(active := false) else freezes[i])
  }

  predicate Unapproved(status: TaskStatus) { status == Open || status == InProgress || status == Submitted }

  predicate HasOpenTask(tasks: map<string, Task>, planId: string) {
    exists t :: t in tasks && tasks[t].planId == planId && Unapproved(tasks[t].status)
  }

  function VarianceOf(t: Task): int {
    if t.variance.Some? then t.variance.value else (if t.counted.Some? then t.counted.value else 0) - t.expected
  }

  /** The stock correction of an approval, when there is a variance. */
  function Adjust(s: Tables, taskId: string): Result<Tables, CountError>
    requires taskId in s.tasks
  {
    var t := s.tasks[taskId];
    if VarianceOf(t) == 0 then Success(s)
    else if t.counted.None? then Failure(Incomplete)
    else if t.quantId !in s.quants then Failure(NotFound)
    else if s.quants[t.quantId].reserved > t.counted.value then Failure(BelowReserved)
    else Success(s.(quants := s.quants[t.quantId := s.quants[t.quantId].(quantity := t.counted.value)],
                    movements := s.movements + [Movement(t.quantId, VarianceOf(t), taskId)]))
  }

  function Close(s: Tables, taskId: string): Tables
    requires taskId in s.tasks
  {
    var t := s.tasks[taskId];
    var tasks := s.tasks[taskId := t.(status := Approved)];
    var freezes := Thaw(s.freezes, t.planId, t.quantId);
    if HasOpenTask(tasks, t.planId) then s.(tasks := tasks, freezes := freezes)
    else s.(tasks := tasks, freezes := ThawPlan(freezes, t.planId), plans := s.plans[t.planId := PlanApproved])
  }

  function Approve(s: Tables, taskId: string): Result<Tables, CountError> {
    if taskId !in s.tasks then Failure(NotFound)
    else if s.tasks[taskId].status != Submitted then Failure(WrongStatus)
    else match Adjust(s, taskId)
      case Failure(e) => Failure(e)
      case Success(s') => Success(Close(s', taskId))
  }

  // ---------------------------------------------------------------- what every operation keeps

  /** A quant under a plan. */
  datatype Slot = Slot(planId: string, quantId: string)

  function SlotOf(t: Task): Slot { Slot(t.planId, t.quantId) }

  /** `index` names the one task of each slot. */
  type Index = map<Slot, string>

  ghost predicate TaskOk(plans: map<string, PlanStatus>, quants: map<string, Quant>, index: Index, id: string, t: Task)
  {
    && t.planId in plans && plans[t.planId] != Draft && t.quantId in quants
    && SlotOf(t) in index && index[SlotOf(t)] == id
    && (t.status == Open || t.status == Submitted || t.status == Approved)
    && (t.status != Open ==>
          t.counted.Some? && t.counted.value >= 0 && t.variance == Some(t.counted.value - t.expected))
  }

  ghost predicate Frozen(freezes: seq<Freeze>, slot: Slot) {
    exists i :: 0 <= i < |freezes| && freezes[i].planId == slot.planId && freezes[i].quantId == slot.quantId
  }

  ghost predicate SlotOk(tasks: map<string, Task>, freezes: seq<Freeze>, index: Index, slot: Slot) {
    slot in index ==> index[slot] in tasks && SlotOf(tasks[index[slot]]) == slot && Frozen(freezes, slot)
  }

  /** The freeze of a released plan's quant is ACTIVE iff its task is not APPROVED. */
  ghost predicate FreezeOk(tasks: map<string, Task>, index: Index, f: Freeze) {
    var slot := Slot(f.planId, f.quantId);
    slot in index && index[slot] in tasks && (f.active <==> tasks[index[slot]].status != Approved)
  }

  ghost predicate HasTask(tasks: map<string, Task>, planId: string) {
    exists t :: t in tasks && tasks[t].planId == planId
  }

  /** A plan beyond DRAFT has tasks, and is APPROVED iff none of them is open. */
  ghost predicate PlanOk(tasks: map<string, Task>, planId: string, status: PlanStatus) {
    && status != PlanCancelled
    && (status != Draft ==> HasTask(tasks, planId) && (status == PlanApproved <==> !HasOpenTask(tasks, planId)))
  }

  ghost predicate TasksOk(s: Tables, index: Index) {
    forall t :: t in s.tasks ==> TaskOk(s.plans, s.quants, index, t, s.tasks[t])
  }

  ghost predicate SlotsOk(s: Tables, index: Index) { forall x :: SlotOk(s.tasks, s.freezes, index, x) }

  ghost predicate FreezesOk(s: Tables, index: Index) {
    forall i :: 0 <= i < |s.freezes| ==> FreezeOk(s.tasks, index, s.freezes[i])
  }

  ghost predicate PlansOk(s: Tables) { forall p :: p in s.plans ==> PlanOk(s.tasks, p, s.plans[p]) }

  ghost predicate QuantsOk(s: Tables) {
    forall q :: q in s.quants ==> 0 <= s.quants[q].reserved <= s.quants[q].quantity
  }

  ghost predicate Inv(s: Tables, index: Index) {
    TasksOk(s, index) && SlotsOk(s, index) && FreezesOk(s, index) && PlansOk(s) && QuantsOk(s)
  }

  // ---------------------------------------------------------------- release

  /** The scope query lists existing quants once each, and the generated ids are new. */
  ghost predicate Releasable(s: Tables, quantIds: seq<string>, taskIds: seq<string>) {
    && |quantIds| == |taskIds| && Distinct(quantIds) && Distinct(taskIds)
    && (forall q :: q in quantIds ==> q in s.quants)
    && (forall t :: t in taskIds ==> t !in s.tasks)
  }

  function NewIndex(planId: string, quantIds: seq<string>, taskIds: seq<string>): Index
    requires |quantIds| == |taskIds|
  {
    if quantIds == [] then map[]
    else var n := |quantIds| - 1; NewIndex(planId, quantIds[..n], taskIds[..n])[Slot(planId, quantIds[n]) := taskIds[n]]
  }

  lemma {:induction false} NewTaskKeys(s: Tables, planId: string, quantIds: seq<string>, taskIds: seq<string>,
                                       t: string)
    requires |quantIds| == |taskIds| && forall q :: q in quantIds ==> q in s.quants
    ensures t in NewTasks(s, planId, quantIds, taskIds) <==> t in taskIds
  {
    if quantIds != [] {
      var n := |quantIds| - 1;
      NewTaskKeys(s, planId, quantIds[..n], taskIds[..n], t);
      assert taskIds == taskIds[..n] + [taskIds[n]];
    }
  }

  lemma {:induction false} NewTaskAt(s: Tables, planId: string, quantIds: seq<string>, taskIds: seq<string>, i: nat)
    requires |quantIds| == |taskIds| && Distinct(taskIds) && i < |quantIds|
      && forall q :: q in quantIds ==> q in s.quants
    ensures taskIds[i] in NewTasks(s, planId, quantIds, taskIds)
    ensures NewTasks(s, planId, quantIds, taskIds)[taskIds[i]]
      == Task(planId, quantIds[i], s.quants[quantIds[i]].quantity, None, None, Open)
  {
    var n := |quantIds| - 1;
    if i < n { NewTaskAt(s, planId, quantIds[..n], taskIds[..n], i); }
  }

  lemma {:induction false} NewIndexAt(planId: string, quantIds: seq<string>, taskIds: seq<string>, i: nat)
    requires |quantIds| == |taskIds| && Distinct(quantIds) && i < |quantIds|
    ensures Slot(planId, quantIds[i]) in NewIndex(planId, quantIds, taskIds)
    ensures NewIndex(planId, quantIds, taskIds)[Slot(planId, quantIds[i])] == taskIds[i]
  {
    var n := |quantIds| - 1;
    if i < n { NewIndexAt(planId, quantIds[..n], taskIds[..n], i); }
  }

  lemma {:induction false} NewIndexSlot(planId: string, quantIds: seq<string>, taskIds: seq<string>, slot: Slot)
    returns (i: nat)
    requires |quantIds| == |taskIds| && slot in NewIndex(planId, quantIds, taskIds)
    ensures i < |quantIds| && slot == Slot(planId, quantIds[i])
  {
    var n := |quantIds| - 1;
    i := n;
    if slot != Slot(planId, quantIds[n]) { i := NewIndexSlot(planId, quantIds[..n], taskIds[..n], slot); }
  }

  /** Releasing a plan, with everything the proof needs to say about it. */
  ghost predicate Releases(s: Tables, planId: string, quantIds: seq<string>, taskIds: seq<string>, s': Tables,
                           index: Index, index': Index)
  {
    && Inv(s, index) && Releasable(s, quantIds, taskIds)
    && Release(s, planId, quantIds, taskIds) == Success(s')
    && index' == index + NewIndex(planId, quantIds, taskIds)
  }

  /** A task after a release is an old one of another plan, or the new task of a listed quant. */
  lemma {:induction false} TaskAfterRelease(s: Tables, planId: string, quantIds: seq<string>, taskIds: seq<string>,
                                            s': Tables, index: Index, index': Index, t: string) returns (i: nat)
    requires Releases(s, planId, quantIds, taskIds, s', index, index') && t in s'.tasks
    ensures t in s.tasks ==> s'.tasks[t] == s.tasks[t] && s.tasks[t].planId != planId
    ensures t !in s.tasks ==>
      && i < |quantIds| && t == taskIds[i]
      && s'.tasks[t] == Task(planId, quantIds[i], s.quants[quantIds[i]].quantity, None, None, Open)
  {
    i := 0;
    NewTaskKeys(s, planId, quantIds, taskIds, t);
    if t in s.tasks {
      assert TaskOk(s.plans, s.quants, index, t, s.tasks[t]);
    } else {
      i :| 0 <= i < |taskIds| && t == taskIds[i];
      NewTaskAt(s, planId, quantIds, taskIds, i);
    }
  }

  lemma {:induction false} TaskBeforeRelease(s: Tables, planId: string, quantIds: seq<string>, taskIds: seq<string>,
                                             s': Tables, index: Index, index': Index, t: string)
    requires Releases(s, planId, quantIds, taskIds, s', index, index') && t in s.tasks
    ensures t in s'.tasks && s'.tasks[t] == s.tasks[t] && s.tasks[t].planId != planId
  {
    NewTaskKeys(s, planId, quantIds, taskIds, t);
    assert TaskOk(s.plans, s.quants, index, t, s.tasks[t]);
  }

  /** A slot of another plan keeps its task; a slot of this plan is new. */
  lemma {:induction false} SlotAfterRelease(s: Tables, planId: string, quantIds: seq<string>, taskIds: seq<string>,
                                            s': Tables, index: Index, index': Index, slot: Slot)
    requires Releases(s, planId, quantIds, taskIds, s', index, index') && slot in index
    ensures slot.planId != planId && slot in index' && index'[slot] == index[slot]
  {
    assert SlotOk(s.tasks, s.freezes, index, slot);
    TaskBeforeRelease(s, planId, quantIds, taskIds, s', index, index', index[slot]);
    if slot in NewIndex(planId, quantIds, taskIds) { var i := NewIndexSlot(planId, quantIds, taskIds, slot); }
  }

  lemma {:induction false} ReleaseKeepsTasks(s: Tables, planId: string, quantIds: seq<string>, taskIds: seq<string>,
                                             s': Tables, index: Index, index': Index)
    requires Releases(s, planId, quantIds, taskIds, s', index, index')
    ensures TasksOk(s', index')
  {
    forall t | t in s'.tasks ensures TaskOk(s'.plans, s'.quants, index', t, s'.tasks[t]) {
      var i := TaskAfterRelease(s, planId, quantIds, taskIds, s', index, index', t);
      if t in s.tasks {
        assert TaskOk(s.plans, s.quants, index, t, s.tasks[t]);
        SlotAfterRelease(s, planId, quantIds, taskIds, s', index, index', SlotOf(s.tasks[t]));
      } else {
        assert quantIds[i] in quantIds;
        NewIndexAt(planId, quantIds, taskIds, i);
      }
    }
  }

  lemma {:induction false} ReleaseKeepsSlots(s: Tables, planId: string, quantIds: seq<string>, taskIds: seq<string>,
                                             s': Tables, index: Index, index': Index)
    requires Releases(s, planId, quantIds, taskIds, s', index, index')
    ensures SlotsOk(s', index')
  {
    forall x ensures SlotOk(s'.tasks, s'.freezes, index', x) {
      if x in index {
        assert SlotOk(s.tasks, s.freezes, index, x);
        SlotAfterRelease(s, planId, quantIds, taskIds, s', index, index', x);
        TaskBeforeRelease(s, planId, quantIds, taskIds, s', index, index', index[x]);
        FrozenMore(s.freezes, NewFreezes(planId, quantIds), x);
      } else if x in index' {
        var i := NewIndexSlot(planId, quantIds, taskIds, x);
        NewIndexAt(planId, quantIds, taskIds, i);
        NewTaskAt(s, planId, quantIds, taskIds, i);
        assert s'.freezes[|s.freezes| + i] == Freeze(planId, quantIds[i], true);
      }
    }
  }

  lemma {:induction false} FrozenMore(freezes: seq<Freeze>, more: seq<Freeze>, slot: Slot)
    requires Frozen(freezes, slot)
    ensures Frozen(freezes + more, slot)
  {
    var i :| 0 <= i < |freezes| && freezes[i].planId == slot.planId && freezes[i].quantId == slot.quantId;
    assert (freezes + more)[i] == freezes[i];
  }

  lemma {:induction false} ReleaseKeepsFreezes(s: Tables, planId: string, quantIds: seq<string>, taskIds: seq<string>,
                                               s': Tables, index: Index, index': Index)
    requires Releases(s, planId, quantIds, taskIds, s', index, index')
    ensures FreezesOk(s', index')
  {
    forall i | 0 <= i < |s'.freezes| ensures FreezeOk(s'.tasks, index', s'.freezes[i]) {
      if i < |s.freezes| {
        var f := s.freezes[i];
        assert FreezeOk(s.tasks, index, f);
        SlotAfterRelease(s, planId, quantIds, taskIds, s', index, index', Slot(f.planId, f.quantId));
        TaskBeforeRelease(s, planId, quantIds, taskIds, s', index, index', index[Slot(f.planId, f.quantId)]);
      } else {
        var k := i - |s.freezes|;
        NewIndexAt(planId, quantIds, taskIds, k);
        NewTaskAt(s, planId, quantIds, taskIds, k);
      }
    }
  }

  lemma {:induction false} ReleaseKeepsPlans(s: Tables, planId: string, quantIds: seq<string>, taskIds: seq<string>,
                                             s': Tables, index: Index, index': Index)
    requires Releases(s, planId, quantIds, taskIds, s', index, index')
    ensures PlansOk(s')
  {
    forall p | p in s'.plans ensures PlanOk(s'.tasks, p, s'.plans[p]) {
      if p == planId {
        NewTaskAt(s, planId, quantIds, taskIds, 0);
        assert s'.tasks[taskIds[0]].planId == p && Unapproved(s'.tasks[taskIds[0]].status);
      } else {
        assert PlanOk(s.tasks, p, s.plans[p]);
        forall t | t in s'.tasks && s'.tasks[t].planId == p ensures t in s.tasks && s'.tasks[t] == s.tasks[t] {
          var i := TaskAfterRelease(s, planId, quantIds, taskIds, s', index, index', t);
        }
        forall t | t in s.tasks ensures t in s'.tasks && s'.tasks[t] == s.tasks[t] {
          TaskBeforeRelease(s, planId, quantIds, taskIds, s', index, index', t);
        }
        SamePlanTasks(s.tasks, s'.tasks, p);
      }
    }
  }

  /** A plan's tasks are the same before and after. */
  lemma {:induction false} SamePlanTasks(tasks: map<string, Task>, tasks': map<string, Task>, planId: string)
    requires forall t :: t in tasks && tasks[t].planId == planId ==> t in tasks' && tasks'[t] == tasks[t]
    requires forall t :: t in tasks' && tasks'[t].planId == planId ==> t in tasks && tasks'[t] == tasks[t]
    ensures HasTask(tasks', planId) == HasTask(tasks, planId)
      && HasOpenTask(tasks', planId) == HasOpenTask(tasks, planId)
  {
    if t :| t in tasks && tasks[t].planId == planId { assert t in tasks'; }
    if t :| t in tasks' && tasks'[t].planId == planId { assert t in tasks; }
    if t :| t in tasks && tasks[t].planId == planId && Unapproved(tasks[t].status) { assert t in tasks'; }
    if t :| t in tasks' && tasks'[t].planId == planId && Unapproved(tasks'[t].status) { assert t in tasks; }
  }

  /** In the plan's count of a quant: one task, open and expecting what is there, and one freeze, active. */
  ghost predicate UnderCount(s: Tables, planId: string, quantId: string, taskId: string, freeze: nat) {
    && quantId in s.quants
    && taskId in s.tasks && s.tasks[taskId] == Task(planId, quantId, s.quants[quantId].quantity, None, None, Open)
    && (forall t :: t in s.tasks && s.tasks[t].planId == planId && s.tasks[t].quantId == quantId ==> t == taskId)
    && freeze < |s.freezes| && s.freezes[freeze] == Freeze(planId, quantId, true)
    && (forall i :: 0 <= i < |s.freezes| && s.freezes[i].planId == planId && s.freezes[i].quantId == quantId ==>
          i == freeze)
  }

  lemma {:induction false} ReleaseCountsEach(s: Tables, planId: string, quantIds: seq<string>, taskIds: seq<string>,
                                             s': Tables, index: Index, index': Index, k: nat)
    requires Releases(s, planId, quantIds, taskIds, s', index, index') && k < |quantIds|
    ensures UnderCount(s', planId, quantIds[k], taskIds[k], |s.freezes| + k)
  {
    assert quantIds[k] in quantIds;
    NewTaskAt(s, planId, quantIds, taskIds, k);
    forall t | t in s'.tasks && s'.tasks[t].planId == planId && s'.tasks[t].quantId == quantIds[k]
      ensures t == taskIds[k]
    {
      var i := TaskAfterRelease(s, planId, quantIds, taskIds, s', index, index', t);
    }
    forall i | 0 <= i < |s'.freezes| && s'.freezes[i].planId == planId && s'.freezes[i].quantId == quantIds[k]
      ensures i == |s.freezes| + k
    {
      if i < |s.freezes| {
        var f := s.freezes[i];
        assert FreezeOk(s.tasks, index, f) && SlotOk(s.tasks, s.freezes, index, Slot(f.planId, f.quantId));
        TaskBeforeRelease(s, planId, quantIds, taskIds, s', index, index', index[Slot(f.planId, f.quantId)]);
      }
    }
  }

  lemma {:induction false} ReleaseKeepsInv(s: Tables, planId: string, quantIds: seq<string>, taskIds: seq<string>,
                                           s': Tables, index: Index, index': Index)
    requires Releases(s, planId, quantIds, taskIds, s', index, index')
    ensures Inv(s', index')
    ensures forall k :: 0 <= k < |quantIds| ==> UnderCount(s', planId, quantIds[k], taskIds[k], |s.freezes| + k)
  {
    forall k | 0 <= k < |quantIds|
      ensures UnderCount(s', planId, quantIds[k], taskIds[k], |s.freezes| + k)
    {
      ReleaseCountsEach(s, planId, quantIds, taskIds, s', index, index', k);
    }
    ReleaseKeepsTasks(s, planId, quantIds, taskIds, s', index, index');
    ReleaseKeepsSlots(s, planId, quantIds, taskIds, s', index, index');
    ReleaseKeepsFreezes(s, planId, quantIds, taskIds, s', index, index');
    ReleaseKeepsPlans(s, planId, quantIds, taskIds, s', index, index');
  }

  // ---------------------------------------------------------------- submit and approve

  lemma {:induction false} SubmitKeepsRows(s: Tables, taskId: string, counted: nat, s': Tables, index: Index)
    requires Inv(s, index) && Submit(s, taskId, counted) == Success(s')
    ensures TasksOk(s', index) && SlotsOk(s', index) && FreezesOk(s', index)
  {
    var t := s.tasks[taskId];
    assert TaskOk(s.plans, s.quants, index, taskId, t);
    forall u | u in s'.tasks ensures TaskOk(s'.plans, s'.quants, index, u, s'.tasks[u]) {
      assert TaskOk(s.plans, s.quants, index, u, s.tasks[u]);
    }
    forall x ensures SlotOk(s'.tasks, s'.freezes, index, x) { assert SlotOk(s.tasks, s.freezes, index, x); }
    forall i | 0 <= i < |s'.freezes| ensures FreezeOk(s'.tasks, index, s'.freezes[i]) {
      assert FreezeOk(s.tasks, index, s.freezes[i]);
    }
  }

  lemma {:induction false} SubmitKeepsPlans(s: Tables, taskId: string, counted: nat, s': Tables, index: Index)
    requires Inv(s, index) && Submit(s, taskId, counted) == Success(s')
    ensures PlansOk(s')
  {
    var t := s.tasks[taskId];
    assert TaskOk(s.plans, s.quants, index, taskId, t);
    forall p | p in s'.plans ensures PlanOk(s'.tasks, p, s'.plans[p]) {
      assert PlanOk(s.tasks, p, s.plans[p]);
      if p == t.planId {
        assert s'.tasks[taskId].planId == p && Unapproved(s'.tasks[taskId].status);
      } else {
        SamePlanTasks(s.tasks, s'.tasks, p);
      }
    }
  }

  lemma {:induction false} AdjustKeepsInv(s: Tables, taskId: string, s': Tables, index: Index)
    requires Inv(s, index) && taskId in s.tasks && s.tasks[taskId].status == Submitted
      && Adjust(s, taskId) == Success(s')
    ensures Inv(s', index)
  {
    assert TaskOk(s.plans, s.quants, index, taskId, s.tasks[taskId]);
    forall u | u in s'.tasks ensures TaskOk(s'.plans, s'.quants, index, u, s'.tasks[u]) {
      assert TaskOk(s.plans, s.quants, index, u, s.tasks[u]);
    }
    assert SlotsOk(s', index) by {
      forall x ensures SlotOk(s'.tasks, s'.freezes, index, x) { assert SlotOk(s.tasks, s.freezes, index, x); }
    }
    assert s'.freezes == s.freezes && s'.tasks == s.tasks && s'.plans == s.plans;
  }

  lemma {:induction false} CloseKeepsTasks(s: Tables, taskId: string, s': Tables, index: Index)
    requires Inv(s, index) && taskId in s.tasks && s.tasks[taskId].status == Submitted && s' == Close(s, taskId)
    ensures TasksOk(s', index)
  {
    forall u | u in s'.tasks ensures TaskOk(s'.plans, s'.quants, index, u, s'.tasks[u]) {
      assert TaskOk(s.plans, s.quants, index, u, s.tasks[u]);
    }
  }

  lemma {:induction false} CloseKeepsSlots(s: Tables, taskId: string, s': Tables, index: Index)
    requires Inv(s, index) && taskId in s.tasks && s.tasks[taskId].status == Submitted && s' == Close(s, taskId)
    ensures SlotsOk(s', index)
  {
    forall x ensures SlotOk(s'.tasks, s'.freezes, index, x) {
      assert SlotOk(s.tasks, s.freezes, index, x);
      if x in index {
        var i :| 0 <= i < |s.freezes| && s.freezes[i].planId == x.planId && s.freezes[i].quantId == x.quantId;
        ClosedFreeze(s, taskId, s', index, i);
        ClosedTask(s, taskId, s', index[x]);
      }
    }
  }

  lemma {:induction false} ClosedTask(s: Tables, taskId: string, s': Tables, t: string)
    requires taskId in s.tasks && s' == Close(s, taskId) && t in s.tasks
    ensures t in s'.tasks && SlotOf(s'.tasks[t]) == SlotOf(s.tasks[t])
  {
  }

  lemma {:induction false} ClosedFreeze(s: Tables, taskId: string, s': Tables, index: Index, i: nat)
    requires Inv(s, index) && taskId in s.tasks && s.tasks[taskId].status == Submitted && s' == Close(s, taskId)
    requires i < |s.freezes|
    ensures |s'.freezes| == |s.freezes|
    ensures var t, f := s.tasks[taskId], s.freezes[i];
      s'.freezes[i] == f.(active := f.active
          && !(f.planId == t.planId && (f.quantId == t.quantId || !HasOpenTask(s'.tasks, t.planId))))
  {
  }

  lemma {:induction false} CloseKeepsFreeze(s: Tables, taskId: string, s': Tables, index: Index, i: nat)
    requires Inv(s, index) && taskId in s.tasks && s.tasks[taskId].status == Submitted && s' == Close(s, taskId)
    requires i < |s.freezes| && |s'.freezes| == |s.freezes|
    ensures FreezeOk(s'.tasks, index, s'.freezes[i])
  {
    var t, f := s.tasks[taskId], s.freezes[i];
    var slot := Slot(f.planId, f.quantId);
    ClosedFreeze(s, taskId, s', index, i);
    assert TaskOk(s.plans, s.quants, index, taskId, t);
    assert FreezeOk(s.tasks, index, f) && SlotOk(s.tasks, s.freezes, index, slot);
    var u := index[slot];
    assert TaskOk(s.plans, s.quants, index, u, s.tasks[u]);
    if !HasOpenTask(s'.tasks, t.planId) && f.planId == t.planId { assert !Unapproved(s'.tasks[u].status); }
  }

  lemma {:induction false} CloseKeepsFreezes(s: Tables, taskId: string, s': Tables, index: Index)
    requires Inv(s, index) && taskId in s.tasks && s.tasks[taskId].status == Submitted && s' == Close(s, taskId)
    ensures FreezesOk(s', index)
  {
    forall i | 0 <= i < |s'.freezes|
      ensures FreezeOk(s'.tasks, index, s'.freezes[i])
    {
      CloseKeepsFreeze(s, taskId, s', index, i);
    }
  }

  lemma {:induction false} CloseKeepsPlans(s: Tables, taskId: string, s': Tables, index: Index)
    requires Inv(s, index) && taskId in s.tasks && s.tasks[taskId].status == Submitted && s' == Close(s, taskId)
    ensures PlansOk(s')
  {
    var t := s.tasks[taskId];
    assert TaskOk(s.plans, s.quants, index, taskId, t);
    forall p | p in s'.plans ensures PlanOk(s'.tasks, p, s'.plans[p]) {
      assert PlanOk(s.tasks, p, s.plans[p]);
      if p == t.planId {
        assert s'.tasks[taskId].planId == p;
        assert s.tasks[taskId].planId == p && Unapproved(s.tasks[taskId].status);
        assert HasOpenTask(s.tasks, p);
      } else {
        SamePlanTasks(s.tasks, s'.tasks, p);
      }
    }
  }

  lemma {:induction false} CloseKeepsInv(s: Tables, taskId: string, s': Tables, index: Index)
    requires Inv(s, index) && taskId in s.tasks && s.tasks[taskId].status == Submitted && s' == Close(s, taskId)
    ensures Inv(s', index)
  {
    CloseKeepsTasks(s, taskId, s', index);
    CloseKeepsSlots(s, taskId, s', index);
    CloseKeepsFreezes(s, taskId, s', index);
    CloseKeepsPlans(s, taskId, s', index);
  }

  // ---------------------------------------------------------------- runs

  datatype Action =
    | CreatePlan(planId: string)
    | ReleasePlan(planId: string, quantIds: seq<string>, taskIds: seq<string>)
    | SubmitTask(taskId: string, counted: nat)
    | ApproveTask(taskId: string)
    | Reserve(quantId: string, amount: int)

  ghost predicate Enabled(s: Tables, a: Action) {
    match a
    case CreatePlan(p) => p !in s.plans
    case ReleasePlan(_, quantIds, taskIds) => Releasable(s, quantIds, taskIds)
    case Reserve(q, n) => q in s.quants && 0 <= s.quants[q].reserved + n <= s.quants[q].quantity
    case _ => true
  }

  /** Allocation and picking move the reserved quantity of the same rows. */
  ghost function Attempt(s: Tables, a: Action): Result<Tables, CountError>
    requires Enabled(s, a)
  {
    match a
    case CreatePlan(p) => Success(s.(plans := s.plans[p := Draft]))
    case ReleasePlan(p, quantIds, taskIds) => Release(s, p, quantIds, taskIds)
    case SubmitTask(t, counted) => Submit(s, t, counted)
    case ApproveTask(t) => Approve(s, t)
    case Reserve(q, n) => Success(s.(quants := s.quants[q := s.quants[q].(reserved := s.quants[q].reserved + n)]))
  }

  ghost function Next(s: Tables, a: Action): Tables {
    if Enabled(s, a) && Attempt(s, a).Success? then Attempt(s, a).value else s
  }

  ghost function Run(s: Tables, actions: seq<Action>): Tables
    decreases |actions|
  {
    if actions == [] then s else Run(Next(s, actions[0]), actions[1..])
  }

  lemma {:induction false} CreateKeepsInv(s: Tables, planId: string, index: Index)
    requires Inv(s, index) && planId !in s.plans
    ensures Inv(s.(plans := s.plans[planId := Draft]), index)
  {
    var s' := s.(plans := s.plans[planId := Draft]);
    forall t | t in s'.tasks ensures TaskOk(s'.plans, s'.quants, index, t, s'.tasks[t]) {
      assert TaskOk(s.plans, s.quants, index, t, s.tasks[t]);
    }
    assert SlotsOk(s', index) by {
      forall x ensures SlotOk(s'.tasks, s'.freezes, index, x) { assert SlotOk(s.tasks, s.freezes, index, x); }
    }
    forall p | p in s'.plans
      ensures PlanOk(s'.tasks, p, s'.plans[p])
    {
      if p != planId { assert PlanOk(s.tasks, p, s.plans[p]); }
    }
  }

  lemma {:induction false} ReserveKeepsInv(s: Tables, q: string, n: int, s': Tables, index: Index)
    requires Inv(s, index) && Enabled(s, Reserve(q, n)) && Attempt(s, Reserve(q, n)) == Success(s')
    ensures Inv(s', index)
  {
    forall t | t in s'.tasks ensures TaskOk(s'.plans, s'.quants, index, t, s'.tasks[t]) {
      assert TaskOk(s.plans, s.quants, index, t, s.tasks[t]);
    }
    assert SlotsOk(s', index) by {
      forall x ensures SlotOk(s'.tasks, s'.freezes, index, x) { assert SlotOk(s.tasks, s.freezes, index, x); }
    }
  }

  lemma {:induction false} NextKeepsInv(s: Tables, a: Action, index: Index) returns (index': Index)
    requires Inv(s, index)
    ensures Inv(Next(s, a), index')
  {
    index' := index;
    if Enabled(s, a) && Attempt(s, a).Success? {
      var s' := Attempt(s, a).value;
      match a
      case CreatePlan(p) => CreateKeepsInv(s, p, index);
      case ReleasePlan(p, quantIds, taskIds) =>
        index' := index + NewIndex(p, quantIds, taskIds);
        ReleaseKeepsInv(s, p, quantIds, taskIds, s', index, index');
      case SubmitTask(t, counted) =>
        SubmitKeepsRows(s, t, counted, s', index);
        SubmitKeepsPlans(s, t, counted, s', index);
      case ApproveTask(t) =>
        var adjusted := Adjust(s, t).value;
        AdjustKeepsInv(s, t, adjusted, index);
        CloseKeepsInv(adjusted, t, s', index);
      case Reserve(q, n) => ReserveKeepsInv(s, q, n, s', index);
    }
  }

  lemma {:induction false} RunKeepsInv(s: Tables, actions: seq<Action>, index: Index) returns (index': Index)
    requires Inv(s, index)
    ensures Inv(Run(s, actions), index')
    decreases |actions|
  {
    index' := index;
    if actions != [] {
      var middle := NextKeepsInv(s, actions[0], index);
      index' := RunKeepsInv(Next(s, actions[0]), actions[1..], middle);
    }
  }

  function Stock(quants: map<string, Quant>): Tables { Tables(map[], map[], [], quants, []) }

  /** The freezes of a task: there is one, and each is ACTIVE iff the task is not APPROVED. */
  ghost predicate FrozenUntilApproved(s: Tables, t: Task) {
    && Frozen(s.freezes, SlotOf(t))
    && forall i :: 0 <= i < |s.freezes| && s.freezes[i].planId == t.planId && s.freezes[i].quantId == t.quantId ==>
         (s.freezes[i].active <==> t.status != Approved)
  }

  ghost predicate AllApproved(s: Tables, planId: string) {
    forall t :: t in s.tasks && s.tasks[t].planId == planId ==> s.tasks[t].status == Approved
  }

  /** In every reachable state: a released plan's freeze on a quant is ACTIVE iff its task is not APPROVED, the
      plan is APPROVED iff all its tasks are, and no quant is reserved beyond its quantity. */
  lemma {:induction false} FreezesFollowTasks(quants: map<string, Quant>, actions: seq<Action>)
    requires QuantsOk(Stock(quants))
    ensures var s := Run(Stock(quants), actions);
      && (forall t :: t in s.tasks ==> FrozenUntilApproved(s, s.tasks[t]))
      && (forall p :: p in s.plans && s.plans[p] != Draft ==> (s.plans[p] == PlanApproved <==> AllApproved(s, p)))
      && QuantsOk(s)
  {
    var s := Run(Stock(quants), actions);
    var index := RunKeepsInv(Stock(quants), actions, map[]);
    forall t | t in s.tasks ensures FrozenUntilApproved(s, s.tasks[t]) { TaskFrozen(s, index, t); }
    forall p | p in s.plans && s.plans[p] != Draft ensures s.plans[p] == PlanApproved <==> AllApproved(s, p) {
      assert PlanOk(s.tasks, p, s.plans[p]);
      forall t | t in s.tasks ensures Unapproved(s.tasks[t].status) <==> s.tasks[t].status != Approved {
        assert TaskOk(s.plans, s.quants, index, t, s.tasks[t]);
      }
    }
  }

  lemma {:induction false} TaskFrozen(s: Tables, index: Index, t: string)
    requires Inv(s, index) && t in s.tasks
    ensures FrozenUntilApproved(s, s.tasks[t])
  {
    assert TaskOk(s.plans, s.quants, index, t, s.tasks[t]);
    assert SlotOk(s.tasks, s.freezes, index, SlotOf(s.tasks[t]));
    forall i | 0 <= i < |s.freezes| && s.freezes[i].planId == s.tasks[t].planId
        && s.freezes[i].quantId == s.tasks[t].quantId
      ensures s.freezes[i].active <==> s.tasks[t].status != Approved
    {
      assert FreezeOk(s.tasks, index, s.freezes[i]);
    }
  }

  // ---------------------------------------------------------------- the stock ledger

  function Moved(movements: seq<Movement>, quantId: string): int {
    if movements == [] then 0
    else Moved(movements[..|movements| - 1], quantId)
         + if movements[|movements| - 1].quantId == quantId then movements[|movements| - 1].quantity else 0
  }

  /** What a quant started from, by its movements. */
  function Opening(s: Tables, quantId: string): int
    requires quantId in s.quants
  {
    s.quants[quantId].quantity - Moved(s.movements, quantId)
  }

  lemma {:induction false} MovedSnoc(movements: seq<Movement>, m: Movement, quantId: string)
    ensures Moved(movements + [m], quantId)
      == Moved(movements, quantId) + if m.quantId == quantId then m.quantity else 0
  {
    assert (movements + [m])[..|movements|] == movements;
  }

  /** An approval keeps a quant's ledger exactly when there is no variance or the quantity is still the one
      recorded at release; in any case it touches no other quant. */
  lemma {:induction false} ApprovalKeepsLedgerExactlyWhen(s: Tables, taskId: string, s': Tables, index: Index,
                                                          q: string)
    requires Inv(s, index) && Approve(s, taskId) == Success(s') && q in s.quants
    ensures q in s'.quants
    ensures var t := s.tasks[taskId];
      if q != t.quantId then Opening(s', q) == Opening(s, q)
      else Opening(s', q) == Opening(s, q) <==> t.counted == Some(t.expected) || s.quants[q].quantity == t.expected
  {
    var t := s.tasks[taskId];
    assert TaskOk(s.plans, s.quants, index, taskId, t);
    MovedSnoc(s.movements, Movement(t.quantId, VarianceOf(t), taskId), q);
  }

  predicate Counts(s: Tables, t: string, q: string) {
    t in s.tasks && Unapproved(s.tasks[t].status) && s.tasks[t].quantId == q
  }

  /** At most one unapproved task counts the quant, and what it expects is still there. */
  ghost predicate Alone(s: Tables, q: string) {
    && (forall t :: Counts(s, t, q) ==> q in s.quants && s.quants[q].quantity == s.tasks[t].expected)
    && (forall t1, t2 :: Counts(s, t1, q) && Counts(s, t2, q) ==> t1 == t2)
  }

  ghost predicate Uncounted(s: Tables, q: string) { forall t :: !Counts(s, t, q) }

  /** No plan is released over this quant while another plan is still counting it. */
  ghost predicate NeverOverlaps(s: Tables, actions: seq<Action>, q: string)
    decreases |actions|
  {
    actions == [] ||
    (&& (actions[0].ReleasePlan? && q in actions[0].quantIds ==> Uncounted(s, q))
     && NeverOverlaps(Next(s, actions[0]), actions[1..], q))
  }

  lemma {:induction false} CountingAfterRelease(s: Tables, planId: string, quantIds: seq<string>, taskIds: seq<string>,
                                                s': Tables,
                                                index: Index, index': Index, q: string, t: string) returns (i: nat)
    requires Releases(s, planId, quantIds, taskIds, s', index, index') && Counts(s', t, q)
    ensures if t in s.tasks then Counts(s, t, q) && s'.tasks[t] == s.tasks[t]
            else
              && i < |quantIds| && quantIds[i] == q && t == taskIds[i]
              && q in s.quants && s'.tasks[t].expected == s.quants[q].quantity
  {
    i := TaskAfterRelease(s, planId, quantIds, taskIds, s', index, index', t);
    if t !in s.tasks { assert quantIds[i] in quantIds; }
  }

  lemma {:induction false} ReleaseKeepsAlone(s: Tables, planId: string, quantIds: seq<string>, taskIds: seq<string>,
                                             s': Tables, index: Index, index': Index, q: string)
    requires Releases(s, planId, quantIds, taskIds, s', index, index')
      && Alone(s, q) && (q in quantIds ==> Uncounted(s, q))
    ensures Alone(s', q)
  {
    forall t | Counts(s', t, q) ensures q in s'.quants && s'.quants[q].quantity == s'.tasks[t].expected {
      var i := CountingAfterRelease(s, planId, quantIds, taskIds, s', index, index', q, t);
    }
    forall t1, t2 | Counts(s', t1, q) && Counts(s', t2, q) ensures t1 == t2 {
      var i := CountingAfterRelease(s, planId, quantIds, taskIds, s', index, index', q, t1);
      var j := CountingAfterRelease(s, planId, quantIds, taskIds, s', index, index', q, t2);
      if t1 !in s.tasks { assert q in quantIds; }
      if t2 !in s.tasks { assert q in quantIds; }
    }
  }

  lemma {:induction false} ApprovalEffect(s: Tables, taskId: string, s': Tables)
    requires Approve(s, taskId) == Success(s')
    ensures taskId in s.tasks && s'.tasks == s.tasks[taskId := s.tasks[taskId].(status := Approved)]
    ensures s'.quants.Keys == s.quants.Keys || s.tasks[taskId].quantId !in s.quants
    ensures forall q :: q in s.quants && q != s.tasks[taskId].quantId ==> q in s'.quants && s'.quants[q] == s.quants[q]
  {
  }

  /** An approval on this quant is the one task that counts it; any other touches another quant. */
  lemma {:induction false} ApproveKeepsAlone(s: Tables, taskId: string, s': Tables, index: Index, q: string)
    requires Inv(s, index) && Approve(s, taskId) == Success(s') && Alone(s, q) && q in s.quants
    ensures Alone(s', q) && q in s'.quants && Opening(s', q) == Opening(s, q)
  {
    ApprovalEffect(s, taskId, s');
    ApprovalKeepsLedgerExactlyWhen(s, taskId, s', index, q);
    var quantId := s.tasks[taskId].quantId;
    ApprovedCounts(s, taskId, index);
    forall t | Counts(s', t, q) ensures Counts(s, t, q) && t != taskId && s'.tasks[t] == s.tasks[t] { }
  }

  lemma {:induction false} ApprovedCounts(s: Tables, taskId: string, index: Index)
    requires Inv(s, index) && taskId in s.tasks && s.tasks[taskId].status == Submitted
    ensures Counts(s, taskId, s.tasks[taskId].quantId)
  {
    assert TaskOk(s.plans, s.quants, index, taskId, s.tasks[taskId]);
  }

  lemma {:induction false} NextKeepsLedger(s: Tables, a: Action, index: Index, q: string)
    requires Inv(s, index) && Alone(s, q) && q in s.quants && (a.ReleasePlan? && q in a.quantIds ==> Uncounted(s, q))
    ensures Alone(Next(s, a), q) && q in Next(s, a).quants && Opening(Next(s, a), q) == Opening(s, q)
  {
    if Enabled(s, a) && Attempt(s, a).Success? {
      var s' := Attempt(s, a).value;
      match a
      case CreatePlan(p) => assert forall t :: Counts(s', t, q) <==> Counts(s, t, q);
      case ReleasePlan(p, quantIds, taskIds) =>
        ReleaseKeepsAlone(s, p, quantIds, taskIds, s', index, index + NewIndex(p, quantIds, taskIds), q);
      case SubmitTask(t, counted) => assert forall t2 :: Counts(s', t2, q) <==> Counts(s, t2, q);
      case ApproveTask(t) => ApproveKeepsAlone(s, t, s', index, q);
      case Reserve(id, n) => assert forall t :: Counts(s', t, q) <==> Counts(s, t, q);
    }
  }

  lemma {:induction false} RunKeepsLedger(s: Tables, actions: seq<Action>, index: Index, q: string)
    requires Inv(s, index) && Alone(s, q) && q in s.quants && NeverOverlaps(s, actions, q)
    ensures q in Run(s, actions).quants && Opening(Run(s, actions), q) == Opening(s, q)
    decreases |actions|
  {
    if actions != [] {
      var index1 := NextKeepsInv(s, actions[0], index);
      NextKeepsLedger(s, actions[0], index, q);
      RunKeepsLedger(Next(s, actions[0]), actions[1..], index1, q);
    }
  }

  /** While plans do not overlap on a quant, whatever they do on others, its quantity is at all times its initial
      quantity plus the sum of its ADJUST movements. */
  lemma {:induction false} LedgerBalances(quants: map<string, Quant>, actions: seq<Action>, q: string)
    requires QuantsOk(Stock(quants)) && q in quants && NeverOverlaps(Stock(quants), actions, q)
    ensures var s := Run(Stock(quants), actions);
      q in s.quants && s.quants[q].quantity == quants[q].quantity + Moved(s.movements, q)
  {
    RunKeepsLedger(Stock(quants), actions, map[], q);
    assert Opening(Stock(quants), q) == quants[q].quantity;
  }

  // ---------------------------------------------------------------- overlapping plans

  /** Two plans released over one quant holding `e`, both counted as `c`, both approved. */
  function Overlap(c: nat): seq<Action> {
    [CreatePlan("p1"), CreatePlan("p2"), ReleasePlan("p1", ["q"], ["t1"]), ReleasePlan("p2", ["q"], ["t2"]),
     SubmitTask("t1", c), SubmitTask("t2", c), ApproveTask("t1"), ApproveTask("t2")]
  }

  /** The tables along that run: the status and count of each plan's task, and what was moved. */
  function Overlapping(p1: PlanStatus, p2: PlanStatus, t1: Task, t2: Task, active1: bool, active2: bool, quantity: int,
                       movements: seq<Movement>): Tables
  {
    Tables(map["p1" := p1, "p2" := p2], map["t1" := t1, "t2" := t2],
           [Freeze("p1", "q", active1), Freeze("p2", "q", active2)],
           map["q" := Quant(quantity, 0)], movements)
  }

  function Fresh(planId: string, e: nat): Task { Task(planId, "q", e, None, None, Open) }

  function Counted(planId: string, e: nat, c: nat, status: TaskStatus): Task {
    Task(planId, "q", e, Some(c), Some(c - e), status)
  }

  lemma {:induction false} Names()
    ensures "p1" != "p2" && "t1" != "t2"
  {
    assert "p1"[1] != "p2"[1] && "t1"[1] != "t2"[1];
  }

  lemma {:induction false} TwoPlans(e: nat)
    ensures var s := Stock(map["q" := Quant(e, 0)]);
      Next(Next(s, CreatePlan("p1")), CreatePlan("p2")) == s.(plans := map["p1" := Draft, "p2" := Draft])
  {
    Names();
  }

  lemma {:induction false} OneRelease(s: Tables, planId: string, taskId: string, e: nat)
    requires planId in s.plans && s.plans[planId] == Draft && taskId !in s.tasks
      && "q" in s.quants && s.quants["q"].quantity == e
    ensures Next(s, ReleasePlan(planId, ["q"], [taskId])) ==
      s.(plans := s.plans[planId := Released], tasks := s.tasks[taskId := Fresh(planId, e)],
         freezes := s.freezes + [Freeze(planId, "q", true)])
  {
    assert Releasable(s, ["q"], [taskId]);
    assert ["q"][..0] == [] && [taskId][..0] == [];
    assert NewTasks(s, planId, ["q"], [taskId]) == map[taskId := Fresh(planId, e)];
    assert NewFreezes(planId, ["q"]) == [Freeze(planId, "q", true)];
    assert s.tasks + map[taskId := Fresh(planId, e)] == s.tasks[taskId := Fresh(planId, e)];
  }

  lemma {:induction false} BothReleased(e: nat)
    ensures var s := Stock(map["q" := Quant(e, 0)]).(plans := map["p1" := Draft, "p2" := Draft]);
      Next(Next(s, ReleasePlan("p1", ["q"], ["t1"])), ReleasePlan("p2", ["q"], ["t2"]))
      == Overlapping(Released, Released, Fresh("p1", e), Fresh("p2", e), true, true, e, [])
  {
    Names();
    var s := Stock(map["q" := Quant(e, 0)]).(plans := map["p1" := Draft, "p2" := Draft]);
    OneRelease(s, "p1", "t1", e);
    OneRelease(Next(s, ReleasePlan("p1", ["q"], ["t1"])), "p2", "t2", e);
    assert [] + [Freeze("p1", "q", true)] + [Freeze("p2", "q", true)]
      == [Freeze("p1", "q", true), Freeze("p2", "q", true)];
  }

  lemma {:induction false} OneSubmitted(s: Tables, t: string, planId: string, e: nat, c: nat)
    requires c != e && t in s.tasks && s.tasks[t] == Fresh(planId, e) && planId in s.plans
    ensures Next(s, SubmitTask(t, c))
      == s.(tasks := s.tasks[t := Counted(planId, e, c, Submitted)], plans := s.plans[planId := Reconciling])
  {
  }

  lemma {:induction false} BothSubmitted(e: nat, c: nat)
    requires c != e
    ensures Next(Next(Overlapping(Released, Released, Fresh("p1", e), Fresh("p2", e), true, true, e, []),
      SubmitTask("t1", c)), SubmitTask("t2", c))
      == Overlapping(Reconciling, Reconciling, Counted("p1", e, c, Submitted),
          Counted("p2", e, c, Submitted), true, true, e, [])
  {
    Names();
    var s := Overlapping(Released, Released, Fresh("p1", e), Fresh("p2", e), true, true, e, []);
    OneSubmitted(s, "t1", "p1", e, c);
    OneSubmitted(Next(s, SubmitTask("t1", c)), "t2", "p2", e, c);
  }

  lemma {:induction false} FirstClosed(s: Tables, e: nat, c: nat, m: Movement)
    requires s == Overlapping(Reconciling, Reconciling, Counted("p1", e, c, Submitted),
      Counted("p2", e, c, Submitted), true, true, c, [m])
    ensures Close(s, "t1")
      == Overlapping(PlanApproved, Reconciling, Counted("p1", e, c, Approved),
          Counted("p2", e, c, Submitted), false, true, c, [m])
  {
    Names();
    var tasks := s.tasks["t1" := Counted("p1", e, c, Approved)];
    assert !HasOpenTask(tasks, "p1");
    assert ThawPlan(Thaw(s.freezes, "p1", "q"), "p1") == [Freeze("p1", "q", false), Freeze("p2", "q", true)];
  }

  lemma {:induction false} FirstApproved(e: nat, c: nat)
    requires c != e
    ensures Next(Overlapping(Reconciling, Reconciling, Counted("p1", e, c, Submitted),
      Counted("p2", e, c, Submitted), true, true, e, []), ApproveTask("t1"))
      == Overlapping(PlanApproved, Reconciling, Counted("p1", e, c, Approved),
          Counted("p2", e, c, Submitted), false, true, c, [Movement("q", c - e, "t1")])
  {
    Names();
    var s := Overlapping(Reconciling, Reconciling, Counted("p1", e, c, Submitted),
      Counted("p2", e, c, Submitted), true, true, e, []);
    var m := Movement("q", c - e, "t1");
    var adjusted := Overlapping(Reconciling, Reconciling, Counted("p1", e, c, Submitted),
      Counted("p2", e, c, Submitted), true, true, c, [m]);
    assert s.tasks["t1"] == Counted("p1", e, c, Submitted) && VarianceOf(s.tasks["t1"]) == c - e;
    assert s.movements + [m] == adjusted.movements && s.quants["q" := Quant(c, 0)] == adjusted.quants;
    assert Adjust(s, "t1") == Success(adjusted);
    FirstClosed(adjusted, e, c, m);
  }

  lemma {:induction false} SecondApproved(e: nat, c: nat)
    requires c != e
    ensures Next(Overlapping(PlanApproved, Reconciling, Counted("p1", e, c, Approved),
      Counted("p2", e, c, Submitted), false, true, c,
                             [Movement("q", c - e, "t1")]), ApproveTask("t2"))
      == Overlapping(PlanApproved, PlanApproved, Counted("p1", e, c, Approved),
          Counted("p2", e, c, Approved), false, false, c,
                     [Movement("q", c - e, "t1"), Movement("q", c - e, "t2")])
  {
    Names();
    var s := Overlapping(PlanApproved, Reconciling, Counted("p1", e, c, Approved),
      Counted("p2", e, c, Submitted), false, true, c,
                         [Movement("q", c - e, "t1")]);
    var tasks := s.tasks["t2" := Counted("p2", e, c, Approved)];
    assert !HasOpenTask(tasks, "p2");
    assert ThawPlan(Thaw(s.freezes, "p2", "q"), "p2") == [Freeze("p1", "q", false), Freeze("p2", "q", false)];
  }

  lemma {:induction false} RunTwo(s: Tables, a: Action, b: Action, rest: seq<Action>, s': Tables)
    requires Next(Next(s, a), b) == s'
    ensures Run(s, [a, b] + rest) == Run(s', rest)
  {
    var all := [a, b] + rest;
    assert all[1..] == [b] + rest && ([b] + rest)[1..] == rest;
    assert Run(s, all) == Run(Next(s, a), [b] + rest);
  }

  lemma {:induction false} CountsAndApprovals(e: nat, c: nat)
    requires c != e
    ensures Run(Overlapping(Released, Released, Fresh("p1", e), Fresh("p2", e), true, true, e, []),
                [SubmitTask("t1", c), SubmitTask("t2", c)] + ([ApproveTask("t1"), ApproveTask("t2")] + []))
      == Overlapping(PlanApproved, PlanApproved, Counted("p1", e, c, Approved),
          Counted("p2", e, c, Approved), false, false, c,
                     [Movement("q", c - e, "t1"), Movement("q", c - e, "t2")])
  {
    var s4 := Overlapping(Released, Released, Fresh("p1", e), Fresh("p2", e), true, true, e, []);
    var s6 := Overlapping(Reconciling, Reconciling, Counted("p1", e, c, Submitted),
      Counted("p2", e, c, Submitted), true, true, e, []);
    var s8 := Overlapping(PlanApproved, PlanApproved, Counted("p1", e, c, Approved),
      Counted("p2", e, c, Approved), false, false, c,
                          [Movement("q", c - e, "t1"), Movement("q", c - e, "t2")]);
    BothSubmitted(e, c);
    FirstApproved(e, c);
    SecondApproved(e, c);
    RunTwo(s4, SubmitTask("t1", c), SubmitTask("t2", c), [ApproveTask("t1"), ApproveTask("t2")] + [], s6);
    RunTwo(s6, ApproveTask("t1"), ApproveTask("t2"), [], s8);
    assert Run(s8, []) == s8;
  }

  lemma {:induction false} OverlapEnds(e: nat, c: nat)
    requires c != e
    ensures Run(Stock(map["q" := Quant(e, 0)]), Overlap(c))
      == Overlapping(PlanApproved, PlanApproved, Counted("p1", e, c, Approved),
          Counted("p2", e, c, Approved), false, false, c,
                     [Movement("q", c - e, "t1"), Movement("q", c - e, "t2")])
  {
    var s0 := Stock(map["q" := Quant(e, 0)]);
    var s2 := s0.(plans := map["p1" := Draft, "p2" := Draft]);
    var s4 := Overlapping(Released, Released, Fresh("p1", e), Fresh("p2", e), true, true, e, []);
    var counts := [SubmitTask("t1", c), SubmitTask("t2", c)] + ([ApproveTask("t1"), ApproveTask("t2")] + []);
    var releases := [ReleasePlan("p1", ["q"], ["t1"]), ReleasePlan("p2", ["q"], ["t2"])];
    assert Overlap(c) == [CreatePlan("p1"), CreatePlan("p2")] + (releases + counts);
    TwoPlans(e);
    BothReleased(e);
    RunTwo(s0, CreatePlan("p1"), CreatePlan("p2"), releases + counts, s2);
    RunTwo(s2, ReleasePlan("p1", ["q"], ["t1"]), ReleasePlan("p2", ["q"], ["t2"]), counts, s4);
    CountsAndApprovals(e, c);
  }

  lemma {:induction false} MovedTwice(d: int)
    ensures Moved([Movement("q", d, "t1"), Movement("q", d, "t2")], "q") == 2 * d
  {
    MovedSnoc([], Movement("q", d, "t1"), "q");
    MovedSnoc([Movement("q", d, "t1")], Movement("q", d, "t2"), "q");
    assert [] + [Movement("q", d, "t1")] == [Movement("q", d, "t1")];
    assert [Movement("q", d, "t1")] + [Movement("q", d, "t2")] == [Movement("q", d, "t1"), Movement("q", d, "t2")];
  }

  /** Overlapping plans break the ledger: the one difference between book and shelf is booked twice, so for every
      `e` and every other count the quantity is no longer the initial one plus the adjustments. */
  lemma {:induction false} OverlapBreaksLedger(e: nat, c: nat)
    requires c != e
    ensures var s := Run(Stock(map["q" := Quant(e, 0)]), Overlap(c));
      && "q" in s.quants && s.quants["q"].quantity == c && Moved(s.movements, "q") == 2 * (c - e)
      && s.quants["q"].quantity != e + Moved(s.movements, "q")
  {
    OverlapEnds(e, c);
    MovedTwice(c - e);
  }

  // ---------------------------------------------------------------- the service

  class CycleCountService {
    var plans: map<string, PlanStatus>
    var tasks: map<string, Task>
    var freezes: seq<Freeze>
    var quants: map<string, Quant>
    var movements: seq<Movement>

    ghost function State(): Tables
      reads this
    {
      Tables(plans, tasks, freezes, quants, movements)
    }

    constructor (stock: map<string, Quant>)
      ensures State() == Stock(stock)
    {
      plans, tasks, freezes, quants, movements := map[], map[], [], stock, [];
    }

    /** One task and one freeze for each quant in scope. */
    method ReleaseCountPlan(planId: string, quantIds: seq<string>, taskIds: seq<string>)
      returns (result: Result<nat, CountError>)
      requires |quantIds| == |taskIds| && forall q :: q in quantIds ==> q in quants
      modifies this
      ensures match Release(old(State()), planId, quantIds, taskIds)
        case Success(s) => State() == s && result == Success(|quantIds|)
        case Failure(e) => State() == old(State()) && result == Failure(e)
    {
      if planId !in plans { return Failure(NotFound); }
      if plans[planId] != Draft { return Failure(NotDraft); }
      if |quantIds| == 0 { return Failure(NothingInScope); }
      var created := 0;
      while created < |quantIds|
        invariant created <= |quantIds| && plans == old(plans) && quants == old(quants) && movements == old(movements)
        invariant tasks == old(tasks) + NewTasks(old(State()), planId, quantIds[..created], taskIds[..created])
        invariant freezes == old(freezes) + NewFreezes(planId, quantIds[..created])
      {
        var q := quantIds[created];
        assert q in quantIds;
        tasks := tasks[taskIds[created] := Task(planId, q, quants[q].quantity, None, None, Open)];
        freezes := freezes + [Freeze(planId, q, true)];
        created := created + 1;
        assert quantIds[..created][..created - 1] == quantIds[..created - 1]
          && taskIds[..created][..created - 1] == taskIds[..created - 1];
        assert NewFreezes(planId, quantIds[..created])
          == NewFreezes(planId, quantIds[..created - 1]) + [Freeze(planId, q, true)];
      }
      assert quantIds[..|quantIds|] == quantIds && taskIds[..|quantIds|] == taskIds;
      plans := plans[planId := Released];
      return Success(created);
    }

    method SubmitCountTask(taskId: string, counted: nat) returns (result: Result<Task, CountError>)
      modifies this
      ensures match Submit(old(State()), taskId, counted)
        case Success(s) => State() == s && result == Success(s.tasks[taskId])
        case Failure(e) => State() == old(State()) && result == Failure(e)
    {
      if taskId !in tasks { return Failure(NotFound); }
      var t := tasks[taskId];
      if t.status != Open && t.status != InProgress { return Failure(WrongStatus); }
      var variance := counted - t.expected;
      tasks := tasks[taskId := t.(counted := Some(counted), variance := Some(variance), status := Submitted)];
      plans := plans[t.planId := if variance == 0 then Counting else Reconciling];
      return Success(tasks[taskId]);
    }

    method ApproveCountTask(taskId: string) returns (result: Result<Task, CountError>)
      modifies this
      ensures match Approve(old(State()), taskId)
        case Success(s) => State() == s && result == Success(s.tasks[taskId])
        case Failure(e) => State() == old(State()) && result == Failure(e)
    {
      if taskId !in tasks { return Failure(NotFound); }
      var t := tasks[taskId];
      if t.status != Submitted { return Failure(WrongStatus); }
      var variance := VarianceOf(t);
      if variance != 0 {
        if t.counted.None? { return Failure(Incomplete); }
        if t.quantId !in quants { return Failure(NotFound); }
        if quants[t.quantId].reserved > t.counted.value { return Failure(BelowReserved); }
        quants := quants[t.quantId := quants[t.quantId].(quantity := t.counted.value)];
        movements := movements + [Movement(t.quantId, variance, taskId)];
      }
      tasks := tasks[taskId := t.(status := Approved)];
      freezes := Thaw(freezes, t.planId, t.quantId);
      if !HasOpenTask(tasks, t.planId) {
        plans := plans[t.planId := PlanApproved];
        freezes := ThawPlan(freezes, t.planId);
      }
      return Success(tasks[taskId]);
    }
  }
}
