/** What each cycle-count operation does to the rows, and how a plan's status follows its counts. */
module CycleCountOutcomes {
  import opened Common
  import opened Sorting
  import opened CycleCounts

  // ---------------------------------------------------------------- one operation

  /** Releasing, exactly: a draft with something in scope becomes RELEASED, its new tasks and freezes come on top of
      what there was, and stock is not touched. */
  lemma {:induction false} ReleaseOutcome(s: Tables, planId: string, quantIds: seq<string>, taskIds: seq<string>)
    requires Releasable(s, quantIds, taskIds)
    ensures match Release(s, planId, quantIds, taskIds)
      case Failure(e) =>
        if planId !in s.plans then e == NotFound
        else if s.plans[planId] != Draft then e == NotDraft else e == NothingInScope && quantIds == []
      case Success(s') =>
        && planId in s.plans && s.plans[planId] == Draft && quantIds != []
        && s'.plans == s.plans[planId := Released] && s'.quants == s.quants && s'.movements == s.movements
        && s'.tasks.Keys == s.tasks.Keys + set t | t in taskIds
        && (forall t :: t in s.tasks ==> s'.tasks[t] == s.tasks[t])
        && s.freezes <= s'.freezes && |s'.freezes| == |s.freezes| + |quantIds|
  {
    forall t ensures t in NewTasks(s, planId, quantIds, taskIds) <==> t in taskIds {
      NewTaskKeys(s, planId, quantIds, taskIds, t);
    }
  }

  /** Submitting, exactly: an open task takes the count and how far it is from what was expected, and its plan is
      COUNTING after a count that agrees and RECONCILING after one that does not. Nothing else changes. */
  lemma {:induction false} SubmitOutcome(s: Tables, taskId: string, counted: nat)
    ensures Submit(s, taskId, counted) == Failure(NotFound) <==> taskId !in s.tasks
    ensures Submit(s, taskId, counted) == Failure(WrongStatus) <==>
      taskId in s.tasks && s.tasks[taskId].status != Open && s.tasks[taskId].status != InProgress
    ensures match Submit(s, taskId, counted)
      case Failure(e) => e == NotFound || e == WrongStatus
      case Success(s') =>
        var t := s.tasks[taskId];
        && s'.quants == s.quants && s'.movements == s.movements && s'.freezes == s.freezes
        && s'.tasks == s.tasks[taskId := Task(t.planId, t.quantId, t.expected, Some(counted),
                                              Some(counted - t.expected), Submitted)]
        && (counted == t.expected ==> s'.plans == s.plans[t.planId := Counting])
        && (counted != t.expected ==> s'.plans == s.plans[t.planId := Reconciling])
  {
  }

  ghost predicate OthersApproved(s: Tables, taskId: string)
    requires taskId in s.tasks
  {
    forall t :: t in s.tasks && t != taskId && s.tasks[t].planId == s.tasks[taskId].planId ==>
      s.tasks[t].status == Approved
  }

  lemma {:induction false} CompletesExactlyWhen(s: Tables, taskId: string, index: Index)
    requires Inv(s, index) && taskId in s.tasks
    ensures HasOpenTask(s.tasks[taskId := s.tasks[taskId].(status := Approved)], s.tasks[taskId].planId)
      <==> !OthersApproved(s, taskId)
  {
    var tasks, p := s.tasks[taskId := s.tasks[taskId].(status := Approved)], s.tasks[taskId].planId;
    forall t | t in s.tasks ensures Unapproved(s.tasks[t].status) <==> s.tasks[t].status != Approved {
      assert TaskOk(s.plans, s.quants, index, t, s.tasks[t]);
    }
    if HasOpenTask(tasks, p) {
      var t :| t in tasks && tasks[t].planId == p && Unapproved(tasks[t].status);
      assert t != taskId && t in s.tasks;
    }
    if t :| t in s.tasks && t != taskId && s.tasks[t].planId == p && s.tasks[t].status != Approved {
      assert tasks[t].planId == p && Unapproved(tasks[t].status);
    }
  }

  /** Approving, exactly: only a submitted task can be, and not with a count that differs and is below what is
      reserved. A count that differs becomes the quantity, with one movement of the difference; one that agrees
      leaves the stock alone. The task's freeze ends, and with the plan's last task the plan and all its freezes. */
  lemma {:induction false} ApproveOutcome(s: Tables, taskId: string, index: Index)
    requires Inv(s, index)
    ensures Approve(s, taskId) == Failure(NotFound) <==> taskId !in s.tasks
    ensures Approve(s, taskId) == Failure(WrongStatus) <==> taskId in s.tasks && s.tasks[taskId].status != Submitted
    ensures Approve(s, taskId).Failure? ==> Approve(s, taskId).error in {NotFound, WrongStatus, BelowReserved}
    ensures taskId in s.tasks && s.tasks[taskId].status == Submitted ==>
      var t := s.tasks[taskId];
      && t.counted.Some? && t.quantId in s.quants
      && var counted, quant := t.counted.value, s.quants[t.quantId];
      && (Approve(s, taskId) == Failure(BelowReserved) <==> counted != t.expected && quant.reserved > counted)
      && (Approve(s, taskId).Success? ==>
            var s' := Approve(s, taskId).value;
            && s'.tasks == s.tasks[taskId := t.(status := Approved)]
            && (counted == t.expected ==> s'.quants == s.quants && s'.movements == s.movements)
            && (counted != t.expected ==>
                  && s'.quants == s.quants[t.quantId := Quant(counted, quant.reserved)]
                  && s'.movements == s.movements + [Movement(t.quantId, counted - t.expected, taskId)])
            && s'.plans == (if OthersApproved(s, taskId) then s.plans[t.planId := PlanApproved] else s.plans)
            && |s'.freezes| == |s.freezes|
            && forall i :: 0 <= i < |s.freezes| ==>
                 s'.freezes[i] == if s.freezes[i].planId == t.planId
                                    && (s.freezes[i].quantId == t.quantId || OthersApproved(s, taskId))
                                  then s.freezes[i].(active := false) else s.freezes[i])
  {
    if taskId in s.tasks {
      assert TaskOk(s.plans, s.quants, index, taskId, s.tasks[taskId]);
      CompletesExactlyWhen(s, taskId, index);
    }
  }

  /** The same of rows in any state, even ones that the operations do not leave behind: a difference that was not
      recorded is worked out from the count, or from none as 0; it takes a count and a quant to book one; and the plan
      is complete when no other task of it is open, in progress or submitted. */
  lemma {:induction false} ApproveAnyRow(s: Tables, taskId: string)
    requires taskId in s.tasks && s.tasks[taskId].status == Submitted
    ensures var t, r := s.tasks[taskId], Approve(s, taskId);
      var difference := match t.variance
        case Some(v) => v
        case None => (match t.counted case Some(c) => c case None => 0) - t.expected;
      && (difference != 0 && t.counted == None ==> r == Failure(Incomplete))
      && (difference != 0 && t.counted != None && t.quantId !in s.quants ==> r == Failure(NotFound))
      && (difference == 0 ==> r.Success?)
      && (r.Success? ==>
            var pending := exists u :: u in s.tasks && u != taskId && s.tasks[u].planId == t.planId
                                       && s.tasks[u].status in {Open, InProgress, Submitted};
            && (difference != 0 ==> r.value.movements == s.movements + [Movement(t.quantId, difference, taskId)])
            && r.value.plans == if pending then s.plans else s.plans[t.planId := PlanApproved])
  {
    var tasks, p := s.tasks[taskId := s.tasks[taskId].(status := Approved)], s.tasks[taskId].planId;
    if HasOpenTask(tasks, p) {
      var u :| u in tasks && tasks[u].planId == p && Unapproved(tasks[u].status);
      assert u != taskId && u in s.tasks;
    }
    if u :| u in s.tasks && u != taskId && s.tasks[u].planId == p
            && s.tasks[u].status in {Open, InProgress, Submitted}
    {
      assert tasks[u].planId == p && Unapproved(tasks[u].status);
    }
  }

  // ---------------------------------------------------------------- a plan's status over a run

  /** How far a step's count for the plan is from what was expected, if it submits one. */
  function Submission(s: Tables, a: Action, planId: string): Option<int> {
    if a.SubmitTask? && a.taskId in s.tasks && s.tasks[a.taskId].planId == planId
      && Submit(s, a.taskId, a.counted).Success?
    then Some(a.counted - s.tasks[a.taskId].expected) else None
  }

  function Later(before: Option<int>, after: Option<int>): Option<int> { if after.Some? then after else before }

  /** The same of the last count that a run submits for the plan. */
  ghost function LastSubmission(s: Tables, actions: seq<Action>, planId: string): Option<int>
    decreases |actions|
  {
    if actions == [] then None
    else Later(Submission(s, actions[0], planId), LastSubmission(Next(s, actions[0]), actions[1..], planId))
  }

  ghost predicate AllOpen(s: Tables, planId: string) {
    forall t :: t in s.tasks && s.tasks[t].planId == planId ==> s.tasks[t].status == Open
  }

  ghost predicate StageOk(s: Tables, planId: string, last: Option<int>) {
    planId in s.plans ==>
      match s.plans[planId]
      case Draft => last == None && !HasTask(s.tasks, planId)
      case Released => last == None && AllOpen(s, planId)
      case Counting => last == Some(0) && !AllOpen(s, planId)
      case Reconciling => last.Some? && last.value != 0 && !AllOpen(s, planId)
      case PlanApproved => last.Some? && !AllOpen(s, planId)
      case PlanCancelled => false
  }

  lemma {:induction false} OpenUnaffected(s: Tables, s': Tables, planId: string)
    requires forall t :: t in s.tasks && s.tasks[t].planId == planId ==> t in s'.tasks && s'.tasks[t] == s.tasks[t]
    requires forall t :: t in s'.tasks && s'.tasks[t].planId == planId ==> t in s.tasks && s'.tasks[t] == s.tasks[t]
    ensures AllOpen(s', planId) == AllOpen(s, planId) && HasTask(s'.tasks, planId) == HasTask(s.tasks, planId)
  {
    if !AllOpen(s, planId) {
      var t :| t in s.tasks && s.tasks[t].planId == planId && s.tasks[t].status != Open;
      assert s'.tasks[t].status != Open;
    }
    SamePlanTasks(s.tasks, s'.tasks, planId);
  }

  /** A step that leaves a plan and its tasks alone keeps its stage. */
  lemma {:induction false} StageUnaffected(s: Tables, s': Tables, p: string, last: Option<int>)
    requires StageOk(s, p, last)
    requires p in s'.plans ==> p in s.plans && s'.plans[p] == s.plans[p]
    requires forall t :: t in s.tasks && s.tasks[t].planId == p ==> t in s'.tasks && s'.tasks[t] == s.tasks[t]
    requires forall t :: t in s'.tasks && s'.tasks[t].planId == p ==> t in s.tasks && s'.tasks[t] == s.tasks[t]
    ensures StageOk(s', p, last)
  {
    OpenUnaffected(s, s', p);
  }

  /** A count of a plan's task decides its stage. */
  lemma {:induction false} StageCounted(s: Tables, p: string, taskId: string, difference: int)
    requires taskId in s.tasks && s.tasks[taskId].planId == p && s.tasks[taskId].status != Open
    requires p in s.plans && s.plans[p] == if difference == 0 then Counting else Reconciling
    ensures StageOk(s, p, Some(difference))
  {
  }

  /** An approval either leaves the stage or completes the plan. */
  lemma {:induction false} StageApproved(s: Tables, s': Tables, p: string, taskId: string, last: Option<int>)
    requires StageOk(s, p, last) && p in s.plans && p in s'.plans
    requires taskId in s.tasks && s.tasks[taskId].planId == p && s.tasks[taskId].status != Open
    requires taskId in s'.tasks && s'.tasks[taskId].planId == p && s'.tasks[taskId].status != Open
    requires s'.plans[p] == s.plans[p] || s'.plans[p] == PlanApproved
    ensures StageOk(s', p, last)
  {
    assert HasTask(s.tasks, p) && !AllOpen(s, p) && !AllOpen(s', p);
  }

  lemma {:induction false} ReleaseStages(s: Tables, planId: string, quantIds: seq<string>, taskIds: seq<string>,
                                         s': Tables, index: Index, p: string, last: Option<int>)
    requires Inv(s, index) && Releasable(s, quantIds, taskIds)
    requires Release(s, planId, quantIds, taskIds) == Success(s') && StageOk(s, p, last)
    ensures StageOk(s', p, last)
  {
    var index' := index + NewIndex(planId, quantIds, taskIds);
    forall t | t in s'.tasks && s'.tasks[t].planId == p
      ensures p == planId ==> s'.tasks[t].status == Open
      ensures p != planId ==> t in s.tasks && s'.tasks[t] == s.tasks[t]
    {
      var i := TaskAfterRelease(s, planId, quantIds, taskIds, s', index, index', t);
    }
    forall t | t in s.tasks ensures t in s'.tasks && s'.tasks[t] == s.tasks[t] {
      TaskBeforeRelease(s, planId, quantIds, taskIds, s', index, index', t);
    }
    if p != planId { OpenUnaffected(s, s', p); }
  }

  lemma {:induction false} SubmitStages(s: Tables, taskId: string, counted: nat, s': Tables, index: Index, p: string,
                                        last: Option<int>)
    requires Inv(s, index) && Submit(s, taskId, counted) == Success(s') && StageOk(s, p, last)
    ensures StageOk(s', p, Later(last, Submission(s, SubmitTask(taskId, counted), p)))
  {
    assert TaskOk(s.plans, s.quants, index, taskId, s.tasks[taskId]);
    if p == s.tasks[taskId].planId {
      StageCounted(s', p, taskId, counted - s.tasks[taskId].expected);
    } else {
      StageUnaffected(s, s', p, last);
    }
  }

  lemma {:induction false} ApproveStages(s: Tables, taskId: string, s': Tables, p: string, last: Option<int>)
    requires StageOk(s, p, last)
    requires taskId in s.tasks && s.tasks[taskId].status == Submitted && s.tasks[taskId].planId in s.plans
    requires s'.tasks == s.tasks[taskId := s.tasks[taskId].(status := Approved)]
    requires s'.plans == s.plans || s'.plans == s.plans[s.tasks[taskId].planId := PlanApproved]
    ensures StageOk(s', p, last)
  {
    if p == s.tasks[taskId].planId {
      StageApproved(s, s', p, taskId, last);
    } else {
      StageUnaffected(s, s', p, last);
    }
  }

  lemma {:induction false} ApprovedRows(s: Tables, taskId: string, s': Tables, index: Index)
    requires Inv(s, index) && Approve(s, taskId) == Success(s')
    ensures taskId in s.tasks && s.tasks[taskId].status == Submitted && s.tasks[taskId].planId in s.plans
    ensures s'.tasks == s.tasks[taskId := s.tasks[taskId].(status := Approved)]
    ensures s'.plans == s.plans || s'.plans == s.plans[s.tasks[taskId].planId := PlanApproved]
  {
    ApproveOutcome(s, taskId, index);
    assert TaskOk(s.plans, s.quants, index, taskId, s.tasks[taskId]);
  }

  lemma {:induction false} NewPlanStages(s: Tables, p: string, index: Index)
    requires Inv(s, index) && p !in s.plans
    ensures StageOk(s.(plans := s.plans[p := Draft]), p, None)
  {
    forall t | t in s.tasks ensures s.tasks[t].planId != p { assert TaskOk(s.plans, s.quants, index, t, s.tasks[t]); }
  }

  /** Plans are never removed, and a count is submitted for a plan that there is. */
  lemma {:induction false} PlansGrow(s: Tables, a: Action, index: Index, p: string)
    requires Inv(s, index)
    ensures p in s.plans ==> p in Next(s, a).plans
    ensures Submission(s, a, p).Some? ==> p in s.plans
  {
    if a.SubmitTask? && a.taskId in s.tasks { assert TaskOk(s.plans, s.quants, index, a.taskId, s.tasks[a.taskId]); }
    if a.ApproveTask? && Approve(s, a.taskId).Success? {
      ApprovedRows(s, a.taskId, Approve(s, a.taskId).value, index);
    }
  }

  lemma {:induction false} NextStages(s: Tables, a: Action, index: Index, p: string, last: Option<int>)
    requires Inv(s, index) && StageOk(s, p, last) && (p !in s.plans ==> last == None)
    ensures StageOk(Next(s, a), p, Later(last, Submission(s, a, p)))
    ensures p !in Next(s, a).plans ==> Later(last, Submission(s, a, p)) == None
  {
    PlansGrow(s, a, index, p);
    if Enabled(s, a) && Attempt(s, a).Success? {
      var s' := Attempt(s, a).value;
      match a
      case CreatePlan(planId) =>
        if p == planId { NewPlanStages(s, p, index); } else { StageUnaffected(s, s', p, last); }
      case ReleasePlan(planId, quantIds, taskIds) => ReleaseStages(s, planId, quantIds, taskIds, s', index, p, last);
      case SubmitTask(t, counted) => SubmitStages(s, t, counted, s', index, p, last);
      case ApproveTask(t) =>
        ApprovedRows(s, t, s', index);
        ApproveStages(s, t, s', p, last);
      case Reserve(_, _) => StageUnaffected(s, s', p, last);
    }
  }

  lemma {:induction false} RunStages(s: Tables, actions: seq<Action>, index: Index, p: string, last: Option<int>)
    requires Inv(s, index) && StageOk(s, p, last) && (p !in s.plans ==> last == None)
    ensures StageOk(Run(s, actions), p, Later(last, LastSubmission(s, actions, p)))
    decreases |actions|
  {
    if actions != [] {
      var index' := NextKeepsInv(s, actions[0], index);
      NextStages(s, actions[0], index, p, last);
      RunStages(Next(s, actions[0]), actions[1..], index', p, Later(last, Submission(s, actions[0], p)));
    }
  }

  /** In every run a plan is DRAFT while it has no task, RELEASED while all its tasks are open, APPROVED once all are
      approved, and between those COUNTING or RECONCILING as the last count submitted for it agreed or differed. */
  lemma {:induction false} PlanFollowsCounts(quants: map<string, Quant>, actions: seq<Action>, p: string)
    requires QuantsOk(Stock(quants)) && p in Run(Stock(quants), actions).plans
    ensures var s, last := Run(Stock(quants), actions), LastSubmission(Stock(quants), actions, p);
      && (s.plans[p] == Draft <==> !HasTask(s.tasks, p))
      && (s.plans[p] == Released <==> HasTask(s.tasks, p) && AllOpen(s, p))
      && (s.plans[p] == PlanApproved <==> HasTask(s.tasks, p) && AllApproved(s, p))
      && (s.plans[p] == Counting ==> last == Some(0))
      && (s.plans[p] == Reconciling ==> last.Some? && last.value != 0)
      && s.plans[p] != PlanCancelled
  {
    var s := Run(Stock(quants), actions);
    var index := RunKeepsInv(Stock(quants), actions, map[]);
    RunStages(Stock(quants), actions, map[], p, None);
    FreezesFollowTasks(quants, actions);
    assert PlanOk(s.tasks, p, s.plans[p]);
  }
}
