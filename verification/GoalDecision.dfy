/**
 * The decision a Host takes about a Session Goal after each Run: from the Run's terminal
 * status and the durable plan alone, continue, settle or wait.
 */
module GoalDecision {
  import opened Prelude

  const GOAL_MAX_RUNS_LIMIT := 8

  datatype GoalStatus = Active | Paused | AwaitingReview | Completed | Stopped | BudgetExhausted | Failed

  datatype PermissionMode = Readonly | ContainedWrite

  datatype Progress = Progress(completed: nat, total: nat, open: nat, blocked: nat)

  datatype Goal = Goal(
    goalId: string, objective: string, status: GoalStatus, maxRuns: int, runIds: seq<string>,
    permissionMode: PermissionMode, resourceRefs: seq<string>, sourceEventId: Option<string>,
    lastReason: Option<string>, planProgress: Option<(nat, nat)>, createdAt: string, updatedAt: string)

  datatype TaskStatus = Pending | InProgress | Done | Abandoned | Blocked

  datatype Task = Task(content: string, status: TaskStatus, blocker: Option<string>)

  datatype Phase = Phase(name: string, tasks: seq<Task>)

  datatype Plan = Plan(phases: seq<Phase>)

  /** What is durably known about the latest Run of a Goal. */
  datatype Evidence = Evidence(
    terminalStatus: Option<string>, admissionError: Option<string>, failureReason: Option<string>,
    plan: Option<Plan>, hasFinalText: bool)

  datatype Decision =
    | Wait
    | Continue(reason: string)
    | Settle(status: GoalStatus, why: string)

  // ---------------------------------------------------------------- counting a plan

  function Tasks(phases: seq<Phase>): seq<Task> {
    if phases == [] then [] else phases[0].tasks + Tasks(phases[1..])
  }

  function CountIn(tasks: seq<Task>, statuses: set<TaskStatus>): nat {
    if tasks == [] then 0
    else CountIn(tasks[..|tasks| - 1], statuses) + if tasks[|tasks| - 1].status in statuses then 1 else 0
  }

  const OPEN := {Pending, InProgress, Blocked}

  /** Counts by meaning: open items are those neither completed nor abandoned; no items is no progress. */
  function PlanProgress(plan: Option<Plan>): Option<Progress> {
    match plan
    case None => None
    case Some(p) =>
      var tasks := Tasks(p.phases);
      if tasks == [] then None
      else Some(Progress(CountIn(tasks, {Done}), |tasks|, CountIn(tasks, OPEN), CountIn(tasks, {Blocked})))
  }

  lemma {:induction false} TasksSnoc(phases: seq<Phase>, i: nat)
    requires i < |phases|
    ensures Tasks(phases[..i + 1]) == Tasks(phases[..i]) + phases[i].tasks
    decreases i
  {
    if i == 0 {
      assert phases[..1] == [phases[0]];
      assert phases[..1][1..] == [];
    } else {
      TasksSnoc(phases[1..], i - 1);
      assert phases[..i + 1][1..] == phases[1..][..i];
      assert phases[..i][1..] == phases[1..][..i - 1];
    }
  }

  lemma {:induction false} CountSnoc(tasks: seq<Task>, task: Task, statuses: set<TaskStatus>)
    ensures CountIn(tasks + [task], statuses) == CountIn(tasks, statuses) + if task.status in statuses then 1 else 0
  {
    assert (tasks + [task])[..|tasks|] == tasks;
  }

  /** The counters of the source, one pass over the phases and their tasks. */
  method CountPlan(plan: Option<Plan>) returns (progress: Option<Progress>)
    ensures progress == PlanProgress(plan)
  {
    if plan == None { return None; }
    var phases := plan.value.phases;
    var completed, total, open, blocked := 0, 0, 0, 0;
    ghost var seen: seq<Task> := [];
    for i := 0 to |phases|
      invariant seen == Tasks(phases[..i])
      invariant total == |seen| && completed == CountIn(seen, {Done})
      invariant open == CountIn(seen, OPEN) && blocked == CountIn(seen, {Blocked})
    {
      TasksSnoc(phases, i);
      var tasks := phases[i].tasks;
      for j := 0 to |tasks|
        invariant seen == Tasks(phases[..i]) + tasks[..j]
        invariant total == |seen| && completed == CountIn(seen, {Done})
        invariant open == CountIn(seen, OPEN) && blocked == CountIn(seen, {Blocked})
      {
        var task := tasks[j];
        CountSnoc(seen, task, {Done});
        CountSnoc(seen, task, OPEN);
        CountSnoc(seen, task, {Blocked});
        seen := seen + [task];
        total := total + 1;
        if task.status == Done {
          completed := completed + 1;
        } else if task.status != Abandoned {
          open := open + 1;
        }
        if task.status == Blocked { blocked := blocked + 1; }
      }
      assert tasks[..|tasks|] == tasks;
    }
    assert phases[..|phases|] == phases;
    return if total == 0 then None else Some(Progress(completed, total, open, blocked));
  }

  // ---------------------------------------------------------------- deciding

  function DecideGoal(goal: Goal, latest: Evidence): Decision {
    if goal.status != Active then Wait
    else if latest.admissionError.Some? then Settle(Failed, "run_failed:" + latest.admissionError.value)
    else if latest.terminalStatus.None? then Wait
    else
      var exhausted := |goal.runIds| >= goal.maxRuns;
      var terminal := latest.terminalStatus.value;
      if terminal == "cancelled" then Settle(Paused, "run_cancelled")
      else if terminal == "failed" then
        Settle(Failed, "run_failed:" + if latest.failureReason.Some? then latest.failureReason.value else "unknown")
      else if terminal == "awaiting_input" || terminal == "awaiting_approval" then Settle(Paused, "run_" + terminal)
      else if terminal == "timed_out" then
        if exhausted then Settle(BudgetExhausted, "budget_exhausted") else Continue("run_timed_out")
      else if terminal == "completed" then
        match PlanProgress(latest.plan)
        case None => Settle(AwaitingReview, "final_answer_without_plan")
        case Some(progress) =>
          if progress.open == 0 then Settle(AwaitingReview, "plan_complete")
          else if progress.open == progress.blocked then Settle(Paused, "plan_blocked")
          else if exhausted then Settle(BudgetExhausted, "budget_exhausted")
          else Continue("plan_incomplete")
      else Wait
  }

  // ---------------------------------------------------------------- what a decision means

  predicate AllResolved(plan: Option<Plan>) {
    plan.Some? ==> forall p, t | p in plan.value.phases && t in p.tasks :: t.status == Done || t.status == Abandoned
  }

  /** Every open item waits for the user. */
  predicate OnlyBlockedLeft(plan: Plan) {
    forall p, t | p in plan.phases && t in p.tasks :: t.status == Done || t.status == Abandoned || t.status == Blocked
  }

  predicate NoItems(plan: Option<Plan>) {
    plan.Some? ==> forall p | p in plan.value.phases :: p.tasks == []
  }

  /** The items of a plan are those of its phases. */
  lemma {:induction false} ItemsOfPhases(phases: seq<Phase>)
    ensures forall t :: t in Tasks(phases) <==> exists p :: p in phases && t in p.tasks
    ensures Tasks(phases) == [] <==> forall p | p in phases :: p.tasks == []
  {
    if phases != [] {
      ItemsOfPhases(phases[1..]);
      assert phases == [phases[0]] + phases[1..];
    }
  }

  lemma {:induction false} CountMeaning(tasks: seq<Task>)
    ensures CountIn(tasks, OPEN) == 0 <==> forall t <- tasks :: t.status in {Done, Abandoned}
    ensures CountIn(tasks, {Blocked}) <= CountIn(tasks, OPEN)
    ensures CountIn(tasks, {Blocked}) == CountIn(tasks, OPEN) <==> forall t <- tasks :: t.status in {Done, Abandoned, Blocked}
    ensures CountIn(tasks, {Done}) + CountIn(tasks, {Abandoned}) + CountIn(tasks, OPEN) == |tasks|
    decreases |tasks|
  {
    if tasks != [] {
      var n := |tasks| - 1;
      var last := tasks[n].status;
      CountMeaning(tasks[..n]);
      assert tasks == tasks[..n] + [tasks[n]];
      assert last in {Done} <==> last == Done;
      assert last in OPEN <==> last !in {Done, Abandoned};
      assert last in {Blocked} <==> last == Blocked;
    }
  }

  /** The Run of an active Goal was admitted. */
  predicate Admitted(goal: Goal, latest: Evidence) {
    goal.status == Active && latest.admissionError.None?
  }

  predicate Ended(goal: Goal, latest: Evidence, status: string) {
    Admitted(goal, latest) && latest.terminalStatus == Some(status)
  }

  predicate FailsGoal(goal: Goal, latest: Evidence) {
    (goal.status == Active && latest.admissionError.Some?) || Ended(goal, latest, "failed")
  }

  /** The user is needed: the Run was stopped or suspended, or whatever is open in the plan is blocked. */
  predicate PausesGoal(goal: Goal, latest: Evidence) {
    || Ended(goal, latest, "cancelled") || Ended(goal, latest, "awaiting_input") || Ended(goal, latest, "awaiting_approval")
    || (Ended(goal, latest, "completed") && !AllResolved(latest.plan) && OnlyBlockedLeft(latest.plan.value))
  }

  /** Another Run could go on: the last one timed out, or left an item that is not blocked. */
  predicate Workable(goal: Goal, latest: Evidence) {
    || Ended(goal, latest, "timed_out")
    || (Ended(goal, latest, "completed") && latest.plan.Some? && !OnlyBlockedLeft(latest.plan.value))
  }

  predicate ReviewsGoal(goal: Goal, latest: Evidence) {
    Ended(goal, latest, "completed") && AllResolved(latest.plan)
  }

  predicate Undecided(goal: Goal, latest: Evidence) {
    || goal.status != Active
    || (latest.admissionError.None?
        && (latest.terminalStatus.Some? ==>
              latest.terminalStatus.value !in {"completed", "failed", "timed_out", "cancelled", "awaiting_input", "awaiting_approval"}))
  }

  /**
   * Each outcome by what the user can see, and the reason given for it. A Goal is put up for
   * review exactly when its Run completed with every plan item resolved; another Run is asked for
   * exactly when one could go on and the budget allows it.
   */
  lemma DecisionMeaning(goal: Goal, latest: Evidence)
    ensures var decision := DecideGoal(goal, latest);
            var spent := |goal.runIds| >= goal.maxRuns;
            && (decision.Settle? && decision.status == Failed <==> FailsGoal(goal, latest))
            && (decision.Settle? && decision.status == Paused <==> PausesGoal(goal, latest))
            && (decision.Settle? && decision.status == AwaitingReview <==> ReviewsGoal(goal, latest))
            && (decision.Settle? && decision.status == BudgetExhausted <==> Workable(goal, latest) && spent)
            && (decision.Continue? <==> Workable(goal, latest) && !spent)
            && (decision.Wait? <==> Undecided(goal, latest))
            && (decision.Settle? ==> decision.status !in {Active, Completed, Stopped})
  {
    ProgressMeaning(latest.plan);
  }

  /** The reason the Goal shows. */
  ghost predicate Explains(goal: Goal, latest: Evidence, reason: string) {
    && (FailsGoal(goal, latest) ==>
          reason == "run_failed:" + if latest.admissionError.Some? then latest.admissionError.value
                                    else if latest.failureReason.Some? then latest.failureReason.value else "unknown")
    && (PausesGoal(goal, latest) ==>
          reason == if latest.terminalStatus == Some("completed") then "plan_blocked" else "run_" + latest.terminalStatus.value)
    && (ReviewsGoal(goal, latest) ==>
          reason == if NoItems(latest.plan) then "final_answer_without_plan" else "plan_complete")
    && (Workable(goal, latest) ==>
          reason == if |goal.runIds| >= goal.maxRuns then "budget_exhausted"
                    else if latest.terminalStatus == Some("timed_out") then "run_timed_out" else "plan_incomplete")
  }

  lemma DecisionReason(goal: Goal, latest: Evidence)
    ensures match DecideGoal(goal, latest)
            case Wait => true
            case Continue(reason) => Explains(goal, latest, reason)
            case Settle(_, why) => Explains(goal, latest, why)
  {
    ProgressMeaning(latest.plan);
  }

  /** The progress shown: how many items are completed, of how many, unless there are none. */
  lemma {:induction false} ProgressMeaning(plan: Option<Plan>)
    ensures PlanProgress(plan).None? <==> NoItems(plan)
    ensures PlanProgress(plan).Some? ==>
              var p := PlanProgress(plan).value;
              && p.total == |Tasks(plan.value.phases)| && p.blocked <= p.open
              && (p.open == 0 <==> AllResolved(plan)) && (p.open == p.blocked <==> OnlyBlockedLeft(plan.value))
              && (p.completed == p.total <==> forall q, t | q in plan.value.phases && t in q.tasks :: t.status == Done)
  {
    if plan.Some? {
      CountMeaning(Tasks(plan.value.phases));
      CountAll(Tasks(plan.value.phases));
      ItemsOfPhases(plan.value.phases);
    }
  }

  lemma {:induction false} CountAll(tasks: seq<Task>)
    ensures CountIn(tasks, {Done}) <= |tasks|
    ensures CountIn(tasks, {Done}) == |tasks| <==> forall t <- tasks :: t.status == Done
  {
    if tasks != [] {
      var n := |tasks| - 1;
      CountAll(tasks[..n]);
      assert tasks == tasks[..n] + [tasks[n]];
    }
  }
}
