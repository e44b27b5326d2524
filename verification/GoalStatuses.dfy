/** Who takes a Goal into each of its statuses, on what grounds, and the reason it then shows. */
module GoalStatuses {
  import opened Prelude
  import opened GoalDecision
  import opened SessionState
  import opened GoalProtocol
  import opened GoalInvariant
  import opened GoalRuns

  /** What the evidence says is so of the latest Run, as it is stored. */
  ghost predicate Backed(w: World, goal: Goal, evidence: Evidence) {
    && (evidence.admissionError.Some? ==> goal.runIds != [] && Refused(w, goal.runIds[|goal.runIds| - 1]))
    && (evidence.terminalStatus.Some? ==>
          && goal.runIds != [] && goal.runIds[|goal.runIds| - 1] in w.ended
          && w.ended[goal.runIds[|goal.runIds| - 1]] == evidence.terminalStatus.value)
  }

  /** The Host decided, on evidence about the latest Run. */
  ghost predicate ByRun(w: World, step: Step, was: Goal, goal: Goal) {
    && step.Patch? && w.pc.Patching? && w.pc.goal == was && Backed(w, was, w.pc.evidence)
    && goal.lastReason.Some? && Explains(was, w.pc.evidence, goal.lastReason.value)
  }

  /** The user decided, and the Goal shows it. */
  ghost predicate ByUser(w: World, step: Step, was: Goal, goal: Goal, action: Control, reason: string) {
    && step.Save? && w.pc.Controlling? && w.pc.goal == was && w.pc.action == action
    && goal.lastReason == Some(reason)
  }

  /** What a change of status says. */
  ghost predicate Grounds(w: World, step: Step, was: Goal, goal: Goal) {
    match goal.status
    case Failed => ByRun(w, step, was, goal) && FailsGoal(was, w.pc.evidence)
    case Paused =>
      || (ByRun(w, step, was, goal) && PausesGoal(was, w.pc.evidence))
      || (ByUser(w, step, was, goal, Pause, "user_paused") && was.status == Active)
    case BudgetExhausted => ByRun(w, step, was, goal) && Workable(was, w.pc.evidence) && |was.runIds| >= was.maxRuns
    case AwaitingReview => ByRun(w, step, was, goal) && ReviewsGoal(was, w.pc.evidence)
    case Completed => ByUser(w, step, was, goal, Complete, "user_confirmed") && was.status == AwaitingReview
    case Stopped => ByUser(w, step, was, goal, Stop, "user_stopped") && was.status != Completed
    case Active =>
      && ByUser(w, step, was, goal, Control.Resume, "user_resumed")
      && was.status !in {AwaitingReview, Completed, Stopped}
      && |goal.runIds| < goal.maxRuns <= 8 && goal.maxRuns == w.pc.maxRuns
  }

  /** All that a change of status leaves of the Goal. */
  predicate SameGoal(was: Goal, goal: Goal) {
    goal == was.(status := goal.status, maxRuns := goal.maxRuns, lastReason := goal.lastReason,
                 planProgress := goal.planProgress, updatedAt := goal.updatedAt)
  }

  lemma {:induction false} PatchGrounds(w: World, v: World, sid: string, was: Goal, goal: Goal, at: string)
    requires Inv(w, sid) && Next(sid, w, Patch(at), v) && GoalOf(w, sid) == Some(was) && GoalOf(v, sid) == Some(goal)
    requires was.status != goal.status
    ensures Grounds(w, Patch(at), was, goal) && SameGoal(was, goal) && goal.maxRuns == was.maxRuns
  {
    GoalMoves(w, Patch(at), v, sid);
    DecisionMeaning(was, w.pc.evidence);
    DecisionReason(was, w.pc.evidence);
  }

  lemma {:induction false} SaveGrounds(w: World, v: World, sid: string, was: Goal, goal: Goal, at: string)
    requires Inv(w, sid) && Next(sid, w, Save(at), v) && GoalOf(w, sid) == Some(was) && GoalOf(v, sid) == Some(goal)
    requires was.status != goal.status
    ensures Grounds(w, Save(at), was, goal) && SameGoal(was, goal) && goal.planProgress == was.planProgress
  {
    GoalMoves(w, Save(at), v, sid);
  }

  /**
   * Whenever a Goal changes its status: who did it, what the stored Run or the user says for it,
   * and the reason shown; nothing else of the Goal changes.
   */
  lemma StatusChanges(sid: string, worlds: seq<World>, steps: seq<Step>, k: nat, was: Goal, goal: Goal)
    requires Behaviour(sid, worlds, steps) && k < |steps| && GoalOf(worlds[k], sid) == Some(was) && GoalOf(worlds[k + 1], sid) == Some(goal)
    requires goal.goalId == was.goalId && goal.status != was.status
    ensures Grounds(worlds[k], steps[k], was, goal) && SameGoal(was, goal)
  {
    Reachable(sid, worlds, steps, k);
    assert Took(sid, worlds, steps, k);
    match steps[k] {
      case Patch(at) => PatchGrounds(worlds[k], worlds[k + 1], sid, was, goal, at);
      case Save(at) => SaveGrounds(worlds[k], worlds[k + 1], sid, was, goal, at);
      case _ => OthersKeepStatus(worlds[k], steps[k], worlds[k + 1], sid, was, goal);
    }
  }

  lemma {:induction false} OthersKeepStatus(w: World, step: Step, v: World, sid: string, was: Goal, goal: Goal)
    requires Inv(w, sid) && Next(sid, w, step, v) && GoalOf(w, sid) == Some(was) && GoalOf(v, sid) == Some(goal)
    requires goal.goalId == was.goalId && !step.Patch? && !step.Save?
    ensures goal.status == was.status
  {
    GoalMoves(w, step, v, sid);
  }

  /** What the user may do with a Goal: every Goal but a completed or stopped one can be stopped. */
  lemma ControlsExactly(sid: string, w: World, goal: Goal, action: Control, maxRuns: int)
    requires w.pc == Idle && GoalOf(w, sid) == Some(goal)
    ensures Next(sid, w, BeginControl(action, maxRuns), w.(pc := Controlling(goal, action, maxRuns))) <==>
              match action
              case Pause => goal.status == Active
              case Complete => goal.status == AwaitingReview
              case Stop => goal.status != Completed && goal.status != Stopped
              case Resume =>
                && goal.status !in {Active, AwaitingReview, Completed, Stopped}
                && 1 <= maxRuns <= 8 && |goal.runIds| < maxRuns
  {
    var s := goal.status;
    assert s.Active? || s.Paused? || s.AwaitingReview? || s.Completed? || s.Stopped? || s.BudgetExhausted? || s.Failed?;
  }

  /** When a session may be given a new Goal: it has none, or one from another source that neither runs nor waits. */
  lemma NewGoalExactly(sid: string, w: World, g: Goal)
    requires w.pc == Idle && HasSession(w, sid) && g.goalId !in w.goals
    requires g.status == Active && g.runIds == [] && 1 <= g.maxRuns <= 8
    ensures Next(sid, w, BeginCreate(g), w.(pc := Creating(g), goals := w.goals + {g.goalId})) <==>
              || GoalOf(w, sid).None?
              || (var last := GoalOf(w, sid).value;
                  last.sourceEventId != g.sourceEventId && last.status !in {Active, Paused, AwaitingReview})
  {
  }
}
