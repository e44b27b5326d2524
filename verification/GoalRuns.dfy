/**
 * What the Session Goal protocol guarantees over whole behaviours: safety of the Run references,
 * a bound on the Runs that ever exist for a Goal, who completes a Goal and on what evidence,
 * finality, and the shrinking budget.
 */
module GoalRuns {
  import opened Prelude
  import opened GoalDecision
  import opened SessionState
  import opened GoalProtocol
  import opened GoalInvariant

  // ---------------------------------------------------------------- how the Goal of the session moves

  /** Every way a step can change the session's Goal, and on whose knowledge. */
  ghost predicate Moves(w: World, step: Step, before: Option<Goal>, after: Option<Goal>) {
    || after == before
    || (step.WriteGoal? && w.pc.Creating? && after == Some(w.pc.goal))
    || (before.Some? && after.Some? && match step
        case Decide(evidence, at) =>
          && w.pc.Deciding? && w.pc.goal == before.value
          && after.value == Patched(before.value, Wait, evidence.plan, at)
        case Patch(at) =>
          && w.pc.Patching? && w.pc.goal == before.value
          && after.value == Patched(before.value, DecideGoal(before.value, w.pc.evidence), w.pc.evidence.plan, at)
        case Save(at) =>
          && w.pc.Controlling? && w.pc.goal == before.value
          && after.value == Controlled(before.value, w.pc.action, w.pc.maxRuns, at)
        case LinkRun(at) =>
          && w.pc.Linking? && w.pc.goal == before.value
          && after.value == Link(before.value, w.pc.run.runId, at)
        case _ => false)
  }

  lemma {:induction false} GoalMoves(w: World, step: Step, v: World, sid: string)
    requires Inv(w, sid) && Next(sid, w, step, v)
    ensures Moves(w, step, GoalOf(w, sid), GoalOf(v, sid))
  {
    match step {
      case WriteGoal => SetWrites(w, sid, w.pc.goal, v);
      case Decide(evidence, at) =>
        if v.store != w.store { AmendWrites(w, sid, w.pc.goal, g => Patched(g, Wait, evidence.plan, at), v); }
      case Patch(at) =>
        var decision, plan := DecideGoal(w.pc.goal, w.pc.evidence), w.pc.evidence.plan;
        AmendWrites(w, sid, w.pc.goal, g => Patched(g, decision, plan, at), v);
      case Save(at) =>
        var action, maxRuns := w.pc.action, w.pc.maxRuns;
        AmendWrites(w, sid, w.pc.goal, g => Controlled(g, action, maxRuns, at), v);
      case LinkRun(at) =>
        var id := w.pc.run.runId;
        AmendWrites(w, sid, w.pc.goal, g => Link(g, id, at), v);
      case _ => StillGoal(w, step, v, sid);
    }
  }

  lemma StillGoal(w: World, step: Step, v: World, sid: string)
    requires WellFormed(w.store) && Next(sid, w, step, v)
    requires !step.WriteGoal? && !step.Decide? && !step.Patch? && !step.Save? && !step.LinkRun?
    ensures GoalOf(v, sid) == GoalOf(w, sid)
  {
    if ByOthers(step) {
      OthersGrow(w, step, v, sid);
    } else if step.Submit? {
      CreateKeepsGoal(w, sid, step.run, v);
    }
  }

  // ---------------------------------------------------------------- completion

  /** The evidence on which a Goal may be put up for review. */
  ghost predicate Finished(w: World, goal: Goal, evidence: Evidence) {
    && goal.runIds != []
    && var latest := goal.runIds[|goal.runIds| - 1];
       && latest in w.ended && w.ended[latest] == "completed" && AllResolved(evidence.plan)
       && evidence.terminalStatus == Some("completed") && evidence.admissionError.None?
  }

  /**
   * A Goal becomes `completed` only when the user confirms one that is awaiting review, and it
   * comes to await review only because its latest Run has completed with nothing open in the plan.
   */
  lemma {:induction false} CompletionStep(w: World, step: Step, v: World, sid: string, goal: Goal, was: Goal)
    requires Inv(w, sid) && Next(sid, w, step, v)
    requires GoalOf(v, sid) == Some(goal) && GoalOf(w, sid) == Some(was) && was.status != goal.status
    ensures goal.status == Completed ==>
              step.Save? && w.pc == Controlling(was, Complete, w.pc.maxRuns) && was.status == AwaitingReview && was.goalId == goal.goalId
    ensures goal.status == AwaitingReview ==>
              step.Patch? && w.pc == Patching(was, w.pc.evidence) && was.goalId == goal.goalId && Finished(w, was, w.pc.evidence)
    ensures goal.status == Active ==> step.WriteGoal? || (step.Save? && w.pc == Controlling(was, Resume, w.pc.maxRuns))
  {
    GoalMoves(w, step, v, sid);
    if step.Patch? {
      DecisionMeaning(was, w.pc.evidence);
    }
  }

  // ---------------------------------------------------------------- ids are used once

  /** An id that has been given out and is not about to be written for the first time. */
  ghost predicate Known(w: World, id: string) {
    id in w.goals && (w.pc.Creating? ==> w.pc.goal.goalId != id)
  }

  ghost predicate Holds(w: World, sid: string, id: string) {
    GoalOf(w, sid).Some? && GoalOf(w, sid).value.goalId == id
  }

  lemma {:induction false} KnownStep(w: World, step: Step, v: World, sid: string, id: string)
    requires Inv(w, sid) && Next(sid, w, step, v) && Known(w, id)
    ensures Known(v, id)
    ensures Holds(v, sid, id) ==> Holds(w, sid, id)
  {
    GoalMoves(w, step, v, sid);
    KnownPc(w, step, v, sid);
  }

  lemma KnownPc(w: World, step: Step, v: World, sid: string)
    requires Next(sid, w, step, v)
    ensures w.goals <= v.goals
    ensures v.pc.Creating? ==> v.pc == w.pc || v.pc.goal.goalId !in w.goals
  {
  }

  // ---------------------------------------------------------------- the Runs of a Goal are numbered within its budget

  predicate Carries(run: Run, sid: string, id: string) {
    run.sessionId == sid && run.goalId == Some(id)
  }

  ghost predicate Indexed(goal: Goal, source: string) {
    exists i: nat :: 1 <= i <= |goal.runIds| + 1 && i <= goal.maxRuns && source == Source(goal.goalId, i)
  }

  /** Every Run of the session that carries a Goal's id is one of its numbered Runs. */
  ghost predicate Numbered(w: World, sid: string) {
    && (forall r <- w.store.runs :: r.sessionId == sid && r.goalId.Some? ==> r.goalId.value in w.goals)
    && (GoalOf(w, sid).Some? ==>
          forall r <- w.store.runs :: Carries(r, sid, GoalOf(w, sid).value.goalId) ==> Indexed(GoalOf(w, sid).value, r.sourceEventId))
    && (w.pc.Creating? ==> forall r <- w.store.runs :: !Carries(r, sid, w.pc.goal.goalId))
  }

  /** A Run was there before, up to its admission, or is the one being submitted, or is nobody's. */
  ghost predicate Accounted(w: World, step: Step, sid: string, run: Run) {
    || run.sessionId != sid
    || run.goalId == None
    || (exists q <- w.store.runs :: q.sessionId == run.sessionId && q.goalId == run.goalId && q.sourceEventId == run.sourceEventId)
    || (step.Submit? && w.pc.Submitting? && run.goalId == Some(w.pc.goal.goalId)
        && run.sourceEventId == Source(w.pc.goal.goalId, |w.pc.goal.runIds| + 1))
  }

  lemma {:induction false} RunsCome(w: World, step: Step, v: World, sid: string, run: Run)
    requires Inv(w, sid) && Next(sid, w, step, v) && run in v.store.runs
    ensures Accounted(w, step, sid, run)
  {
    if step.Mark? {
      var r := MarkRunAdmission(w.store, step.runId, step.status, step.error);
      if r.Ok? {
        var i := FindRun(w.store.runs, step.runId).value;
        var j: nat :| j < |v.store.runs| && v.store.runs[j] == run;
        assert w.store.runs[j] in w.store.runs;
      }
    } else if run !in w.store.runs {
      NewRun(w, step, v, sid, run);
    }
  }

  /** The steps that write the Goal leave the Runs alone. */
  lemma {:induction false} WritesKeepRuns(w: World, step: Step, v: World, sid: string)
    requires Inv(w, sid) && Next(sid, w, step, v) && !step.Submit? && !ByOthers(step)
    ensures v.store.runs == w.store.runs && v.ended == w.ended
  {
    match step {
      case WriteGoal => SetWrites(w, sid, w.pc.goal, v);
      case Decide(evidence, at) =>
        if v.store != w.store { AmendWrites(w, sid, w.pc.goal, g => Patched(g, Wait, evidence.plan, at), v); }
      case Patch(at) =>
        var decision, plan := DecideGoal(w.pc.goal, w.pc.evidence), w.pc.evidence.plan;
        AmendWrites(w, sid, w.pc.goal, g => Patched(g, decision, plan, at), v);
      case Save(at) =>
        var action, maxRuns := w.pc.action, w.pc.maxRuns;
        AmendWrites(w, sid, w.pc.goal, g => Controlled(g, action, maxRuns, at), v);
      case LinkRun(at) =>
        var id := w.pc.run.runId;
        AmendWrites(w, sid, w.pc.goal, g => Link(g, id, at), v);
      case _ =>
    }
  }

  lemma {:induction false} NewRun(w: World, step: Step, v: World, sid: string, run: Run)
    requires Inv(w, sid) && Next(sid, w, step, v) && run in v.store.runs && run !in w.store.runs && !step.Mark?
    ensures (step.Submit? || step.OtherRun?) && run == step.run
  {
    if !step.Submit? && !ByOthers(step) { WritesKeepRuns(w, step, v, sid); }
  }

  /** An index that was within reach of a Goal stays so as the Goal changes. */
  lemma {:induction false} IndexedMoves(w: World, step: Step, v: World, sid: string, before: Goal, after: Goal, source: string)
    requires Inv(w, sid) && Moves(w, step, Some(before), Some(after)) && GoalOf(w, sid) == Some(before)
    requires after.goalId == before.goalId && !(step.WriteGoal? && w.pc.Creating?)
    requires Indexed(before, source)
    ensures Indexed(after, source)
  {
    var i: nat :| 1 <= i <= |before.runIds| + 1 && i <= before.maxRuns && source == Source(before.goalId, i);
    assert i <= |after.runIds| + 1 && i <= after.maxRuns;
  }

  lemma {:induction false} NumberedStep(w: World, step: Step, v: World, sid: string)
    requires Inv(w, sid) && Numbered(w, sid) && Next(sid, w, step, v)
    ensures Numbered(v, sid)
  {
    GoalMoves(w, step, v, sid);
    KnownPc(w, step, v, sid);
    forall r | r in v.store.runs && r.sessionId == sid && r.goalId.Some?
      ensures r.goalId.value in v.goals
      ensures Holds(v, sid, r.goalId.value) ==> Indexed(GoalOf(v, sid).value, r.sourceEventId)
      ensures v.pc.Creating? ==> !Carries(r, sid, v.pc.goal.goalId)
    {
      RunsCome(w, step, v, sid, r);
      NumberedRun(w, step, v, sid, r);
    }
  }

  lemma {:induction false} NumberedRun(w: World, step: Step, v: World, sid: string, r: Run)
    requires Inv(w, sid) && Numbered(w, sid) && Next(sid, w, step, v)
    requires r.sessionId == sid && r.goalId.Some? && Accounted(w, step, sid, r)
    requires Moves(w, step, GoalOf(w, sid), GoalOf(v, sid))
    requires w.goals <= v.goals && (v.pc.Creating? ==> v.pc == w.pc || v.pc.goal.goalId !in w.goals)
    ensures r.goalId.value in v.goals
    ensures Holds(v, sid, r.goalId.value) ==> Indexed(GoalOf(v, sid).value, r.sourceEventId)
    ensures v.pc.Creating? ==> !Carries(r, sid, v.pc.goal.goalId)
  {
    if q :| q in w.store.runs && q.sessionId == sid && q.goalId == r.goalId && q.sourceEventId == r.sourceEventId {
      OldRunNumbered(w, step, v, sid, r, q);
    } else {
      assert GoalOf(w, sid) == Some(w.pc.goal) && GoalOf(v, sid) == GoalOf(w, sid);
      assert r.sourceEventId == Source(w.pc.goal.goalId, |w.pc.goal.runIds| + 1);
    }
  }

  lemma {:induction false} OldRunNumbered(w: World, step: Step, v: World, sid: string, r: Run, q: Run)
    requires Inv(w, sid) && Numbered(w, sid) && Moves(w, step, GoalOf(w, sid), GoalOf(v, sid))
    requires q in w.store.runs && q.sessionId == sid && q.goalId == r.goalId && q.sourceEventId == r.sourceEventId
    requires r.sessionId == sid && r.goalId.Some?
    requires w.goals <= v.goals && (v.pc.Creating? ==> v.pc == w.pc || v.pc.goal.goalId !in w.goals)
    ensures r.goalId.value in v.goals
    ensures Holds(v, sid, r.goalId.value) ==> Indexed(GoalOf(v, sid).value, r.sourceEventId)
    ensures v.pc.Creating? ==> !Carries(r, sid, v.pc.goal.goalId)
  {
    var id := r.goalId.value;
    assert id in w.goals && Carries(q, sid, id);
    assert w.pc.Creating? ==> id != w.pc.goal.goalId;
    if Holds(v, sid, id) {
      if step.WriteGoal? { assert GoalOf(v, sid) == GoalOf(w, sid); }
      var before, after := GoalOf(w, sid).value, GoalOf(v, sid).value;
      if before != after { IndexedMoves(w, step, v, sid, before, after, r.sourceEventId); }
    }
  }

  ghost predicate Among(goalId: string, n: nat, source: string) {
    exists i: nat :: 1 <= i <= n && source == Source(goalId, i)
  }

  /** As many things as they have different numbers among 1..n are at most n. */
  lemma {:induction false} AtMost<T(!new)>(things: set<T>, number: T -> nat, n: nat)
    requires forall x <- things :: 1 <= number(x) <= n
    requires forall x, y | x in things && y in things && number(x) == number(y) :: x == y
    ensures |things| <= n
  {
    if x :| x in things {
      var last := things - (set y | y in things && number(y) < n);
      if y :| y in last { assert last == {y}; }
      AtMost(things - last, number, n - 1);
      assert things == (things - last) + last;
    }
  }

  ghost function NumberOf(goalId: string, n: nat, source: string): (i: nat)
    ensures Among(goalId, n, source) ==> 1 <= i <= n && source == Source(goalId, i)
  {
    if Among(goalId, n, source) then
      var i: nat :| 1 <= i <= n && source == Source(goalId, i);
      i
    else 0
  }

  function RunsOf(w: World, sid: string, id: string): set<Run> {
    set r | r in w.store.runs && Carries(r, sid, id)
  }

  lemma WithinBudget(w: World, sid: string, goal: Goal)
    requires Inv(w, sid) && Numbered(w, sid) && GoalOf(w, sid) == Some(goal)
    ensures |RunsOf(w, sid, goal.goalId)| <= goal.maxRuns <= 8
  {
    var runs := RunsOf(w, sid, goal.goalId);
    forall r | r in runs
      ensures Among(goal.goalId, goal.maxRuns, r.sourceEventId)
    {
      assert Indexed(goal, r.sourceEventId);
    }
    forall r, q | r in runs && q in runs && r.sourceEventId == q.sourceEventId
      ensures r == q
    {
      var i: nat :| i < |w.store.runs| && w.store.runs[i] == r;
      var j: nat :| j < |w.store.runs| && w.store.runs[j] == q;
      FoundSource(w.store.runs, i);
      FoundSource(w.store.runs, j);
    }
    AtMost(runs, (r: Run) => NumberOf(goal.goalId, goal.maxRuns, r.sourceEventId), goal.maxRuns);
  }

  // ---------------------------------------------------------------- whole behaviours

  ghost predicate Took(sid: string, worlds: seq<World>, steps: seq<Step>, k: nat)
    requires k < |steps| && k + 1 < |worlds|
  {
    Next(sid, worlds[k], steps[k], worlds[k + 1])
  }

  /** A behaviour: a first world and the steps taken from it. */
  ghost predicate Behaviour(sid: string, worlds: seq<World>, steps: seq<Step>) {
    && |worlds| == |steps| + 1 && Init(worlds[0], sid)
    && forall k: nat {:trigger Took(sid, worlds, steps, k)} | k < |steps| :: Took(sid, worlds, steps, k)
  }

  lemma {:induction false} Reachable(sid: string, worlds: seq<World>, steps: seq<Step>, k: nat)
    requires Behaviour(sid, worlds, steps) && k < |worlds|
    ensures Inv(worlds[k], sid) && Numbered(worlds[k], sid)
    decreases k
  {
    if k > 0 {
      Reachable(sid, worlds, steps, k - 1);
      assert Took(sid, worlds, steps, k - 1);
      StepKeeps(worlds[k - 1], steps[k - 1], worlds[k], sid);
      NumberedStep(worlds[k - 1], steps[k - 1], worlds[k], sid);
    }
  }

  /** The i-th reference names the one Run of the session stored for that index of the Goal. */
  ghost predicate OneRun(w: World, sid: string, goal: Goal, i: nat)
    requires i < |goal.runIds|
  {
    && (exists r <- w.store.runs :: r.runId == goal.runIds[i] && Carries(r, sid, goal.goalId))
    && (forall r <- w.store.runs :: r.sessionId == sid ==>
          (r.sourceEventId == Source(goal.goalId, i + 1) <==> r.runId == goal.runIds[i]))
  }

  /**
   * Safety over whole runs: in every reachable world, with crashes and failing persists anywhere,
   * the i-th Run of the session's Goal is the one stored Run of the session with source
   * `goal:<id>:<i+1>` and carries the Goal's id; there are at most max_runs <= 8 of them; and
   * every one before the last ended or was refused admission.
   */
  lemma GoalProtocolSafety(sid: string, worlds: seq<World>, steps: seq<Step>, k: nat)
    requires Behaviour(sid, worlds, steps) && k < |worlds| && GoalOf(worlds[k], sid).Some?
    ensures var w, goal := worlds[k], GoalOf(worlds[k], sid).value;
            && |goal.runIds| <= goal.maxRuns <= 8
            && (forall i: nat | i < |goal.runIds| :: OneRun(w, sid, goal, i))
            && (forall i: nat | i < |goal.runIds| - 1 :: Settled(w, goal.runIds[i]))
  {
    Reachable(sid, worlds, steps, k);
    var w, goal := worlds[k], GoalOf(worlds[k], sid).value;
    forall i: nat | i < |goal.runIds|
      ensures OneRun(w, sid, goal, i)
    {
      assert Submitted(w, sid, goal, goal.runIds[i], i + 1);
      var at := FindRun(w.store.runs, goal.runIds[i]).value;
      assert w.store.runs[at] in w.store.runs;
      forall r | r in w.store.runs && r.sessionId == sid
        ensures r.sourceEventId == Source(goal.goalId, i + 1) <==> r.runId == goal.runIds[i]
      {
        var j: nat :| j < |w.store.runs| && w.store.runs[j] == r;
        FoundRun(w.store.runs, j);
        FoundSource(w.store.runs, j);
        FoundSource(w.store.runs, at);
      }
    }
  }

  /** However often the Host crashes and retries, a Goal is never given more Runs than its budget. */
  lemma BudgetBoundsRuns(sid: string, worlds: seq<World>, steps: seq<Step>, k: nat)
    requires Behaviour(sid, worlds, steps) && k < |worlds| && GoalOf(worlds[k], sid).Some?
    ensures var goal := GoalOf(worlds[k], sid).value;
            |RunsOf(worlds[k], sid, goal.goalId)| <= goal.maxRuns <= 8
  {
    Reachable(sid, worlds, steps, k);
    WithinBudget(worlds[k], sid, GoalOf(worlds[k], sid).value);
  }

  lemma KnownAt(sid: string, worlds: seq<World>, steps: seq<Step>, k: nat, id: string)
    requires Behaviour(sid, worlds, steps) && k < |steps| && Known(worlds[k], id)
    ensures Known(worlds[k + 1], id)
    ensures Holds(worlds[k + 1], sid, id) ==> Holds(worlds[k], sid, id)
  {
    Reachable(sid, worlds, steps, k);
    assert Took(sid, worlds, steps, k);
    KnownStep(worlds[k], steps[k], worlds[k + 1], sid, id);
  }

  lemma HeldIsKnown(w: World, sid: string, id: string)
    requires Inv(w, sid) && Holds(w, sid, id)
    ensures Known(w, id)
  {
  }

  /** Once a Goal has been the session's, it is either still it or gone for good. */
  lemma {:induction false} Unreturning(sid: string, worlds: seq<World>, steps: seq<Step>, j: nat, k: nat, id: string)
    requires Behaviour(sid, worlds, steps) && j <= k < |worlds| && Holds(worlds[j], sid, id)
    ensures Known(worlds[k], id)
    ensures Holds(worlds[k], sid, id) ==> forall m: nat | j <= m <= k :: Holds(worlds[m], sid, id)
    decreases k
  {
    if j < k {
      Unreturning(sid, worlds, steps, j, k - 1, id);
      KnownAt(sid, worlds, steps, k - 1, id);
    } else {
      Reachable(sid, worlds, steps, j);
      HeldIsKnown(worlds[j], sid, id);
    }
  }

  lemma {:induction false} FinalAt(sid: string, worlds: seq<World>, steps: seq<Step>, k: nat, goal: Goal)
    requires Behaviour(sid, worlds, steps) && k < |steps| && Known(worlds[k], goal.goalId)
    requires GoalOf(worlds[k], sid) == Some(goal) && goal.status in {Completed, Stopped}
    ensures GoalOf(worlds[k + 1], sid) == Some(goal) || !Holds(worlds[k + 1], sid, goal.goalId)
  {
    Reachable(sid, worlds, steps, k);
    assert Took(sid, worlds, steps, k);
    GoalMoves(worlds[k], steps[k], worlds[k + 1], sid);
  }

  /** A completed or stopped Goal never changes again; only another Goal can take its place. */
  lemma {:induction false} FinalGoalsStay(sid: string, worlds: seq<World>, steps: seq<Step>, j: nat, k: nat, goal: Goal)
    requires Behaviour(sid, worlds, steps) && j <= k < |worlds|
    requires GoalOf(worlds[j], sid) == Some(goal) && goal.status in {Completed, Stopped}
    ensures GoalOf(worlds[k], sid) == Some(goal) || !Holds(worlds[k], sid, goal.goalId)
    decreases k
  {
    if j < k {
      FinalGoalsStay(sid, worlds, steps, j, k - 1, goal);
      Unreturning(sid, worlds, steps, j, k - 1, goal.goalId);
      KnownAt(sid, worlds, steps, k - 1, goal.goalId);
      if GoalOf(worlds[k - 1], sid) == Some(goal) {
        FinalAt(sid, worlds, steps, k - 1, goal);
      }
    }
  }

  /** Who completes a Goal, and on what: the step-by-step facts hold at every step of every behaviour. */
  lemma CompletedByTheUser(sid: string, worlds: seq<World>, steps: seq<Step>, k: nat)
    requires Behaviour(sid, worlds, steps) && k < |steps|
    requires GoalOf(worlds[k], sid).Some? && GoalOf(worlds[k + 1], sid).Some?
    ensures var w, was, goal := worlds[k], GoalOf(worlds[k], sid).value, GoalOf(worlds[k + 1], sid).value;
            && (was.status != Completed && goal.status == Completed ==>
                  steps[k].Save? && w.pc.Controlling? && w.pc.action == Complete && was.status == AwaitingReview)
            && (was.status != AwaitingReview && goal.status == AwaitingReview ==>
                  steps[k].Patch? && w.pc.Patching? && Finished(w, was, w.pc.evidence))
  {
    Reachable(sid, worlds, steps, k);
    var was, goal := GoalOf(worlds[k], sid).value, GoalOf(worlds[k + 1], sid).value;
    assert Took(sid, worlds, steps, k);
    if was.status != goal.status {
      CompletionStep(worlds[k], steps[k], worlds[k + 1], sid, goal, was);
    }
  }

  // ---------------------------------------------------------------- the budget shrinks

  predicate Resumes(w: World, step: Step) {
    step.Save? && w.pc.Controlling? && w.pc.action == Resume
  }

  /** Only linking a Run changes the references, by one; only the user's resume changes the budget. */
  lemma {:induction false} BudgetStep(w: World, step: Step, v: World, sid: string, goal: Goal, next: Goal)
    requires Inv(w, sid) && Next(sid, w, step, v) && !Resumes(w, step)
    requires GoalOf(w, sid) == Some(goal) && GoalOf(v, sid) == Some(next) && next.goalId == goal.goalId
    ensures next.maxRuns == goal.maxRuns
    ensures goal.runIds <= next.runIds && |next.runIds| == |goal.runIds| + if step.LinkRun? then 1 else 0
  {
    if step.LinkRun? {
      OneMoreReference(w, step.at, v, sid, goal, next);
    } else {
      GoalMoves(w, step, v, sid);
      SameReferences(w, step, sid, goal, next);
    }
  }

  lemma {:induction false} OneMoreReference(w: World, at: string, v: World, sid: string, goal: Goal, next: Goal)
    requires Inv(w, sid) && Next(sid, w, LinkRun(at), v) && GoalOf(w, sid) == Some(goal) && GoalOf(v, sid) == Some(next)
    ensures next.maxRuns == goal.maxRuns && goal.runIds <= next.runIds && |next.runIds| == |goal.runIds| + 1
  {
    var id := w.pc.run.runId;
    AmendWrites(w, sid, goal, g => Link(g, id, at), v);
    NewToGoal(w, sid, goal, id);
  }

  lemma {:induction false} SameReferences(w: World, step: Step, sid: string, goal: Goal, next: Goal)
    requires Inv(w, sid) && GoalOf(w, sid) == Some(goal) && Moves(w, step, Some(goal), Some(next)) && next.goalId == goal.goalId
    requires !Resumes(w, step) && !step.LinkRun?
    ensures next.maxRuns == goal.maxRuns && next.runIds == goal.runIds
  {
  }

  lemma {:induction false} BudgetAt(sid: string, worlds: seq<World>, steps: seq<Step>, k: nat, goal: Goal, next: Goal)
    requires Behaviour(sid, worlds, steps) && k < |steps| && !Resumes(worlds[k], steps[k])
    requires GoalOf(worlds[k], sid) == Some(goal) && GoalOf(worlds[k + 1], sid) == Some(next) && next.goalId == goal.goalId
    ensures next.maxRuns == goal.maxRuns && goal.runIds <= next.runIds
    ensures |next.runIds| == |goal.runIds| + if steps[k].LinkRun? then 1 else 0
  {
    Reachable(sid, worlds, steps, k);
    assert Took(sid, worlds, steps, k);
    BudgetStep(worlds[k], steps[k], worlds[k + 1], sid, goal, next);
  }

  lemma WithinMax(sid: string, worlds: seq<World>, steps: seq<Step>, k: nat, goal: Goal)
    requires Behaviour(sid, worlds, steps) && k < |worlds| && GoalOf(worlds[k], sid) == Some(goal)
    ensures |goal.runIds| <= goal.maxRuns
  {
    Reachable(sid, worlds, steps, k);
  }

  function Links(steps: seq<Step>): nat {
    if steps == [] then 0 else Links(steps[..|steps| - 1]) + if steps[|steps| - 1].LinkRun? then 1 else 0
  }

  lemma {:induction false} LinksSnoc(steps: seq<Step>, j: nat, k: nat)
    requires j < k <= |steps|
    ensures Links(steps[j..k]) == Links(steps[j..k - 1]) + if steps[k - 1].LinkRun? then 1 else 0
  {
    assert steps[j..k][..k - 1 - j] == steps[j..k - 1];
  }

  /** A Goal that is the session's at two times was so at every time between. */
  lemma {:induction false} GoalBetween(sid: string, worlds: seq<World>, steps: seq<Step>, j: nat, k: nat, m: nat, id: string)
    returns (goal: Goal)
    requires Behaviour(sid, worlds, steps) && j <= m <= k < |worlds| && Holds(worlds[j], sid, id) && Holds(worlds[k], sid, id)
    ensures GoalOf(worlds[m], sid) == Some(goal) && goal.goalId == id
  {
    Unreturning(sid, worlds, steps, j, k, id);
    assert Holds(worlds[m], sid, id);
    goal := GoalOf(worlds[m], sid).value;
  }

  /**
   * Without the user resuming it, each Run a Goal is given takes one from its budget, so it can be
   * given at most as many Runs as the budget had left.
   */
  lemma {:induction false} BudgetShrinks(sid: string, worlds: seq<World>, steps: seq<Step>, j: nat, k: nat, goal: Goal, later: Goal)
    requires Behaviour(sid, worlds, steps) && j <= k < |worlds|
    requires GoalOf(worlds[j], sid) == Some(goal) && GoalOf(worlds[k], sid) == Some(later) && later.goalId == goal.goalId
    requires forall m: nat | j <= m < k :: !Resumes(worlds[m], steps[m])
    ensures later.maxRuns - |later.runIds| == goal.maxRuns - |goal.runIds| - Links(steps[j..k])
    ensures goal.runIds <= later.runIds && Links(steps[j..k]) <= goal.maxRuns - |goal.runIds|
    decreases k
  {
    WithinMax(sid, worlds, steps, k, later);
    if j < k {
      var middle := GoalBetween(sid, worlds, steps, j, k, k - 1, goal.goalId);
      BudgetShrinks(sid, worlds, steps, j, k - 1, goal, middle);
      BudgetAt(sid, worlds, steps, k - 1, middle, later);
      LinksSnoc(steps, j, k);
    }
  }

  // ---------------------------------------------------------------- retrying after a crash

  /**
   * A Run that was stored but not referenced when the Host crashed is found again by the retry:
   * submitting the same index with the same input stores nothing and links that very Run.
   */
  lemma CrashedSubmitIsFoundAgain(w: World, v: World, sid: string, run: Run, orphan: Run)
    requires Inv(w, sid) && Next(sid, w, Submit(run), v)
    requires orphan in w.store.runs && SameSource(orphan, run)
    ensures v.store == w.store
    ensures AsksTheSame(orphan, run) <==> v.pc == Linking(w.pc.goal, orphan, false)
    ensures !AsksTheSame(orphan, run) <==> v.pc == Idle
  {
    var k: nat :| k < |w.store.runs| && w.store.runs[k] == orphan;
    FoundSource(w.store.runs, k);
    IdentityMeaning(orphan, run);
  }

  // ---------------------------------------------------------------- the machine does run

  /** Writing a new Goal leaves the session otherwise as it was, so the Run built for it still fits. */
  lemma {:induction false} StillCandidate(w: World, sid: string, goal: Goal, run: Run, v: World)
    requires WellFormed(w.store) && HasSession(w, sid) && v.store == SetGoal(w.store, sid, goal) && v.ended == w.ended
    requires Candidate(w.store.sessions[FindSession(w.store.sessions, sid).value], goal, run)
    ensures HasSession(v, sid) && Candidate(v.store.sessions[FindSession(v.store.sessions, sid).value], goal, run)
  {
    var i := FindSession(w.store.sessions, sid).value;
    FindUpdated(w.store.sessions, i, w.store.sessions[i].(goal := Some(goal)), sid);
  }

  lemma {:induction false} SubmitsFirst(sid: string, w: World, goal: Goal, run: Run, v: World)
    requires w.pc == Submitting(goal) && HasSession(w, sid) && run.runId !in w.ended && run.runId !in w.pending
    requires Candidate(w.store.sessions[FindSession(w.store.sessions, sid).value], goal, run) && Stored(w.store, run).None?
    requires v == w.(store := CreateOrGetRun(w.store, run).0, pc := Linking(goal, run, true), pending := w.pending + {run.runId})
    ensures Next(sid, w, Submit(run), v)
  {
  }

  lemma {:induction false} BecomesGoal(sid: string, w: World, goal: Goal, run: Run) returns (w1: World, w2: World)
    requires Init(w, sid) && HasSession(w, sid) && goal.goalId !in w.goals
    requires goal.status == Active && goal.runIds == [] && 1 <= goal.maxRuns <= GOAL_MAX_RUNS_LIMIT
    requires Candidate(w.store.sessions[FindSession(w.store.sessions, sid).value], goal, run)
    ensures Next(sid, w, BeginCreate(goal), w1) && Next(sid, w1, WriteGoal, w2)
    ensures Wrote(w, sid, goal, w2) && w2.pc == Submitting(goal) && w2.pending == {}
    ensures Candidate(w2.store.sessions[FindSession(w2.store.sessions, sid).value], goal, run)
  {
    w1 := w.(pc := Creating(goal), goals := w.goals + {goal.goalId});
    w2 := w1.(store := SetGoal(w1.store, sid, goal), pc := Submitting(goal));
    SetWrites(w1, sid, goal, w2);
    StillCandidate(w1, sid, goal, run, w2);
  }

  lemma {:induction false} GetsRun(sid: string, w: World, goal: Goal, run: Run, at: string) returns (w1: World, w2: World)
    requires WellFormed(w.store) && w.pc == Submitting(goal) && GoalOf(w, sid) == Some(goal) && HasSession(w, sid)
    requires run.runId !in w.ended && run.runId !in w.pending && Stored(w.store, run).None?
    requires Candidate(w.store.sessions[FindSession(w.store.sessions, sid).value], goal, run)
    ensures Next(sid, w, Submit(run), w1) && Next(sid, w1, LinkRun(at), w2)
    ensures GoalOf(w2, sid) == Some(Link(goal, run.runId, at))
  {
    w1 := w.(store := CreateOrGetRun(w.store, run).0, pc := Linking(goal, run, true), pending := w.pending + {run.runId});
    SubmitsFirst(sid, w, goal, run, w1);
    CreateRunKeeps(w.store, run);
    CreateKeepsGoal(w, sid, run, w1);
    w2 := w1.(store := AmendGoal(w1.store, sid, goal.goalId, g => Link(g, run.runId, at)), pc := Linked(run, true));
    AmendWrites(w1, sid, goal, g => Link(g, run.runId, at), w2);
  }

  lemma {:induction false} OneStepMore(sid: string, worlds: seq<World>, steps: seq<Step>, step: Step, v: World)
    returns (moreWorlds: seq<World>, moreSteps: seq<Step>)
    requires Behaviour(sid, worlds, steps) && Next(sid, worlds[|steps|], step, v)
    ensures Behaviour(sid, moreWorlds, moreSteps)
    ensures |moreSteps| == |steps| + 1 && moreWorlds[0] == worlds[0] && moreWorlds[|moreSteps|] == v
  {
    moreWorlds, moreSteps := worlds + [v], steps + [step];
    forall k: nat {:trigger Took(sid, moreWorlds, moreSteps, k)} | k < |moreSteps|
      ensures Took(sid, moreWorlds, moreSteps, k)
    {
      if k < |steps| { assert Took(sid, worlds, steps, k); }
    }
  }

  /** A session without a Goal can be given one, and the Goal its first Run. */
  lemma {:induction false} GoalGetsItsRun(sid: string, w: World, goal: Goal, run: Run, at: string)
    returns (worlds: seq<World>, steps: seq<Step>)
    requires Init(w, sid) && HasSession(w, sid) && goal.goalId !in w.goals
    requires goal.status == Active && goal.runIds == [] && 1 <= goal.maxRuns <= GOAL_MAX_RUNS_LIMIT
    requires Candidate(w.store.sessions[FindSession(w.store.sessions, sid).value], goal, run)
    requires Stored(w.store, run).None?
    ensures Behaviour(sid, worlds, steps) && worlds[0] == w && GoalOf(worlds[|steps|], sid) == Some(Link(goal, run.runId, at))
  {
    var w1, w2 := BecomesGoal(sid, w, goal, run);
    var w3, w4 := GetsRun(sid, w2, goal, run, at);
    worlds, steps := [w], [];
    worlds, steps := OneStepMore(sid, worlds, steps, BeginCreate(goal), w1);
    worlds, steps := OneStepMore(sid, worlds, steps, WriteGoal, w2);
    worlds, steps := OneStepMore(sid, worlds, steps, Submit(run), w3);
    worlds, steps := OneStepMore(sid, worlds, steps, LinkRun(at), w4);
  }
}
