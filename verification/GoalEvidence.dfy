/**
 * What a Goal's evidence and its admissions rest on over whole behaviours: the plans among the
 * stored events that put a Goal up for review, and when a retry admits the Run it links.
 */
module GoalEvidence {
  import opened Prelude
  import opened GoalDecision
  import opened SessionState
  import opened GoalProtocol
  import opened GoalInvariant
  import opened GoalRuns

  // ---------------------------------------------------------------- plans

  lemma SubmitKeepsRuns(w: World, run: Run, v: World, sid: string)
    requires Inv(w, sid) && Next(sid, w, Submit(run), v)
    ensures Grows(w, v)
  {
    if CreateOrGetRun(w.store, run).1.Created? { CreateGrows(w, run, v); } else { SameRunsGrow(w, v); }
  }

  /** What every step leaves in place of the Runs. */
  lemma StepGrows(w: World, step: Step, v: World, sid: string)
    requires Inv(w, sid) && Next(sid, w, step, v)
    ensures Grows(w, v)
  {
    if ByOthers(step) {
      OthersGrow(w, step, v, sid);
    } else if step.Submit? {
      SubmitKeepsRuns(w, step.run, v, sid);
    } else {
      WritesKeepRuns(w, step, v, sid);
      SameRunsGrow(w, v);
    }
  }

  lemma StaysRefused(w: World, v: World, runId: string)
    requires Grows(w, v) && Refused(w, runId)
    ensures Refused(v, runId)
  {
    assert FindRun(v.store.runs, runId).Some?;
  }

  lemma PlanStep(w: World, step: Step, v: World, sid: string, runId: string)
    requires Next(sid, w, step, v) && Frozen(w, runId)
    ensures PlanOf(v, runId) == PlanOf(w, runId)
  {
  }

  /** No step changes what a finally ended or refused Run has as its plan. */
  lemma FrozenStep(w: World, step: Step, v: World, sid: string, runId: string)
    requires Inv(w, sid) && Next(sid, w, step, v) && Frozen(w, runId)
    ensures Frozen(v, runId) && PlanOf(v, runId) == PlanOf(w, runId)
  {
    PlanStep(w, step, v, sid, runId);
    StepGrows(w, step, v, sid);
    if Refused(w, runId) { StaysRefused(w, v, runId); }
  }

  lemma {:induction false} FrozenStays(sid: string, worlds: seq<World>, steps: seq<Step>, j: nat, k: nat, runId: string)
    requires Behaviour(sid, worlds, steps) && j <= k < |worlds| && Frozen(worlds[j], runId)
    ensures Frozen(worlds[k], runId) && PlanOf(worlds[k], runId) == PlanOf(worlds[j], runId)
    decreases k
  {
    if j < k {
      FrozenStays(sid, worlds, steps, j, k - 1, runId);
      Reachable(sid, worlds, steps, k - 1);
      assert Took(sid, worlds, steps, k - 1);
      FrozenStep(worlds[k - 1], steps[k - 1], worlds[k], sid, runId);
    }
  }

  lemma EvidenceBegins(w: World, step: Step, v: World, sid: string)
    requires Next(sid, w, step, v) && w.pc != v.pc
    ensures v.pc.Patching? ==> step.Decide? && w.pc.Deciding? && w.pc.goal == v.pc.goal
                               && Truthful(w, v.pc.goal, v.pc.evidence) && PlanTruthful(w, v.pc.goal, v.pc.evidence, w.pc.frozen)
    ensures v.pc.Deciding? ==> step.BeginAdvance? && v.pc.frozen == FrozenRuns(w, v.pc.goal.runIds)
  {
  }

  /** When the reading of a Goal's Runs began. */
  lemma {:induction false} ReadingBegan(sid: string, worlds: seq<World>, steps: seq<Step>, k: nat) returns (j: nat)
    requires Behaviour(sid, worlds, steps) && k < |worlds| && worlds[k].pc.Deciding?
    ensures j < k && steps[j].BeginAdvance? && worlds[k].pc.frozen == FrozenRuns(worlds[j], worlds[k].pc.goal.runIds)
    decreases k
  {
    assert Took(sid, worlds, steps, k - 1);
    if worlds[k - 1].pc == worlds[k].pc {
      j := ReadingBegan(sid, worlds, steps, k - 1);
    } else {
      EvidenceBegins(worlds[k - 1], steps[k - 1], worlds[k], sid);
      j := k - 1;
    }
  }

  /** When the evidence a Goal is changed on was complete, and what it was then true of. */
  lemma {:induction false} EvidenceWasRead(sid: string, worlds: seq<World>, steps: seq<Step>, k: nat) returns (j: nat)
    requires Behaviour(sid, worlds, steps) && k < |worlds| && worlds[k].pc.Patching?
    ensures j < k && worlds[j].pc.Deciding? && worlds[j].pc.goal == worlds[k].pc.goal
    ensures Truthful(worlds[j], worlds[k].pc.goal, worlds[k].pc.evidence)
    ensures PlanTruthful(worlds[j], worlds[k].pc.goal, worlds[k].pc.evidence, worlds[j].pc.frozen)
    decreases k
  {
    assert Took(sid, worlds, steps, k - 1);
    if worlds[k - 1].pc == worlds[k].pc {
      j := EvidenceWasRead(sid, worlds, steps, k - 1);
    } else {
      EvidenceBegins(worlds[k - 1], steps[k - 1], worlds[k], sid);
      j := k - 1;
    }
  }

  /** Where all Runs' plans are vouched for, reading finds exactly the inherited plan. */
  lemma {:induction false} VouchedIsInherited(w: World, frozen: set<string>, runIds: seq<string>, plan: Option<Plan>)
    requires (forall id <- runIds :: id in frozen) && Inherits(w, frozen, runIds, plan)
    ensures plan == InheritedPlan(w, runIds)
    decreases |runIds|
  {
    if runIds != [] {
      var n := |runIds| - 1;
      assert runIds[n] in runIds;
      if !ReadAs(w, frozen, runIds[n], plan) || plan.None? { VouchedIsInherited(w, frozen, runIds[..n], plan); }
    }
  }

  lemma {:induction false} SamePlans(w: World, v: World, runIds: seq<string>)
    requires forall id <- runIds :: PlanOf(v, id) == PlanOf(w, id)
    ensures InheritedPlan(v, runIds) == InheritedPlan(w, runIds)
    decreases |runIds|
  {
    if runIds != [] {
      var n := |runIds| - 1;
      assert runIds[n] in runIds;
      SamePlans(w, v, runIds[..n]);
    }
  }

  /** Every Run but the last had finally ended or was refused: none was left suspended. */
  ghost predicate NoneSuspended(w: World, runIds: seq<string>) {
    forall i: nat | i < |runIds| - 1 :: Frozen(w, runIds[i])
  }

  /**
   * A Goal comes to await review on its stored events: its latest Run has completed; if that Run's
   * events hold a plan, the last one has nothing open; and if no earlier Run was left suspended
   * when the reading began, the plan inherited through all Runs, refused ones included, has nothing open.
   */
  lemma ReviewedPlan(sid: string, worlds: seq<World>, steps: seq<Step>, k: nat) returns (j: nat)
    requires Behaviour(sid, worlds, steps) && k < |steps|
    requires GoalOf(worlds[k], sid).Some? && GoalOf(worlds[k + 1], sid).Some?
    requires GoalOf(worlds[k], sid).value.status != AwaitingReview && GoalOf(worlds[k + 1], sid).value.status == AwaitingReview
    ensures var w, was := worlds[k], GoalOf(worlds[k], sid).value;
            && j < k && steps[j].BeginAdvance? && was.runIds != []
            && var latest := was.runIds[|was.runIds| - 1];
               && latest in w.ended && w.ended[latest] == "completed"
               && (PlanOf(w, latest).Some? ==> AllResolved(PlanOf(w, latest)))
               && (NoneSuspended(worlds[j], was.runIds) ==> AllResolved(InheritedPlan(w, was.runIds)))
  {
    CompletedByTheUser(sid, worlds, steps, k);
    Reachable(sid, worlds, steps, k);
    var goal, evidence := worlds[k].pc.goal, worlds[k].pc.evidence;
    var d := EvidenceWasRead(sid, worlds, steps, k);
    j := ReadingBegan(sid, worlds, steps, d);
    var latest := goal.runIds[|goal.runIds| - 1];
    assert Frozen(worlds[d], latest);
    FrozenStays(sid, worlds, steps, d, k, latest);
    assert Inherits(worlds[d], Vouched(goal, evidence, worlds[d].pc.frozen), goal.runIds, evidence.plan);
    if NoneSuspended(worlds[j], goal.runIds) { InheritedIsReviewed(sid, worlds, steps, j, d, k); }
  }

  lemma InheritedIsReviewed(sid: string, worlds: seq<World>, steps: seq<Step>, j: nat, d: nat, k: nat)
    requires Behaviour(sid, worlds, steps) && j <= d <= k < |worlds| && worlds[d].pc.Deciding? && worlds[k].pc.Patching?
    requires worlds[d].pc.frozen == FrozenRuns(worlds[j], worlds[d].pc.goal.runIds)
    requires var goal, evidence := worlds[k].pc.goal, worlds[k].pc.evidence;
             && worlds[d].pc.goal == goal && goal.runIds != [] && evidence.terminalStatus == Some("completed")
             && NoneSuspended(worlds[j], goal.runIds) && Frozen(worlds[d], goal.runIds[|goal.runIds| - 1])
             && Inherits(worlds[d], Vouched(goal, evidence, worlds[d].pc.frozen), goal.runIds, evidence.plan)
    ensures worlds[k].pc.evidence.plan == InheritedPlan(worlds[k], worlds[k].pc.goal.runIds)
  {
    var goal, evidence := worlds[k].pc.goal, worlds[k].pc.evidence;
    forall id <- goal.runIds
      ensures id in Vouched(goal, evidence, worlds[d].pc.frozen) && PlanOf(worlds[k], id) == PlanOf(worlds[d], id)
    {
      var i: nat :| i < |goal.runIds| && goal.runIds[i] == id;
      if i < |goal.runIds| - 1 { FrozenStays(sid, worlds, steps, j, d, id); }
      FrozenStays(sid, worlds, steps, d, k, id);
    }
    VouchedIsInherited(worlds[d], Vouched(goal, evidence, worlds[d].pc.frozen), goal.runIds, evidence.plan);
    SamePlans(worlds[d], worlds[k], goal.runIds);
  }

  // ---------------------------------------------------------------- admissions

  /** The step opens the Run's admission: by storing the Run, or by admitting it. */
  ghost predicate Opens(worlds: seq<World>, steps: seq<Step>, j: nat, id: string)
    requires j < |steps| < |worlds|
  {
    || (steps[j].Submit? && worlds[j + 1].pc.Linking? && worlds[j + 1].pc.isNew && worlds[j + 1].pc.run.runId == id)
    || (steps[j].Admit? && worlds[j + 1].pc == Admitting(id))
  }

  /** The step closes it: the admission is over, or the process with all its admissions is. */
  ghost predicate Closes(worlds: seq<World>, steps: seq<Step>, j: nat, id: string)
    requires j < |steps| < |worlds|
  {
    steps[j].Crash? || (steps[j].EndAdmission? && worlds[j].pc == Admitting(id))
  }

  /** An admission was opened and not closed since. */
  ghost predicate LeftOpen(worlds: seq<World>, steps: seq<Step>, k: nat, id: string)
    requires k <= |steps| < |worlds|
  {
    exists j: nat :: j < k && Opens(worlds, steps, j, id) && forall m: nat | j < m < k :: !Closes(worlds, steps, m, id)
  }

  lemma {:induction false} LeftOpenStep(worlds: seq<World>, steps: seq<Step>, k: nat, id: string)
    requires k < |steps| < |worlds|
    ensures LeftOpen(worlds, steps, k + 1, id)
            <==> Opens(worlds, steps, k, id) || (LeftOpen(worlds, steps, k, id) && !Closes(worlds, steps, k, id))
  {
    if LeftOpen(worlds, steps, k + 1, id) {
      var j: nat :| j < k + 1 && Opens(worlds, steps, j, id) && forall m: nat | j < m < k + 1 :: !Closes(worlds, steps, m, id);
      assert j < k ==> !Closes(worlds, steps, k, id);
    }
    if LeftOpen(worlds, steps, k, id) && !Closes(worlds, steps, k, id) {
      var j: nat :| j < k && Opens(worlds, steps, j, id) && forall m: nat | j < m < k :: !Closes(worlds, steps, m, id);
      assert forall m: nat | j < m < k + 1 :: !Closes(worlds, steps, m, id);
    }
  }

  /** A Goal's Run is stored by the step that submits it; nobody else stores one. */
  lemma {:induction false} GoalRunComes(w: World, step: Step, v: World, sid: string, id: string)
    requires Inv(w, sid) && Next(sid, w, step, v) && GoalRun(v, sid, id) && !GoalRun(w, sid, id)
    ensures step.Submit? && v.pc.Linking? && v.pc.isNew && v.pc.run.runId == id && id in v.pending
  {
    var run := v.store.runs[FindRun(v.store.runs, id).value];
    assert run in v.store.runs;
    if step.Mark? {
      var r := MarkRunAdmission(w.store, step.runId, step.status, step.error);
      if r.Ok? { FindMarked(w.store.runs, FindRun(w.store.runs, step.runId).value, v.store.runs[FindRun(w.store.runs, step.runId).value], id); }
    } else if run in w.store.runs {
      var j: nat :| j < |w.store.runs| && w.store.runs[j] == run;
      FoundRun(w.store.runs, j);
    } else {
      NewRun(w, step, v, sid, run);
    }
  }

  /** What a step does to the admission of a Goal's Run. */
  lemma {:induction false} PendingStep(sid: string, worlds: seq<World>, steps: seq<Step>, k: nat, id: string)
    requires k < |steps| < |worlds| && Inv(worlds[k], sid) && Next(sid, worlds[k], steps[k], worlds[k + 1]) && GoalRun(worlds[k], sid, id)
    ensures id in worlds[k + 1].pending
            <==> Opens(worlds, steps, k, id) || (id in worlds[k].pending && !Closes(worlds, steps, k, id))
  {
    var runs := worlds[k].store.runs;
    assert runs[FindRun(runs, id).value] in runs;
  }

  lemma {:induction false} PendingAt(sid: string, worlds: seq<World>, steps: seq<Step>, k: nat, id: string)
    requires Behaviour(sid, worlds, steps) && k < |steps| && GoalRun(worlds[k + 1], sid, id)
    ensures if GoalRun(worlds[k], sid, id)
            then id in worlds[k + 1].pending
                 <==> Opens(worlds, steps, k, id) || (id in worlds[k].pending && !Closes(worlds, steps, k, id))
            else id in worlds[k + 1].pending && Opens(worlds, steps, k, id)
  {
    Reachable(sid, worlds, steps, k);
    assert Took(sid, worlds, steps, k);
    if GoalRun(worlds[k], sid, id) {
      PendingStep(sid, worlds, steps, k, id);
    } else {
      GoalRunComes(worlds[k], steps[k], worlds[k + 1], sid, id);
    }
  }

  /** The admission of a Goal's Run is pending exactly when it was left open. */
  lemma {:induction false} PendingExactly(sid: string, worlds: seq<World>, steps: seq<Step>, k: nat, id: string)
    requires Behaviour(sid, worlds, steps) && k < |worlds| && GoalRun(worlds[k], sid, id)
    ensures id in worlds[k].pending <==> LeftOpen(worlds, steps, k, id)
    decreases k
  {
    if k > 0 {
      LeftOpenStep(worlds, steps, k - 1, id);
      PendingAt(sid, worlds, steps, k - 1, id);
      if GoalRun(worlds[k - 1], sid, id) { PendingExactly(sid, worlds, steps, k - 1, id); }
    }
  }

  /**
   * A retry that found its Run already stored, and has linked it, admits it exactly when the event
   * store does not know the Run, it was not refused, and no admission of it was left open: a throw
   * between storing and linking, without a crash since, leaves it linked and never admitted.
   */
  lemma RetryAdmitsExactly(sid: string, worlds: seq<World>, steps: seq<Step>, k: nat)
    requires Behaviour(sid, worlds, steps) && k < |steps| && steps[k].Admit? && worlds[k].pc.Linked? && !worlds[k].pc.isNew
    ensures var run := worlds[k].pc.run;
            && (worlds[k + 1].pc == Admitting(run.runId) <==>
                  !steps[k].canonical && run.admissionStatus != Some(AdmissionFailed) && !LeftOpen(worlds, steps, k, run.runId))
            && (worlds[k + 1].pc != Admitting(run.runId) ==> worlds[k + 1] == worlds[k].(pc := Idle))
  {
    assert Took(sid, worlds, steps, k);
    Reachable(sid, worlds, steps, k);
    PendingExactly(sid, worlds, steps, k, worlds[k].pc.run.runId);
  }
}
