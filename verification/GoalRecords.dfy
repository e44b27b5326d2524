/**
 * What the Goal protocol writes, member by member: the Run it submits, the progress it shows, and
 * which Runs it takes to be over.
 */
module GoalRecords {
  import opened Prelude
  import opened GoalDecision
  import opened SessionState
  import opened GoalProtocol
  import opened GoalInvariant
  import opened GoalRuns
  import EventStore
  import EvalContract

  /** A Run as a Goal submits it: its session's in owner, channel, surface and project, its Goal's in files and mode. */
  predicate RunOfGoal(run: Run, session: Session, goal: Goal, index: nat) {
    && run.sessionId == session.sessionId && run.workspaceId == session.workspaceId && run.actorUserId == session.actorUserId
    && run.channelId == session.channelId && run.surface == session.surface && run.projectId == session.projectId
    && run.sourceEventId == "goal:" + goal.goalId + ":" + Decimal(index) && run.goalId == Some(goal.goalId)
    && run.resourceRefs == goal.resourceRefs && run.admissionStatus == Some(AdmissionPending)
    && (run.permissionMode == Some(ContainedWrite) <==> goal.permissionMode == ContainedWrite)
    && (run.permissionMode.None? <==> goal.permissionMode == Readonly)
  }

  /** What a submission stores: the Run of the Goal's next index, at the end of the stored Runs, and nothing else changes but its session's recency. */
  lemma {:induction false} SubmissionStores(sid: string, worlds: seq<World>, steps: seq<Step>, k: nat)
    requires Behaviour(sid, worlds, steps) && k < |steps| && steps[k].Submit? && worlds[k + 1].pc.Linking? && worlds[k + 1].pc.isNew
    ensures var w, v := worlds[k], worlds[k + 1];
            && w.pc.Submitting? && v.store.runs == w.store.runs + [v.pc.run] && v.pending == w.pending + {v.pc.run.runId}
            && (forall r <- w.store.runs :: r.runId != v.pc.run.runId)
            && exists session <- w.store.sessions :: session.sessionId == sid
                 && RunOfGoal(v.pc.run, session, w.pc.goal, |w.pc.goal.runIds| + 1)
  {
    assert Took(sid, worlds, steps, k);
    var w := worlds[k];
    var session := w.store.sessions[FindSession(w.store.sessions, sid).value];
    assert session in w.store.sessions;
    ModeOfGoal(w.pc.goal.permissionMode);
  }

  lemma ModeOfGoal(mode: PermissionMode)
    ensures mode == Readonly || mode == ContainedWrite
  {
  }

  // ---------------------------------------------------------------- one operation at a time

  /** An operation begins only when none is under way, throws only before it admits, and resuming goes on only after a Run that is over. */
  lemma OperationOrder(sid: string, w: World, step: Step, v: World)
    requires Next(sid, w, step, v)
    ensures (v.pc.Creating? || v.pc.Deciding? || v.pc.Controlling?) && v.pc != w.pc ==> w.pc == Idle
    ensures step.BeginCreate? || step.BeginAdvance? || step.BeginControl? ==> w.pc == Idle
    ensures step.Throw? ==> !w.pc.Admitting? && (w.pc.Linked? ==> !w.pc.isNew) && v == w.(pc := Idle)
    ensures step.Examine? ==>
              v.pc == if w.pc.goal.runIds == [] || step.evidence.admissionError.Some? || step.evidence.terminalStatus.Some?
                      then Submitting(w.pc.goal) else Idle
    ensures step.Crash? ==> v.pc == Idle && v.pending == {} && v.store == w.store
  {
  }

  // ---------------------------------------------------------------- progress

  /** A Goal shows how many items of a plan are done, of how many; a plan without items says nothing. */
  predicate ShowsProgress(before: Option<(nat, nat)>, after: Option<(nat, nat)>, plan: Option<Plan>) {
    if NoItems(plan) then after == before
    else plan.Some? && after == Some((CountIn(Tasks(plan.value.phases), {Done}), |Tasks(plan.value.phases)|))
  }

  /** A decision that changes the Goal leaves it showing the progress of the plan that was read. */
  lemma {:induction false} PatchShowsProgress(w: World, v: World, sid: string, at: string)
    requires Inv(w, sid) && Next(sid, w, Patch(at), v)
    ensures GoalOf(w, sid) == Some(w.pc.goal) && GoalOf(v, sid).Some?
    ensures ShowsProgress(w.pc.goal.planProgress, GoalOf(v, sid).value.planProgress, w.pc.evidence.plan)
  {
    var decision, plan := DecideGoal(w.pc.goal, w.pc.evidence), w.pc.evidence.plan;
    AmendWrites(w, sid, w.pc.goal, g => Patched(g, decision, plan, at), v);
    ProgressMeaning(plan);
  }

  /** Waiting, too, and it writes nothing else, and nothing at all if that is shown already. */
  lemma {:induction false} WaitShowsProgress(w: World, v: World, sid: string, evidence: Evidence, at: string)
    requires Inv(w, sid) && Next(sid, w, Decide(evidence, at), v) && DecideGoal(w.pc.goal, evidence).Wait?
    ensures GoalOf(w, sid) == Some(w.pc.goal) && GoalOf(v, sid).Some?
    ensures var was, goal := w.pc.goal, GoalOf(v, sid).value;
            && ShowsProgress(was.planProgress, goal.planProgress, evidence.plan)
            && goal == was.(planProgress := goal.planProgress, updatedAt := goal.updatedAt)
            && (ShowsProgress(was.planProgress, was.planProgress, evidence.plan) ==> v.store == w.store)
  {
    if v.store != w.store { AmendWrites(w, sid, w.pc.goal, g => Patched(g, Wait, evidence.plan, at), v); }
    ProgressMeaning(evidence.plan);
  }

  // ---------------------------------------------------------------- which Runs are over

  /** The statuses after which no event follows are those of the event types after which the store takes none. */
  lemma FinalStatuses(kind: EventStore.EventType, status: string)
    requires !kind.Other? && EvalContract.TypeName(kind) == "run." + status
    ensures status in FINAL <==> EventStore.IsFinal(kind)
  {
    assert ("run." + status)[4..] == status;
  }

  /** A Run that may still go on can be read with any plan; only over Runs is the reader bound. */
  lemma UnfrozenReadsAnything(w: World, goal: Goal, evidence: Evidence)
    requires goal.runIds != [] && !Frozen(w, goal.runIds[|goal.runIds| - 1])
    requires evidence.admissionError.None? && evidence.terminalStatus.None? && evidence.plan.Some?
    ensures PlanTruthful(w, goal, evidence, FrozenRuns(w, goal.runIds))
  {
  }
}
