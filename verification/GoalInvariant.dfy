/**
 * The invariant of the Session Goal protocol and the proof that every step keeps it, whatever
 * else happens in the Host between two steps of the lock holder.
 */
module GoalInvariant {
  import opened Prelude
  import opened GoalDecision
  import opened SessionState
  import opened GoalProtocol

  // ---------------------------------------------------------------- the invariant

  /** A stored Run of the session that the Goal submitted under an index. */
  predicate Submitted(w: World, sid: string, goal: Goal, runId: string, index: nat) {
    match FindRun(w.store.runs, runId)
    case None => false
    case Some(i) =>
      var run := w.store.runs[i];
      run.sessionId == sid && run.sourceEventId == Source(goal.goalId, index) && run.goalId == Some(goal.goalId)
  }

  /** A stored Run of one of the session's Goals. */
  predicate GoalRun(w: World, sid: string, id: string) {
    match FindRun(w.store.runs, id)
    case None => false
    case Some(i) => w.store.runs[i].sessionId == sid && w.store.runs[i].goalId.Some?
  }

  /** One Run per index, within the budget, each but the last settled before the next was submitted. */
  ghost predicate GoalSafe(w: World, sid: string, goal: Goal) {
    && |goal.runIds| <= goal.maxRuns <= GOAL_MAX_RUNS_LIMIT
    && (forall i: nat | i < |goal.runIds| :: Submitted(w, sid, goal, goal.runIds[i], i + 1))
    && (forall i: nat | i < |goal.runIds| - 1 :: Settled(w, goal.runIds[i]))
  }

  /** The Goal may submit one more Run. */
  ghost predicate Ready(w: World, sid: string, goal: Goal) {
    && GoalOf(w, sid) == Some(goal) && goal.status == Active && |goal.runIds| < goal.maxRuns
    && (forall i: nat | i < |goal.runIds| :: Settled(w, goal.runIds[i]))
  }

  ghost predicate PcSound(w: World, sid: string) {
    match w.pc
    case Creating(goal) =>
      && HasSession(w, sid) && goal.goalId in w.goals
      && goal.status == Active && goal.runIds == [] && 1 <= goal.maxRuns <= GOAL_MAX_RUNS_LIMIT
      && (GoalOf(w, sid).Some? ==> !Live(GoalOf(w, sid).value.status) && GoalOf(w, sid).value.goalId != goal.goalId)
    case Deciding(goal, _) => GoalOf(w, sid) == Some(goal) && goal.status == Active
    case Patching(goal, evidence) =>
      && GoalOf(w, sid) == Some(goal) && goal.status == Active
      && Truthful(w, goal, evidence) && !DecideGoal(goal, evidence).Wait?
    case Controlling(goal, action, maxRuns) => GoalOf(w, sid) == Some(goal) && Allowed(action, goal, maxRuns)
    case Resumed(goal) => GoalOf(w, sid) == Some(goal) && goal.status == Active && |goal.runIds| < goal.maxRuns
    case Submitting(goal) => Ready(w, sid, goal)
    case Linking(goal, run, _) => Ready(w, sid, goal) && Submitted(w, sid, goal, run.runId, |goal.runIds| + 1)
    case Linked(run, _) => GoalRun(w, sid, run.runId)
    case _ => true
  }

  /** The invariant but for the lock holder's program point. */
  ghost predicate StoreSound(w: World, sid: string) {
    && WellFormed(w.store)
    && (forall id <- w.ended :: FindRun(w.store.runs, id).Some?)
    && (GoalOf(w, sid).Some? ==> GoalSafe(w, sid, GoalOf(w, sid).value) && GoalOf(w, sid).value.goalId in w.goals)
  }

  ghost predicate Inv(w: World, sid: string) {
    StoreSound(w, sid) && PcSound(w, sid)
  }

  /** A Host that has just read a well-formed sidecar in which the session has no Goal; ids of earlier ones are spent. */
  ghost predicate Init(w: World, sid: string) {
    && WellFormed(w.store) && w.ended == map[] && w.plans == map[] && w.pending == {} && w.pc == Idle && GoalOf(w, sid) == None
    && forall r <- w.store.runs :: r.sessionId == sid && r.goalId.Some? ==> r.goalId.value in w.goals
  }

  // ---------------------------------------------------------------- what every step leaves in place

  /** Runs stay stored under their ids, what ended or was refused stays so. */
  ghost predicate Grows(w: World, v: World) {
    && (forall id: string {:trigger FindRun(v.store.runs, id)} :: FindRun(w.store.runs, id).Some? ==>
          && FindRun(v.store.runs, id).Some?
          && var a, b := w.store.runs[FindRun(w.store.runs, id).value], v.store.runs[FindRun(v.store.runs, id).value];
             && a.sessionId == b.sessionId && a.sourceEventId == b.sourceEventId && a.goalId == b.goalId
             && (a.admissionStatus == Some(AdmissionFailed) ==> b.admissionStatus == Some(AdmissionFailed)))
    && (forall id <- w.ended :: id in v.ended && v.ended[id] == w.ended[id])
  }

  lemma SameRunsGrow(w: World, v: World)
    requires w.store.runs == v.store.runs && (forall id <- w.ended :: id in v.ended && v.ended[id] == w.ended[id])
    ensures Grows(w, v)
  {
  }

  lemma {:induction false} FindSnoc(runs: seq<Run>, run: Run, id: string)
    ensures FindRun(runs, id).Some? ==> FindRun(runs + [run], id) == FindRun(runs, id)
    ensures FindRun(runs, id).None? && run.runId == id ==> FindRun(runs + [run], id) == Some(|runs|)
  {
    if runs != [] {
      FindSnoc(runs[1..], run, id);
      assert (runs + [run])[1..] == runs[1..] + [run];
    }
  }

  lemma CreateGrows(w: World, run: Run, v: World)
    requires v.store == CreateOrGetRun(w.store, run).0 && v.ended == w.ended
    ensures Grows(w, v)
  {
    forall id: string
      ensures FindRun(w.store.runs, id).Some? ==> FindRun(v.store.runs, id) == FindRun(w.store.runs, id)
    {
      FindSnoc(w.store.runs, run, id);
    }
  }

  lemma {:induction false} FindMarked(runs: seq<Run>, i: nat, marked: Run, id: string)
    requires i < |runs| && marked.runId == runs[i].runId
    ensures FindRun(runs[i := marked], id) == FindRun(runs, id)
    decreases i
  {
    if i > 0 {
      FindMarked(runs[1..], i - 1, marked, id);
      assert runs[i := marked][1..] == runs[1..][i - 1 := marked];
    } else {
      assert runs[i := marked][1..] == runs[1..];
    }
  }

  lemma MarkGrows(w: World, id: string, status: Admission, error: Option<string>, v: World)
    requires !Refused(w, id) && MarkRunAdmission(w.store, id, status, error).Ok?
    requires v.store == MarkRunAdmission(w.store, id, status, error).value && v.ended == w.ended
    ensures Grows(w, v)
  {
    var i := FindRun(w.store.runs, id).value;
    forall x: string
      ensures FindRun(v.store.runs, x) == FindRun(w.store.runs, x)
    {
      FindMarked(w.store.runs, i, v.store.runs[i], x);
    }
  }

  /** Growth keeps what is known about a Goal. */
  lemma GrowthKeeps(w: World, v: World, sid: string, goal: Goal)
    requires Grows(w, v)
    ensures GoalSafe(w, sid, goal) ==> GoalSafe(v, sid, goal)
    ensures forall id :: Settled(w, id) ==> Settled(v, id)
    ensures forall id, index :: Submitted(w, sid, goal, id, index) ==> Submitted(v, sid, goal, id, index)
  {
    forall id: string | Settled(w, id)
      ensures Settled(v, id)
    {
      assert FindRun(w.store.runs, id).Some? ==> FindRun(v.store.runs, id).Some?;
    }
    forall id, index | Submitted(w, sid, goal, id, index)
      ensures Submitted(v, sid, goal, id, index)
    {
      assert FindRun(v.store.runs, id).Some?;
    }
  }

  lemma {:induction false} FindUpdated(sessions: seq<Session>, i: nat, next: Session, id: string)
    requires i < |sessions| && next.sessionId == sessions[i].sessionId
    ensures FindSession(sessions[i := next], id) == FindSession(sessions, id)
    decreases i
  {
    if i > 0 {
      FindUpdated(sessions[1..], i - 1, next, id);
      assert sessions[i := next][1..] == sessions[1..][i - 1 := next];
    } else {
      assert sessions[i := next][1..] == sessions[1..];
    }
  }

  lemma {:induction false} FindSessionSnoc(sessions: seq<Session>, next: Session, id: string)
    ensures FindSession(sessions, id).Some? ==> FindSession(sessions + [next], id) == FindSession(sessions, id)
    ensures FindSession(sessions, id).None? && next.sessionId == id ==> FindSession(sessions + [next], id) == Some(|sessions|)
    ensures FindSession(sessions, id).None? && next.sessionId != id ==> FindSession(sessions + [next], id) == None
  {
    if sessions == [] {
      assert [next][1..] == [];
    } else {
      FindSessionSnoc(sessions[1..], next, id);
      assert (sessions + [next])[1..] == sessions[1..] + [next];
    }
  }

  /** What a step that writes the Goal does: the session's Goal changes, no Run and no fact does. */
  ghost predicate Wrote(w: World, sid: string, goal: Goal, v: World) {
    && WellFormed(v.store) && v.store.runs == w.store.runs && v.ended == w.ended
    && HasSession(v, sid) && GoalOf(v, sid) == Some(goal)
  }

  lemma SetWrites(w: World, sid: string, goal: Goal, v: World)
    requires WellFormed(w.store) && HasSession(w, sid) && v.store == SetGoal(w.store, sid, goal) && v.ended == w.ended
    ensures Wrote(w, sid, goal, v)
  {
    UpdateKeeps(w.store, sid, (s: Session) => Ok(s.(goal := Some(goal))));
    var i := FindSession(w.store.sessions, sid).value;
    FindUpdated(w.store.sessions, i, w.store.sessions[i].(goal := Some(goal)), sid);
  }

  /** While the lock is held the record still holds the Goal that was read, so the guard never fires. */
  lemma AmendWrites(w: World, sid: string, goal: Goal, change: Goal -> Goal, v: World)
    requires WellFormed(w.store) && GoalOf(w, sid) == Some(goal)
    requires v.store == AmendGoal(w.store, sid, goal.goalId, change) && v.ended == w.ended
    ensures Wrote(w, sid, change(goal), v)
  {
    UpdateKeeps(w.store, sid, Amendment(goal.goalId, change));
    var i := FindSession(w.store.sessions, sid).value;
    FindUpdated(w.store.sessions, i, w.store.sessions[i].(goal := Some(change(goal))), sid);
  }

  /** Creating a Run touches at most the recency of its session. */
  lemma CreateKeepsGoal(w: World, sid: string, run: Run, v: World)
    requires v.store == CreateOrGetRun(w.store, run).0
    ensures GoalOf(v, sid) == GoalOf(w, sid) && HasSession(v, sid) == HasSession(w, sid)
  {
    if FindSession(w.store.sessions, run.sessionId).Some? {
      var i := FindSession(w.store.sessions, run.sessionId).value;
      FindUpdated(w.store.sessions, i, v.store.sessions[i], sid);
    }
  }

  // ---------------------------------------------------------------- every step keeps the invariant

  /** Steps that leave the session's Goal alone and only add to the rest. */
  lemma StoreGrows(w: World, v: World, sid: string)
    requires StoreSound(w, sid) && WellFormed(v.store) && Grows(w, v)
    requires forall id <- v.ended :: FindRun(v.store.runs, id).Some?
    requires GoalOf(v, sid) == GoalOf(w, sid) && w.goals <= v.goals
    ensures StoreSound(v, sid)
  {
    if GoalOf(w, sid).Some? { GrowthKeeps(w, v, sid, GoalOf(w, sid).value); }
  }

  /** The lock holder's knowledge survives what the others do. */
  lemma PcGrows(w: World, v: World, sid: string)
    requires PcSound(w, sid) && Grows(w, v) && v.pc == w.pc && w.goals <= v.goals
    requires GoalOf(v, sid) == GoalOf(w, sid) && (HasSession(w, sid) ==> HasSession(v, sid))
    ensures PcSound(v, sid)
  {
    match w.pc {
      case Patching(goal, evidence) => TruthGrows(w, v, goal, evidence);
      case Submitting(goal) => GrowthKeeps(w, v, sid, goal);
      case Linking(goal, _, _) => GrowthKeeps(w, v, sid, goal);
      case Linked(run, _) => assert FindRun(v.store.runs, run.runId).Some?;
      case _ =>
    }
  }

  lemma TruthGrows(w: World, v: World, goal: Goal, evidence: Evidence)
    requires Grows(w, v) && Truthful(w, goal, evidence)
    ensures Truthful(v, goal, evidence)
  {
    if goal.runIds != [] {
      var latest := goal.runIds[|goal.runIds| - 1];
      assert FindRun(w.store.runs, latest).Some? ==> FindRun(v.store.runs, latest).Some?;
    }
  }

  /** A changed record with the same Runs under the same id is as safe as before, within its own budget. */
  lemma SameRunsSafe(w: World, sid: string, goal: Goal, next: Goal, v: World)
    requires GoalSafe(w, sid, goal) && next.goalId == goal.goalId && next.runIds == goal.runIds
    requires |next.runIds| <= next.maxRuns <= GOAL_MAX_RUNS_LIMIT
    requires v.store.runs == w.store.runs && v.ended == w.ended
    ensures GoalSafe(v, sid, next)
  {
    forall i: nat | i < |next.runIds|
      ensures Submitted(v, sid, next, next.runIds[i], i + 1)
    {
      assert Submitted(w, sid, goal, goal.runIds[i], i + 1);
    }
    forall i: nat | i < |next.runIds| - 1
      ensures Settled(v, next.runIds[i])
    {
      assert Settled(w, goal.runIds[i]);
    }
  }

  /** A decision to continue is only taken with budget left and every Run settled. */
  lemma ContinueIsReady(w: World, sid: string, goal: Goal, evidence: Evidence)
    requires GoalSafe(w, sid, goal) && Truthful(w, goal, evidence) && DecideGoal(goal, evidence).Continue?
    ensures goal.status == Active && |goal.runIds| < goal.maxRuns
    ensures forall i: nat | i < |goal.runIds| :: Settled(w, goal.runIds[i])
  {
    DecisionMeaning(goal, evidence);
    var n := |goal.runIds|;
    forall i: nat | i < n
      ensures Settled(w, goal.runIds[i])
    {
      if i == n - 1 {
        assert goal.runIds[i] in w.ended;
      }
    }
  }

  lemma CreateStep(w: World, step: Step, v: World, sid: string)
    requires Inv(w, sid) && Next(sid, w, step, v) && step.WriteGoal?
    ensures Inv(v, sid)
  {
    SetWrites(w, sid, w.pc.goal, v);
  }

  lemma DecideStep(w: World, v: World, sid: string, evidence: Evidence, at: string)
    requires Inv(w, sid) && Next(sid, w, Decide(evidence, at), v)
    ensures Inv(v, sid)
  {
    var goal := w.pc.goal;
    if v.pc == Idle && v.store != w.store {
      AmendWrites(w, sid, goal, g => Patched(g, Wait, evidence.plan, at), v);
      SameRunsSafe(w, sid, goal, Patched(goal, Wait, evidence.plan, at), v);
    } else {
      SameRunsGrow(w, v);
      StoreGrows(w, v, sid);
    }
  }

  lemma PatchStep(w: World, v: World, sid: string, at: string)
    requires Inv(w, sid) && Next(sid, w, Patch(at), v)
    ensures Inv(v, sid)
  {
    var goal, decision, plan := w.pc.goal, DecideGoal(w.pc.goal, w.pc.evidence), w.pc.evidence.plan;
    var patched := Patched(goal, decision, plan, at);
    AmendWrites(w, sid, goal, g => Patched(g, decision, plan, at), v);
    SameRunsSafe(w, sid, goal, patched, v);
    if decision.Continue? {
      ContinueIsReady(w, sid, goal, w.pc.evidence);
      forall i: nat | i < |patched.runIds|
        ensures Settled(v, patched.runIds[i])
      {
        assert Settled(w, goal.runIds[i]);
      }
    }
  }

  lemma SaveStep(w: World, v: World, sid: string, at: string)
    requires Inv(w, sid) && Next(sid, w, Save(at), v)
    ensures Inv(v, sid)
  {
    var action, maxRuns := w.pc.action, w.pc.maxRuns;
    AmendWrites(w, sid, w.pc.goal, g => Controlled(g, action, maxRuns, at), v);
    SameRunsSafe(w, sid, w.pc.goal, Controlled(w.pc.goal, action, maxRuns, at), v);
  }

  lemma ExamineStep(w: World, v: World, sid: string, evidence: Evidence)
    requires Inv(w, sid) && Next(sid, w, Examine(evidence), v)
    ensures Inv(v, sid)
  {
    SameRunsGrow(w, v);
    StoreGrows(w, v, sid);
    GrowthKeeps(w, v, sid, w.pc.goal);
  }

  lemma SubmitStep(w: World, v: World, sid: string, run: Run)
    requires Inv(w, sid) && Next(sid, w, Submit(run), v)
    ensures Inv(v, sid)
  {
    if CreateOrGetRun(w.store, run).1.Conflict? {
      SameRunsGrow(w, v);
      StoreGrows(w, v, sid);
    } else {
      SubmitGrows(w, v, sid, run);
      GrowthKeeps(w, v, sid, w.pc.goal);
      SubmittedRun(w, v, sid, run);
    }
  }

  lemma SubmitGrows(w: World, v: World, sid: string, run: Run)
    requires StoreSound(w, sid) && v.store == CreateOrGetRun(w.store, run).0 && v.ended == w.ended && v.goals == w.goals
    ensures StoreSound(v, sid) && Grows(w, v) && GoalOf(v, sid) == GoalOf(w, sid)
  {
    CreateRunKeeps(w.store, run);
    CreateGrows(w, run, v);
    CreateKeepsGoal(w, sid, run, v);
    StoreGrows(w, v, sid);
  }

  /** The Run that comes back is the stored one for the next index, new or from before a crash. */
  lemma SubmittedRun(w: World, v: World, sid: string, run: Run)
    requires Inv(w, sid) && Next(sid, w, Submit(run), v) && v.pc.Linking?
    ensures v.pc.goal == w.pc.goal && Submitted(v, sid, w.pc.goal, v.pc.run.runId, |w.pc.goal.runIds| + 1)
  {
    if v.pc.isNew {
      FindSnoc(w.store.runs, run, run.runId);
    } else {
      var k := FindSource(w.store.runs, run.sessionId, run.sourceEventId).value;
      FoundRun(w.store.runs, k);
    }
  }

  lemma LinkStep(w: World, v: World, sid: string, at: string)
    requires Inv(w, sid) && Next(sid, w, LinkRun(at), v)
    ensures Inv(v, sid)
  {
    var goal, id := w.pc.goal, w.pc.run.runId;
    AmendWrites(w, sid, goal, g => Link(g, id, at), v);
    NewToGoal(w, sid, goal, id);
    LinkedSafe(w, sid, goal, id, at, v);
  }

  lemma NewToGoal(w: World, sid: string, goal: Goal, id: string)
    requires GoalSafe(w, sid, goal) && Submitted(w, sid, goal, id, |goal.runIds| + 1)
    ensures id !in goal.runIds
  {
    var n := |goal.runIds|;
    if i: nat :| i < n && goal.runIds[i] == id {
      assert Submitted(w, sid, goal, goal.runIds[i], i + 1);
      SourcesDiffer(goal.goalId, i + 1, n + 1);
    }
  }

  lemma LinkedSafe(w: World, sid: string, goal: Goal, id: string, at: string, v: World)
    requires GoalSafe(w, sid, goal) && Submitted(w, sid, goal, id, |goal.runIds| + 1) && id !in goal.runIds
    requires |goal.runIds| < goal.maxRuns && forall i: nat | i < |goal.runIds| :: Settled(w, goal.runIds[i])
    requires v.store.runs == w.store.runs && v.ended == w.ended
    ensures GoalSafe(v, sid, Link(goal, id, at))
  {
    var linked := Link(goal, id, at);
    forall i: nat | i < |linked.runIds|
      ensures Submitted(v, sid, linked, linked.runIds[i], i + 1)
    {
      if i < |goal.runIds| {
        assert Submitted(w, sid, goal, goal.runIds[i], i + 1);
      }
    }
    forall i: nat | i < |linked.runIds| - 1
      ensures Settled(v, linked.runIds[i])
    {
      assert Settled(w, goal.runIds[i]);
    }
  }

  lemma SourcesDiffer(goalId: string, i: nat, j: nat)
    requires Source(goalId, i) == Source(goalId, j)
    ensures i == j
  {
    var prefix := "goal:" + goalId + ":";
    assert Source(goalId, i)[|prefix|..] == Decimal(i);
    assert Source(goalId, j)[|prefix|..] == Decimal(j);
    DecimalInjective(i, j);
  }

  /** Steps of the lock holder that write nothing. */
  lemma QuietStep(w: World, step: Step, v: World, sid: string)
    requires Inv(w, sid) && Next(sid, w, step, v)
    requires step.BeginCreate? || step.BeginAdvance? || step.BeginControl? || step.Admit? || step.EndAdmission?
             || step.Throw? || step.Crash?
    ensures Inv(v, sid)
  {
    SameRunsGrow(w, v);
    StoreGrows(w, v, sid);
  }

  predicate ByOthers(step: Step) {
    step.OtherRun? || step.OtherSession? || step.NewSession? || step.Mark? || step.EndOther? || step.Event? || step.NotePlan?
  }

  /** What the other actors of the Host do to this session: Runs are added or marked, its Goal stays. */
  lemma OthersGrow(w: World, step: Step, v: World, sid: string)
    requires WellFormed(w.store) && Next(sid, w, step, v) && ByOthers(step)
    ensures WellFormed(v.store) && Grows(w, v) && v.pc == w.pc && v.goals == w.goals
    ensures GoalOf(v, sid) == GoalOf(w, sid) && (HasSession(w, sid) ==> HasSession(v, sid))
  {
    match step {
      case OtherRun(run) =>
        CreateRunKeeps(w.store, run);
        CreateGrows(w, run, v);
        CreateKeepsGoal(w, sid, run, v);
      case OtherSession(id, mutation) =>
        OtherSessionKeeps(w, id, mutation, v, sid);
        SameRunsGrow(w, v);
      case NewSession(session) =>
        if CreateSession(w.store, session).Ok? {
          CreateKeeps(w.store, session);
          FindSessionSnoc(w.store.sessions, session, sid);
        }
        SameRunsGrow(w, v);
      case Mark(runId, status, error) =>
        if MarkRunAdmission(w.store, runId, status, error).Ok? {
          MarkKeeps(w.store, runId, status, error);
          MarkGrows(w, runId, status, error, v);
        } else {
          SameRunsGrow(w, v);
        }
      case _ => SameRunsGrow(w, v);
    }
  }

  lemma OtherSessionKeeps(w: World, id: string, mutation: Session -> Result<Session, StoreError>, v: World, sid: string)
    requires WellFormed(w.store) && id != sid
    requires var r := UpdateSession(w.store, id, mutation); v.store == if r.Ok? then r.value else w.store
    ensures WellFormed(v.store) && v.store.runs == w.store.runs
    ensures GoalOf(v, sid) == GoalOf(w, sid) && HasSession(v, sid) == HasSession(w, sid)
  {
    if UpdateSession(w.store, id, mutation).Ok? {
      UpdateKeeps(w.store, id, mutation);
      var i := FindSession(w.store.sessions, id).value;
      FindUpdated(w.store.sessions, i, v.store.sessions[i], sid);
    }
  }

  lemma OthersStep(w: World, step: Step, v: World, sid: string)
    requires Inv(w, sid) && Next(sid, w, step, v) && ByOthers(step)
    ensures Inv(v, sid)
  {
    OthersGrow(w, step, v, sid);
    forall id <- v.ended
      ensures FindRun(v.store.runs, id).Some?
    {
      assert id in w.ended || v.store == w.store;
    }
    StoreGrows(w, v, sid);
    PcGrows(w, v, sid);
  }

  /** The protocol's safety is inductive: no step, crash or failing persist breaks it. */
  lemma StepKeeps(w: World, step: Step, v: World, sid: string)
    requires Inv(w, sid) && Next(sid, w, step, v)
    ensures Inv(v, sid)
  {
    match step {
      case WriteGoal => CreateStep(w, step, v, sid);
      case Decide(evidence, at) => DecideStep(w, v, sid, evidence, at);
      case Patch(at) => PatchStep(w, v, sid, at);
      case Save(at) => SaveStep(w, v, sid, at);
      case Examine(evidence) => ExamineStep(w, v, sid, evidence);
      case Submit(run) => SubmitStep(w, v, sid, run);
      case LinkRun(at) => LinkStep(w, v, sid, at);
      case BeginCreate(_) => QuietStep(w, step, v, sid);
      case BeginAdvance => QuietStep(w, step, v, sid);
      case BeginControl(_, _) => QuietStep(w, step, v, sid);
      case Admit(_) => QuietStep(w, step, v, sid);
      case EndAdmission => QuietStep(w, step, v, sid);
      case Throw => QuietStep(w, step, v, sid);
      case Crash => QuietStep(w, step, v, sid);
      case _ => OthersStep(w, step, v, sid);
    }
  }
}
