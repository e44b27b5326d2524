/**
 * The Session Goal protocol of one session as a state machine: the lock holder's program points
 * with a possible crash or failing persist between any two writes, interleaved with ordinary
 * Runs, other sessions, admissions and Run events.
 */
module GoalProtocol {
  import opened Prelude
  import opened GoalDecision
  import opened SessionState

  datatype Control = Pause | Resume | Stop | Complete

  /** Where the operation that holds the session's Goal lock has got to. */
  datatype Pc =
    | Idle                                            // nobody holds the lock
    | Creating(goal: Goal)                            // createGoal passed its checks
    | Deciding(goal: Goal, frozen: set<string>)       // advanceGoal read an active Goal, whose Runs it reads next
    | Patching(goal: Goal, evidence: Evidence)        // the evidence decided something other than waiting
    | Controlling(goal: Goal, action: Control, maxRuns: int)
    | Resumed(goal: Goal)                             // resume was saved, the latest Run is examined next
    | Submitting(goal: Goal)                          // submitGoalRun was entered
    | Linking(goal: Goal, run: Run, isNew: bool)      // the Run exists, the Goal does not reference it yet
    | Linked(run: Run, isNew: bool)                   // the Goal references the Run
    | Admitting(runId: string)

  /**
   * The sidecar, the first terminal status of each Run, the last plan among each Run's events, the
   * admissions in flight, the lock holder, and the Goal ids given out so far (they are random and
   * never given out twice).
   */
  datatype World = World(
    store: State, ended: map<string, string>, plans: map<string, Plan>, pending: set<string>, pc: Pc, goals: set<string>)

  function Source(goalId: string, index: nat): string {
    "goal:" + goalId + ":" + Decimal(index)
  }

  // ---------------------------------------------------------------- reading the world

  predicate HasSession(w: World, sid: string) {
    FindSession(w.store.sessions, sid).Some?
  }

  function GoalOf(w: World, sid: string): Option<Goal> {
    match FindSession(w.store.sessions, sid)
    case Some(i) => w.store.sessions[i].goal
    case None => None
  }

  predicate Refused(w: World, runId: string) {
    FindRun(w.store.runs, runId).Some? &&
    w.store.runs[FindRun(w.store.runs, runId).value].admissionStatus == Some(AdmissionFailed)
  }

  /** A Run that can be followed by another: it ended (or was suspended), or was never admitted. */
  predicate Settled(w: World, runId: string) {
    runId in w.ended || Refused(w, runId)
  }

  /** Evidence may lag behind the world, but what it says about the latest Run is true. */
  predicate Truthful(w: World, goal: Goal, evidence: Evidence) {
    if goal.runIds == [] then evidence.admissionError.None? && evidence.terminalStatus.None?
    else
      var latest := goal.runIds[|goal.runIds| - 1];
      && (evidence.admissionError.Some? ==> Refused(w, latest))
      && (evidence.terminalStatus.Some? ==> latest in w.ended && w.ended[latest] == evidence.terminalStatus.value)
  }

  const FINAL: set<string> := {"completed", "failed", "timed_out", "cancelled"}

  /** No event follows a final one, and a Run that was refused has none: such a Run's plan is what it will always be. */
  predicate Frozen(w: World, runId: string) {
    Refused(w, runId) || (runId in w.ended && w.ended[runId] in FINAL)
  }

  function FrozenRuns(w: World, runIds: seq<string>): set<string> {
    set id | id in runIds && Frozen(w, id)
  }

  function PlanOf(w: World, runId: string): Option<Plan> {
    if runId in w.plans then Some(w.plans[runId]) else None
  }

  /** What a reader can have found as a Run's plan: it may lag behind a Run that was going on. */
  predicate ReadAs(w: World, frozen: set<string>, runId: string, plan: Option<Plan>) {
    runId in frozen ==> plan == PlanOf(w, runId)
  }

  /** The plan of the latest Run that has one. */
  function InheritedPlan(w: World, runIds: seq<string>): Option<Plan> {
    if runIds == [] then None
    else Or(PlanOf(w, runIds[|runIds| - 1]), InheritedPlan(w, runIds[..|runIds| - 1]))
  }

  /** What reading the Runs' plans from the latest one back can have found, each Run's as it was read. */
  predicate Inherits(w: World, frozen: set<string>, runIds: seq<string>, plan: Option<Plan>) {
    if runIds == [] then plan.None?
    else
      var latest := runIds[|runIds| - 1];
      || (plan.Some? && ReadAs(w, frozen, latest, plan))
      || (ReadAs(w, frozen, latest, None) && Inherits(w, frozen, runIds[..|runIds| - 1], plan))
  }

  /** The latest Run's plan is read together with its status, so a final status vouches for it. */
  function Vouched(goal: Goal, evidence: Evidence, frozen: set<string>): set<string> {
    if goal.runIds != [] && evidence.terminalStatus.Some? && evidence.terminalStatus.value in FINAL
    then frozen + {goal.runIds[|goal.runIds| - 1]} else frozen
  }

  /** The evidence's plan is true of the Runs that had ended when the reading began, and of the latest. */
  predicate PlanTruthful(w: World, goal: Goal, evidence: Evidence, frozen: set<string>) {
    if evidence.admissionError.Some? then evidence.plan.None?
    else Inherits(w, Vouched(goal, evidence, frozen), goal.runIds, evidence.plan)
  }

  /** What a Goal's changes are written with: a record that holds another Goal by now is left as it is. */
  function Amendment(goalId: string, change: Goal -> Goal): Session -> Result<Session, StoreError> {
    (s: Session) => Ok(if s.goal.Some? && s.goal.value.goalId == goalId then s.(goal := Some(change(s.goal.value))) else s)
  }

  function AmendGoal(store: State, sid: string, goalId: string, change: Goal -> Goal): State {
    var r := UpdateSession(store, sid, Amendment(goalId, change));
    if r.Ok? then r.value else store
  }

  function SetGoal(store: State, sid: string, goal: Goal): State {
    var r := UpdateSession(store, sid, (s: Session) => Ok(s.(goal := Some(goal))));
    if r.Ok? then r.value else store
  }

  predicate Live(status: GoalStatus) {
    status in {Active, Paused, AwaitingReview}
  }

  predicate Allowed(action: Control, goal: Goal, maxRuns: int) {
    match action
    case Pause => goal.status == Active
    case Complete => goal.status == AwaitingReview
    case Stop => goal.status in {Active, Paused, AwaitingReview, BudgetExhausted, Failed}
    case Resume => goal.status in {Paused, Failed, BudgetExhausted}
                   && 1 <= maxRuns <= GOAL_MAX_RUNS_LIMIT && |goal.runIds| < maxRuns
  }

  function Controlled(goal: Goal, action: Control, maxRuns: int, at: string): Goal {
    match action
    case Pause => goal.(status := Paused, lastReason := Some("user_paused"), updatedAt := at)
    case Complete => goal.(status := Completed, lastReason := Some("user_confirmed"), updatedAt := at)
    case Stop => goal.(status := Stopped, lastReason := Some("user_stopped"), updatedAt := at)
    case Resume => goal.(status := Active, maxRuns := maxRuns, lastReason := Some("user_resumed"), updatedAt := at)
  }

  function Progressed(goal: Goal, plan: Option<Plan>): Goal {
    match PlanProgress(plan)
    case Some(p) => goal.(planProgress := Some((p.completed, p.total)))
    case None => goal
  }

  predicate ProgressChanged(goal: Goal, plan: Option<Plan>) {
    var p := PlanProgress(plan);
    p.Some? && goal.planProgress != Some((p.value.completed, p.value.total))
  }

  function Patched(goal: Goal, decision: Decision, plan: Option<Plan>, at: string): Goal {
    var g := Progressed(goal, plan).(updatedAt := at);
    match decision
    case Wait => g
    case Continue(reason) => g.(lastReason := Some(reason))
    case Settle(status, why) => g.(lastReason := Some(why), status := status)
  }

  /** The Run submitGoalRun builds: everything but its id, prompt and trigger follows from the Goal. */
  predicate Candidate(session: Session, goal: Goal, run: Run) {
    && run.sessionId == session.sessionId && run.sourceEventId == Source(goal.goalId, |goal.runIds| + 1)
    && run.goalId == Some(goal.goalId) && run.admissionStatus == Some(AdmissionPending)
    && run.workspaceId == session.workspaceId && run.actorUserId == session.actorUserId
    && run.channelId == session.channelId && run.surface == session.surface && run.projectId == session.projectId
    && run.resourceRefs == goal.resourceRefs
    && run.permissionMode == (if goal.permissionMode == ContainedWrite then Some(ContainedWrite) else None)
  }

  function Link(goal: Goal, runId: string, at: string): Goal {
    goal.(runIds := if runId in goal.runIds then goal.runIds else goal.runIds + [runId], updatedAt := at)
  }

  // ---------------------------------------------------------------- the steps

  datatype Step =
    // the lock holder
    | BeginCreate(goal: Goal)
    | WriteGoal
    | BeginAdvance
    | Decide(evidence: Evidence, at: string)
    | Patch(at: string)
    | BeginControl(action: Control, maxRuns: int)
    | Save(at: string)
    | Examine(evidence: Evidence)
    | Submit(run: Run)
    | LinkRun(at: string)
    | Admit(canonical: bool)                          // whether the event store knows the Run
    | EndAdmission
    | Throw                                           // a persist fails, or the operation throws; not while it admits
    | Crash                                           // the Host process dies and is restarted
    // everybody else
    | OtherRun(run: Run)
    | OtherSession(id: string, mutation: Session -> Result<Session, StoreError>)
    | NewSession(session: Session)
    | Mark(runId: string, status: Admission, error: Option<string>)
    | EndOther(runId: string)
    | Event(runId: string, terminal: string)
    | NotePlan(runId: string, plan: Plan)

  /** Whether a step of the machine leads from one world to the next. */
  ghost predicate Next(sid: string, w: World, step: Step, v: World) {
    var goal := GoalOf(w, sid);
    match step
    case BeginCreate(g) =>
      && w.pc == Idle && HasSession(w, sid)
      && (goal.Some? ==> !Live(goal.value.status) && goal.value.sourceEventId != g.sourceEventId)
      && g.status == Active && g.runIds == [] && 1 <= g.maxRuns <= GOAL_MAX_RUNS_LIMIT
      && g.goalId !in w.goals
      && v == w.(pc := Creating(g), goals := w.goals + {g.goalId})
    case WriteGoal =>
      w.pc.Creating? && v == w.(store := SetGoal(w.store, sid, w.pc.goal), pc := Submitting(w.pc.goal))
    case BeginAdvance =>
      w.pc == Idle && goal.Some? && goal.value.status == Active && v == w.(pc := Deciding(goal.value, FrozenRuns(w, goal.value.runIds)))
    case Decide(evidence, at) =>
      && w.pc.Deciding? && Truthful(w, w.pc.goal, evidence) && PlanTruthful(w, w.pc.goal, evidence, w.pc.frozen)
      && if DecideGoal(w.pc.goal, evidence).Wait? then
           var store := if !ProgressChanged(w.pc.goal, evidence.plan) then w.store
                        else AmendGoal(w.store, sid, w.pc.goal.goalId, g => Patched(g, Wait, evidence.plan, at));
           v == w.(pc := Idle, store := store)
         else v == w.(pc := Patching(w.pc.goal, evidence))
    case Patch(at) =>
      && w.pc.Patching?
      && var decision := DecideGoal(w.pc.goal, w.pc.evidence);
         var store := AmendGoal(w.store, sid, w.pc.goal.goalId, g => Patched(g, decision, w.pc.evidence.plan, at));
         v == w.(store := store,
                 pc := if decision.Continue? then Submitting(Patched(w.pc.goal, decision, w.pc.evidence.plan, at)) else Idle)
    case BeginControl(action, maxRuns) =>
      && w.pc == Idle && goal.Some? && Allowed(action, goal.value, maxRuns)
      && v == w.(pc := Controlling(goal.value, action, maxRuns))
    case Save(at) =>
      && w.pc.Controlling?
      && var store := AmendGoal(w.store, sid, w.pc.goal.goalId, g => Controlled(g, w.pc.action, w.pc.maxRuns, at));
         var saved := Controlled(w.pc.goal, w.pc.action, w.pc.maxRuns, at);
         v == w.(store := store, pc := if w.pc.action == Resume then Resumed(saved) else Idle)
    case Examine(evidence) =>
      && w.pc.Resumed? && Truthful(w, w.pc.goal, evidence)
      && var ready := w.pc.goal.runIds == [] || evidence.admissionError.Some? || evidence.terminalStatus.Some?;
         v == w.(pc := if ready then Submitting(w.pc.goal) else Idle)
    case Submit(run) =>
      && w.pc.Submitting? && HasSession(w, sid)
      && Candidate(w.store.sessions[FindSession(w.store.sessions, sid).value], w.pc.goal, run)
      && FindRun(w.store.runs, run.runId).None? && run.runId !in w.ended && run.runId !in w.pending
      && var (store, lookup) := CreateOrGetRun(w.store, run);
         if lookup.Conflict? then v == w.(pc := Idle)
         else v == w.(store := store, pc := Linking(w.pc.goal, lookup.run, lookup.Created?),
                      pending := if lookup.Created? then w.pending + {run.runId} else w.pending)
    case LinkRun(at) =>
      && w.pc.Linking?
      && v == w.(store := AmendGoal(w.store, sid, w.pc.goal.goalId, g => Link(g, w.pc.run.runId, at)),
                 pc := Linked(w.pc.run, w.pc.isNew))
    case Admit(canonical) =>
      && w.pc.Linked?
      && var run := w.pc.run;
         && (run.runId in w.ended || run.runId in w.plans ==> canonical)
         && if w.pc.isNew || (!canonical && run.admissionStatus != Some(AdmissionFailed) && run.runId !in w.pending)
            then v == w.(pending := w.pending + {run.runId}, pc := Admitting(run.runId))
            else v == w.(pc := Idle)
    case EndAdmission => w.pc.Admitting? && v == w.(pending := w.pending - {w.pc.runId}, pc := Idle)
    case Throw => w.pc != Idle && !w.pc.Admitting? && !(w.pc.Linked? && w.pc.isNew) && v == w.(pc := Idle)
    case Crash => v == w.(pending := {}, pc := Idle)
    case OtherRun(run) =>
      && (run.sessionId == sid ==> run.goalId == None)
      && run.runId !in w.ended
      && run.admissionStatus != Some(AdmissionFailed)
      && var (store, lookup) := CreateOrGetRun(w.store, run);
         v == w.(store := store, pending := if lookup.Created? then w.pending + {run.runId} else w.pending)
    case OtherSession(id, mutation) =>
      id != sid && var r := UpdateSession(w.store, id, mutation); v == w.(store := if r.Ok? then r.value else w.store)
    case NewSession(session) =>
      session.goal == None && var r := CreateSession(w.store, session); v == w.(store := if r.Ok? then r.value else w.store)
    case Mark(runId, status, error) =>
      && runId in w.pending && !Refused(w, runId)
      && var r := MarkRunAdmission(w.store, runId, status, error); v == w.(store := if r.Ok? then r.value else w.store)
    case EndOther(runId) =>
      && (forall r <- w.store.runs :: r.runId == runId ==> r.sessionId != sid || r.goalId == None)
      && v == w.(pending := w.pending - {runId})
    case Event(runId, terminal) =>
      runId !in w.ended && FindRun(w.store.runs, runId).Some? && v == w.(ended := w.ended[runId := terminal])
    case NotePlan(runId, plan) =>
      !Frozen(w, runId) && FindRun(w.store.runs, runId).Some? && v == w.(plans := w.plans[runId := plan])
  }
}
