/**
 * The records of the Workbench sidecar and its operations on values: what each one does to the
 * stored sessions and runs when it is persisted.
 */
module SessionState {
  import opened Prelude
  import opened GoalDecision

  datatype Session = Session(
    sessionId: string, workspaceId: string, actorUserId: string, channelId: string,
    projectId: Option<string>, surface: string, createdAt: string, updatedAt: string, goal: Option<Goal>)

  datatype Admission = AdmissionPending | AdmissionStarted | AdmissionFailed

  datatype ConversationSource = FromConversation | FromRunId

  datatype Trigger = User | GoalContinuation

  datatype Run = Run(
    runId: string, sessionId: string, workspaceId: string, actorUserId: string, channelId: string,
    projectId: Option<string>, parentRunId: Option<string>, surface: string, prompt: string,
    sourceEventId: string, sourceEventDerived: bool, resourceRefs: seq<string>,
    skillId: Option<string>, agentId: Option<string>, modelProfileId: Option<string>,
    requestedArtifact: Option<string>, conversationId: string, conversationSource: Option<ConversationSource>,
    createdAt: string, updatedAt: string, admissionStatus: Option<Admission>, admissionError: Option<string>,
    permissionMode: Option<PermissionMode>, goalId: Option<string>, trigger: Option<Trigger>)

  datatype State = State(sessions: seq<Session>, runs: seq<Run>)

  datatype Lookup = Created(run: Run) | Existing(run: Run) | Conflict

  datatype StoreError =
    | SessionIdExists | SessionNotFound | SessionIdChanged | RunNotFound | Aborted | PersistFailed
    | MigrationSessionConflict | MigrationRunSessionMissing | MigrationRunConflict | MigrationSourceConflict

  // ---------------------------------------------------------------- well-formed states

  ghost predicate DistinctSessions(sessions: seq<Session>) {
    forall i, j | 0 <= i < j < |sessions| :: sessions[i].sessionId != sessions[j].sessionId
  }

  predicate SameSource(left: Run, right: Run) {
    left.sessionId == right.sessionId && left.sourceEventId == right.sourceEventId
  }

  ghost predicate DistinctRuns(runs: seq<Run>) {
    forall i, j | 0 <= i < j < |runs| :: runs[i].runId != runs[j].runId && !SameSource(runs[i], runs[j])
  }

  /** Session ids, run ids and pairs of session and source event are unique. */
  ghost predicate WellFormed(s: State) {
    DistinctSessions(s.sessions) && DistinctRuns(s.runs)
  }

  // ---------------------------------------------------------------- searching

  function FindSession(sessions: seq<Session>, id: string): (r: Option<nat>)
    ensures r.Some? ==> r.value < |sessions| && sessions[r.value].sessionId == id
    ensures r.None? ==> forall s <- sessions :: s.sessionId != id
  {
    if sessions == [] then None
    else if sessions[0].sessionId == id then Some(0)
    else
      match FindSession(sessions[1..], id)
      case Some(i) => Some(i + 1)
      case None => None
  }

  function FindRun(runs: seq<Run>, id: string): (r: Option<nat>)
    ensures r.Some? ==> r.value < |runs| && runs[r.value].runId == id
    ensures r.None? ==> forall x <- runs :: x.runId != id
  {
    if runs == [] then None
    else if runs[0].runId == id then Some(0)
    else
      match FindRun(runs[1..], id)
      case Some(i) => Some(i + 1)
      case None => None
  }

  function FindSource(runs: seq<Run>, sessionId: string, source: string): (r: Option<nat>)
    ensures r.Some? ==> r.value < |runs| && runs[r.value].sessionId == sessionId && runs[r.value].sourceEventId == source
    ensures r.None? ==> forall x <- runs :: !(x.sessionId == sessionId && x.sourceEventId == source)
  {
    if runs == [] then None
    else if runs[0].sessionId == sessionId && runs[0].sourceEventId == source then Some(0)
    else
      match FindSource(runs[1..], sessionId, source)
      case Some(i) => Some(i + 1)
      case None => None
  }

  // ---------------------------------------------------------------- the operations

  function CreateSession(s: State, session: Session): Result<State, StoreError> {
    if FindSession(s.sessions, session.sessionId).Some? then Err(SessionIdExists)
    else Ok(s.(sessions := s.sessions + [session]))
  }

  /** The mutation may throw; a mutation that changes the id is refused. */
  function UpdateSession(s: State, id: string, mutation: Session -> Result<Session, StoreError>): Result<State, StoreError> {
    match FindSession(s.sessions, id)
    case None => Err(SessionNotFound)
    case Some(i) =>
      var next :- mutation(s.sessions[i]);
      if next.sessionId != id then Err(SessionIdChanged)
      else Ok(s.(sessions := s.sessions[i := next]))
  }

  function Mode(run: Run): PermissionMode {
    if run.permissionMode.Some? then run.permissionMode.value else Readonly
  }

  predicate SameRunIdentity(left: Run, right: Run) {
    && left.sessionId == right.sessionId && left.workspaceId == right.workspaceId
    && left.actorUserId == right.actorUserId && left.prompt == right.prompt && left.surface == right.surface
    && left.projectId == right.projectId && left.parentRunId == right.parentRunId
    && left.skillId == right.skillId && left.agentId == right.agentId
    && left.modelProfileId == right.modelProfileId && left.requestedArtifact == right.requestedArtifact
    && Mode(left) == Mode(right) && left.goalId == right.goalId && left.resourceRefs == right.resourceRefs
  }

  /** Strings compared as JavaScript's `<` compares them on the basic plane: the first difference decides. */
  predicate Before(left: string, right: string) {
    right != "" && (left == "" || left[0] < right[0] || (left[0] == right[0] && Before(left[1..], right[1..])))
  }

  /** A session is at least as recent as its latest Run. */
  function Touch(sessions: seq<Session>, run: Run): (r: seq<Session>)
    ensures |r| == |sessions|
    ensures forall i | 0 <= i < |r| :: r[i].(updatedAt := sessions[i].updatedAt) == sessions[i]
  {
    match FindSession(sessions, run.sessionId)
    case Some(i) =>
      if Before(sessions[i].updatedAt, run.createdAt) then sessions[i := sessions[i].(updatedAt := run.createdAt)] else sessions
    case None => sessions
  }

  /** Its own session, and no other, is brought up to a Run's creation, and never back. */
  lemma TouchMeaning(sessions: seq<Session>, run: Run)
    requires DistinctSessions(sessions)
    ensures forall i | 0 <= i < |sessions| ::
              Touch(sessions, run)[i].updatedAt ==
                if sessions[i].sessionId == run.sessionId && Before(sessions[i].updatedAt, run.createdAt) then run.createdAt
                else sessions[i].updatedAt
  {
    forall i | 0 <= i < |sessions| && sessions[i].sessionId == run.sessionId
      ensures FindSession(sessions, run.sessionId) == Some(i)
    {
      assert sessions[i] in sessions;
    }
  }

  /** The run an earlier call stored for this source event, or under this id. */
  function Stored(s: State, run: Run): (r: Option<Run>)
    ensures r.Some? ==> r.value in s.runs
  {
    match FindSource(s.runs, run.sessionId, run.sourceEventId)
    case Some(i) => Some(s.runs[i])
    case None =>
      match FindRun(s.runs, run.runId)
      case Some(i) => Some(s.runs[i])
      case None => None
  }

  function CreateOrGetRun(s: State, run: Run): (State, Lookup) {
    match Stored(s, run)
    case Some(existing) => (s, if SameRunIdentity(existing, run) then Existing(existing) else Conflict)
    case None => (State(Touch(s.sessions, run), s.runs + [run]), Created(run))
  }

  function MarkRunAdmission(s: State, id: string, status: Admission, error: Option<string>): Result<State, StoreError> {
    match FindRun(s.runs, id)
    case None => Err(RunNotFound)
    case Some(i) =>
      var marked := s.runs[i].(admissionStatus := Some(status),
                               admissionError := if error.Some? then error else s.runs[i].admissionError);
      Ok(s.(runs := s.runs[i := marked]))
  }

  // ---------------------------------------------------------------- what every operation keeps

  lemma {:induction false} FoundSource(runs: seq<Run>, i: nat)
    requires DistinctRuns(runs) && i < |runs|
    ensures FindSource(runs, runs[i].sessionId, runs[i].sourceEventId) == Some(i)
  {
    var r := FindSource(runs, runs[i].sessionId, runs[i].sourceEventId);
    assert runs[i] in runs;
    if r.value < i {
      assert SameSource(runs[r.value], runs[i]);
    } else if i < r.value {
      assert SameSource(runs[i], runs[r.value]);
    }
  }

  lemma {:induction false} FoundRun(runs: seq<Run>, i: nat)
    requires DistinctRuns(runs) && i < |runs|
    ensures FindRun(runs, runs[i].runId) == Some(i)
  {
    assert runs[i] in runs;
  }

  lemma CreateKeeps(s: State, session: Session)
    requires WellFormed(s) && CreateSession(s, session).Ok?
    ensures WellFormed(CreateSession(s, session).value)
  {
    assert forall i | 0 <= i < |s.sessions| :: s.sessions[i] in s.sessions;
  }

  lemma UpdateKeeps(s: State, id: string, mutation: Session -> Result<Session, StoreError>)
    requires WellFormed(s) && UpdateSession(s, id, mutation).Ok?
    ensures WellFormed(UpdateSession(s, id, mutation).value)
  {
  }

  lemma CreateRunKeeps(s: State, run: Run)
    requires WellFormed(s)
    ensures WellFormed(CreateOrGetRun(s, run).0)
  {
    assert forall i | 0 <= i < |s.runs| :: s.runs[i] in s.runs;
  }

  lemma MarkKeeps(s: State, id: string, status: Admission, error: Option<string>)
    requires WellFormed(s) && MarkRunAdmission(s, id, status, error).Ok?
    ensures WellFormed(MarkRunAdmission(s, id, status, error).value)
  {
    var i := FindRun(s.runs, id).value;
    var runs := MarkRunAdmission(s, id, status, error).value.runs;
    forall a, b | 0 <= a < b < |runs|
      ensures runs[a].runId != runs[b].runId && !SameSource(runs[a], runs[b])
    {
      assert !SameSource(s.runs[a], s.runs[b]);
    }
  }

  // ---------------------------------------------------------------- the migration delta

  predicate SameSessionRecord(left: Session, right: Session) {
    && left.sessionId == right.sessionId && left.workspaceId == right.workspaceId
    && left.actorUserId == right.actorUserId && left.channelId == right.channelId
    && left.projectId == right.projectId && left.surface == right.surface && left.createdAt == right.createdAt
  }

  predicate SameMigratedRun(left: Run, right: Run) {
    && SameRunIdentity(left, right) && left.runId == right.runId && left.channelId == right.channelId
    && left.sourceEventId == right.sourceEventId && left.sourceEventDerived == right.sourceEventDerived
    && left.conversationId == right.conversationId && left.conversationSource == right.conversationSource
    && left.createdAt == right.createdAt && left.updatedAt == right.updatedAt
    && left.admissionStatus == right.admissionStatus && left.admissionError == right.admissionError
  }

  // ---------------------------------------------------------------- what identity leaves free

  /** A Run without a mode is a read-only one. */
  predicate SameMode(left: Option<PermissionMode>, right: Option<PermissionMode>) {
    left == right || (left != Some(ContainedWrite) && right != Some(ContainedWrite))
  }

  /** The other Run asks for the same: it differs at most in its own ids, provenance, times and admission. */
  predicate AsksTheSame(run: Run, other: Run) {
    && other == run.(runId := other.runId, channelId := other.channelId, sourceEventId := other.sourceEventId,
                     sourceEventDerived := other.sourceEventDerived, conversationId := other.conversationId,
                     conversationSource := other.conversationSource, createdAt := other.createdAt, updatedAt := other.updatedAt,
                     admissionStatus := other.admissionStatus, admissionError := other.admissionError,
                     trigger := other.trigger, permissionMode := other.permissionMode)
    && SameMode(run.permissionMode, other.permissionMode)
  }

  /** The same Run in all but who triggered it, and how the read-only mode is written. */
  predicate SameRecord(run: Run, other: Run) {
    other == run.(trigger := other.trigger, permissionMode := other.permissionMode) && SameMode(run.permissionMode, other.permissionMode)
  }

  lemma IdentityMeaning(run: Run, other: Run)
    ensures SameRunIdentity(run, other) <==> AsksTheSame(run, other)
    ensures SameMigratedRun(run, other) <==> SameRecord(run, other)
  {
  }

  lemma SessionMeaning(session: Session, other: Session)
    ensures SameSessionRecord(session, other) <==> other == session.(updatedAt := other.updatedAt, goal := other.goal)
  {
  }

  datatype Records = Records(sessions: seq<Session>, runs: seq<Run>)

  /** The indexes a migration builds, and what it would add. */
  datatype Delta = Delta(
    sessionsById: map<string, Session>, runsById: map<string, Run>, runsBySource: map<string, Run>,
    sessions: seq<Session>, runs: seq<Run>)

  const NUL: string := ['\0']

  function SourceKey(run: Run): string {
    run.sessionId + NUL + run.sourceEventId
  }

  function IndexSessions(sessions: seq<Session>): map<string, Session> {
    if sessions == [] then map[]
    else IndexSessions(sessions[..|sessions| - 1])[sessions[|sessions| - 1].sessionId := sessions[|sessions| - 1]]
  }

  function IndexRuns(runs: seq<Run>): map<string, Run> {
    if runs == [] then map[]
    else IndexRuns(runs[..|runs| - 1])[runs[|runs| - 1].runId := runs[|runs| - 1]]
  }

  function IndexSources(runs: seq<Run>): map<string, Run> {
    if runs == [] then map[]
    else IndexSources(runs[..|runs| - 1])[SourceKey(runs[|runs| - 1]) := runs[|runs| - 1]]
  }

  function StartDelta(s: State): Delta {
    Delta(IndexSessions(s.sessions), IndexRuns(s.runs), IndexSources(s.runs), [], [])
  }

  function AddSession(d: Delta, session: Session): Result<Delta, StoreError> {
    if session.sessionId in d.sessionsById then
      if SameSessionRecord(d.sessionsById[session.sessionId], session) then Ok(d) else Err(MigrationSessionConflict)
    else Ok(d.(sessionsById := d.sessionsById[session.sessionId := session], sessions := d.sessions + [session]))
  }

  function AddRun(d: Delta, run: Run): Result<Delta, StoreError> {
    if run.sessionId !in d.sessionsById then Err(MigrationRunSessionMissing)
    else if run.runId in d.runsById then
      if SameMigratedRun(d.runsById[run.runId], run) then Ok(d) else Err(MigrationRunConflict)
    else if SourceKey(run) in d.runsBySource && d.runsBySource[SourceKey(run)].runId != run.runId then
      Err(MigrationSourceConflict)
    else
      Ok(d.(runsById := d.runsById[run.runId := run], runsBySource := d.runsBySource[SourceKey(run) := run],
            runs := d.runs + [run]))
  }

  function AddSessions(d: Delta, sessions: seq<Session>): Result<Delta, StoreError>
    decreases |sessions|
  {
    if sessions == [] then Ok(d)
    else
      var next :- AddSession(d, sessions[0]);
      AddSessions(next, sessions[1..])
  }

  function AddRuns(d: Delta, runs: seq<Run>): Result<Delta, StoreError>
    decreases |runs|
  {
    if runs == [] then Ok(d)
    else
      var next :- AddRun(d, runs[0]);
      AddRuns(next, runs[1..])
  }

  function MigrationDelta(s: State, records: Records): Result<Delta, StoreError> {
    var withSessions :- AddSessions(StartDelta(s), records.sessions);
    AddRuns(withSessions, records.runs)
  }

  function ApplyMigration(s: State, records: Records): Result<State, StoreError> {
    var delta :- MigrationDelta(s, records);
    Ok(State(s.sessions + delta.sessions, s.runs + delta.runs))
  }
}
