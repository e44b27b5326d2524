/**
 * The Workbench session store: the stored state and the pending admissions, updated one
 * operation at a time, each persisted before it is adopted. Every method takes what its
 * persist does, so that a failing disk is one of the behaviours.
 */
module SessionStore {
  import opened Prelude
  import opened GoalDecision
  import opened SessionState

  /** What an admission promise was resolved with. */
  datatype Outcome = Admitted | Refused(statusCode: nat, code: string)

  /** A pending admission is waited for until its promise is resolved. */
  type Admissions = map<string, Option<Outcome>>

  function Begin(pending: Admissions, runId: string): Admissions {
    if runId in pending then pending else pending[runId := None]
  }

  class WorkbenchSessionStore {
    var state: State
    var pendingAdmissions: Admissions

    /** A store whose sidecar was read; an absent sidecar is the empty state. */
    constructor (loaded: State)
      ensures state == loaded && pendingAdmissions == map[]
    {
      state := loaded;
      pendingAdmissions := map[];
    }

    /** Adopts a candidate state after it is on disk, or leaves everything as it was. */
    method Adopt(candidate: State, persists: bool) returns (ok: bool)
      modifies this`state
      ensures ok == persists
      ensures state == if persists then candidate else old(state)
    {
      if persists { state := candidate; }
      return persists;
    }

    method StoreSession(session: Session, persists: bool) returns (r: Result<Session, StoreError>)
      modifies this`state
      ensures match CreateSession(old(state), session)
              case Ok(next) => if persists then state == next && r == Ok(session) else state == old(state) && r == Err(PersistFailed)
              case Err(e) => state == old(state) && r == Err(e)
    {
      if FindSession(state.sessions, session.sessionId).Some? { return Err(SessionIdExists); }
      var ok := Adopt(State(state.sessions + [session], state.runs), persists);
      return if ok then Ok(session) else Err(PersistFailed);
    }

    method ReplaceSession(id: string, mutation: Session -> Result<Session, StoreError>, persists: bool)
      returns (r: Result<Session, StoreError>)
      modifies this`state
      ensures match UpdateSession(old(state), id, mutation)
              case Ok(next) =>
                if persists then state == next && r.Ok? && r.value.sessionId == id && r.value in state.sessions
                else state == old(state) && r == Err(PersistFailed)
              case Err(e) => state == old(state) && r == Err(e)
    {
      var index := FindSession(state.sessions, id);
      if index.None? { return Err(SessionNotFound); }
      var next := mutation(state.sessions[index.value]);
      if next.Err? { return Err(next.error); }
      if next.value.sessionId != id { return Err(SessionIdChanged); }
      var sessions := state.sessions[index.value := next.value];
      assert sessions[index.value] in sessions;
      var ok := Adopt(State(sessions, state.runs), persists);
      return if ok then Ok(next.value) else Err(PersistFailed);
    }

    /**
     * Creates the Run of a source event once. The admission of a new Run is begun inside the
     * mutation and cancelled when the mutation is not persisted.
     */
    method CreateOrGet(run: Run, persists: bool) returns (r: Result<Lookup, StoreError>)
      modifies this
      ensures var (next, lookup) := CreateOrGetRun(old(state), run);
              if persists then
                && state == next && r == Ok(lookup)
                && pendingAdmissions == if lookup.Created? then Begin(old(pendingAdmissions), run.runId) else old(pendingAdmissions)
              else
                && state == old(state) && r == Err(PersistFailed)
                && pendingAdmissions == if lookup.Created? then old(pendingAdmissions) - {run.runId} else old(pendingAdmissions)
    {
      var existing := Stored(state, run);
      var lookup: Lookup;
      var candidate := state;
      if existing.Some? {
        lookup := if SameRunIdentity(existing.value, run) then Existing(existing.value) else Conflict;
      } else {
        candidate := State(Touch(state.sessions, run), state.runs + [run]);
        BeginRunAdmission(run.runId);
        lookup := Created(run);
      }
      var ok := Adopt(candidate, persists);
      if !ok {
        if lookup.Created? { EndRunAdmission(run.runId); }
        return Err(PersistFailed);
      }
      return Ok(lookup);
    }

    method MarkAdmission(runId: string, status: Admission, error: Option<string>, persists: bool)
      returns (r: Result<(), StoreError>)
      modifies this`state
      ensures match MarkRunAdmission(old(state), runId, status, error)
              case Ok(next) => if persists then state == next && r == Ok(()) else state == old(state) && r == Err(PersistFailed)
              case Err(e) => state == old(state) && r == Err(e)
    {
      var index := FindRun(state.runs, runId);
      if index.None? { return Err(RunNotFound); }
      var current := state.runs[index.value];
      var marked := current.(admissionStatus := Some(status));
      if error.Some? { marked := marked.(admissionError := error); }
      var ok := Adopt(State(state.sessions, state.runs[index.value := marked]), persists);
      return if ok then Ok(()) else Err(PersistFailed);
    }

    method BeginRunAdmission(runId: string)
      modifies this`pendingAdmissions
      ensures pendingAdmissions == Begin(old(pendingAdmissions), runId)
    {
      if runId !in pendingAdmissions { pendingAdmissions := pendingAdmissions[runId := None]; }
    }

    /** Resolves the promise of a pending admission; only the first outcome counts. */
    method CompleteRunAdmission(runId: string, outcome: Outcome)
      modifies this`pendingAdmissions
      ensures pendingAdmissions ==
                if runId in old(pendingAdmissions) && old(pendingAdmissions)[runId].None?
                then old(pendingAdmissions)[runId := Some(outcome)] else old(pendingAdmissions)
    {
      if runId in pendingAdmissions && pendingAdmissions[runId].None? {
        pendingAdmissions := pendingAdmissions[runId := Some(outcome)];
      }
    }

    /** Also what cancelling an admission does. */
    method EndRunAdmission(runId: string)
      modifies this`pendingAdmissions
      ensures pendingAdmissions == old(pendingAdmissions) - {runId}
    {
      pendingAdmissions := pendingAdmissions - {runId};
    }

    /** The indexes of the migration are filled in loops over the two record lists. */
    method ComputeDelta(records: Records) returns (r: Result<SessionState.Delta, StoreError>)
      ensures r == MigrationDelta(state, records)
    {
      var d := StartDelta(state);
      ghost var start := d;
      for i := 0 to |records.sessions|
        invariant AddSessions(d, records.sessions[i..]) == AddSessions(start, records.sessions)
      {
        var session := records.sessions[i];
        if session.sessionId in d.sessionsById {
          if !SameSessionRecord(d.sessionsById[session.sessionId], session) { return Err(MigrationSessionConflict); }
        } else {
          d := d.(sessionsById := d.sessionsById[session.sessionId := session], sessions := d.sessions + [session]);
        }
      }
      ghost var middle := d;
      for i := 0 to |records.runs|
        invariant AddRuns(d, records.runs[i..]) == AddRuns(middle, records.runs)
      {
        var run := records.runs[i];
        if run.sessionId !in d.sessionsById { return Err(MigrationRunSessionMissing); }
        if run.runId in d.runsById {
          if !SameMigratedRun(d.runsById[run.runId], run) { return Err(MigrationRunConflict); }
        } else {
          var key := SourceKey(run);
          if key in d.runsBySource && d.runsBySource[key].runId != run.runId { return Err(MigrationSourceConflict); }
          d := d.(runsById := d.runsById[run.runId := run], runsBySource := d.runsBySource[key := run], runs := d.runs + [run]);
        }
      }
      return Ok(d);
    }

    /** Adds exactly what a preview announces; a conflict or a failing persist changes nothing. */
    method Migrate(records: Records, persists: bool) returns (r: Result<(nat, nat), StoreError>)
      modifies this`state
      ensures match MigrationDelta(old(state), records)
              case Ok(d) =>
                if persists then r == Ok((|d.sessions|, |d.runs|)) && Ok(state) == ApplyMigration(old(state), records)
                else r == Err(PersistFailed) && state == old(state)
              case Err(e) => r == Err(e) && state == old(state)
    {
      var d := ComputeDelta(records);
      if d.Err? { return Err(d.error); }
      var ok := Adopt(State(state.sessions + d.value.sessions, state.runs + d.value.runs), persists);
      return if ok then Ok((|d.value.sessions|, |d.value.runs|)) else Err(PersistFailed);
    }

    method PreviewMigration(records: Records) returns (r: Result<(nat, nat), StoreError>)
      ensures match MigrationDelta(state, records)
              case Ok(d) => r == Ok((|d.sessions|, |d.runs|))
              case Err(e) => r == Err(e)
    {
      var d := ComputeDelta(records);
      if d.Err? { return Err(d.error); }
      return Ok((|d.value.sessions|, |d.value.runs|));
    }
  }

  // ---------------------------------------------------------------- histories

  /** What the store holds between two operations. */
  datatype Store = Store(state: State, pending: Admissions)

  datatype Op =
    | CreateSessionOp(session: Session)
    | UpdateSessionOp(id: string, mutation: Session -> Result<Session, StoreError>)
    | CreateRunOp(run: Run)
    | MarkOp(runId: string, status: Admission, error: Option<string>)
    | BeginOp(runId: string)
    | CompleteOp(runId: string, outcome: Outcome)
    | EndOp(runId: string)
    | MigrateOp(records: Records)

  /** One call, with what its persist does; the contracts of the methods above are its cases. */
  function Perform(s: Store, op: Op, persists: bool): Store {
    match op
    case CreateSessionOp(session) => s.(state := Kept(s.state, CreateSession(s.state, session), persists))
    case UpdateSessionOp(id, mutation) => s.(state := Kept(s.state, UpdateSession(s.state, id, mutation), persists))
    case CreateRunOp(run) =>
      var (next, lookup) := CreateOrGetRun(s.state, run);
      if persists then Store(next, if lookup.Created? then Begin(s.pending, run.runId) else s.pending)
      else s.(pending := if lookup.Created? then s.pending - {run.runId} else s.pending)
    case MarkOp(runId, status, error) => s.(state := Kept(s.state, MarkRunAdmission(s.state, runId, status, error), persists))
    case BeginOp(runId) => s.(pending := Begin(s.pending, runId))
    case CompleteOp(runId, outcome) =>
      s.(pending := if runId in s.pending && s.pending[runId].None? then s.pending[runId := Some(outcome)] else s.pending)
    case EndOp(runId) => s.(pending := s.pending - {runId})
    case MigrateOp(records) => s.(state := Kept(s.state, ApplyMigration(s.state, records), persists))
  }

  function Kept(s: State, r: Result<State, StoreError>, persists: bool): State {
    if r.Ok? && persists then r.value else s
  }

  ghost function Holds(store: WorkbenchSessionStore): Store
    reads store
  {
    Store(store.state, store.pendingAdmissions)
  }

  /** Calling the store's methods is performing their operations. */
  method Call(store: WorkbenchSessionStore, op: Op, persists: bool)
    modifies store
    ensures Holds(store) == Perform(old(Holds(store)), op, persists)
  {
    match op {
      case CreateSessionOp(session) => var _ := store.StoreSession(session, persists);
      case UpdateSessionOp(id, mutation) => var _ := store.ReplaceSession(id, mutation, persists);
      case CreateRunOp(run) => var _ := store.CreateOrGet(run, persists);
      case MarkOp(runId, status, error) => var _ := store.MarkAdmission(runId, status, error, persists);
      case BeginOp(runId) => store.BeginRunAdmission(runId);
      case CompleteOp(runId, outcome) => store.CompleteRunAdmission(runId, outcome);
      case EndOp(runId) => store.EndRunAdmission(runId);
      case MigrateOp(records) => var _ := store.Migrate(records, persists);
    }
  }

  function PerformAll(s: Store, calls: seq<(Op, bool)>): Store
    decreases |calls|
  {
    if calls == [] then s else PerformAll(Perform(s, calls[0].0, calls[0].1), calls[1..])
  }

  /**
   * A call whose persist fails changes no state, and no pending admission unless it was about to
   * create a Run whose id already had one: that admission is the one cancelled.
   */
  lemma FailureChangesNothing(s: Store, op: Op)
    requires !op.BeginOp? && !op.CompleteOp? && !op.EndOp?
    ensures Perform(s, op, false).state == s.state
    ensures Perform(s, op, false) == s <==>
              !(op.CreateRunOp? && CreateOrGetRun(s.state, op.run).1.Created? && op.run.runId in s.pending)
  {
    if op.CreateRunOp? && op.run.runId !in s.pending {
      assert s.pending - {op.run.runId} == s.pending;
    }
    if op.CreateRunOp? && op.run.runId in s.pending {
      assert op.run.runId !in s.pending - {op.run.runId};
    }
  }

  /** From an empty store: an admission that was begun is gone once creating its Run was not persisted. */
  lemma CancelledAdmission(run: Run)
    ensures var s := PerformAll(Store(State([], []), map[]), [(BeginOp(run.runId), true)]);
            s.pending == map[run.runId := None] && Perform(s, CreateRunOp(run), false) == Store(State([], []), map[])
  {
    assert [(BeginOp(run.runId), true)][1..] == [];
    var s := Store(State([], []), map[run.runId := None]);
    assert PerformAll(Store(State([], []), map[]), [(BeginOp(run.runId), true)]) == s;
    assert s.pending - {run.runId} == map[];
  }

  /** Only the admission of a stored Run ever changes. */
  predicate SameButAdmission(left: Run, right: Run) {
    left == right.(admissionStatus := left.admissionStatus, admissionError := left.admissionError)
  }

  /** Every stored Run stays stored, with the same identity, source and position. */
  ghost predicate RunsKept(before: State, after: State) {
    |before.runs| <= |after.runs|
    && forall i | 0 <= i < |before.runs| :: SameButAdmission(before.runs[i], after.runs[i])
  }

  lemma PerformKeeps(s: Store, op: Op, persists: bool)
    requires WellFormed(s.state)
    ensures WellFormed(Perform(s, op, persists).state) && RunsKept(s.state, Perform(s, op, persists).state)
  {
    match op
    case CreateSessionOp(session) => if CreateSession(s.state, session).Ok? { CreateKeeps(s.state, session); }
    case UpdateSessionOp(id, mutation) => if UpdateSession(s.state, id, mutation).Ok? { UpdateKeeps(s.state, id, mutation); }
    case CreateRunOp(run) => CreateRunKeeps(s.state, run);
    case MarkOp(runId, status, error) =>
      if MarkRunAdmission(s.state, runId, status, error).Ok? { MarkKeeps(s.state, runId, status, error); }
    case MigrateOp(records) => if ApplyMigration(s.state, records).Ok? { MigrationKeeps(s.state, records); }
    case _ =>
  }

  /** From any well-formed state, any calls with any persist failures keep the ids unique and every Run stored. */
  lemma {:induction false} HistoriesKeep(s: Store, calls: seq<(Op, bool)>)
    requires WellFormed(s.state)
    ensures WellFormed(PerformAll(s, calls).state) && RunsKept(s.state, PerformAll(s, calls).state)
    decreases |calls|
  {
    if calls != [] {
      var next := Perform(s, calls[0].0, calls[0].1);
      PerformKeeps(s, calls[0].0, calls[0].1);
      HistoriesKeep(next, calls[1..]);
    }
  }

  /**
   * Idempotent creation: once a Run is stored, asking again for its source event with the same
   * identity returns that Run, whatever happened in between and whatever the new candidate's id;
   * with another identity it is a conflict. Neither stores anything.
   */
  lemma RetryReturnsTheRun(s: Store, run: Run, calls: seq<(Op, bool)>, retry: Run)
    requires WellFormed(s.state) && CreateOrGetRun(s.state, run).1.Created?
    requires SameSource(run, retry)
    ensures var later := PerformAll(Perform(s, CreateRunOp(run), true), calls);
            var (after, lookup) := CreateOrGetRun(later.state, retry);
            && after == later.state
            && if AsksTheSame(run, retry) then lookup.Existing? && SameButAdmission(lookup.run, run) else lookup.Conflict?
  {
    var created := Perform(s, CreateRunOp(run), true);
    var n := |s.state.runs|;
    assert created.state.runs[n] == run;
    PerformKeeps(s, CreateRunOp(run), true);
    HistoriesKeep(created, calls);
    var later := PerformAll(created, calls);
    FoundSource(later.state.runs, n);
    IdentityMeaning(run, retry);
    IdentityMeaning(later.state.runs[n], retry);
  }

  /**
   * What asking for a Run answers: the Run stored for its source event, or else under its id, if
   * that asks for the same; a conflict if it does not; and only where there is neither, a new Run.
   */
  lemma {:induction false} LookupExactly(s: State, run: Run)
    requires WellFormed(s)
    ensures var (after, lookup) := CreateOrGetRun(s, run);
            && (lookup.Created? <==> forall x <- s.runs :: !SameSource(x, run) && x.runId != run.runId)
            && (lookup.Created? ==> lookup.run == run && after.runs == s.runs + [run])
            && (!lookup.Created? ==> after == s)
            && (forall x <- s.runs :: SameSource(x, run) || (x.runId == run.runId && forall y <- s.runs :: !SameSource(y, run)) ==>
                  lookup == if AsksTheSame(x, run) then Existing(x) else Conflict)
  {
    forall x <- s.runs
      ensures SameSource(x, run) ==> FindSource(s.runs, run.sessionId, run.sourceEventId).Some? && Stored(s, run) == Some(x)
      ensures x.runId == run.runId && (forall y <- s.runs :: !SameSource(y, run)) ==> Stored(s, run) == Some(x)
    {
      IdentityMeaning(x, run);
      var i: nat :| i < |s.runs| && s.runs[i] == x;
      FoundSource(s.runs, i);
      FoundRun(s.runs, i);
    }
    if Stored(s, run).Some? { IdentityMeaning(Stored(s, run).value, run); }
  }

  // ---------------------------------------------------------------- migration keeps the ids unique

  ghost predicate Indexed(d: Delta, sessions: seq<Session>, runs: seq<Run>) {
    && (forall x <- sessions :: x.sessionId in d.sessionsById)
    && (forall x <- runs :: x.runId in d.runsById && SourceKey(x) in d.runsBySource)
    && (forall k <- d.runsBySource :: d.runsBySource[k].runId in d.runsById)
  }

  lemma {:induction false} StartIndexed(s: State)
    ensures Indexed(StartDelta(s), s.sessions, s.runs)
  {
    IndexedSessions(s.sessions);
    IndexedRuns(s.runs);
  }

  lemma {:induction false} IndexedSessions(sessions: seq<Session>)
    ensures forall x <- sessions :: x.sessionId in IndexSessions(sessions)
    decreases |sessions|
  {
    if sessions != [] {
      IndexedSessions(sessions[..|sessions| - 1]);
      assert sessions == sessions[..|sessions| - 1] + [sessions[|sessions| - 1]];
    }
  }

  lemma {:induction false} IndexedRuns(runs: seq<Run>)
    ensures forall x <- runs :: x.runId in IndexRuns(runs) && SourceKey(x) in IndexSources(runs)
    ensures forall k <- IndexSources(runs) :: IndexSources(runs)[k].runId in IndexRuns(runs)
    decreases |runs|
  {
    if runs != [] {
      IndexedRuns(runs[..|runs| - 1]);
      assert runs == runs[..|runs| - 1] + [runs[|runs| - 1]];
    }
  }

  lemma {:induction false} SessionsStayDistinct(d: Delta, base: State, sessions: seq<Session>)
    requires Indexed(d, base.sessions + d.sessions, base.runs + d.runs) && DistinctSessions(base.sessions + d.sessions)
    requires AddSessions(d, sessions).Ok?
    ensures var e := AddSessions(d, sessions).value;
            && Indexed(e, base.sessions + e.sessions, base.runs + e.runs) && DistinctSessions(base.sessions + e.sessions)
            && e.runs == d.runs
    decreases |sessions|
  {
    if sessions != [] {
      var next := AddSession(d, sessions[0]).value;
      var all, more := base.sessions + d.sessions, base.sessions + next.sessions;
      assert next != d ==> more == all + [sessions[0]];
      forall i, j | 0 <= i < j < |more|
        ensures more[i].sessionId != more[j].sessionId
      {
        assert i < |all| ==> all[i] in all;
      }
      SessionsStayDistinct(next, base, sessions[1..]);
    }
  }

  lemma {:induction false} RunsStayDistinct(d: Delta, base: State, runs: seq<Run>)
    requires Indexed(d, base.sessions + d.sessions, base.runs + d.runs) && DistinctRuns(base.runs + d.runs)
    requires AddRuns(d, runs).Ok?
    ensures var e := AddRuns(d, runs).value;
            DistinctRuns(base.runs + e.runs) && e.sessions == d.sessions
    decreases |runs|
  {
    if runs != [] {
      var next := AddRun(d, runs[0]).value;
      var all, more := base.runs + d.runs, base.runs + next.runs;
      if next != d {
        assert more == all + [runs[0]];
        forall i, j | 0 <= i < j < |more|
          ensures more[i].runId != more[j].runId && !SameSource(more[i], more[j])
        {
          assert i < |all| ==> all[i] in all;
          if j == |all| {
            assert SourceKey(more[i]) in d.runsBySource;
          }
        }
      }
      RunsStayDistinct(next, base, runs[1..]);
    }
  }

  /** The indexes find every stored record of a state whose ids are unique. */
  lemma {:induction false} SessionIndexFinds(sessions: seq<Session>)
    requires DistinctSessions(sessions)
    ensures forall x <- sessions :: x.sessionId in IndexSessions(sessions) && IndexSessions(sessions)[x.sessionId] == x
    decreases |sessions|
  {
    if sessions != [] {
      var n := |sessions| - 1;
      SessionIndexFinds(sessions[..n]);
      assert sessions == sessions[..n] + [sessions[n]];
      forall x <- sessions[..n] ensures x.sessionId != sessions[n].sessionId { var i :| 0 <= i < n && sessions[i] == x; }
    }
  }

  lemma {:induction false} RunIndexFinds(runs: seq<Run>)
    requires DistinctRuns(runs)
    ensures forall x <- runs :: x.runId in IndexRuns(runs) && IndexRuns(runs)[x.runId] == x
    decreases |runs|
  {
    if runs != [] {
      var n := |runs| - 1;
      RunIndexFinds(runs[..n]);
      assert runs == runs[..n] + [runs[n]];
      forall x <- runs[..n] ensures x.runId != runs[n].runId { var i :| 0 <= i < n && runs[i] == x; }
    }
  }

  /** A migrated session that is stored already is a conflict exactly when anything but its recency and Goal differs. */
  lemma {:induction false} SessionConflictExactly(s: State, stored: Session, session: Session)
    requires WellFormed(s) && stored in s.sessions && session.sessionId == stored.sessionId
    ensures MigrationDelta(s, Records([session], [])) ==
              if session == stored.(updatedAt := session.updatedAt, goal := session.goal) then Ok(StartDelta(s)) else Err(MigrationSessionConflict)
  {
    SessionIndexFinds(s.sessions);
    SessionMeaning(stored, session);
    assert [session][1..] == [];
    assert AddSessions(StartDelta(s), [session])
           == match AddSession(StartDelta(s), session) case Ok(d) => AddSessions(d, []) case Err(e) => Err(e);
  }

  /** And a migrated Run that is stored already, exactly when anything but its trigger and the writing of its mode does. */
  lemma {:induction false} RunConflictExactly(s: State, stored: Run, run: Run)
    requires WellFormed(s) && stored in s.runs && run.runId == stored.runId && exists x <- s.sessions :: x.sessionId == run.sessionId
    ensures MigrationDelta(s, Records([], [run])) == if SameRecord(stored, run) then Ok(StartDelta(s)) else Err(MigrationRunConflict)
  {
    SessionIndexFinds(s.sessions);
    RunIndexFinds(s.runs);
    IdentityMeaning(stored, run);
    assert [run][1..] == [];
    assert AddRuns(StartDelta(s), [run])
           == match AddRun(StartDelta(s), run) case Ok(d) => AddRuns(d, []) case Err(e) => Err(e);
  }

  lemma MigrationKeeps(s: State, records: Records)
    requires WellFormed(s) && ApplyMigration(s, records).Ok?
    ensures WellFormed(ApplyMigration(s, records).value) && RunsKept(s, ApplyMigration(s, records).value)
  {
    var d := StartDelta(s);
    StartIndexed(s);
    assert s.sessions + d.sessions == s.sessions && s.runs + d.runs == s.runs;
    SessionsStayDistinct(d, s, records.sessions);
    RunsStayDistinct(AddSessions(d, records.sessions).value, s, records.runs);
  }
}
