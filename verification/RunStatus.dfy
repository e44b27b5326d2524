/**
 * The two readers of a Run's status: the folded harness projection and the run manager's scan of
 * the stream; and the run manager's recovery of Runs left running by a dead process.
 */
module RunStatus {
  import opened Prelude
  import opened EventStore
  import opened Projection

  /** `NoStatus` is what a reader is left with after looking up a type no table of outcomes has itself. */
  datatype Status = Queued | Running | Completed | AwaitingInput | AwaitingApproval | Failed | TimedOut | Cancelled | NoStatus

  /** Every object inherits these functions, so a table of outcomes has something under their names, too. */
  const INHERITED_FUNCTIONS: set<string> := {
    "constructor", "toString", "toLocaleString", "valueOf", "hasOwnProperty", "isPrototypeOf", "propertyIsEnumerable",
    "__defineGetter__", "__defineSetter__", "__lookupGetter__", "__lookupSetter__"}

  predicate NamesFunction(kind: EventType) {
    kind.Other? && kind.name in INHERITED_FUNCTIONS
  }

  /** An object's prototype is an object, under its own name. */
  predicate NamesInherited(kind: EventType) {
    NamesFunction(kind) || kind == Other("__proto__")
  }

  /** The scanning reader's table: the outcome an event type settles or suspends a Run with. */
  function TerminalOutcome(kind: EventType): Option<Status> {
    match kind
    case RunCompleted => Some(Completed)
    case RunAwaitingInput => Some(AwaitingInput)
    case RunAwaitingApproval => Some(AwaitingApproval)
    case RunFailed => Some(Failed)
    case RunTimedOut => Some(TimedOut)
    case RunCancelled => Some(Cancelled)
    case _ => if NamesInherited(kind) then Some(NoStatus) else None
  }

  /** The folded reader's own table. */
  function FoldedOutcome(kind: EventType): Option<Status> {
    match kind
    case RunCompleted => Some(Completed)
    case RunAwaitingInput => Some(AwaitingInput)
    case RunAwaitingApproval => Some(AwaitingApproval)
    case RunFailed => Some(Failed)
    case RunTimedOut => Some(TimedOut)
    case RunCancelled => Some(Cancelled)
    case _ => if NamesInherited(kind) then Some(NoStatus) else None
  }

  predicate IsTerminalState(status: Status) {
    status != Queued && status != Running && status != NoStatus
  }

  predicate Runs(kind: EventType) {
    kind in {RunStarted, RunResumed, RunProgress}
  }

  // ---------------------------------------------------------------- the folded reader

  datatype HarnessState = HarnessState(
    runId: string, parentRunId: Option<string>, parentEventId: Option<string>, laneId: Option<string>,
    status: Status, lastSeq: int, lastEventType: Option<EventType>)

  /** The parts of a Run's claimed command the projection is seeded with. */
  datatype Command = Command(runId: string, parentRunId: Option<string>, parentEventId: Option<string>, laneId: Option<string>)

  function Reduce(state: HarnessState, event: Event): HarnessState {
    HarnessState(
      state.runId, Or(event.payload.parentRunId, state.parentRunId), Or(event.payload.parentEventId, state.parentEventId),
      Or(event.payload.laneId, state.laneId),
      match FoldedOutcome(event.kind)
      case Some(status) => status
      case None => if Runs(event.kind) then Running else state.status,
      event.number, Some(event.kind))
  }

  function Seed(runId: string, command: Option<Command>): HarnessState {
    var initial := HarnessState(runId, None, None, None, Queued, -1, None);
    if command.None? || command.value.parentRunId.None? then initial
    else initial.(parentRunId := command.value.parentRunId, parentEventId := command.value.parentEventId,
                  laneId := command.value.laneId)
  }

  const Reducer: (HarnessState, Event) -> HarnessState := (s, e) => Reduce(s, e)

  function HarnessKey(runId: string): ProjectionKey {
    ProjectionKey("harness-state", runId)
  }

  /** A state whose status is a function is no JSON value, and its commit is refused. */
  predicate AnyFunction(events: seq<Event>) {
    exists e <- events :: NamesFunction(e.kind)
  }

  /** What the folded reader reports, or that it throws. */
  function Projected(runId: string, command: Option<Command>, events: seq<Event>): Option<HarnessState> {
    if AnyFunction(events) then None else Some(Fold(Reducer, Seed(runId, command), events))
  }

  /** The projection is sound, and has not come past an event whose commit is refused. */
  ghost predicate HarnessSound(store: Store<HarnessState>, runId: string, command: Option<Command>) {
    && Sound(store, HarnessKey(runId), Seed(runId, command), Reducer)
    && !AnyFunction(Stream(store, runId)[..Version(store, HarnessKey(runId))])
  }

  lemma StillJson(events: seq<Event>, i: nat)
    requires i < |events| && !AnyFunction(events[..i]) && !NamesFunction(events[i].kind)
    ensures !AnyFunction(events[..i + 1])
  {
    assert events[..i + 1] == events[..i] + [events[i]];
  }

  /** The stream is drained event by event until its end, or until a commit is refused. */
  method ProjectHarnessState(store: ChannelStore<HarnessState>, runId: string, command: Option<Command>) returns (state: Option<HarnessState>)
    requires HarnessSound(store.contents, runId, command)
    modifies store
    ensures HarnessSound(store.contents, runId, command)
    ensures store.contents.streams == old(store.contents.streams)
    ensures state == Projected(runId, command, Stream(old(store.contents), runId))
  {
    var key := HarnessKey(runId);
    ghost var events := Stream(store.contents, runId);
    var more := true;
    while more
      invariant HarnessSound(store.contents, runId, command) && store.contents.streams == old(store.contents.streams)
      invariant !more ==> Version(store.contents, key) == |events|
      decreases |events| - Version(store.contents, key), if more then 1 else 0
    {
      var next := Version(store.contents, key);
      var unread := Stream(store.contents, runId);
      if next < |unread| && NamesFunction(unread[next].kind) {
        assert unread[next] in unread;
        return None;
      }
      var r := ProjectNext(store, key, Seed(runId, command), Reducer);
      more := r.Ok? && r.value.Some?;
      if more { StillJson(events, next); }
    }
    assert events[..|events|] == events;
    return Some(Current(store.contents, key, Seed(runId, command)).state);
  }

  // ---------------------------------------------------------------- the scanning reader

  datatype Scan = Scan(status: Status, suspended: Option<Status>)

  function Scanned(scan: Scan): Status {
    if scan.suspended.Some? then scan.suspended.value else scan.status
  }

  /** The scan from an event on; the first final event ends it. */
  function StatusFrom(scan: Scan, events: seq<Event>): Status
    decreases |events|
  {
    if events == [] then Scanned(scan)
    else
      var kind := events[0].kind;
      match TerminalOutcome(kind)
      case Some(outcome) =>
        if IsFinal(kind) then outcome else StatusFrom(scan.(suspended := Some(outcome)), events[1..])
      case None =>
        if Runs(kind) then StatusFrom(Scan(Running, None), events[1..]) else StatusFrom(scan, events[1..])
  }

  /** The status RunManager.get reports for a claimed Run. */
  function Get(events: seq<Event>): Status {
    StatusFrom(Scan(Queued, None), events)
  }

  /** Without a status there is no Run to return. */
  function Reported(status: Status): Option<Status> {
    if status == NoStatus then None else Some(status)
  }

  method GetStatus(store: ChannelStore<HarnessState>, command: Option<Command>) returns (r: Option<Status>)
    ensures r == match command case None => None case Some(c) => Reported(Get(Stream(store.contents, c.runId)))
  {
    if command.None? { return None; }
    var events := Stream(store.contents, command.value.runId);
    var status, suspended := Queued, None;
    var i := 0;
    assert events[0..] == events;
    while i < |events|
      invariant 0 <= i <= |events|
      invariant StatusFrom(Scan(status, suspended), events[i..]) == Get(events) && status != NoStatus
    {
      var kind := events[i].kind;
      assert events[i..][1..] == events[i + 1..];
      var outcome := TerminalOutcome(kind);
      i := i + 1;
      if outcome.Some? {
        if IsFinal(kind) { return outcome; }
        suspended := outcome;
        continue;
      }
      if Runs(kind) {
        status, suspended := Running, None;
      }
    }
    return if suspended.Some? then Reported(suspended.value) else Some(status);
  }

  // ---------------------------------------------------------------- what a status says

  /** The four events that settle a Run. */
  predicate Settles(kind: EventType) {
    kind.RunCompleted? || kind.RunFailed? || kind.RunTimedOut? || kind.RunCancelled?
  }

  /** An event that says how a Run stands. */
  predicate Deciding(kind: EventType) {
    || Settles(kind) || kind.RunAwaitingInput? || kind.RunAwaitingApproval?
    || kind.RunStarted? || kind.RunResumed? || kind.RunProgress? || NamesInherited(kind)
  }

  /** The event that decides: the first that settles the Run, or else the last that says anything. */
  ghost predicate Decides(events: seq<Event>, i: int) {
    && 0 <= i < |events| && Deciding(events[i].kind) && (forall j | 0 <= j < i :: !Settles(events[j].kind))
    && (Settles(events[i].kind) || forall j | i < j < |events| :: !Deciding(events[j].kind))
  }

  /** What it says. */
  predicate Says(kind: EventType, status: Status) {
    && (kind.RunCompleted? <==> status == Completed) && (kind.RunFailed? <==> status == Failed)
    && (kind.RunTimedOut? <==> status == TimedOut) && (kind.RunCancelled? <==> status == Cancelled)
    && (kind.RunAwaitingInput? <==> status == AwaitingInput) && (kind.RunAwaitingApproval? <==> status == AwaitingApproval)
    && (kind.RunStarted? || kind.RunResumed? || kind.RunProgress? <==> status == Running)
    && (NamesInherited(kind) <==> status == NoStatus) && status != Queued
  }

  ghost predicate Undecided(events: seq<Event>) {
    forall j | 0 <= j < |events| :: !Deciding(events[j].kind)
  }

  lemma DecidesTail(events: seq<Event>, i: int)
    requires events != [] && !Settles(events[0].kind)
    ensures i > 0 ==> (Decides(events, i) <==> Decides(events[1..], i - 1))
    ensures Decides(events, 0) <==> Deciding(events[0].kind) && Undecided(events[1..])
    ensures Undecided(events) <==> !Deciding(events[0].kind) && Undecided(events[1..])
  {
    assert forall j | 0 <= j < |events| - 1 :: events[1..][j] == events[j + 1];
    if Undecided(events[1..]) {
      forall j | 1 <= j < |events| ensures !Deciding(events[j].kind) { assert events[1..][j - 1] == events[j]; }
    }
    if i > 0 && Decides(events[1..], i - 1) {
      forall j | 0 <= j < i ensures !Settles(events[j].kind) { if j > 0 { assert events[1..][j - 1] == events[j]; } }
      forall j | i < j < |events| && !Settles(events[i].kind) ensures !Deciding(events[j].kind) { assert events[1..][j - 1] == events[j]; }
    }
  }

  /** The scan's status is what the deciding event says, and the one it started with where there is none. */
  lemma {:induction false} ScanMeaning(scan: Scan, events: seq<Event>)
    ensures forall i | Decides(events, i) :: Says(events[i].kind, StatusFrom(scan, events))
    ensures Undecided(events) ==> StatusFrom(scan, events) == Scanned(scan)
    ensures Undecided(events) || exists i :: Decides(events, i)
    decreases |events|
  {
    if events != [] {
      var kind := events[0].kind;
      if Settles(kind) {
        assert Decides(events, 0);
      } else {
        var next := match TerminalOutcome(kind)
                    case Some(outcome) => scan.(suspended := Some(outcome))
                    case None => if Runs(kind) then Scan(Running, None) else scan;
        ScanMeaning(next, events[1..]);
        DecidesTail(events, 0);
        forall i | Decides(events, i)
          ensures Says(events[i].kind, StatusFrom(scan, events))
        {
          DecidesTail(events, i);
        }
        if !Undecided(events) && !Decides(events, 0) {
          var i :| Decides(events[1..], i);
          DecidesTail(events, i + 1);
        }
      }
    }
  }

  /**
   * The status of a Run: what its first settling event says, or else its last event that says
   * anything; queued exactly if none does.
   */
  lemma {:induction false} GetMeaning(events: seq<Event>)
    ensures forall i | Decides(events, i) :: Says(events[i].kind, Get(events))
    ensures Undecided(events) <==> Get(events) == Queued
    ensures Undecided(events) || exists i :: Decides(events, i)
  {
    ScanMeaning(Scan(Queued, None), events);
  }

  /** The last event that names a member, where one does. */
  ghost predicate LastNaming(events: seq<Event>, member: Payload -> Option<string>, i: int) {
    0 <= i < |events| && member(events[i].payload).Some? && forall j | i < j < |events| :: member(events[j].payload).None?
  }

  predicate Unnamed(events: seq<Event>, member: Payload -> Option<string>) {
    forall j | 0 <= j < |events| :: member(events[j].payload).None?
  }

  /** A folded member: the last one named, or that of the seed. */
  ghost predicate TakesLast(events: seq<Event>, member: Payload -> Option<string>, seed: Option<string>, value: Option<string>) {
    && (Unnamed(events, member) ==> value == seed)
    && (forall i | LastNaming(events, member, i) :: value == member(events[i].payload))
  }

  lemma LastNamingSnoc(events: seq<Event>, event: Event, member: Payload -> Option<string>, seed: Option<string>, value: Option<string>)
    requires TakesLast(events, member, seed, value)
    ensures TakesLast(events + [event], member, seed, if member(event.payload).Some? then member(event.payload) else value)
  {
    var more := events + [event];
    assert more[|events|] == event;
    if member(event.payload).None? {
      forall i | LastNaming(more, member, i)
        ensures LastNaming(events, member, i)
      {
        assert more[i] == events[i];
        forall j | i < j < |events| ensures member(events[j].payload).None? { assert more[j] == events[j]; }
      }
      if Unnamed(more, member) {
        forall j | 0 <= j < |events| ensures member(events[j].payload).None? { assert more[j] == events[j]; }
      }
    } else {
      assert !Unnamed(more, member);
      forall i | LastNaming(more, member, i) ensures i == |events| {}
    }
  }

  const ParentRun: Payload -> Option<string> := (p: Payload) => p.parentRunId
  const ParentEvent: Payload -> Option<string> := (p: Payload) => p.parentEventId
  const Lane: Payload -> Option<string> := (p: Payload) => p.laneId

  lemma {:induction false} FoldPosition(seed: HarnessState, events: seq<Event>)
    ensures var state := Fold(Reducer, seed, events);
            && state.runId == seed.runId
            && state.lastSeq == (if events == [] then seed.lastSeq else events[|events| - 1].number)
            && state.lastEventType == (if events == [] then seed.lastEventType else Some(events[|events| - 1].kind))
    decreases |events|
  {
    if events != [] { FoldPosition(seed, events[..|events| - 1]); }
  }

  /** The lineage a folded state shows. */
  ghost predicate Lineage(events: seq<Event>, seed: HarnessState, state: HarnessState) {
    && TakesLast(events, ParentRun, seed.parentRunId, state.parentRunId)
    && TakesLast(events, ParentEvent, seed.parentEventId, state.parentEventId)
    && TakesLast(events, Lane, seed.laneId, state.laneId)
  }

  lemma LineageSnoc(events: seq<Event>, event: Event, all: seq<Event>, seed: HarnessState, before: HarnessState, after: HarnessState)
    requires Lineage(events, seed, before) && all == events + [event] && after == Reduce(before, event)
    ensures Lineage(all, seed, after)
  {
    LastNamingSnoc(events, event, ParentRun, seed.parentRunId, before.parentRunId);
    LastNamingSnoc(events, event, ParentEvent, seed.parentEventId, before.parentEventId);
    LastNamingSnoc(events, event, Lane, seed.laneId, before.laneId);
  }

  lemma NoLineage(seed: HarnessState)
    ensures Lineage([], seed, seed)
  {
  }

  lemma {:induction false} FoldLineage(seed: HarnessState, events: seq<Event>)
    ensures Lineage(events, seed, Fold(Reducer, seed, events))
    decreases |events|
  {
    if events == [] {
      NoLineage(seed);
    } else {
      var n := |events| - 1;
      FoldLineage(seed, events[..n]);
      LineageSnoc(events[..n], events[n], events, seed, Fold(Reducer, seed, events[..n]), Fold(Reducer, seed, events));
    }
  }

  /** What the folded state says besides the status: where it stands, and the lineage last named. */
  lemma {:induction false} FoldMeaning(runId: string, command: Option<Command>, events: seq<Event>)
    ensures var seed, state := Seed(runId, command), Fold(Reducer, Seed(runId, command), events);
            && state.runId == runId
            && state.lastSeq == (if events == [] then -1 else events[|events| - 1].number)
            && state.lastEventType == (if events == [] then None else Some(events[|events| - 1].kind))
            && Lineage(events, seed, state)
  {
    FoldPosition(Seed(runId, command), events);
    FoldLineage(Seed(runId, command), events);
  }

  /** What an event of another type says: something only where its name is inherited. */
  lemma InheritedMeaning(name: string)
    ensures TerminalOutcome(Other("__proto__")) == Some(NoStatus) && !NamesFunction(Other("__proto__"))
    ensures TerminalOutcome(Other(name)).Some? <==> name == "__proto__" || NamesFunction(Other(name))
    ensures forall f <- ["constructor", "toString", "toLocaleString", "valueOf", "hasOwnProperty", "isPrototypeOf", "propertyIsEnumerable",
                         "__defineGetter__", "__defineSetter__", "__lookupGetter__", "__lookupSetter__"] :: NamesFunction(Other(f))
  {
  }

  /** A Run that was claimed with a parent starts with the lineage of its command, any other with none. */
  lemma SeedMeaning(runId: string, command: Option<Command>)
    ensures var seed := Seed(runId, command);
            && seed.runId == runId && seed.status == Queued && seed.lastSeq == -1 && seed.lastEventType.None?
            && (command.Some? && command.value.parentRunId.Some? ==>
                  && seed.parentRunId == command.value.parentRunId && seed.parentEventId == command.value.parentEventId
                  && seed.laneId == command.value.laneId)
            && (command.None? || command.value.parentRunId.None? ==>
                  seed.parentRunId.None? && seed.parentEventId.None? && seed.laneId.None?)
  {
  }

  // ---------------------------------------------------------------- both readers agree

  /** The two tables say the same of every event type. */
  lemma TablesAgree(kind: EventType)
    ensures FoldedOutcome(kind) == TerminalOutcome(kind)
  {
  }

  function NextStatus(status: Status, kind: EventType): Status {
    match FoldedOutcome(kind)
    case Some(outcome) => outcome
    case None => if Runs(kind) then Running else status
  }

  /** The status column of the fold. */
  function FoldStatus(status: Status, events: seq<Event>): Status
    decreases |events|
  {
    if events == [] then status else FoldStatus(NextStatus(status, events[0].kind), events[1..])
  }

  lemma {:induction false} FoldStatusSplit(status: Status, events: seq<Event>, more: seq<Event>)
    ensures FoldStatus(status, events + more) == FoldStatus(FoldStatus(status, events), more)
    decreases |events|
  {
    if events == [] {
      assert events + more == more;
    } else {
      assert (events + more)[1..] == events[1..] + more;
      FoldStatusSplit(NextStatus(status, events[0].kind), events[1..], more);
    }
  }

  lemma {:induction false} FoldHasStatus(seed: HarnessState, events: seq<Event>)
    ensures Fold(Reducer, seed, events).status == FoldStatus(seed.status, events)
    decreases |events|
  {
    if events != [] {
      var n := |events| - 1;
      FoldHasStatus(seed, events[..n]);
      FoldStatusSplit(seed.status, events[..n], [events[n]]);
      assert events == events[..n] + [events[n]];
    }
  }

  /** How many events a scan reads before it stops: up to and including the first final one. */
  function Read(events: seq<Event>): (n: nat)
    ensures n <= |events|
  {
    if events == [] then 0 else if IsFinal(events[0].kind) then 1 else 1 + Read(events[1..])
  }

  lemma {:induction false} ScanIsFoldOfRead(scan: Scan, events: seq<Event>)
    ensures StatusFrom(scan, events) == FoldStatus(Scanned(scan), events[..Read(events)])
    decreases |events|
  {
    if events != [] {
      var kind := events[0].kind;
      TablesAgree(kind);
      var read := events[..Read(events)];
      if IsFinal(kind) {
        assert read[1..] == [];
      } else {
        assert read[1..] == events[1..][..Read(events[1..])];
        var next := match TerminalOutcome(kind)
                    case Some(outcome) => scan.(suspended := Some(outcome))
                    case None => if Runs(kind) then Scan(Running, None) else scan;
        ScanIsFoldOfRead(next, events[1..]);
      }
    }
  }

  /**
   * The folded status is the scanned one exactly when the events after the first final one leave
   * its status alone; the store never lets an event follow a final one, so there they agree.
   */
  lemma ReadersAgree(runId: string, command: Option<Command>, events: seq<Event>)
    ensures var n := Read(events);
            Fold(Reducer, Seed(runId, command), events).status == Get(events)
            <==> FoldStatus(Get(events), events[n..]) == Get(events)
  {
    var n := Read(events);
    FoldHasStatus(Seed(runId, command), events);
    ScanIsFoldOfRead(Scan(Queued, None), events);
    assert events == events[..n] + events[n..];
    FoldStatusSplit(Queued, events[..n], events[n..]);
  }

  lemma {:induction false} ReadsAll(events: seq<Event>)
    requires forall i | 0 <= i < |events| - 1 :: !IsFinal(events[i].kind)
    ensures Read(events) == |events|
  {
    if |events| > 1 {
      forall i | 0 <= i < |events[1..]| - 1 ensures !IsFinal(events[1..][i].kind) { assert !IsFinal(events[i + 1].kind); }
      ReadsAll(events[1..]);
    }
  }

  /**
   * On every stream a well-formed store holds, both readers report the same status, or both none,
   * exactly when no event's type names an inherited function; then the folded one throws.
   */
  lemma StoreReadersAgree(store: Store<HarnessState>, runId: string, command: Option<Command>)
    requires WellFormed(store)
    ensures var events := Stream(store, runId);
            var projected := Projected(runId, command, events);
            (projected.Some? && projected.value.status == Get(events)) <==> !AnyFunction(events)
  {
    var events := Stream(store, runId);
    forall i | 0 <= i < |events| - 1 ensures !IsFinal(events[i].kind) { assert Placed(store, runId, i); }
    ReadsAll(events);
    ReadersAgree(runId, command, events);
  }

  // ---------------------------------------------------------------- recovery

  /** The failure that recovery appends, placed where the stream ended when it was read. */
  function Interrupted(scope: Scope, runId: string, id: string, length: nat, at: string): Event {
    Event(id, scope, runId, length, RunFailed, at, Payload(None, None, None, "process_restarted"))
  }

  /** A Run is left alone, recorded as failed, found settled by somebody else, or the error is thrown on. */
  datatype Recovery = Left | Recorded | Yielded | Raised(error: StoreError)

  /** The store as one Run's recovery finds it at each of its awaits; others may append in between. */
  datatype Moments = Moments(
    seen: Store<HarnessState>, listed: Store<HarnessState>, atAppend: Store<HarnessState>, refreshed: Store<HarnessState>)

  /**
   * One Run of `reconcile`: its status is read, then its events are listed for their number, then
   * the failure is appended, and if that is refused the status is read again.
   */
  function ReconcileRun(m: Moments, runId: string, id: string, at: string): (Store<HarnessState>, Recovery) {
    if Get(Stream(m.seen, runId)) != Running then (m.seen, Left)
    else
      match Append(m.atAppend, Interrupted(m.atAppend.scope, runId, id, |Stream(m.listed, runId)|, at))
      case Ok(next) => (next, Recorded)
      case Err(error) =>
        if error in {SequenceConflict, TerminalConflict} && IsTerminalState(Get(Stream(m.refreshed, runId))) then (m.refreshed, Yielded)
        else (m.refreshed, Raised(error))
  }

  /** A stream that ends with an event that settles or suspends the Run, and no final one before it. */
  lemma {:induction false} EndsWith(scan: Scan, events: seq<Event>, last: Event)
    requires TerminalOutcome(last.kind).Some? && forall e <- events :: !IsFinal(e.kind)
    ensures StatusFrom(scan, events + [last]) == TerminalOutcome(last.kind).value
    decreases |events|
  {
    if events == [] {
      assert events + [last] == [last];
    } else {
      assert (events + [last])[1..] == events[1..] + [last];
      var kind := events[0].kind;
      assert events[0] in events;
      var next := match TerminalOutcome(kind)
                  case Some(outcome) => scan.(suspended := Some(outcome))
                  case None => if Runs(kind) then Scan(Running, None) else scan;
      EndsWith(next, events[1..], last);
    }
  }

  ghost predicate Grows(m: Moments, runId: string) {
    && WellFormed(m.seen) && WellFormed(m.listed) && WellFormed(m.atAppend) && WellFormed(m.refreshed)
    && Stream(m.seen, runId) <= Stream(m.listed, runId) <= Stream(m.atAppend, runId)
    && Stream(m.atAppend, runId) <= Stream(m.refreshed, runId)
  }

  /** Whether recovery's append is accepted: nothing came between listing and appending, and no final event before. */
  ghost predicate Undisturbed(m: Moments, runId: string) {
    Stream(m.listed, runId) == Stream(m.atAppend, runId) && !HasFinal(Stream(m.atAppend, runId))
  }

  /**
   * What recovery does with a Run, however its stream grows between the awaits: one it saw running
   * is recorded as failed exactly when undisturbed after listing, whatever came before that; else
   * it stays with whoever settled or suspended it, and the conflict is thrown exactly if nobody has.
   */
  lemma ReconcileSettles(m: Moments, runId: string, id: string, at: string)
    requires Grows(m, runId) && id !in m.atAppend.byId
    ensures var (after, r) := ReconcileRun(m, runId, id, at);
            var running := Get(Stream(m.seen, runId)) == Running;
            && (r.Left? <==> !running) && (r.Left? ==> after == m.seen)
            && (r.Recorded? <==> running && Undisturbed(m, runId))
            && (r.Recorded? ==>
                  && Get(Stream(after, runId)) == Failed && |Stream(after, runId)| == |Stream(m.listed, runId)| + 1
                  && Stream(m.listed, runId) < Stream(after, runId)
                  && var failure := Stream(after, runId)[|Stream(m.listed, runId)|];
                     failure.id == id && failure.kind == RunFailed && failure.timestamp == at && failure.payload.rest == "process_restarted")
            && (r.Yielded? <==> running && !Undisturbed(m, runId) && Stands(Get(Stream(m.refreshed, runId))))
            && (r.Raised? <==> running && !Undisturbed(m, runId) && !Stands(Get(Stream(m.refreshed, runId))))
            && (r.Raised? ==> r.error == SequenceConflict)
            && (r.Yielded? || r.Raised? ==> after == m.refreshed)
  {
    var listed, more := Stream(m.listed, runId), Stream(m.atAppend, runId);
    StandsMeaning(Get(Stream(m.refreshed, runId)));
    if HasFinal(more) {
      var i :| 0 <= i < |more| && IsFinal(more[i].kind);
      assert IsFinal(Stream(m.refreshed, runId)[i].kind);
      FinalIsNotRunning(m.refreshed, runId);
    }
    if Undisturbed(m, runId) {
      forall e <- more ensures !IsFinal(e.kind) {}
      EndsWith(Scan(Queued, None), more, Interrupted(m.atAppend.scope, runId, id, |listed|, at));
    }
  }

  /** A Run that is over, or waits for its user. */
  predicate Stands(status: Status) {
    || status == Completed || status == Failed || status == TimedOut || status == Cancelled
    || status == AwaitingInput || status == AwaitingApproval
  }

  lemma StandsMeaning(status: Status)
    ensures IsTerminalState(status) <==> Stands(status)
    ensures Suspended(status) <==> Stands(status) && status != Completed && status != Failed && status != TimedOut && status != Cancelled
  {
  }

  predicate Suspended(status: Status) {
    status == AwaitingInput || status == AwaitingApproval
  }

  /**
   * A suspended Run is overwritten exactly when its suspension came after its status was read but
   * before its events were listed, and nothing came after that; if nothing came in that gap, never.
   */
  lemma SuspensionOverwritten(m: Moments, runId: string, id: string, at: string)
    requires Grows(m, runId) && id !in m.atAppend.byId
    ensures var overwritten := ReconcileRun(m, runId, id, at).1.Recorded? && Suspended(Get(Stream(m.atAppend, runId)));
            && (overwritten <==>
                  && Get(Stream(m.seen, runId)) == Running && Suspended(Get(Stream(m.listed, runId)))
                  && Stream(m.listed, runId) == Stream(m.atAppend, runId))
            && (overwritten ==> Stream(m.seen, runId) < Stream(m.listed, runId))
  {
    ReconcileSettles(m, runId, id, at);
    assert |Stream(m.seen, runId)| == |Stream(m.listed, runId)| ==> Stream(m.seen, runId) == Stream(m.listed, runId);
    if HasFinal(Stream(m.atAppend, runId)) { FinalIsNotRunning(m.atAppend, runId); }
  }

  lemma FinalIsNotRunning(store: Store<HarnessState>, runId: string)
    requires WellFormed(store) && HasFinal(Stream(store, runId))
    ensures IsTerminalState(Get(Stream(store, runId))) && !Suspended(Get(Stream(store, runId)))
  {
    var events := Stream(store, runId);
    var n := |events| - 1;
    forall i | 0 <= i < n ensures !IsFinal(events[i].kind) { assert Placed(store, runId, i); }
    assert events == events[..n] + [events[n]];
    EndsWith(Scan(Queued, None), events[..n], events[n]);
  }
}
