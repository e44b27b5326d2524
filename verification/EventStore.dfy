/**
 * The event store of one bound channel: append-only Run streams and versioned projections, as the
 * in-memory store implements the contract the other stores share.
 */
module EventStore {
  import opened Prelude

  datatype EventType =
    | RunStarted | RunResumed | RunProgress
    | RunCompleted | RunFailed | RunTimedOut | RunCancelled
    | RunAwaitingInput | RunAwaitingApproval
    | Other(name: string)

  datatype Scope = Scope(workspaceId: string, channelId: string)

  /** The payload members the projections read, where they are strings, and the rest. */
  datatype Payload = Payload(parentRunId: Option<string>, parentEventId: Option<string>, laneId: Option<string>, rest: string)

  datatype Event = Event(id: string, scope: Scope, streamId: string, number: int, kind: EventType, timestamp: string, payload: Payload)

  datatype Snapshot<S> = Snapshot(state: S, version: nat, lastSeq: int)

  datatype ProjectionKey = ProjectionKey(projector: string, streamId: string)

  datatype Receipt = Receipt(key: ProjectionKey, eventId: string)

  datatype Store<S> = Store(
    scope: Scope, streams: map<string, seq<Event>>, byId: map<string, Event>,
    projections: map<ProjectionKey, Snapshot<S>>, receipts: set<Receipt>)

  datatype StoreError =
    | ScopeMismatch | EventConflict | SequenceConflict | TerminalConflict
    | SourceEventNotFound | VersionConflict | ReceiptWithoutState

  datatype Commit<S> = Commit(key: ProjectionKey, eventId: string, eventSeq: int, expectedVersion: nat, state: S)

  datatype Committed<S> = Committed(snapshot: Snapshot<S>, applied: bool)

  predicate IsFinal(kind: EventType) {
    kind in {RunCompleted, RunFailed, RunTimedOut, RunCancelled}
  }

  function Stream<S>(store: Store<S>, id: string): seq<Event> {
    if id in store.streams then store.streams[id] else []
  }

  predicate HasFinal(events: seq<Event>) {
    exists i | 0 <= i < |events| :: IsFinal(events[i].kind)
  }

  // ---------------------------------------------------------------- the operations

  function Stored<S>(store: Store<S>, event: Event): Store<S> {
    store.(streams := store.streams[event.streamId := Stream(store, event.streamId) + [event]],
           byId := store.byId[event.id := event])
  }

  function Append<S>(store: Store<S>, event: Event): Result<Store<S>, StoreError> {
    if event.scope != store.scope then Err(ScopeMismatch)
    else if event.id in store.byId then
      if store.byId[event.id] == event then Ok(store) else Err(EventConflict)
    else if event.number != |Stream(store, event.streamId)| then Err(SequenceConflict)
    else if HasFinal(Stream(store, event.streamId)) then Err(TerminalConflict)
    else Ok(Stored(store, event))
  }

  datatype Appended<S> = Appended(store: Store<S>, added: bool)

  function Unplaced(event: Event): Event {
    event.(number := 0, timestamp := "")
  }

  /** Retries of the same event are recognised wherever it was placed; a new one is placed at the end. */
  function AppendIdempotent<S>(store: Store<S>, event: Event): Result<Appended<S>, StoreError> {
    if event.scope != store.scope then Err(ScopeMismatch)
    else if event.id in store.byId then
      if Unplaced(store.byId[event.id]) == Unplaced(event) then Ok(Appended(store, false)) else Err(EventConflict)
    else if HasFinal(Stream(store, event.streamId)) then Err(TerminalConflict)
    else Ok(Appended(Stored(store, event.(number := |Stream(store, event.streamId)|)), true))
  }

  datatype CommitResult<S> = CommitResult(store: Store<S>, committed: Committed<S>)

  function Version<S>(store: Store<S>, key: ProjectionKey): nat {
    if key in store.projections then store.projections[key].version else 0
  }

  function CommitProjection<S>(store: Store<S>, commit: Commit<S>): Result<CommitResult<S>, StoreError> {
    var receipt := Receipt(commit.key, commit.eventId);
    if commit.eventId !in store.byId || store.byId[commit.eventId].streamId != commit.key.streamId
       || store.byId[commit.eventId].number != commit.eventSeq then Err(SourceEventNotFound)
    else if receipt in store.receipts then
      if commit.key !in store.projections then Err(ReceiptWithoutState)
      else Ok(CommitResult(store, Committed(store.projections[commit.key], false)))
    else if Version(store, commit.key) != commit.expectedVersion then Err(VersionConflict)
    else
      var snapshot := Snapshot(commit.state, commit.expectedVersion + 1, commit.eventSeq);
      Ok(CommitResult(store.(projections := store.projections[commit.key := snapshot], receipts := store.receipts + {receipt}),
                      Committed(snapshot, true)))
  }

  // ---------------------------------------------------------------- what is refused

  /** Every refusal of an append by what is wrong with the event, the first fault deciding. */
  lemma AppendRefusals<S>(store: Store<S>, event: Event)
    ensures var r := Append(store, event);
            var known := event.id in store.byId;
            && (r == Err(ScopeMismatch) <==> event.scope != store.scope)
            && (r == Err(EventConflict) <==> event.scope == store.scope && known && store.byId[event.id] != event)
            && (r == Err(SequenceConflict) <==>
                  event.scope == store.scope && !known && event.number != |Stream(store, event.streamId)|)
            && (r == Err(TerminalConflict) <==>
                  && event.scope == store.scope && !known && event.number == |Stream(store, event.streamId)|
                  && exists e <- Stream(store, event.streamId) :: IsFinal(e.kind))
            && (r.Err? ==> r.error in {ScopeMismatch, EventConflict, SequenceConflict, TerminalConflict})
            && (r == Ok(store) <== event.scope == store.scope && known && store.byId[event.id] == event)
  {
    var events := Stream(store, event.streamId);
    if i :| 0 <= i < |events| && IsFinal(events[i].kind) { assert events[i] in events; }
  }

  /** An idempotent append minds neither number nor time, of a new event or of one seen before. */
  lemma IdempotentRefusals<S>(store: Store<S>, event: Event)
    ensures var r := AppendIdempotent(store, event);
            var known := event.id in store.byId;
            var same := known && store.byId[event.id] == event.(number := store.byId[event.id].number, timestamp := store.byId[event.id].timestamp);
            && (r == Err(ScopeMismatch) <==> event.scope != store.scope)
            && (r == Err(EventConflict) <==> event.scope == store.scope && known && !same)
            && (r == Err(TerminalConflict) <==>
                  event.scope == store.scope && !known && exists e <- Stream(store, event.streamId) :: IsFinal(e.kind))
            && (r.Err? ==> r.error in {ScopeMismatch, EventConflict, TerminalConflict})
            && (r.Ok? ==> (r.value.added <==> !known) && (known ==> r.value.store == store))
  {
    var events := Stream(store, event.streamId);
    if i :| 0 <= i < |events| && IsFinal(events[i].kind) { assert events[i] in events; }
  }

  /** A commit needs the very event it is made for, and the version its state was computed from. */
  lemma CommitRefusals<S>(store: Store<S>, commit: Commit<S>)
    ensures var r := CommitProjection(store, commit);
            var source := commit.eventId in store.byId && store.byId[commit.eventId].streamId == commit.key.streamId
                          && store.byId[commit.eventId].number == commit.eventSeq;
            var received := Receipt(commit.key, commit.eventId) in store.receipts;
            && (r == Err(SourceEventNotFound) <==> !source)
            && (r == Err(ReceiptWithoutState) <==> source && received && commit.key !in store.projections)
            && (r == Err(VersionConflict) <==> source && !received && Version(store, commit.key) != commit.expectedVersion)
            && (r.Err? ==> r.error in {SourceEventNotFound, ReceiptWithoutState, VersionConflict})
            && (r.Ok? ==> (r.value.committed.applied <==> !received) && (received ==> r.value.store == store))
            && (r.Ok? && !received ==>
                  && r.value.store.projections == store.projections[commit.key := r.value.committed.snapshot]
                  && r.value.committed.snapshot.state == commit.state && r.value.committed.snapshot.lastSeq == commit.eventSeq
                  && r.value.committed.snapshot.version == commit.expectedVersion + 1
                  && r.value.store.receipts == store.receipts + {Receipt(commit.key, commit.eventId)}
                  && r.value.store.streams == store.streams && r.value.store.byId == store.byId)
  {
  }

  // ---------------------------------------------------------------- well-formed stores

  ghost predicate Placed<S>(store: Store<S>, streamId: string, i: int) {
    var events := Stream(store, streamId);
    0 <= i < |events| ==>
      && events[i].number == i && events[i].streamId == streamId
      && events[i].id in store.byId && store.byId[events[i].id] == events[i]
      && (i < |events| - 1 ==> !IsFinal(events[i].kind))
  }

  /** Streams are numbered from 0 without gaps, ids find their event, and nothing follows a final event. */
  ghost predicate WellFormed<S>(store: Store<S>) {
    && (forall s, i {:trigger Placed(store, s, i)} :: Placed(store, s, i))
    && (forall id <- store.byId ::
          var e := store.byId[id];
          e.id == id && 0 <= e.number < |Stream(store, e.streamId)| && Stream(store, e.streamId)[e.number] == e)
  }

  lemma StoredKeeps<S>(store: Store<S>, event: Event)
    requires WellFormed(store) && event.id !in store.byId
    requires event.number == |Stream(store, event.streamId)| && !HasFinal(Stream(store, event.streamId))
    ensures WellFormed(Stored(store, event))
  {
    var next := Stored(store, event);
    forall s, i
      ensures Placed(next, s, i)
    {
      assert Placed(store, s, i);
    }
    forall id <- next.byId
      ensures var e := next.byId[id];
              e.id == id && 0 <= e.number < |Stream(next, e.streamId)| && Stream(next, e.streamId)[e.number] == e
    {
      if id != event.id {
        var e := store.byId[id];
        assert Stream(store, e.streamId)[e.number] == e;
      }
    }
  }

  /** Every stream a caller can build numbers its events without gaps and ends at its final event. */
  lemma AppendKeeps<S>(store: Store<S>, event: Event)
    requires WellFormed(store)
    ensures Append(store, event).Ok? ==> WellFormed(Append(store, event).value)
    ensures AppendIdempotent(store, event).Ok? ==> WellFormed(AppendIdempotent(store, event).value.store)
  {
    if event.id !in store.byId && !HasFinal(Stream(store, event.streamId)) {
      StoredKeeps(store, event.(number := |Stream(store, event.streamId)|));
      assert event.number == |Stream(store, event.streamId)| ==> event.(number := |Stream(store, event.streamId)|) == event;
    }
  }

  /** A lost answer is harmless: appending the same event again, wherever it landed, changes nothing. */
  lemma AppendAgain<S>(store: Store<S>, event: Event)
    requires WellFormed(store) && AppendIdempotent(store, event).Ok?
    ensures AppendIdempotent(AppendIdempotent(store, event).value.store, event)
            == Ok(Appended(AppendIdempotent(store, event).value.store, false))
  {
  }

  /** Different places of a stream hold different ids. */
  lemma IdsDiffer<S>(store: Store<S>, s: string, i: nat, j: nat)
    requires WellFormed(store) && i < |Stream(store, s)| && j < |Stream(store, s)|
    requires Stream(store, s)[i].id == Stream(store, s)[j].id
    ensures i == j
  {
    assert Placed(store, s, i) && Placed(store, s, j);
  }

  lemma CommitKeeps<S>(store: Store<S>, commit: Commit<S>)
    requires WellFormed(store) && CommitProjection(store, commit).Ok?
    ensures WellFormed(CommitProjection(store, commit).value.store)
    ensures CommitProjection(store, commit).value.store.streams == store.streams
  {
    var next := CommitProjection(store, commit).value.store;
    forall s, i
      ensures Placed(next, s, i)
    {
      assert Placed(store, s, i);
    }
  }
}
