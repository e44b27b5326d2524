/**
 * The projection runner: a compare-and-swap loop that folds a stream one event at a time, alone
 * and under any interleaving with other runners and with appends.
 */
module Projection {
  import opened Prelude
  import opened EventStore

  /** The fold the stored projection stands for. */
  function Fold<S>(reduce: (S, Event) -> S, seed: S, events: seq<Event>): S {
    if events == [] then seed
    else reduce(Fold(reduce, seed, events[..|events| - 1]), events[|events| - 1])
  }

  lemma FoldSnoc<S>(reduce: (S, Event) -> S, seed: S, events: seq<Event>, i: nat)
    requires i < |events|
    ensures Fold(reduce, seed, events[..i + 1]) == reduce(Fold(reduce, seed, events[..i]), events[i])
  {
    assert events[..i + 1][..i] == events[..i];
  }

  /** What a runner starts from: the stored snapshot, or the seed. */
  function Current<S>(store: Store<S>, key: ProjectionKey, seed: S): Snapshot<S> {
    if key in store.projections then store.projections[key] else Snapshot(seed, 0, -1)
  }

  ghost predicate Received<S>(store: Store<S>, key: ProjectionKey, i: nat)
    requires i < |Stream(store, key.streamId)|
  {
    Receipt(key, Stream(store, key.streamId)[i].id) in store.receipts
  }

  /** A snapshot that is the fold over exactly the events up to its cursor. */
  ghost predicate Folded<S>(store: Store<S>, key: ProjectionKey, seed: S, reduce: (S, Event) -> S, snapshot: Snapshot<S>) {
    var events := Stream(store, key.streamId);
    && snapshot.version <= |events| && snapshot.lastSeq == snapshot.version - 1
    && snapshot.state == Fold(reduce, seed, events[..snapshot.version])
  }

  /** The stored projection is such a fold, and exactly its events have receipts. */
  ghost predicate Sound<S>(store: Store<S>, key: ProjectionKey, seed: S, reduce: (S, Event) -> S) {
    && WellFormed(store)
    && Folded(store, key, seed, reduce, Current(store, key, seed))
    && (key in store.projections <==> Version(store, key) > 0)
    && (forall r <- store.receipts :: r.key == key ==> r.eventId in store.byId)
    && (forall i: nat {:trigger Received(store, key, i)} | i < |Stream(store, key.streamId)| ::
          Received(store, key, i) <==> i < Version(store, key))
  }

  /** The commit a runner attempts for the i-th event, from the snapshot it started with. */
  function Attempt<S>(store: Store<S>, key: ProjectionKey, reduce: (S, Event) -> S, from: Snapshot<S>, i: nat): Commit<S>
    requires i < |Stream(store, key.streamId)|
  {
    var event := Stream(store, key.streamId)[i];
    Commit(key, event.id, event.number, from.version, reduce(from.state, event))
  }

  /**
   * A commit attempt from any earlier snapshot: it is recognised as done before the stored
   * version, applied exactly at it from an up-to-date snapshot, and refused otherwise.
   */
  lemma {:induction false} AttemptOutcome<S>(
    store: Store<S>, key: ProjectionKey, seed: S, reduce: (S, Event) -> S, from: Snapshot<S>, i: nat)
    requires Sound(store, key, seed, reduce) && i < |Stream(store, key.streamId)| && from.version <= i
    ensures var r := CommitProjection(store, Attempt(store, key, reduce, from, i));
            && (i < Version(store, key) <==> r.Ok? && !r.value.committed.applied)
            && (i >= Version(store, key) && from.version == Version(store, key) <==> r.Ok? && r.value.committed.applied)
            && (r.Ok? && !r.value.committed.applied ==> r.value.store == store)
  {
    assert Placed(store, key.streamId, i);
    assert Received(store, key, i) <==> i < Version(store, key);
  }

  lemma {:induction false} AppliedIsSound<S>(store: Store<S>, key: ProjectionKey, seed: S, reduce: (S, Event) -> S, i: nat)
    requires Sound(store, key, seed, reduce) && i < |Stream(store, key.streamId)| && i == Version(store, key)
    ensures var r := CommitProjection(store, Attempt(store, key, reduce, Current(store, key, seed), i));
            && r.Ok? && r.value.committed.applied && Sound(r.value.store, key, seed, reduce)
            && r.value.store.streams == store.streams && Version(r.value.store, key) == i + 1
            && r.value.committed.snapshot == Current(r.value.store, key, seed)
  {
    var from := Current(store, key, seed);
    var attempt := Attempt(store, key, reduce, from, i);
    AttemptOutcome(store, key, seed, reduce, from, i);
    CommitKeeps(store, attempt);
    var next := CommitProjection(store, attempt).value.store;
    var events := Stream(store, key.streamId);
    assert Stream(next, key.streamId) == events;
    assert Placed(store, key.streamId, i);
    FoldSnoc(reduce, seed, events, i);
    forall j: nat | j < |events|
      ensures Received(next, key, j) <==> j < i + 1
    {
      assert Received(store, key, j) <==> j < i;
      if events[j].id == events[i].id { IdsDiffer(store, key.streamId, j, i); }
    }
  }

  // ---------------------------------------------------------------- one runner alone

  /** The store as an object its users share. */
  class ChannelStore<S(!new)> {
    var contents: Store<S>

    constructor (contents: Store<S>)
      ensures this.contents == contents
    {
      this.contents := contents;
    }

    method AppendEvent(event: Event) returns (r: Result<(), StoreError>)
      modifies this
      ensures contents == match Append(old(contents), event) case Ok(next) => next case Err(_) => old(contents)
      ensures r == match Append(old(contents), event) case Ok(_) => Ok(()) case Err(error) => Err(error)
    {
      var next := Append(contents, event);
      if next.Err? { return Err(next.error); }
      contents := next.value;
      return Ok(());
    }

    method Commit(commit: Commit<S>) returns (r: Result<Committed<S>, StoreError>)
      modifies this
      ensures match CommitProjection(old(contents), commit)
              case Ok(result) => contents == result.store && r == Ok(result.committed)
              case Err(error) => contents == old(contents) && r == Err(error)
    {
      var next := CommitProjection(contents, commit);
      if next.Err? { return Err(next.error); }
      contents := next.value.store;
      return Ok(next.value.committed);
    }
  }

  /** Without interference a call commits exactly the next event, or finds none. */
  method ProjectNext<S(!new)>(store: ChannelStore<S>, key: ProjectionKey, seed: S, reduce: (S, Event) -> S)
    returns (r: Result<Option<Committed<S>>, StoreError>)
    requires Sound(store.contents, key, seed, reduce)
    modifies store
    ensures Sound(store.contents, key, seed, reduce) && store.contents.streams == old(store.contents.streams)
    ensures var version, events := Version(old(store.contents), key), Stream(old(store.contents), key.streamId);
            if version < |events| then
              && r == Ok(Some(Committed(Current(store.contents, key, seed), true)))
              && Version(store.contents, key) == version + 1
            else r == Ok(None) && store.contents == old(store.contents)
  {
    var snapshot := Current(store.contents, key, seed);
    var events := Stream(store.contents, key.streamId);
    var i := snapshot.lastSeq + 1;
    var result: Option<Committed<S>> := None;
    while i < |events| && result.None?
      invariant snapshot.version <= i <= |events|
      invariant result.None? ==> i == snapshot.version && store.contents == old(store.contents)
      invariant Sound(store.contents, key, seed, reduce) && store.contents.streams == old(store.contents.streams)
      invariant result.Some? ==>
                  && result == Some(Committed(Current(store.contents, key, seed), true))
                  && Version(store.contents, key) == snapshot.version + 1 <= |events|
      decreases |events| - i, if result.None? then 1 else 0
    {
      var event := events[i];
      var state := reduce(snapshot.state, event);
      AppliedIsSound(store.contents, key, seed, reduce, i);
      var outcome := store.Commit(Commit(key, event.id, event.number, snapshot.version, state));
      match outcome {
        case Err(error) => return Err(error);
        case Ok(committed) => if committed.applied { result := Some(committed); } else { i := i + 1; }
      }
    }
    return Ok(result);
  }

  /** Draining ends, with the projection at the fold over the whole stream. */
  method Drain<S(!new)>(store: ChannelStore<S>, key: ProjectionKey, seed: S, reduce: (S, Event) -> S)
    returns (state: S)
    requires Sound(store.contents, key, seed, reduce)
    modifies store
    ensures Sound(store.contents, key, seed, reduce) && store.contents.streams == old(store.contents.streams)
    ensures Version(store.contents, key) == |Stream(old(store.contents), key.streamId)|
    ensures state == Fold(reduce, seed, Stream(old(store.contents), key.streamId))
  {
    var more := true;
    while more
      invariant Sound(store.contents, key, seed, reduce) && store.contents.streams == old(store.contents.streams)
      invariant !more ==> Version(store.contents, key) == |Stream(old(store.contents), key.streamId)|
      decreases |Stream(store.contents, key.streamId)| - Version(store.contents, key), if more then 1 else 0
    {
      var r := ProjectNext(store, key, seed, reduce);
      more := r.Ok? && r.value.Some?;
    }
    ghost var events := Stream(store.contents, key.streamId);
    assert events[..|events|] == events;
    state := Current(store.contents, key, seed).state;
  }

  // ---------------------------------------------------------------- runners, interleaved

  /** Where a runner's call has got to: the snapshot it loaded and the next event it will try. */
  datatype Local<S> = Resting | Reading(from: Snapshot<S>, position: int)

  datatype World<S> = World(store: Store<S>, runners: seq<Local<S>>)

  datatype Step =
    | Arrive(event: Event)       // somebody appends
    | Load(runner: nat)          // a call of projectNext loads its snapshot
    | Try(runner: nat)           // it tries to commit the next event it reads, or runs out of events
    | Elsewhere                  // a commit for another projector or stream

  ghost predicate Next<S(!new)>(key: ProjectionKey, seed: S, reduce: (S, Event) -> S, w: World<S>, step: Step, v: World<S>) {
    match step
    case Arrive(event) => Append(w.store, event).Ok? && v == w.(store := Append(w.store, event).value)
    case Load(r) =>
      && r < |w.runners| && w.runners[r].Resting?
      && var current := Current(w.store, key, seed);
         v == w.(runners := w.runners[r := Reading(current, current.lastSeq + 1)])
    case Try(r) =>
      && r < |w.runners| && w.runners[r].Reading?
      && var Reading(from, position) := w.runners[r];
         if !(0 <= position < |Stream(w.store, key.streamId)|) then v == w.(runners := w.runners[r := Resting])
         else
           var attempt := CommitProjection(w.store, Attempt(w.store, key, reduce, from, position));
           if attempt.Err? then v == w.(runners := w.runners[r := Resting])
           else
             var again := if attempt.value.committed.applied then Resting else Reading(from, position + 1);
             v == World(attempt.value.store, w.runners[r := again])
    case Elsewhere =>
      exists commit: Commit<S> ::
        commit.key != key && CommitProjection(w.store, commit).Ok? && v == w.(store := CommitProjection(w.store, commit).value.store)
  }

  /** A runner's snapshot was right when it was loaded, and it only skips what has been done since. */
  ghost predicate InStep<S>(store: Store<S>, key: ProjectionKey, seed: S, reduce: (S, Event) -> S, local: Local<S>) {
    local.Reading? ==>
      && Folded(store, key, seed, reduce, local.from)
      && local.from.version <= local.position
      && local.from.version <= Version(store, key)
      && (local.position > local.from.version ==> local.position <= Version(store, key))
  }

  ghost predicate Inv<S>(key: ProjectionKey, seed: S, reduce: (S, Event) -> S, w: World<S>) {
    && Sound(w.store, key, seed, reduce)
    && forall r | 0 <= r < |w.runners| :: InStep(w.store, key, seed, reduce, w.runners[r])
  }

  /** The store grew: streams only at their ends, and this projection did not go back. */
  ghost predicate Extends<S>(key: ProjectionKey, before: Store<S>, after: Store<S>) {
    Stream(before, key.streamId) <= Stream(after, key.streamId) && Version(before, key) <= Version(after, key)
  }

  lemma InStepExtends<S>(key: ProjectionKey, seed: S, reduce: (S, Event) -> S, before: Store<S>, after: Store<S>, local: Local<S>)
    requires Extends(key, before, after) && InStep(before, key, seed, reduce, local)
    ensures InStep(after, key, seed, reduce, local)
  {
    if local.Reading? {
      var n := local.from.version;
      assert Stream(before, key.streamId)[..n] == Stream(after, key.streamId)[..n];
    }
  }

  lemma {:induction false} ArriveKeeps<S>(key: ProjectionKey, seed: S, reduce: (S, Event) -> S, store: Store<S>, event: Event)
    requires Sound(store, key, seed, reduce) && Append(store, event).Ok?
    ensures Sound(Append(store, event).value, key, seed, reduce) && Extends(key, store, Append(store, event).value)
  {
    AppendKeeps(store, event);
    var after := Append(store, event).value;
    var events, more := Stream(store, key.streamId), Stream(after, key.streamId);
    var n := Version(store, key);
    assert events <= more && events[..n] == more[..n];
    forall i: nat | i < |more|
      ensures Received(after, key, i) <==> i < n
    {
      if i < |events| { assert Received(store, key, i) <==> i < n; }
    }
  }

  lemma {:induction false} ElsewhereKeeps<S>(key: ProjectionKey, seed: S, reduce: (S, Event) -> S, store: Store<S>, commit: Commit<S>)
    requires Sound(store, key, seed, reduce) && commit.key != key && CommitProjection(store, commit).Ok?
    ensures Sound(CommitProjection(store, commit).value.store, key, seed, reduce)
    ensures Extends(key, store, CommitProjection(store, commit).value.store)
  {
    CommitKeeps(store, commit);
    var after := CommitProjection(store, commit).value.store;
    forall i: nat | i < |Stream(after, key.streamId)|
      ensures Received(after, key, i) <==> i < Version(after, key)
    {
      assert Received(store, key, i) <==> i < Version(store, key);
    }
  }

  lemma {:induction false} TryKeeps<S(!new)>(key: ProjectionKey, seed: S, reduce: (S, Event) -> S, w: World<S>, r: nat, v: World<S>)
    requires Inv(key, seed, reduce, w) && Next(key, seed, reduce, w, Try(r), v)
    ensures Sound(v.store, key, seed, reduce) && Extends(key, w.store, v.store)
    ensures |v.runners| == |w.runners| && InStep(v.store, key, seed, reduce, v.runners[r])
    ensures v.runners == w.runners[r := v.runners[r]]
  {
    var Reading(from, i) := w.runners[r];
    assert InStep(w.store, key, seed, reduce, w.runners[r]);
    if i < |Stream(w.store, key.streamId)| {
      AttemptOutcome(w.store, key, seed, reduce, from, i);
      if i >= Version(w.store, key) && from.version == Version(w.store, key) {
        assert from == Current(w.store, key, seed);
        AppliedIsSound(w.store, key, seed, reduce, i);
      }
    }
  }

  lemma StepKeeps<S(!new)>(key: ProjectionKey, seed: S, reduce: (S, Event) -> S, w: World<S>, step: Step, v: World<S>)
    requires Inv(key, seed, reduce, w) && Next(key, seed, reduce, w, step, v)
    ensures Inv(key, seed, reduce, v) && Extends(key, w.store, v.store)
  {
    match step {
      case Arrive(event) => ArriveKeeps(key, seed, reduce, w.store, event);
      case Load(_) =>
      case Try(r) => TryKeeps(key, seed, reduce, w, r, v);
      case Elsewhere =>
        var commit: Commit<S> :| commit.key != key && CommitProjection(w.store, commit).Ok?
                                 && v == w.(store := CommitProjection(w.store, commit).value.store);
        ElsewhereKeeps(key, seed, reduce, w.store, commit);
    }
    forall r | 0 <= r < |v.runners|
      ensures InStep(v.store, key, seed, reduce, v.runners[r])
    {
      if v.runners[r] == w.runners[r] { InStepExtends(key, seed, reduce, w.store, v.store, w.runners[r]); }
    }
  }

  /** A run of the machine from an empty projection. */
  ghost predicate Behaviour<S(!new)>(key: ProjectionKey, seed: S, reduce: (S, Event) -> S, worlds: seq<World<S>>, steps: seq<Step>) {
    && |worlds| == |steps| + 1
    && WellFormed(worlds[0].store) && key !in worlds[0].store.projections
    && (forall r <- worlds[0].store.receipts :: r.key != key)
    && (forall local <- worlds[0].runners :: local.Resting?)
    && forall k: nat {:trigger steps[k]} | k < |steps| :: Next(key, seed, reduce, worlds[k], steps[k], worlds[k + 1])
  }

  lemma StartsSound<S(!new)>(key: ProjectionKey, seed: S, reduce: (S, Event) -> S, store: Store<S>)
    requires WellFormed(store) && key !in store.projections && forall r <- store.receipts :: r.key != key
    ensures Sound(store, key, seed, reduce)
  {
  }

  lemma {:induction false} Reachable<S(!new)>(
    key: ProjectionKey, seed: S, reduce: (S, Event) -> S, worlds: seq<World<S>>, steps: seq<Step>, k: nat)
    requires Behaviour(key, seed, reduce, worlds, steps) && k < |worlds|
    ensures Inv(key, seed, reduce, worlds[k])
    decreases k
  {
    if k == 0 {
      StartsSound(key, seed, reduce, worlds[0].store);
      assert forall r | 0 <= r < |worlds[0].runners| :: worlds[0].runners[r] in worlds[0].runners;
    } else {
      Reachable(key, seed, reduce, worlds, steps, k - 1);
      StepKeeps(key, seed, reduce, worlds[k - 1], steps[k - 1], worlds[k]);
    }
  }

  /**
   * Whatever the interleaving of runners and appends, the stored projection is the fold over
   * exactly the events up to its cursor: no event is folded twice, none is skipped.
   */
  lemma ProjectionRefinesFold<S(!new)>(
    key: ProjectionKey, seed: S, reduce: (S, Event) -> S, worlds: seq<World<S>>, steps: seq<Step>, k: nat)
    requires Behaviour(key, seed, reduce, worlds, steps) && k < |worlds| && key in worlds[k].store.projections
    ensures var snapshot, events := worlds[k].store.projections[key], Stream(worlds[k].store, key.streamId);
            && 0 <= snapshot.lastSeq < |events|
            && snapshot.state == Fold(reduce, seed, events[..snapshot.lastSeq + 1])
  {
    Reachable(key, seed, reduce, worlds, steps, k);
  }

  // ---------------------------------------------------------------- progress under interference

  /** Step k ends a call of runner r on an event: its commit was applied, or refused as a conflict. */
  ghost predicate EndsOnEvent<S(!new)>(key: ProjectionKey, worlds: seq<World<S>>, steps: seq<Step>, k: nat, r: nat)
    requires k < |steps| < |worlds|
  {
    && steps[k] == Try(r) && r < |worlds[k].runners| && worlds[k].runners[r].Reading?
    && worlds[k].runners[r].position < |Stream(worlds[k].store, key.streamId)|
    && r < |worlds[k + 1].runners| && worlds[k + 1].runners[r].Resting?
  }

  /** How many calls of runner r ended so in the first k steps. */
  ghost function EndedOnEvent<S(!new)>(key: ProjectionKey, worlds: seq<World<S>>, steps: seq<Step>, k: nat, r: nat): nat
    requires k <= |steps| < |worlds|
  {
    if k == 0 then 0
    else EndedOnEvent(key, worlds, steps, k - 1, r) + if EndsOnEvent(key, worlds, steps, k - 1, r) then 1 else 0
  }

  /** What a runner has had done for it: up to its snapshot while it reads, up to now while it rests. */
  ghost function Done<S>(key: ProjectionKey, w: World<S>, r: nat): nat {
    if r < |w.runners| && w.runners[r].Reading? then w.runners[r].from.version else Version(w.store, key)
  }

  /**
   * A call that ends on an event was overtaken or made the step itself: the cursor is now past the
   * snapshot it started from. A conflict means that some other runner advanced it.
   */
  lemma {:induction false} EndMeansProgress<S(!new)>(
    key: ProjectionKey, seed: S, reduce: (S, Event) -> S, w: World<S>, r: nat, v: World<S>)
    requires Inv(key, seed, reduce, w) && Next(key, seed, reduce, w, Try(r), v)
    requires 0 <= w.runners[r].position < |Stream(w.store, key.streamId)| && v.runners[r].Resting?
    ensures w.runners[r].from.version < Version(v.store, key)
    ensures v.store == w.store ==> w.runners[r].from.version < Version(w.store, key)
    ensures v.store != w.store ==> w.runners[r].from.version == Version(w.store, key)
  {
    var Reading(from, i) := w.runners[r];
    assert InStep(w.store, key, seed, reduce, w.runners[r]);
    AttemptOutcome(w.store, key, seed, reduce, from, i);
    if from.version == Version(w.store, key) {
      assert from == Current(w.store, key, seed);
      AppliedIsSound(w.store, key, seed, reduce, i);
    }
  }

  lemma {:induction false} StepDone<S(!new)>(
    key: ProjectionKey, seed: S, reduce: (S, Event) -> S, worlds: seq<World<S>>, steps: seq<Step>, k: nat, r: nat)
    requires Behaviour(key, seed, reduce, worlds, steps) && k < |steps|
    ensures Done(key, worlds[k], r) + (if EndsOnEvent(key, worlds, steps, k, r) then 1 else 0) <= Done(key, worlds[k + 1], r)
  {
    var w, v := worlds[k], worlds[k + 1];
    Reachable(key, seed, reduce, worlds, steps, k);
    assert Next(key, seed, reduce, w, steps[k], v);
    StepKeeps(key, seed, reduce, w, steps[k], v);
    if r < |w.runners| { assert InStep(w.store, key, seed, reduce, w.runners[r]); }
    if EndsOnEvent(key, worlds, steps, k, r) {
      assert InStep(w.store, key, seed, reduce, w.runners[r]);
      EndMeansProgress(key, seed, reduce, w, r, v);
    }
  }

  lemma {:induction false} DoneIsBounded<S>(key: ProjectionKey, seed: S, reduce: (S, Event) -> S, w: World<S>, r: nat)
    requires Inv(key, seed, reduce, w)
    ensures Done(key, w, r) <= Version(w.store, key) <= |Stream(w.store, key.streamId)|
  {
    if r < |w.runners| { assert InStep(w.store, key, seed, reduce, w.runners[r]); }
  }

  lemma {:induction false} CallsUpToDone<S(!new)>(
    key: ProjectionKey, seed: S, reduce: (S, Event) -> S, worlds: seq<World<S>>, steps: seq<Step>, k: nat, r: nat)
    requires Behaviour(key, seed, reduce, worlds, steps) && k < |worlds|
    ensures EndedOnEvent(key, worlds, steps, k, r) <= Done(key, worlds[k], r)
    decreases k
  {
    if k > 0 {
      CallsUpToDone(key, seed, reduce, worlds, steps, k - 1, r);
      StepDone(key, seed, reduce, worlds, steps, k - 1, r);
    }
  }

  /**
   * Draining ends for every runner, under any interference: its calls that found an event to work
   * on, conflicts included, are never more than the cursor has advanced, so never more than events.
   */
  lemma {:induction false} CallsAreBounded<S(!new)>(
    key: ProjectionKey, seed: S, reduce: (S, Event) -> S, worlds: seq<World<S>>, steps: seq<Step>, k: nat, r: nat)
    requires Behaviour(key, seed, reduce, worlds, steps) && k < |worlds|
    ensures EndedOnEvent(key, worlds, steps, k, r) <= Version(worlds[k].store, key) <= |Stream(worlds[k].store, key.streamId)|
  {
    Reachable(key, seed, reduce, worlds, steps, k);
    DoneIsBounded(key, seed, reduce, worlds[k], r);
    CallsUpToDone(key, seed, reduce, worlds, steps, k, r);
  }
}
