/**
 * The per-session Goal lock: a map from session to the last settled promise, on which every
 * operation is chained. Promise reactions run in any order that respects the chains.
 */
module GoalLock {
  import opened Prelude

  /** Finished: the operation's promise settled, either way. Cleaned: the reaction that may drop the map entry ran. */
  datatype Phase = Queued | Running | Finished | Cleaned

  /** One call of withGoalLock, chained on the entry it found. */
  datatype Call = Call(session: string, previous: Option<nat>, phase: Phase)

  /** Calls in the order they were made; the map holds the index of a call. */
  datatype Locks = Locks(calls: seq<Call>, entries: map<string, nat>)

  datatype Step =
    | Enter(session: string)
    | Start(call: nat)
    | Settle(call: nat)
    | Clean(call: nat)

  predicate Over(l: Locks, i: nat) {
    i < |l.calls| && l.calls[i].phase in {Finished, Cleaned}
  }

  ghost predicate Next(l: Locks, step: Step, m: Locks) {
    match step
    case Enter(session) =>
      var previous := if session in l.entries then Some(l.entries[session]) else None;
      m == Locks(l.calls + [Call(session, previous, Queued)], l.entries[session := |l.calls|])
    case Start(i) =>
      && i < |l.calls| && l.calls[i].phase == Queued
      && (l.calls[i].previous.Some? ==> Over(l, l.calls[i].previous.value))
      && m == l.(calls := l.calls[i := l.calls[i].(phase := Running)])
    case Settle(i) =>
      && i < |l.calls| && l.calls[i].phase == Running
      && m == l.(calls := l.calls[i := l.calls[i].(phase := Finished)])
    case Clean(i) =>
      && i < |l.calls| && l.calls[i].phase == Finished
      && var session := l.calls[i].session;
         var mine := session in l.entries && l.entries[session] == i;
         m == Locks(l.calls[i := l.calls[i].(phase := Cleaned)], if mine then l.entries - {session} else l.entries)
  }

  /** An operation goes through its phases one by one, and nothing but its turn holds it up. */
  lemma GoesOn(l: Locks, i: nat)
    requires i < |l.calls|
    ensures var call := l.calls[i];
            && (call.phase == Queued && (call.previous.None? || Over(l, call.previous.value)) ==>
                  Next(l, Start(i), l.(calls := l.calls[i := call.(phase := Running)])))
            && (call.phase == Running ==> Next(l, Settle(i), l.(calls := l.calls[i := call.(phase := Finished)])))
            && (call.phase == Finished ==> exists m :: Next(l, Clean(i), m) && m.calls == l.calls[i := call.(phase := Cleaned)])
  {
    var call := l.calls[i];
    if call.phase == Finished {
      var mine := call.session in l.entries && l.entries[call.session] == i;
      assert Next(l, Clean(i), Locks(l.calls[i := call.(phase := Cleaned)], if mine then l.entries - {call.session} else l.entries));
    }
  }

  // ---------------------------------------------------------------- mutual exclusion

  predicate Earlier(l: Locks, i: int, j: int) {
    0 <= i < j < |l.calls| && l.calls[i].session == l.calls[j].session
  }

  /** Everything before a call that has started is over. */
  ghost predicate InTurn(l: Locks) {
    forall i, j | Earlier(l, i, j) :: l.calls[j].phase != Queued ==> Over(l, i)
  }

  /** A call waits for the latest earlier call of its session, unless those are all over. */
  ghost predicate Chained(l: Locks) {
    forall i, j | Earlier(l, i, j) ::
      match l.calls[j].previous
      case Some(p) => i <= p < j && l.calls[p].session == l.calls[j].session
      case None => Over(l, i)
  }

  /** The map's entry is the session's latest call; a session without one has nothing left to wait for. */
  ghost predicate Latest(l: Locks) {
    && (forall s <- l.entries :: l.entries[s] < |l.calls| && l.calls[l.entries[s]].session == s)
    && (forall i | 0 <= i < |l.calls| ::
          if l.calls[i].session in l.entries then i <= l.entries[l.calls[i].session] else Over(l, i))
  }

  ghost predicate Inv(l: Locks) {
    InTurn(l) && Chained(l) && Latest(l)
  }

  lemma EnterKeeps(l: Locks, session: string, m: Locks)
    requires Inv(l) && Next(l, Enter(session), m)
    ensures Inv(m)
  {
    forall i, j | Earlier(m, i, j)
      ensures m.calls[j].phase != Queued ==> Over(m, i)
      ensures match m.calls[j].previous
              case Some(p) => i <= p < j && m.calls[p].session == m.calls[j].session
              case None => Over(m, i)
    {
      assert Over(l, i) ==> Over(m, i);
      if j < |l.calls| { assert Earlier(l, i, j); }
    }
  }

  lemma PhaseKeeps(l: Locks, step: Step, m: Locks)
    requires Inv(l) && Next(l, step, m) && !step.Enter?
    ensures Inv(m)
  {
    forall i: nat | Over(l, i) ensures Over(m, i) {}
    forall i, j | Earlier(m, i, j)
      ensures m.calls[j].phase != Queued ==> Over(m, i)
      ensures match m.calls[j].previous
              case Some(p) => i <= p < j && m.calls[p].session == m.calls[j].session
              case None => Over(m, i)
    {
      assert Earlier(l, i, j);
      if step == Start(j) && l.calls[j].previous.Some? {
        var p := l.calls[j].previous.value;
        assert i < p ==> Earlier(l, i, p);
      }
    }
    if step.Clean? {
      forall i | 0 <= i < |m.calls|
        ensures if m.calls[i].session in m.entries then i <= m.entries[m.calls[i].session] else Over(m, i)
      {
        if i < step.call && l.calls[i].session == l.calls[step.call].session { assert Earlier(l, i, step.call); }
      }
    }
  }

  /** A schedule of the process from an empty map. */
  ghost predicate Schedule(states: seq<Locks>, steps: seq<Step>) {
    && |states| == |steps| + 1 && states[0] == Locks([], map[])
    && forall k: nat | k < |steps| :: Next(states[k], steps[k], states[k + 1])
  }

  lemma {:induction false} Reachable(states: seq<Locks>, steps: seq<Step>, k: nat)
    requires Schedule(states, steps) && k < |states|
    ensures Inv(states[k])
    decreases k
  {
    if k > 0 {
      Reachable(states, steps, k - 1);
      if steps[k - 1].Enter? {
        EnterKeeps(states[k - 1], steps[k - 1].session, states[k]);
      } else {
        PhaseKeeps(states[k - 1], steps[k - 1], states[k]);
      }
    }
  }

  /**
   * Mutual exclusion and turn taking: whenever an operation runs, every operation called before
   * it for the same session has settled; so no two run at once, also across dropped map entries.
   */
  lemma OneHolderInTurn(states: seq<Locks>, steps: seq<Step>, k: nat, i: nat, j: nat)
    requires Schedule(states, steps) && k < |states|
    requires i < j < |states[k].calls| && states[k].calls[i].session == states[k].calls[j].session
    ensures states[k].calls[j].phase == Running ==> Over(states[k], i)
    ensures !(states[k].calls[i].phase == Running && states[k].calls[j].phase == Running)
  {
    Reachable(states, steps, k);
    assert Earlier(states[k], i, j);
  }

  /** The lock never wedges: while some operation of a session is not over, its oldest such can start or is running. */
  lemma OldestCanProceed(states: seq<Locks>, steps: seq<Step>, k: nat, i: nat)
    requires Schedule(states, steps) && k < |states| && i < |states[k].calls| && !Over(states[k], i)
    requires forall j: nat | j < i && states[k].calls[j].session == states[k].calls[i].session :: Over(states[k], j)
    ensures states[k].calls[i].phase == Running || exists m :: Next(states[k], Start(i), m)
  {
    var l := states[k];
    WaitsForEarlier(states, steps, k, i);
    if l.calls[i].phase == Queued {
      assert Next(l, Start(i), l.(calls := l.calls[i := l.calls[i].(phase := Running)]));
    }
  }

  lemma {:induction false} WaitsForEarlier(states: seq<Locks>, steps: seq<Step>, k: nat, i: nat)
    requires Schedule(states, steps) && k < |states| && i < |states[k].calls|
    ensures var c := states[k].calls[i];
            c.previous.Some? ==> c.previous.value < i && states[k].calls[c.previous.value].session == c.session
    decreases k
  {
    if k > 0 {
      Reachable(states, steps, k - 1);
      if i < |states[k - 1].calls| { WaitsForEarlier(states, steps, k - 1, i); }
    }
  }

  /** Nothing is left in the map once every operation has settled and its reaction ran. */
  lemma MapDrains(states: seq<Locks>, steps: seq<Step>, k: nat)
    requires Schedule(states, steps) && k < |states|
    requires forall c <- states[k].calls :: c.phase == Cleaned
    ensures states[k].entries == map[]
  {
    EntriesUncleaned(states, steps, k);
    assert forall i | 0 <= i < |states[k].calls| :: states[k].calls[i] in states[k].calls;
  }

  lemma {:induction false} EntriesUncleaned(states: seq<Locks>, steps: seq<Step>, k: nat)
    requires Schedule(states, steps) && k < |states|
    ensures forall s <- states[k].entries ::
              states[k].entries[s] < |states[k].calls| && states[k].calls[states[k].entries[s]].phase != Cleaned
    decreases k
  {
    if k > 0 {
      EntriesUncleaned(states, steps, k - 1);
      Reachable(states, steps, k - 1);
    }
  }
}
