/**
 * Whole behaviours of the approval service: what a waiter can rely on, and when the log comes to
 * hold two decisions for one request.
 */
module ApprovalRuns {
  import opened Prelude
  import opened Approval
  import opened ApprovalSafety

  ghost predicate Took(worlds: seq<World>, steps: seq<Step>, k: nat)
    requires k < |steps| && k + 1 < |worlds|
  {
    Next(worlds[k], steps[k], worlds[k + 1])
  }

  /** A behaviour of a service started on an empty log; restarts are steps of it. */
  ghost predicate Behaviour(worlds: seq<World>, steps: seq<Step>) {
    && |worlds| == |steps| + 1 && worlds[0] == World([], {}, map[], map[], [], [], {}, {})
    && forall k: nat {:trigger Took(worlds, steps, k)} | k < |steps| :: Took(worlds, steps, k)
  }

  lemma {:induction false} Reachable(worlds: seq<World>, steps: seq<Step>, k: nat)
    requires Behaviour(worlds, steps) && k < |worlds|
    ensures Inv(worlds[k])
    decreases k
  {
    if k > 0 {
      Reachable(worlds, steps, k - 1);
      assert Took(worlds, steps, k - 1);
      StepKeeps(worlds[k - 1], steps[k - 1], worlds[k]);
    }
  }

  lemma {:induction false} LogsGrow(worlds: seq<World>, steps: seq<Step>, i: nat, k: nat)
    requires Behaviour(worlds, steps) && i <= k < |worlds|
    ensures worlds[i].log <= worlds[k].log
    decreases k
  {
    if i < k {
      LogsGrow(worlds, steps, i, k - 1);
      assert Took(worlds, steps, k - 1);
      LogOnlyGrows(worlds[k - 1], steps[k - 1], worlds[k]);
    }
  }

  // ---------------------------------------------------------------- what a waiter can rely on

  /**
   * A call past its second read that was not rejected has its decision exactly when no other call's
   * timer took its waiter out of the table, and a decision for its request stands in the log that
   * this read saw, or that a handler has handed on: one whose append did not reject after writing,
   * and whose handler is past resolving.
   */
  lemma SettledExactly(worlds: seq<World>, steps: seq<Step>, k: nat, i: nat)
    requires Behaviour(worlds, steps) && k < |worlds| && i < |worlds[k].calls|
    requires worlds[k].calls[i].pc.Returned? && !worlds[k].calls[i].promise.Rejected?
    ensures var w, c := worlds[k], worlds[k].calls[i];
            c.promise.Released? <==>
            && i !in w.dropped
            && exists p: nat :: DecisionAt(w.log, p, c.fp) && (p < |c.pc.seen| || !Unresolved(w, p))
  {
    Reachable(worlds, steps, k);
    var w, c := worlds[k], worlds[k].calls[i];
    assert CallOk(w, i);
    if c.promise.Released? {
      var p: nat :| Delivers(w, c, p);
      assert DecisionAt(w.log, p, c.fp);
    } else if i !in w.dropped {
      assert forall p: nat | DecisionAt(w.log, p, c.fp) :: Coming(w, c, p);
    }
  }

  /**
   * Why a logged decision may be lost on a call that waits past its second read: the call's waiter
   * was taken out, the append rejected after writing, or the handler has yet to resolve. No other way.
   */
  lemma NoLostDecision(worlds: seq<World>, steps: seq<Step>, k: nat, i: nat, p: nat)
    requires Behaviour(worlds, steps) && k < |worlds| && i < |worlds[k].calls| && worlds[k].calls[i].pc.Returned?
    requires DecisionAt(worlds[k].log, p, worlds[k].calls[i].fp) && worlds[k].calls[i].promise.Pending?
    ensures || i in worlds[k].dropped || p in worlds[k].torn
            || exists h: Handler :: h in worlds[k].handlers && h.pc == Logged(worlds[k].log[p], p)
  {
    var w := worlds[k];
    Reachable(worlds, steps, k);
    assert CallOk(w, i);
    assert forall h | 0 <= h < |w.handlers| :: w.handlers[h] in w.handlers && HandlerOk(w, w.handlers[h]);
    if i !in w.dropped { assert Coming(w, w.calls[i], p); }
  }

  /** The timer of an orphan, a call whose second read failed, fired while another call waited under its id. */
  ghost predicate TookOut(worlds: seq<World>, steps: seq<Step>, j: nat, i: nat)
    requires j < |steps| < |worlds|
  {
    && steps[j].TimeOut? && steps[j].call < |worlds[j].calls| && i < |worlds[j].calls| && i != steps[j].call
    && worlds[j].calls[steps[j].call].pc.Orphaned? && worlds[j].calls[steps[j].call].promise.Pending?
    && IsWaiter(worlds[j], i) && worlds[j].calls[i].pc.id == worlds[j].calls[steps[j].call].pc.id
  }

  lemma {:induction false} DroppedStep(w: World, step: Step, v: World, i: nat)
    requires Inv(w) && Next(w, step, v) && i in v.dropped && i !in w.dropped
    ensures step.TimeOut? && w.calls[step.call].pc.Orphaned? && i < |w.calls| && i != step.call
    ensures IsWaiter(w, i) && w.calls[i].pc.id == w.calls[step.call].pc.id
  {
    assert CallOk(w, step.call);
    assert WaiterOk(w, w.calls[step.call].pc.id);
  }

  lemma {:induction false} KeepsDropped(w: World, step: Step, v: World, i: nat)
    requires Next(w, step, v) && !step.Restart? && i in w.dropped
    ensures i in v.dropped
  {
  }

  /** A call is dropped exactly when, since the last restart, an orphan's timer fired while it waited under that id. */
  lemma {:induction false} DroppedExactly(worlds: seq<World>, steps: seq<Step>, k: nat, i: nat)
    requires Behaviour(worlds, steps) && k < |worlds|
    ensures i in worlds[k].dropped <==>
              exists j: nat :: j < k && TookOut(worlds, steps, j, i) && forall m: nat | j <= m < k :: !steps[m].Restart?
    decreases k
  {
    if k > 0 {
      var w, step, v := worlds[k - 1], steps[k - 1], worlds[k];
      Reachable(worlds, steps, k - 1);
      assert Took(worlds, steps, k - 1);
      DroppedExactly(worlds, steps, k - 1, i);
      if i in v.dropped {
        if i in w.dropped {
          var j: nat :| j < k - 1 && TookOut(worlds, steps, j, i) && forall m: nat | j <= m < k - 1 :: !steps[m].Restart?;
          assert !step.Restart?;
        } else {
          DroppedStep(w, step, v, i);
          assert TookOut(worlds, steps, k - 1, i);
        }
      }
      if j: nat :| j < k && TookOut(worlds, steps, j, i) && forall m: nat | j <= m < k :: !steps[m].Restart? {
        if j < k - 1 { KeepsDropped(w, step, v, i); }
      }
    }
  }

  /** Nobody is released but with a decision that is in the log, for what was asked. */
  lemma OnlyLoggedDecisions(worlds: seq<World>, steps: seq<Step>, k: nat, i: nat)
    requires Behaviour(worlds, steps) && k < |worlds| && i < |worlds[k].calls| && worlds[k].calls[i].promise.Released?
    ensures var d := worlds[k].calls[i].promise.decision;
            && d in worlds[k].log && d.Decision? && d.fp == worlds[k].calls[i].fp
            && Request(d.id, d.fp) in worlds[k].log
  {
    Reachable(worlds, steps, k);
    assert CallOk(worlds[k], i);
  }

  /** The Owner is asked once: over all restarts, timeouts and failing appends, one request per fingerprint. */
  lemma AskedOnce(worlds: seq<World>, steps: seq<Step>, k: nat, i: nat, j: nat)
    requires Behaviour(worlds, steps) && k < |worlds| && i < |worlds[k].log| && j < |worlds[k].log|
    requires worlds[k].log[i].Request? && worlds[k].log[j].Request? && worlds[k].log[i].fp == worlds[k].log[j].fp
    ensures i == j
  {
    Reachable(worlds, steps, k);
  }

  // ---------------------------------------------------------------- two decisions for one request

  /** From reading the log to writing its decision: a handler of the request `id`, within one process. */
  ghost predicate Window(worlds: seq<World>, steps: seq<Step>, l: nat, a: nat, id: nat) {
    && l < a < |steps| && |steps| < |worlds| && steps[l].Load? && steps[a] == AppendDecision(steps[l].handler)
    && (forall j: nat | l <= j < a :: !steps[j].Restart?)
    && steps[l].handler < |worlds[l].handlers| && worlds[l].handlers[steps[l].handler].id == id
  }

  /** Two handlers of a request both read the log before either of them wrote. */
  ghost predicate Overlap(worlds: seq<World>, steps: seq<Step>, k: nat, id: nat) {
    exists l: nat, a: nat, m: nat, b: nat ::
      Window(worlds, steps, l, a, id) && Window(worlds, steps, m, b, id) && m < a < b < k
  }

  ghost predicate TwoDecisions(log: Log, fp: string) {
    exists p: nat, q: nat :: p < q && DecisionAt(log, p, fp) && DecisionAt(log, q, fp)
  }

  /** A handler keeps its request from one step to the next, unless the process ends. */
  lemma SameHandler(worlds: seq<World>, steps: seq<Step>, l: nat, k: nat, h: nat)
    requires Behaviour(worlds, steps) && l <= k < |worlds| && h < |worlds[l].handlers|
    requires forall j: nat | l <= j < k :: !steps[j].Restart?
    ensures h < |worlds[k].handlers| && worlds[k].handlers[h].id == worlds[l].handlers[h].id
    decreases k
  {
    if l < k {
      SameHandler(worlds, steps, l, k - 1, h);
      assert Took(worlds, steps, k - 1);
      KeepsHandler(worlds[k - 1], steps[k - 1], worlds[k], h);
    }
  }

  lemma KeepsHandler(w: World, step: Step, v: World, h: nat)
    requires Next(w, step, v) && !step.Restart? && h < |w.handlers|
    ensures h < |v.handlers| && v.handlers[h].id == w.handlers[h].id
    ensures v.handlers[h].pc.Loaded? ==> v.handlers[h] == w.handlers[h] || (step == Load(h) && v.handlers[h].pc.seen == w.log)
    ensures v.handlers[h].pc.Writing? && v.handlers[h] != w.handlers[h] ==>
              step == Use(h) && w.handlers[h].pc == Loaded(v.handlers[h].pc.seen)
              && LastDecision(v.handlers[h].pc.seen, v.handlers[h].pc.decision.fp).None?
  {
  }

  /** A handler about to write has read the log, earlier in its process, and saw no decision there. */
  lemma {:induction false} HasRead(worlds: seq<World>, steps: seq<Step>, k: nat, h: nat) returns (l: nat)
    requires Behaviour(worlds, steps) && k < |worlds| && h < |worlds[k].handlers|
    requires worlds[k].handlers[h].pc.Loaded? || worlds[k].handlers[h].pc.Writing?
    ensures l < k && steps[l] == Load(h) && forall j: nat | l <= j < k :: !steps[j].Restart?
    ensures h < |worlds[l].handlers| && worlds[l].handlers[h].id == worlds[k].handlers[h].id
    ensures worlds[k].handlers[h].pc.seen == worlds[l].log
    ensures worlds[k].handlers[h].pc.Writing? ==> LastDecision(worlds[l].log, worlds[k].handlers[h].pc.decision.fp).None?
    decreases k
  {
    var w, step, v := worlds[k - 1], steps[k - 1], worlds[k];
    assert Took(worlds, steps, k - 1);
    KeepsHandler(w, step, v, h);
    if step == Load(h) {
      l := k - 1;
    } else {
      l := HasRead(worlds, steps, k - 1, h);
    }
  }

  /** Every decision in the log was written there by a step, at the end of the log of that time. */
  lemma {:induction false} WasWritten(worlds: seq<World>, steps: seq<Step>, k: nat, p: nat) returns (a: nat)
    requires Behaviour(worlds, steps) && k < |worlds| && p < |worlds[k].log| && worlds[k].log[p].Decision?
    ensures a < k && steps[a].AppendDecision? && |worlds[a].log| == p
    ensures steps[a].handler < |worlds[a].handlers| && worlds[a].handlers[steps[a].handler].pc.Writing?
    ensures worlds[a].handlers[steps[a].handler].pc.decision == worlds[k].log[p]
    decreases k
  {
    assert Took(worlds, steps, k - 1);
    LogOnlyGrows(worlds[k - 1], steps[k - 1], worlds[k]);
    if p < |worlds[k - 1].log| {
      a := WasWritten(worlds, steps, k - 1, p);
    } else {
      a := k - 1;
    }
  }

  /** The window in which the decision at `p` came about. */
  lemma ItsWindow(worlds: seq<World>, steps: seq<Step>, k: nat, p: nat) returns (l: nat, a: nat)
    requires Behaviour(worlds, steps) && k < |worlds| && p < |worlds[k].log| && worlds[k].log[p].Decision?
    ensures a < k && |worlds[a].log| == p && Window(worlds, steps, l, a, worlds[k].log[p].id)
    ensures |worlds[l].log| <= p && LastDecision(worlds[l].log, worlds[k].log[p].fp).None?
  {
    a := WasWritten(worlds, steps, k, p);
    var h := steps[a].handler;
    l := HasRead(worlds, steps, a, h);
    Reachable(worlds, steps, a);
    assert worlds[a].handlers[h] in worlds[a].handlers && HandlerOk(worlds[a], worlds[a].handlers[h]);
    LogsGrow(worlds, steps, l, a);
  }

  /** What a window leaves in the log, for ever. */
  lemma ItsDecision(worlds: seq<World>, steps: seq<Step>, l: nat, a: nat, k: nat, id: nat, fp: string)
    requires Behaviour(worlds, steps) && a < k < |worlds| && Window(worlds, steps, l, a, id)
    requires Request(id, fp) in worlds[k].log
    ensures DecisionAt(worlds[k].log, |worlds[a].log|, fp)
  {
    var h := steps[l].handler;
    assert Took(worlds, steps, a);
    SameHandler(worlds, steps, l, a, h);
    Reachable(worlds, steps, a);
    var d := worlds[a].handlers[h].pc.decision;
    assert worlds[a].handlers[h] in worlds[a].handlers && HandlerOk(worlds[a], worlds[a].handlers[h]);
    LogsGrow(worlds, steps, a + 1, k);
    assert worlds[a + 1].log[|worlds[a].log|] == d;
    LogsGrow(worlds, steps, a, k);
    assert Request(d.id, d.fp) in worlds[k].log;
    Reachable(worlds, steps, k);
    OneRequest(worlds[k].log, worlds[k].ids, Request(id, fp), Request(d.id, d.fp));
  }

  /** Of two decisions, the later one's handler had read the log before the first was written. */
  lemma DecisionsOverlap(worlds: seq<World>, steps: seq<Step>, k: nat, id: nat, fp: string, p: nat, q: nat)
    requires Behaviour(worlds, steps) && k < |worlds| && Request(id, fp) in worlds[k].log
    requires p < q && DecisionAt(worlds[k].log, p, fp) && DecisionAt(worlds[k].log, q, fp)
    ensures Overlap(worlds, steps, k, id)
  {
    var log := worlds[k].log;
    Reachable(worlds, steps, k);
    assert log[p] in log && log[q] in log;
    OneRequest(log, worlds[k].ids, Request(id, fp), Request(log[p].id, fp));
    OneRequest(log, worlds[k].ids, Request(id, fp), Request(log[q].id, fp));
    var l, a := ItsWindow(worlds, steps, k, p);
    var m, b := ItsWindow(worlds, steps, k, q);
    LogsGrow(worlds, steps, m, k);
    SeenBefore(worlds[m].log, log, p, fp);
    Earlier(worlds, steps, a, m);
    if b <= a { LogsGrow(worlds, steps, b, a); }
  }

  lemma SeenBefore(seen: Log, log: Log, p: nat, fp: string)
    requires seen <= log && DecisionAt(log, p, fp) && LastDecision(seen, fp).None?
    ensures |seen| <= p
  {
    assert forall j | 0 <= j < |seen| :: seen[j] == log[j] && seen[j] in seen;
  }

  /** A log without the line written at step `a` was read before. */
  lemma Earlier(worlds: seq<World>, steps: seq<Step>, a: nat, m: nat)
    requires Behaviour(worlds, steps) && a < |steps| && m < |steps| && steps[a].AppendDecision? && steps[m].Load?
    requires |worlds[m].log| <= |worlds[a].log|
    ensures m < a
  {
    if a < m {
      assert Took(worlds, steps, a);
      LogsGrow(worlds, steps, a + 1, m);
    }
  }

  /**
   * The log holds two decisions for a request exactly when two of its handlers both read the log
   * before either wrote; so it holds at most one as long as those windows never overlap.
   */
  lemma TwoDecisionsExactly(worlds: seq<World>, steps: seq<Step>, k: nat, id: nat, fp: string)
    requires Behaviour(worlds, steps) && k < |worlds| && Request(id, fp) in worlds[k].log
    ensures TwoDecisions(worlds[k].log, fp) <==> Overlap(worlds, steps, k, id)
  {
    if TwoDecisions(worlds[k].log, fp) {
      var p: nat, q: nat :| p < q && DecisionAt(worlds[k].log, p, fp) && DecisionAt(worlds[k].log, q, fp);
      DecisionsOverlap(worlds, steps, k, id, fp, p, q);
    }
    if Overlap(worlds, steps, k, id) {
      var l: nat, a: nat, m: nat, b: nat :| Window(worlds, steps, l, a, id) && Window(worlds, steps, m, b, id) && m < a < b < k;
      ItsDecision(worlds, steps, l, a, k, id, fp);
      ItsDecision(worlds, steps, m, b, k, id, fp);
      assert Took(worlds, steps, a);
      LogsGrow(worlds, steps, a + 1, b);
    }
  }

  // ---------------------------------------------------------------- two behaviours

  lemma Extend(worlds: seq<World>, steps: seq<Step>, step: Step, v: World) returns (more: seq<World>, on: seq<Step>)
    requires Behaviour(worlds, steps) && Next(worlds[|steps|], step, v)
    ensures Behaviour(more, on) && on == steps + [step] && more == worlds + [v] && more[|on|] == v
  {
    more, on := worlds + [v], steps + [step];
    forall k: nat | k < |on|
      ensures Took(more, on, k)
    {
      if k < |steps| { assert Took(worlds, steps, k); }
    }
  }

  function Asked(pc: Pc, log: Log, handlers: seq<Handler>, torn: set<nat>): World {
    World(log, {1}, map["f" := 0], map[1 := 0], [Call("f", pc, Pending)], handlers, torn, {})
  }

  /** A call has asked under id 1, and its request is in the log. */
  lemma AskedBehaviour() returns (worlds: seq<World>, steps: seq<Step>)
    ensures Behaviour(worlds, steps) && worlds[|steps|] == Asked(Registered(1), [Request(1, "f")], [], {})
  {
    var w0 := World([], {}, map[], map[], [], [], {}, {});
    worlds, steps := [w0], [];
    var w1 := World([], {}, map["f" := 0], map[], [Call("f", Entered, Pending)], [], {}, {});
    worlds, steps := Extend(worlds, steps, Arrive("f"), w1);
    var w2 := World([], {}, map["f" := 0], map[], [Call("f", ReadFirst([]), Pending)], [], {}, {});
    worlds, steps := Extend(worlds, steps, TakeFirst(0), w2);
    worlds, steps := Extend(worlds, steps, UseFirst(0, 1), Asked(Appending(1), [], [], {}));
    worlds, steps := Extend(worlds, steps, AppendRequest(0), Asked(Written(1), [Request(1, "f")], [], {}));
    worlds, steps := Extend(worlds, steps, RequestLogged(0), Asked(Registered(1), [Request(1, "f")], [], {}));
  }

  /**
   * What the protocol does not promise: from the empty log, two answers of the Owner both end up
   * in it; the waiter is released with the first, and a later reader finds the second.
   */
  lemma DecisionsMayContradict() returns (worlds: seq<World>, steps: seq<Step>)
    ensures Behaviour(worlds, steps)
    ensures worlds[|steps|].log == [Request(1, "f"), Decision(1, "f", true), Decision(1, "f", false)]
    ensures worlds[|steps|].calls == [Call("f", Registered(1), Released(Decision(1, "f", true)))]
    ensures LastDecision(worlds[|steps|].log, "f") == Some(Decision(1, "f", false))
  {
    var asked := [Request(1, "f")];
    var yes, no := Decision(1, "f", true), Decision(1, "f", false);
    worlds, steps := AskedBehaviour();
    worlds, steps := TwoHandlers(worlds, steps);
    var first, second := Handler(1, true, Logged(yes, 1)), Handler(1, false, Writing(no, asked));
    var w1 := Asked(Registered(1), asked + [yes], [first, second], {});
    worlds, steps := Extend(worlds, steps, AppendDecision(0), w1);
    var released := Call("f", Registered(1), Released(yes));
    var w2 := w1.(calls := [released], waiters := map[], handlers := [first.(pc := Done), second]);
    worlds, steps := Extend(worlds, steps, Resolve(0), w2);
    var w3 := w2.(log := asked + [yes, no], handlers := [first.(pc := Done), second.(pc := Logged(no, 2))]);
    worlds, steps := Extend(worlds, steps, AppendDecision(1), w3);
    assert w3.log[|w3.log| - 1] == no;
  }

  lemma TwoHandlers(worlds: seq<World>, steps: seq<Step>) returns (more: seq<World>, on: seq<Step>)
    requires Behaviour(worlds, steps) && worlds[|steps|] == Asked(Registered(1), [Request(1, "f")], [], {})
    ensures Behaviour(more, on)
    ensures var asked := [Request(1, "f")];
            more[|on|] == Asked(Registered(1), asked,
              [Handler(1, true, Writing(Decision(1, "f", true), asked)), Handler(1, false, Writing(Decision(1, "f", false), asked))], {})
  {
    var asked := [Request(1, "f")];
    more, on := OneLoads(worlds, steps, true);
    more, on := OneLoads(more, on, false);
    more, on := OneUses(more, on, 0);
    more, on := OneUses(more, on, 1);
  }

  /** A further handler of the asked request comes and reads the log. */
  lemma OneLoads(worlds: seq<World>, steps: seq<Step>, approved: bool) returns (more: seq<World>, on: seq<Step>)
    requires Behaviour(worlds, steps) && worlds[|steps|].log == [Request(1, "f")]
    ensures Behaviour(more, on)
    ensures var w := worlds[|steps|]; more[|on|] == w.(handlers := w.handlers + [Handler(1, approved, Loaded(w.log))])
  {
    var w := worlds[|steps|];
    var called, loaded := w.handlers + [Handler(1, approved, Called)], w.handlers + [Handler(1, approved, Loaded(w.log))];
    more, on := Extend(worlds, steps, Decide(1, approved), w.(handlers := called));
    assert called[|w.handlers| := called[|w.handlers|].(pc := Loaded(w.log))] == loaded;
    more, on := Extend(more, on, Load(|w.handlers|), w.(handlers := loaded));
  }

  /** It finds no decision there and goes on to write its own. */
  lemma OneUses(worlds: seq<World>, steps: seq<Step>, h: nat) returns (more: seq<World>, on: seq<Step>)
    requires Behaviour(worlds, steps) && worlds[|steps|].log == [Request(1, "f")] && h < |worlds[|steps|].handlers|
    requires var handler := worlds[|steps|].handlers[h]; handler.id == 1 && handler.pc == Loaded([Request(1, "f")])
    ensures Behaviour(more, on)
    ensures var w := worlds[|steps|];
            var approved := w.handlers[h].approved;
            more[|on|] == w.(handlers := w.handlers[h := Handler(1, approved, Writing(Decision(1, "f", approved), w.log))])
  {
    var w := worlds[|steps|];
    assert LastDecision(w.log, "f").None? && RequestOf(w.log, 1) == Some(w.log[0]);
    var approved := w.handlers[h].approved;
    var writing := Handler(1, approved, Writing(Decision(1, "f", approved), w.log));
    more, on := Extend(worlds, steps, Use(h), w.(handlers := w.handlers[h := writing]));
  }

  /** A decision whose append rejects after writing is logged, and yet its waiter waits on with no handler left. */
  lemma TornDecisionIsLost() returns (worlds: seq<World>, steps: seq<Step>)
    ensures Behaviour(worlds, steps)
    ensures var w := worlds[|steps|];
            && w.log == [Request(1, "f"), Decision(1, "f", true)] && w.handlers == [Handler(1, true, Done)]
            && |w.calls| == 1 && w.calls[0].pc.Returned? && w.calls[0].fp == "f" && w.calls[0].promise.Pending?
  {
    var asked, yes := [Request(1, "f")], Decision(1, "f", true);
    var pc := Returned(1, asked);
    worlds, steps := AskedBehaviour();
    worlds, steps := ReadsNothing(worlds, steps);
    worlds, steps := OneLoads(worlds, steps, true);
    worlds, steps := OneUses(worlds, steps, 0);
    worlds, steps := Extend(worlds, steps, AppendDecision(0), Asked(pc, asked + [yes], [Handler(1, true, Logged(yes, 1))], {}));
    worlds, steps := Extend(worlds, steps, DecisionFails(0), Asked(pc, asked + [yes], [Handler(1, true, Done)], {1}));
  }

  lemma ReadsNothing(worlds: seq<World>, steps: seq<Step>) returns (more: seq<World>, on: seq<Step>)
    requires Behaviour(worlds, steps) && worlds[|steps|] == Asked(Registered(1), [Request(1, "f")], [], {})
    ensures Behaviour(more, on)
    ensures var asked := [Request(1, "f")]; more[|on|] == Asked(Returned(1, asked), asked, [], {})
  {
    var asked := [Request(1, "f")];
    assert LastDecision(asked, "f").None?;
    more, on := Extend(worlds, steps, TakeSecond(0), Asked(ReadSecond(1, asked), asked, [], {}));
    more, on := Extend(more, on, UseSecond(0), Asked(Returned(1, asked), asked, [], {}));
  }

  // ---------------------------------------------------------------- a lost waiter

  function TwoCalls(waiters: map<nat, nat>, inFlight: map<string, nat>, first: Call, second: Pc, dropped: set<nat>): World {
    World([Request(1, "f")], {1}, inFlight, waiters, [first, Call("f", second, Pending)], [], {}, dropped)
  }

  /** The asked call's second read fails, and the same is asked again. */
  lemma AskedAgain() returns (worlds: seq<World>, steps: seq<Step>)
    ensures Behaviour(worlds, steps)
    ensures worlds[|steps|] == TwoCalls(map[1 := 0], map["f" := 1], Call("f", Orphaned(1), Pending), Entered, {})
  {
    var asked := [Request(1, "f")];
    worlds, steps := AskedBehaviour();
    worlds, steps := Extend(worlds, steps, SecondReadFails(0), Asked(Orphaned(1), asked, [], {}));
    worlds, steps := Extend(worlds, steps, Leave(0), Asked(Orphaned(1), asked, [], {}).(inFlight := map[]));
    worlds, steps := Extend(worlds, steps, Arrive("f"), TwoCalls(map[1 := 0], map["f" := 1], Call("f", Orphaned(1), Pending), Entered, {}));
  }

  /** It finds its request in the log and waits under the same id. */
  lemma WaitsAgain() returns (worlds: seq<World>, steps: seq<Step>)
    ensures Behaviour(worlds, steps)
    ensures worlds[|steps|] == TwoCalls(map[1 := 1], map["f" := 1], Call("f", Orphaned(1), Pending), Registered(1), {})
  {
    var asked := [Request(1, "f")];
    var orphan := Call("f", Orphaned(1), Pending);
    assert LastDecision(asked, "f").None? && LastRequest(asked, "f") == Some(asked[0]);
    worlds, steps := AskedAgain();
    worlds, steps := Extend(worlds, steps, TakeFirst(1), TwoCalls(map[1 := 0], map["f" := 1], orphan, ReadFirst(asked), {}));
    worlds, steps := Extend(worlds, steps, UseFirst(1, 1), TwoCalls(map[1 := 1], map["f" := 1], orphan, Registered(1), {}));
  }

  /** The second read sees no decision, and the orphan's timer takes the waiter out. */
  lemma TakenOutAgain() returns (worlds: seq<World>, steps: seq<Step>)
    ensures Behaviour(worlds, steps)
    ensures worlds[|steps|]
            == TwoCalls(map[], map["f" := 1], Call("f", Orphaned(1), Rejected), Returned(1, [Request(1, "f")]), {1})
  {
    var asked := [Request(1, "f")];
    var orphan := Call("f", Orphaned(1), Pending);
    assert LastDecision(asked, "f").None?;
    worlds, steps := WaitsAgain();
    worlds, steps := Extend(worlds, steps, TakeSecond(1), TwoCalls(map[1 := 1], map["f" := 1], orphan, ReadSecond(1, asked), {}));
    worlds, steps := Extend(worlds, steps, UseSecond(1), TwoCalls(map[1 := 1], map["f" := 1], orphan, Returned(1, asked), {}));
    worlds, steps := Extend(worlds, steps, TimeOut(0), TwoCalls(map[], map["f" := 1], orphan.(promise := Rejected), Returned(1, asked), {1}));
  }

  /**
   * What a failing second read can do, in a process that survives the orphan's unhandled rejection:
   * the Owner's decision is logged and handed on, and reaches nobody.
   */
  lemma OrphanTimerLosesDecision() returns (worlds: seq<World>, steps: seq<Step>)
    ensures Behaviour(worlds, steps)
    ensures var w := worlds[|steps|];
            && w.log == [Request(1, "f"), Decision(1, "f", true)] && w.handlers == [Handler(1, true, Done)] && w.torn == {}
            && |w.calls| == 2 && w.calls[1].pc.Returned? && w.calls[1].fp == "f" && w.calls[1].promise.Pending?
  {
    var yes := Decision(1, "f", true);
    worlds, steps := TakenOutAgain();
    worlds, steps := OneLoads(worlds, steps, true);
    worlds, steps := OneUses(worlds, steps, 0);
    var logged := worlds[|steps|].(log := [Request(1, "f"), yes], handlers := [Handler(1, true, Logged(yes, 1))]);
    worlds, steps := Extend(worlds, steps, AppendDecision(0), logged);
    worlds, steps := Extend(worlds, steps, Resolve(0), logged.(handlers := [Handler(1, true, Done)]));
  }
}
