/** Every step of the approval protocol keeps its invariant, and what that means for Owners and waiters. */
module ApprovalSafety {
  import opened Prelude
  import opened Approval

  /** A new line is no news to a call: another request, or a decision not handed on. */
  ghost predicate NoNews(v: World, c: Call, p: nat)
    requires p < |v.log|
  {
    var r := v.log[p];
    && (r.Decision? ==> Unresolved(v, p)) && (r.Request? ==> r.fp != c.fp)
    && (c.pc.Appending? ==> r.id != c.pc.id)
  }

  /** A decision still to come keeps coming, and one handed on stays handed on. */
  ghost predicate SameNews(w: World, v: World, c: Call, waits: bool) {
    forall p: nat {:trigger DecisionAt(w.log, p, c.fp)} | DecisionAt(w.log, p, c.fp) ::
      && (Unresolved(v, p) ==> Unresolved(w, p))
      && (waits && NeedsNews(c) && Unresolved(w, p) ==> Unresolved(v, p))
  }

  /** What leaves a call as sound as it was. */
  lemma Untouched(w: World, v: World, i: nat)
    requires i < |w.calls| && i < |v.calls| && v.calls[i] == w.calls[i] && CallOk(w, i)
    requires w.log <= v.log && w.ids <= v.ids
    requires forall p: nat | |w.log| <= p < |v.log| :: NoNews(v, w.calls[i], p)
    requires !Finished(w.calls[i]) ==> w.calls[i].fp in v.inFlight && v.inFlight[w.calls[i].fp] == i
    requires PlaceOk(v, i) && w.dropped <= v.dropped
    requires SameNews(w, v, w.calls[i], i !in v.dropped)
    ensures CallOk(v, i)
  {
    var c := w.calls[i];
    assert forall r <- w.log :: r in v.log;
    SamePc(w, v, c);
    if NeedsNews(c) && i !in v.dropped {
      forall p: nat | DecisionAt(v.log, p, c.fp)
        ensures Coming(v, c, p)
      {
        if p < |w.log| { assert DecisionAt(w.log, p, c.fp) && Coming(w, c, p); } else { assert NoNews(v, c, p); }
      }
    }
    if HasId(c.pc) && c.promise.Released? {
      var p: nat :| Delivers(w, c, p);
      assert DecisionAt(w.log, p, c.fp) && Delivers(v, c, p);
    }
  }

  lemma SamePc(w: World, v: World, c: Call)
    requires PcOk(w, c) && w.log <= v.log && w.ids <= v.ids && forall p: nat | |w.log| <= p < |v.log| :: NoNews(v, c, p)
    ensures PcOk(v, c)
  {
    forall r | r in v.log
      ensures r in w.log || exists p: nat :: |w.log| <= p < |v.log| && v.log[p] == r && NoNews(v, c, p)
    {
      var p: nat :| p < |v.log| && v.log[p] == r;
      if p < |w.log| { assert w.log[p] == r; } else { assert NoNews(v, c, p); }
    }
    assert forall r <- w.log :: r in v.log;
  }

  lemma OneRequest(log: Log, ids: set<nat>, a: Record, b: Record)
    requires LogOk(log, ids) && a in log && b in log && a.Request? && b.Request? && (a.id == b.id || a.fp == b.fp)
    ensures a == b
  {
  }

  /** At most one call of a fingerprint is unfinished. */
  lemma OneUnfinished(w: World, i: nat, j: nat)
    requires Inv(w) && i < |w.calls| && j < |w.calls| && !Finished(w.calls[i]) && !Finished(w.calls[j])
    requires w.calls[i].fp == w.calls[j].fp
    ensures i == j
  {
    assert CallOk(w, i) && CallOk(w, j);
  }

  // ---------------------------------------------------------------- steps of a call

  ghost predicate OtherCalls(w: World, v: World, i: nat) {
    |v.calls| == |w.calls| && (forall j: nat | j < |w.calls| && j != i :: v.calls[j] == w.calls[j]) && w.ids <= v.ids
  }

  ghost predicate SameElsewhere(w: World, v: World, i: nat) {
    OtherCalls(w, v, i) && v.log == w.log
  }

  /** A call keeps its id, or takes one that only calls of its fingerprint have. */
  ghost predicate NewIdOk(w: World, v: World, i: nat)
    requires i < |w.calls| && i < |v.calls|
  {
    HasId(v.calls[i].pc) ==>
      && v.calls[i].pc.id in v.ids
      && ((HasId(w.calls[i].pc) && v.calls[i].pc.id == w.calls[i].pc.id) || forall b <- w.calls :: Apart(v.calls[i], b))
  }

  lemma OneIdApart(w: World, v: World, i: nat)
    requires Inv(w) && i < |w.calls| && OtherCalls(w, v, i) && NewIdOk(w, v, i) && v.calls[i].fp == w.calls[i].fp
    ensures forall a, b | a in v.calls && b in v.calls :: Apart(a, b)
    ensures forall c <- v.calls :: HasId(c.pc) ==> c.pc.id in v.ids
  {
    var c := v.calls[i];
    assert w.calls[i] in w.calls;
    forall b <- w.calls
      ensures Apart(c, b) && Apart(b, c)
    {
      assert Apart(w.calls[i], b);
    }
    forall a <- v.calls
      ensures a == c || a in w.calls
    {
      var j: nat :| j < |v.calls| && v.calls[j] == a;
      assert j != i ==> w.calls[j] == a;
    }
  }

  ghost predicate HandlersOk(v: World) {
    (forall h <- v.handlers :: HandlerOk(v, h)) && OwnLines(v.handlers) && (forall p <- v.torn :: p < |v.log|)
  }

  /** The table of waiters is in order but for one call. */
  ghost predicate PlacesOk(v: World, i: nat) {
    && (forall id <- v.waiters :: WaiterOk(v, id)) && (forall d <- v.dropped :: d < |v.calls|)
    && (forall j: nat {:trigger PlaceOk(v, j)} | j < |v.calls| && j != i :: PlaceOk(v, j))
  }

  /** A step that changes one call, and the table of waiters; no news to the others. */
  lemma OneCallChanges(w: World, v: World, i: nat)
    requires Inv(w) && i < |w.calls| && SameElsewhere(w, v, i) && CallOk(v, i)
    requires HandlersOk(v) && PlacesOk(v, i) && w.dropped <= v.dropped
    requires forall j: nat | j < |w.calls| && j != i :: SameNews(w, v, w.calls[j], j !in v.dropped)
    requires v.calls[i].fp == w.calls[i].fp && LogOk(v.log, v.ids)
    requires forall fp <- v.inFlight :: fp in w.inFlight && v.inFlight[fp] == w.inFlight[fp]
    requires forall fp <- w.inFlight :: fp !in v.inFlight ==> w.inFlight[fp] == i && Finished(w.calls[i])
    requires NewIdOk(w, v, i)
    ensures Inv(v)
  {
    OneIdApart(w, v, i);
    forall j: nat | j < |v.calls|
      ensures CallOk(v, j)
    {
      if j != i {
        assert CallOk(w, j) && PlaceOk(v, j);
        Untouched(w, v, j);
      }
    }
  }

  lemma OneCallKeeps(w: World, v: World, i: nat)
    requires Inv(w) && i < |w.calls| && SameElsewhere(w, v, i) && CallOk(v, i)
    requires v.handlers == w.handlers && v.torn == w.torn && PlacesOk(v, i) && w.dropped <= v.dropped
    requires v.calls[i].fp == w.calls[i].fp && LogOk(v.log, v.ids)
    requires forall fp <- v.inFlight :: fp in w.inFlight && v.inFlight[fp] == w.inFlight[fp]
    requires forall fp <- w.inFlight :: fp !in v.inFlight ==> w.inFlight[fp] == i && Finished(w.calls[i])
    requires NewIdOk(w, v, i)
    ensures Inv(v)
  {
    forall h <- v.handlers
      ensures HandlerOk(v, h)
    {
      assert HandlerOk(w, h);
    }
    forall p: nat ensures Unresolved(w, p) <==> Unresolved(v, p) {}
    OneCallChanges(w, v, i);
  }

  /** A step that leaves the table alone; the call itself stays a waiter if it was one. */
  lemma SamePlaces(w: World, v: World, i: nat)
    requires Inv(w) && i < |w.calls| && OtherCalls(w, v, i) && v.waiters == w.waiters && v.dropped == w.dropped
    requires IsWaiter(w, i) ==> HasId(v.calls[i].pc) && v.calls[i].pc.id == w.calls[i].pc.id && v.calls[i].promise == w.calls[i].promise
    ensures PlacesOk(v, i)
  {
    forall x <- v.waiters ensures WaiterOk(v, x) { assert WaiterOk(w, x); }
    forall j: nat | j < |v.calls| && j != i ensures PlaceOk(v, j) { assert CallOk(w, j); }
  }

  /** A call that got its decision still has it, however far it goes on. */
  lemma StillDelivered(w: World, v: World, i: nat)
    requires i < |w.calls| && i < |v.calls| && CallOk(w, i) && HasId(w.calls[i].pc) && w.calls[i].promise.Released?
    requires v.log == w.log && v.handlers == w.handlers && v.torn == w.torn && v.calls[i].fp == w.calls[i].fp
    requires w.calls[i].pc.Returned? ==> v.calls[i].pc == w.calls[i].pc
    ensures exists p: nat :: Delivers(v, v.calls[i], p)
  {
    var p: nat :| Delivers(w, w.calls[i], p);
    assert Unresolved(w, p) <==> Unresolved(v, p);
    assert Delivers(v, v.calls[i], p);
  }

  lemma FirstReadStep(w: World, step: Step, v: World)
    requires Inv(w) && Next(w, step, v) && (step.TakeFirst? || step.FirstReadFails?)
    ensures Inv(v)
  {
    var i := step.call;
    assert CallOk(w, i);
    SamePlaces(w, v, i);
    OneCallKeeps(w, v, i);
  }

  lemma GoOnStep(w: World, step: Step, v: World)
    requires Inv(w) && Next(w, step, v) && (step.TakeSecond? || step.RequestLogged? || step.SecondReadFails?)
    ensures Inv(v)
  {
    var i := step.call;
    assert CallOk(w, i);
    if w.calls[i].promise.Released? { StillDelivered(w, v, i); }
    SamePlaces(w, v, i);
    OneCallKeeps(w, v, i);
  }

  lemma WaiterKnown(w: World, id: nat)
    requires Inv(w) && id in w.waiters
    ensures id in w.ids && w.waiters[id] < |w.calls|
    ensures HasId(w.calls[w.waiters[id]].pc) && w.calls[w.waiters[id]].pc.id == id
  {
    assert WaiterOk(w, id);
    assert w.calls[w.waiters[id]] in w.calls;
  }

  /** A request in the log is known under its id to calls of its fingerprint only. */
  lemma LoggedId(w: World, id: nat, fp: string, b: Call)
    requires Inv(w) && Request(id, fp) in w.log && b in w.calls && HasId(b.pc) && b.pc.id == id
    ensures b.fp == fp
  {
    var j: nat :| j < |w.calls| && w.calls[j] == b;
    assert CallOk(w, j);
    if !b.pc.Appending? { OneRequest(w.log, w.ids, Request(id, fp), Request(id, b.fp)); }
  }

  /** An id that is in the log for this fingerprint, or is given out now. */
  lemma ChosenId(w: World, i: nat, id: nat, c: Call)
    requires Inv(w) && i < |w.calls| && c.fp == w.calls[i].fp && HasId(c.pc) && c.pc.id == id
    requires Request(id, c.fp) in w.log || id !in w.ids
    ensures forall b <- w.calls :: Apart(c, b)
  {
    forall b | b in w.calls && HasId(b.pc) && b.pc.id == id
      ensures b.fp == c.fp
    {
      if Request(id, c.fp) in w.log { LoggedId(w, id, c.fp, b); }
    }
  }

  /** Registering under an id takes it from nobody who waits. */
  lemma Registers(w: World, v: World, i: nat, id: nat)
    requires Inv(w) && i < |w.calls| && w.calls[i].pc.ReadFirst? && !Finished(w.calls[i])
    requires Request(id, w.calls[i].fp) in w.log || id !in w.ids
    requires SameElsewhere(w, v, i) && v.waiters == w.waiters[id := i] && v.inFlight == w.inFlight && v.dropped == w.dropped
    requires HasId(v.calls[i].pc) && v.calls[i].pc.id == id && v.calls[i].promise.Pending? && v.calls[i].fp == w.calls[i].fp
    requires id in v.ids
    ensures NewIdOk(w, v, i) && PlacesOk(v, i) && i !in w.dropped
  {
    ChosenId(w, i, id, v.calls[i]);
    assert CallOk(w, i);
    forall x <- v.waiters
      ensures WaiterOk(v, x)
    {
      if x != id {
        assert WaiterOk(w, x);
        WaiterKnown(w, x);
      }
    }
    forall j: nat | j < |v.calls| && j != i
      ensures PlaceOk(v, j)
    {
      assert CallOk(w, j);
      if Live(w.calls[j].pc) && !Finished(w.calls[j]) && w.calls[j].pc.id == id {
        assert w.calls[j] in w.calls && Apart(v.calls[i], w.calls[j]);
        OneUnfinished(w, i, j);
      }
    }
  }

  lemma AnsweredStep(w: World, v: World, i: nat, id: nat)
    requires Inv(w) && Next(w, UseFirst(i, id), v) && LastDecision(w.calls[i].pc.seen, w.calls[i].fp).Some?
    ensures Inv(v)
  {
    assert CallOk(w, i);
    SamePlaces(w, v, i);
    OneCallKeeps(w, v, i);
  }

  lemma RegisteredStep(w: World, v: World, i: nat, id: nat)
    requires Inv(w) && Next(w, UseFirst(i, id), v) && LastDecision(w.calls[i].pc.seen, w.calls[i].fp).None?
    ensures Inv(v)
  {
    var c := w.calls[i];
    assert CallOk(w, i);
    var asked := LastRequest(c.pc.seen, c.fp);
    if asked.Some? {
      assert Request(asked.value.id, c.fp) == asked.value;
      Registers(w, v, i, asked.value.id);
    } else {
      Registers(w, v, i, id);
      assert forall r <- w.log :: !(r.Request? && r.fp == c.fp);
    }
    OneCallKeeps(w, v, i);
  }

  lemma UseFirstStep(w: World, v: World, i: nat, id: nat)
    requires Inv(w) && Next(w, UseFirst(i, id), v)
    ensures Inv(v)
  {
    if LastDecision(w.calls[i].pc.seen, w.calls[i].fp).Some? { AnsweredStep(w, v, i, id); } else { RegisteredStep(w, v, i, id); }
  }

  /** Taking a call's own entry out of the table concerns nobody else. */
  lemma Frees(w: World, v: World, i: nat)
    requires Inv(w) && i < |w.calls| && HasId(w.calls[i].pc) && OtherCalls(w, v, i)
    requires w.calls[i].pc.id in w.waiters ==> w.waiters[w.calls[i].pc.id] == i
    requires v.waiters == w.waiters - {w.calls[i].pc.id} && v.dropped == w.dropped
    ensures PlacesOk(v, i)
  {
    forall x <- v.waiters
      ensures WaiterOk(v, x)
    {
      assert WaiterOk(w, x);
    }
    forall j: nat | j < |v.calls| && j != i
      ensures PlaceOk(v, j)
    {
      assert CallOk(w, j);
    }
  }

  /** What settling through the table of waiters does for a call that is still unfinished. */
  lemma SettlesItself(w: World, i: nat, promise: Promise)
    requires Inv(w) && i < |w.calls| && Live(w.calls[i].pc) && !Finished(w.calls[i])
    ensures var s := Settle(w, w.calls[i].pc.id, promise);
            && s.waiters == w.waiters - {w.calls[i].pc.id} && s.log == w.log && s.ids == w.ids
            && s.handlers == w.handlers && s.inFlight == w.inFlight && s.torn == w.torn && s.dropped == w.dropped
            && s.calls == w.calls[i := if IsWaiter(w, i) then w.calls[i].(promise := promise) else w.calls[i]]
    ensures IsWaiter(w, i) ==> w.calls[i].promise.Pending? && i !in w.dropped
    ensures w.calls[i].pc.id in w.waiters ==> w.waiters[w.calls[i].pc.id] == i
  {
    var id := w.calls[i].pc.id;
    assert CallOk(w, i);
    if id in w.waiters {
      assert WaiterOk(w, id);
    } else {
      assert w.calls == w.calls[i := w.calls[i]];
    }
  }

  lemma AppendFailsStep(w: World, v: World, i: nat)
    requires Inv(w) && Next(w, AppendFails(i), v)
    ensures Inv(v)
  {
    assert CallOk(w, i);
    SettlesItself(w, i, Rejected);
    Frees(w, v, i);
    OneCallKeeps(w, v, i);
  }

  /** A second read that sees no decision settles nothing. */
  lemma NothingReadStep(w: World, v: World, i: nat)
    requires Inv(w) && Next(w, UseSecond(i), v) && LastDecision(w.calls[i].pc.seen, w.calls[i].fp).None?
    ensures Inv(v)
  {
    var c := w.calls[i];
    assert CallOk(w, i);
    if c.promise.Released? { StillDelivered(w, v, i); }
    if NeedsNews(v.calls[i]) && i !in v.dropped {
      forall p: nat | DecisionAt(v.log, p, c.fp)
        ensures Coming(v, v.calls[i], p)
      {
        assert DecisionAt(w.log, p, c.fp) && Coming(w, c, p);
        assert Unresolved(w, p) <==> Unresolved(v, p);
      }
    }
    SamePlaces(w, v, i);
    OneCallKeeps(w, v, i);
  }

  lemma DecisionReadStep(w: World, v: World, i: nat)
    requires Inv(w) && Next(w, UseSecond(i), v) && LastDecision(w.calls[i].pc.seen, w.calls[i].fp).Some?
    ensures Inv(v)
  {
    var c := w.calls[i];
    assert CallOk(w, i);
    var decision := LastDecision(c.pc.seen, c.fp).value;
    SettlesItself(w, i, Released(decision));
    Frees(w, v, i);
    var p: nat :| p < |c.pc.seen| && c.pc.seen[p] == decision;
    assert v.log[p] == decision;
    assert Delivers(v, v.calls[i], p);
    OneCallKeeps(w, v, i);
  }

  lemma UseSecondStep(w: World, v: World, i: nat)
    requires Inv(w) && Next(w, UseSecond(i), v)
    ensures Inv(v)
  {
    if LastDecision(w.calls[i].pc.seen, w.calls[i].fp).Some? { DecisionReadStep(w, v, i); } else { NothingReadStep(w, v, i); }
  }

  /** The timer of a waiting call takes out its own entry; that of an orphan may take out another's. */
  lemma TimeOutStep(w: World, v: World, i: nat)
    requires Inv(w) && Next(w, TimeOut(i), v)
    ensures Inv(v)
  {
    assert CallOk(w, i);
    if TakenOut(w, i, w.calls[i].pc.id) == {} {
      Frees(w, v, i);
    } else {
      TakesOut(w, v, i);
    }
    OneCallKeeps(w, v, i);
  }

  lemma TakesOut(w: World, v: World, i: nat)
    requires Inv(w) && Next(w, TimeOut(i), v) && TakenOut(w, i, w.calls[i].pc.id) != {}
    ensures PlacesOk(v, i) && w.calls[i].pc.Orphaned?
  {
    var id := w.calls[i].pc.id;
    assert WaiterOk(w, id) && CallOk(w, i);
    forall x <- v.waiters
      ensures WaiterOk(v, x)
    {
      assert WaiterOk(w, x);
    }
    forall j: nat | j < |v.calls| && j != i
      ensures PlaceOk(v, j)
    {
      assert CallOk(w, j);
    }
  }

  lemma LeaveStep(w: World, v: World, i: nat)
    requires Inv(w) && Next(w, Leave(i), v)
    ensures Inv(v)
  {
    assert CallOk(w, i);
    if HasId(w.calls[i].pc) && w.calls[i].promise.Released? { StillDelivered(w, v, i); }
    SamePlaces(w, v, i);
    OneCallKeeps(w, v, i);
  }

  // ---------------------------------------------------------------- new lines in the log

  lemma LogGrows(log: Log, ids: set<nat>, r: Record)
    requires LogOk(log, ids) && r.id in ids
    requires r.Request? ==> forall x <- log :: x.Request? ==> x.fp != r.fp && x.id != r.id
    requires r.Decision? ==> Request(r.id, r.fp) in log
    ensures LogOk(log + [r], ids)
  {
    var more := log + [r];
    forall i, j | 0 <= i < j < |more| && more[i].Request? && more[j].Request?
      ensures more[i].fp != more[j].fp && more[i].id != more[j].id
    {
      if j == |log| { assert more[i] in log; }
    }
  }

  /** A request is no news to other calls: an unfinished one asks for something else. */
  lemma ForeignRequest(w: World, v: World, i: nat, j: nat)
    requires Inv(w) && Next(w, AppendRequest(i), v) && j < |w.calls| && i != j
    ensures CallOk(v, j)
  {
    assert CallOk(w, j);
    assert w.calls[j] in w.calls && w.calls[i] in w.calls;
    assert Apart(w.calls[i], w.calls[j]);
    if !Finished(w.calls[j]) && w.calls[j].fp == w.calls[i].fp { OneUnfinished(w, i, j); }
    forall p: nat ensures Unresolved(w, p) <==> Unresolved(v, p) {}
    if NeedsNews(w.calls[j]) && j !in w.dropped {
      forall p: nat | DecisionAt(v.log, p, w.calls[j].fp) ensures Coming(v, v.calls[j], p) { assert DecisionAt(w.log, p, w.calls[j].fp); }
    }
    if w.calls[j].promise.Released? && HasId(w.calls[j].pc) {
      var p: nat :| Delivers(w, w.calls[j], p);
      assert Delivers(v, v.calls[j], p);
    }
  }

  lemma AppendRequestStep(w: World, v: World, i: nat)
    requires Inv(w) && Next(w, AppendRequest(i), v)
    ensures Inv(v)
  {
    var c := w.calls[i];
    var r := Request(c.pc.id, c.fp);
    assert CallOk(w, i);
    LogGrows(w.log, w.ids, r);
    OneIdApart(w, v, i);
    forall x <- v.waiters ensures WaiterOk(v, x) { assert WaiterOk(w, x); }
    forall j: nat | j < |v.calls|
      ensures CallOk(v, j)
    {
      assert CallOk(w, j);
      if j != i { ForeignRequest(w, v, i, j); }
    }
  }

  // ---------------------------------------------------------------- steps of a handler

  ghost predicate StillUnresolved(w: World, v: World) {
    forall p: nat {:trigger Unresolved(v, p)} | p < |w.log| :: Unresolved(w, p) <==> Unresolved(v, p)
  }

  ghost predicate SameCalls(w: World, v: World) {
    v.calls == w.calls && v.waiters == w.waiters && v.inFlight == w.inFlight && v.ids == w.ids && v.dropped == w.dropped
  }

  /** A step that leaves the calls and waiters alone, and adds at most a decision not yet handed on. */
  lemma HandlerKeeps(w: World, v: World)
    requires Inv(w) && SameCalls(w, v) && StillUnresolved(w, v) && HandlersOk(v)
    requires
      || v.log == w.log
      || exists d :: v.log == w.log + [d] && d.Decision? && Request(d.id, d.fp) in w.log && Unresolved(v, |w.log|)
    ensures Inv(v)
  {
    if v.log != w.log {
      var d :| v.log == w.log + [d] && d.Decision? && Request(d.id, d.fp) in w.log && Unresolved(v, |w.log|);
      LogGrows(w.log, w.ids, d);
    }
    forall i: nat | i < |v.calls|
      ensures CallOk(v, i)
    {
      assert CallOk(w, i);
      forall p: nat | |w.log| <= p < |v.log|
        ensures NoNews(v, w.calls[i], p)
      {
        var r := v.log[p];
        if w.calls[i].pc.Appending? { assert Request(r.id, r.fp) in w.log; }
      }
      Untouched(w, v, i);
    }
    forall id <- v.waiters ensures WaiterOk(v, id) { assert WaiterOk(w, id); }
  }

  /** One handler moves on: it logs at the end of the log, or is known to have failed after logging. */
  ghost predicate HandlerMoves(w: World, v: World, h: nat) {
    && h < |w.handlers| && h < |v.handlers| && v.handlers == w.handlers[h := w.handlers[h].(pc := v.handlers[h].pc)]
    && (v.handlers[h].pc.Logged? ==> v.handlers[h].pc.at == |w.log|)
    && v.torn == if w.handlers[h].pc.Logged? then w.torn + {w.handlers[h].pc.at} else w.torn
  }

  lemma MovesUnresolved(w: World, v: World, h: nat)
    requires HandlerMoves(w, v, h)
    ensures StillUnresolved(w, v)
  {
    forall p: nat | p < |w.log|
      ensures Unresolved(w, p) <==> Unresolved(v, p)
    {
      if k :| 0 <= k < |w.handlers| && LoggedAt(w.handlers[k], p) { assert k == h || LoggedAt(v.handlers[k], p); }
      if k :| 0 <= k < |v.handlers| && LoggedAt(v.handlers[k], p) { assert LoggedAt(w.handlers[k], p); }
    }
  }

  lemma MovesHandlers(w: World, v: World, h: nat)
    requires HandlerMoves(w, v, h) && HandlersOk(w)
    requires w.log <= v.log && HandlerOk(v, v.handlers[h])
    ensures HandlersOk(v)
  {
    assert forall r <- w.log :: r in v.log;
    assert w.handlers[h] in w.handlers;
    assert forall k: nat | k < |w.handlers| :: HandlerOk(w, w.handlers[k]);
    forall x <- v.handlers
      ensures HandlerOk(v, x)
    {
      var k: nat :| k < |v.handlers| && v.handlers[k] == x;
      if k != h {
        assert v.handlers[k] == w.handlers[k] && HandlerOk(w, w.handlers[k]);
        if x.pc.Logged? && w.handlers[h].pc.Logged? { assert x.pc.at != w.handlers[h].pc.at; }
      }
    }
  }

  lemma HandlerStep(w: World, step: Step, v: World)
    requires Inv(w) && Next(w, step, v) && (step.Load? || step.LoadFails? || step.Use? || step.DecisionFails? || step.AppendDecision?)
    ensures Inv(v)
  {
    var h := step.handler;
    assert w.handlers[h] in w.handlers && HandlerOk(w, w.handlers[h]);
    assert HandlerMoves(w, v, h);
    MovesUnresolved(w, v, h);
    if step.AppendDecision? {
      assert LoggedAt(v.handlers[h], |w.log|);
      assert forall p <- w.torn :: p < |w.log|;
    }
    MovesHandlers(w, v, h);
    HandlerKeeps(w, v);
  }

  lemma DecideStep(w: World, step: Step, v: World)
    requires Inv(w) && Next(w, step, v) && step.Decide?
    ensures Inv(v)
  {
    forall p: nat | p < |w.log|
      ensures Unresolved(w, p) <==> Unresolved(v, p)
    {
      if k :| 0 <= k < |w.handlers| && LoggedAt(w.handlers[k], p) { assert LoggedAt(v.handlers[k], p); }
      if k :| 0 <= k < |v.handlers| && LoggedAt(v.handlers[k], p) { assert LoggedAt(w.handlers[k], p); }
    }
    forall x <- v.handlers ensures HandlerOk(v, x) { if x in w.handlers { assert HandlerOk(w, x); } }
    HandlerKeeps(w, v);
  }

  /** The waiter a handler settles is the one that waits for its decision. */
  lemma ResolveStep(w: World, v: World, h: nat)
    requires Inv(w) && Next(w, Resolve(h), v)
    ensures Inv(v)
  {
    assert w.handlers[h] in w.handlers;
    var d := w.handlers[h].pc.decision;
    assert HandlerOk(w, w.handlers[h]);
    HandedOn(w, v, h);
    if d.id in w.waiters {
      var i := w.waiters[d.id];
      WaiterKnown(w, d.id);
      assert WaiterOk(w, d.id) && CallOk(w, i);
      LoggedId(w, d.id, d.fp, w.calls[i]);
      Frees(w, v, i);
      assert DecisionAt(v.log, w.handlers[h].pc.at, d.fp) && Delivers(v, v.calls[i], w.handlers[h].pc.at);
      OneCallChanges(w, v, i);
    } else {
      Unannounces(w, v, h);
    }
  }

  /** Once a handler is done, its line alone counts as handed on; nobody else waits for it. */
  lemma HandedOn(w: World, v: World, h: nat)
    requires Inv(w) && h < |w.handlers| && w.handlers[h].pc.Logged? && v.torn == w.torn && v.log == w.log
    requires v.handlers == w.handlers[h := w.handlers[h].(pc := Done)]
    ensures HandlersOk(v) && !Unresolved(v, w.handlers[h].pc.at)
    ensures forall p: nat | p != w.handlers[h].pc.at :: Unresolved(v, p) <==> Unresolved(w, p)
    ensures var id := w.handlers[h].pc.decision.id;
            forall j: nat | j < |w.calls| && (id in w.waiters ==> w.waiters[id] != j) :: SameNews(w, v, w.calls[j], j !in w.dropped)
  {
    var at, d := w.handlers[h].pc.at, w.handlers[h].pc.decision;
    assert w.handlers[h] in w.handlers && HandlerOk(w, w.handlers[h]);
    forall x <- v.handlers
      ensures HandlerOk(v, x)
    {
      var k: nat :| k < |v.handlers| && v.handlers[k] == x;
      if k != h { assert w.handlers[k] in w.handlers; }
    }
    forall p: nat | p != at
      ensures Unresolved(v, p) <==> Unresolved(w, p)
    {
      if k :| 0 <= k < |w.handlers| && LoggedAt(w.handlers[k], p) { assert LoggedAt(v.handlers[k], p); }
      if k :| 0 <= k < |v.handlers| && LoggedAt(v.handlers[k], p) { assert LoggedAt(w.handlers[k], p); }
    }
    forall j: nat | j < |w.calls| && (d.id in w.waiters ==> w.waiters[d.id] != j)
      ensures SameNews(w, v, w.calls[j], j !in w.dropped)
    {
      if NeedsNews(w.calls[j]) && j !in w.dropped { OnlyWaiter(w, j, d); }
    }
  }

  lemma Unannounces(w: World, v: World, h: nat)
    requires Inv(w) && h < |w.handlers| && w.handlers[h].pc.Logged? && w.handlers[h].pc.decision.id !in w.waiters
    requires v == SetHandler(w, h, Done)
    ensures Inv(v)
  {
    HandedOn(w, v, h);
    forall i: nat | i < |v.calls|
      ensures CallOk(v, i)
    {
      assert CallOk(w, i);
      Untouched(w, v, i);
    }
    forall id <- v.waiters ensures WaiterOk(v, id) { assert WaiterOk(w, id); }
  }

  /** A call that has yet to hear of a decision is registered under its id. */
  lemma OnlyWaiter(w: World, i: nat, d: Record)
    requires Inv(w) && i < |w.calls| && NeedsNews(w.calls[i]) && i !in w.dropped && Request(d.id, d.fp) in w.log
    requires d.id in w.waiters ==> w.waiters[d.id] != i
    ensures d.fp != w.calls[i].fp
  {
    assert CallOk(w, i);
    var mine := Request(w.calls[i].pc.id, w.calls[i].fp);
    if d.fp == mine.fp { OneRequest(w.log, w.ids, mine, Request(d.id, d.fp)); }
  }

  lemma ArriveStep(w: World, v: World, fp: string)
    requires Inv(w) && Next(w, Arrive(fp), v)
    ensures Inv(v)
  {
    if fp !in w.inFlight {
      forall j: nat | j < |v.calls|
        ensures CallOk(v, j)
      {
        if j < |w.calls| {
          assert CallOk(w, j);
          Untouched(w, v, j);
        }
      }
      forall id <- v.waiters ensures WaiterOk(v, id) { assert WaiterOk(w, id); }
      forall h <- v.handlers ensures HandlerOk(v, h) { assert HandlerOk(w, h); }
    }
  }

  lemma StepKeeps(w: World, step: Step, v: World)
    requires Inv(w) && Next(w, step, v)
    ensures Inv(v) && w.log <= v.log
  {
    match step {
      case Arrive(fp) => ArriveStep(w, v, fp);
      case TakeFirst(_) => FirstReadStep(w, step, v);
      case FirstReadFails(_) => FirstReadStep(w, step, v);
      case TakeSecond(_) => GoOnStep(w, step, v);
      case SecondReadFails(_) => GoOnStep(w, step, v);
      case RequestLogged(_) => GoOnStep(w, step, v);
      case UseFirst(i, id) => UseFirstStep(w, v, i, id);
      case AppendRequest(i) => AppendRequestStep(w, v, i);
      case AppendFails(i) => AppendFailsStep(w, v, i);
      case UseSecond(i) => UseSecondStep(w, v, i);
      case TimeOut(i) => TimeOutStep(w, v, i);
      case Leave(i) => LeaveStep(w, v, i);
      case Decide(_, _) => DecideStep(w, step, v);
      case Resolve(h) => ResolveStep(w, v, h);
      case Restart =>
      case _ => HandlerStep(w, step, v);
    }
    LogOnlyGrows(w, step, v);
  }

  /** How a call ends: with the decision its first read saw, or thrown, its waiter rejected if it had one. */
  lemma CallOutcomes(w: World, step: Step, v: World)
    requires Inv(w) && Next(w, step, v)
    ensures step.FirstReadFails? ==> v.calls[step.call].pc == Thrown && v.calls[step.call].promise == w.calls[step.call].promise
    ensures step.UseFirst? ==>
              var decided := LastDecision(w.calls[step.call].pc.seen, w.calls[step.call].fp);
              && (v.calls[step.call].pc == Answered <==> decided.Some?) && v.calls[step.call].pc != Thrown
              && (decided.Some? ==> v.calls[step.call].promise == Released(decided.value))
    ensures step.AppendFails? ==> v.calls[step.call].pc == Thrown && (IsWaiter(w, step.call) ==> v.calls[step.call].promise == Rejected)
    ensures step.TimeOut? ==> v.calls[step.call].promise == Rejected && v.calls[step.call].pc == w.calls[step.call].pc
  {
    if step.AppendFails? {
      assert CallOk(w, step.call);
      SettlesItself(w, step.call, Rejected);
    }
  }

  /** How a handler ends: its read failed, there was nothing to decide, its append rejected, or it has resolved. */
  lemma HandlerOutcomes(w: World, step: Step, v: World)
    requires Next(w, step, v)
    ensures step.LoadFails? || step.DecisionFails? || step.Resolve? ==> v.handlers[step.handler].pc == Done
    ensures step.LoadFails? ==> w.handlers[step.handler].pc == Called
    ensures step.DecisionFails? ==> w.handlers[step.handler].pc.Writing? || w.handlers[step.handler].pc.Logged?
    ensures step.Use? ==>
              var handler := w.handlers[step.handler];
              var asked := RequestOf(handler.pc.seen, handler.id);
              && (v.handlers[step.handler].pc == Done <==> asked.None? || LastDecision(handler.pc.seen, asked.value.fp).Some?)
              && (v.handlers[step.handler].pc != Done ==>
                    v.handlers[step.handler].pc == Writing(Decision(handler.id, asked.value.fp, handler.approved), handler.pc.seen))
  {
  }

  lemma LogOnlyGrows(w: World, step: Step, v: World)
    requires Next(w, step, v)
    ensures w.log <= v.log
  {
  }
}
