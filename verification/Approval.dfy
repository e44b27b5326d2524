/**
 * The Owner approval service: a durable log, the calls in flight, the waiters of the running
 * process and the decision handlers, interleaved at every await, with timeouts, restarts, reads
 * that fail, and appends that fail before or after their line is in the file. A rejection nobody
 * handles may end the process, as a restart, or leave it running.
 */
module Approval {
  import opened Prelude

  /** One line of the log. A request id is random and never given out twice. */
  datatype Record = Request(id: nat, fp: string) | Decision(id: nat, fp: string, approved: bool)

  type Log = seq<Record>

  /** The promise a waiter settles. */
  datatype Promise = Pending | Released(decision: Record) | Rejected

  /** Where a call of waitForDecision has got to; reading the log and acting on it are two steps. */
  datatype Pc =
    | Entered
    | ReadFirst(seen: Log)
    | Answered                         // an earlier decision was returned
    | Appending(id: nat)               // the waiter is registered, its request is being appended
    | Written(id: nat)                 // the line is in the file, its append has not returned
    | Registered(id: nat)              // the request is in the log
    | ReadSecond(id: nat, seen: Log)
    | Returned(id: nat, seen: Log)     // the second read, which saw this, is over
    | Thrown                           // the first read or the append failed
    | Orphaned(id: nat)                // the second read failed; the waiter and its timer stay behind

  datatype Call = Call(fp: string, pc: Pc, promise: Promise)

  /** A logged decision is known by its place in the log. */
  datatype HandlerPc = Called | Loaded(seen: Log) | Writing(decision: Record, seen: Log) | Logged(decision: Record, at: nat) | Done

  /** A call of the decision handler for a request. */
  datatype Handler = Handler(id: nat, approved: bool, pc: HandlerPc)

  /**
   * `torn` is where decisions stand whose append put the line in the file and then rejected;
   * `dropped` are the calls whose waiter the timer of another call took out of the table.
   */
  datatype World = World(
    log: Log, ids: set<nat>, inFlight: map<string, nat>, waiters: map<nat, nat>, calls: seq<Call>, handlers: seq<Handler>,
    torn: set<nat>, dropped: set<nat>)

  // ---------------------------------------------------------------- reading the log

  /** The log's maps keep the last record of a fingerprint. */
  function LastRequest(log: Log, fp: string): (r: Option<Record>)
    ensures r.Some? ==> r.value in log && r.value.Request? && r.value.fp == fp
    ensures r.None? ==> forall x <- log :: !(x.Request? && x.fp == fp)
  {
    if log == [] then None
    else
      var last := log[|log| - 1];
      if last.Request? && last.fp == fp then Some(last) else LastRequest(log[..|log| - 1], fp)
  }

  function LastDecision(log: Log, fp: string): (r: Option<Record>)
    ensures r.Some? ==> r.value in log && r.value.Decision? && r.value.fp == fp
    ensures r.None? ==> forall x <- log :: !(x.Decision? && x.fp == fp)
  {
    if log == [] then None
    else
      var last := log[|log| - 1];
      if last.Decision? && last.fp == fp then Some(last) else LastDecision(log[..|log| - 1], fp)
  }

  function RequestOf(log: Log, id: nat): (r: Option<Record>)
    ensures r.Some? ==> r.value in log && r.value.Request? && r.value.id == id
  {
    if log == [] then None
    else if log[0].Request? && log[0].id == id then Some(log[0])
    else RequestOf(log[1..], id)
  }

  // ---------------------------------------------------------------- the steps

  datatype Step =
    | Arrive(fp: string)
    | TakeFirst(call: nat)
    | FirstReadFails(call: nat)
    | UseFirst(call: nat, id: nat)
    | AppendRequest(call: nat)
    | RequestLogged(call: nat)
    | AppendFails(call: nat)
    | TakeSecond(call: nat)
    | SecondReadFails(call: nat)
    | UseSecond(call: nat)
    | TimeOut(call: nat)
    | Leave(call: nat)
    | Decide(id: nat, approved: bool)
    | Load(handler: nat)
    | LoadFails(handler: nat)
    | Use(handler: nat)
    | AppendDecision(handler: nat)
    | DecisionFails(handler: nat)
    | Resolve(handler: nat)
    | Restart

  /** Such a call waits for its decision. */
  predicate Live(pc: Pc) {
    pc.Appending? || pc.Written? || pc.Registered? || pc.ReadSecond? || pc.Returned?
  }

  /** The timer of such a call runs until its promise is settled. */
  predicate HasId(pc: Pc) {
    Live(pc) || pc.Orphaned?
  }

  predicate Finished(c: Call) {
    c.pc in {Answered, Thrown} || c.pc.Orphaned? || (c.pc.Returned? && !c.promise.Pending?)
  }

  /** Whose waiter a timer takes out of the table, where that is another call's. */
  function TakenOut(w: World, i: nat, id: nat): set<nat> {
    if id in w.waiters && w.waiters[id] != i then {w.waiters[id]} else {}
  }

  function SetCall(w: World, i: nat, c: Call): World
    requires i < |w.calls|
  {
    w.(calls := w.calls[i := c])
  }

  function SetHandler(w: World, h: nat, pc: HandlerPc): World
    requires h < |w.handlers|
  {
    w.(handlers := w.handlers[h := w.handlers[h].(pc := pc)])
  }

  /** Settling through the table of waiters: whoever is registered under the id, if anybody. */
  function Settle(w: World, id: nat, promise: Promise): World {
    if id !in w.waiters || w.waiters[id] >= |w.calls| then w
    else w.(waiters := w.waiters - {id}, calls := w.calls[w.waiters[id] := w.calls[w.waiters[id]].(promise := promise)])
  }

  ghost predicate Next(w: World, step: Step, v: World) {
    match step
    case Arrive(fp) =>
      if fp in w.inFlight then v == w
      else v == w.(inFlight := w.inFlight[fp := |w.calls|], calls := w.calls + [Call(fp, Entered, Pending)])
    case TakeFirst(i) =>
      i < |w.calls| && w.calls[i].pc.Entered? && v == SetCall(w, i, w.calls[i].(pc := ReadFirst(w.log)))
    case FirstReadFails(i) =>
      i < |w.calls| && w.calls[i].pc.Entered? && v == SetCall(w, i, w.calls[i].(pc := Thrown))
    case UseFirst(i, id) =>
      && i < |w.calls| && w.calls[i].pc.ReadFirst?
      && var c := w.calls[i];
         var decided, asked := LastDecision(c.pc.seen, c.fp), LastRequest(c.pc.seen, c.fp);
         if decided.Some? then v == SetCall(w, i, c.(pc := Answered, promise := Released(decided.value)))
         else if asked.Some? then
           v == SetCall(w, i, c.(pc := Registered(asked.value.id))).(waiters := w.waiters[asked.value.id := i])
         else
           && id !in w.ids
           && v == SetCall(w, i, c.(pc := Appending(id))).(waiters := w.waiters[id := i], ids := w.ids + {id})
    case AppendRequest(i) =>
      && i < |w.calls| && w.calls[i].pc.Appending?
      && var c := w.calls[i];
         v == SetCall(w, i, c.(pc := Written(c.pc.id))).(log := w.log + [Request(c.pc.id, c.fp)])
    case RequestLogged(i) =>
      && i < |w.calls| && w.calls[i].pc.Written?
      && v == SetCall(w, i, w.calls[i].(pc := Registered(w.calls[i].pc.id)))
    case AppendFails(i) =>
      && i < |w.calls| && (w.calls[i].pc.Appending? || w.calls[i].pc.Written?)
      && var settled := Settle(w, w.calls[i].pc.id, Rejected);
         v == SetCall(settled, i, settled.calls[i].(pc := Thrown))
    case TakeSecond(i) =>
      && i < |w.calls| && w.calls[i].pc.Registered?
      && v == SetCall(w, i, w.calls[i].(pc := ReadSecond(w.calls[i].pc.id, w.log)))
    case SecondReadFails(i) =>
      && i < |w.calls| && w.calls[i].pc.Registered?
      && v == SetCall(w, i, w.calls[i].(pc := Orphaned(w.calls[i].pc.id)))
    case UseSecond(i) =>
      && i < |w.calls| && w.calls[i].pc.ReadSecond?
      && var c := w.calls[i];
         var decided := LastDecision(c.pc.seen, c.fp);
         var settled := if decided.Some? then Settle(w, c.pc.id, Released(decided.value)) else w;
         v == SetCall(settled, i, settled.calls[i].(pc := Returned(c.pc.id, c.pc.seen)))
    case TimeOut(i) =>
      && i < |w.calls| && HasId(w.calls[i].pc) && w.calls[i].promise.Pending?
      && v == SetCall(w, i, w.calls[i].(promise := Rejected)).(waiters := w.waiters - {w.calls[i].pc.id},
                                                               dropped := w.dropped + TakenOut(w, i, w.calls[i].pc.id))
    case Leave(i) =>
      && i < |w.calls| && Finished(w.calls[i])
      && var fp := w.calls[i].fp;
         v == if fp in w.inFlight && w.inFlight[fp] == i then w.(inFlight := w.inFlight - {fp}) else w
    case Decide(id, approved) => v == w.(handlers := w.handlers + [Handler(id, approved, Called)])
    case Load(h) => h < |w.handlers| && w.handlers[h].pc.Called? && v == SetHandler(w, h, Loaded(w.log))
    case LoadFails(h) => h < |w.handlers| && w.handlers[h].pc.Called? && v == SetHandler(w, h, Done)
    case Use(h) =>
      && h < |w.handlers| && w.handlers[h].pc.Loaded?
      && var seen := w.handlers[h].pc.seen;
         var asked := RequestOf(seen, w.handlers[h].id);
         if asked.None? || LastDecision(seen, asked.value.fp).Some? then v == SetHandler(w, h, Done)
         else v == SetHandler(w, h, Writing(Decision(w.handlers[h].id, asked.value.fp, w.handlers[h].approved), seen))
    case AppendDecision(h) =>
      && h < |w.handlers| && w.handlers[h].pc.Writing?
      && var decision := w.handlers[h].pc.decision;
         v == SetHandler(w, h, Logged(decision, |w.log|)).(log := w.log + [decision])
    case DecisionFails(h) =>
      && h < |w.handlers| && (w.handlers[h].pc.Writing? || w.handlers[h].pc.Logged?)
      && v == SetHandler(w, h, Done).(torn := if w.handlers[h].pc.Logged? then w.torn + {w.handlers[h].pc.at} else w.torn)
    case Resolve(h) =>
      && h < |w.handlers| && w.handlers[h].pc.Logged?
      && v == SetHandler(Settle(w, w.handlers[h].id, Released(w.handlers[h].pc.decision)), h, Done)
    case Restart => v == World(w.log, w.ids, map[], map[], [], [], w.torn, {})
  }

  // ---------------------------------------------------------------- the invariant

  ghost predicate LogOk(log: Log, ids: set<nat>) {
    && (forall r <- log :: r.id in ids)
    && (forall i, j | 0 <= i < j < |log| && log[i].Request? && log[j].Request? :: log[i].fp != log[j].fp && log[i].id != log[j].id)
    && (forall r <- log :: r.Decision? ==> Request(r.id, r.fp) in log)
  }

  predicate DecisionAt(log: Log, p: nat, fp: string) {
    p < |log| && log[p].Decision? && log[p].fp == fp
  }

  /** The decision at a place was not handed on: its handler has yet to do so, or its append rejected. */
  ghost predicate Unresolved(w: World, p: nat) {
    p in w.torn || exists h | 0 <= h < |w.handlers| :: LoggedAt(w.handlers[h], p)
  }

  predicate LoggedAt(h: Handler, p: nat) {
    h.pc.Logged? && h.pc.at == p
  }

  predicate NeedsNews(c: Call) {
    (c.pc.ReadSecond? || c.pc.Returned?) && c.promise.Pending?
  }

  /** Why a waiter may still be pending although its decision stands at `p`. */
  ghost predicate Coming(w: World, c: Call, p: nat)
    requires NeedsNews(c)
  {
    if p < |c.pc.seen| then c.pc.ReadSecond? else Unresolved(w, p)
  }

  /** The decision at `p` has reached the waiter: a handler handed it on, or the second read saw it. */
  ghost predicate Delivers(w: World, c: Call, p: nat) {
    DecisionAt(w.log, p, c.fp) && (!Unresolved(w, p) || (c.pc.Returned? && p < |c.pc.seen|))
  }

  ghost predicate PcOk(w: World, c: Call) {
    match c.pc
    case ReadFirst(seen) => seen <= w.log && (forall r <- w.log :: r.Request? && r.fp == c.fp ==> r in seen)
    case Appending(id) => id in w.ids && (forall r <- w.log :: r.id != id && !(r.Request? && r.fp == c.fp))
    case Written(id) => Request(id, c.fp) in w.log
    case Registered(id) => Request(id, c.fp) in w.log
    case ReadSecond(id, seen) => Request(id, c.fp) in w.log && seen <= w.log
    case Returned(id, seen) => Request(id, c.fp) in w.log && seen <= w.log
    case Orphaned(id) => Request(id, c.fp) in w.log
    case _ => true
  }

  predicate IsWaiter(w: World, i: nat)
    requires i < |w.calls|
  {
    HasId(w.calls[i].pc) && w.calls[i].pc.id in w.waiters && w.waiters[w.calls[i].pc.id] == i
  }

  /** A waiting call is in the table unless it was taken out, and nobody else is there under its id. */
  ghost predicate PlaceOk(w: World, i: nat)
    requires i < |w.calls|
  {
    var c := w.calls[i];
    && (Live(c.pc) && c.promise.Pending? ==> i in w.dropped || IsWaiter(w, i))
    && (Live(c.pc) && !Finished(c) && c.pc.id in w.waiters ==> IsWaiter(w, i))
    && (i in w.dropped ==> (HasId(c.pc) || c.pc.Thrown?) && !c.promise.Released?)
  }

  ghost predicate CallOk(w: World, i: nat)
    requires i < |w.calls|
  {
    var c := w.calls[i];
    && PcOk(w, c) && PlaceOk(w, i)
    && (!Finished(c) ==> c.fp in w.inFlight && w.inFlight[c.fp] == i)
    && (!HasId(c.pc) && !Finished(c) ==> c.promise.Pending?)
    && (c.promise.Released? ==> c.promise.decision in w.log && c.promise.decision.Decision? && c.promise.decision.fp == c.fp)
    && (NeedsNews(c) && i !in w.dropped ==> forall p: nat | DecisionAt(w.log, p, c.fp) :: Coming(w, c, p))
    && (HasId(c.pc) && c.promise.Released? ==> exists p: nat :: Delivers(w, c, p))
  }

  /** Calls registered under one id ask for the same thing. */
  predicate Apart(a: Call, b: Call) {
    HasId(a.pc) && HasId(b.pc) && a.pc.id == b.pc.id ==> a.fp == b.fp
  }

  ghost predicate WaiterOk(w: World, id: nat)
    requires id in w.waiters
  {
    && w.waiters[id] < |w.calls| && w.waiters[id] !in w.dropped
    && HasId(w.calls[w.waiters[id]].pc) && w.calls[w.waiters[id]].pc.id == id && w.calls[w.waiters[id]].promise.Pending?
  }

  ghost predicate HandlerOk(w: World, h: Handler) {
    match h.pc
    case Loaded(seen) => seen <= w.log
    case Writing(d, seen) => d.Decision? && d.id == h.id && Request(d.id, d.fp) in w.log
    case Logged(d, at) =>
      && d.Decision? && d.id == h.id && Request(d.id, d.fp) in w.log
      && at < |w.log| && w.log[at] == d && at !in w.torn
    case _ => true
  }

  /** No two handlers logged the same line. */
  ghost predicate OwnLines(handlers: seq<Handler>) {
    forall h, k | 0 <= h < k < |handlers| && handlers[h].pc.Logged? && handlers[k].pc.Logged? ::
      handlers[h].pc.at != handlers[k].pc.at
  }

  ghost predicate Inv(w: World) {
    && LogOk(w.log, w.ids)
    && (forall i: nat {:trigger CallOk(w, i)} | i < |w.calls| :: CallOk(w, i))
    && (forall id {:trigger WaiterOk(w, id)} | id in w.waiters :: WaiterOk(w, id))
    && (forall h <- w.handlers :: HandlerOk(w, h)) && OwnLines(w.handlers) && (forall p <- w.torn :: p < |w.log|)
    && (forall i <- w.dropped :: i < |w.calls|)
    && (forall a, b | a in w.calls && b in w.calls :: Apart(a, b))
    && (forall c <- w.calls :: HasId(c.pc) ==> c.pc.id in w.ids)
    && (forall fp <- w.inFlight :: w.inFlight[fp] < |w.calls| && w.calls[w.inFlight[fp]].fp == fp)
  }
}
