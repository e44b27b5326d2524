/**
 * The wrapper that makes a kernel's outcome subject to the contract evaluation: it holds back the
 * terminal event, evaluates, and then appends the verdict and one terminal event.
 */
module EvalWrapper {
  import opened Prelude
  import opened EventStore
  import opened RunStatus

  datatype Ending = Returns(status: Status) | Throws(code: string)

  /** What a kernel does from the outside: the events it emits, and how it ends. */
  datatype Kernel = Kernel(emissions: seq<Event>, ending: Ending)

  /** Evaluating may throw (None); otherwise it says whether the contract passed. */
  type Judge = seq<Event> -> Option<bool>

  /** The event types this wrapper holds back, suspensions included. */
  predicate IsHeld(kind: EventType) {
    kind in {RunCompleted, RunAwaitingInput, RunAwaitingApproval, RunFailed, RunTimedOut, RunCancelled}
  }

  /** The sink's contract: events are numbered without gaps and nothing follows a final one. */
  function Offer(stream: seq<Event>, event: Event): Result<seq<Event>, StoreError> {
    if event.number != |stream| then Err(SequenceConflict)
    else if HasFinal(stream) then Err(TerminalConflict)
    else Ok(stream + [event])
  }

  datatype Held = Held(stream: seq<Event>, terminal: Option<Event>, failure: Option<string>)

  /** The kernel's events as they reach the sink; a refused append ends the kernel. */
  function Emit(held: Held, emissions: seq<Event>): Held
    decreases |emissions|
  {
    if emissions == [] || held.failure.Some? then held
    else if IsHeld(emissions[0].kind) then Emit(held.(terminal := Some(emissions[0])), emissions[1..])
    else
      match Offer(held.stream, emissions[0])
      case Ok(stream) => Emit(held.(stream := stream), emissions[1..])
      case Err(_) => held.(failure := Some("append_refused"))
  }

  function Ended(held: Held, ending: Ending): Held {
    if held.failure.None? && ending.Throws? then held.(failure := Some(ending.code)) else held
  }

  function Outcome(held: Held, ending: Ending): Status {
    if held.failure.None? && ending.Returns? then ending.status else Failed
  }

  function Evidence(held: Held): seq<Event> {
    held.stream + if held.terminal.Some? then [held.terminal.value] else []
  }

  function Passed(held: Held, judge: Judge): bool {
    judge(Evidence(held)) == Some(true)
  }

  function NoLinks(rest: string): Payload {
    Payload(None, None, None, rest)
  }

  function VerdictEvent(scope: Scope, runId: string, id: string, number: nat, at: string, passed: bool): Event {
    Event(id, scope, runId, number, Other("run.eval.contract"), at, NoLinks(if passed then "passed" else "failed"))
  }

  function Rewritten(terminal: Event, number: nat, passed: bool): Event {
    if passed then terminal.(number := number)
    else terminal.(number := number, kind := RunFailed, payload := NoLinks("contract_eval_failed"))
  }

  datatype Command = Command(scope: Scope, runId: string, verdictId: string, failureId: string, at: string)

  function MaxNext(events: seq<Event>): int {
    if events == [] then 0
    else
      var next := MaxNext(events[..|events| - 1]);
      if events[|events| - 1].number + 1 > next then events[|events| - 1].number + 1 else next
  }

  function TerminalToAppend(command: Command, held: Held, number: nat, passed: bool): Option<Event> {
    match held.terminal
    case Some(terminal) => Some(Rewritten(terminal, number, passed))
    case None =>
      match held.failure
      case Some(code) => Some(Event(command.failureId, command.scope, command.runId, number, RunFailed, command.at, NoLinks(code)))
      case None => None
  }

  datatype Finish = Finish(stream: seq<Event>, status: Status)

  /** The verdict, and the one terminal event, once the kernel has ended. */
  function Close(held: Held, command: Command, ending: Ending, judge: Judge): Result<Finish, StoreError> {
    var passed := Passed(held, judge);
    var next := MaxNext(held.stream);
    if next < 0 then Err(SequenceConflict)
    else
      var evaluated :- Offer(held.stream, VerdictEvent(command.scope, command.runId, command.verdictId, next, command.at, passed));
      var status := if passed then Outcome(held, ending) else Failed;
      match TerminalToAppend(command, held, next + 1, passed)
      case None => Ok(Finish(evaluated, status))
      case Some(terminal) =>
        var finished :- Offer(evaluated, terminal);
        Ok(Finish(finished, status))
  }

  /** What has reached the sink, what is held back and whether the kernel failed, once it has ended. */
  function HeldBy(stream: seq<Event>, kernel: Kernel): Held {
    Ended(Emit(Held(stream, None, None), kernel.emissions), kernel.ending)
  }

  /** What the wrapped start leaves in the stream and returns. */
  function Start(stream: seq<Event>, command: Command, kernel: Kernel, judge: Judge): Result<Finish, StoreError> {
    Close(HeldBy(stream, kernel), command, kernel.ending, judge)
  }

  // ---------------------------------------------------------------- the wrapper as it runs

  class EventSink {
    var events: seq<Event>

    constructor (events: seq<Event>)
      ensures this.events == events
    {
      this.events := events;
    }

    method Append(event: Event) returns (r: Result<(), StoreError>)
      modifies this
      ensures match Offer(old(events), event)
              case Ok(stream) => r == Ok(()) && events == stream
              case Err(error) => r == Err(error) && events == old(events)
    {
      if event.number != |events| { return Err(SequenceConflict); }
      if HasFinal(events) { return Err(TerminalConflict); }
      events := events + [event];
      return Ok(());
    }
  }

  method WithContractEval(sink: EventSink, command: Command, kernel: Kernel, judge: Judge)
    returns (r: Result<Status, StoreError>)
    modifies sink
    ensures match Start(old(sink.events), command, kernel, judge)
            case Ok(finish) => r == Ok(finish.status) && sink.events == finish.stream
            case Err(error) => r == Err(error)
  {
    ghost var start := Held(sink.events, None, None);
    var terminalEvent: Option<Event>, failureCode: Option<string> := None, None;
    var i := 0;
    assert kernel.emissions[0..] == kernel.emissions;
    while i < |kernel.emissions| && failureCode.None?
      invariant 0 <= i <= |kernel.emissions|
      invariant Emit(Held(sink.events, terminalEvent, failureCode), kernel.emissions[i..]) == Emit(start, kernel.emissions)
    {
      var event := kernel.emissions[i];
      assert kernel.emissions[i..][1..] == kernel.emissions[i + 1..];
      if IsHeld(event.kind) {
        terminalEvent := Some(event);
      } else {
        var appended := sink.Append(event);
        if appended.Err? { failureCode := Some("append_refused"); }
      }
      i := i + 1;
    }
    var outcome := Failed;
    if failureCode.None? {
      match kernel.ending {
        case Returns(status) => outcome := status;
        case Throws(code) => failureCode := Some(code);
      }
    }
    ghost var held := Held(sink.events, terminalEvent, failureCode);
    assert held == Ended(Emit(start, kernel.emissions), kernel.ending);
    var events := sink.events;
    var passed := judge(events + if terminalEvent.Some? then [terminalEvent.value] else []) == Some(true);
    var next := MaxNext(events);
    if next < 0 { return Err(SequenceConflict); }
    var _ :- sink.Append(VerdictEvent(command.scope, command.runId, command.verdictId, next, command.at, passed));
    if terminalEvent.Some? {
      var _ :- sink.Append(Rewritten(terminalEvent.value, next + 1, passed));
    } else if failureCode.Some? {
      var _ :- sink.Append(Event(command.failureId, command.scope, command.runId, next + 1, RunFailed, command.at,
                                 NoLinks(failureCode.value)));
    }
    return Ok(if passed then outcome else Failed);
  }

  // ---------------------------------------------------------------- what the wrapper adds

  ghost predicate Numbered(events: seq<Event>) {
    forall i | 0 <= i < |events| :: events[i].number == i
  }

  predicate NoFinal(events: seq<Event>) {
    forall e <- events :: !IsFinal(e.kind)
  }

  /** The events of the kernel that are not held back. */
  function PassedOn(emissions: seq<Event>): seq<Event> {
    if emissions == [] then []
    else (if IsHeld(emissions[0].kind) then [] else [emissions[0]]) + PassedOn(emissions[1..])
  }

  function LastHeld(held: Option<Event>, emissions: seq<Event>): Option<Event>
    decreases |emissions|
  {
    if emissions == [] then held
    else LastHeld(if IsHeld(emissions[0].kind) then Some(emissions[0]) else held, emissions[1..])
  }

  lemma {:induction false} EmitsAll(stream: seq<Event>, terminal: Option<Event>, emissions: seq<Event>)
    requires NoFinal(stream) && Numbered(stream + PassedOn(emissions))
    ensures Emit(Held(stream, terminal, None), emissions) == Held(stream + PassedOn(emissions), LastHeld(terminal, emissions), None)
    ensures NoFinal(stream + PassedOn(emissions))
    decreases |emissions|
  {
    if emissions == [] {
      assert stream + [] == stream;
    } else if IsHeld(emissions[0].kind) {
      assert PassedOn(emissions) == PassedOn(emissions[1..]);
      EmitsAll(stream, Some(emissions[0]), emissions[1..]);
    } else {
      var more := stream + [emissions[0]];
      assert stream + PassedOn(emissions) == more + PassedOn(emissions[1..]);
      assert (more + PassedOn(emissions[1..]))[|stream|] == emissions[0];
      EmitsAll(more, terminal, emissions[1..]);
    }
  }

  lemma {:induction false} NextIsLength(events: seq<Event>)
    requires Numbered(events)
    ensures MaxNext(events) == |events|
  {
    if events != [] { NextIsLength(events[..|events| - 1]); }
  }

  lemma CloseAdds(held: Held, command: Command, ending: Ending, judge: Judge)
    requires NoFinal(held.stream) && Numbered(held.stream)
    ensures var body, passed := held.stream, Passed(held, judge);
            var terminal := TerminalToAppend(command, held, |body| + 1, passed);
            var r := Close(held, command, ending, judge);
            && r.Ok? && Numbered(r.value.stream)
            && r.value.stream == body + [VerdictEvent(command.scope, command.runId, command.verdictId, |body|, command.at, passed)]
                                      + (if terminal.Some? then [terminal.value] else [])
            && r.value.status == (if passed then Outcome(held, ending) else Failed)
  {
    NextIsLength(held.stream);
  }

  /**
   * A kernel whose own numbering is in order leaves its non-terminal events, then the verdict,
   * then at most one terminal event with the next number, whether it returns or throws.
   */
  lemma WrapperAdds(stream: seq<Event>, command: Command, kernel: Kernel, judge: Judge)
    requires NoFinal(stream) && Numbered(stream + PassedOn(kernel.emissions))
    ensures var body := stream + PassedOn(kernel.emissions);
            var held := Ended(Held(body, LastHeld(None, kernel.emissions), None), kernel.ending);
            var passed := Passed(held, judge);
            var terminal := TerminalToAppend(command, held, |body| + 1, passed);
            var r := Start(stream, command, kernel, judge);
            && r.Ok? && NoFinal(body)
            && r.value.stream == body + [VerdictEvent(command.scope, command.runId, command.verdictId, |body|, command.at, passed)]
                                      + (if terminal.Some? then [terminal.value] else [])
            && r.value.status == (if passed then Outcome(held, kernel.ending) else Failed)
            && Numbered(r.value.stream)
  {
    var body := stream + PassedOn(kernel.emissions);
    EmitsAll(stream, None, kernel.emissions);
    CloseAdds(Ended(Held(body, LastHeld(None, kernel.emissions), None), kernel.ending), command, kernel.ending, judge);
  }

  /**
   * A kernel that emits a terminal event and returns its status: the stream gains that event,
   * renumbered, if the contract passed and a failure in its place otherwise; and the status
   * returned is the status the stream then reads as.
   */
  lemma WrappedKernel(stream: seq<Event>, command: Command, kernel: Kernel, judge: Judge, terminal: Event)
    requires NoFinal(stream) && Numbered(stream + PassedOn(kernel.emissions))
    requires LastHeld(None, kernel.emissions) == Some(terminal) && IsHeld(terminal.kind)
    requires kernel.ending == Returns(TerminalOutcome(terminal.kind).value)
    ensures var body := stream + PassedOn(kernel.emissions);
            var passed := judge(body + [terminal]) == Some(true);
            var verdict := VerdictEvent(command.scope, command.runId, command.verdictId, |body|, command.at, passed);
            var last := Rewritten(terminal, |body| + 1, passed);
            var r := Start(stream, command, kernel, judge);
            && r == Ok(Finish(body + [verdict] + [last], TerminalOutcome(last.kind).value))
            && last.kind == (if passed then terminal.kind else RunFailed)
            && Get(r.value.stream) == r.value.status
  {
    var body := stream + PassedOn(kernel.emissions);
    WrapperAdds(stream, command, kernel, judge);
    var passed := judge(body + [terminal]) == Some(true);
    var verdict := VerdictEvent(command.scope, command.runId, command.verdictId, |body|, command.at, passed);
    EndsWith(Scan(Queued, None), body + [verdict], Rewritten(terminal, |body| + 1, passed));
  }

  lemma {:induction false} VerdictChangesNothing(scan: Scan, events: seq<Event>, verdict: Event)
    requires verdict.kind == Other("run.eval.contract")
    ensures StatusFrom(scan, events + [verdict]) == StatusFrom(scan, events)
    decreases |events|
  {
    if events == [] {
      assert events + [verdict] == [verdict];
    } else {
      assert (events + [verdict])[1..] == events[1..] + [verdict];
      var kind := events[0].kind;
      var next := match TerminalOutcome(kind)
                  case Some(outcome) => scan.(suspended := Some(outcome))
                  case None => if Runs(kind) then Scan(Running, None) else scan;
      if !IsFinal(kind) { VerdictChangesNothing(next, events[1..], verdict); }
    }
  }

  /** Whatever a kernel emits, only events in order reach the sink, none of them final, and what is held is terminal. */
  ghost predicate InOrder(held: Held) {
    Numbered(held.stream) && NoFinal(held.stream) && (held.terminal.Some? ==> IsHeld(held.terminal.value.kind))
  }

  lemma {:induction false} EmitKeepsOrder(held: Held, emissions: seq<Event>)
    requires InOrder(held)
    ensures InOrder(Emit(held, emissions)) && held.stream <= Emit(held, emissions).stream
    decreases |emissions|
  {
    if emissions != [] && held.failure.None? {
      if IsHeld(emissions[0].kind) {
        EmitKeepsOrder(held.(terminal := Some(emissions[0])), emissions[1..]);
      } else if Offer(held.stream, emissions[0]).Ok? {
        EmitKeepsOrder(held.(stream := held.stream + [emissions[0]]), emissions[1..]);
      }
    }
  }

  /** A stream with a final event takes nothing any more: the start is refused, whatever the kernel does. */
  lemma {:induction false} EmitAfterFinal(held: Held, emissions: seq<Event>)
    requires HasFinal(held.stream)
    ensures Emit(held, emissions).stream == held.stream
    decreases |emissions|
  {
    if emissions != [] && held.failure.None? && IsHeld(emissions[0].kind) {
      EmitAfterFinal(held.(terminal := Some(emissions[0])), emissions[1..]);
    }
  }

  lemma {:induction false} StartsOnOpenStreams(stream: seq<Event>, command: Command, kernel: Kernel, judge: Judge)
    requires Numbered(stream)
    ensures Start(stream, command, kernel, judge).Ok? <==> NoFinal(stream)
    ensures NoFinal(stream) ==> InOrder(HeldBy(stream, kernel)) && stream <= HeldBy(stream, kernel).stream
  {
    if NoFinal(stream) {
      EmitKeepsOrder(Held(stream, None, None), kernel.emissions);
      CloseAdds(HeldBy(stream, kernel), command, kernel.ending, judge);
    } else {
      var e :| e in stream && IsFinal(e.kind);
      var i :| 0 <= i < |stream| && stream[i] == e;
      EmitAfterFinal(Held(stream, None, None), kernel.emissions);
    }
  }

  /**
   * For every kernel on every stream: the start is refused exactly on a finished stream; otherwise
   * the returned status is the one the stream reads as exactly when a held terminal event that
   * passed has the call's outcome, and, if none is held, the kernel failed or the stream already
   * reads as the status returned. A kernel whose append is refused has failed.
   */
  lemma {:induction false} StatusAgrees(stream: seq<Event>, command: Command, kernel: Kernel, judge: Judge)
    requires Numbered(stream)
    ensures var held := HeldBy(stream, kernel);
            var passed, outcome := Passed(held, judge), Outcome(held, kernel.ending);
            var r := Start(stream, command, kernel, judge);
            && (r.Ok? <==> NoFinal(stream))
            && (r.Ok? ==>
                  (Get(r.value.stream) == r.value.status <==>
                     if held.terminal.Some? then passed ==> TerminalOutcome(held.terminal.value.kind) == Some(outcome)
                     else held.failure.Some? || Get(held.stream) == if passed then outcome else Failed))
  {
    StartsOnOpenStreams(stream, command, kernel, judge);
    if NoFinal(stream) { ClosedReadsAs(HeldBy(stream, kernel), command, kernel.ending, judge); }
  }

  /** The verdict as it stands in the stream: the Run's own, with the next number, and passed exactly if the evidence did. */
  predicate IsVerdict(event: Event, command: Command, number: int, passed: bool) {
    && event.id == command.verdictId && event.scope == command.scope && event.streamId == command.runId
    && event.number == number && event.kind == Other("run.eval.contract") && event.timestamp == command.at
    && event.payload.parentRunId.None? && event.payload.parentEventId.None? && event.payload.laneId.None?
    && (event.payload.rest == "passed" <==> passed) && (event.payload.rest == "failed" <==> !passed)
  }

  /** The held event comes after it: as it was if it passed, and as a failure of the contract otherwise. */
  predicate IsHeldEvent(event: Event, terminal: Event, number: int, passed: bool) {
    && event.id == terminal.id && event.scope == terminal.scope && event.streamId == terminal.streamId
    && event.timestamp == terminal.timestamp && event.number == number
    && (passed ==> event.kind == terminal.kind && event.payload == terminal.payload)
    && (!passed ==> event.kind == RunFailed && event.payload.rest == "contract_eval_failed" && event.payload.parentRunId.None?
                    && event.payload.parentEventId.None? && event.payload.laneId.None?)
  }

  /** A kernel that failed with nothing held back leaves its failure. */
  predicate IsFailure(event: Event, command: Command, number: int, code: string) {
    && event.id == command.failureId && event.scope == command.scope && event.streamId == command.runId
    && event.number == number && event.kind == RunFailed && event.timestamp == command.at
    && event.payload.rest == code && event.payload.parentRunId.None? && event.payload.parentEventId.None? && event.payload.laneId.None?
  }

  /** What every start on an open stream leaves behind the events that reached it. */
  lemma {:induction false} ClosingEvents(stream: seq<Event>, command: Command, kernel: Kernel, judge: Judge)
    requires Numbered(stream) && NoFinal(stream)
    ensures var held := HeldBy(stream, kernel);
            var n := |held.stream|;
            var passed := judge(held.stream + (if held.terminal.Some? then [held.terminal.value] else [])) == Some(true);
            var r := Start(stream, command, kernel, judge);
            && r.Ok? && |r.value.stream| == n + (if held.terminal.Some? || held.failure.Some? then 2 else 1)
            && r.value.stream[..n] == held.stream && IsVerdict(r.value.stream[n], command, n, passed)
            && (held.terminal.Some? ==> IsHeldEvent(r.value.stream[n + 1], held.terminal.value, n + 1, passed))
            && (held.terminal.None? && held.failure.Some? ==> IsFailure(r.value.stream[n + 1], command, n + 1, held.failure.value))
  {
    StartsOnOpenStreams(stream, command, kernel, judge);
    CloseAdds(HeldBy(stream, kernel), command, kernel.ending, judge);
  }

  /** How the stream reads after the verdict and the terminal event, if any. */
  lemma {:induction false} ClosedReadsAs(held: Held, command: Command, ending: Ending, judge: Judge)
    requires InOrder(held)
    ensures var r := Close(held, command, ending, judge);
            var last := TerminalToAppend(command, held, |held.stream| + 1, Passed(held, judge));
            && r.Ok? && r.value.status == (if Passed(held, judge) then Outcome(held, ending) else Failed)
            && (last.Some? ==> TerminalOutcome(last.value.kind).Some?)
            && Get(r.value.stream) == if last.Some? then TerminalOutcome(last.value.kind).value else Get(held.stream)
  {
    var passed := Passed(held, judge);
    CloseAdds(held, command, ending, judge);
    LastCompletes(command, held, |held.stream| + 1, passed);
    var verdict := VerdictEvent(command.scope, command.runId, command.verdictId, |held.stream|, command.at, passed);
    ReadsAs(held.stream, verdict, TerminalToAppend(command, held, |held.stream| + 1, passed));
  }

  /** How a stream reads once the verdict, and perhaps a terminal event, has been added. */
  lemma {:induction false} ReadsAs(body: seq<Event>, verdict: Event, last: Option<Event>)
    requires NoFinal(body) && verdict.kind == Other("run.eval.contract")
    requires last.Some? ==> TerminalOutcome(last.value.kind).Some?
    ensures Get(body + [verdict] + if last.Some? then [last.value] else [])
            == if last.Some? then TerminalOutcome(last.value.kind).value else Get(body)
  {
    if last.Some? {
      EndsWith(Scan(Queued, None), body + [verdict], last.value);
    } else {
      VerdictChangesNothing(Scan(Queued, None), body, verdict);
      assert body + [verdict] + [] == body + [verdict];
    }
  }

  /** A stream without a final event never reads as completed. */
  lemma {:induction false} OpenIsNotCompleted(scan: Scan, events: seq<Event>)
    requires NoFinal(events) && scan.status in {Queued, Running} && scan.suspended in {None, Some(AwaitingInput), Some(AwaitingApproval), Some(NoStatus)}
    ensures StatusFrom(scan, events) != Completed
    decreases |events|
  {
    if events != [] {
      var kind := events[0].kind;
      assert events[0] in events;
      var next := match TerminalOutcome(kind)
                  case Some(outcome) => scan.(suspended := Some(outcome))
                  case None => if Runs(kind) then Scan(Running, None) else scan;
      OpenIsNotCompleted(next, events[1..]);
    }
  }

  lemma {:induction false} LastCompletes(command: Command, held: Held, number: nat, passed: bool)
    requires held.terminal.Some? ==> IsHeld(held.terminal.value.kind)
    ensures var last := TerminalToAppend(command, held, number, passed);
            && (last.Some? ==> TerminalOutcome(last.value.kind).Some?)
            && (last.Some? && last.value.kind == RunCompleted
                <==> held.terminal.Some? && held.terminal.value.kind == RunCompleted && passed)
            && (last.Some? && TerminalOutcome(last.value.kind) == Some(Completed) <==> last.Some? && last.value.kind == RunCompleted)
  {
  }

  /** Whatever the kernel emits and however it ends: when the stream reads as completed afterwards. */
  lemma {:induction false} ReadsCompleted(stream: seq<Event>, command: Command, kernel: Kernel, judge: Judge)
    requires Numbered(stream) && NoFinal(stream)
    ensures var held := HeldBy(stream, kernel);
            var r := Start(stream, command, kernel, judge);
            && r.Ok?
            && (Get(r.value.stream) == Completed <==>
                  held.terminal.Some? && held.terminal.value.kind == RunCompleted && Passed(held, judge))
  {
    var held := HeldBy(stream, kernel);
    StartsOnOpenStreams(stream, command, kernel, judge);
    ClosedReadsAs(held, command, kernel.ending, judge);
    LastCompletes(command, held, |held.stream| + 1, Passed(held, judge));
    OpenIsNotCompleted(Scan(Queued, None), held.stream);
  }
}
