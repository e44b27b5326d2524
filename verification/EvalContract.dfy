/**
 * The wrapper with the contract it is used with: a Run must have started and ended. What a stream
 * that reads as completed then says about its evidence.
 */
module EvalContract {
  import opened Prelude
  import opened EventStore
  import opened RunStatus
  import opened EvalWrapper
  import Contract = ContractEval

  /** How the evaluation reads a stored event: its timestamp, its payload, and whether the schema accepts it. */
  datatype Reading = Reading(time: string -> int, payload: Payload -> Contract.Payload, parses: Event -> bool)

  function TypeName(kind: EventType): string {
    match kind
    case RunStarted => "run.started"
    case RunResumed => "run.resumed"
    case RunProgress => "run.progress"
    case RunCompleted => "run.completed"
    case RunFailed => "run.failed"
    case RunTimedOut => "run.timed_out"
    case RunCancelled => "run.cancelled"
    case RunAwaitingInput => "run.awaiting_input"
    case RunAwaitingApproval => "run.awaiting_approval"
    case Other(name) => name
  }

  /** The schema refuses a negative number, so what such an event is read as does not matter. */
  function AsEvidence(reading: Reading, e: Event): Contract.Event {
    Contract.Event(e.id, e.scope.workspaceId, e.scope.channelId, e.streamId, if e.number < 0 then 0 else e.number, TypeName(e.kind),
                   reading.time(e.timestamp), reading.payload(e.payload), e.number >= 0 && reading.parses(e))
  }

  function EvidenceOf(reading: Reading, runId: string, events: seq<Event>): (r: Contract.Evidence)
    ensures |r.events| == |events| && forall i | 0 <= i < |events| :: r.events[i] == AsEvidence(reading, events[i])
  {
    Contract.Evidence(runId, seq(|events|, i requires 0 <= i < |events| => AsEvidence(reading, events[i])), [], None)
  }

  /** What the contract is shown of an event, member by member. */
  lemma EvidenceMembers(reading: Reading, e: Event)
    ensures var x := AsEvidence(reading, e);
            && x.id == e.id && x.workspaceId == e.scope.workspaceId && x.channelId == e.scope.channelId && x.streamId == e.streamId
            && x.kind == TypeName(e.kind) && x.time == reading.time(e.timestamp) && x.payload == reading.payload(e.payload)
            && (x.parses <==> e.number >= 0 && reading.parses(e)) && (x.parses ==> x.number == e.number)
  {
  }

  /** The options of the wrapper: the Run must have started, and it must have ended. */
  const StartedAndEnded: Contract.Options := Contract.Options("contract-1", ["run.started"], {}, [], true)

  function ContractJudge(weigh: Contract.Collation, reading: Reading, runId: string): Judge {
    events => Some(Contract.Evaluate(weigh, EvidenceOf(reading, runId, events), StartedAndEnded).passed)
  }

  /**
   * Whatever the kernel emits and however it ends, also by a refused append, the stream reads as
   * completed exactly when the last terminal event held back is a completion and the evidence, the
   * events that reached the stream and this one, satisfies the contract.
   */
  lemma {:induction false} CompletedExactly(stream: seq<Event>, command: EvalWrapper.Command, kernel: Kernel,
                                            weigh: Contract.Collation, reading: Reading)
    requires Numbered(stream) && NoFinal(stream)
    ensures var held := HeldBy(stream, kernel);
            var r := Start(stream, command, kernel, ContractJudge(weigh, reading, command.runId));
            && r.Ok?
            && (Get(r.value.stream) == Completed <==>
                  && held.terminal.Some? && held.terminal.value.kind == RunCompleted
                  && Contract.Satisfies(EvidenceOf(reading, command.runId, Evidence(held)), StartedAndEnded))
  {
    var held := HeldBy(stream, kernel);
    ReadsCompleted(stream, command, kernel, ContractJudge(weigh, reading, command.runId));
    Contract.PassedMeansSatisfied(weigh, EvidenceOf(reading, command.runId, Evidence(held)), StartedAndEnded);
  }

  /** Two different types are the same name only where one is written out as another name. */
  lemma TypeNameMeaning(kind: EventType)
    ensures TypeName(kind) == "run.started" <==> kind == RunStarted || kind == Other("run.started")
    ensures TypeName(kind) == "run.completed" <==> kind == RunCompleted || kind == Other("run.completed")
  {
  }

  /** The events the wrapper holds back are those that end a Run to the contract, as their types are named. */
  lemma TypeNames(kind: EventType)
    requires !kind.Other?
    ensures IsHeld(kind) <==> Contract.IsEnd(TypeName(kind))
    ensures Runs(kind) <==> TypeName(kind) == "run.started" || TypeName(kind) == "run.resumed" || TypeName(kind) == "run.progress"
    ensures kind == RunResumed <==> TypeName(kind) == "run.resumed"
    ensures kind == RunFailed <==> TypeName(kind) == "run.failed"
    ensures kind == RunTimedOut <==> TypeName(kind) == "run.timed_out"
    ensures kind == RunCancelled <==> TypeName(kind) == "run.cancelled"
    ensures kind == RunAwaitingInput <==> TypeName(kind) == "run.awaiting_input"
  {
  }

  /** No Run is left completed unless an event says it started, and every event is the Run's own, once. */
  lemma {:induction false} CompletedHasStarted(stream: seq<Event>, command: EvalWrapper.Command, kernel: Kernel,
                                               weigh: Contract.Collation, reading: Reading)
    requires Numbered(stream) && NoFinal(stream)
    requires var r := Start(stream, command, kernel, ContractJudge(weigh, reading, command.runId));
             r.Ok? && Get(r.value.stream) == Completed
    ensures var body, terminal := HeldBy(stream, kernel).stream, HeldBy(stream, kernel).terminal;
            && (exists e <- body :: e.kind == RunStarted || e.kind == Other("run.started"))
            && terminal.Some? && terminal.value.id !in (set e | e in body :: e.id)
            && (forall e <- body + [terminal.value] :: e.scope == terminal.value.scope && reading.parses(e))
  {
    CompletedExactly(stream, command, kernel, weigh, reading);
    var held := HeldBy(stream, kernel);
    SatisfiedEvents(held.stream, held.terminal.value, command.runId, reading);
  }

  lemma {:induction false} SatisfiedEvents(body: seq<Event>, terminal: Event, runId: string, reading: Reading)
    requires terminal.kind == RunCompleted
    requires Contract.Satisfies(EvidenceOf(reading, runId, body + [terminal]), StartedAndEnded)
    ensures exists e <- body :: e.kind == RunStarted || e.kind == Other("run.started")
    ensures terminal.id !in (set e | e in body :: e.id)
    ensures forall e <- body + [terminal] :: e.scope == terminal.scope && reading.parses(e)
  {
    OneHasStarted(body, terminal, runId, reading);
    SoundEvents(body, terminal, runId, reading);
  }

  lemma {:induction false} SoundEvents(body: seq<Event>, terminal: Event, runId: string, reading: Reading)
    requires Contract.Sound(EvidenceOf(reading, runId, body + [terminal]))
    ensures terminal.id !in (set e | e in body :: e.id)
    ensures forall e <- body + [terminal] :: e.scope == terminal.scope && reading.parses(e)
  {
    var events := body + [terminal];
    var seen := EvidenceOf(reading, runId, events).events;
    assert seen[|body|] in seen;
    forall e | e in events
      ensures e.scope == terminal.scope && reading.parses(e)
    {
      var j :| 0 <= j < |events| && events[j] == e;
      assert seen[j] in seen;
    }
    forall e | e in body
      ensures e.id != terminal.id
    {
      var j :| 0 <= j < |body| && body[j] == e;
      assert seen[j].id == e.id && seen[|body|].id == terminal.id;
    }
  }

  lemma {:induction false} OneHasStarted(body: seq<Event>, terminal: Event, runId: string, reading: Reading)
    requires terminal.kind == RunCompleted
    requires Contract.Satisfies(EvidenceOf(reading, runId, body + [terminal]), StartedAndEnded)
    ensures exists e <- body :: e.kind == RunStarted || e.kind == Other("run.started")
  {
    var seen := EvidenceOf(reading, runId, body + [terminal]).events;
    assert "run.started" in StartedAndEnded.requiredEventTypes;
    var x :| x in seen && x.kind == "run.started";
    var i :| 0 <= i < |seen| && seen[i] == x;
    TypeNameMeaning((body + [terminal])[i].kind);
    assert i < |body| && body[i] == (body + [terminal])[i] && body[i] in body;
  }

  /** The first two events of a Run that starts and completes, in order and accepted by the schema. */
  predicate StartsAndCompletes(started: Event, completed: Event, runId: string, reading: Reading) {
    && started.kind == RunStarted && completed.kind == RunCompleted && started.number == 0 && completed.number == 1
    && started.id != completed.id && started.scope == completed.scope && reading.parses(started) && reading.parses(completed)
    && started.streamId == runId && completed.streamId == runId && runId != ""
  }

  /** Such a kernel holds its completion back; what it does next decides how it ends. */
  lemma {:induction false} HoldsCompletion(started: Event, completed: Event, more: seq<Event>)
    requires started.kind == RunStarted && completed.kind == RunCompleted && started.number == 0
    ensures Emit(Held([], None, None), [started, completed] + more) == Emit(Held([started], Some(completed), None), more)
  {
    var all := [started, completed] + more;
    assert all[1..] == [completed] + more && all[1..][1..] == more;
    assert [] + [started] == [started];
    assert Offer([], started) == Ok([started]);
  }

  lemma {:induction false} DisagreesOnceHeld(command: EvalWrapper.Command, kernel: Kernel, started: Event, completed: Event,
                                             weigh: Contract.Collation, reading: Reading)
    requires StartsAndCompletes(started, completed, command.runId, reading)
    requires var held := HeldBy([], kernel);
             held.stream == [started] && held.terminal == Some(completed) && Outcome(held, kernel.ending) == Failed
    ensures var r := Start([], command, kernel, ContractJudge(weigh, reading, command.runId));
            r.Ok? && r.value.status == Failed && Get(r.value.stream) == Completed
  {
    TwoEventsSatisfy(started, completed, command.runId, reading);
    CompletedExactly([], command, kernel, weigh, reading);
    StartsOnOpenStreams([], command, kernel, ContractJudge(weigh, reading, command.runId));
    ClosedReadsAs(HeldBy([], kernel), command, kernel.ending, ContractJudge(weigh, reading, command.runId));
  }

  /**
   * A kernel that starts, completes and then throws: the contract passes, so the completion stands
   * in the stream, and yet the caller is told that the Run failed.
   */
  lemma {:induction false} LateThrowDisagrees(command: EvalWrapper.Command, started: Event, completed: Event,
                                              weigh: Contract.Collation, reading: Reading)
    requires StartsAndCompletes(started, completed, command.runId, reading)
    ensures var kernel := Kernel([started, completed], Throws("late"));
            var r := Start([], command, kernel, ContractJudge(weigh, reading, command.runId));
            r.Ok? && r.value.status == Failed && Get(r.value.stream) == Completed
  {
    var kernel := Kernel([started, completed], Throws("late"));
    HoldsCompletion(started, completed, []);
    assert kernel.emissions == [started, completed] + [];
    DisagreesOnceHeld(command, kernel, started, completed, weigh, reading);
  }

  /**
   * So does a kernel that goes on after completing and returns: the held event left the stream one
   * short, so its next append is refused.
   */
  lemma {:induction false} LateAppendDisagrees(command: EvalWrapper.Command, started: Event, completed: Event, late: Event,
                                               weigh: Contract.Collation, reading: Reading)
    requires StartsAndCompletes(started, completed, command.runId, reading) && late.kind == RunProgress && late.number == 2
    ensures var kernel := Kernel([started, completed, late], Returns(Completed));
            var r := Start([], command, kernel, ContractJudge(weigh, reading, command.runId));
            r.Ok? && r.value.status == Failed && Get(r.value.stream) == Completed
  {
    var kernel := Kernel([started, completed, late], Returns(Completed));
    HoldsCompletion(started, completed, [late]);
    assert kernel.emissions == [started, completed] + [late];
    assert Offer([started], late) == Err(SequenceConflict);
    DisagreesOnceHeld(command, kernel, started, completed, weigh, reading);
  }

  lemma {:induction false} TwoEventsSatisfy(started: Event, completed: Event, runId: string, reading: Reading)
    requires StartsAndCompletes(started, completed, runId, reading)
    ensures Contract.Satisfies(EvidenceOf(reading, runId, [started] + [completed]), StartedAndEnded)
  {
    var e := EvidenceOf(reading, runId, [started] + [completed]);
    var x, y := AsEvidence(reading, started), AsEvidence(reading, completed);
    assert e.events[0] == x && e.events[1] == y && e.events == [x, y];
    OwnPairIsSound(e, x, y);
    assert x in e.events && y in e.events;
  }

  lemma {:induction false} OwnPairIsSound(e: Contract.Evidence, x: Contract.Event, y: Contract.Event)
    requires e.events == [x, y] && e.artifacts == [] && e.trace == None && e.traceId != "" && x.parses && y.parses
    requires x.workspaceId == y.workspaceId && x.channelId == y.channelId && x.streamId == y.streamId == e.traceId
    requires x.id != y.id && x.number == 0 && y.number == 1
    ensures Contract.Sound(e)
  {
    assert forall z <- e.events :: z == x || z == y;
  }
}
