/**
 * What a list of accepted payloads means for the finished message: which of the reported finish
 * reasons, usages and reasoning texts count, and how each is read.
 */
module TransportMeaning {
  import opened Prelude
  import opened Transport

  /** The one choice of a payload, where it has one. */
  function ChoiceOf(payload: Payload): Option<Choice> {
    if payload.choices.Given? && |payload.choices.value| == 1 && payload.choices.value[0].Given?
    then Some(payload.choices.value[0].value) else None
  }

  /** A member that is neither undefined nor null. */
  function Present<T>(field: Field<T>): seq<Field<T>> {
    if field.Absent? || field.Null? then [] else [field]
  }

  function ReasonsOf(payload: Payload): seq<Field<string>> {
    if ChoiceOf(payload).Some? then Present(ChoiceOf(payload).value.finishReason) else []
  }

  /** A payload's own usage comes before its choice's. */
  function UsagesOf(payload: Payload): seq<Field<RawUsage>> {
    Present(payload.usage) + if ChoiceOf(payload).Some? then Present(ChoiceOf(payload).value.usage) else []
  }

  /** Everything reported as a finish reason, in order. */
  function Reasons(payloads: seq<Payload>): seq<Field<string>> {
    if payloads == [] then [] else Reasons(payloads[..|payloads| - 1]) + ReasonsOf(payloads[|payloads| - 1])
  }

  /** Everything reported as usage, in order. */
  function Usages(payloads: seq<Payload>): seq<Field<RawUsage>> {
    if payloads == [] then [] else Usages(payloads[..|payloads| - 1]) + UsagesOf(payloads[|payloads| - 1])
  }

  /** The first string of a list of members. */
  function FirstString(fields: seq<Field<string>>): Option<string> {
    if fields == [] then None else if fields[0].Given? then Some(fields[0].value) else FirstString(fields[1..])
  }

  /** The reasoning after a payload: a whole message's replaces what was there, a delta's is added. */
  function ReasonedStep(before: Option<string>, payload: Payload): Option<string> {
    match ChoiceOf(payload)
    case None => before
    case Some(choice) =>
      var middle := if choice.message.Given? && choice.message.value.reasoningContent.Given?
                    then Some(choice.message.value.reasoningContent.value) else before;
      var part := if choice.delta.Given?
                  then FirstString([choice.delta.value.reasoningContent, choice.delta.value.reasoning, choice.delta.value.reasoningText])
                  else None;
      if part.None? then middle else Some((if middle.Some? then middle.value else "") + part.value)
  }

  function Reasoned(payloads: seq<Payload>): Option<string> {
    if payloads == [] then None else ReasonedStep(Reasoned(payloads[..|payloads| - 1]), payloads[|payloads| - 1])
  }

  // ---------------------------------------------------------------- one payload

  /** What accumulating text, calls and reasoning leaves alone. */
  predicate SameRest(before: Acc, after: Acc) {
    after.finish == before.finish && after.usage == before.usage
  }

  predicate SameReasoning(before: Acc, after: Acc) {
    after.reasoning == before.reasoning && after.reasoningSeen == before.reasoningSeen
  }

  lemma {:induction false} MessageCallsKeep(acc: Acc, calls: seq<Field<RawCall>>, from: nat, canonical: string -> string)
    requires from <= |calls| && MessageCalls(acc, calls, from, canonical).Ok?
    ensures SameRest(acc, MessageCalls(acc, calls, from, canonical).value) && SameReasoning(acc, MessageCalls(acc, calls, from, canonical).value)
    decreases |calls| - from
  {
    if from < |calls| { MessageCallsKeep(MessageCall(acc, calls[from], canonical).value, calls, from + 1, canonical); }
  }

  lemma {:induction false} DeltaCallsKeep(acc: Acc, calls: seq<Field<RawCall>>, from: nat, canonical: string -> string)
    requires from <= |calls| && DeltaCalls(acc, calls, from, canonical).Ok?
    ensures SameRest(acc, DeltaCalls(acc, calls, from, canonical).value) && SameReasoning(acc, DeltaCalls(acc, calls, from, canonical).value)
    decreases |calls| - from
  {
    if from < |calls| { DeltaCallsKeep(DeltaCall(acc, calls[from], from, canonical).value, calls, from + 1, canonical); }
  }

  function ReasoningIn(acc: Acc): Option<string> {
    if acc.reasoningSeen then Some(acc.reasoning) else None
  }

  /** Nothing has been reasoned before the first reasoning. */
  predicate Unreasoned(acc: Acc) {
    !acc.reasoningSeen ==> acc.reasoning == ""
  }

  lemma {:induction false} MessageMeans(acc: Acc, message: RawMessage, canonical: string -> string)
    requires ApplyMessage(acc, message, canonical).Ok? && Unreasoned(acc)
    ensures var after := ApplyMessage(acc, message, canonical).value;
            && SameRest(acc, after) && Unreasoned(after)
            && ReasoningIn(after) == if message.reasoningContent.Given? then Some(message.reasoningContent.value) else ReasoningIn(acc)
  {
    if message.toolCalls.Given? {
      MessageCallsKeep(AddContent(SetReasoning(acc, message.reasoningContent), message.content, TextInvalid).value,
                       message.toolCalls.value, 0, canonical);
    }
  }

  lemma {:induction false} FirstOfThree(a: Field<string>, b: Field<string>, c: Field<string>)
    ensures FirstString([a, b, c]) == if a.Given? then Some(a.value) else if b.Given? then Some(b.value)
                                      else if c.Given? then Some(c.value) else None
  {
    assert [a, b, c][1..] == [b, c] && [b, c][1..] == [c] && [c][1..] == [];
    assert FirstString([c]) == (if c.Given? then Some(c.value) else FirstString([]));
    assert FirstString([b, c]) == if b.Given? then Some(b.value) else FirstString([c]);
  }

  lemma {:induction false} DeltaMeans(acc: Acc, delta: RawDelta, canonical: string -> string)
    requires ApplyDelta(acc, delta, canonical).Ok? && Unreasoned(acc)
    ensures var after := ApplyDelta(acc, delta, canonical).value;
            var part := FirstString([delta.reasoningContent, delta.reasoning, delta.reasoningText]);
            && SameRest(acc, after) && Unreasoned(after)
            && ReasoningIn(after) == if part.None? then ReasoningIn(acc)
                                     else Some((if ReasoningIn(acc).Some? then ReasoningIn(acc).value else "") + part.value)
  {
    FirstOfThree(delta.reasoningContent, delta.reasoning, delta.reasoningText);
    assert "" + acc.reasoning == acc.reasoning;
    if delta.toolCalls.Given? {
      var a := if ReasoningOf(delta).Some? then AddReasoning(acc, ReasoningOf(delta).value) else acc;
      DeltaCallsKeep(AddContent(a, delta.content, TextDeltaInvalid).value, delta.toolCalls.value, 0, canonical);
    }
  }

  /** A finish reason as the message names it. */
  predicate NamesStop(field: Field<string>, stop: StopReason) {
    && (field == Given("stop") <==> stop == Stop)
    && (field == Given("length") <==> stop == Length)
    && (field == Given("tool_calls") <==> stop == ToolUse)
  }

  /** Usage as the message reports it: prompt tokens in, completion tokens out, each where it is a number. */
  predicate NamesUsage(field: Field<RawUsage>, usage: Usage) {
    && field.Given? && !field.value.promptTokens.Wrong? && !field.value.completionTokens.Wrong?
    && (usage.input.Some? <==> field.value.promptTokens.Given?)
    && (usage.input.Some? ==> usage.input.value == field.value.promptTokens.value)
    && (usage.output.Some? <==> field.value.completionTokens.Given?)
    && (usage.output.Some? ==> usage.output.value == field.value.completionTokens.value)
  }

  /** The last thing reported counts. */
  predicate Finishes(reasons: seq<Field<string>>, before: Option<StopReason>, after: Option<StopReason>) {
    if reasons == [] then after == before else after.Some? && NamesStop(reasons[|reasons| - 1], after.value)
  }

  predicate Uses(usages: seq<Field<RawUsage>>, before: Option<Usage>, after: Option<Usage>) {
    if usages == [] then after == before else after.Some? && NamesUsage(usages[|usages| - 1], after.value)
  }

  lemma {:induction false} PayloadMeans(acc: Acc, payload: Payload, canonical: string -> string)
    requires ApplyPayload(acc, payload, canonical).Ok? && Unreasoned(acc)
    ensures var after := ApplyPayload(acc, payload, canonical).value;
            && !payload.inBandError && Unreasoned(after)
            && ReasoningIn(after) == ReasonedStep(ReasoningIn(acc), payload)
            && Finishes(ReasonsOf(payload), acc.finish, after.finish)
            && Uses(UsagesOf(payload), acc.usage, after.usage)
  {
    var a := acc.(usage := ReadUsage(payload.usage, acc.usage).value);
    if ChoiceOf(payload).Some? {
      ChoiceMeans(a, ChoiceOf(payload).value, canonical);
    }
  }

  lemma {:induction false} ChoiceMeans(acc: Acc, choice: Choice, canonical: string -> string)
    requires ApplyChoice(acc, choice, canonical).Ok? && Unreasoned(acc)
    ensures var after := ApplyChoice(acc, choice, canonical).value;
            var middle := if choice.message.Given? && choice.message.value.reasoningContent.Given?
                          then Some(choice.message.value.reasoningContent.value) else ReasoningIn(acc);
            var part := if choice.delta.Given?
                        then FirstString([choice.delta.value.reasoningContent, choice.delta.value.reasoning, choice.delta.value.reasoningText])
                        else None;
            && Unreasoned(after)
            && ReasoningIn(after) == (if part.None? then middle else Some((if middle.Some? then middle.value else "") + part.value))
            && Finishes(Present(choice.finishReason), acc.finish, after.finish)
            && Uses(Present(choice.usage), acc.usage, after.usage)
  {
    var a := acc.(usage := ReadUsage(choice.usage, acc.usage).value, finish := ReadFinish(choice.finishReason, acc.finish).value);
    var b := if choice.message.Given? then ApplyMessage(a, choice.message.value, canonical).value else a;
    if choice.message.Given? { MessageMeans(a, choice.message.value, canonical); }
    if choice.delta.Given? { DeltaMeans(b, choice.delta.value, canonical); }
  }

  // ---------------------------------------------------------------- a list of payloads

  lemma {:induction false} ApplySnoc(acc: Acc, payloads: seq<Payload>, canonical: string -> string)
    requires payloads != []
    ensures var n := |payloads| - 1;
            ApplyPayloads(acc, payloads, canonical)
            == match ApplyPayloads(acc, payloads[..n], canonical)
               case Ok(middle) => ApplyPayload(middle, payloads[n], canonical)
               case Err(e) => Err(e)
    decreases |payloads|
  {
    var n := |payloads| - 1;
    if n == 0 {
      assert payloads[1..] == [] && payloads[..0] == [];
    } else {
      assert payloads[..n][1..] == payloads[1..][..n - 1];
      match ApplyPayload(acc, payloads[0], canonical) {
        case Ok(next) => ApplySnoc(next, payloads[1..], canonical);
        case Err(_) =>
      }
    }
  }

  lemma LaterCounts(reasons: seq<Field<string>>, moreReasons: seq<Field<string>>, usages: seq<Field<RawUsage>>, moreUsages: seq<Field<RawUsage>>,
                    middle: Acc, acc: Acc)
    requires Finishes(reasons, None, middle.finish) && Finishes(moreReasons, middle.finish, acc.finish)
    requires Uses(usages, None, middle.usage) && Uses(moreUsages, middle.usage, acc.usage)
    ensures Finishes(reasons + moreReasons, None, acc.finish) && Uses(usages + moreUsages, None, acc.usage)
  {
    if moreReasons == [] { assert reasons + moreReasons == reasons; }
    if moreUsages == [] { assert usages + moreUsages == usages; }
  }

  /**
   * A list of payloads that is accepted: the last finish reason and the last usage reported count,
   * and the reasoning is what its whole messages and deltas spell.
   */
  lemma {:induction false} PayloadsMean(payloads: seq<Payload>, canonical: string -> string)
    requires ApplyPayloads(EMPTY, payloads, canonical).Ok?
    ensures var acc := ApplyPayloads(EMPTY, payloads, canonical).value;
            && Finishes(Reasons(payloads), None, acc.finish) && Uses(Usages(payloads), None, acc.usage)
            && Unreasoned(acc) && ReasoningIn(acc) == Reasoned(payloads)
    decreases |payloads|
  {
    if payloads != [] {
      var n := |payloads| - 1;
      ApplySnoc(EMPTY, payloads, canonical);
      PayloadsMean(payloads[..n], canonical);
      var middle := ApplyPayloads(EMPTY, payloads[..n], canonical).value;
      var acc := ApplyPayload(middle, payloads[n], canonical).value;
      PayloadMeans(middle, payloads[n], canonical);
      LaterCounts(Reasons(payloads[..n]), ReasonsOf(payloads[n]), Usages(payloads[..n]), UsagesOf(payloads[n]), middle, acc);
    }
  }

  /** Nothing else is accepted: every finish reason is one of three strings, and every usage an object of token counts. */
  lemma {:induction false} AllReportsRead(payloads: seq<Payload>, canonical: string -> string)
    requires ApplyPayloads(EMPTY, payloads, canonical).Ok?
    ensures (forall f <- Reasons(payloads) :: f == Given("stop") || f == Given("length") || f == Given("tool_calls"))
    ensures (forall u <- Usages(payloads) :: u.Given? && !u.value.promptTokens.Wrong? && !u.value.completionTokens.Wrong?)
    decreases |payloads|
  {
    if payloads != [] {
      var n := |payloads| - 1;
      ApplySnoc(EMPTY, payloads, canonical);
      AllReportsRead(payloads[..n], canonical);
      PayloadReportsRead(ApplyPayloads(EMPTY, payloads[..n], canonical).value, payloads[n], canonical);
    }
  }

  lemma {:induction false} PayloadReportsRead(acc: Acc, payload: Payload, canonical: string -> string)
    requires ApplyPayload(acc, payload, canonical).Ok?
    ensures forall u <- UsagesOf(payload) :: u.Given? && !u.value.promptTokens.Wrong? && !u.value.completionTokens.Wrong?
    ensures forall f <- ReasonsOf(payload) :: f == Given("stop") || f == Given("length") || f == Given("tool_calls")
  {
  }

  /** What the finished message says of finish reason, usage and reasoning, and when there is none. */
  lemma {:induction false} ResponseMeans<A>(payloads: seq<Payload>, canonical: string -> string, codec: JsonCodec<A>)
    requires ApplyPayloads(EMPTY, payloads, canonical).Ok?
    ensures var acc := ApplyPayloads(EMPTY, payloads, canonical).value;
            var reasons, usages := Reasons(payloads), Usages(payloads);
            match Finish(acc, codec)
            case Ok(response) =>
              && reasons != [] && acc.blocks != [] && NamesStop(reasons[|reasons| - 1], response.message.stopReason)
              && (response.message.usage.Some? <==> usages != [])
              && (usages != [] ==> NamesUsage(usages[|usages| - 1], response.message.usage.value))
              && response.message.reasoning == Reasoned(payloads)
            case Err(e) => (e == StopReasonMissing <==> reasons == []) && (e == NoContent <==> reasons != [] && acc.blocks == [])
  {
    PayloadsMean(payloads, canonical);
  }

  // ---------------------------------------------------------------- refusals and the rest

  /** How a payload's reports are refused. */
  lemma ReportRefusals(reason: Field<string>, usage: Field<RawUsage>, finish: Option<StopReason>, current: Option<Usage>)
    ensures ReadFinish(reason, finish).Err? <==> reason.Wrong? || (reason.Given? && reason.value !in {"stop", "length", "tool_calls"})
    ensures ReadFinish(reason, finish).Err? ==> ReadFinish(reason, finish).error == FinishReasonInvalid
    ensures ReadUsage(usage, current) == Err(ObjectInvalid) <==> usage.Wrong?
    ensures ReadUsage(usage, current) == Err(UsageInvalid) <==>
              usage.Given? && (usage.value.promptTokens.Wrong? || usage.value.completionTokens.Wrong?)
    ensures ReadUsage(usage, current).Err? ==> ReadUsage(usage, current).error in {ObjectInvalid, UsageInvalid}
  {
  }

  /** A fragment belongs to the stream index it names, if that is a safe integer, and else to its place in the list. */
  lemma StreamIndexMeaning(call: RawCall, offset: nat)
    ensures call.index.Some? && 0 <= call.index.value <= 9007199254740991 ==> StreamIndex(call, offset) == call.index.value
    ensures call.index.None? || call.index.value < 0 || call.index.value > 9007199254740991 ==> StreamIndex(call, offset) == offset
  {
  }

  /** A fragment without a function, or with null for one, names nothing and adds nothing. */
  lemma NoFunction(acc: Acc, call: RawCall, offset: nat, canonical: string -> string)
    requires call.function_.Absent? || call.function_.Null?
    ensures DeltaCall(acc, Given(call), offset, canonical)
            == DeltaCall(acc, Given(call.(function_ := Given(CallFunction(Null, Null)))), offset, canonical)
  {
  }

  /** A delta that is no fragment of arguments that could not be used. */
  predicate Usable<A>(d: Delta, content: seq<Content<A>>, codec: JsonCodec<A>) {
    d.ToolDelta? && d.contentIndex < |content| && content[d.contentIndex].ToolContent? ==> !codec.reserved(content[d.contentIndex].arguments)
  }

  /** Finishing leaves such deltas alone. */
  lemma {:induction false} FinishKeepsDeltas<A>(deltas: seq<Delta>, content: seq<Content<A>>, codec: JsonCodec<A>)
    requires forall i | 0 <= i < |deltas| :: Usable(deltas[i], content, codec)
    ensures FinishDeltas(deltas, content, codec) == deltas
    decreases |deltas|
  {
    if deltas != [] {
      var n := |deltas| - 1;
      FinishKeepsDeltas(deltas[..n], content, codec);
      KeepsLast(deltas, content, codec);
    }
  }

  lemma {:induction false} KeepsLast<A>(deltas: seq<Delta>, content: seq<Content<A>>, codec: JsonCodec<A>)
    requires deltas != [] && Usable(deltas[|deltas| - 1], content, codec)
    ensures var n := |deltas| - 1;
            FinishDeltas(deltas, content, codec) == FinishDeltas(deltas[..n], content, codec) + [deltas[n]]
    ensures deltas == deltas[..|deltas| - 1] + [deltas[|deltas| - 1]]
  {
  }
}
