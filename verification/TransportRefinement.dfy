/**
 * Streaming refines the one-shot form: however a completion is cut into deltas, as long as its
 * text comes before its tool calls and the calls are opened in order, the finished message is
 * the one a single whole message would give.
 */
module TransportRefinement {
  import opened Prelude
  import opened Transport

  // ---------------------------------------------------------------- deltas as a list of operations

  datatype Op =
    | Reason(text: string)
    | Text(text: string)
    | Tool(stream: nat, id: Option<string>, name: Option<string>, more: string)

  function ApplyOp(acc: Acc, op: Op): Result<Acc, TransportError> {
    match op
    case Reason(text) => Ok(AddReasoning(acc, text))
    case Text(text) => Ok(if text == "" then acc else AppendText(acc, text))
    case Tool(stream, id, name, more) => ToolFragment(acc, stream, id, name, more)
  }

  function ApplyOps(acc: Acc, ops: seq<Op>): Result<Acc, TransportError>
    decreases |ops|
  {
    if ops == [] then Ok(acc)
    else
      var next :- ApplyOp(acc, ops[0]);
      ApplyOps(next, ops[1..])
  }

  lemma {:induction false} ApplyAppend(acc: Acc, left: seq<Op>, right: seq<Op>)
    requires ApplyOps(acc, left).Ok?
    ensures ApplyOps(acc, left + right) == ApplyOps(ApplyOps(acc, left).value, right)
    decreases |left|
  {
    if left == [] {
      assert left + right == right;
    } else {
      ApplyAppend(ApplyOp(acc, left[0]).value, left[1..], right);
      assert (left + right)[1..] == left[1..] + right;
    }
  }

  lemma {:induction false} FailAppend(acc: Acc, left: seq<Op>, right: seq<Op>)
    requires ApplyOps(acc, left).Err?
    ensures ApplyOps(acc, left + right) == ApplyOps(acc, left)
    decreases |left|
  {
    if ApplyOp(acc, left[0]).Ok? {
      FailAppend(ApplyOp(acc, left[0]).value, left[1..], right);
      assert (left + right)[1..] == left[1..] + right;
    }
  }

  predicate PlainCall(raw: Field<RawCall>) {
    && raw.Given? && !raw.value.function_.Wrong? && !raw.value.id.Wrong?
    && (raw.value.function_.Given? ==> !raw.value.function_.value.name.Wrong? && !raw.value.function_.value.arguments.Wrong?)
  }

  /** A delta without a member of the wrong type. */
  predicate PlainDelta(delta: RawDelta) {
    && !delta.content.Wrong?
    && (delta.toolCalls.Absent? || (delta.toolCalls.Given? && forall c <- delta.toolCalls.value :: PlainCall(c)))
  }

  function Text?(field: Field<string>): Option<string> {
    if field.Given? then Some(field.value) else None
  }

  function CallOp(raw: Field<RawCall>, offset: nat, canonical: string -> string): Op
    requires PlainCall(raw)
  {
    var call := raw.value;
    var fn := if call.function_.Given? then call.function_.value else CallFunction(Absent, Absent);
    Tool(StreamIndex(call, offset), Text?(call.id),
         if fn.name.Given? then Some(canonical(fn.name.value)) else None,
         if fn.arguments.Given? then fn.arguments.value else "")
  }

  function CallOps(calls: seq<Field<RawCall>>, from: nat, canonical: string -> string): seq<Op>
    requires from <= |calls| && forall c <- calls :: PlainCall(c)
    decreases |calls| - from
  {
    if from == |calls| then [] else [CallOp(calls[from], from, canonical)] + CallOps(calls, from + 1, canonical)
  }

  function DeltaOps(delta: RawDelta, canonical: string -> string): seq<Op>
    requires PlainDelta(delta)
  {
    (if ReasoningOf(delta).Some? then [Reason(ReasoningOf(delta).value)] else [])
    + (if delta.content.Given? then [Text(delta.content.value)] else [])
    + (if delta.toolCalls.Given? then CallOps(delta.toolCalls.value, 0, canonical) else [])
  }

  lemma {:induction false} CallsAreOps(acc: Acc, calls: seq<Field<RawCall>>, from: nat, canonical: string -> string)
    requires from <= |calls| && forall c <- calls :: PlainCall(c)
    ensures DeltaCalls(acc, calls, from, canonical) == ApplyOps(acc, CallOps(calls, from, canonical))
    decreases |calls| - from
  {
    if from < |calls| {
      var first := CallOp(calls[from], from, canonical);
      var rest := CallOps(calls, from + 1, canonical);
      assert DeltaCall(acc, calls[from], from, canonical) == ApplyOp(acc, first);
      assert ([first] + rest)[1..] == rest;
      if ApplyOp(acc, first).Ok? {
        CallsAreOps(ApplyOp(acc, first).value, calls, from + 1, canonical);
      }
    }
  }

  lemma OneOp(acc: Acc, op: Op)
    ensures ApplyOps(acc, [op]) == ApplyOp(acc, op)
  {
    assert [op][1..] == [];
  }

  lemma DeltaIsOps(acc: Acc, delta: RawDelta, canonical: string -> string)
    requires PlainDelta(delta)
    ensures ApplyDelta(acc, delta, canonical) == ApplyOps(acc, DeltaOps(delta, canonical))
  {
    var reasons := if ReasoningOf(delta).Some? then [Reason(ReasoningOf(delta).value)] else [];
    var texts := if delta.content.Given? then [Text(delta.content.value)] else [];
    var tools := if delta.toolCalls.Given? then CallOps(delta.toolCalls.value, 0, canonical) else [];
    if reasons != [] { OneOp(acc, reasons[0]); }
    var a := ApplyOps(acc, reasons).value;
    if texts != [] { OneOp(a, texts[0]); }
    ApplyAppend(acc, reasons, texts);
    ApplyAppend(acc, reasons + texts, tools);
    var b := ApplyOps(a, texts).value;
    if delta.toolCalls.Given? { CallsAreOps(b, delta.toolCalls.value, 0, canonical); }
  }

  // ---------------------------------------------------------------- a stream of plain delta payloads

  predicate PlainChoice(choice: Choice) {
    && ReadUsage(choice.usage, None).Ok? && ReadFinish(choice.finishReason, None).Ok?
    && (choice.message.Absent? || choice.message.Null?)
    && !choice.delta.Wrong? && (choice.delta.Given? ==> PlainDelta(choice.delta.value))
  }

  /** A payload a streaming provider sends: usage, at most one choice, and in it a delta. */
  predicate PlainPayload(p: Payload) {
    && !p.inBandError && ReadUsage(p.usage, None).Ok?
    && (p.choices.Absent? || (p.choices.Given? && |p.choices.value| <= 1
                              && forall c <- p.choices.value :: c.Given? && PlainChoice(c.value)))
  }

  function ChoiceOf(p: Payload): Option<Choice>
    requires PlainPayload(p)
  {
    if p.choices.Given? && p.choices.value != [] then Some(p.choices.value[0].value) else None
  }

  function PayloadOps(p: Payload, canonical: string -> string): seq<Op>
    requires PlainPayload(p)
  {
    match ChoiceOf(p)
    case Some(choice) => if choice.delta.Given? then DeltaOps(choice.delta.value, canonical) else []
    case None => []
  }

  function StreamOps(payloads: seq<Payload>, canonical: string -> string): seq<Op>
    requires forall p <- payloads :: PlainPayload(p)
  {
    if payloads == [] then [] else PayloadOps(payloads[0], canonical) + StreamOps(payloads[1..], canonical)
  }

  /** Equal but for the stop reason and the usage. */
  predicate SameContent(left: Acc, right: Acc) {
    left == right.(finish := left.finish, usage := left.usage)
  }

  /** Operations neither look at nor change the stop reason and the usage. */
  lemma {:induction false} OpsFrame(left: Acc, right: Acc, ops: seq<Op>)
    requires SameContent(left, right)
    ensures match (ApplyOps(left, ops), ApplyOps(right, ops))
            case (Ok(l), Ok(r)) => SameContent(l, r) && l.finish == left.finish
            case (Err(l), Err(r)) => l == r
            case _ => false
    decreases |ops|
  {
    if ops != [] && ApplyOp(left, ops[0]).Ok? {
      OpsFrame(ApplyOp(left, ops[0]).value, ApplyOp(right, ops[0]).value, ops[1..]);
    }
  }

  function FinishAfter(p: Payload, current: Option<StopReason>): Option<StopReason>
    requires PlainPayload(p)
  {
    match ChoiceOf(p)
    case Some(choice) => ReadFinish(choice.finishReason, current).value
    case None => current
  }

  /** The stop reason of a stream is the last one reported. */
  function StreamFinish(payloads: seq<Payload>, current: Option<StopReason>): Option<StopReason>
    requires forall p <- payloads :: PlainPayload(p)
    decreases |payloads|
  {
    if payloads == [] then current else StreamFinish(payloads[1..], FinishAfter(payloads[0], current))
  }

  lemma PayloadIsOps(acc: Acc, p: Payload, canonical: string -> string)
    requires PlainPayload(p) && ApplyOps(acc, PayloadOps(p, canonical)).Ok?
    ensures ApplyPayload(acc, p, canonical).Ok?
    ensures SameContent(ApplyPayload(acc, p, canonical).value, ApplyOps(acc, PayloadOps(p, canonical)).value)
    ensures ApplyPayload(acc, p, canonical).value.finish == FinishAfter(p, acc.finish)
  {
    var a := acc.(usage := ReadUsage(p.usage, acc.usage).value);
    if ChoiceOf(p).Some? {
      var choice := ChoiceOf(p).value;
      var b := a.(usage := ReadUsage(choice.usage, a.usage).value, finish := FinishAfter(p, acc.finish));
      OpsFrame(b, acc, PayloadOps(p, canonical));
      if choice.delta.Given? {
        DeltaIsOps(b, choice.delta.value, canonical);
      }
    }
  }

  lemma {:induction false} StreamIsOps(acc: Acc, payloads: seq<Payload>, canonical: string -> string)
    requires forall p <- payloads :: PlainPayload(p)
    requires ApplyOps(acc, StreamOps(payloads, canonical)).Ok?
    ensures ApplyPayloads(acc, payloads, canonical).Ok?
    ensures SameContent(ApplyPayloads(acc, payloads, canonical).value, ApplyOps(acc, StreamOps(payloads, canonical)).value)
    ensures ApplyPayloads(acc, payloads, canonical).value.finish == StreamFinish(payloads, acc.finish)
    decreases |payloads|
  {
    if payloads != [] {
      var now, later := PayloadOps(payloads[0], canonical), StreamOps(payloads[1..], canonical);
      if ApplyOps(acc, now).Err? { FailAppend(acc, now, later); }
      ApplyAppend(acc, now, later);
      PayloadIsOps(acc, payloads[0], canonical);
      var next := ApplyPayload(acc, payloads[0], canonical).value;
      OpsFrame(next, ApplyOps(acc, now).value, later);
      StreamIsOps(next, payloads[1..], canonical);
    }
  }

  // ---------------------------------------------------------------- fragmentations of one completion

  datatype Call = Call(id: string, name: string, arguments: string)

  datatype Completion = Completion(reasoning: Option<string>, text: string, calls: seq<Call>)

  /**
   * What a list of operations says, read without any accumulator: the reasoning and the text
   * joined, the stream indices in the order of their first fragments, the arguments of each.
   */
  datatype Outline = Outline(reasoning: Option<string>, text: string, streams: seq<nat>, arguments: map<nat, string>)

  const BLANK := Outline(None, "", [], map[])

  function Draw(o: Outline, op: Op): Outline {
    match op
    case Reason(text) => o.(reasoning := Some(if o.reasoning.Some? then o.reasoning.value + text else text))
    case Text(text) => o.(text := o.text + text)
    case Tool(stream, _, _, more) =>
      o.(streams := if stream in o.arguments then o.streams else o.streams + [stream],
         arguments := o.arguments[stream := if stream in o.arguments then o.arguments[stream] + more else more])
  }

  function OutlineOf(ops: seq<Op>): Outline {
    if ops == [] then BLANK else Draw(OutlineOf(ops[..|ops| - 1]), ops[|ops| - 1])
  }

  /** Text comes before the tools; a first fragment names its call, a later one may repeat the name. */
  predicate Follows(o: Outline, op: Op, who: map<nat, Call>) {
    match op
    case Reason(_) => true
    case Text(text) => text == "" || o.streams == []
    case Tool(stream, id, name, _) =>
      && stream in who
      && (id == Some(who[stream].id) || (id == None && stream in o.arguments))
      && (name == Some(who[stream].name) || (name == None && stream in o.arguments))
  }

  predicate Fits(ops: seq<Op>, who: map<nat, Call>) {
    ops == [] || (Fits(ops[..|ops| - 1], who) && Follows(OutlineOf(ops[..|ops| - 1]), ops[|ops| - 1], who))
  }

  /** The operations are the completion cut into fragments, its i-th call sent under the i-th opened index. */
  predicate Fragmentation(ops: seq<Op>, who: map<nat, Call>, c: Completion, canonical: string -> string) {
    Fits(ops, who) && Cut(OutlineOf(ops), who, c, canonical)
  }

  /** The pieces of the outline, put together, are the completion. */
  predicate Cut(o: Outline, who: map<nat, Call>, c: Completion, canonical: string -> string) {
    && o.reasoning == c.reasoning && o.text == c.text && |o.streams| == |c.calls|
    && forall i: nat | i < |c.calls| ::
         && o.streams[i] in who && o.streams[i] in o.arguments
         && who[o.streams[i]].id == c.calls[i].id
         && who[o.streams[i]].name == canonical(c.calls[i].name)
         && o.arguments[o.streams[i]] == c.calls[i].arguments
  }

  // ---------------------------------------------------------------- what a fitting stream accumulates

  function TextBlocks(text: string): seq<Block> {
    if text == "" then [] else [TextBlock(text)]
  }

  /** The i-th stream index has its block right behind the text and the earlier tools. */
  ghost predicate Placed(o: Outline, who: map<nat, Call>, acc: Acc, i: nat) {
    var at := |TextBlocks(o.text)| + i;
    && i < |o.streams| && at < |acc.blocks|
    && var s := o.streams[i];
       && s in who && s in o.arguments && s in acc.toolAt && acc.toolAt[s] == at
       && acc.blocks[at] == ToolBlock(who[s].id, who[s].name, o.arguments[s])
  }

  /** The accumulator has one block per piece of the outline, and finds each tool block by its index. */
  ghost predicate HoldsBlocks(o: Outline, who: map<nat, Call>, acc: Acc) {
    var texts := TextBlocks(o.text);
    && |acc.blocks| == |texts| + |o.streams|
    && (texts != [] ==> acc.blocks[0] == texts[0])
    && (forall i: nat | i < |o.streams| :: Placed(o, who, acc, i))
    && (forall s <- o.arguments :: s in acc.toolAt)
    && (forall s <- acc.toolAt :: s >= 0 && s in o.arguments && |texts| <= acc.toolAt[s] < |acc.blocks|
                                  && o.streams[acc.toolAt[s] - |texts|] == s)
  }

  ghost predicate HoldsReasoning(o: Outline, acc: Acc) {
    && acc.reasoningSeen == o.reasoning.Some?
    && acc.reasoning == if o.reasoning.Some? then o.reasoning.value else ""
  }

  ghost predicate Accumulates(o: Outline, who: map<nat, Call>, acc: Acc) {
    HoldsBlocks(o, who, acc) && HoldsReasoning(o, acc)
  }

  lemma StepReason(o: Outline, who: map<nat, Call>, acc: Acc, text: string)
    requires Accumulates(o, who, acc)
    ensures Accumulates(Draw(o, Reason(text)), who, AddReasoning(acc, text))
  {
    var next, after := Draw(o, Reason(text)), AddReasoning(acc, text);
    assert HoldsBlocks(next, who, after) by {
      forall i: nat | i < |next.streams|
        ensures Placed(next, who, after, i)
      {
        assert Placed(o, who, acc, i);
      }
    }
    assert HoldsReasoning(next, after) by {
      assert "" + text == text;
    }
  }

  lemma StepText(o: Outline, who: map<nat, Call>, acc: Acc, text: string)
    requires Accumulates(o, who, acc) && (text == "" || o.streams == [])
    ensures Accumulates(Draw(o, Text(text)), who, ApplyOp(acc, Text(text)).value)
  {
    if text == "" {
      assert o.text + text == o.text;
    } else {
      var after := AppendText(acc, text);
      assert acc.blocks == TextBlocks(o.text);
      assert o.text == "" ==> o.text + text == text;
      assert after.blocks == TextBlocks(o.text + text);
    }
  }

  lemma StepOpen(o: Outline, who: map<nat, Call>, acc: Acc, op: Op)
    requires Accumulates(o, who, acc) && op.Tool? && op.stream !in o.arguments && Follows(o, op, who)
    ensures ApplyOp(acc, op).Ok? && Accumulates(Draw(o, op), who, ApplyOp(acc, op).value)
  {
    var next, n := Draw(o, op), |o.streams|;
    var after := OpenTool(acc, op.stream, op.id.value, op.name.value, op.more);
    assert ApplyOp(acc, op) == Ok(after);
    forall i: nat | i < |next.streams|
      ensures Placed(next, who, after, i)
    {
      assert i < n ==> Placed(o, who, acc, i);
    }
  }

  lemma StepExtend(o: Outline, who: map<nat, Call>, acc: Acc, op: Op)
    requires Accumulates(o, who, acc) && op.Tool? && op.stream in o.arguments && Follows(o, op, who)
    ensures ApplyOp(acc, op).Ok? && Accumulates(Draw(o, op), who, ApplyOp(acc, op).value)
  {
    var next, n := Draw(o, op), |TextBlocks(o.text)|;
    var at := acc.toolAt[op.stream];
    assert Placed(o, who, acc, at - n);
    var after := ExtendTool(acc, at, op.more);
    assert ApplyOp(acc, op) == Ok(after);
    if op.more == "" {
      assert o.arguments[op.stream] + op.more == o.arguments[op.stream];
    }
    forall i: nat | i < |next.streams|
      ensures Placed(next, who, after, i)
    {
      assert Placed(o, who, acc, i);
    }
  }

  lemma Step(o: Outline, who: map<nat, Call>, acc: Acc, op: Op)
    requires Accumulates(o, who, acc) && Follows(o, op, who)
    ensures ApplyOp(acc, op).Ok? && Accumulates(Draw(o, op), who, ApplyOp(acc, op).value)
  {
    match op
    case Reason(text) => StepReason(o, who, acc, text);
    case Text(text) => StepText(o, who, acc, text);
    case Tool(stream, _, _, _) =>
      if stream in o.arguments { StepExtend(o, who, acc, op); } else { StepOpen(o, who, acc, op); }
  }

  /** Every fitting list of operations is accepted and accumulates its outline. */
  lemma {:induction false} FittingAccumulates(ops: seq<Op>, who: map<nat, Call>)
    requires Fits(ops, who)
    ensures ApplyOps(EMPTY, ops).Ok? && Accumulates(OutlineOf(ops), who, ApplyOps(EMPTY, ops).value)
    decreases |ops|
  {
    if ops != [] {
      var before, last := ops[..|ops| - 1], ops[|ops| - 1];
      FittingAccumulates(before, who);
      OneMoreAccumulates(ops, who, before, last, ApplyOps(EMPTY, before).value);
    }
  }

  lemma {:induction false} OneMoreAccumulates(ops: seq<Op>, who: map<nat, Call>, before: seq<Op>, last: Op, acc: Acc)
    requires ops != [] && before == ops[..|ops| - 1] && last == ops[|ops| - 1] && Fits(ops, who)
    requires ApplyOps(EMPTY, before) == Ok(acc) && Accumulates(OutlineOf(before), who, acc)
    ensures ApplyOps(EMPTY, ops).Ok? && Accumulates(OutlineOf(ops), who, ApplyOps(EMPTY, ops).value)
  {
    Step(OutlineOf(before), who, acc, last);
    OneMoreApplies(ops, before, last, acc, ApplyOp(acc, last).value);
  }

  lemma {:induction false} OneMoreApplies(ops: seq<Op>, before: seq<Op>, last: Op, acc: Acc, next: Acc)
    requires ops != [] && before == ops[..|ops| - 1] && last == ops[|ops| - 1]
    requires ApplyOps(EMPTY, before) == Ok(acc) && ApplyOp(acc, last) == Ok(next)
    ensures ApplyOps(EMPTY, ops) == Ok(next)
  {
    assert ops == before + [last];
    ApplyAppend(EMPTY, before, [last]);
    OneOp(acc, last);
  }

  // ---------------------------------------------------------------- the one-shot form

  function WholeCall(call: Call): Field<RawCall> {
    Given(RawCall(None, Given("function"), Given(call.id), Given(CallFunction(Given(call.name), Given(call.arguments)))))
  }

  function WholeCalls(calls: seq<Call>): seq<Field<RawCall>> {
    seq(|calls|, i requires 0 <= i < |calls| => WholeCall(calls[i]))
  }

  function WholeMessage(c: Completion): RawMessage {
    RawMessage(Given("assistant"), if c.reasoning.Some? then Given(c.reasoning.value) else Absent,
               Given(c.text), Given(WholeCalls(c.calls)))
  }

  function WholePayload(c: Completion, finish: Field<string>): Payload {
    Payload(false, Absent, Given([Given(Choice(Absent, finish, Given(WholeMessage(c)), Absent))]))
  }

  function CallBlock(call: Call, canonical: string -> string): Block {
    ToolBlock(call.id, canonical(call.name), call.arguments)
  }

  /** The calls from one on are opened as blocks of their own, after what is already there. */
  ghost predicate Opens(before: Acc, after: Acc, calls: seq<Call>, from: nat, canonical: string -> string)
    requires from <= |calls|
  {
    var n := |before.blocks|;
    && |after.blocks| == n + |calls| - from
    && (forall k | 0 <= k < n :: after.blocks[k] == before.blocks[k])
    && (forall j | from <= j < |calls| :: after.blocks[n + j - from] == CallBlock(calls[j], canonical))
    && after.reasoning == before.reasoning && after.reasoningSeen == before.reasoningSeen && after.finish == before.finish
  }

  lemma OpensOneMore(before: Acc, after: Acc, calls: seq<Call>, from: nat, canonical: string -> string)
    requires from < |calls|
    requires var call := calls[from];
             Opens(OpenTool(before, from, call.id, canonical(call.name), call.arguments), after, calls, from + 1, canonical)
    ensures Opens(before, after, calls, from, canonical)
  {
    var n, next := |before.blocks|, OpenTool(before, from, calls[from].id, canonical(calls[from].name), calls[from].arguments);
    forall j | from <= j < |calls|
      ensures after.blocks[n + j - from] == CallBlock(calls[j], canonical)
    {
      if j == from {
        assert after.blocks[n] == next.blocks[n];
      } else {
        assert after.blocks[|next.blocks| + j - (from + 1)] == CallBlock(calls[j], canonical);
      }
    }
  }

  lemma WholeCallOpens(acc: Acc, calls: seq<Call>, from: nat, canonical: string -> string, next: Acc)
    requires from < |calls| && |acc.toolAt| == from && forall s <- acc.toolAt :: s < from
    requires next == OpenTool(acc, from, calls[from].id, canonical(calls[from].name), calls[from].arguments)
    ensures MessageCall(acc, WholeCalls(calls)[from], canonical) == Ok(next)
    ensures |next.toolAt| == from + 1 && forall s <- next.toolAt :: s < from + 1
  {
    assert next.toolAt.Keys == acc.toolAt.Keys + {from};
  }

  /** A whole message numbers its calls 0, 1, 2, ...: none of them is taken for another. */
  lemma {:induction false} WholeCallsOpen(acc: Acc, calls: seq<Call>, from: nat, canonical: string -> string)
    requires from <= |calls|
    requires |acc.toolAt| == from && forall s <- acc.toolAt :: s < from
    ensures var applied := MessageCalls(acc, WholeCalls(calls), from, canonical);
            applied.Ok? && Opens(acc, applied.value, calls, from, canonical)
    decreases |calls| - from
  {
    if from < |calls| {
      var call := calls[from];
      var next := OpenTool(acc, from, call.id, canonical(call.name), call.arguments);
      WholeCallOpens(acc, calls, from, canonical, next);
      WholeCallsOpen(next, calls, from + 1, canonical);
      OpensOneMore(acc, MessageCalls(next, WholeCalls(calls), from + 1, canonical).value, calls, from, canonical);
    }
  }

  /** An accumulator that holds exactly the completion. */
  ghost predicate Whole(c: Completion, acc: Acc, canonical: string -> string) {
    var texts := TextBlocks(c.text);
    && |acc.blocks| == |texts| + |c.calls| && (texts != [] ==> acc.blocks[0] == texts[0])
    && (forall j: nat | j < |c.calls| :: acc.blocks[|texts| + j] == CallBlock(c.calls[j], canonical))
    && acc.reasoningSeen == c.reasoning.Some?
    && (c.reasoning.Some? ==> acc.reasoning == c.reasoning.value)
  }

  lemma WholeApplies(c: Completion, finish: Field<string>, canonical: string -> string, acc: Acc)
    requires ReadFinish(finish, None).Ok?
    requires MessageCalls(WholeStart(c, finish), WholeCalls(c.calls), 0, canonical) == Ok(acc)
    ensures ApplyPayload(EMPTY, WholePayload(c, finish), canonical) == Ok(acc)
  {
    assert ApplyMessage(EMPTY.(finish := ReadFinish(finish, None).value), WholeMessage(c), canonical) == Ok(acc);
  }

  lemma OpensWhole(c: Completion, a: Acc, acc: Acc, canonical: string -> string)
    requires a.blocks == TextBlocks(c.text) && Opens(a, acc, c.calls, 0, canonical)
    requires a.reasoningSeen == c.reasoning.Some? && (c.reasoning.Some? ==> a.reasoning == c.reasoning.value)
    ensures Whole(c, acc, canonical) && acc.finish == a.finish
  {
    forall j: nat | j < |c.calls|
      ensures acc.blocks[|TextBlocks(c.text)| + j] == CallBlock(c.calls[j], canonical)
    {
      assert acc.blocks[|a.blocks| + j - 0] == CallBlock(c.calls[j], canonical);
    }
  }

  lemma WholeAccumulates(c: Completion, finish: Field<string>, canonical: string -> string)
    requires ReadFinish(finish, None).Ok?
    ensures var applied := ApplyPayload(EMPTY, WholePayload(c, finish), canonical);
            applied.Ok? && Whole(c, applied.value, canonical) && applied.value.finish == ReadFinish(finish, None).value
  {
    var a := WholeStart(c, finish);
    WholeCallsOpen(a, c.calls, 0, canonical);
    var acc := MessageCalls(a, WholeCalls(c.calls), 0, canonical).value;
    WholeApplies(c, finish, canonical, acc);
    OpensWhole(c, a, acc, canonical);
  }

  /** The accumulator of a whole message before its calls: reasoning, text and stop reason. */
  function WholeStart(c: Completion, finish: Field<string>): (a: Acc)
    requires ReadFinish(finish, None).Ok?
    ensures a.blocks == TextBlocks(c.text) && a.toolAt == map[] && a.finish == ReadFinish(finish, None).value
    ensures a.reasoningSeen == c.reasoning.Some? && (c.reasoning.Some? ==> a.reasoning == c.reasoning.value)
  {
    var start := EMPTY.(finish := ReadFinish(finish, None).value);
    AddContent(SetReasoning(start, WholeMessage(c).reasoningContent), Given(c.text), TextInvalid).value
  }

  // ---------------------------------------------------------------- the refinement

  /**
   * For every completion and every fragmentation of it into delta payloads that ends with the
   * same stop reason, finishing succeeds or fails alike and gives the same content, reasoning
   * and stop reason as the single whole message.
   */
  lemma StreamingRefinesOneShot<A>(c: Completion, payloads: seq<Payload>, who: map<nat, Call>, finish: Field<string>,
                                   canonical: string -> string, codec: JsonCodec<A>)
    requires forall p <- payloads :: PlainPayload(p)
    requires Fragmentation(StreamOps(payloads, canonical), who, c, canonical)
    requires ReadFinish(finish, None).Ok? && StreamFinish(payloads, None) == ReadFinish(finish, None).value
    ensures var streamed := ApplyPayloads(EMPTY, payloads, canonical);
            var whole := ApplyPayload(EMPTY, WholePayload(c, finish), canonical);
            && streamed.Ok? && whole.Ok?
            && match (Finish(streamed.value, codec), Finish(whole.value, codec)) {
                 case (Ok(s), Ok(w)) =>
                   && s.message.content == w.message.content
                   && s.message.reasoning == w.message.reasoning
                   && s.message.stopReason == w.message.stopReason
                 case (Err(s), Err(w)) => s == w
                 case _ => false
               }
  {
    var ops := StreamOps(payloads, canonical);
    FittingAccumulates(ops, who);
    StreamIsOps(EMPTY, payloads, canonical);
    WholeAccumulates(c, finish, canonical);
    var streamed := ApplyPayloads(EMPTY, payloads, canonical).value;
    var whole := ApplyPayload(EMPTY, WholePayload(c, finish), canonical).value;
    SameBlocks(OutlineOf(ops), who, ApplyOps(EMPTY, ops).value, c, whole, canonical);
    FinishAlike(streamed, whole, codec);
  }

  lemma SameBlocks(o: Outline, who: map<nat, Call>, acc: Acc, c: Completion, whole: Acc, canonical: string -> string)
    requires Accumulates(o, who, acc) && Cut(o, who, c, canonical) && Whole(c, whole, canonical)
    ensures acc.blocks == whole.blocks
  {
    var n := |TextBlocks(c.text)|;
    forall k: nat | k < |whole.blocks|
      ensures acc.blocks[k] == whole.blocks[k]
    {
      if n <= k {
        assert Placed(o, who, acc, k - n);
        assert whole.blocks[n + (k - n)] == CallBlock(c.calls[k - n], canonical);
      }
    }
  }

  /** Finishing looks at the blocks, the reasoning and the stop reason only. */
  lemma FinishAlike<A>(left: Acc, right: Acc, codec: JsonCodec<A>)
    requires left.blocks == right.blocks && left.finish == right.finish
    requires left.reasoningSeen == right.reasoningSeen && (left.reasoningSeen ==> left.reasoning == right.reasoning)
    ensures match (Finish(left, codec), Finish(right, codec))
            case (Ok(l), Ok(r)) =>
              l.message.content == r.message.content && l.message.reasoning == r.message.reasoning
              && l.message.stopReason == r.message.stopReason
            case (Err(l), Err(r)) => l == r
            case _ => false
  {
  }
}
