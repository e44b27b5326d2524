/**
 * The completion accumulator of the model transport: provider payloads, whole or in
 * fragments, become one assistant message and the list of deltas that led to it.
 */
module Transport {
  import opened Prelude
  import Sse

  const MAX_SAFE_INTEGER := 0x1F_FFFF_FFFF_FFFF

  /** A member of a provider object: undefined, null, of another type than expected, or as expected. */
  datatype Field<+T> = Absent | Null | Wrong | Given(value: T)

  datatype StopReason = Stop | Length | ToolUse

  datatype Usage = Usage(input: Option<nat>, output: Option<nat>)

  datatype RawUsage = RawUsage(promptTokens: Field<nat>, completionTokens: Field<nat>)

  datatype CallFunction = CallFunction(name: Field<string>, arguments: Field<string>)

  /** One entry of `tool_calls`; `index` is present when it is a number. */
  datatype RawCall = RawCall(index: Option<int>, kind: Field<string>, id: Field<string>, function_: Field<CallFunction>)

  datatype RawMessage = RawMessage(
    role: Field<string>, reasoningContent: Field<string>, content: Field<string>, toolCalls: Field<seq<Field<RawCall>>>)

  datatype RawDelta = RawDelta(
    reasoningContent: Field<string>, reasoning: Field<string>, reasoningText: Field<string>,
    content: Field<string>, toolCalls: Field<seq<Field<RawCall>>>)

  datatype Choice = Choice(
    usage: Field<RawUsage>, finishReason: Field<string>, message: Field<RawMessage>, delta: Field<RawDelta>)

  datatype Payload = Payload(inBandError: bool, usage: Field<RawUsage>, choices: Field<seq<Field<Choice>>>)

  datatype TransportError =
    | InBandError | ObjectInvalid | ChoiceInvalid | UsageInvalid | FinishReasonInvalid
    | RoleInvalid | TextInvalid | TextDeltaInvalid | ToolCallsInvalid | ToolCallInvalid
    | ToolIdInvalid | ToolNameInvalid | ToolArgumentsInvalid
    | IdentityIncomplete | IdentityChanged | NameChanged
    | StopReasonMissing | NoContent | StreamFailed

  datatype Delta =
    | ReasoningDelta(text: string)
    | TextDelta(contentIndex: nat, text: string)
    | ToolDelta(contentIndex: nat, id: string, name: string, argumentsDelta: string)

  /** A content block; its content index is its position in the list of blocks. */
  datatype Block =
    | TextBlock(text: string)
    | ToolBlock(id: string, name: string, argumentsText: string)

  /** The accumulator's value: `toolAt` finds the block a stream index opened. */
  datatype Acc = Acc(
    deltas: seq<Delta>, blocks: seq<Block>, toolAt: map<int, nat>,
    reasoning: string, reasoningSeen: bool, finish: Option<StopReason>, usage: Option<Usage>)

  const EMPTY: Acc := Acc([], [], map[], "", false, None, None)

  /** The position of the tool block a stream index opened. */
  function Existing(blocks: seq<Block>, toolAt: map<int, nat>, stream: int): (at: Option<nat>)
    ensures at.Some? ==> at.value < |blocks| && blocks[at.value].ToolBlock?
  {
    if stream in toolAt && toolAt[stream] < |blocks| && blocks[toolAt[stream]].ToolBlock? then Some(toolAt[stream]) else None
  }

  // ---------------------------------------------------------------- one step on values

  function AppendText(acc: Acc, text: string): Acc {
    var n := |acc.blocks|;
    if n > 0 && acc.blocks[n - 1].TextBlock? then
      acc.(blocks := acc.blocks[n - 1 := TextBlock(acc.blocks[n - 1].text + text)],
           deltas := acc.deltas + [TextDelta(n - 1, text)])
    else
      acc.(blocks := acc.blocks + [TextBlock(text)], deltas := acc.deltas + [TextDelta(n, text)])
  }

  /** Appends to an open tool block; an empty fragment leaves no delta. */
  function ExtendTool(acc: Acc, at: nat, more: string): Acc
    requires at < |acc.blocks| && acc.blocks[at].ToolBlock?
  {
    var block := acc.blocks[at];
    if more == "" then acc
    else
      acc.(blocks := acc.blocks[at := block.(argumentsText := block.argumentsText + more)],
           deltas := acc.deltas + [ToolDelta(at, block.id, block.name, more)])
  }

  /** Opens a tool block; even an empty first fragment leaves a delta. */
  function OpenTool(acc: Acc, stream: int, id: string, name: string, arguments: string): Acc {
    var n := |acc.blocks|;
    acc.(blocks := acc.blocks + [ToolBlock(id, name, arguments)],
         toolAt := acc.toolAt[stream := n],
         deltas := acc.deltas + [ToolDelta(n, id, name, arguments)])
  }

  function AppendTool(acc: Acc, stream: int, id: string, name: string, arguments: string): Result<Acc, TransportError> {
    match Existing(acc.blocks, acc.toolAt, stream)
    case None => Ok(OpenTool(acc, stream, id, name, arguments))
    case Some(at) =>
      if acc.blocks[at].id != id || acc.blocks[at].name != name then Err(IdentityChanged)
      else Ok(ExtendTool(acc, at, arguments))
  }

  function MessageCall(acc: Acc, raw: Field<RawCall>, canonical: string -> string): Result<Acc, TransportError> {
    match raw
    case Given(RawCall(index, kind, id, Given(CallFunction(name, arguments)))) =>
      if kind == Given("function") && id.Given? && name.Given? && arguments.Given? then
        var stream := if index.Some? then index.value else |acc.toolAt|;
        AppendTool(acc, stream, id.value, canonical(name.value), arguments.value)
      else Err(ToolCallInvalid)
    case _ => Err(ObjectInvalid)
  }

  function MessageCalls(acc: Acc, calls: seq<Field<RawCall>>, from: nat, canonical: string -> string)
    : Result<Acc, TransportError>
    requires from <= |calls|
    decreases |calls| - from
  {
    if from == |calls| then Ok(acc)
    else
      var next :- MessageCall(acc, calls[from], canonical);
      MessageCalls(next, calls, from + 1, canonical)
  }

  /** The text member of a message or a delta: an empty or missing one adds nothing. */
  function AddContent(acc: Acc, content: Field<string>, error: TransportError): Result<Acc, TransportError> {
    match content
    case Given(text) => Ok(if text == "" then acc else AppendText(acc, text))
    case Wrong => Err(error)
    case _ => Ok(acc)
  }

  /** A whole message replaces the reasoning, where a delta would add to it. */
  function SetReasoning(acc: Acc, reasoning: Field<string>): Acc {
    if reasoning.Given? then acc.(reasoning := reasoning.value, reasoningSeen := true) else acc
  }

  function ApplyMessage(acc: Acc, message: RawMessage, canonical: string -> string): Result<Acc, TransportError> {
    if message.role != Given("assistant") then Err(RoleInvalid)
    else
      var b :- AddContent(SetReasoning(acc, message.reasoningContent), message.content, TextInvalid);
      match message.toolCalls
      case Absent => Ok(b)
      case Given(calls) => MessageCalls(b, calls, 0, canonical)
      case _ => Err(ToolCallsInvalid)
  }

  /** The stream index of a delta call: its own when it is a safe non-negative integer, else its offset. */
  function StreamIndex(call: RawCall, offset: nat): nat {
    match call.index
    case Some(i) => if 0 <= i <= MAX_SAFE_INTEGER then i else offset
    case None => offset
  }

  /** A string member that may be missing. */
  function Optional(field: Field<string>, error: TransportError): Result<Option<string>, TransportError> {
    match field
    case Given(s) => Ok(Some(s))
    case Wrong => Err(error)
    case _ => Ok(None)
  }

  /** One tool-call fragment, its members already read. */
  function ToolFragment(acc: Acc, stream: nat, id: Option<string>, name: Option<string>, more: string)
    : Result<Acc, TransportError>
  {
    match Existing(acc.blocks, acc.toolAt, stream)
    case None =>
      if id.None? || name.None? then Err(IdentityIncomplete)
      else Ok(OpenTool(acc, stream, id.value, name.value, more))
    case Some(at) =>
      if id.Some? && id.value != acc.blocks[at].id then Err(IdentityChanged)
      else if name.Some? && name.value != acc.blocks[at].name then Err(NameChanged)
      else Ok(ExtendTool(acc, at, more))
  }

  function DeltaCall(acc: Acc, raw: Field<RawCall>, offset: nat, canonical: string -> string): Result<Acc, TransportError> {
    match raw
    case Given(call) =>
      if call.function_.Wrong? then Err(ObjectInvalid)
      else
        var fn := if call.function_.Given? then call.function_.value else CallFunction(Absent, Absent);
        var id :- Optional(call.id, ToolIdInvalid);
        var name :- Optional(fn.name, ToolNameInvalid);
        var more :- Optional(fn.arguments, ToolArgumentsInvalid);
        ToolFragment(acc, StreamIndex(call, offset), id,
                     if name.Some? then Some(canonical(name.value)) else None,
                     if more.Some? then more.value else "")
    case _ => Err(ObjectInvalid)
  }

  function DeltaCalls(acc: Acc, calls: seq<Field<RawCall>>, from: nat, canonical: string -> string)
    : Result<Acc, TransportError>
    requires from <= |calls|
    decreases |calls| - from
  {
    if from == |calls| then Ok(acc)
    else
      var next :- DeltaCall(acc, calls[from], from, canonical);
      DeltaCalls(next, calls, from + 1, canonical)
  }

  /** The first of the three reasoning members that is a string. */
  function ReasoningOf(delta: RawDelta): Option<string> {
    if delta.reasoningContent.Given? then Some(delta.reasoningContent.value)
    else if delta.reasoning.Given? then Some(delta.reasoning.value)
    else if delta.reasoningText.Given? then Some(delta.reasoningText.value)
    else None
  }

  function AddReasoning(acc: Acc, text: string): Acc {
    acc.(reasoning := acc.reasoning + text, reasoningSeen := true,
         deltas := if text == "" then acc.deltas else acc.deltas + [ReasoningDelta(text)])
  }

  function ApplyDelta(acc: Acc, delta: RawDelta, canonical: string -> string): Result<Acc, TransportError> {
    var a := if ReasoningOf(delta).Some? then AddReasoning(acc, ReasoningOf(delta).value) else acc;
    var b :- AddContent(a, delta.content, TextDeltaInvalid);
    match delta.toolCalls
    case Absent => Ok(b)
    case Given(calls) => DeltaCalls(b, calls, 0, canonical)
    case _ => Err(ToolCallsInvalid)
  }

  function TokenCount(field: Field<nat>): Result<Option<nat>, TransportError> {
    match field
    case Given(n) => Ok(Some(n))
    case Wrong => Err(UsageInvalid)
    case _ => Ok(None)
  }

  function ReadUsage(field: Field<RawUsage>, current: Option<Usage>): Result<Option<Usage>, TransportError> {
    match field
    case Given(raw) =>
      var input :- TokenCount(raw.promptTokens);
      var output :- TokenCount(raw.completionTokens);
      Ok(Some(Usage(input, output)))
    case Wrong => Err(ObjectInvalid)
    case _ => Ok(current)
  }

  function ReadFinish(field: Field<string>, current: Option<StopReason>): Result<Option<StopReason>, TransportError> {
    match field
    case Given(value) =>
      if value == "stop" then Ok(Some(Stop))
      else if value == "length" then Ok(Some(Length))
      else if value == "tool_calls" then Ok(Some(ToolUse))
      else Err(FinishReasonInvalid)
    case Wrong => Err(FinishReasonInvalid)
    case _ => Ok(current)
  }

  function ApplyChoice(acc: Acc, choice: Choice, canonical: string -> string): Result<Acc, TransportError> {
    var usage :- ReadUsage(choice.usage, acc.usage);
    var finish :- ReadFinish(choice.finishReason, acc.finish);
    var a := acc.(usage := usage, finish := finish);
    var b :- match choice.message {
      case Given(message) => ApplyMessage(a, message, canonical)
      case Wrong => Err(ObjectInvalid)
      case _ => Ok(a)
    };
    match choice.delta
    case Given(delta) => ApplyDelta(b, delta, canonical)
    case Wrong => Err(ObjectInvalid)
    case _ => Ok(b)
  }

  function ApplyPayload(acc: Acc, payload: Payload, canonical: string -> string): Result<Acc, TransportError> {
    if payload.inBandError then Err(InBandError)
    else
      var usage :- ReadUsage(payload.usage, acc.usage);
      var a := acc.(usage := usage);
      match payload.choices
      case Absent => Ok(a)
      case Given(choices) =>
        if choices == [] then Ok(a)
        else if |choices| != 1 then Err(ChoiceInvalid)
        else if choices[0].Given? then ApplyChoice(a, choices[0].value, canonical)
        else Err(ObjectInvalid)
      case _ => Err(ChoiceInvalid)
  }

  function ApplyPayloads(acc: Acc, payloads: seq<Payload>, canonical: string -> string): Result<Acc, TransportError>
    decreases |payloads|
  {
    if payloads == [] then Ok(acc)
    else
      var next :- ApplyPayload(acc, payloads[0], canonical);
      ApplyPayloads(next, payloads[1..], canonical)
  }

  // ---------------------------------------------------------------- finishing

  /** JSON as finishing uses it: `parse` is None where the source would throw or the value is no object. */
  datatype JsonCodec<!A> = JsonCodec(
    parse: string -> Option<A>, stringify: A -> string, reserved: A -> bool, envelope: string -> A)

  /** Printing then parsing is the identity, and the error envelope carries the reserved key. */
  ghost predicate Lawful<A(!new)>(codec: JsonCodec<A>) {
    && (forall a :: codec.parse(codec.stringify(a)) == Some(a))
    && (forall raw :: codec.reserved(codec.envelope(raw)))
  }

  datatype Content<A> = TextContent(text: string) | ToolContent(id: string, name: string, arguments: A)

  datatype Message<A> = Message(
    content: seq<Content<A>>, stopReason: StopReason, reasoning: Option<string>, usage: Option<Usage>)

  datatype Response<A> = Response(deltas: seq<Delta>, message: Message<A>)

  function ContentOf<A>(block: Block, codec: JsonCodec<A>): Content<A> {
    match block
    case TextBlock(text) => TextContent(text)
    case ToolBlock(id, name, text) =>
      ToolContent(id, name,
                  match codec.parse(text)
                  case Some(a) => if codec.reserved(a) then codec.envelope(text) else a
                  case None => codec.envelope(text))
  }

  function Contents<A>(blocks: seq<Block>, codec: JsonCodec<A>): (content: seq<Content<A>>)
    ensures |content| == |blocks|
    ensures forall i | 0 <= i < |blocks| :: content[i] == ContentOf(blocks[i], codec)
  {
    seq(|blocks|, i requires 0 <= i < |blocks| => ContentOf(blocks[i], codec))
  }

  /** Arguments that could not be used: the content block holds the error envelope instead. */
  predicate Collapsed<A>(content: seq<Content<A>>, at: nat, codec: JsonCodec<A>) {
    at < |content| && content[at].ToolContent? && codec.reserved(content[at].arguments)
  }

  predicate SeenTool(deltas: seq<Delta>, at: nat) {
    exists d <- deltas :: d.ToolDelta? && d.contentIndex == at
  }

  /** What finishing makes of the deltas: one envelope delta for a collapsed block, the rest unchanged. */
  function FinishDeltas<A>(deltas: seq<Delta>, content: seq<Content<A>>, codec: JsonCodec<A>): seq<Delta> {
    if deltas == [] then []
    else
      var before := deltas[..|deltas| - 1];
      var last := deltas[|deltas| - 1];
      FinishDeltas(before, content, codec) +
      if !last.ToolDelta? || !Collapsed(content, last.contentIndex, codec) then [last]
      else if SeenTool(before, last.contentIndex) then []
      else [last.(argumentsDelta := codec.stringify(content[last.contentIndex].arguments))]
  }

  function Finish<A>(acc: Acc, codec: JsonCodec<A>): Result<Response<A>, TransportError> {
    if acc.finish.None? then Err(StopReasonMissing)
    else if acc.blocks == [] then Err(NoContent)
    else
      var content := Contents(acc.blocks, codec);
      Ok(Response(FinishDeltas(acc.deltas, content, codec),
                  Message(content, acc.finish.value,
                          if acc.reasoningSeen then Some(acc.reasoning) else None, acc.usage)))
  }

  // ---------------------------------------------------------------- the accumulator, updated in place

  class Accumulator {
    var deltas: seq<Delta>
    var blocks: seq<Block>
    var toolBlocks: map<int, nat>
    var reasoningContent: string
    var reasoningSeen: bool
    var finishReason: Option<StopReason>
    var usage: Option<Usage>

    ghost function View(): Acc
      reads this
    {
      Acc(deltas, blocks, toolBlocks, reasoningContent, reasoningSeen, finishReason, usage)
    }

    constructor ()
      ensures View() == EMPTY
    {
      deltas, blocks, toolBlocks := [], [], map[];
      reasoningContent, reasoningSeen := "", false;
      finishReason, usage := None, None;
    }

    method AppendTextBlock(text: string)
      modifies this
      ensures View() == AppendText(old(View()), text)
    {
      var n := |blocks|;
      if n > 0 && blocks[n - 1].TextBlock? {
        blocks := blocks[n - 1 := TextBlock(blocks[n - 1].text + text)];
        deltas := deltas + [TextDelta(n - 1, text)];
        return;
      }
      blocks := blocks + [TextBlock(text)];
      deltas := deltas + [TextDelta(n, text)];
    }

    method ExtendToolBlock(at: nat, more: string)
      requires at < |blocks| && blocks[at].ToolBlock?
      modifies this
      ensures View() == ExtendTool(old(View()), at, more)
    {
      if more != "" {
        var block := blocks[at];
        blocks := blocks[at := block.(argumentsText := block.argumentsText + more)];
        deltas := deltas + [ToolDelta(at, block.id, block.name, more)];
      }
    }

    method OpenToolBlock(stream: int, id: string, name: string, arguments: string)
      modifies this
      ensures View() == OpenTool(old(View()), stream, id, name, arguments)
    {
      var index := |blocks|;
      blocks := blocks + [ToolBlock(id, name, arguments)];
      toolBlocks := toolBlocks[stream := index];
      deltas := deltas + [ToolDelta(index, id, name, arguments)];
    }

    /** Says how a method that may throw relates to its specification; a failed accumulator is dropped. */
    ghost predicate Follows(outcome: Option<TransportError>, expected: Result<Acc, TransportError>)
      reads this
    {
      match expected
      case Ok(acc) => outcome == None && View() == acc
      case Err(e) => outcome == Some(e)
    }

    method AddMessageCalls(calls: seq<Field<RawCall>>, canonical: string -> string)
      returns (outcome: Option<TransportError>)
      modifies this
      ensures Follows(outcome, MessageCalls(old(View()), calls, 0, canonical))
    {
      for i := 0 to |calls|
        invariant MessageCalls(View(), calls, i, canonical) == MessageCalls(old(View()), calls, 0, canonical)
      {
        match calls[i] {
          case Given(RawCall(index, kind, id, Given(CallFunction(name, arguments)))) =>
            if kind != Given("function") || !id.Given? || !name.Given? || !arguments.Given? {
              return Some(ToolCallInvalid);
            }
            var stream := if index.Some? then index.value else |toolBlocks|;
            var existing := Existing(blocks, toolBlocks, stream);
            if existing.None? {
              OpenToolBlock(stream, id.value, canonical(name.value), arguments.value);
            } else {
              var block := blocks[existing.value];
              if block.id != id.value || block.name != canonical(name.value) { return Some(IdentityChanged); }
              ExtendToolBlock(existing.value, arguments.value);
            }
          case _ => return Some(ObjectInvalid);
        }
      }
      return None;
    }

    method AccumulateMessage(message: RawMessage, canonical: string -> string)
      returns (outcome: Option<TransportError>)
      modifies this
      ensures Follows(outcome, ApplyMessage(old(View()), message, canonical))
    {
      if message.role != Given("assistant") { return Some(RoleInvalid); }
      if message.reasoningContent.Given? {
        reasoningSeen := true;
        reasoningContent := message.reasoningContent.value;
      }
      if message.content.Given? && message.content.value != "" {
        AppendTextBlock(message.content.value);
      } else if message.content.Wrong? {
        return Some(TextInvalid);
      }
      match message.toolCalls {
        case Absent => return None;
        case Given(calls) => outcome := AddMessageCalls(calls, canonical);
        case _ => return Some(ToolCallsInvalid);
      }
    }

    method AddDeltaCalls(calls: seq<Field<RawCall>>, canonical: string -> string)
      returns (outcome: Option<TransportError>)
      modifies this
      ensures Follows(outcome, DeltaCalls(old(View()), calls, 0, canonical))
    {
      for offset := 0 to |calls|
        invariant DeltaCalls(View(), calls, offset, canonical) == DeltaCalls(old(View()), calls, 0, canonical)
      {
        if !calls[offset].Given? || calls[offset].value.function_.Wrong? { return Some(ObjectInvalid); }
        var call := calls[offset].value;
        var fn := if call.function_.Given? then call.function_.value else CallFunction(Absent, Absent);
        var id := Optional(call.id, ToolIdInvalid);
        if id.Err? { return Some(id.error); }
        var wireName := Optional(fn.name, ToolNameInvalid);
        if wireName.Err? { return Some(wireName.error); }
        var more := Optional(fn.arguments, ToolArgumentsInvalid);
        if more.Err? { return Some(more.error); }
        var stream := StreamIndex(call, offset);
        var name := if wireName.value.Some? then Some(canonical(wireName.value.value)) else None;
        var argumentsDelta := if more.value.Some? then more.value.value else "";
        var existing := Existing(blocks, toolBlocks, stream);
        if existing.None? {
          if id.value.None? || name.None? { return Some(IdentityIncomplete); }
          OpenToolBlock(stream, id.value.value, name.value, argumentsDelta);
        } else {
          var block := blocks[existing.value];
          if id.value.Some? && id.value.value != block.id { return Some(IdentityChanged); }
          if name.Some? && name.value != block.name { return Some(NameChanged); }
          ExtendToolBlock(existing.value, argumentsDelta);
        }
      }
      return None;
    }

    method AccumulateDelta(delta: RawDelta, canonical: string -> string)
      returns (outcome: Option<TransportError>)
      modifies this
      ensures Follows(outcome, ApplyDelta(old(View()), delta, canonical))
    {
      var reasoning := ReasoningOf(delta);
      if reasoning.Some? {
        reasoningSeen := true;
        reasoningContent := reasoningContent + reasoning.value;
        if reasoning.value != "" { deltas := deltas + [ReasoningDelta(reasoning.value)]; }
      }
      if delta.content.Wrong? { return Some(TextDeltaInvalid); }
      if delta.content.Given? && delta.content.value != "" {
        AppendTextBlock(delta.content.value);
      }
      match delta.toolCalls {
        case Absent => return None;
        case Given(calls) => outcome := AddDeltaCalls(calls, canonical);
        case _ => return Some(ToolCallsInvalid);
      }
    }

    method AccumulatePayload(payload: Payload, canonical: string -> string)
      returns (outcome: Option<TransportError>)
      modifies this
      ensures Follows(outcome, ApplyPayload(old(View()), payload, canonical))
    {
      if payload.inBandError { return Some(InBandError); }
      var reported := ReadUsage(payload.usage, usage);
      if reported.Err? { return Some(reported.error); }
      usage := reported.value;
      if payload.choices.Absent? { return None; }
      if !payload.choices.Given? { return Some(ChoiceInvalid); }
      if payload.choices.value == [] { return None; }
      if |payload.choices.value| != 1 { return Some(ChoiceInvalid); }
      if !payload.choices.value[0].Given? { return Some(ObjectInvalid); }
      var choice := payload.choices.value[0].value;
      reported := ReadUsage(choice.usage, usage);
      if reported.Err? { return Some(reported.error); }
      usage := reported.value;
      var finish := ReadFinish(choice.finishReason, finishReason);
      if finish.Err? { return Some(finish.error); }
      finishReason := finish.value;
      if choice.message.Wrong? { return Some(ObjectInvalid); }
      if choice.message.Given? {
        outcome := AccumulateMessage(choice.message.value, canonical);
        if outcome.Some? { return; }
      }
      if choice.delta.Wrong? { return Some(ObjectInvalid); }
      if choice.delta.Given? {
        outcome := AccumulateDelta(choice.delta.value, canonical);
        return;
      }
      return None;
    }
  }

  // ---------------------------------------------------------------- the live view

  /** The deltas a live observer is shown: text and reasoning, never tool fragments. */
  function Visible(deltas: seq<Delta>): seq<Delta> {
    if deltas == [] then []
    else Visible(deltas[..|deltas| - 1]) + (if deltas[|deltas| - 1].ToolDelta? then [] else [deltas[|deltas| - 1]])
  }

  /** The deltas that came with a payload reach the observer, tool fragments excepted. */
  method ForwardNew(deltas: seq<Delta>, from: nat, observed: seq<Delta>) returns (more: seq<Delta>)
    requires from <= |deltas| && observed == Visible(deltas[..from])
    ensures more == Visible(deltas)
  {
    more := observed;
    for i := from to |deltas|
      invariant more == Visible(deltas[..i])
    {
      assert deltas[..i + 1][..i] == deltas[..i];
      if !deltas[i].ToolDelta? { more := more + [deltas[i]]; }
    }
    assert deltas[..|deltas|] == deltas;
  }

  /**
   * Reads every payload into one accumulator and forwards what became visible after each.
   * The observer has then seen each visible delta of the accumulator once, in order.
   */
  method ParseStreamingResponse<A>(reading: Sse.Reading<Payload>, canonical: string -> string, codec: JsonCodec<A>)
    returns (response: Result<Response<A>, TransportError>, observed: seq<Delta>)
    ensures var applied := ApplyPayloads(EMPTY, reading.events, canonical);
            match applied {
              case Err(e) => response == Err(e)
              case Ok(acc) =>
                && observed == Visible(acc.deltas)
                && response == if reading.ending in {Sse.DoneMarker, Sse.BodyEnd} then Finish(acc, codec) else Err(StreamFailed)
            }
  {
    var accumulator := new Accumulator();
    var forwarded := 0;
    observed := [];
    for i := 0 to |reading.events|
      invariant ApplyPayloads(accumulator.View(), reading.events[i..], canonical) == ApplyPayloads(EMPTY, reading.events, canonical)
      invariant forwarded == |accumulator.deltas|
      invariant observed == Visible(accumulator.deltas)
    {
      ghost var before := accumulator.View();
      DeltasGrow(before, reading.events[i], canonical);
      var failure := accumulator.AccumulatePayload(reading.events[i], canonical);
      if failure.Some? {
        return Err(failure.value), observed;
      }
      assert before.deltas == accumulator.deltas[..forwarded];
      observed := ForwardNew(accumulator.deltas, forwarded, observed);
      forwarded := |accumulator.deltas|;
    }
    if reading.ending == Sse.TooLarge || reading.ending == Sse.BadEvent {
      return Err(StreamFailed), observed;
    }
    var value: Acc := Acc(accumulator.deltas, accumulator.blocks, accumulator.toolBlocks, accumulator.reasoningContent,
                           accumulator.reasoningSeen, accumulator.finishReason, accumulator.usage);
    response := Finish(value, codec);
  }

  lemma {:induction false} DeltasGrow(acc: Acc, payload: Payload, canonical: string -> string)
    ensures ApplyPayload(acc, payload, canonical).Ok? ==> acc.deltas <= ApplyPayload(acc, payload, canonical).value.deltas
  {
    if ApplyPayload(acc, payload, canonical).Ok? && payload.choices.Given? && |payload.choices.value| == 1 {
      var choice := payload.choices.value[0].value;
      var a := acc.(usage := ReadUsage(choice.usage, ReadUsage(payload.usage, acc.usage).value).value,
                          finish := ReadFinish(choice.finishReason, acc.finish).value);
      var b := if choice.message.Given? then ApplyMessage(a, choice.message.value, canonical).value else a;
      if choice.message.Given? { MessageGrows(a, choice.message.value, canonical); }
      if choice.delta.Given? { DeltaGrows(b, choice.delta.value, canonical); }
    }
  }

  lemma {:induction false} MessageGrows(acc: Acc, message: RawMessage, canonical: string -> string)
    requires ApplyMessage(acc, message, canonical).Ok?
    ensures acc.deltas <= ApplyMessage(acc, message, canonical).value.deltas
  {
    if message.toolCalls.Given? {
      var b := AddContent(SetReasoning(acc, message.reasoningContent), message.content, TextInvalid).value;
      MessageCallsGrow(b, message.toolCalls.value, 0, canonical);
    }
  }

  lemma {:induction false} MessageCallsGrow(acc: Acc, calls: seq<Field<RawCall>>, from: nat, canonical: string -> string)
    requires from <= |calls| && MessageCalls(acc, calls, from, canonical).Ok?
    ensures acc.deltas <= MessageCalls(acc, calls, from, canonical).value.deltas
    decreases |calls| - from
  {
    if from < |calls| {
      MessageCallsGrow(MessageCall(acc, calls[from], canonical).value, calls, from + 1, canonical);
    }
  }

  lemma {:induction false} DeltaGrows(acc: Acc, delta: RawDelta, canonical: string -> string)
    requires ApplyDelta(acc, delta, canonical).Ok?
    ensures acc.deltas <= ApplyDelta(acc, delta, canonical).value.deltas
  {
    if delta.toolCalls.Given? {
      var a := if ReasoningOf(delta).Some? then AddReasoning(acc, ReasoningOf(delta).value) else acc;
      var b := AddContent(a, delta.content, TextDeltaInvalid).value;
      DeltaCallsGrow(b, delta.toolCalls.value, 0, canonical);
    }
  }

  lemma {:induction false} DeltaCallsGrow(acc: Acc, calls: seq<Field<RawCall>>, from: nat, canonical: string -> string)
    requires from <= |calls| && DeltaCalls(acc, calls, from, canonical).Ok?
    ensures acc.deltas <= DeltaCalls(acc, calls, from, canonical).value.deltas
    decreases |calls| - from
  {
    if from < |calls| {
      DeltaCallsGrow(DeltaCall(acc, calls[from], from, canonical).value, calls, from + 1, canonical);
    }
  }
}
