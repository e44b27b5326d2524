/**
 * The deltas of a finished response replay to its message. The replay is the worker's own
 * check of a model response; it is passed by every response the transport can return, except
 * when a whole message overwrites reasoning that was streamed before it and differs from it.
 */
module TransportReplay {
  import opened Prelude
  import opened Transport

  // ---------------------------------------------------------------- the worker's check

  /** Adds one delta to the fragments collected so far; None is the worker's mismatch error. */
  function Collect(fragments: map<nat, Block>, delta: Delta): Option<map<nat, Block>> {
    match delta
    case ReasoningDelta(_) => Some(fragments)
    case TextDelta(i, text) =>
      if i !in fragments then Some(fragments[i := TextBlock(text)])
      else if fragments[i].TextBlock? then Some(fragments[i := TextBlock(fragments[i].text + text)])
      else None
    case ToolDelta(i, id, name, more) =>
      if i !in fragments then Some(fragments[i := ToolBlock(id, name, more)])
      else if fragments[i].ToolBlock? && fragments[i].id == id && fragments[i].name == name then
        Some(fragments[i := ToolBlock(id, name, fragments[i].argumentsText + more)])
      else None
  }

  function Fragments(deltas: seq<Delta>): Option<map<nat, Block>> {
    if deltas == [] then Some(map[])
    else
      match Fragments(deltas[..|deltas| - 1])
      case Some(before) => Collect(before, deltas[|deltas| - 1])
      case None => None
  }

  function Streamed(deltas: seq<Delta>): string {
    if deltas == [] then ""
    else
      var last := deltas[|deltas| - 1];
      Streamed(deltas[..|deltas| - 1]) + if last.ReasoningDelta? then last.text else ""
  }

  predicate BlockMatches<A(==)>(fragment: Block, content: Content<A>, codec: JsonCodec<A>) {
    match content
    case TextContent(text) => fragment == TextBlock(text)
    case ToolContent(id, name, arguments) =>
      && fragment.ToolBlock? && fragment.id == id && fragment.name == name
      && codec.parse(fragment.argumentsText) == Some(arguments)
  }

  /** Whether the worker accepts a message together with the deltas announced for it. */
  predicate Matches<A(==)>(deltas: seq<Delta>, message: Message<A>, codec: JsonCodec<A>) {
    || deltas == []
    || (&& (Streamed(deltas) != "" ==> message.reasoning == Some(Streamed(deltas)))
        && Fragments(deltas).Some?
        && var fragments := Fragments(deltas).value;
           && |fragments| == |message.content|
           && forall i: nat | i < |message.content| ::
                i in fragments && BlockMatches(fragments[i], message.content[i], codec))
  }

  // ---------------------------------------------------------------- what accumulation keeps

  function AsMap(blocks: seq<Block>): map<nat, Block> {
    map i: nat | i < |blocks| :: blocks[i]
  }

  /** The deltas so far replay to exactly the blocks so far. */
  ghost predicate Replays(acc: Acc) {
    && Fragments(acc.deltas) == Some(AsMap(acc.blocks))
    && (Streamed(acc.deltas) != "" ==> acc.reasoningSeen)
  }

  lemma CollectLast(deltas: seq<Delta>, delta: Delta)
    requires Fragments(deltas).Some?
    ensures Fragments(deltas + [delta]) == Collect(Fragments(deltas).value, delta)
    ensures Streamed(deltas + [delta]) == Streamed(deltas) + if delta.ReasoningDelta? then delta.text else ""
  {
    assert (deltas + [delta])[..|deltas|] == deltas;
  }

  /** Text and tool calls keep the reasoning and the replay, whichever way they arrive. */
  ghost predicate KeepsReplay(before: Acc, after: Acc) {
    Replays(after) && Streamed(after.deltas) == Streamed(before.deltas)
    && after.reasoning == before.reasoning && after.reasoningSeen == before.reasoningSeen
  }

  lemma LastBlockChanges(blocks: seq<Block>, block: Block)
    requires blocks != []
    ensures AsMap(blocks[|blocks| - 1 := block]) == AsMap(blocks)[|blocks| - 1 := block]
  {
  }

  lemma BlockAdded(blocks: seq<Block>, block: Block)
    ensures AsMap(blocks + [block]) == AsMap(blocks)[|blocks| := block]
  {
  }

  lemma AppendTextReplays(acc: Acc, text: string)
    requires Replays(acc)
    ensures KeepsReplay(acc, AppendText(acc, text))
  {
    var n := |acc.blocks|;
    if n > 0 && acc.blocks[n - 1].TextBlock? {
      CollectLast(acc.deltas, TextDelta(n - 1, text));
      LastBlockChanges(acc.blocks, TextBlock(acc.blocks[n - 1].text + text));
    } else {
      CollectLast(acc.deltas, TextDelta(n, text));
      BlockAdded(acc.blocks, TextBlock(text));
    }
  }

  lemma ExtendToolReplays(acc: Acc, at: nat, more: string)
    requires Replays(acc) && at < |acc.blocks| && acc.blocks[at].ToolBlock?
    ensures Replays(ExtendTool(acc, at, more)) && Streamed(ExtendTool(acc, at, more).deltas) == Streamed(acc.deltas)
  {
    if more != "" {
      var after := ExtendTool(acc, at, more);
      CollectLast(acc.deltas, after.deltas[|acc.deltas|]);
      assert Collect(AsMap(acc.blocks), after.deltas[|acc.deltas|]).value == AsMap(after.blocks);
    }
  }

  lemma OpenToolReplays(acc: Acc, stream: int, id: string, name: string, arguments: string)
    requires Replays(acc)
    ensures var after := OpenTool(acc, stream, id, name, arguments);
            Replays(after) && Streamed(after.deltas) == Streamed(acc.deltas)
  {
    var after := OpenTool(acc, stream, id, name, arguments);
    CollectLast(acc.deltas, after.deltas[|acc.deltas|]);
    assert Collect(AsMap(acc.blocks), after.deltas[|acc.deltas|]).value == AsMap(after.blocks);
  }

  lemma AddContentReplays(acc: Acc, content: Field<string>, error: TransportError)
    requires Replays(acc) && AddContent(acc, content, error).Ok?
    ensures KeepsReplay(acc, AddContent(acc, content, error).value)
  {
    if content.Given? {
      AppendTextReplays(acc, content.value);
    }
  }

  lemma {:induction false} MessageCallsReplay(acc: Acc, calls: seq<Field<RawCall>>, from: nat, canonical: string -> string)
    requires Replays(acc) && from <= |calls| && MessageCalls(acc, calls, from, canonical).Ok?
    ensures KeepsReplay(acc, MessageCalls(acc, calls, from, canonical).value)
    decreases |calls| - from
  {
    if from < |calls| {
      var call := calls[from].value;
      var fn := call.function_.value;
      var stream := if call.index.Some? then call.index.value else |acc.toolAt|;
      var existing := Existing(acc.blocks, acc.toolAt, stream);
      if existing.Some? {
        ExtendToolReplays(acc, existing.value, fn.arguments.value);
      } else {
        OpenToolReplays(acc, stream, call.id.value, canonical(fn.name.value), fn.arguments.value);
      }
      MessageCallsReplay(MessageCall(acc, calls[from], canonical).value, calls, from + 1, canonical);
    }
  }

  lemma ToolFragmentReplays(acc: Acc, stream: nat, id: Option<string>, name: Option<string>, more: string)
    requires Replays(acc) && ToolFragment(acc, stream, id, name, more).Ok?
    ensures KeepsReplay(acc, ToolFragment(acc, stream, id, name, more).value)
  {
    var existing := Existing(acc.blocks, acc.toolAt, stream);
    if existing.Some? {
      ExtendToolReplays(acc, existing.value, more);
    } else {
      OpenToolReplays(acc, stream, id.value, name.value, more);
    }
  }

  lemma {:induction false} DeltaCallsReplay(acc: Acc, calls: seq<Field<RawCall>>, from: nat, canonical: string -> string)
    requires Replays(acc) && from <= |calls| && DeltaCalls(acc, calls, from, canonical).Ok?
    ensures KeepsReplay(acc, DeltaCalls(acc, calls, from, canonical).value)
    decreases |calls| - from
  {
    if from < |calls| {
      var call := calls[from].value;
      var fn := if call.function_.Given? then call.function_.value else CallFunction(Absent, Absent);
      var name := Optional(fn.name, ToolNameInvalid).value;
      var more := Optional(fn.arguments, ToolArgumentsInvalid).value;
      ToolFragmentReplays(acc, StreamIndex(call, from), Optional(call.id, ToolIdInvalid).value,
                          if name.Some? then Some(canonical(name.value)) else None,
                          if more.Some? then more.value else "");
      DeltaCallsReplay(DeltaCall(acc, calls[from], from, canonical).value, calls, from + 1, canonical);
    }
  }

  // ---------------------------------------------------------------- the reasoning account

  /** All reasoning streamed so far, and whether the accumulated reasoning still equals it. */
  datatype Ledger = Ledger(streamed: string, agrees: bool)

  function MessageEntry(l: Ledger, message: RawMessage): Ledger {
    if message.reasoningContent.Given? then l.(agrees := message.reasoningContent.value == l.streamed) else l
  }

  function DeltaEntry(l: Ledger, delta: RawDelta): Ledger {
    if ReasoningOf(delta).Some? then l.(streamed := l.streamed + ReasoningOf(delta).value) else l
  }

  function PayloadEntry(l: Ledger, payload: Payload): Ledger {
    if payload.choices.Given? && |payload.choices.value| == 1 && payload.choices.value[0].Given? then
      var choice := payload.choices.value[0].value;
      var a := if choice.message.Given? then MessageEntry(l, choice.message.value) else l;
      if choice.delta.Given? then DeltaEntry(a, choice.delta.value) else a
    else l
  }

  /** Read off the payloads alone: what each whole message restates of the reasoning streamed before it. */
  function Account(l: Ledger, payloads: seq<Payload>): Ledger
    decreases |payloads|
  {
    if payloads == [] then l else Account(PayloadEntry(l, payloads[0]), payloads[1..])
  }

  ghost predicate Accounted(acc: Acc, l: Ledger) {
    Replays(acc) && Streamed(acc.deltas) == l.streamed && (acc.reasoning == l.streamed <==> l.agrees)
  }

  lemma MessageAccounted(acc: Acc, l: Ledger, message: RawMessage, canonical: string -> string)
    requires Accounted(acc, l) && ApplyMessage(acc, message, canonical).Ok?
    ensures Accounted(ApplyMessage(acc, message, canonical).value, MessageEntry(l, message))
  {
    var a := SetReasoning(acc, message.reasoningContent);
    AddContentReplays(a, message.content, TextInvalid);
    var b := AddContent(a, message.content, TextInvalid).value;
    if message.toolCalls.Given? {
      MessageCallsReplay(b, message.toolCalls.value, 0, canonical);
    }
  }

  lemma ReasoningAccounted(acc: Acc, l: Ledger, text: string)
    requires Accounted(acc, l)
    ensures Accounted(AddReasoning(acc, text), l.(streamed := l.streamed + text))
  {
    if text != "" {
      CollectLast(acc.deltas, ReasoningDelta(text));
    }
    if acc.reasoning + text == l.streamed + text {
      assert (acc.reasoning + text)[..|acc.reasoning|] == acc.reasoning;
      assert (l.streamed + text)[..|l.streamed|] == l.streamed;
      assert |acc.reasoning + text| == |l.streamed + text|;
    }
  }

  lemma DeltaAccounted(acc: Acc, l: Ledger, delta: RawDelta, canonical: string -> string)
    requires Accounted(acc, l) && ApplyDelta(acc, delta, canonical).Ok?
    ensures Accounted(ApplyDelta(acc, delta, canonical).value, DeltaEntry(l, delta))
  {
    var a := acc;
    if ReasoningOf(delta).Some? {
      ReasoningAccounted(acc, l, ReasoningOf(delta).value);
      a := AddReasoning(acc, ReasoningOf(delta).value);
    }
    AddContentReplays(a, delta.content, TextDeltaInvalid);
    var b := AddContent(a, delta.content, TextDeltaInvalid).value;
    if delta.toolCalls.Given? {
      DeltaCallsReplay(b, delta.toolCalls.value, 0, canonical);
    }
  }

  lemma PayloadAccounted(acc: Acc, l: Ledger, payload: Payload, canonical: string -> string)
    requires Accounted(acc, l) && ApplyPayload(acc, payload, canonical).Ok?
    ensures Accounted(ApplyPayload(acc, payload, canonical).value, PayloadEntry(l, payload))
  {
    var a := acc.(usage := ReadUsage(payload.usage, acc.usage).value);
    if payload.choices.Given? && payload.choices.value != [] {
      var choice := payload.choices.value[0].value;
      a := a.(usage := ReadUsage(choice.usage, a.usage).value, finish := ReadFinish(choice.finishReason, a.finish).value);
      var b, m := a, l;
      if choice.message.Given? {
        MessageAccounted(a, l, choice.message.value, canonical);
        b, m := ApplyMessage(a, choice.message.value, canonical).value, MessageEntry(l, choice.message.value);
      }
      if choice.delta.Given? {
        DeltaAccounted(b, m, choice.delta.value, canonical);
      }
    }
  }

  lemma {:induction false} PayloadsAccounted(acc: Acc, l: Ledger, payloads: seq<Payload>, canonical: string -> string)
    requires Accounted(acc, l) && ApplyPayloads(acc, payloads, canonical).Ok?
    ensures Accounted(ApplyPayloads(acc, payloads, canonical).value, Account(l, payloads))
    decreases |payloads|
  {
    if payloads != [] {
      PayloadAccounted(acc, l, payloads[0], canonical);
      PayloadsAccounted(ApplyPayload(acc, payloads[0], canonical).value, PayloadEntry(l, payloads[0]), payloads[1..], canonical);
    }
  }

  // ---------------------------------------------------------------- finishing

  /** The fragments with every collapsed block's text replaced by its printed envelope. */
  function Envelopes<A>(fragments: map<nat, Block>, content: seq<Content<A>>, codec: JsonCodec<A>): map<nat, Block> {
    map i | i in fragments ::
      if Collapsed(content, i, codec) && fragments[i].ToolBlock?
      then fragments[i].(argumentsText := codec.stringify(content[i].arguments)) else fragments[i]
  }

  /** Kinds never change: a collapsed index is only ever written by tool deltas. */
  ghost predicate KindsAgree<A>(fragments: map<nat, Block>, content: seq<Content<A>>) {
    forall i <- fragments :: i < |content| ==> (fragments[i].ToolBlock? <==> content[i].ToolContent?)
  }

  lemma {:induction false} FragmentsGrow(deltas: seq<Delta>)
    requires deltas != [] && Fragments(deltas).Some?
    ensures var before := Fragments(deltas[..|deltas| - 1]);
            before.Some? && forall i <- before.value ::
              i in Fragments(deltas).value && (before.value[i].ToolBlock? <==> Fragments(deltas).value[i].ToolBlock?)
  {
  }

  lemma {:induction false} SeenIsCollected<A>(deltas: seq<Delta>, content: seq<Content<A>>, at: nat)
    requires Fragments(deltas).Some? && KindsAgree(Fragments(deltas).value, content)
    requires at < |content| && content[at].ToolContent?
    ensures SeenTool(deltas, at) <==> at in Fragments(deltas).value
    decreases |deltas|
  {
    if deltas != [] {
      var n := |deltas| - 1;
      FragmentsGrow(deltas);
      SeenIsCollected(deltas[..n], content, at);
      assert deltas == deltas[..n] + [deltas[n]];
    }
  }

  /** A delta that finishing leaves alone commutes with replacing the envelopes. */
  lemma PlainStep<A>(f: map<nat, Block>, last: Delta, content: seq<Content<A>>, codec: JsonCodec<A>)
    requires Collect(f, last).Some? && KindsAgree(f, content) && KindsAgree(Collect(f, last).value, content)
    requires !last.ToolDelta? || !Collapsed(content, last.contentIndex, codec)
    ensures Collect(Envelopes(f, content, codec), last) == Some(Envelopes(Collect(f, last).value, content, codec))
  {
    if !last.ReasoningDelta? {
      var at, e, g := last.contentIndex, Envelopes(f, content, codec), Collect(f, last).value;
      assert at in e <==> at in f;
      if at in f {
        assert e[at] == f[at];
      }
      assert g == f[at := g[at]];
      assert Collect(e, last) == Some(e[at := g[at]]);
      assert Envelopes(g, content, codec) == e[at := g[at]];
    }
  }

  /** The first delta of a collapsed block carries the whole envelope, the later ones nothing. */
  lemma EnvelopeStep<A>(f: map<nat, Block>, last: Delta, content: seq<Content<A>>, codec: JsonCodec<A>)
    requires Collect(f, last).Some? && KindsAgree(f, content)
    requires last.ToolDelta? && Collapsed(content, last.contentIndex, codec)
    ensures var at, e, done := last.contentIndex, Envelopes(f, content, codec), Envelopes(Collect(f, last).value, content, codec);
            if at in f then e == done
            else Collect(e, last.(argumentsDelta := codec.stringify(content[at].arguments))) == Some(done)
  {
    var at, e, g := last.contentIndex, Envelopes(f, content, codec), Collect(f, last).value;
    if at in f {
      assert e == Envelopes(g, content, codec);
    } else {
      assert Collect(e, last.(argumentsDelta := codec.stringify(content[at].arguments))).value == Envelopes(g, content, codec);
    }
  }

  lemma {:induction false} FinishedFragments<A>(deltas: seq<Delta>, content: seq<Content<A>>, codec: JsonCodec<A>)
    requires Fragments(deltas).Some? && KindsAgree(Fragments(deltas).value, content)
    ensures Fragments(FinishDeltas(deltas, content, codec)) == Some(Envelopes(Fragments(deltas).value, content, codec))
    ensures Streamed(FinishDeltas(deltas, content, codec)) == Streamed(deltas)
    decreases |deltas|
  {
    if deltas != [] {
      var n := |deltas| - 1;
      var before, last := deltas[..n], deltas[n];
      FragmentsGrow(deltas);
      FinishedFragments(before, content, codec);
      var done := FinishDeltas(before, content, codec);
      var f := Fragments(before).value;
      if !last.ToolDelta? || !Collapsed(content, last.contentIndex, codec) {
        CollectLast(done, last);
        PlainStep(f, last, content, codec);
      } else {
        SeenIsCollected(before, content, last.contentIndex);
        EnvelopeStep(f, last, content, codec);
        if last.contentIndex in f {
          assert done + [] == done;
        } else {
          CollectLast(done, last.(argumentsDelta := codec.stringify(content[last.contentIndex].arguments)));
        }
      }
    }
  }

  lemma AsMapSize(blocks: seq<Block>)
    ensures |AsMap(blocks)| == |blocks|
    decreases |blocks|
  {
    if blocks != [] {
      var n := |blocks| - 1;
      AsMapSize(blocks[..n]);
      assert AsMap(blocks) == AsMap(blocks[..n])[n := blocks[n]];
    }
  }

  /** A replaying accumulator finishes to a message whose blocks its deltas match, index by index. */
  lemma {:induction false} FinishReplays<A(!new)>(acc: Acc, codec: JsonCodec<A>)
    requires Lawful(codec) && Replays(acc) && Finish(acc, codec).Ok?
    ensures var response := Finish(acc, codec).value;
            && Streamed(response.deltas) == Streamed(acc.deltas)
            && Fragments(response.deltas).Some?
            && var fragments := Fragments(response.deltas).value;
               && |fragments| == |response.message.content|
               && forall i: nat | i < |response.message.content| ::
                    i in fragments && BlockMatches(fragments[i], response.message.content[i], codec)
  {
    var content := Contents(acc.blocks, codec);
    FinishedFragments(acc.deltas, content, codec);
    AsMapSize(acc.blocks);
    SameSize(Envelopes(AsMap(acc.blocks), content, codec), AsMap(acc.blocks));
  }

  lemma SameSize<K, V, W>(m: map<K, V>, n: map<K, W>)
    requires m.Keys == n.Keys
    ensures |m| == |n|
  {
    assert |m| == |m.Keys| && |n| == |n.Keys|;
  }

  /**
   * Deltas replay to the message: every response built from accepted payloads passes the
   * worker's check if and only if no reasoning was streamed, or each whole message that
   * carries reasoning restates what was streamed up to it (the last such message decides).
   */
  lemma DeltasReplay<A(!new)>(payloads: seq<Payload>, canonical: string -> string, codec: JsonCodec<A>)
    requires Lawful(codec)
    requires ApplyPayloads(EMPTY, payloads, canonical).Ok?
    requires Finish(ApplyPayloads(EMPTY, payloads, canonical).value, codec).Ok?
    ensures var response := Finish(ApplyPayloads(EMPTY, payloads, canonical).value, codec).value;
            var account := Account(Ledger("", true), payloads);
            Matches(response.deltas, response.message, codec) <==> account.streamed == "" || account.agrees
  {
    assert AsMap([]) == map[];
    PayloadsAccounted(EMPTY, Ledger("", true), payloads, canonical);
    var acc := ApplyPayloads(EMPTY, payloads, canonical).value;
    FinishReplays(acc, codec);
    var response := Finish(acc, codec).value;
    assert 0 < |Fragments(response.deltas).value|;
  }

  /** Without whole messages that carry reasoning the check always passes. */
  lemma {:induction false} StreamsAgree(l: Ledger, payloads: seq<Payload>)
    requires l.agrees
    requires forall p <- payloads :: p.choices.Given? && |p.choices.value| == 1 && p.choices.value[0].Given?
                                     && p.choices.value[0].value.message.Given?
                                     ==> !p.choices.value[0].value.message.value.reasoningContent.Given?
    ensures Account(l, payloads).agrees
    decreases |payloads|
  {
    if payloads != [] {
      StreamsAgree(PayloadEntry(l, payloads[0]), payloads[1..]);
    }
  }

  function OfChoice(message: Field<RawMessage>, delta: Field<RawDelta>, finish: Field<string>): Payload {
    Payload(false, Absent, Given([Given(Choice(Absent, finish, message, delta))]))
  }

  /** A concrete stream the check refuses: reasoning "a" is streamed, then a whole message says "b". */
  lemma OverwrittenReasoningFails<A(!new)>(canonical: string -> string, codec: JsonCodec<A>)
    requires Lawful(codec)
    ensures var payloads := [
              OfChoice(Absent, Given(RawDelta(Given("a"), Absent, Absent, Absent, Absent)), Absent),
              OfChoice(Given(RawMessage(Given("assistant"), Given("b"), Given("x"), Absent)), Absent, Given("stop"))];
            var applied := ApplyPayloads(EMPTY, payloads, canonical);
            && applied.Ok? && Finish(applied.value, codec).Ok?
            && var response := Finish(applied.value, codec).value;
               !Matches(response.deltas, response.message, codec)
  {
    var first := OfChoice(Absent, Given(RawDelta(Given("a"), Absent, Absent, Absent, Absent)), Absent);
    var second := OfChoice(Given(RawMessage(Given("assistant"), Given("b"), Given("x"), Absent)), Absent, Given("stop"));
    var payloads := [first, second];
    assert payloads[1..] == [second];
    assert [second][1..] == [];
    var a := ApplyPayload(EMPTY, first, canonical).value;
    assert a.reasoning == "a";
    var b := ApplyPayload(a, second, canonical).value;
    assert ApplyPayloads(a, [second], canonical) == Ok(b);
    assert ApplyPayloads(EMPTY, payloads, canonical) == Ok(b);
    var l1 := PayloadEntry(Ledger("", true), first);
    assert l1.streamed == "a";
    assert Account(l1, [second]) == PayloadEntry(l1, second);
    assert Account(Ledger("", true), payloads) == Account(l1, [second]);
    DeltasReplay(payloads, canonical, codec);
  }
}
