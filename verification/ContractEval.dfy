/**
 * The deterministic evaluation of a Run's evidence: the contract rules over its events, and the
 * weighted quality score.
 */
module ContractEval {
  import opened Prelude
  import opened StableSort

  /** The payload members the rules read, where the payload is a record and they are strings. */
  datatype Payload = Payload(runId: Option<string>, effectKey: Option<string>, effect_key: Option<string>)

  /** `parses` is whether the record schema accepts the event; `time` is its parsed timestamp. */
  datatype Event = Event(
    id: string, workspaceId: string, channelId: string, streamId: string, number: nat, kind: string,
    time: int, payload: Payload, parses: bool)

  datatype Artifact = Artifact(
    id: string, workspaceId: string, channelId: string, runId: string, kind: string, validated: bool, parses: bool)

  datatype Span = Span(failed: bool, orphaned: bool)

  datatype Trace = Trace(traceId: string, spans: seq<Span>)

  datatype Evidence = Evidence(traceId: string, events: seq<Event>, artifacts: seq<Artifact>, trace: Option<Trace>)

  datatype Options = Options(
    version: string, requiredEventTypes: seq<string>, prohibitedEffectKeys: set<string>,
    requiredArtifactKinds: seq<string>, requireTerminal: bool)

  datatype Reason =
    | InvalidEvidence | MissingRequiredEvent | ProhibitedSideEffect
    | MissingRequiredArtifact | MissingTerminalEvent | OrphanedTrace

  datatype Verdict = Verdict(
    passed: bool, version: string, reason: Option<Reason>, failedRules: seq<string>, checkedEventIds: seq<string>)

  const TerminalTypes: set<string> := {
    "run.completed", "run.awaiting_input", "run.awaiting_approval", "run.failed", "run.timed_out", "run.cancelled"}

  // ---------------------------------------------------------------- ordering the events

  /** A locale's collation: where it places a string; two different strings may share a place. */
  type Collation = string -> real

  function Earlier(weigh: Collation): (Event, Event) -> bool {
    (l: Event, r: Event) =>
      if l.time != r.time then l.time < r.time
      else if weigh(l.streamId) != weigh(r.streamId) then weigh(l.streamId) < weigh(r.streamId)
      else if l.number != r.number then l.number < r.number
      else weigh(l.id) < weigh(r.id)
  }

  function OrderedEvents(weigh: Collation, events: seq<Event>): seq<Event> {
    Sort(Earlier(weigh), events)
  }

  function Ids(events: seq<Event>): seq<string> {
    if events == [] then [] else [events[0].id] + Ids(events[1..])
  }

  // ---------------------------------------------------------------- validating the evidence

  predicate BelongsTo(event: Event, traceId: string) {
    || event.streamId == traceId
    || (event.payload.runId == Some(traceId)
        && ("tool:" + traceId + ":" <= event.streamId || "effect:" <= event.streamId))
  }

  function SequenceKey(event: Event): string {
    event.streamId + ":" + Decimal(event.number)
  }

  function IdOf(event: Event): string {
    event.id
  }

  function KeySet(f: Event -> string, events: seq<Event>): set<string> {
    set x | x in events :: f(x)
  }

  function ValidateEvidence(e: Evidence): Option<Reason> {
    if e.traceId == "" || e.events == [] then Some(InvalidEvidence)
    else if !(forall x <- e.events :: x.parses) || !(forall a <- e.artifacts :: a.parses) then Some(InvalidEvidence)
    else
      var first := e.events[0];
      if exists x <- e.events :: x.workspaceId != first.workspaceId || x.channelId != first.channelId || !BelongsTo(x, e.traceId)
      then Some(InvalidEvidence)
      else if exists a <- e.artifacts :: a.workspaceId != first.workspaceId || a.channelId != first.channelId || a.runId != e.traceId
      then Some(InvalidEvidence)
      else if |KeySet(SequenceKey, e.events)| != |e.events| || |KeySet(IdOf, e.events)| != |e.events|
      then Some(InvalidEvidence)
      else if e.trace.Some? && e.trace.value.traceId != e.traceId then Some(InvalidEvidence)
      else None
  }

  // ---------------------------------------------------------------- the rules

  function NonEmpty(value: Option<string>): Option<string> {
    if value == Some("") then None else value
  }

  function EffectKey(event: Event): Option<string> {
    if NonEmpty(event.payload.effectKey).Some? then NonEmpty(event.payload.effectKey) else NonEmpty(event.payload.effect_key)
  }

  predicate Prohibited(event: Event, keys: set<string>) {
    "tool.effect." <= event.kind && EffectKey(event).Some? && EffectKey(event).value in keys
  }

  function Missing(prefix: string, required: seq<string>, present: set<string>): seq<string> {
    if required == [] then []
    else Missing(prefix, required[..|required| - 1], present)
         + if required[|required| - 1] in present then [] else [prefix + required[|required| - 1]]
  }

  function ProhibitedEffects(events: seq<Event>, keys: set<string>): seq<string> {
    if events == [] then []
    else ProhibitedEffects(events[..|events| - 1], keys)
         + if Prohibited(events[|events| - 1], keys) then ["prohibited_effect:" + EffectKey(events[|events| - 1]).value] else []
  }

  function Types(events: seq<Event>): set<string> {
    set x | x in events :: x.kind
  }

  function ValidatedKinds(artifacts: seq<Artifact>): set<string> {
    set a | a in artifacts && a.validated :: a.kind
  }

  predicate Orphaned(trace: Option<Trace>) {
    trace.Some? && exists s <- trace.value.spans :: s.failed && s.orphaned
  }

  predicate LacksTerminal(events: seq<Event>, options: Options) {
    options.requireTerminal && forall x <- events :: x.kind !in TerminalTypes
  }

  /** The rules by meaning, in the order they are reported. */
  function FailedRules(events: seq<Event>, e: Evidence, options: Options): seq<string> {
    Missing("required_event:", options.requiredEventTypes, Types(events))
    + ProhibitedEffects(events, options.prohibitedEffectKeys)
    + Missing("required_artifact:", options.requiredArtifactKinds, ValidatedKinds(e.artifacts))
    + (if LacksTerminal(events, options) then ["required_terminal_event"] else [])
    + (if Orphaned(e.trace) then ["orphaned_trace"] else [])
  }

  predicate Lacks(required: seq<string>, present: set<string>) {
    exists t <- required :: t !in present
  }

  predicate AnyProhibited(events: seq<Event>, keys: set<string>) {
    exists x <- events :: Prohibited(x, keys)
  }

  /** The first kind of rule that failed. */
  function FirstReason(events: seq<Event>, e: Evidence, options: Options): Option<Reason> {
    if Lacks(options.requiredEventTypes, Types(events)) then Some(MissingRequiredEvent)
    else if AnyProhibited(events, options.prohibitedEffectKeys) then Some(ProhibitedSideEffect)
    else if Lacks(options.requiredArtifactKinds, ValidatedKinds(e.artifacts)) then Some(MissingRequiredArtifact)
    else if LacksTerminal(events, options) then Some(MissingTerminalEvent)
    else if Orphaned(e.trace) then Some(OrphanedTrace)
    else None
  }

  function Evaluate(weigh: Collation, e: Evidence, options: Options): Verdict {
    var events := OrderedEvents(weigh, e.events);
    match ValidateEvidence(e)
    case Some(invalid) => Verdict(false, options.version, Some(invalid), ["invalid_evidence"], Ids(events))
    case None =>
      var rules := FailedRules(events, e, options);
      Verdict(rules == [], options.version, FirstReason(events, e, options), rules, Ids(events))
  }

  // ---------------------------------------------------------------- the evaluation as it runs

  lemma SnocPrefix<T>(s: seq<T>, i: nat)
    requires i < |s|
    ensures s[..i + 1][..i] == s[..i] && s[..i + 1][i] == s[i]
  {
  }

  lemma {:induction false} MissingSnoc(prefix: string, required: seq<string>, present: set<string>, i: nat)
    requires i < |required|
    ensures Missing(prefix, required[..i + 1], present)
            == Missing(prefix, required[..i], present) + if required[i] in present then [] else [prefix + required[i]]
    ensures Lacks(required[..i + 1], present) <==> Lacks(required[..i], present) || required[i] !in present
  {
    SnocPrefix(required, i);
    assert required[..i + 1] == required[..i] + [required[i]];
  }

  method CheckRequired(prefix: string, required: seq<string>, present: set<string>, failure: Reason,
                       failed: seq<string>, reason: Option<Reason>)
    returns (failedRules: seq<string>, first: Option<Reason>)
    ensures failedRules == failed + Missing(prefix, required, present)
    ensures first == if reason.None? && Lacks(required, present) then Some(failure) else reason
  {
    failedRules, first := failed, reason;
    for i := 0 to |required|
      invariant failedRules == failed + Missing(prefix, required[..i], present)
      invariant first == if reason.None? && Lacks(required[..i], present) then Some(failure) else reason
    {
      MissingSnoc(prefix, required, present, i);
      if required[i] !in present {
        failedRules := failedRules + [prefix + required[i]];
        if first.None? { first := Some(failure); }
      }
    }
    assert required[..|required|] == required;
  }

  method CheckEffects(events: seq<Event>, keys: set<string>, failed: seq<string>, reason: Option<Reason>)
    returns (failedRules: seq<string>, first: Option<Reason>)
    ensures failedRules == failed + ProhibitedEffects(events, keys)
    ensures first == if reason.None? && AnyProhibited(events, keys) then Some(ProhibitedSideEffect) else reason
  {
    failedRules, first := failed, reason;
    for i := 0 to |events|
      invariant failedRules == failed + ProhibitedEffects(events[..i], keys)
      invariant first == if reason.None? && AnyProhibited(events[..i], keys) then Some(ProhibitedSideEffect) else reason
    {
      SnocPrefix(events, i);
      assert events[..i + 1] == events[..i] + [events[i]];
      var event := events[i];
      if "tool.effect." <= event.kind {
        var key := EffectKey(event);
        if key.Some? && key.value in keys {
          assert events[i] in events[..i + 1] && Prohibited(events[i], keys);
          failedRules := failedRules + ["prohibited_effect:" + key.value];
          if first.None? { first := Some(ProhibitedSideEffect); }
        }
      }
    }
    assert events[..|events|] == events;
  }

  /** The rules are checked in order; each failure is pushed, and the first one names the reason. */
  method EvaluateContract(weigh: Collation, e: Evidence, options: Options) returns (verdict: Verdict)
    ensures verdict == Evaluate(weigh, e, options)
  {
    var events := OrderedEvents(weigh, e.events);
    var checkedEventIds := Ids(events);
    var invalid := ValidateEvidence(e);
    if invalid.Some? {
      return Verdict(false, options.version, invalid, ["invalid_evidence"], checkedEventIds);
    }
    var failedRules, reason := CheckRules(events, e, options);
    return Verdict(|failedRules| == 0, options.version, reason, failedRules, checkedEventIds);
  }

  method CheckRules(events: seq<Event>, e: Evidence, options: Options) returns (failedRules: seq<string>, reason: Option<Reason>)
    ensures failedRules == FailedRules(events, e, options) && reason == FirstReason(events, e, options)
  {
    failedRules, reason := CheckRequired("required_event:", options.requiredEventTypes, Types(events), MissingRequiredEvent, [], None);
    assert failedRules == Missing("required_event:", options.requiredEventTypes, Types(events));
    failedRules, reason := CheckEffects(events, options.prohibitedEffectKeys, failedRules, reason);
    failedRules, reason := CheckRequired("required_artifact:", options.requiredArtifactKinds, ValidatedKinds(e.artifacts),
                                         MissingRequiredArtifact, failedRules, reason);
    if LacksTerminal(events, options) {
      failedRules := failedRules + ["required_terminal_event"];
      if reason.None? { reason := Some(MissingTerminalEvent); }
    }
    if Orphaned(e.trace) {
      failedRules := failedRules + ["orphaned_trace"];
      if reason.None? { reason := Some(OrphanedTrace); }
    }
  }

  // ---------------------------------------------------------------- what passing means

  lemma {:induction false} MissingMeaning(prefix: string, required: seq<string>, present: set<string>)
    ensures Missing(prefix, required, present) == [] <==> !Lacks(required, present)
  {
    if required != [] {
      var n := |required| - 1;
      MissingMeaning(prefix, required[..n], present);
      assert required == required[..n] + [required[n]];
    }
  }

  lemma {:induction false} EffectsMeaning(events: seq<Event>, keys: set<string>)
    ensures ProhibitedEffects(events, keys) == [] <==> !AnyProhibited(events, keys)
  {
    if events != [] {
      var n := |events| - 1;
      EffectsMeaning(events[..n], keys);
      assert events == events[..n] + [events[n]];
    }
  }

  /** An event of the traced Run: in its own stream, or naming the Run from a tool's or an effect's stream. */
  predicate OfRun(event: Event, runId: string) {
    || event.streamId == runId
    || (event.payload.runId.Some? && event.payload.runId.value == runId
        && (("tool:" + runId) + ":" <= event.streamId || "effect:" <= event.streamId))
  }

  /** Two events with different ids, at different places of their streams. */
  predicate Apart(x: Event, y: Event) {
    x.id != y.id && (x.streamId != y.streamId || x.number != y.number)
  }

  ghost predicate AllApart(events: seq<Event>) {
    forall i, j | 0 <= i < j < |events| :: Apart(events[i], events[j])
  }

  /** Evidence that can be judged: one Run's events and artifacts, in one scope, each event once. */
  ghost predicate Sound(e: Evidence) {
    && e.traceId != "" && e.events != []
    && (forall x <- e.events :: x.parses && OfRun(x, e.traceId))
    && (forall x, y | x in e.events && y in e.events :: x.workspaceId == y.workspaceId && x.channelId == y.channelId)
    && (forall a, x | a in e.artifacts && x in e.events ::
          a.parses && a.runId == e.traceId && a.workspaceId == x.workspaceId && a.channelId == x.channelId)
    && AllApart(e.events)
    && (e.trace.Some? ==> e.trace.value.traceId == e.traceId)
  }

  /** The key an effect event names; the first spelling counts unless it is empty. */
  predicate NamesKey(event: Event, key: string) {
    && key != ""
    && (event.payload.effectKey == Some(key)
        || ((event.payload.effectKey.None? || event.payload.effectKey == Some("")) && event.payload.effect_key == Some(key)))
  }

  predicate Forbidden(event: Event, keys: set<string>) {
    "tool.effect." <= event.kind && exists key <- keys :: NamesKey(event, key)
  }

  /** The Run ended, or waits for its user. */
  predicate IsEnd(kind: string) {
    || kind == "run.completed" || kind == "run.failed" || kind == "run.timed_out" || kind == "run.cancelled"
    || kind == "run.awaiting_input" || kind == "run.awaiting_approval"
  }

  /** What a passed contract says about the evidence itself, in whatever order its events come. */
  ghost predicate Satisfies(e: Evidence, options: Options) {
    && Sound(e)
    && (forall t <- options.requiredEventTypes :: exists x <- e.events :: x.kind == t)
    && (forall x <- e.events :: !Forbidden(x, options.prohibitedEffectKeys))
    && (forall k <- options.requiredArtifactKinds :: exists a <- e.artifacts :: a.validated && a.kind == k)
    && (options.requireTerminal ==> exists x <- e.events :: IsEnd(x.kind))
    && (e.trace.Some? ==> forall s <- e.trace.value.spans :: !(s.failed && s.orphaned))
  }

  lemma ForbiddenMeaning(event: Event, keys: set<string>)
    ensures Prohibited(event, keys) <==> Forbidden(event, keys)
    ensures EffectKey(event).Some? ==> NamesKey(event, EffectKey(event).value)
  {
    if EffectKey(event).Some? { assert NamesKey(event, EffectKey(event).value); }
  }

  lemma EndMeaning(kind: string)
    ensures kind in TerminalTypes <==> IsEnd(kind)
  {
  }

  // ---------------------------------------------------------------- valid evidence

  lemma ColonSplits(a: string, m: string, b: string, n: string)
    requires ':' !in m && ':' !in n && a + ":" + m == b + ":" + n
    ensures a == b && m == n
  {
    var s := a + ":" + m;
    assert forall k | |a| < k < |s| :: s[k] == m[k - |a| - 1] && s[k] in m;
    assert forall k | |b| < k < |s| :: s[k] == n[k - |b| - 1] && s[k] in n;
    assert s[|a|] == ':' && s[|b|] == ':';
    assert |a| == |b|;
    assert a == s[..|a|] && b == s[..|b|] && m == s[|a| + 1..] && n == s[|b| + 1..];
  }

  /** Different streams or numbers have different keys: the number is what follows the last colon. */
  lemma {:induction false} KeyInjective(x: Event, y: Event)
    ensures SequenceKey(x) == SequenceKey(y) <==> x.streamId == y.streamId && x.number == y.number
  {
    if SequenceKey(x) == SequenceKey(y) {
      ColonSplits(x.streamId, Decimal(x.number), y.streamId, Decimal(y.number));
      DecimalInjective(x.number, y.number);
    }
  }

  ghost predicate Different<T(!new)>(s: seq<T>) {
    forall i, j | 0 <= i < j < |s| :: s[i] != s[j]
  }

  /** As many values as places: no two places hold the same one. */
  lemma {:induction false} NoDuplicates<T(!new)>(s: seq<T>)
    ensures |set x | x in s| <= |s|
    ensures |set x | x in s| == |s| <==> Different(s)
    decreases |s|
  {
    if s != [] {
      var n := |s| - 1;
      var init, last := s[..n], s[n];
      NoDuplicates(init);
      var values := set x | x in init;
      assert s == init + [last];
      assert (set x | x in s) == values + {last};
      if last in values {
        var i :| 0 <= i < n && s[i] == last;
        assert values + {last} == values;
      } else {
        forall i | 0 <= i < n ensures s[i] != last { assert init[i] in init; }
      }
    }
  }

  lemma {:induction false} ValuesOf(f: Event -> string, s: seq<Event>)
    ensures KeySet(f, s) == (set y | y in Map(f, s))
  {
    var values := Map(f, s);
    forall x <- s ensures f(x) in values { var i :| 0 <= i < |s| && s[i] == x; assert values[i] == f(x); }
    forall y <- values ensures exists x :: x in s && f(x) == y { var i :| 0 <= i < |s| && values[i] == y; assert s[i] in s; }
  }

  lemma BelongsMeaning(event: Event, runId: string)
    ensures BelongsTo(event, runId) <==> OfRun(event, runId)
  {
  }

  lemma {:induction false} ApartMeaning(events: seq<Event>)
    ensures AllApart(events) <==> Different(Map(SequenceKey, events)) && Different(Map(IdOf, events))
  {
    var keys, ids := Map(SequenceKey, events), Map(IdOf, events);
    forall i, j | 0 <= i < j < |events|
      ensures Apart(events[i], events[j]) <==> keys[i] != keys[j] && ids[i] != ids[j]
    {
      KeyInjective(events[i], events[j]);
    }
  }

  lemma {:induction false} DistinctOf(f: Event -> string, events: seq<Event>)
    ensures |KeySet(f, events)| == |events| <==> Different(Map(f, events))
  {
    ValuesOf(f, events);
    NoDuplicates(Map(f, events));
  }

  lemma {:induction false} DistinctMeaning(events: seq<Event>)
    ensures |KeySet(SequenceKey, events)| == |events| && |KeySet(IdOf, events)| == |events| <==> AllApart(events)
  {
    ApartMeaning(events);
    DistinctOf(SequenceKey, events);
    DistinctOf(IdOf, events);
  }

  /** Evidence is refused exactly when it is not sound. */
  lemma {:induction false} ValidMeaning(e: Evidence)
    ensures ValidateEvidence(e).None? <==> Sound(e)
  {
    DistinctMeaning(e.events);
    forall x <- e.events ensures BelongsTo(x, e.traceId) <==> OfRun(x, e.traceId) { BelongsMeaning(x, e.traceId); }
    if e.events != [] { assert e.events[0] in e.events; }
  }

  lemma NoRuleFailed(events: seq<Event>, e: Evidence, options: Options)
    ensures FailedRules(events, e, options) == [] <==> FirstReason(events, e, options).None?
    ensures FirstReason(events, e, options).None? <==>
              && !Lacks(options.requiredEventTypes, Types(events)) && !AnyProhibited(events, options.prohibitedEffectKeys)
              && !Lacks(options.requiredArtifactKinds, ValidatedKinds(e.artifacts))
              && !LacksTerminal(events, options) && !Orphaned(e.trace)
  {
    var a := Missing("required_event:", options.requiredEventTypes, Types(events));
    var b := ProhibitedEffects(events, options.prohibitedEffectKeys);
    var c := Missing("required_artifact:", options.requiredArtifactKinds, ValidatedKinds(e.artifacts));
    MissingMeaning("required_event:", options.requiredEventTypes, Types(events));
    EffectsMeaning(events, options.prohibitedEffectKeys);
    MissingMeaning("required_artifact:", options.requiredArtifactKinds, ValidatedKinds(e.artifacts));
    assert |FailedRules(events, e, options)|
           == |a| + |b| + |c| + (if LacksTerminal(events, options) then 1 else 0) + if Orphaned(e.trace) then 1 else 0;
  }

  lemma SatisfiesMeaning(events: seq<Event>, e: Evidence, options: Options)
    requires ValidateEvidence(e).None? && forall x :: x in events <==> x in e.events
    ensures FirstReason(events, e, options).None? <==> Satisfies(e, options)
  {
    NoRuleFailed(events, e, options);
    ValidMeaning(e);
    assert Types(events) == Types(e.events);
    forall x <- e.events
      ensures Prohibited(x, options.prohibitedEffectKeys) <==> Forbidden(x, options.prohibitedEffectKeys)
      ensures x.kind in TerminalTypes <==> IsEnd(x.kind)
    {
      ForbiddenMeaning(x, options.prohibitedEffectKeys);
      EndMeaning(x.kind);
    }
    assert AnyProhibited(events, options.prohibitedEffectKeys) == AnyProhibited(e.events, options.prohibitedEffectKeys);
    assert LacksTerminal(events, options) == LacksTerminal(e.events, options);
  }

  /** A contract passes exactly on evidence that satisfies every rule, and then no reason is given. */
  lemma PassedMeansSatisfied(weigh: Collation, e: Evidence, options: Options)
    ensures var v := Evaluate(weigh, e, options);
            (v.passed <==> Satisfies(e, options)) && (v.passed <==> v.reason.None?)
  {
    var events := OrderedEvents(weigh, e.events);
    InMultiset(events, e.events);
    NoRuleFailed(events, e, options);
    ValidMeaning(e);
    if ValidateEvidence(e).None? { SatisfiesMeaning(events, e, options); }
  }

  /** The rules a verdict can fail, in the order in which they are reported. */
  ghost predicate LacksEvent(e: Evidence, options: Options) {
    exists t <- options.requiredEventTypes :: forall x <- e.events :: x.kind != t
  }

  ghost predicate UsesForbidden(e: Evidence, options: Options) {
    exists x <- e.events :: Forbidden(x, options.prohibitedEffectKeys)
  }

  ghost predicate LacksArtifact(e: Evidence, options: Options) {
    exists k <- options.requiredArtifactKinds :: forall a <- e.artifacts :: !(a.validated && a.kind == k)
  }

  ghost predicate LacksEnd(e: Evidence, options: Options) {
    options.requireTerminal && forall x <- e.events :: !IsEnd(x.kind)
  }

  /** The reason given is the first rule that the evidence fails. */
  lemma {:induction false} ReasonMeaning(weigh: Collation, e: Evidence, options: Options)
    ensures Evaluate(weigh, e, options).reason ==
              if !Sound(e) then Some(InvalidEvidence)
              else if LacksEvent(e, options) then Some(MissingRequiredEvent)
              else if UsesForbidden(e, options) then Some(ProhibitedSideEffect)
              else if LacksArtifact(e, options) then Some(MissingRequiredArtifact)
              else if LacksEnd(e, options) then Some(MissingTerminalEvent)
              else if e.trace.Some? && exists s <- e.trace.value.spans :: s.failed && s.orphaned then Some(OrphanedTrace)
              else None
  {
    ValidMeaning(e);
    InvalidReason(e);
    if ValidateEvidence(e).None? {
      InMultiset(OrderedEvents(weigh, e.events), e.events);
      FirstReasonMeaning(OrderedEvents(weigh, e.events), e, options);
    }
  }

  lemma {:induction false} InvalidReason(e: Evidence)
    ensures ValidateEvidence(e).Some? ==> ValidateEvidence(e) == Some(InvalidEvidence)
  {
  }

  lemma {:induction false} FirstReasonMeaning(events: seq<Event>, e: Evidence, options: Options)
    requires forall x :: x in events <==> x in e.events
    ensures Lacks(options.requiredEventTypes, Types(events)) <==> LacksEvent(e, options)
    ensures AnyProhibited(events, options.prohibitedEffectKeys) <==> UsesForbidden(e, options)
    ensures Lacks(options.requiredArtifactKinds, ValidatedKinds(e.artifacts)) <==> LacksArtifact(e, options)
    ensures LacksTerminal(events, options) <==> LacksEnd(e, options)
  {
    assert Types(events) == Types(e.events);
    forall x <- e.events
      ensures Prohibited(x, options.prohibitedEffectKeys) <==> Forbidden(x, options.prohibitedEffectKeys)
      ensures x.kind in TerminalTypes <==> IsEnd(x.kind)
    {
      ForbiddenMeaning(x, options.prohibitedEffectKeys);
      EndMeaning(x.kind);
    }
  }

  // ---------------------------------------------------------------- the order of the events does not matter

  /** By time, then by stream, then by number in the stream, then by id, as the collation places them. */
  predicate NotAfter(weigh: Collation, x: Event, y: Event) {
    && x.time <= y.time
    && (x.time == y.time ==> weigh(x.streamId) <= weigh(y.streamId))
    && (x.time == y.time && weigh(x.streamId) == weigh(y.streamId) ==> x.number <= y.number)
    && (x.time == y.time && weigh(x.streamId) == weigh(y.streamId) && x.number == y.number ==> weigh(x.id) <= weigh(y.id))
  }

  /** The events are checked, and their ids listed, in that order. */
  lemma {:induction false} CheckedInOrder(weigh: Collation, e: Evidence, options: Options)
    ensures var ordered := OrderedEvents(weigh, e.events);
            && multiset(ordered) == multiset(e.events)
            && (forall i, j | 0 <= i < j < |ordered| :: NotAfter(weigh, ordered[i], ordered[j]))
            && |Evaluate(weigh, e, options).checkedEventIds| == |ordered|
            && (forall i | 0 <= i < |ordered| :: Evaluate(weigh, e, options).checkedEventIds[i] == ordered[i].id)
  {
    var ordered := OrderedEvents(weigh, e.events);
    EarlierIsWeakOrder(weigh);
    SortOrders(Earlier(weigh), e.events);
    if ordered == [] { assert Ids(ordered) == []; }
    forall i | 0 <= i < |ordered| ensures |Ids(ordered)| == |ordered| && Ids(ordered)[i] == ordered[i].id { IdsAt(ordered, i); }
    assert Evaluate(weigh, e, options).checkedEventIds == Ids(ordered);
  }

  lemma EarlierIsWeakOrder(weigh: Collation)
    ensures WeakOrder(Earlier(weigh))
  {
  }

  lemma ValidatesAlike(e: Evidence, f: Evidence)
    requires multiset(e.events) == multiset(f.events) && f == e.(events := f.events)
    ensures ValidateEvidence(e) == ValidateEvidence(f)
  {
    InMultiset(e.events, f.events);
    if e.events != [] {
      assert e.events[0] in f.events && f.events[0] in e.events;
      assert KeySet(SequenceKey, e.events) == KeySet(SequenceKey, f.events);
      assert KeySet(IdOf, e.events) == KeySet(IdOf, f.events);
    }
  }

  /** The comparator takes two events for equal. */
  predicate Tie(weigh: Collation, x: Event, y: Event) {
    x.time == y.time && weigh(x.streamId) == weigh(y.streamId) && x.number == y.number && weigh(x.id) == weigh(y.id)
  }

  /** No two events with different ids are equal to the comparator. */
  ghost predicate NoTiedIds(weigh: Collation, events: seq<Event>) {
    forall x, y | x in events && y in events && Tie(weigh, x, y) :: x.id == y.id
  }

  lemma {:induction false} IdsUntie(weigh: Collation, e: Evidence)
    requires Sound(e) && NoTiedIds(weigh, e.events)
    ensures Untied(Earlier(weigh), e.events)
  {
    forall x, y | x in e.events && y in e.events && !Earlier(weigh)(x, y) && !Earlier(weigh)(y, x)
      ensures x == y
    {
      assert Tie(weigh, x, y);
      SameIdSameEvent(e, x, y);
    }
  }

  lemma {:induction false} SameIdSameEvent(e: Evidence, x: Event, y: Event)
    requires Sound(e) && x in e.events && y in e.events && x.id == y.id
    ensures x == y
  {
    assert forall i, j | 0 <= i < j < |e.events| :: Apart(e.events[i], e.events[j]) && e.events[i].id != e.events[j].id;
  }

  // Events that tie and share an id, as in invalid evidence, still give the same list of ids.

  datatype Placed = Placed(time: int, stream: real, number: nat, place: real, id: string)

  function Place(weigh: Collation, x: Event): Placed {
    Placed(x.time, weigh(x.streamId), x.number, weigh(x.id), x.id)
  }

  function Before(): (Placed, Placed) -> bool {
    (l: Placed, r: Placed) =>
      if l.time != r.time then l.time < r.time
      else if l.stream != r.stream then l.stream < r.stream
      else if l.number != r.number then l.number < r.number
      else l.place < r.place
  }

  function Places(weigh: Collation, events: seq<Event>): (r: seq<Placed>)
    ensures |r| == |events| && forall i | 0 <= i < |r| :: r[i] == Place(weigh, events[i])
  {
    Map(x => Place(weigh, x), events)
  }

  lemma {:induction false} InsertPlaces(weigh: Collation, x: Event, events: seq<Event>)
    ensures Places(weigh, Insert(Earlier(weigh), x, events)) == Insert(Before(), Place(weigh, x), Places(weigh, events))
  {
    if events != [] && Earlier(weigh)(events[0], x) {
      InsertPlaces(weigh, x, events[1..]);
      assert Places(weigh, events)[1..] == Places(weigh, events[1..]);
    }
  }

  lemma {:induction false} SortPlaces(weigh: Collation, events: seq<Event>)
    ensures Places(weigh, Sort(Earlier(weigh), events)) == Sort(Before(), Places(weigh, events))
  {
    if events != [] {
      SortPlaces(weigh, events[1..]);
      InsertPlaces(weigh, events[0], Sort(Earlier(weigh), events[1..]));
      assert Places(weigh, events)[1..] == Places(weigh, events[1..]);
    }
  }

  lemma {:induction false} IdsOfPlaces(weigh: Collation, a: seq<Event>, b: seq<Event>)
    requires Places(weigh, a) == Places(weigh, b)
    ensures Ids(a) == Ids(b)
    decreases |a|
  {
    assert |a| == |Places(weigh, a)| == |b|;
    if a != [] {
      assert Places(weigh, a)[0] == Places(weigh, b)[0];
      assert Places(weigh, a)[1..] == Places(weigh, a[1..]) && Places(weigh, b)[1..] == Places(weigh, b[1..]);
      IdsOfPlaces(weigh, a[1..], b[1..]);
    }
  }

  lemma BeforeIsWeakOrder()
    ensures WeakOrder(Before())
  {
  }

  lemma PlacesUntied(weigh: Collation, a: seq<Event>)
    requires NoTiedIds(weigh, a)
    ensures Untied(Before(), Places(weigh, a))
  {
    var p := Places(weigh, a);
    forall x, y | x in p && y in p && !Before()(x, y) && !Before()(y, x)
      ensures x == y
    {
      var i :| 0 <= i < |a| && p[i] == x;
      var j :| 0 <= j < |a| && p[j] == y;
      assert a[i] in a && a[j] in a;
    }
  }

  lemma SameIds(weigh: Collation, a: seq<Event>, b: seq<Event>)
    requires multiset(a) == multiset(b) && NoTiedIds(weigh, a)
    ensures Ids(OrderedEvents(weigh, a)) == Ids(OrderedEvents(weigh, b))
  {
    SortPlaces(weigh, a);
    SortPlaces(weigh, b);
    MapMultiset(x => Place(weigh, x), a, b);
    var p := Places(weigh, a);
    PlacesUntied(weigh, a);
    BeforeIsWeakOrder();
    SortForgets(Before(), p, Places(weigh, b));
    IdsOfPlaces(weigh, OrderedEvents(weigh, a), OrderedEvents(weigh, b));
  }

  lemma {:induction false} SameVerdict(weigh: Collation, e: Evidence, f: Evidence, options: Options)
    requires multiset(e.events) == multiset(f.events) && f == e.(events := f.events) && NoTiedIds(weigh, e.events)
    ensures Evaluate(weigh, e, options) == Evaluate(weigh, f, options)
  {
    ValidatesAlike(e, f);
    SameIds(weigh, e.events, f.events);
    if ValidateEvidence(e).None? { SameOrder(weigh, e, f); }
  }

  lemma {:induction false} SameOrder(weigh: Collation, e: Evidence, f: Evidence)
    requires multiset(e.events) == multiset(f.events) && ValidateEvidence(e).None? && NoTiedIds(weigh, e.events)
    ensures OrderedEvents(weigh, e.events) == OrderedEvents(weigh, f.events)
  {
    ValidMeaning(e);
    IdsUntie(weigh, e);
    EarlierIsWeakOrder(weigh);
    SortForgets(Earlier(weigh), e.events, f.events);
  }

  lemma {:induction false} IdsAt(events: seq<Event>, p: nat)
    requires p < |events|
    ensures |Ids(events)| == |events| && Ids(events)[p] == events[p].id
  {
    if |events| > 1 { IdsAt(events[1..], if p == 0 then 0 else p - 1); } else { assert Ids(events[1..]) == []; }
  }

  /** Two tied events are checked in the order they were recorded in. */
  lemma {:induction false} TiedIdsDiffer(weigh: Collation, e: Evidence, x: Event, y: Event, rest: seq<Event>, options: Options)
    requires Tie(weigh, x, y) && x.id != y.id
    ensures Evaluate(weigh, e.(events := [x, y] + rest), options) != Evaluate(weigh, e.(events := [y, x] + rest), options)
  {
    EarlierIsWeakOrder(weigh);
    var p := TiesShow(Earlier(weigh), x, y, rest);
    var s, t := OrderedEvents(weigh, [x, y] + rest), OrderedEvents(weigh, [y, x] + rest);
    IdsAt(s, p);
    IdsAt(t, p);
    assert Evaluate(weigh, e.(events := [x, y] + rest), options).checkedEventIds == Ids(s);
    assert Evaluate(weigh, e.(events := [y, x] + rest), options).checkedEventIds == Ids(t);
  }

  /**
   * The evaluation does not depend on the order in which the events were recorded - every
   * permutation gives the same verdict, reason, rules in the same order and checked ids, for valid
   * and invalid evidence - exactly when the comparator tells events with different ids apart.
   */
  lemma {:induction false} OrderIndependent(weigh: Collation, e: Evidence, options: Options)
    ensures
      (forall events | multiset(events) == multiset(e.events) ::
         Evaluate(weigh, e.(events := events), options) == Evaluate(weigh, e, options))
      <==> NoTiedIds(weigh, e.events)
  {
    if NoTiedIds(weigh, e.events) {
      forall events | multiset(events) == multiset(e.events)
        ensures Evaluate(weigh, e.(events := events), options) == Evaluate(weigh, e, options)
      {
        SameVerdict(weigh, e, e.(events := events), options);
      }
    } else {
      var a, b := TiedRecordings(weigh, e, options);
    }
  }

  /** With tied ids, two recordings of the same events are evaluated differently. */
  lemma {:induction false} TiedRecordings(weigh: Collation, e: Evidence, options: Options) returns (a: seq<Event>, b: seq<Event>)
    requires !NoTiedIds(weigh, e.events)
    ensures multiset(a) == multiset(e.events) && multiset(b) == multiset(e.events)
    ensures Evaluate(weigh, e.(events := a), options) != Evaluate(weigh, e.(events := b), options)
  {
    var x, y :| x in e.events && y in e.events && Tie(weigh, x, y) && x.id != y.id;
    var rest := ToTheFront(e.events, x, y);
    TiedIdsDiffer(weigh, e, x, y, rest, options);
    a, b := [x, y] + rest, [y, x] + rest;
  }

  /** Evidence that passes, with two ids and two streams that a collation ignoring joiners ties. */
  function TiedEvidence(): Evidence {
    var payload := Payload(Some("run"), None, None);
    Evidence("run",
             [Event("x", "w", "c", "effect:a", 0, "run.completed", 0, payload, true),
              Event("x\U{200D}", "w", "c", "effect:a\U{200D}", 0, "run.completed", 0, payload, true)],
             [], None)
  }

  function SwappedEvidence(): Evidence {
    TiedEvidence().(events := [TiedEvidence().events[1], TiedEvidence().events[0]])
  }

  /** So evidence that is valid and passes may still be checked in the order it was recorded in. */
  lemma {:induction false} TiedIdsShow(weigh: Collation, options: Options)
    requires weigh("x") == weigh("x\U{200D}") && weigh("effect:a") == weigh("effect:a\U{200D}")
    requires options == Options("contract-1", [], {}, [], true)
    ensures var a, b := Evaluate(weigh, TiedEvidence(), options), Evaluate(weigh, SwappedEvidence(), options);
            a.passed && b.passed && multiset(SwappedEvidence().events) == multiset(TiedEvidence().events) && a != b
  {
    var e, f := TiedEvidence(), SwappedEvidence();
    var x, y := e.events[0], e.events[1];
    assert e.events == [x, y] + [] && f.events == [y, x] + [];
    assert |y.id| != |x.id|;
    TiedIdsDiffer(weigh, e, x, y, [], options);
    assert e.(events := [x, y] + []) == e && e.(events := [y, x] + []) == f;
    TiedEvidencePasses(weigh, e, options);
    TiedEvidencePasses(weigh, f, options);
  }

  lemma {:induction false} TiedEvidencePasses(weigh: Collation, e: Evidence, options: Options)
    requires e == TiedEvidence() || e == SwappedEvidence()
    requires options == Options("contract-1", [], {}, [], true)
    ensures Evaluate(weigh, e, options).passed
  {
    TiedEvidenceIsSound(e);
    OneEndSuffices(e, options);
    PassedMeansSatisfied(weigh, e, options);
  }

  lemma {:induction false} OneEndSuffices(e: Evidence, options: Options)
    requires Sound(e) && e.trace.None? && e.events[0].kind == "run.completed"
    requires options == Options("contract-1", [], {}, [], true)
    ensures Satisfies(e, options)
  {
    assert e.events[0] in e.events;
  }

  lemma {:induction false} TiedEvidenceIsSound(e: Evidence)
    requires e == TiedEvidence() || e == SwappedEvidence()
    ensures Sound(e)
  {
    var x, y := TiedEvidence().events[0], TiedEvidence().events[1];
    assert |y.id| != |x.id| && |y.streamId| != |x.streamId|;
    assert forall z <- e.events :: z == x || z == y;
  }
}
