/**
 * Planning a migration of legacy product records: which records take part, how they are grouped
 * into sessions, and the sessions and Runs that follow.
 */
module Migration {
  import opened Prelude
  import opened GoalDecision
  import opened SessionState
  import opened StableSort
  import CanonicalJson

  datatype Legacy = Legacy(
    runId: string, workspaceId: string, actorUserId: string, channelId: Option<string>, conversationId: Option<string>,
    sourceEventId: Option<string>, surface: string, prompt: string, resourceRefs: Option<seq<string>>,
    requestedArtifact: Option<string>, parentRunId: Option<string>, contextProjectId: Option<string>,
    projectId: Option<string>, createdAt: string, updatedAt: string)

  datatype Scope = Scope(workspaceId: string, actorUserId: string, projectId: Option<string>)

  /** A record that takes part, with the identities it will have. */
  datatype Item = Item(
    record: Legacy, channelId: string, conversationId: string, source: ConversationSource,
    projectId: Option<string>, sourceEventId: string, derived: bool)

  datatype Group = Group(key: string, items: seq<Item>)

  datatype PlanError = ProjectConflict(where: string)

  datatype MigrationPlan = MigrationPlan(matched: nat, sessions: seq<Session>, runs: seq<Run>)

  /** What the planner is given from outside: project lookup, the digest of a key, and the collation. */
  datatype Env = Env(resolve: string -> Option<Scope>, digest: string -> string, weigh: string -> real)

  // ---------------------------------------------------------------- which records take part

  const CREW: string := "crew_channel:"

  function ChannelProject(r: Legacy): Option<string> {
    if r.channelId.Some? && CREW <= r.channelId.value then Some(r.channelId.value[|CREW|..]) else None
  }

  function ProjectIdFor(r: Legacy): Result<Option<string>, PlanError> {
    if r.contextProjectId.Some? && ChannelProject(r).Some? && r.contextProjectId != ChannelProject(r) then Err(ProjectConflict(r.runId))
    else Ok(Or(r.contextProjectId, Or(ChannelProject(r), r.projectId)))
  }

  predicate Candidate(r: Legacy, scope: Scope) {
    r.workspaceId == scope.workspaceId && r.actorUserId == scope.actorUserId
  }

  function ItemOf(r: Legacy, projectId: Option<string>): Item {
    Item(r, Or(r.channelId, Or(r.conversationId, Some("product:" + r.surface + ":" + r.workspaceId))).value,
         if r.conversationId.Some? then r.conversationId.value else r.runId,
         if r.conversationId.Some? then FromConversation else FromRunId, projectId,
         if r.sourceEventId.Some? then r.sourceEventId.value else "product:source:" + r.runId, r.sourceEventId.None?)
  }

  /** None for a record that is left out: another owner's, or of a project that is not this owner's. */
  function Admit(r: Legacy, scope: Scope, env: Env): Result<Option<Item>, PlanError> {
    if !Candidate(r, scope) then Ok(None)
    else
      var projectId :- ProjectIdFor(r);
      if projectId.None? then Ok(Some(ItemOf(r, None)))
      else
        var found := env.resolve(projectId.value);
        if found.None? || found.value.workspaceId != scope.workspaceId || found.value.actorUserId != scope.actorUserId
           || found.value.projectId != projectId then Ok(None)
        else Ok(Some(ItemOf(r, projectId)))
  }

  function AdmitAll(items: seq<Item>, records: seq<Legacy>, scope: Scope, env: Env): Result<seq<Item>, PlanError>
    decreases |records|
  {
    if records == [] then Ok(items)
    else
      var item :- Admit(records[0], scope, env);
      AdmitAll(if item.Some? then items + [item.value] else items, records[1..], scope, env)
  }

  // ---------------------------------------------------------------- grouping

  function SourceName(source: ConversationSource): string {
    if source == FromConversation then "conversation" else "run_id_fallback"
  }

  function KeyParts(scope: Scope, item: Item): seq<string> {
    [scope.workspaceId, scope.actorUserId, item.channelId, SourceName(item.source), item.conversationId]
  }

  function SessionKey(scope: Scope, item: Item): string {
    CanonicalJson.StableJson(CanonicalJson.Arr(CanonicalJson.Strings(KeyParts(scope, item))))
  }

  function FindGroup(groups: seq<Group>, key: string): (r: Option<nat>)
    ensures r.Some? ==> r.value < |groups| && groups[r.value].key == key
    ensures r.None? ==> forall g <- groups :: g.key != key
  {
    if groups == [] then None
    else if groups[0].key == key then Some(0)
    else
      match FindGroup(groups[1..], key)
      case Some(i) => Some(i + 1)
      case None => None
  }

  /** A map keeps its keys in the order in which they were first set. */
  function AddItem(groups: seq<Group>, key: string, item: Item): seq<Group> {
    match FindGroup(groups, key)
    case Some(i) => groups[i := Group(key, groups[i].items + [item])]
    case None => groups + [Group(key, [item])]
  }

  function Grouped(scope: Scope, items: seq<Item>): seq<Group> {
    if items == [] then []
    else AddItem(Grouped(scope, items[..|items| - 1]), SessionKey(scope, items[|items| - 1]), items[|items| - 1])
  }

  // ---------------------------------------------------------------- sessions and Runs

  function Earlier(weigh: string -> real): (Item, Item) -> bool {
    (l: Item, r: Item) =>
      if weigh(l.record.createdAt) != weigh(r.record.createdAt) then weigh(l.record.createdAt) < weigh(r.record.createdAt)
      else weigh(l.record.runId) < weigh(r.record.runId)
  }

  function ProjectIds(items: seq<Item>): set<string> {
    set x | x in items && x.projectId.Some? :: x.projectId.value
  }

  function FirstCreated(value: string, items: seq<Item>): string
    decreases |items|
  {
    if items == [] then value
    else FirstCreated(if Before(value, items[0].record.createdAt) then value else items[0].record.createdAt, items[1..])
  }

  function LastUpdated(value: string, items: seq<Item>): string
    decreases |items|
  {
    if items == [] then value
    else LastUpdated(if Before(items[0].record.updatedAt, value) then value else items[0].record.updatedAt, items[1..])
  }

  function SessionIdFor(env: Env, key: string): string {
    "session:v2:" + env.digest(key)
  }

  function RunFor(scope: Scope, env: Env): Item -> Run {
    (x: Item) =>
      Run(x.record.runId, SessionIdFor(env, SessionKey(scope, x)), scope.workspaceId, scope.actorUserId, x.channelId,
          x.projectId, x.record.parentRunId, x.record.surface, x.record.prompt, x.sourceEventId, x.derived,
          if x.record.resourceRefs.Some? then x.record.resourceRefs.value else [], None, None, None,
          x.record.requestedArtifact, x.conversationId, Some(x.source), x.record.createdAt, x.record.updatedAt,
          None, None, None, None, None)
  }

  function SessionFor(scope: Scope, env: Env, group: Group, ordered: seq<Item>): Session
    requires ordered != [] && |ProjectIds(group.items)| <= 1
  {
    var first := ordered[0];
    Session(SessionIdFor(env, group.key), scope.workspaceId, scope.actorUserId, first.channelId,
            TheProject(group.items), first.record.surface,
            FirstCreated(first.record.createdAt, ordered), LastUpdated(first.record.updatedAt, ordered), None)
  }

  lemma OneProject(ids: set<string>)
    requires |ids| == 1
    ensures exists x :: ids == {x}
  {
    var x :| x in ids;
    assert |ids - {x}| == 0;
    assert ids == {x};
  }

  function TheProject(items: seq<Item>): (r: Option<string>)
    requires |ProjectIds(items)| <= 1
    ensures ProjectIds(items) == if r.Some? then {r.value} else {}
  {
    if |ProjectIds(items)| == 0 then None
    else
      OneProject(ProjectIds(items));
      var x :| ProjectIds(items) == {x};
      Some(x)
  }

  function GroupSession(scope: Scope, env: Env, group: Group): Session
    requires group.items != [] && |ProjectIds(group.items)| <= 1
  {
    SortedNonEmpty(env, group.items);
    SessionFor(scope, env, group, Sort(Earlier(env.weigh), group.items))
  }

  function PlanGroup(plan: MigrationPlan, scope: Scope, env: Env, group: Group): Result<MigrationPlan, PlanError>
    requires group.items != []
  {
    SortedNonEmpty(env, group.items);
    var ordered := Sort(Earlier(env.weigh), group.items);
    if |ProjectIds(group.items)| > 1 then Err(ProjectConflict(group.key))
    else Ok(plan.(sessions := plan.sessions + [SessionFor(scope, env, group, ordered)],
                  runs := plan.runs + Map(RunFor(scope, env), ordered)))
  }

  lemma SortedNonEmpty(env: Env, items: seq<Item>)
    ensures |Sort(Earlier(env.weigh), items)| == |items|
  {
    InMultiset(Sort(Earlier(env.weigh), items), items);
  }

  ghost predicate NonEmpty(groups: seq<Group>) {
    forall g <- groups :: g.items != []
  }

  function PlanGroups(plan: MigrationPlan, scope: Scope, env: Env, groups: seq<Group>): Result<MigrationPlan, PlanError>
    requires NonEmpty(groups)
    decreases |groups|
  {
    if groups == [] then Ok(plan)
    else
      assert groups[0] in groups;
      var next :- PlanGroup(plan, scope, env, groups[0]);
      PlanGroups(next, scope, env, groups[1..])
  }

  function PlanMigration(records: seq<Legacy>, scope: Scope, env: Env): Result<MigrationPlan, PlanError> {
    var items :- AdmitAll([], records, scope, env);
    GroupsPartition(scope, items);
    PlanGroups(MigrationPlan(|items|, [], []), scope, env, Grouped(scope, items))
  }

  // ---------------------------------------------------------------- groups partition the items

  function Flatten(groups: seq<Group>): seq<Item> {
    if groups == [] then [] else groups[0].items + Flatten(groups[1..])
  }

  ghost predicate Partition(scope: Scope, groups: seq<Group>) {
    && NonEmpty(groups)
    && (forall i, j | 0 <= i < j < |groups| :: groups[i].key != groups[j].key)
    && (forall g, x | g in groups && x in g.items :: SessionKey(scope, x) == g.key)
  }

  lemma {:induction false} FlattenSnoc(groups: seq<Group>, g: Group)
    ensures Flatten(groups + [g]) == Flatten(groups) + g.items
  {
    if groups == [] {
      assert groups + [g] == [g] && [g][1..] == [];
      assert Flatten([g]) == g.items + [];
    } else {
      FlattenSnoc(groups[1..], g);
      assert (groups + [g])[1..] == groups[1..] + [g];
    }
  }

  lemma {:induction false} FlattenUpdate(groups: seq<Group>, i: nat, item: Item)
    requires i < |groups|
    ensures multiset(Flatten(groups[i := Group(groups[i].key, groups[i].items + [item])])) == multiset(Flatten(groups)) + multiset{item}
    decreases i
  {
    var next := groups[i := Group(groups[i].key, groups[i].items + [item])];
    if i == 0 {
      assert next[1..] == groups[1..];
    } else {
      FlattenUpdate(groups[1..], i - 1, item);
      assert next[1..] == groups[1..][i - 1 := Group(groups[i].key, groups[i].items + [item])];
    }
  }

  lemma {:induction false} AddItemKeeps(scope: Scope, groups: seq<Group>, item: Item)
    requires Partition(scope, groups)
    ensures Partition(scope, AddItem(groups, SessionKey(scope, item), item))
    ensures multiset(Flatten(AddItem(groups, SessionKey(scope, item), item))) == multiset(Flatten(groups)) + multiset{item}
  {
    var key := SessionKey(scope, item);
    match FindGroup(groups, key) {
      case Some(i) =>
        FlattenUpdate(groups, i, item);
        assert groups[i] in groups;
      case None =>
        FlattenSnoc(groups, Group(key, [item]));
        assert forall i | 0 <= i < |groups| :: groups[i] in groups;
    }
  }

  lemma LastApart<T>(s: seq<T>)
    requires s != []
    ensures multiset(s) == multiset(s[..|s| - 1]) + multiset{s[|s| - 1]}
  {
    assert s == s[..|s| - 1] + [s[|s| - 1]];
  }

  /** Every item is in exactly one group, that of its key. */
  lemma {:induction false} GroupsPartition(scope: Scope, items: seq<Item>)
    ensures Partition(scope, Grouped(scope, items))
    ensures multiset(Flatten(Grouped(scope, items))) == multiset(items)
    decreases |items|
  {
    if items != [] {
      var n := |items| - 1;
      GroupsPartition(scope, items[..n]);
      AddItemKeeps(scope, Grouped(scope, items[..n]), items[n]);
      LastApart(items);
    }
  }
}
