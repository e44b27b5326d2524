/** The planner as it runs, and what a plan guarantees about the records it was made from. */
module MigrationPlanning {
  import opened Prelude
  import opened GoalDecision
  import opened SessionState
  import opened StableSort
  import opened Migration
  import CanonicalJson

  method PlanProductV1Migration(records: seq<Legacy>, scope: Scope, env: Env) returns (r: Result<MigrationPlan, PlanError>)
    ensures r == PlanMigration(records, scope, env)
  {
    var items: seq<Item> := [];
    assert records[0..] == records;
    for i := 0 to |records|
      invariant AdmitAll(items, records[i..], scope, env) == AdmitAll([], records, scope, env)
    {
      assert records[i..][1..] == records[i + 1..];
      var item := Admit(records[i], scope, env);
      match item {
        case Err(error) => return Err(error);
        case Ok(admitted) => if admitted.Some? { items := items + [admitted.value]; }
      }
    }
    var groups: seq<Group> := [];
    for i := 0 to |items|
      invariant groups == Grouped(scope, items[..i])
    {
      assert items[..i + 1][..i] == items[..i];
      groups := AddItem(groups, SessionKey(scope, items[i]), items[i]);
    }
    assert items[..|items|] == items;
    GroupsPartition(scope, items);
    r := PlanSessions(|items|, groups, scope, env);
  }

  method PlanSessions(matched: nat, groups: seq<Group>, scope: Scope, env: Env) returns (r: Result<MigrationPlan, PlanError>)
    requires NonEmpty(groups)
    ensures r == PlanGroups(MigrationPlan(matched, [], []), scope, env, groups)
  {
    ghost var start := MigrationPlan(matched, [], []);
    var sessions: seq<Session>, runs: seq<Run> := [], [];
    assert groups[0..] == groups;
    for i := 0 to |groups|
      invariant PlanGroups(MigrationPlan(matched, sessions, runs), scope, env, groups[i..]) == PlanGroups(start, scope, env, groups)
    {
      var group := groups[i];
      assert groups[i..][1..] == groups[i + 1..];
      PlannedStep(MigrationPlan(matched, sessions, runs), scope, env, groups[i..]);
      SortedNonEmpty(env, group.items);
      var ordered := Sort(Earlier(env.weigh), group.items);
      if |ProjectIds(group.items)| > 1 { return Err(ProjectConflict(group.key)); }
      ghost var planned := PlanGroup(MigrationPlan(matched, sessions, runs), scope, env, group).value;
      sessions := sessions + [SessionFor(scope, env, group, ordered)];
      runs := PushRuns(runs, ordered, scope, env);
      assert planned == MigrationPlan(matched, sessions, runs);
    }
    return Ok(MigrationPlan(matched, sessions, runs));
  }

  method PushRuns(runs: seq<Run>, ordered: seq<Item>, scope: Scope, env: Env) returns (more: seq<Run>)
    ensures more == runs + Map(RunFor(scope, env), ordered)
  {
    more := runs;
    for j := 0 to |ordered|
      invariant more == runs + Map(RunFor(scope, env), ordered)[..j]
    {
      more := more + [RunFor(scope, env)(ordered[j])];
    }
  }

  lemma PlannedStep(plan: MigrationPlan, scope: Scope, env: Env, groups: seq<Group>)
    requires NonEmpty(groups) && groups != []
    ensures groups[0].items != []
    ensures PlanGroups(plan, scope, env, groups)
            == match PlanGroup(plan, scope, env, groups[0])
               case Ok(next) => PlanGroups(next, scope, env, groups[1..])
               case Err(error) => Err(error)
  {
    assert groups[0] in groups;
  }

  // ---------------------------------------------------------------- conservation

  lemma MapAppend<A, B>(f: A -> B, s: seq<A>, t: seq<A>)
    ensures Map(f, s + t) == Map(f, s) + Map(f, t)
  {
  }

  ghost predicate SessionOf(scope: Scope, env: Env, group: Group, session: Session) {
    group.items != [] && |ProjectIds(group.items)| <= 1 && session == GroupSession(scope, env, group)
  }

  /** What planning one group adds. */
  lemma GroupAdds(plan: MigrationPlan, scope: Scope, env: Env, group: Group, next: MigrationPlan) returns (session: Session)
    requires group.items != [] && PlanGroup(plan, scope, env, group) == Ok(next)
    ensures next.matched == plan.matched && next.sessions == plan.sessions + [session] && SessionOf(scope, env, group, session)
    ensures multiset(next.runs) == multiset(plan.runs) + multiset(Map(RunFor(scope, env), group.items))
  {
    var ordered := Sort(Earlier(env.weigh), group.items);
    MapMultiset(RunFor(scope, env), ordered, group.items);
    session := GroupSession(scope, env, group);
  }

  lemma {:induction false} RunsAdd(plan: MigrationPlan, scope: Scope, env: Env, groups: seq<Group>, p: MigrationPlan)
    requires NonEmpty(groups) && PlanGroups(plan, scope, env, groups) == Ok(p)
    ensures p.matched == plan.matched
    ensures multiset(p.runs) == multiset(plan.runs) + multiset(Map(RunFor(scope, env), Flatten(groups)))
    decreases |groups|
  {
    if groups != [] {
      var f, group := RunFor(scope, env), groups[0];
      PlannedStep(plan, scope, env, groups);
      var next := PlanGroup(plan, scope, env, group).value;
      var _ := GroupAdds(plan, scope, env, group, next);
      RunsAdd(next, scope, env, groups[1..], p);
      MapAppend(f, group.items, Flatten(groups[1..]));
    }
  }

  ghost predicate SessionsOf(scope: Scope, env: Env, groups: seq<Group>, sessions: seq<Session>) {
    |sessions| == |groups|
    && (groups != [] ==> SessionOf(scope, env, groups[0], sessions[0]) && SessionsOf(scope, env, groups[1..], sessions[1..]))
  }

  lemma {:induction false} SessionsAdd(plan: MigrationPlan, scope: Scope, env: Env, groups: seq<Group>, p: MigrationPlan)
    returns (added: seq<Session>)
    requires NonEmpty(groups) && PlanGroups(plan, scope, env, groups) == Ok(p)
    ensures p.sessions == plan.sessions + added && SessionsOf(scope, env, groups, added)
    decreases |groups|
  {
    if groups == [] {
      added := [];
    } else {
      PlannedStep(plan, scope, env, groups);
      var next := PlanGroup(plan, scope, env, groups[0]).value;
      var session := GroupAdds(plan, scope, env, groups[0], next);
      var rest := SessionsAdd(next, scope, env, groups[1..], p);
      SessionsCons(scope, env, groups, session, rest);
      added := [session] + rest;
      Append(plan.sessions, session, rest);
    }
  }

  lemma Append<T>(a: seq<T>, x: T, b: seq<T>)
    ensures a + [x] + b == a + ([x] + b)
  {
  }

  lemma SessionsCons(scope: Scope, env: Env, groups: seq<Group>, session: Session, rest: seq<Session>)
    requires groups != [] && SessionOf(scope, env, groups[0], session) && SessionsOf(scope, env, groups[1..], rest)
    ensures SessionsOf(scope, env, groups, [session] + rest)
  {
    assert ([session] + rest)[1..] == rest;
  }

  lemma {:induction false} SessionAt(scope: Scope, env: Env, groups: seq<Group>, sessions: seq<Session>, i: nat)
    requires SessionsOf(scope, env, groups, sessions) && i < |groups|
    ensures SessionOf(scope, env, groups[i], sessions[i])
  {
    if i > 0 { SessionAt(scope, env, groups[1..], sessions[1..], i - 1); }
  }

  // ---------------------------------------------------------------- conflicts

  /** Two items that would share a session but name different projects. */
  ghost predicate Clash(items: seq<Item>) {
    exists x, y :: x in items && y in items && x.projectId.Some? && y.projectId.Some? && x.projectId != y.projectId
  }

  lemma ClashMeaning(items: seq<Item>)
    ensures |ProjectIds(items)| > 1 <==> Clash(items)
  {
    var ids := ProjectIds(items);
    if |ids| > 1 {
      var a :| a in ids;
      assert |ids - {a}| > 0;
      var b :| b in ids - {a};
      var x :| x in items && x.projectId == Some(a);
      var y :| y in items && y.projectId == Some(b);
    }
    if Clash(items) {
      var x, y :| x in items && y in items && x.projectId.Some? && y.projectId.Some? && x.projectId != y.projectId;
      assert {x.projectId.value, y.projectId.value} <= ids;
      SubsetSize({x.projectId.value, y.projectId.value}, ids);
    }
  }

  lemma {:induction false} GroupsConflict(plan: MigrationPlan, scope: Scope, env: Env, groups: seq<Group>)
    requires NonEmpty(groups)
    ensures PlanGroups(plan, scope, env, groups).Err? <==> exists g <- groups :: Clash(g.items)
    decreases |groups|
  {
    if groups != [] {
      assert groups == [groups[0]] + groups[1..];
      PlannedStep(plan, scope, env, groups);
      ClashMeaning(groups[0].items);
      var next := PlanGroup(plan, scope, env, groups[0]);
      if next.Ok? { GroupsConflict(next.value, scope, env, groups[1..]); }
    }
  }

  lemma {:induction false} RecordsConflict(items: seq<Item>, records: seq<Legacy>, scope: Scope, env: Env)
    ensures AdmitAll(items, records, scope, env).Err? <==> exists r <- records :: Candidate(r, scope) && ProjectIdFor(r).Err?
    decreases |records|
  {
    if records != [] {
      assert records == [records[0]] + records[1..];
      var item := Admit(records[0], scope, env);
      if item.Ok? {
        RecordsConflict(if item.value.Some? then items + [item.value.value] else items, records[1..], scope, env);
      }
    }
  }

  lemma {:induction false} AdmittedItems(items: seq<Item>, records: seq<Legacy>, scope: Scope, env: Env)
    requires AdmitAll(items, records, scope, env).Ok?
    ensures forall x :: x in AdmitAll(items, records, scope, env).value
                        <==> x in items || exists r <- records :: Admit(r, scope, env) == Ok(Some(x))
    decreases |records|
  {
    if records != [] {
      assert records == [records[0]] + records[1..];
      var item := Admit(records[0], scope, env).value;
      AdmittedItems(if item.Some? then items + [item.value] else items, records[1..], scope, env);
    }
  }

  lemma {:induction false} InFlat(groups: seq<Group>, x: Item)
    requires x in Flatten(groups)
    ensures exists i :: 0 <= i < |groups| && x in groups[i].items
    decreases |groups|
  {
    if x in groups[0].items {
    } else {
      InFlat(groups[1..], x);
      var i :| 0 <= i < |groups[1..]| && x in groups[1..][i].items;
      assert groups[i + 1] == groups[1..][i];
    }
  }

  lemma {:induction false} InGroup(groups: seq<Group>, i: nat, x: Item)
    requires i < |groups| && x in groups[i].items
    ensures x in Flatten(groups)
    decreases i
  {
    if i > 0 { InGroup(groups[1..], i - 1, x); }
  }

  ghost predicate SameKeyClash(scope: Scope, x: Item, y: Item) {
    SessionKey(scope, x) == SessionKey(scope, y) && x.projectId.Some? && y.projectId.Some? && x.projectId != y.projectId
  }

  lemma {:induction false} GroupClashes(scope: Scope, groups: seq<Group>)
    requires Partition(scope, groups)
    ensures (exists g <- groups :: Clash(g.items))
            <==> exists x, y :: x in Flatten(groups) && y in Flatten(groups) && SameKeyClash(scope, x, y)
  {
    if g :| g in groups && Clash(g.items) {
      var x, y :| x in g.items && y in g.items && x.projectId.Some? && y.projectId.Some? && x.projectId != y.projectId;
      var i: nat :| i < |groups| && groups[i] == g;
      InGroup(groups, i, x);
      InGroup(groups, i, y);
      assert SameKeyClash(scope, x, y);
    }
    if x, y :| x in Flatten(groups) && y in Flatten(groups) && SameKeyClash(scope, x, y) {
      InFlat(groups, x);
      InFlat(groups, y);
      var i :| 0 <= i < |groups| && x in groups[i].items;
      var j :| 0 <= j < |groups| && y in groups[j].items;
      assert groups[i] in groups && groups[j] in groups && groups[i].key == groups[j].key;
      assert Clash(groups[i].items);
    }
  }

  /** Two records that are both admitted, for one session of the plan, and under different projects. */
  ghost predicate RecordsClash(r: Legacy, t: Legacy, scope: Scope, env: Env) {
    var x, y := Admit(r, scope, env), Admit(t, scope, env);
    x.Ok? && x.value.Some? && y.Ok? && y.value.Some? && SameKeyClash(scope, x.value.value, y.value.value)
  }

  /**
   * A plan is refused exactly when an owned record names two projects itself, or two admitted
   * records with one session key name different ones.
   */
  lemma {:induction false} PlanConflicts(records: seq<Legacy>, scope: Scope, env: Env)
    ensures PlanMigration(records, scope, env).Err? <==>
              || (exists r <- records :: Candidate(r, scope) && ProjectIdFor(r).Err?)
              || exists r, t :: r in records && t in records && RecordsClash(r, t, scope, env)
  {
    RecordsConflict([], records, scope, env);
    var admitted := AdmitAll([], records, scope, env);
    if admitted.Ok? {
      ItemsConflict(scope, env, admitted.value);
      ClashesOfRecords(records, scope, env, admitted.value);
    }
  }

  lemma {:induction false} ItemsConflict(scope: Scope, env: Env, items: seq<Item>)
    ensures NonEmpty(Grouped(scope, items))
    ensures PlanGroups(MigrationPlan(|items|, [], []), scope, env, Grouped(scope, items)).Err?
            <==> exists x, y :: x in items && y in items && SameKeyClash(scope, x, y)
  {
    var groups := Grouped(scope, items);
    GroupsPartition(scope, items);
    GroupsConflict(MigrationPlan(|items|, [], []), scope, env, groups);
    ItemClashes(scope, groups, items);
  }

  lemma {:induction false} ItemClashes(scope: Scope, groups: seq<Group>, items: seq<Item>)
    requires Partition(scope, groups) && multiset(Flatten(groups)) == multiset(items)
    ensures (exists g <- groups :: Clash(g.items)) <==> exists x, y :: x in items && y in items && SameKeyClash(scope, x, y)
  {
    GroupClashes(scope, groups);
    InMultiset(Flatten(groups), items);
  }

  lemma {:induction false} ClashesOfRecords(records: seq<Legacy>, scope: Scope, env: Env, items: seq<Item>)
    requires AdmitAll([], records, scope, env) == Ok(items)
    ensures (exists x, y :: x in items && y in items && SameKeyClash(scope, x, y))
            <==> exists r, t :: r in records && t in records && RecordsClash(r, t, scope, env)
  {
    AdmittedItems([], records, scope, env);
    if x, y :| x in items && y in items && SameKeyClash(scope, x, y) {
      var r :| r in records && Admit(r, scope, env) == Ok(Some(x));
      var t :| t in records && Admit(t, scope, env) == Ok(Some(y));
      assert RecordsClash(r, t, scope, env);
    }
    if r, t :| r in records && t in records && RecordsClash(r, t, scope, env) {
      var x, y := Admit(r, scope, env).value.value, Admit(t, scope, env).value.value;
      assert x in items && y in items && SameKeyClash(scope, x, y);
    }
  }

  // ---------------------------------------------------------------- what a plan holds

  ghost predicate Injective(digest: string -> string) {
    forall x, y | digest(x) == digest(y) :: x == y
  }

  lemma SessionIdInjective(env: Env, a: string, b: string)
    requires Injective(env.digest) && SessionIdFor(env, a) == SessionIdFor(env, b)
    ensures a == b
  {
    var prefix := "session:v2:";
    assert SessionIdFor(env, a)[|prefix|..] == env.digest(a);
    assert SessionIdFor(env, b)[|prefix|..] == env.digest(b);
  }

  /** Items of one key share their channel and conversation. */
  lemma SameKeySameConversation(scope: Scope, x: Item, y: Item)
    requires SessionKey(scope, x) == SessionKey(scope, y)
    ensures x.channelId == y.channelId && x.conversationId == y.conversationId && x.source == y.source
  {
    var a, b := KeyParts(scope, x), KeyParts(scope, y);
    CanonicalJson.StringsInjective(a, b);
    assert a[2] == b[2] && a[3] == b[3] && a[4] == b[4];
    assert SourceName(x.source)[0] == SourceName(y.source)[0];
  }

  /**
   * Conservation: every admitted record becomes exactly one Run, and no Run comes from anywhere
   * else, in whatever order.
   */
  lemma EveryRecordBecomesOneRun(records: seq<Legacy>, scope: Scope, env: Env)
    requires PlanMigration(records, scope, env).Ok?
    ensures var p, items := PlanMigration(records, scope, env).value, AdmitAll([], records, scope, env).value;
            && multiset(p.runs) == multiset(Map(RunFor(scope, env), items))
            && p.matched == |items| == |p.runs|
  {
    var items := AdmitAll([], records, scope, env).value;
    var groups := Grouped(scope, items);
    var p := PlanMigration(records, scope, env).value;
    GroupsPartition(scope, items);
    RunsAdd(MigrationPlan(|items|, [], []), scope, env, groups, p);
    MapMultiset(RunFor(scope, env), Flatten(groups), items);
    InMultiset(p.runs, Map(RunFor(scope, env), items));
  }

  /** The i-th planned session is the session of a Run. */
  ghost predicate Homes(session: Session, run: Run) {
    && session.sessionId == run.sessionId && session.channelId == run.channelId
    && session.workspaceId == run.workspaceId && session.actorUserId == run.actorUserId
    && (run.projectId.Some? ==> session.projectId == run.projectId)
  }

  lemma RunHasHome(scope: Scope, env: Env, group: Group, session: Session, x: Item)
    requires SessionOf(scope, env, group, session) && x in group.items
    requires forall y <- group.items :: SessionKey(scope, y) == group.key
    ensures Homes(session, RunFor(scope, env)(x))
  {
    SortedNonEmpty(env, group.items);
    var ordered := Sort(Earlier(env.weigh), group.items);
    InMultiset(ordered, group.items);
    assert ordered[0] in group.items;
    SameKeySameConversation(scope, ordered[0], x);
    if x.projectId.Some? { assert x.projectId.value in ProjectIds(group.items); }
  }

  lemma {:induction false} PlannedSessionsDiffer(scope: Scope, env: Env, groups: seq<Group>, sessions: seq<Session>)
    requires Partition(scope, groups) && Injective(env.digest) && SessionsOf(scope, env, groups, sessions)
    ensures DistinctSessions(sessions)
  {
    forall i, j | 0 <= i < j < |sessions|
      ensures sessions[i].sessionId != sessions[j].sessionId
    {
      SessionAt(scope, env, groups, sessions, i);
      SessionAt(scope, env, groups, sessions, j);
      if sessions[i].sessionId == sessions[j].sessionId { SessionIdInjective(env, groups[i].key, groups[j].key); }
    }
  }

  /** The record a planned Run was made from. */
  lemma OriginOf(records: seq<Legacy>, scope: Scope, env: Env, run: Run) returns (x: Item)
    requires PlanMigration(records, scope, env).Ok? && run in PlanMigration(records, scope, env).value.runs
    ensures x in AdmitAll([], records, scope, env).value && RunFor(scope, env)(x) == run
  {
    var items := AdmitAll([], records, scope, env).value;
    EveryRecordBecomesOneRun(records, scope, env);
    InMultiset(PlanMigration(records, scope, env).value.runs, Map(RunFor(scope, env), items));
    var i :| 0 <= i < |items| && RunFor(scope, env)(items[i]) == run;
    x := items[i];
  }

  /** The group of an admitted record. */
  lemma GroupOf(scope: Scope, items: seq<Item>, x: Item) returns (i: nat)
    requires x in items
    ensures i < |Grouped(scope, items)| && x in Grouped(scope, items)[i].items
  {
    GroupsPartition(scope, items);
    InMultiset(Flatten(Grouped(scope, items)), items);
    InFlat(Grouped(scope, items), x);
    i :| 0 <= i < |Grouped(scope, items)| && x in Grouped(scope, items)[i].items;
  }

  /** The sessions of a plan are those of its groups, in order. */
  lemma PlanSessionsOf(records: seq<Legacy>, scope: Scope, env: Env, groups: seq<Group>, p: MigrationPlan)
    requires PlanMigration(records, scope, env) == Ok(p)
    requires groups == Grouped(scope, AdmitAll([], records, scope, env).value)
    ensures Partition(scope, groups) && SessionsOf(scope, env, groups, p.sessions)
  {
    var items := AdmitAll([], records, scope, env).value;
    GroupsPartition(scope, items);
    var added := SessionsAdd(MigrationPlan(|items|, [], []), scope, env, groups, p);
    assert p.sessions == added;
  }

  lemma HomeAt(scope: Scope, env: Env, groups: seq<Group>, sessions: seq<Session>, i: nat, x: Item)
    requires Partition(scope, groups) && SessionsOf(scope, env, groups, sessions) && i < |groups| && x in groups[i].items
    ensures Homes(sessions[i], RunFor(scope, env)(x))
  {
    SessionAt(scope, env, groups, sessions, i);
    assert groups[i] in groups;
    RunHasHome(scope, env, groups[i], sessions[i], x);
  }

  /**
   * A plan's sessions have different ids, and every planned Run is at home in exactly one of them:
   * the same owner, channel and, where it names one, project.
   */
  lemma EveryRunHasOneSession(records: seq<Legacy>, scope: Scope, env: Env, run: Run)
    requires Injective(env.digest) && PlanMigration(records, scope, env).Ok?
    requires run in PlanMigration(records, scope, env).value.runs
    ensures var sessions := PlanMigration(records, scope, env).value.sessions;
            && DistinctSessions(sessions)
            && exists i :: 0 <= i < |sessions| && Homes(sessions[i], run)
                           && forall j | 0 <= j < |sessions| && sessions[j].sessionId == run.sessionId :: j == i
  {
    var p, items := PlanMigration(records, scope, env).value, AdmitAll([], records, scope, env).value;
    var groups := Grouped(scope, items);
    var x := OriginOf(records, scope, env, run);
    var i := GroupOf(scope, items, x);
    PlanSessionsOf(records, scope, env, groups, p);
    HomeAt(scope, env, groups, p.sessions, i, x);
    PlannedSessionsDiffer(scope, env, groups, p.sessions);
  }

  /** Runs planned into one session belong to one conversation. */
  lemma SessionIsOneConversation(records: seq<Legacy>, scope: Scope, env: Env, a: Run, b: Run)
    requires Injective(env.digest) && PlanMigration(records, scope, env).Ok?
    requires a in PlanMigration(records, scope, env).value.runs && b in PlanMigration(records, scope, env).value.runs
    requires a.sessionId == b.sessionId
    ensures a.channelId == b.channelId && a.conversationId == b.conversationId && a.conversationSource == b.conversationSource
  {
    var x := OriginOf(records, scope, env, a);
    var y := OriginOf(records, scope, env, b);
    SessionIdInjective(env, SessionKey(scope, x), SessionKey(scope, y));
    SameKeySameConversation(scope, x, y);
  }

  // ---------------------------------------------------------------- the span of a session

  lemma {:induction false} BeforeOrder(s: string, t: string, u: string)
    ensures !(Before(s, t) && Before(t, s)) && !Before(s, s)
    ensures Before(s, t) || s == t || Before(t, s)
    ensures Before(s, t) && Before(t, u) ==> Before(s, u)
    decreases |s| + |t| + |u|
  {
    if s != "" { BeforeOrder(s[1..], t, u); }
    if s != "" && t != "" {
      BeforeOrder(s[1..], t[1..], if u == "" then u else u[1..]);
      assert s == [s[0]] + s[1..] && t == [t[0]] + t[1..];
    }
  }

  lemma {:induction false} FirstCreatedIs(value: string, items: seq<Item>)
    ensures !Before(value, FirstCreated(value, items))
    ensures forall x <- items :: !Before(x.record.createdAt, FirstCreated(value, items))
    ensures FirstCreated(value, items) == value || exists x <- items :: x.record.createdAt == FirstCreated(value, items)
    decreases |items|
  {
    BeforeOrder(value, value, value);
    if items != [] {
      var x := items[0].record.createdAt;
      var next := if Before(value, x) then value else x;
      FirstCreatedIs(next, items[1..]);
      BeforeOrder(value, x, FirstCreated(value, items));
      BeforeOrder(x, value, FirstCreated(value, items));
      assert items == [items[0]] + items[1..];
    }
  }

  lemma {:induction false} LastUpdatedIs(value: string, items: seq<Item>)
    ensures !Before(LastUpdated(value, items), value)
    ensures forall x <- items :: !Before(LastUpdated(value, items), x.record.updatedAt)
    ensures LastUpdated(value, items) == value || exists x <- items :: x.record.updatedAt == LastUpdated(value, items)
    decreases |items|
  {
    BeforeOrder(value, value, value);
    if items != [] {
      var x := items[0].record.updatedAt;
      var next := if Before(x, value) then value else x;
      LastUpdatedIs(next, items[1..]);
      BeforeOrder(value, x, x);
      BeforeOrder(LastUpdated(value, items), x, value);
      BeforeOrder(LastUpdated(value, items), value, x);
      assert items == [items[0]] + items[1..];
    }
  }

  /** The project a record names: its context's, else the one its crew channel is called after, else its own. */
  predicate NamesProject(r: Legacy, project: Option<string>) {
    && (r.contextProjectId.Some? ==> project == r.contextProjectId)
    && (r.contextProjectId.None? && r.channelId.Some? && "crew_channel:" <= r.channelId.value ==>
          project.Some? && r.channelId.value == "crew_channel:" + project.value)
    && (r.contextProjectId.None? && (r.channelId.None? || !("crew_channel:" <= r.channelId.value)) ==> project == r.projectId)
  }

  /** The Run made of a record, member by member. */
  predicate RunOfRecord(r: Legacy, env: Env, run: Run) {
    && run.runId == r.runId && run.workspaceId == r.workspaceId && run.actorUserId == r.actorUserId
    && run.surface == r.surface && run.prompt == r.prompt && run.parentRunId == r.parentRunId
    && run.requestedArtifact == r.requestedArtifact && run.createdAt == r.createdAt && run.updatedAt == r.updatedAt
    && NamesProject(r, run.projectId)
    && (r.channelId.Some? ==> run.channelId == r.channelId.value)
    && (r.channelId.None? && r.conversationId.Some? ==> run.channelId == r.conversationId.value)
    && (r.channelId.None? && r.conversationId.None? ==> run.channelId == "product:" + r.surface + ":" + r.workspaceId)
    && (r.conversationId.Some? ==> run.conversationId == r.conversationId.value && run.conversationSource == Some(FromConversation))
    && (r.conversationId.None? ==> run.conversationId == r.runId && run.conversationSource == Some(FromRunId))
    && (r.sourceEventId.Some? ==> run.sourceEventId == r.sourceEventId.value && !run.sourceEventDerived)
    && (r.sourceEventId.None? ==> run.sourceEventId == "product:source:" + r.runId && run.sourceEventDerived)
    && (r.resourceRefs.Some? ==> run.resourceRefs == r.resourceRefs.value) && (r.resourceRefs.None? ==> run.resourceRefs == [])
    && run.sessionId == "session:v2:" + env.digest(ConversationKey(r, run.channelId, run.conversationId))
    && run.skillId.None? && run.agentId.None? && run.modelProfileId.None? && run.permissionMode.None?
    && run.admissionStatus.None? && run.admissionError.None? && run.goalId.None? && run.trigger.None?
  }

  /** The JSON text of owner, channel and conversation that a session id is the digest of. */
  function ConversationKey(r: Legacy, channelId: string, conversationId: string): string {
    CanonicalJson.StableJson(CanonicalJson.Arr(CanonicalJson.Strings(
      [r.workspaceId, r.actorUserId, channelId, if r.conversationId.Some? then "conversation" else "run_id_fallback", conversationId])))
  }

  /** A record takes part exactly if it is the owner's, and so is the project it names, if any. */
  lemma TakesPart(r: Legacy, scope: Scope, env: Env)
    requires r.contextProjectId.Some? && r.channelId.Some? && "crew_channel:" <= r.channelId.value ==>
               r.channelId.value == "crew_channel:" + r.contextProjectId.value
    ensures Admit(r, scope, env).Ok?
    ensures Admit(r, scope, env).value.Some? <==>
              && r.workspaceId == scope.workspaceId && r.actorUserId == scope.actorUserId
              && exists p :: NamesProject(r, p)
                             && (p.None? || env.resolve(p.value) == Some(Scope(scope.workspaceId, scope.actorUserId, p)))
  {
    assert NamesProject(r, ProjectIdFor(r).value);
  }

  /** And it is refused exactly if its context and its crew channel name different projects. */
  lemma NamesTwoProjects(r: Legacy)
    ensures ProjectIdFor(r).Err? <==>
              r.contextProjectId.Some? && r.channelId.Some? && "crew_channel:" <= r.channelId.value
              && r.channelId.value != "crew_channel:" + r.contextProjectId.value
  {
    if r.channelId.Some? && "crew_channel:" <= r.channelId.value {
      assert r.channelId.value == "crew_channel:" + r.channelId.value[|"crew_channel:"|..];
    }
  }

  /** Every planned Run is that of one of the records, member by member. */
  lemma PlannedRunMeaning(records: seq<Legacy>, scope: Scope, env: Env, run: Run) returns (r: Legacy)
    requires PlanMigration(records, scope, env).Ok? && run in PlanMigration(records, scope, env).value.runs
    ensures r in records && RunOfRecord(r, env, run) && r.workspaceId == scope.workspaceId && r.actorUserId == scope.actorUserId
  {
    var x := OriginOf(records, scope, env, run);
    AdmittedItems([], records, scope, env);
    r :| r in records && Admit(r, scope, env) == Ok(Some(x));
    ItemMeaning(r, scope, env, x);
  }

  lemma ItemMeaning(r: Legacy, scope: Scope, env: Env, x: Item)
    requires Admit(r, scope, env) == Ok(Some(x))
    ensures RunOfRecord(r, env, RunFor(scope, env)(x)) && r.workspaceId == scope.workspaceId && r.actorUserId == scope.actorUserId
  {
    NamesTwoProjects(r);
    assert NamesProject(r, x.projectId);
  }

  lemma EarlierIsWeakOrder(weigh: string -> real)
    ensures WeakOrder(Earlier(weigh))
  {
  }

  lemma EarliestFirst(env: Env, items: seq<Item>)
    requires items != []
    ensures var ordered := Sort(Earlier(env.weigh), items);
            && ordered != [] && ordered[0] in items
            && forall y <- items :: env.weigh(ordered[0].record.createdAt) <= env.weigh(y.record.createdAt)
  {
    var ordered := Sort(Earlier(env.weigh), items);
    InMultiset(ordered, items);
    EarlierIsWeakOrder(env.weigh);
    SortOrders(Earlier(env.weigh), items);
    assert ordered[0] in items;
    forall y <- items
      ensures env.weigh(ordered[0].record.createdAt) <= env.weigh(y.record.createdAt)
    {
      var j :| 0 <= j < |ordered| && ordered[j] == y;
      assert j > 0 ==> !Earlier(env.weigh)(ordered[j], ordered[0]);
    }
  }

  /** A session shows the surface of its earliest record, and has no Goal. */
  lemma SessionSurface(scope: Scope, env: Env, group: Group, session: Session)
    requires SessionOf(scope, env, group, session)
    ensures exists x <- group.items :: session.surface == x.record.surface
              && forall y <- group.items :: env.weigh(x.record.createdAt) <= env.weigh(y.record.createdAt)
    ensures session.goal.None?
  {
    EarliestFirst(env, group.items);
    var x := Sort(Earlier(env.weigh), group.items)[0];
    assert x in group.items && session.surface == x.record.surface;
  }

  /** A planned session spans its records: from the first creation among them to the last update. */
  lemma SessionSpansItsRecords(scope: Scope, env: Env, group: Group, session: Session)
    requires SessionOf(scope, env, group, session)
    ensures forall x <- group.items :: !Before(x.record.createdAt, session.createdAt) && !Before(session.updatedAt, x.record.updatedAt)
    ensures exists x <- group.items :: x.record.createdAt == session.createdAt
    ensures exists x <- group.items :: x.record.updatedAt == session.updatedAt
  {
    SortedNonEmpty(env, group.items);
    var ordered := Sort(Earlier(env.weigh), group.items);
    InMultiset(ordered, group.items);
    FirstCreatedIs(ordered[0].record.createdAt, ordered);
    LastUpdatedIs(ordered[0].record.updatedAt, ordered);
    assert ordered[0] in group.items;
  }
}
