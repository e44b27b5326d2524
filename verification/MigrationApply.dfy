/** Applying a migration twice, and the conflicts it reports. */
module MigrationApply {
  import opened Prelude
  import opened GoalDecision
  import opened SessionState

  lemma SessionIndexSnoc(sessions: seq<Session>, x: Session)
    ensures IndexSessions(sessions + [x]) == IndexSessions(sessions)[x.sessionId := x]
  {
    assert (sessions + [x])[..|sessions|] == sessions;
  }

  lemma RunIndexSnoc(runs: seq<Run>, x: Run)
    ensures IndexRuns(runs + [x]) == IndexRuns(runs)[x.runId := x]
    ensures IndexSources(runs + [x]) == IndexSources(runs)[SourceKey(x) := x]
  {
    assert (runs + [x])[..|runs|] == runs;
  }

  lemma Longer<T>(a: seq<T>, b: seq<T>, x: T)
    ensures a + (b + [x]) == (a + b) + [x]
  {
  }

  /** The indexes of the state a delta has been applied to are the delta's own. */
  lemma {:induction false} SessionsIndexed(d: Delta, base: State, sessions: seq<Session>, e: Delta)
    requires d.sessionsById == IndexSessions(base.sessions + d.sessions) && AddSessions(d, sessions) == Ok(e)
    ensures e.sessionsById == IndexSessions(base.sessions + e.sessions)
    ensures e.runsById == d.runsById && e.runsBySource == d.runsBySource && e.runs == d.runs
    decreases |sessions|
  {
    if sessions != [] {
      var x := sessions[0];
      if x.sessionId !in d.sessionsById {
        Longer(base.sessions, d.sessions, x);
        SessionIndexSnoc(base.sessions + d.sessions, x);
      }
      SessionsIndexed(AddSession(d, x).value, base, sessions[1..], e);
    }
  }

  lemma {:induction false} RunsIndexed(d: Delta, base: State, runs: seq<Run>, e: Delta)
    requires d.runsById == IndexRuns(base.runs + d.runs) && d.runsBySource == IndexSources(base.runs + d.runs)
    requires AddRuns(d, runs) == Ok(e)
    ensures e.runsById == IndexRuns(base.runs + e.runs) && e.runsBySource == IndexSources(base.runs + e.runs)
    ensures e.sessionsById == d.sessionsById && e.sessions == d.sessions
    decreases |runs|
  {
    if runs != [] {
      var x := runs[0];
      if x.runId !in d.runsById {
        Longer(base.runs, d.runs, x);
        RunIndexSnoc(base.runs + d.runs, x);
      }
      RunsIndexed(AddRun(d, x).value, base, runs[1..], e);
    }
  }

  ghost predicate HasSessions(d: Delta, sessions: seq<Session>) {
    forall x <- sessions :: x.sessionId in d.sessionsById && SameSessionRecord(d.sessionsById[x.sessionId], x)
  }

  ghost predicate HasRuns(d: Delta, runs: seq<Run>) {
    forall x <- runs ::
      x.sessionId in d.sessionsById && x.runId in d.runsById && SameMigratedRun(d.runsById[x.runId], x)
  }

  lemma {:induction false} SessionsTaken(d: Delta, sessions: seq<Session>)
    requires AddSessions(d, sessions).Ok?
    ensures HasSessions(AddSessions(d, sessions).value, sessions)
    ensures forall id <- d.sessionsById ::
              id in AddSessions(d, sessions).value.sessionsById && AddSessions(d, sessions).value.sessionsById[id] == d.sessionsById[id]
    decreases |sessions|
  {
    if sessions != [] {
      var next := AddSession(d, sessions[0]).value;
      SessionsTaken(next, sessions[1..]);
      assert sessions == [sessions[0]] + sessions[1..];
    }
  }

  lemma {:induction false} RunsTaken(d: Delta, runs: seq<Run>)
    requires AddRuns(d, runs).Ok?
    ensures HasRuns(AddRuns(d, runs).value, runs) && AddRuns(d, runs).value.sessionsById == d.sessionsById
    ensures forall id <- d.runsById ::
              id in AddRuns(d, runs).value.runsById && AddRuns(d, runs).value.runsById[id] == d.runsById[id]
    decreases |runs|
  {
    if runs != [] {
      var next := AddRun(d, runs[0]).value;
      RunsTaken(next, runs[1..]);
      assert runs == [runs[0]] + runs[1..];
    }
  }

  lemma {:induction false} NothingToAddSessions(d: Delta, sessions: seq<Session>)
    requires HasSessions(d, sessions)
    ensures AddSessions(d, sessions) == Ok(d)
    decreases |sessions|
  {
    if sessions != [] {
      assert sessions[0] in sessions;
      NothingToAddSessions(d, sessions[1..]);
    }
  }

  lemma {:induction false} NothingToAddRuns(d: Delta, runs: seq<Run>)
    requires HasRuns(d, runs)
    ensures AddRuns(d, runs) == Ok(d)
    decreases |runs|
  {
    if runs != [] {
      assert runs[0] in runs;
      NothingToAddRuns(d, runs[1..]);
    }
  }

  /** Once a migration has been applied, applying it again finds no conflict and adds nothing. */
  lemma SecondApplyAddsNothing(s: State, records: Records)
    requires ApplyMigration(s, records).Ok?
    ensures var after := ApplyMigration(s, records).value;
            && MigrationDelta(after, records) == Ok(StartDelta(after))
            && ApplyMigration(after, records) == Ok(after)
  {
    var start := StartDelta(s);
    var middle := AddSessions(start, records.sessions).value;
    var end := AddRuns(middle, records.runs).value;
    var after := ApplyMigration(s, records).value;
    assert s.sessions + [] == s.sessions && s.runs + [] == s.runs;
    SessionsIndexed(start, s, records.sessions, middle);
    RunsIndexed(middle, s, records.runs, end);
    SessionsTaken(start, records.sessions);
    RunsTaken(middle, records.runs);
    var again := StartDelta(after);
    assert again.sessionsById == end.sessionsById && again.runsById == end.runsById;
    NothingToAddSessions(again, records.sessions);
    NothingToAddRuns(again, records.runs);
    assert after.sessions + [] == after.sessions && after.runs + [] == after.runs;
  }

  // ---------------------------------------------------------------- source keys

  /** One of two session ids followed by NUL begins the other one followed by NUL. */
  predicate Ambiguous(a: string, b: string) {
    a + NUL <= b || b + NUL <= a
  }

  /** Two different session ids can share a source key, with some source events, exactly when ambiguous. */
  lemma KeysCollideExactly(a: string, b: string)
    requires a != b
    ensures (exists x, y :: a + NUL + x == b + NUL + y) <==> Ambiguous(a, b)
  {
    if x, y :| a + NUL + x == b + NUL + y {
      var s := a + NUL + x;
      assert s == a + (NUL + x) && s == b + (NUL + y);
      assert a + NUL == s[..|a| + 1] && b + NUL == s[..|b| + 1];
      assert a == s[..|a|] && b == s[..|b|];
    }
    if a + NUL <= b { Extends(a, b); }
    if b + NUL <= a { Extends(b, a); }
  }

  lemma Extends(a: string, b: string)
    requires a + NUL <= b
    ensures a + NUL + (b[|a| + 1..] + NUL) == b + NUL + ""
  {
    assert b == a + NUL + b[|a| + 1..];
  }

  ghost predicate KeyIsSource(left: Run, right: Run) {
    SourceKey(left) == SourceKey(right) <==> SameSource(left, right)
  }

  /**
   * A shared key means the same source event of the same session, for all Runs of two sessions,
   * exactly when the session ids are unambiguous; `any` is some Run, to make others from.
   */
  lemma SourceKeysExact(a: string, b: string, any: Run)
    ensures (forall left: Run, right: Run | left.sessionId == a && right.sessionId == b :: KeyIsSource(left, right)) <==> !Ambiguous(a, b)
  {
    if a == b {
      forall left: Run, right: Run | left.sessionId == a && right.sessionId == b
        ensures KeyIsSource(left, right)
      {
        assert SourceKey(left) == a + NUL + left.sourceEventId && SourceKey(right) == a + NUL + right.sourceEventId;
        assert SourceKey(left)[|a| + 1..] == left.sourceEventId && SourceKey(right)[|a| + 1..] == right.sourceEventId;
      }
    } else {
      KeysCollideExactly(a, b);
      if x, y :| a + NUL + x == b + NUL + y {
        var left, right := any.(sessionId := a, sourceEventId := x), any.(sessionId := b, sourceEventId := y);
        assert SourceKey(left) == SourceKey(right) && !KeyIsSource(left, right);
      } else {
        forall left: Run, right: Run | left.sessionId == a && right.sessionId == b
          ensures KeyIsSource(left, right)
        {
          assert SourceKey(left) == a + NUL + left.sourceEventId && SourceKey(right) == b + NUL + right.sourceEventId;
        }
      }
    }
  }

  /** With a NUL in a session id, Runs of different sessions can be taken for the same source event. */
  lemma SourceKeysCollide(left: Run, right: Run)
    requires left.sessionId == "a" && left.sourceEventId == ['\0'] + "b"
    requires right.sessionId == ['a', '\0'] && right.sourceEventId == "b"
    ensures SourceKey(left) == SourceKey(right) && !SameSource(left, right)
  {
    assert SourceKey(left) == ['a', '\0', '\0', 'b'];
    assert SourceKey(right) == ['a', '\0', '\0', 'b'];
  }
}
