/** The processes below some seeds in a process table. */
module ProcessTree {
  import opened Prelude

  datatype Row = Row(pid: int, ppid: int)

  /** Reachable along parent links from a seed, in at most n of them. */
  ghost predicate Below(rows: seq<Row>, seeds: set<int>, pid: int, n: nat)
    decreases n
  {
    pid in seeds || (n > 0 && exists r <- rows :: r.pid == pid && Below(rows, seeds, r.ppid, n - 1))
  }

  ghost predicate Reachable(rows: seq<Row>, seeds: set<int>, pid: int) {
    exists n: nat :: Below(rows, seeds, pid, n)
  }

  /** Nothing in the table is one link away from the set and outside it. */
  predicate Closed(rows: seq<Row>, tracked: set<int>) {
    forall r <- rows :: r.ppid in tracked ==> r.pid in tracked
  }

  lemma {:induction false} ClosedHoldsAll(rows: seq<Row>, seeds: set<int>, tracked: set<int>, pid: int, n: nat)
    requires seeds <= tracked && Closed(rows, tracked) && Below(rows, seeds, pid, n)
    ensures pid in tracked
    decreases n
  {
    if pid !in seeds {
      var r :| r in rows && r.pid == pid && Below(rows, seeds, r.ppid, n - 1);
      ClosedHoldsAll(rows, seeds, tracked, r.ppid, n - 1);
    }
  }

  lemma ChildReachable(rows: seq<Row>, seeds: set<int>, r: Row)
    requires r in rows && Reachable(rows, seeds, r.ppid)
    ensures Reachable(rows, seeds, r.pid)
  {
    var n: nat :| Below(rows, seeds, r.ppid, n);
    assert Below(rows, seeds, r.pid, n + 1);
  }

  function Pids(rows: seq<Row>): set<int> {
    set r | r in rows :: r.pid
  }

  /**
   * For every table, with cycles, repeated pids and rows in any order: the search ends, with
   * exactly the seeds and the processes reachable from them.
   */
  method DescendantClosure(rows: seq<Row>, seeds: set<int>) returns (tracked: set<int>)
    ensures forall pid :: pid in tracked <==> Reachable(rows, seeds, pid)
  {
    tracked := seeds;
    forall pid <- tracked ensures Reachable(rows, seeds, pid) { assert Below(rows, seeds, pid, 0); }
    var grew := true;
    while grew
      invariant seeds <= tracked && forall pid <- tracked :: Reachable(rows, seeds, pid)
      invariant !grew ==> Closed(rows, tracked)
      decreases |Pids(rows) - tracked|, if grew then 1 else 0
    {
      grew := false;
      ghost var before := tracked;
      for i := 0 to |rows|
        invariant before <= tracked && forall pid <- tracked :: Reachable(rows, seeds, pid)
        invariant !grew ==> tracked == before && forall k | 0 <= k < i :: rows[k].ppid in tracked ==> rows[k].pid in tracked
        invariant grew ==> exists pid :: pid in Pids(rows) && pid in tracked && pid !in before
      {
        var row := rows[i];
        if row.pid !in tracked && row.ppid in tracked {
          ChildReachable(rows, seeds, row);
          assert row.pid in Pids(rows);
          tracked := tracked + {row.pid};
          grew := true;
        }
      }
      if grew {
        ghost var pid :| pid in Pids(rows) && pid in tracked && pid !in before;
        Shrinks(Pids(rows), before, tracked, pid);
      }
    }
    forall pid | Reachable(rows, seeds, pid)
      ensures pid in tracked
    {
      var n: nat :| Below(rows, seeds, pid, n);
      ClosedHoldsAll(rows, seeds, tracked, pid, n);
    }
  }

  lemma Shrinks(pids: set<int>, before: set<int>, after: set<int>, pid: int)
    requires before <= after && pid in pids && pid in after && pid !in before
    ensures |pids - after| < |pids - before|
  {
    var smaller := pids - after;
    assert smaller <= (pids - before) - {pid};
    SubsetSize(smaller, (pids - before) - {pid});
  }
}
