/** Repeated rounds of assignment finish every acyclic task list. */
module DagProgress {
  import opened Common
  import opened DependencyGraph
  import opened DagWalker

  ghost predicate DistinctIds(rs: seq<TaskRecord>) {
    forall i, j :: 0 <= i < j < |rs| ==> rs[i].id != rs[j].id
  }

  /** A list the walker accepts: distinct ids, known dependencies, no cycle. */
  ghost predicate Accepted(rs: seq<TaskRecord>) {
    DistinctIds(rs) && AllKnown(rs) && Acyclic(Adjacency(rs))
  }

  /** Between rounds, whatever is not finished is pending and unassigned. */
  ghost predicate Settled(rs: seq<TaskRecord>) {
    forall i :: 0 <= i < |rs| && !Terminal(rs[i].status) ==> rs[i].status == "pending" && rs[i].agent == None
  }

  ghost function Open(rs: seq<TaskRecord>): set<nat> {
    set i: nat | i < |rs| && !Terminal(rs[i].status)
  }

  ghost function OpenIds(rs: seq<TaskRecord>): set<string> {
    set i | 0 <= i < |rs| && !Terminal(rs[i].status) :: rs[i].id
  }

  /** With distinct ids every task finds its own dependencies in the graph. */
  lemma OwnDependencies(rs: seq<TaskRecord>, i: nat)
    requires DistinctIds(rs) && i < |rs|
    ensures rs[i].id in Adjacency(rs) && Adjacency(rs)[rs[i].id] == rs[i].dependencies
  {
    var g := Adjacency(rs);
    assert rs[i].id in g;
    var k :| 0 <= k < |rs| && rs[k].id == rs[i].id && g[rs[i].id] == rs[k].dependencies;
  }

  lemma NotOpenMeansFinished(rs: seq<TaskRecord>, d: string)
    requires KnownDependency(rs, d) && d !in OpenIds(rs)
    ensures FinishedId(rs, d)
  {
    var k :| 0 <= k < |rs| && rs[k].id == d;
    assert Terminal(rs[k].status);
  }

  /** While work remains in an accepted, settled list, some task is ready. */
  lemma SomeTaskReady(rs: seq<TaskRecord>)
    requires Accepted(rs) && Settled(rs) && Open(rs) != {}
    ensures ReadyIndices(rs, |rs|) != []
  {
    var g := Adjacency(rs);
    KnownMeansClosed(rs);
    var first :| first in Open(rs);
    OwnDependencies(rs, first);
    assert OpenIds(rs) <= g.Keys by {
      forall i | 0 <= i < |rs| ensures rs[i].id in g {
        OwnDependencies(rs, i);
      }
    }
    assert rs[first].id in OpenIds(rs);
    var n := SourceExists(g, OpenIds(rs), [rs[first].id]);
    var i :| 0 <= i < |rs| && !Terminal(rs[i].status) && rs[i].id == n;
    OwnDependencies(rs, i);
    forall c | 0 <= c < |rs[i].dependencies| ensures rs[i].dependencies[c] in CompletedIds(rs) {
      assert KnownDependency(rs, rs[i].dependencies[c]);
      assert g[n][c] !in OpenIds(rs);
      NotOpenMeansFinished(rs, rs[i].dependencies[c]);
    }
    assert IsReady(rs[i], CompletedIds(rs));
    assert i in ReadyIndices(rs, |rs|);
  }

  /** One round: ready tasks are assigned, and every task assigned in the round reaches a terminal status. */
  ghost predicate Round(before: seq<TaskRecord>, agentIds: seq<string>, after: seq<TaskRecord>) {
    var mid := Assigned(before, agentIds);
    && |after| == |before|
    && forall i :: 0 <= i < |before| ==>
         if mid[i] == before[i] then after[i] == before[i]
         else Terminal(after[i].status) && after[i] == mid[i].(status := after[i].status)
  }

  lemma SameGraph(rs: seq<TaskRecord>, ts: seq<TaskRecord>)
    requires |rs| == |ts|
    requires forall i :: 0 <= i < |rs| ==> ts[i].id == rs[i].id && ts[i].dependencies == rs[i].dependencies
    ensures Adjacency(rs) == Adjacency(ts)
  {
    if rs != [] {
      SameGraph(rs[..|rs| - 1], ts[..|ts| - 1]);
    }
  }

  lemma RoundKeepsAccepted(before: seq<TaskRecord>, agentIds: seq<string>, after: seq<TaskRecord>)
    requires Accepted(before) && Settled(before) && Round(before, agentIds, after)
    ensures Accepted(after) && Settled(after) && |after| == |before|
  {
    hide IsReady, CompletedIds, ReadyIndices, Acyclic, Adjacency;
    assert forall i :: 0 <= i < |before| ==>
      after[i].id == before[i].id && after[i].dependencies == before[i].dependencies;
    SameGraph(before, after);
    forall i, c | 0 <= i < |after| && 0 <= c < |after[i].dependencies|
      ensures KnownDependency(after, after[i].dependencies[c])
    {
      assert KnownDependency(before, before[i].dependencies[c]);
      var k :| 0 <= k < |before| && before[k].id == before[i].dependencies[c];
      assert after[k].id == after[i].dependencies[c];
    }
  }

  /** A round with at least one free agent finishes at least one task while work remains. */
  lemma RoundProgress(before: seq<TaskRecord>, agentIds: seq<string>, after: seq<TaskRecord>)
    requires Accepted(before) && Settled(before) && Round(before, agentIds, after)
    requires agentIds != []
    ensures Open(after) <= Open(before)
    ensures Open(before) != {} ==> Open(after) < Open(before)
  {
    if Open(before) != {} {
      SomeTaskReady(before);
      var i := ReadyIndices(before, |before|)[0];
      RankOfReady(before, 0);
      assert Assigned(before, agentIds)[i] != before[i];
      assert i in Open(before) && i !in Open(after);
    }
  }

  lemma OpenSize(rs: seq<TaskRecord>)
    ensures |Open(rs)| <= |rs|
  {
    if rs != [] {
      var shorter := rs[..|rs| - 1];
      OpenSize(shorter);
      assert Open(rs) <= Open(shorter) + {|rs| - 1};
      ProperSubsetSize(Open(rs), Open(shorter) + {|rs| - 1});
    }
  }

  lemma ProperSubsetSize(a: set<nat>, b: set<nat>)
    requires a <= b
    ensures |a| <= |b|
    ensures a < b ==> |a| < |b|
  {
    assert b == a + (b - a);
  }

  /** States reached by successive rounds, each with at least one free agent. */
  ghost predicate Rounds(states: seq<seq<TaskRecord>>, agentIds: seq<seq<string>>) {
    && |states| == |agentIds| + 1
    && forall k, l :: 0 <= k < l < |states| && l == k + 1 ==> agentIds[k] != [] && Round(states[k], agentIds[k], states[l])
  }

  lemma {:induction false} RoundsShrink(states: seq<seq<TaskRecord>>, agentIds: seq<seq<string>>, k: nat)
    requires Rounds(states, agentIds) && k < |states|
    requires Accepted(states[0]) && Settled(states[0])
    ensures Accepted(states[k]) && Settled(states[k]) && |states[k]| == |states[0]|
    ensures Open(states[k]) == {} || |Open(states[k])| + k <= |states[0]|
  {
    hide Accepted, Settled, Round;
    if k == 0 {
      OpenSize(states[0]);
    } else {
      var j := k - 1;
      RoundsShrink(states, agentIds, j);
      assert Round(states[j], agentIds[j], states[k]);
      RoundKeepsAccepted(states[j], agentIds[j], states[k]);
      RoundProgress(states[j], agentIds[j], states[k]);
      ProperSubsetSize(Open(states[k]), Open(states[j]));
    }
  }

  /** As many rounds as there are tasks leave no task unfinished. */
  lemma RoundsFinish(states: seq<seq<TaskRecord>>, agentIds: seq<seq<string>>)
    requires Rounds(states, agentIds)
    requires Accepted(states[0]) && Settled(states[0])
    requires |agentIds| >= |states[0]|
    ensures forall i :: 0 <= i < |states[|agentIds|]| ==> Terminal(states[|agentIds|][i].status)
  {
    var last := states[|agentIds|];
    RoundsShrink(states, agentIds, |agentIds|);
    assert Open(last) == {};
    forall i: nat | i < |last| ensures Terminal(last[i].status) {
      assert i !in Open(last);
    }
  }
}
