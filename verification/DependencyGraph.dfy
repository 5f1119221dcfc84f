/**
 The task dependency graph read by the DAG walker: an edge from a task to every task it
 depends on.  Cycles, acyclicity, and the order in which dependencies can be finished.
 */
module DependencyGraph {
  import opened Common

  type Graph = map<string, seq<string>>

  /** Every dependency is itself a node. */
  ghost predicate Closed(g: Graph) {
    forall n, c :: n in g && 0 <= c < |g[n]| ==> g[n][c] in g
  }

  /** Each node depends on the next one. */
  ghost predicate IsWalk(g: Graph, p: seq<string>) {
    && (forall k :: 0 <= k < |p| ==> p[k] in g)
    && (forall k, l :: 0 <= k < l < |p| && l == k + 1 ==> p[l] in g[p[k]])
  }

  ghost predicate IsCycle(g: Graph, p: seq<string>) {
    && |p| >= 2
    && p[0] == p[|p| - 1]
    && IsWalk(g, p)
  }

  /** A cycle that passes through each of its nodes once. */
  ghost predicate IsSimpleCycle(g: Graph, p: seq<string>) {
    IsCycle(g, p) && Distinct(p[1..])
  }

  ghost predicate Acyclic(g: Graph) {
    forall p: seq<string> :: !IsCycle(g, p)
  }

  /** A listing of nodes in which every node comes after all its dependencies. */
  ghost predicate IsFinishingOrder(g: Graph, order: seq<string>) {
    && Distinct(order)
    && (forall i :: 0 <= i < |order| ==> order[i] in g)
    && (forall i, c :: 0 <= i < |order| && 0 <= c < |g[order[i]]| ==> g[order[i]][c] in order[..i])
  }

  ghost function Position(order: seq<string>, n: string): (i: nat)
    requires n in order
    ensures i < |order| && order[i] == n
  {
    var i :| 0 <= i < |order| && order[i] == n;
    i
  }

  lemma {:induction false} PositionsFall(g: Graph, order: seq<string>, p: seq<string>)
    requires IsFinishingOrder(g, order) && IsWalk(g, p) && |p| >= 2
    requires forall k :: 0 <= k < |p| ==> p[k] in order
    ensures Position(order, p[|p| - 1]) < Position(order, p[0])
  {
    var m := |p| - 2;
    var i := Position(order, p[m]);
    var c :| 0 <= c < |g[p[m]]| && g[p[m]][c] == p[m + 1];
    assert g[order[i]][c] in order[..i];
    if m > 0 {
      PositionsFall(g, order, p[..m + 1]);
    }
  }

  /** A finishing order of the whole graph is a certificate that no cycle exists. */
  lemma FinishingOrderExcludesCycles(g: Graph, order: seq<string>)
    requires IsFinishingOrder(g, order)
    requires forall n :: n in g ==> n in order
    ensures Acyclic(g)
  {
    forall p: seq<string> ensures !IsCycle(g, p) {
      if IsCycle(g, p) {
        PositionsFall(g, order, p);
      }
    }
  }

  /**
   In an acyclic graph every non-empty set of nodes has a member none of whose dependencies
   are in the set: walking along dependencies inside the set must stop.
   */
  lemma {:induction false} SourceExists(g: Graph, s: set<string>, walk: seq<string>) returns (n: string)
    requires Acyclic(g) && Closed(g) && s <= g.Keys
    requires walk != [] && IsWalk(g, walk) && Distinct(walk)
    requires forall k :: 0 <= k < |walk| ==> walk[k] in s
    ensures n in s && forall c :: 0 <= c < |g[n]| ==> g[n][c] !in s
    decreases |s| - |walk|
  {
    DistinctLength(walk, s);
    n := walk[|walk| - 1];
    if c :| 0 <= c < |g[n]| && g[n][c] in s {
      var d := g[n][c];
      if d in walk {
        var i :| 0 <= i < |walk| && walk[i] == d;
        assert IsCycle(g, walk[i..] + [d]);
        assert false;
      } else {
        DistinctLength(walk + [d], s);
        n := SourceExists(g, s, walk + [d]);
      }
    }
  }
}
