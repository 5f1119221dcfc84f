/**
 The iterative three-colour depth-first search of the DAG walker, with its explicit stack and
 parent pointers.

 Ghost bookkeeping that the program does not keep, but that explains it:
   chain     the GRAY nodes, from the start node down to the node being visited;
   level[k]  how many nodes of the chain have their "processed" frame below stack[k];
   finished  the BLACK nodes in the order they turned BLACK.
 */
module CycleSearch {
  import opened Common
  import opened DependencyGraph

  datatype Color = White | Gray | Black

  datatype Frame = Frame(node: string, processed: bool)

  datatype Search = Search(
    color: map<string, Color>,
    parent: map<string, Option<string>>,
    stack: seq<Frame>,
    level: seq<nat>,
    chain: seq<string>,
    finished: seq<string>)

  // ---------------------------------------------------------------- invariant

  /** Everything mentioned is a node of the graph, and levels index the chain. */
  ghost predicate Domain(g: Graph, s: Search) {
    && Closed(g)
    && s.color.Keys == g.Keys
    && s.parent.Keys == g.Keys
    && |s.level| == |s.stack|
    && (forall k :: 0 <= k < |s.stack| ==> s.stack[k].node in g)
    && (forall k :: 0 <= k < |s.stack| ==> s.level[k] <= |s.chain|)
    && (forall i :: 0 <= i < |s.chain| ==> s.chain[i] in g)
  }

  ghost function LevelAbove(s: Search, k: nat): nat
    requires k < |s.stack| == |s.level|
  {
    s.level[k] + if s.stack[k].processed then 1 else 0
  }

  ghost predicate LevelsMatch(s: Search)
    requires |s.level| == |s.stack|
  {
    && (s.stack != [] ==> s.level[0] == 0)
    && (forall k, l :: 0 <= k < l < |s.stack| && l == k + 1 ==> s.level[l] == LevelAbove(s, k))
    && (forall k, l :: 0 <= k < l < |s.stack| ==> LevelAbove(s, k) <= s.level[l])
    && |s.chain| == (if s.stack == [] then 0 else LevelAbove(s, |s.stack| - 1))
  }

  /** A processed frame belongs to the chain; any other frame was pushed by the chain node below it. */
  ghost predicate FramesMatch(g: Graph, s: Search)
    requires Domain(g, s)
  {
    && (forall k :: 0 <= k < |s.stack| && s.stack[k].processed ==>
          s.level[k] < |s.chain| && s.stack[k].node == s.chain[s.level[k]])
    && (forall k :: 0 <= k < |s.stack| && !s.stack[k].processed && s.level[k] > 0 ==>
          s.stack[k].node in g[s.chain[s.level[k] - 1]])
  }

  /** The chain holds exactly the GRAY nodes, once each. */
  ghost predicate GrayMatch(g: Graph, s: Search)
    requires Domain(g, s)
  {
    && Distinct(s.chain)
    && (forall i :: 0 <= i < |s.chain| ==> s.color[s.chain[i]].Gray?)
    && (forall n :: n in g && s.color[n].Gray? ==> n in s.chain)
  }

  ghost predicate BlackMatch(g: Graph, s: Search)
    requires Domain(g, s)
  {
    && IsFinishingOrder(g, s.finished)
    && (forall i :: 0 <= i < |s.finished| ==> s.color[s.finished[i]].Black?)
    && (forall n :: n in g && s.color[n].Black? ==> n in s.finished)
  }

  /** The parent pointers of GRAY nodes run down the chain. */
  ghost predicate ChainMatch(g: Graph, s: Search)
    requires Domain(g, s)
  {
    && (s.chain != [] ==> s.parent[s.chain[0]] == None)
    && (forall i, j :: 0 <= i < j < |s.chain| && j == i + 1 ==>
          s.parent[s.chain[j]] == Some(s.chain[i]) && s.chain[j] in g[s.chain[i]])
  }

  /** The node that pushed a frame of the given level. */
  ghost function Pusher(s: Search, level: nat): Option<string>
    requires level <= |s.chain|
  {
    if level == 0 then None else Some(s.chain[level - 1])
  }

  ghost predicate Topmost(s: Search, k: nat)
    requires k < |s.stack|
  {
    forall l :: k < l < |s.stack| ==> s.stack[l].node != s.stack[k].node
  }

  ghost predicate OnStack(s: Search, n: string) {
    exists k :: 0 <= k < |s.stack| && s.stack[k].node == n
  }

  /**
   A WHITE node waiting on the stack has the pusher of its topmost frame as parent, so the
   parent is right at the moment the node turns GRAY.
   */
  ghost predicate WaitingMatch(g: Graph, s: Search)
    requires Domain(g, s)
  {
    && (forall k :: 0 <= k < |s.stack| && s.color[s.stack[k].node].White? && Topmost(s, k) ==>
          s.parent[s.stack[k].node] == Pusher(s, s.level[k]))
    && (forall n :: n in g && s.color[n].White? && !OnStack(s, n) ==> s.parent[n] == None)
  }

  /** Waiting frames of a GRAY node lie below its processed frame. */
  ghost predicate GrayFramesBelow(s: Search)
    requires |s.level| == |s.stack|
  {
    forall k, i :: 0 <= k < |s.stack| && !s.stack[k].processed && 0 <= i < |s.chain| && s.stack[k].node == s.chain[i]
      ==> s.level[k] <= i
  }

  ghost predicate Core(g: Graph, s: Search) {
    && Domain(g, s)
    && LevelsMatch(s)
    && FramesMatch(g, s)
    && GrayMatch(g, s)
    && BlackMatch(g, s)
    && ChainMatch(g, s)
    && WaitingMatch(g, s)
    && GrayFramesBelow(s)
  }

  /** Node m is finished, or waits on the stack above the frame of the chain node at index i. */
  ghost predicate Accounted(g: Graph, s: Search, m: string, i: nat)
    requires Domain(g, s) && m in g
  {
    s.color[m].Black? || exists k :: 0 <= k < |s.stack| && s.stack[k].node == m && s.level[k] > i
  }

  /** All dependencies of GRAY nodes are accounted for, except the last node's from index done on. */
  ghost predicate AccountedUpTo(g: Graph, s: Search, done: nat)
    requires Domain(g, s)
  {
    forall i, c :: 0 <= i < |s.chain| && 0 <= c < |g[s.chain[i]]| && (i < |s.chain| - 1 || c < done) ==>
      Accounted(g, s, g[s.chain[i]][c], i)
  }

  ghost predicate AllAccounted(g: Graph, s: Search)
    requires Domain(g, s)
  {
    forall i, c :: 0 <= i < |s.chain| && 0 <= c < |g[s.chain[i]]| ==> Accounted(g, s, g[s.chain[i]][c], i)
  }

  ghost predicate Inv(g: Graph, s: Search) {
    Core(g, s) && AllAccounted(g, s)
  }

  ghost predicate InvUpTo(g: Graph, s: Search, done: nat) {
    Core(g, s) && AccountedUpTo(g, s, done)
  }

  ghost function Top(s: Search): Frame
    requires s.stack != []
  {
    s.stack[|s.stack| - 1]
  }

  // ------------------------------------- popping the frame of a finished visit

  ghost function Blackened(s: Search): Search
    requires s.stack != [] && |s.level| == |s.stack| && s.chain != []
  {
    s.(color := s.color[Top(s).node := Black],
       stack := s.stack[..|s.stack| - 1],
       level := s.level[..|s.stack| - 1],
       chain := s.chain[..|s.chain| - 1],
       finished := s.finished + [Top(s).node])
  }

  ghost predicate AtProcessed(g: Graph, s: Search) {
    && Domain(g, s)
    && LevelsMatch(s)
    && FramesMatch(g, s)
    && s.stack != []
    && Top(s).processed
  }

  lemma ProcessedTop(g: Graph, s: Search)
    requires AtProcessed(g, s)
    ensures s.chain != [] && Top(s).node == s.chain[|s.chain| - 1]
    ensures s.level[|s.stack| - 1] == |s.chain| - 1
    ensures forall k :: 0 <= k < |s.stack| ==> s.level[k] < |s.chain|
    ensures Domain(g, Blackened(s))
  {
    var top := |s.stack| - 1;
    forall k | 0 <= k < top ensures s.level[k] < |s.chain| {
      assert LevelAbove(s, k) <= s.level[top];
    }
  }

  /** When a processed frame is popped, all dependencies of its node have been finished. */
  lemma DependenciesFinished(g: Graph, s: Search)
    requires AtProcessed(g, s) && AllAccounted(g, s)
    ensures forall c :: 0 <= c < |g[Top(s).node]| ==> s.color[g[Top(s).node][c]].Black?
  {
    ProcessedTop(g, s);
    forall c | 0 <= c < |g[Top(s).node]| ensures s.color[g[Top(s).node][c]].Black? {
      assert Accounted(g, s, g[s.chain[|s.chain| - 1]][c], |s.chain| - 1);
    }
  }

  lemma BlackenStack(g: Graph, s: Search)
    requires AtProcessed(g, s) && GrayFramesBelow(s)
    ensures s.chain != [] && Domain(g, Blackened(s))
    ensures LevelsMatch(Blackened(s)) && FramesMatch(g, Blackened(s)) && GrayFramesBelow(Blackened(s))
  {
    ProcessedTop(g, s);
    var t := Blackened(s);
    var top := |s.stack| - 1;
    assert forall k :: 0 <= k < top ==> LevelAbove(t, k) == LevelAbove(s, k);
    if top > 0 {
      assert LevelAbove(s, top - 1) == s.level[top];
    }
    forall k | 0 <= k < top && t.stack[k].processed
      ensures t.level[k] < |t.chain| && t.stack[k].node == t.chain[t.level[k]]
    {
      assert LevelAbove(s, k) <= s.level[top];
    }
  }

  lemma BlackenGray(g: Graph, s: Search)
    requires AtProcessed(g, s) && GrayMatch(g, s)
    ensures s.chain != [] && Domain(g, Blackened(s)) && GrayMatch(g, Blackened(s))
    ensures s.color[Top(s).node].Gray?
  {
    ProcessedTop(g, s);
    var t := Blackened(s);
    forall n | n in g && t.color[n].Gray? ensures n in t.chain {
      var i :| 0 <= i < |s.chain| && s.chain[i] == n;
      assert t.chain[i] == n;
    }
  }

  lemma BlackenChain(g: Graph, s: Search)
    requires AtProcessed(g, s) && ChainMatch(g, s)
    ensures s.chain != [] && Domain(g, Blackened(s)) && ChainMatch(g, Blackened(s))
  {
    ProcessedTop(g, s);
  }

  lemma FinishingOrderGrows(g: Graph, order: seq<string>, n: string)
    requires IsFinishingOrder(g, order) && n in g && n !in order
    requires forall c :: 0 <= c < |g[n]| ==> g[n][c] in order
    ensures IsFinishingOrder(g, order + [n])
  {
    var longer := order + [n];
    forall i, c | 0 <= i < |longer| && 0 <= c < |g[longer[i]]| ensures g[longer[i]][c] in longer[..i] {
      if i < |order| {
        assert longer[..i] == order[..i];
      } else {
        assert longer[..i] == order;
      }
    }
  }

  lemma BlackenBlack(g: Graph, s: Search)
    requires AtProcessed(g, s) && GrayMatch(g, s) && BlackMatch(g, s) && AllAccounted(g, s)
    ensures s.chain != [] && Domain(g, Blackened(s)) && BlackMatch(g, Blackened(s))
  {
    ProcessedTop(g, s);
    DependenciesFinished(g, s);
    FinishingOrderGrows(g, s.finished, Top(s).node);
    assert Blackened(s).finished[|s.finished|] == Top(s).node;
  }

  lemma BlackenWaiting(g: Graph, s: Search)
    requires AtProcessed(g, s) && GrayMatch(g, s) && WaitingMatch(g, s)
    ensures s.chain != [] && Domain(g, Blackened(s)) && WaitingMatch(g, Blackened(s))
  {
    ProcessedTop(g, s);
    var t := Blackened(s);
    var top := |s.stack| - 1;
    assert s.color[s.stack[top].node].Gray?;
    forall k | 0 <= k < top && t.color[t.stack[k].node].White? && Topmost(t, k)
      ensures t.parent[t.stack[k].node] == Pusher(t, t.level[k])
    {
      TopmostBelow(s, t, k);
    }
    forall n | n in g && t.color[n].White? && !OnStack(t, n) ensures t.parent[n] == None {
      OnStackBelow(s, t, n);
    }
  }

  lemma TopmostBelow(s: Search, t: Search, k: nat)
    requires s.stack != [] && t.stack == s.stack[..|s.stack| - 1] && k < |t.stack|
    requires Topmost(t, k) && s.stack[k].node != Top(s).node
    ensures Topmost(s, k)
  {
    forall l | k < l < |s.stack| ensures s.stack[l].node != s.stack[k].node {
      if l < |t.stack| {
        assert t.stack[l].node != t.stack[k].node;
      }
    }
  }

  lemma OnStackBelow(s: Search, t: Search, n: string)
    requires s.stack != [] && t.stack == s.stack[..|s.stack| - 1]
    requires !OnStack(t, n) && n != Top(s).node
    ensures !OnStack(s, n)
  {
    forall k | 0 <= k < |s.stack| ensures s.stack[k].node != n {
      if k < |t.stack| {
        assert t.stack[k].node != n;
      }
    }
  }

  /** What was accounted for stays so when the top frame, now of a BLACK node, is popped. */
  lemma AccountedBelow(g: Graph, s: Search, t: Search, m: string, i: nat)
    requires Domain(g, s) && Domain(g, t) && m in g && s.stack != []
    requires t.stack == s.stack[..|s.stack| - 1] && t.level == s.level[..|s.stack| - 1]
    requires t.color == s.color[Top(s).node := Black]
    requires Accounted(g, s, m, i)
    ensures Accounted(g, t, m, i)
  {
    if !t.color[m].Black? {
      var k :| 0 <= k < |s.stack| && s.stack[k].node == m && s.level[k] > i;
      assert t.stack[k].node == m && t.level[k] > i;
    }
  }

  lemma BlackenKeepsInv(g: Graph, s: Search)
    requires Inv(g, s) && s.stack != [] && Top(s).processed
    ensures s.chain != [] && Inv(g, Blackened(s))
    ensures Top(s).node in s.color && s.color[Top(s).node].Gray?
  {
    hide LevelsMatch, FramesMatch, GrayMatch, BlackMatch, ChainMatch, WaitingMatch, GrayFramesBelow;
    BlackenStack(g, s);
    BlackenGray(g, s);
    BlackenBlack(g, s);
    BlackenChain(g, s);
    BlackenWaiting(g, s);
    BlackenAccounted(g, s);
  }

  lemma BlackenAccounted(g: Graph, s: Search)
    requires AtProcessed(g, s) && AllAccounted(g, s)
    ensures s.chain != [] && Domain(g, Blackened(s)) && AllAccounted(g, Blackened(s))
  {
    ProcessedTop(g, s);
    var t := Blackened(s);
    forall i, c | 0 <= i < |t.chain| && 0 <= c < |g[t.chain[i]]|
      ensures Accounted(g, t, g[t.chain[i]][c], i)
    {
      assert t.chain[i] == s.chain[i];
      assert Accounted(g, s, g[s.chain[i]][c], i);
      AccountedBelow(g, s, t, g[s.chain[i]][c], i);
    }
  }

  // ------------------------------------------------- popping a waiting frame

  ghost function Popped(s: Search): Search
    requires s.stack != [] && |s.level| == |s.stack|
  {
    s.(stack := s.stack[..|s.stack| - 1], level := s.level[..|s.stack| - 1])
  }

  /** The first GRAY test of the search never succeeds: its branch is dead code. */
  lemma PoppedNodeIsNotGray(g: Graph, s: Search)
    requires Inv(g, s) && s.stack != [] && !Top(s).processed
    ensures !s.color[Top(s).node].Gray?
  {
    var top := |s.stack| - 1;
    assert s.level[top] == |s.chain|;
    assert forall i :: 0 <= i < |s.chain| ==> s.chain[i] != s.stack[top].node;
  }

  lemma DropWaiting(g: Graph, s: Search)
    requires Domain(g, s) && s.stack != [] && s.color[Top(s).node].Black? && WaitingMatch(g, s)
    ensures Domain(g, Popped(s)) && WaitingMatch(g, Popped(s))
  {
    var t := Popped(s);
    forall k | 0 <= k < |t.stack| && t.color[t.stack[k].node].White? && Topmost(t, k)
      ensures t.parent[t.stack[k].node] == Pusher(t, t.level[k])
    {
      TopmostBelow(s, t, k);
    }
    forall n | n in g && t.color[n].White? && !OnStack(t, n) ensures t.parent[n] == None {
      OnStackBelow(s, t, n);
    }
  }

  lemma DropStack(g: Graph, s: Search)
    requires Domain(g, s) && s.stack != [] && !Top(s).processed
    requires LevelsMatch(s) && FramesMatch(g, s) && GrayFramesBelow(s)
    ensures Domain(g, Popped(s))
    ensures LevelsMatch(Popped(s)) && FramesMatch(g, Popped(s)) && GrayFramesBelow(Popped(s))
  {
    var t := Popped(s);
    var top := |s.stack| - 1;
    assert forall k :: 0 <= k < top ==> LevelAbove(t, k) == LevelAbove(s, k);
    if top > 0 {
      assert LevelAbove(s, top - 1) == s.level[top];
    }
  }

  /** A frame whose node has been finished meanwhile is dropped. */
  lemma DropKeepsInv(g: Graph, s: Search)
    requires Inv(g, s) && s.stack != [] && !Top(s).processed && s.color[Top(s).node].Black?
    ensures Inv(g, Popped(s))
  {
    hide LevelsMatch, FramesMatch, GrayMatch, BlackMatch, ChainMatch, WaitingMatch, GrayFramesBelow;
    DropStack(g, s);
    DropColors(g, s);
    DropWaiting(g, s);
    DropAccounted(g, s);
  }

  lemma DropColors(g: Graph, s: Search)
    requires Domain(g, s) && s.stack != [] && GrayMatch(g, s) && BlackMatch(g, s) && ChainMatch(g, s)
    ensures Domain(g, Popped(s))
    ensures GrayMatch(g, Popped(s)) && BlackMatch(g, Popped(s)) && ChainMatch(g, Popped(s))
  {
  }

  lemma DropAccounted(g: Graph, s: Search)
    requires Domain(g, s) && s.stack != [] && s.color[Top(s).node].Black? && AllAccounted(g, s)
    ensures Domain(g, Popped(s)) && AllAccounted(g, Popped(s))
  {
    var t := Popped(s);
    assert s.color[Top(s).node := Black] == s.color;
    forall i, c | 0 <= i < |t.chain| && 0 <= c < |g[t.chain[i]]|
      ensures Accounted(g, t, g[t.chain[i]][c], i)
    {
      assert Accounted(g, s, g[s.chain[i]][c], i);
      AccountedBelow(g, s, t, g[s.chain[i]][c], i);
    }
  }

  // ---------------------------------------------------- visiting a WHITE node

  ghost function Visited(s: Search): Search
    requires s.stack != [] && |s.level| == |s.stack|
  {
    s.(color := s.color[Top(s).node := Gray],
       stack := s.stack[..|s.stack| - 1] + [Frame(Top(s).node, true)],
       chain := s.chain + [Top(s).node])
  }

  ghost predicate AtWhite(g: Graph, s: Search) {
    && Domain(g, s)
    && LevelsMatch(s)
    && s.stack != []
    && !Top(s).processed
    && s.color[Top(s).node].White?
  }

  lemma VisitDomain(g: Graph, s: Search)
    requires AtWhite(g, s)
    ensures Domain(g, Visited(s)) && LevelsMatch(Visited(s))
    ensures s.level[|s.stack| - 1] == |s.chain|
  {
    var t := Visited(s);
    var top := |s.stack| - 1;
    assert forall k :: 0 <= k < top ==> t.stack[k] == s.stack[k] && LevelAbove(t, k) == LevelAbove(s, k);
  }

  lemma VisitFrames(g: Graph, s: Search)
    requires AtWhite(g, s) && FramesMatch(g, s)
    ensures Domain(g, Visited(s)) && FramesMatch(g, Visited(s))
  {
    VisitDomain(g, s);
    var t := Visited(s);
    forall k | 0 <= k < |t.stack| && !t.stack[k].processed && t.level[k] > 0
      ensures t.stack[k].node in g[t.chain[t.level[k] - 1]]
    {
      assert t.stack[k] == s.stack[k];
      assert t.chain[t.level[k] - 1] == s.chain[s.level[k] - 1];
    }
  }

  lemma VisitGrayFrames(g: Graph, s: Search)
    requires AtWhite(g, s) && GrayFramesBelow(s)
    ensures GrayFramesBelow(Visited(s))
  {
    VisitDomain(g, s);
    var t := Visited(s);
    var top := |s.stack| - 1;
    assert forall k :: 0 <= k < top ==> t.stack[k] == s.stack[k];
    assert forall k :: 0 <= k < top ==> s.level[k] <= LevelAbove(s, k) <= s.level[top];
  }

  lemma VisitColors(g: Graph, s: Search)
    requires AtWhite(g, s) && GrayMatch(g, s) && BlackMatch(g, s)
    ensures Domain(g, Visited(s)) && GrayMatch(g, Visited(s)) && BlackMatch(g, Visited(s))
  {
    VisitDomain(g, s);
    var t := Visited(s);
    assert forall i :: 0 <= i < |s.chain| ==> t.chain[i] == s.chain[i];
    assert t.chain[|s.chain|] == Top(s).node;
  }

  lemma VisitChain(g: Graph, s: Search)
    requires AtWhite(g, s) && FramesMatch(g, s) && ChainMatch(g, s) && WaitingMatch(g, s)
    ensures Domain(g, Visited(s)) && ChainMatch(g, Visited(s))
  {
    VisitDomain(g, s);
    var t := Visited(s);
    var top := |s.stack| - 1;
    assert Topmost(s, top);
    forall i, j | 0 <= i < j < |t.chain| && j == i + 1
      ensures t.parent[t.chain[j]] == Some(t.chain[i]) && t.chain[j] in g[t.chain[i]]
    {
      if j < |s.chain| {
        assert t.chain[j] == s.chain[j];
      } else {
        assert t.chain[j] == s.stack[top].node;
      }
    }
  }

  lemma VisitWaiting(g: Graph, s: Search)
    requires AtWhite(g, s) && WaitingMatch(g, s)
    ensures Domain(g, Visited(s)) && WaitingMatch(g, Visited(s))
  {
    var t := Visited(s);
    assert forall k :: 0 <= k < |s.stack| ==> t.stack[k].node == s.stack[k].node;
    forall k | 0 <= k < |t.stack| && t.color[t.stack[k].node].White? && Topmost(t, k)
      ensures t.parent[t.stack[k].node] == Pusher(t, t.level[k])
    {
      assert Topmost(s, k);
    }
    forall n | n in g && t.color[n].White? && !OnStack(t, n) ensures t.parent[n] == None {
      assert forall k :: 0 <= k < |s.stack| ==> t.stack[k].node != n;
    }
  }

  /** Turning a WHITE node GRAY extends the chain by it; its dependencies are still to be looked at. */
  lemma VisitKeepsInv(g: Graph, s: Search)
    requires Inv(g, s) && s.stack != [] && !Top(s).processed && s.color[Top(s).node].White?
    ensures InvUpTo(g, Visited(s), 0)
  {
    hide FramesMatch, GrayMatch, BlackMatch, ChainMatch, WaitingMatch, GrayFramesBelow;
    VisitDomain(g, s);
    VisitFrames(g, s);
    VisitGrayFrames(g, s);
    VisitColors(g, s);
    VisitChain(g, s);
    VisitWaiting(g, s);
    VisitAccounted(g, s);
  }

  lemma VisitAccounted(g: Graph, s: Search)
    requires AtWhite(g, s) && AllAccounted(g, s)
    ensures Domain(g, Visited(s)) && AccountedUpTo(g, Visited(s), 0)
  {
    VisitDomain(g, s);
    var t := Visited(s);
    forall i, c | 0 <= i < |t.chain| && 0 <= c < |g[t.chain[i]]| && i < |t.chain| - 1
      ensures Accounted(g, t, g[t.chain[i]][c], i)
    {
      var m := g[s.chain[i]][c];
      assert Accounted(g, s, m, i);
      if !t.color[m].Black? {
        var k :| 0 <= k < |s.stack| && s.stack[k].node == m && s.level[k] > i;
        assert t.stack[k].node == m && t.level[k] > i;
      }
    }
  }

  // -------------------------------------------------- pushing the dependencies

  ghost function Pushed(s: Search, m: string): Search
    requires s.chain != []
  {
    s.(parent := s.parent[m := Some(s.chain[|s.chain| - 1])],
       stack := s.stack + [Frame(m, false)],
       level := s.level + [|s.chain|])
  }

  ghost predicate AtWhiteDependency(g: Graph, s: Search, m: string) {
    && Domain(g, s)
    && s.chain != []
    && m in g
    && m in g[s.chain[|s.chain| - 1]]
    && s.color[m].White?
  }

  lemma PushLevels(s: Search, m: string)
    requires |s.level| == |s.stack| && s.chain != [] && LevelsMatch(s)
    ensures LevelsMatch(Pushed(s, m))
  {
    var t := Pushed(s, m);
    var top := |s.stack|;
    assert forall k :: 0 <= k < top ==> LevelAbove(t, k) == LevelAbove(s, k);
    forall k | 0 <= k < top ensures LevelAbove(t, k) <= t.level[top] {
      if k < top - 1 {
        assert LevelAbove(s, k) <= s.level[top - 1];
      }
    }
  }

  lemma PushFrames(g: Graph, s: Search, m: string)
    requires AtWhiteDependency(g, s, m) && FramesMatch(g, s)
    ensures Domain(g, Pushed(s, m)) && FramesMatch(g, Pushed(s, m))
  {
    var t := Pushed(s, m);
    forall k | 0 <= k < |t.stack| && !t.stack[k].processed && t.level[k] > 0
      ensures t.stack[k].node in g[t.chain[t.level[k] - 1]]
    {
      if k < |s.stack| {
        assert t.stack[k] == s.stack[k];
      }
    }
  }

  lemma PushGrayFrames(g: Graph, s: Search, m: string)
    requires AtWhiteDependency(g, s, m) && GrayMatch(g, s) && GrayFramesBelow(s)
    ensures GrayFramesBelow(Pushed(s, m))
  {
    var t := Pushed(s, m);
    assert forall k :: 0 <= k < |s.stack| ==> t.stack[k] == s.stack[k];
    assert forall i :: 0 <= i < |s.chain| ==> s.chain[i] != m;
  }

  lemma PushChain(g: Graph, s: Search, m: string)
    requires AtWhiteDependency(g, s, m) && GrayMatch(g, s) && ChainMatch(g, s)
    ensures Domain(g, Pushed(s, m)) && ChainMatch(g, Pushed(s, m))
  {
  }

  lemma PushColors(g: Graph, s: Search, m: string)
    requires AtWhiteDependency(g, s, m) && GrayMatch(g, s) && BlackMatch(g, s)
    ensures Domain(g, Pushed(s, m)) && GrayMatch(g, Pushed(s, m)) && BlackMatch(g, Pushed(s, m))
  {
  }

  lemma TopmostAbove(s: Search, t: Search, k: nat)
    requires s.stack <= t.stack && k < |s.stack| && Topmost(t, k)
    ensures Topmost(s, k)
  {
    assert forall l :: k < l < |s.stack| ==> t.stack[l].node != t.stack[k].node;
  }

  lemma OnStackAbove(s: Search, t: Search, n: string)
    requires s.stack <= t.stack && OnStack(s, n)
    ensures OnStack(t, n)
  {
    var k :| 0 <= k < |s.stack| && s.stack[k].node == n;
    assert t.stack[k].node == n;
  }

  lemma PushWaiting(g: Graph, s: Search, m: string)
    requires AtWhiteDependency(g, s, m) && WaitingMatch(g, s)
    ensures Domain(g, Pushed(s, m)) && WaitingMatch(g, Pushed(s, m))
  {
    hide Topmost, OnStack;
    var t := Pushed(s, m);
    var top := |s.stack|;
    forall k | 0 <= k < |t.stack| && t.color[t.stack[k].node].White? && Topmost(t, k)
      ensures t.parent[t.stack[k].node] == Pusher(t, t.level[k])
    {
      if k < top {
        TopmostAbove(s, t, k);
        NotBelowTop(t, k);
        assert t.stack[k] == s.stack[k];
      }
    }
    forall n | n in g && t.color[n].White? && !OnStack(t, n) ensures t.parent[n] == None {
      LastIsOnStack(t);
      if OnStack(s, n) {
        OnStackAbove(s, t, n);
      }
    }
  }

  lemma NotBelowTop(s: Search, k: nat)
    requires k < |s.stack| - 1 && Topmost(s, k)
    ensures s.stack[k].node != Top(s).node
  {
  }

  lemma LastIsOnStack(s: Search)
    requires s.stack != []
    ensures OnStack(s, Top(s).node)
  {
  }

  /** A WHITE dependency of the visited node is pushed. */
  lemma PushKeepsInv(g: Graph, s: Search, done: nat)
    requires InvUpTo(g, s, done) && s.chain != []
    requires done < |g[s.chain[|s.chain| - 1]]|
    requires s.color[g[s.chain[|s.chain| - 1]][done]].White?
    ensures InvUpTo(g, Pushed(s, g[s.chain[|s.chain| - 1]][done]), done + 1)
  {
    hide LevelsMatch, FramesMatch, GrayMatch, BlackMatch, ChainMatch, WaitingMatch, GrayFramesBelow;
    var m := g[s.chain[|s.chain| - 1]][done];
    PushLevels(s, m);
    PushFrames(g, s, m);
    PushGrayFrames(g, s, m);
    PushColors(g, s, m);
    PushChain(g, s, m);
    PushWaiting(g, s, m);
    PushAccounted(g, s, done);
  }

  lemma PushAccounted(g: Graph, s: Search, done: nat)
    requires Domain(g, s) && AccountedUpTo(g, s, done) && s.chain != []
    requires done < |g[s.chain[|s.chain| - 1]]|
    ensures
      var t := Pushed(s, g[s.chain[|s.chain| - 1]][done]);
      Domain(g, t) && AccountedUpTo(g, t, done + 1)
  {
    var m := g[s.chain[|s.chain| - 1]][done];
    var t := Pushed(s, m);
    forall i, c | 0 <= i < |t.chain| && 0 <= c < |g[t.chain[i]]| && (i < |t.chain| - 1 || c < done + 1)
      ensures Accounted(g, t, g[t.chain[i]][c], i)
    {
      var d := g[t.chain[i]][c];
      if i == |t.chain| - 1 && c == done {
        assert t.stack[|s.stack|].node == d && t.level[|s.stack|] > i;
      } else {
        assert Accounted(g, s, d, i);
        if !s.color[d].Black? {
          var k :| 0 <= k < |s.stack| && s.stack[k].node == d && s.level[k] > i;
          assert t.stack[k].node == d && t.level[k] > i;
        }
      }
    }
  }

  /** A BLACK dependency needs nothing. */
  lemma SkipKeepsInv(g: Graph, s: Search, done: nat)
    requires InvUpTo(g, s, done) && s.chain != []
    requires done < |g[s.chain[|s.chain| - 1]]|
    requires s.color[g[s.chain[|s.chain| - 1]][done]].Black?
    ensures InvUpTo(g, s, done + 1)
  {
    hide LevelsMatch, FramesMatch, GrayMatch, BlackMatch, ChainMatch, WaitingMatch, GrayFramesBelow;
    SkipAccounted(g, s, done);
  }

  lemma SkipAccounted(g: Graph, s: Search, done: nat)
    requires Domain(g, s) && AccountedUpTo(g, s, done) && s.chain != []
    requires done < |g[s.chain[|s.chain| - 1]]|
    requires s.color[g[s.chain[|s.chain| - 1]][done]].Black?
    ensures AccountedUpTo(g, s, done + 1)
  {
    forall i, c | 0 <= i < |s.chain| && 0 <= c < |g[s.chain[i]]| && (i < |s.chain| - 1 || c < done + 1)
      ensures Accounted(g, s, g[s.chain[i]][c], i)
    {
    }
  }

  // --------------------------------------------------- the start node is visited

  lemma InvDomain(g: Graph, s: Search)
    requires Inv(g, s)
    ensures s.color.Keys == g.Keys == s.parent.Keys && |s.level| == |s.stack|
    ensures s.stack != [] ==> Top(s).node in g
  {
  }

  lemma SearchDone(g: Graph, s: Search, start: string)
    requires Inv(g, s) && s.stack == []
    ensures s == Search(s.color, s.parent, [], [], [], s.finished)
    ensures !OnStack(s, start)
  {
  }

  lemma StartSearch(g: Graph, s: Search, start: string)
    requires Inv(g, Search(s.color, s.parent, [], [], [], s.finished))
    requires start in g && s.color[start].White?
    requires s.stack == [Frame(start, false)] && s.level == [0] && s.chain == []
    ensures Inv(g, s) && OnStack(s, start)
  {
    var e := Search(s.color, s.parent, [], [], [], s.finished);
    assert !OnStack(e, start);
    assert s.stack[0].node == start;
    forall n | n in g && s.color[n].White? && !OnStack(s, n) ensures s.parent[n] == None {
      assert !OnStack(e, n);
    }
  }

  // ------------------------------------------------------------- the program

  function Reversed(s: seq<string>): (r: seq<string>)
    ensures |r| == |s|
    ensures forall i :: 0 <= i < |s| ==> r[i] == s[|s| - 1 - i]
  {
    if s == [] then [] else Reversed(s[1..]) + [s[0]]
  }

  /** The chain from a GRAY node to its end, closed by an edge back, is a simple cycle. */
  lemma ChainClosesCycle(g: Graph, s: Search, i: nat)
    requires Domain(g, s) && Distinct(s.chain) && ChainMatch(g, s) && i < |s.chain|
    requires s.chain[i] in g[s.chain[|s.chain| - 1]]
    ensures IsSimpleCycle(g, s.chain[i..] + [s.chain[i]])
  {
    var p := s.chain[i..] + [s.chain[i]];
    var n := |s.chain| - i;
    assert forall k :: 0 <= k < n ==> p[k] == s.chain[i + k];
    forall k, l | 0 <= k < l < |p| && l == k + 1 ensures p[l] in g[p[k]] {
      if l < n {
        assert s.chain[i + l] in g[s.chain[i + k]];
      }
    }
    assert p[1..] == s.chain[i + 1..] + [s.chain[i]];
  }

  ghost predicate ParentsRunDown(parent: map<string, Option<string>>, chain: seq<string>) {
    forall k, l :: 0 <= k < l < |chain| && l == k + 1 ==>
      chain[l] in parent && parent[chain[l]] == Some(chain[k])
  }

  lemma ReversedAppend(s: seq<string>, x: string)
    ensures Reversed([x] + s) == Reversed(s) + [x]
  {
    assert ([x] + s)[1..] == s;
  }

  /**
   Follows parent pointers from node back to the GRAY neighbour and returns the path between
   them, neighbour first and last, each entry depending on the next.
   */
  method TraceCycle(parent: map<string, Option<string>>, node: string, neighbor: string,
                    ghost chain: seq<string>, ghost i: nat)
    returns (cycle: seq<string>)
    requires i < |chain| && neighbor == chain[i] && node == chain[|chain| - 1]
    requires Distinct(chain) && ParentsRunDown(parent, chain)
    ensures cycle == chain[i..] + [neighbor]
  {
    hide Reversed;
    ghost var j := |chain| - 1;
    cycle := [neighbor];
    var cur := Some(node);
    while cur != None && cur != Some(neighbor)
      invariant i <= j < |chain|
      invariant cur == Some(chain[j])
      invariant cycle == [neighbor] + Reversed(chain[j + 1..])
      decreases j
    {
      ghost var below := chain[j - 1];
      ReversedAppend(chain[j + 1..], chain[j]);
      assert chain[j..] == [chain[j]] + chain[j + 1..];
      cycle := cycle + [cur.value];
      cur := parent[cur.value];
      j := j - 1;
    }
    assert j == i;
    assert cycle + [neighbor] == [neighbor] + (Reversed(chain[i + 1..]) + [neighbor]);
    cycle := cycle + [neighbor];
    cycle := Reversed(cycle);
    assert cycle == chain[i..] + [neighbor];
  }

  /** What the loop over dependencies uses of the invariant. */
  lemma ChainFacts(g: Graph, s: Search, done: nat)
    requires InvUpTo(g, s, done) && s.chain != []
    ensures s.chain[|s.chain| - 1] in g && s.color.Keys == g.Keys == s.parent.Keys
    ensures forall m :: m in g[s.chain[|s.chain| - 1]] ==> m in g
    ensures forall n :: n in g && s.color[n].Gray? ==> n in s.chain
    ensures Distinct(s.chain) && ParentsRunDown(s.parent, s.chain)
  {
  }

  lemma BackEdgeClosesCycle(g: Graph, s: Search, done: nat, i: nat)
    requires InvUpTo(g, s, done) && i < |s.chain| && s.chain[|s.chain| - 1] in g
    requires s.chain[i] in g[s.chain[|s.chain| - 1]]
    ensures IsSimpleCycle(g, s.chain[i..] + [s.chain[i]])
  {
    ChainClosesCycle(g, s, i);
  }

  /** The loop over the dependencies of a node that has just turned GRAY. */
  method PushDependencies(g: Graph, node: string, color: map<string, Color>,
                          parent0: map<string, Option<string>>, stack0: seq<Frame>, ghost s: Search)
    returns (parent: map<string, Option<string>>, stack: seq<Frame>, cycle: seq<string>, ghost level: seq<nat>)
    requires InvUpTo(g, s, 0) && s.chain != [] && node == s.chain[|s.chain| - 1]
    requires s.color == color && s.parent == parent0 && s.stack == stack0
    ensures cycle != [] ==> IsSimpleCycle(g, cycle)
    ensures cycle == [] ==> Inv(g, s.(parent := parent, stack := stack, level := level))
    ensures cycle == [] ==> stack0 <= stack
  {
    hide Inv, InvUpTo, IsSimpleCycle;
    ChainFacts(g, s, 0);
    parent, stack, cycle, level := parent0, stack0, [], s.level;
    var c := 0;
    while c < |g[node]|
      invariant node in g && 0 <= c <= |g[node]|
      invariant stack0 <= stack
      invariant InvUpTo(g, s.(parent := parent, stack := stack, level := level), c)
    {
      ghost var v := s.(parent := parent, stack := stack, level := level);
      ChainFacts(g, v, c);
      var neighbor := g[node][c];
      if color[neighbor].Gray? {
        ghost var i :| 0 <= i < |s.chain| && s.chain[i] == neighbor;
        cycle := TraceCycle(parent, node, neighbor, s.chain, i);
        BackEdgeClosesCycle(g, v, c, i);
        return;
      }
      if color[neighbor].White? {
        PushKeepsInv(g, v, c);
        parent := parent[neighbor := Some(node)];
        stack := stack + [Frame(neighbor, false)];
        level := level + [|s.chain|];
      } else {
        SkipKeepsInv(g, v, c);
      }
      c := c + 1;
    }
    ghost var v := s.(parent := parent, stack := stack, level := level);
    AllDependenciesDone(g, v);
  }

  lemma AllDependenciesDone(g: Graph, s: Search)
    requires s.chain != [] && s.chain[|s.chain| - 1] in g
    requires InvUpTo(g, s, |g[s.chain[|s.chain| - 1]]|)
    ensures Inv(g, s)
  {
    hide LevelsMatch, FramesMatch, GrayMatch, BlackMatch, ChainMatch, WaitingMatch, GrayFramesBelow;
  }

  /** What is known between two start nodes: nothing is GRAY and nothing waits. */
  ghost predicate Idle(g: Graph, color: map<string, Color>, parent: map<string, Option<string>>, finished: seq<string>) {
    Inv(g, Search(color, parent, [], [], [], finished))
  }

  lemma IdleAtFirst(g: Graph, color: map<string, Color>, parent: map<string, Option<string>>)
    requires Closed(g) && color.Keys == g.Keys == parent.Keys
    requires forall n :: n in g ==> color[n].White? && parent[n] == None
    ensures Idle(g, color, parent, [])
  {
  }

  lemma NothingGray(g: Graph, color: map<string, Color>, parent: map<string, Option<string>>, finished: seq<string>)
    requires Idle(g, color, parent, finished)
    ensures color.Keys == g.Keys
    ensures forall n :: n in g ==> !color[n].Gray?
  {
    var s := Search(color, parent, [], [], [], finished);
    assert GrayMatch(g, s);
  }

  lemma AllFinished(g: Graph, color: map<string, Color>, parent: map<string, Option<string>>, finished: seq<string>)
    requires Idle(g, color, parent, finished) && color.Keys == g.Keys
    requires forall n :: n in g ==> color[n].Black?
    ensures Acyclic(g)
  {
    var s := Search(color, parent, [], [], [], finished);
    assert BlackMatch(g, s);
    FinishingOrderExcludesCycles(g, finished);
  }

  lemma CycleFound(g: Graph, cycle: seq<string>)
    requires IsSimpleCycle(g, cycle)
    ensures !Acyclic(g)
  {
  }

  ghost function WhiteNodes(color: map<string, Color>): set<string> {
    set n | n in color && color[n].White?
  }

  /** How one round of the stack loop relates the states around it. */
  ghost predicate Advances(s: Search, t: Search) {
    && t.color.Keys == s.color.Keys
    && (forall n :: n in s.color && s.color[n].Black? ==> t.color[n].Black?)
    && (forall n :: n in s.color && t.color[n].White? ==> s.color[n].White?)
    && (forall n :: n in s.color && t.color[n].White? && OnStack(s, n) ==> OnStack(t, n))
    && (|| WhiteNodes(t.color) < WhiteNodes(s.color)
        || (WhiteNodes(t.color) == WhiteNodes(s.color) && |t.stack| < |s.stack|))
  }

  lemma PopAdvances(s: Search, t: Search)
    requires s.stack != [] && t.stack == s.stack[..|s.stack| - 1] && Top(s).node in s.color
    requires !s.color[Top(s).node].White? && t.color == s.color[Top(s).node := Black]
    requires t.color.Keys == s.color.Keys
    ensures Advances(s, t)
  {
    assert WhiteNodes(t.color) == WhiteNodes(s.color);
    forall n | n in s.color && t.color[n].White? && OnStack(s, n) ensures OnStack(t, n) {
      if !OnStack(t, n) {
        OnStackBelow(s, t, n);
      }
    }
  }

  lemma VisitAdvances(s: Search, t: Search)
    requires s.stack != [] && |s.stack| <= |t.stack| && Top(s).node in s.color
    requires t.stack[..|s.stack| - 1] == s.stack[..|s.stack| - 1]
    requires s.color[Top(s).node].White? && t.color == s.color[Top(s).node := Gray]
    requires t.color.Keys == s.color.Keys
    ensures Advances(s, t)
  {
    assert Top(s).node in WhiteNodes(s.color) && Top(s).node !in WhiteNodes(t.color);
    forall n | n in s.color && t.color[n].White? && OnStack(s, n) ensures OnStack(t, n) {
      var k :| 0 <= k < |s.stack| && s.stack[k].node == n;
      assert t.stack[k] == t.stack[..|s.stack| - 1][k] == s.stack[k];
    }
  }

  /** One round of the stack loop. */
  method SearchStep(g: Graph, color0: map<string, Color>, parent0: map<string, Option<string>>,
                    stack0: seq<Frame>, ghost s: Search)
    returns (color: map<string, Color>, parent: map<string, Option<string>>, stack: seq<Frame>,
             cycle: seq<string>, ghost t: Search)
    requires Inv(g, s) && stack0 != []
    requires s.color == color0 && s.parent == parent0 && s.stack == stack0
    ensures cycle != [] ==> IsSimpleCycle(g, cycle)
    ensures cycle == [] ==> Inv(g, t) && Advances(s, t)
    ensures cycle == [] ==> t.color == color && t.parent == parent && t.stack == stack
  {
    hide Inv, InvUpTo, IsSimpleCycle, Advances;
    InvDomain(g, s);
    color, parent, cycle := color0, parent0, [];
    var Frame(node, processed) := stack0[|stack0| - 1];
    stack := stack0[..|stack0| - 1];
    if processed {
      BlackenKeepsInv(g, s);
      color := color[node := Black];
      t := Blackened(s);
      PopAdvances(s, t);
      return;
    }
    PoppedNodeIsNotGray(g, s);
    if color[node].Gray? {
      assert false;
    }
    if color[node].Black? {
      DropKeepsInv(g, s);
      t := Popped(s);
      PopAdvances(s, t);
      return;
    }
    VisitKeepsInv(g, s);
    color := color[node := Gray];
    stack := stack + [Frame(node, true)];
    t := Visited(s);
    ghost var level;
    parent, stack, cycle, level := PushDependencies(g, node, color, parent, stack, t);
    t := t.(parent := parent, stack := stack, level := level);
    if cycle == [] {
      VisitAdvances(s, t);
    }
  }

  /** The search from one WHITE start node. */
  method SearchFrom(g: Graph, start: string, color0: map<string, Color>,
                    parent0: map<string, Option<string>>, ghost finished0: seq<string>)
    returns (color: map<string, Color>, parent: map<string, Option<string>>, cycle: seq<string>, ghost finished: seq<string>)
    requires Idle(g, color0, parent0, finished0)
    requires start in g && color0[start].White?
    ensures cycle != [] ==> IsSimpleCycle(g, cycle)
    ensures cycle == [] ==> Idle(g, color, parent, finished) && !color[start].White?
    ensures cycle == [] ==> forall n :: n in g && color0[n].Black? ==> color[n].Black?
  {
    hide Inv, OnStack;
    color, parent, cycle := color0, parent0, [];
    var stack := [Frame(start, false)];
    ghost var s := Search(color, parent, stack, [0], [], finished0);
    StartSearch(g, s, start);
    InvDomain(g, s);
    while stack != []
      invariant Inv(g, s) && color.Keys == g.Keys && cycle == []
      invariant s.color == color && s.parent == parent && s.stack == stack
      invariant forall n :: n in g && color0[n].Black? ==> color[n].Black?
      invariant color[start].White? ==> OnStack(s, start)
      decreases WhiteNodes(color), |stack|
    {
      color, parent, stack, cycle, s := SearchStep(g, color, parent, stack, s);
      if cycle != [] {
        finished := s.finished;
        return;
      }
    }
    finished := s.finished;
    SearchDone(g, s, start);
  }

  /**
   The search of the DAG walker over an arbitrary order of start nodes: an empty list exactly
   for acyclic graphs, and otherwise a real simple cycle.
   */
  method FindCycle(g: Graph) returns (cycle: seq<string>)
    requires Closed(g)
    ensures cycle == [] <==> Acyclic(g)
    ensures cycle != [] ==> IsSimpleCycle(g, cycle)
  {
    var color: map<string, Color> := map n | n in g :: White;
    var parent: map<string, Option<string>> := map n | n in g :: None;
    ghost var finished: seq<string> := [];
    var starts := g.Keys;
    hide Idle, Acyclic, IsSimpleCycle;
    IdleAtFirst(g, color, parent);
    while starts != {}
      invariant starts <= g.Keys
      invariant Idle(g, color, parent, finished) && color.Keys == g.Keys
      invariant forall n :: n in g && n !in starts ==> color[n].Black?
      decreases starts
    {
      var start :| start in starts;
      starts := starts - {start};
      if color[start] != White {
        NothingGray(g, color, parent, finished);
        continue;
      }
      color, parent, cycle, finished := SearchFrom(g, start, color, parent, finished);
      if cycle != [] {
        CycleFound(g, cycle);
        return;
      }
      NothingGray(g, color, parent, finished);
    }
    AllFinished(g, color, parent, finished);
    cycle := [];
  }
}
