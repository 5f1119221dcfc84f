/** A brief that went through JSON is planned like the original. */
module RestoredPlans {
  import opened Common
  import opened HmasTypes
  import opened PlanSkeleton
  import opened Planning
  import opened PlanWiring
  import opened Breakdown
  import opened TaskJson

  lemma SameLists(b: TaskBrief, repo: string, mod: string)
    ensures ModulesOf(Normalized(b), repo) == ModulesOf(b, repo)
    ensures ImplsOf(Normalized(b), repo, mod) == ImplsOf(b, repo, mod)
  {
    if repo in b.impls {
      var some := WithoutEmpty(b.impls[repo]);
      assert mod in some <==> mod in b.impls[repo] && b.impls[repo][mod] != [];
    }
  }

  lemma {:induction false} SameModules(base: seq<Node>, b: TaskBrief, repo: string, l1: nat, n: nat)
    requires n <= |ModulesOf(b, repo)| && ModulesOf(Normalized(b), repo) == ModulesOf(b, repo)
    ensures AddModules(base, Normalized(b), repo, l1, n) == AddModules(base, b, repo, l1, n)
  {
    hide Normalized, ModulesOf, ImplsOf, AddImpls;
    if n > 0 {
      SameLists(b, repo, ModulesOf(b, repo)[n - 1]);
      SameModules(base, b, repo, l1, n - 1);
      if n > 1 {
        SameModules(base, b, repo, l1, n - 2);
      }
    }
  }

  lemma {:induction false} SameRepos(b: TaskBrief, n: nat)
    requires n <= |b.repos|
    ensures Normalized(b).repos == b.repos && AddRepos(Normalized(b), n) == AddRepos(b, n)
  {
    hide ModulesOf, AddModules;
    if n > 0 {
      SameRepos(b, n - 1);
      var repo, before := b.repos[n - 1], AddRepos(b, n - 1);
      SameLists(b, repo, "");
      SameModules(before + [Node(L1_ComponentLead, repo, "", "", 0, None)], b, repo, |before|, |ModulesOf(b, repo)|);
    }
  }

  lemma {:induction false} SameChildIds(p: Plan, q: Plan, nodes: seq<Node>, i: nat, n: nat)
    requires n <= |nodes| <= |p.ids| && p.ids == q.ids
    ensures ChildIds(p, nodes, i, n) == ChildIds(q, nodes, i, n)
  {
    if n > 0 {
      SameChildIds(p, q, nodes, i, n - 1);
    }
  }

  lemma SameTask(p: Plan, nodes: seq<Node>, i: nat)
    requires Sized(p, nodes) && i < |nodes|
    ensures TaskAt(p.(brief := Normalized(p.brief)), nodes, i) == TaskAt(p, nodes, i)
  {
    hide WellFormed, ChildIds;
    NodesBound(p, nodes, i);
    SameChildIds(p, p.(brief := Normalized(p.brief)), nodes, i, |nodes|);
  }

  /** The plan of a restored brief is the plan of the brief. */
  lemma RestoredBriefSamePlan(p: Plan, tasks: seq<HmasTask>)
    ensures IsPlan(p.(brief := Normalized(p.brief)), tasks) <==> IsPlan(p, tasks)
  {
    hide Skeleton, FirstPass, PlanSize, TaskAt, Wired, Normalized, WellFormed;
    var q := p.(brief := Normalized(p.brief));
    SameSkeleton(p.brief);
    SkeletonShape(p.brief);
    SkeletonShape(q.brief);
    if EnoughIds(p) {
      var nodes := Skeleton(p.brief);
      forall i | 0 <= i < |nodes| ensures FirstPass(q)[i] == FirstPass(p)[i] {
        SameTask(p, nodes, i);
      }
      assert FirstPass(q) == FirstPass(p);
    }
  }

  lemma SameSkeleton(b: TaskBrief)
    ensures Skeleton(Normalized(b)) == Skeleton(b)
  {
    SameRepos(b, |b.repos|);
  }
}
