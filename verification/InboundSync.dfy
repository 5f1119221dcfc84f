/** Inbound GitHub events: last writer wins, by the updatedAt timestamp. */
module InboundSync {
  import opened Common
  import opened Text
  import opened JsonValues

  type Entity = map<string, Json>
  type Collection = map<string, Entity>

  /** A GitHub issue: the entity fenced in its body, if there is one, and two optional fields. */
  datatype Issue = Issue(entity: Option<Entity>, number: Option<Json>, updatedAt: Option<Json>)

  /** An edit-type event after parsing: entity id, entity and timestamp. */
  datatype Event = Event(id: string, entity: Entity, updatedAt: string)

  /** What reading an issue gives: nothing to do, a type error, or an event. */
  datatype Reading = Malformed | Mistyped | Ready(ev: Event)

  function TextField(e: Entity, key: string): string {
    if key in e && e[key].Str? then e[key].s else ""
  }

  function Read(issue: Issue, updatedAt: string): Reading {
    if issue.entity.None? || "id" !in issue.entity.value then Malformed
    else
      var entity := issue.entity.value;
      if !entity["id"].Str? then Mistyped
      else if issue.number.None? then Ready(Event(entity["id"].s, entity, updatedAt))
      else
        var number := IntOf(issue.number.value);
        if number.None? then Mistyped
        else Ready(Event(entity["id"].s, entity["_github_issue" := Str(IntText(number.value))], updatedAt))
  }

  /** An issue of a listing carries its own timestamp. */
  function ReadListed(issue: Issue): Reading {
    if issue.updatedAt.None? then Read(issue, "")
    else if issue.updatedAt.value.Str? then Read(issue, issue.updatedAt.value.s)
    else Mistyped
  }

  // ------------------------------------------------------------------ edits

  /** The stored entity of an applied edit. */
  function Written(ev: Event): Entity {
    ev.entity["updatedAt" := Str(ev.updatedAt)]
  }

  /** A stored, timestamped entity at least as new wins over a timestamped edit. */
  predicate Stale(m: Collection, ev: Event) {
    && ev.id in m && ev.updatedAt != ""
    && TextField(m[ev.id], "updatedAt") != ""
    && !Less(TextField(m[ev.id], "updatedAt"), ev.updatedAt)
  }

  /** The entity is stored with a timestamp that is not a string. */
  predicate Untextual(m: Collection, id: string) {
    id in m && "updatedAt" in m[id] && !m[id]["updatedAt"].Str?
  }

  /** Comparing a timestamped edit with such a timestamp is a type error. */
  predicate Unreadable(m: Collection, ev: Event) {
    ev.updatedAt != "" && Untextual(m, ev.id)
  }

  /** What an edit leaves behind; after a type error that is what was there. */
  function Edited(m: Collection, ev: Event): Collection {
    if Unreadable(m, ev) || Stale(m, ev) then m else m[ev.id := Written(ev)]
  }

  function Closed(m: Collection, ev: Event): Collection {
    if ev.id !in m then m
    else m[ev.id := m[ev.id]["status" := Str("closed")]["closedAt" := Str(ev.updatedAt)]["updatedAt" := Str(ev.updatedAt)]]
  }

  function Reopened(m: Collection, ev: Event): Collection {
    if ev.id !in m then m[ev.id := ev.entity]
    else m[ev.id := m[ev.id]["status" := Str("active")]["updatedAt" := Str(ev.updatedAt)]]
  }

  datatype Outcome = Applied | Ignored | Thrown

  /** The collection after an event, and how the event ended. */
  function Handled(m: Collection, action: string, reading: Reading): (Collection, Outcome) {
    match reading
    case Malformed => (m, Ignored)
    case Mistyped => (m, Thrown)
    case Ready(ev) =>
      if action == "closed" then (Closed(m, ev), if ev.id in m then Applied else Ignored)
      else if action == "reopened" then (Reopened(m, ev), Applied)
      else (Edited(m, ev), if Unreadable(m, ev) then Thrown else if Stale(m, ev) then Ignored else Applied)
  }

  // -------------------------------------------------------------- the class

  datatype Label = AgentLabel | TeamLabel | TaskLabel | FaultLabel

  function PickCollection(tag: string): Option<Label> {
    if tag == "agamemnon-agent" then Some(AgentLabel)
    else if tag == "agamemnon-team" then Some(TeamLabel)
    else if tag == "agamemnon-task" then Some(TaskLabel)
    else if tag == "agamemnon-fault" then Some(FaultLabel)
    else None
  }

  /** The labels in the order reconciliation visits them. */
  const RECONCILED := [AgentLabel, TeamLabel, TaskLabel, FaultLabel]

  function TagOf(l: Label): (tag: string)
    ensures PickCollection(tag) == Some(l)
  {
    match l
    case AgentLabel => "agamemnon-agent"
    case TeamLabel => "agamemnon-team"
    case TaskLabel => "agamemnon-task"
    case FaultLabel => "agamemnon-fault"
  }

  /** The edits a listing of issues stands for. */
  function Events(issues: seq<Issue>): seq<Event> {
    if issues == [] then []
    else
      var last := ReadListed(issues[|issues| - 1]);
      Events(issues[..|issues| - 1]) + if last.Ready? then [last.ev] else []
  }

  /** The collection after a sequence of edits. */
  function Folded(m: Collection, evs: seq<Event>): Collection {
    if evs == [] then m else Edited(Folded(m, evs[..|evs| - 1]), evs[|evs| - 1])
  }

  /** How many edits of the sequence change the collection's entry. */
  function AppliedCount(m: Collection, evs: seq<Event>): nat {
    if evs == [] then 0
    else
      var mid, last := Folded(m, evs[..|evs| - 1]), evs[|evs| - 1];
      AppliedCount(m, evs[..|evs| - 1]) + if Unreadable(mid, last) || Stale(mid, last) then 0 else 1
  }

  predicate ThrowsAt(m: Collection, issue: Issue) {
    var reading := ReadListed(issue);
    reading.Mistyped? || (reading.Ready? && Unreadable(m, reading.ev))
  }

  /** No issue of the listing throws when its turn comes. */
  ghost predicate RunsThrough(m: Collection, issues: seq<Issue>) {
    forall n :: 0 <= n < |issues| ==> !ThrowsAt(Folded(m, Events(issues[..n])), issues[n])
  }

  class SyncedStore {
    var collections: map<Label, Collection>

    ghost predicate Valid()
      reads this
    {
      Total(collections)
    }

    constructor ()
      ensures Valid()
    {
      collections := map[AgentLabel := map[], TeamLabel := map[], TaskLabel := map[], FaultLabel := map[]];
      new;
      forall l: Label ensures l in collections {
        match l {
          case AgentLabel =>
          case TeamLabel =>
          case TaskLabel =>
          case FaultLabel =>
        }
      }
    }

    /** One webhook event. */
    method ApplyGithubEvent(tag: string, action: string, issue: Issue, updatedAt: string) returns (r: Outcome)
      requires Valid()
      modifies this
      ensures Valid()
      ensures
        var l := PickCollection(tag);
        if l.None? then r == Ignored && collections == old(collections)
        else
          var h := Handled(old(collections)[l.value], action, Read(issue, updatedAt));
          r == h.1 && collections == old(collections)[l.value := h.0]
    {
      var l := PickCollection(tag);
      if l.None? {
        return Ignored;
      }
      var m := collections[l.value];
      assert collections[l.value := m] == collections;
      if issue.entity.None? || "id" !in issue.entity.value {
        return Ignored;
      }
      var entity := issue.entity.value;
      if !entity["id"].Str? {
        return Thrown;
      }
      var id := entity["id"].s;
      if issue.number.Some? {
        var number := IntOf(issue.number.value);
        if number.None? {
          return Thrown;
        }
        entity := entity["_github_issue" := Str(IntText(number.value))];
      }
      if action == "closed" {
        if id !in m {
          return Ignored;
        }
        var e := m[id]["status" := Str("closed")]["closedAt" := Str(updatedAt)]["updatedAt" := Str(updatedAt)];
        collections := collections[l.value := m[id := e]];
        return Applied;
      }
      if action == "reopened" {
        if id !in m {
          m := m[id := entity];
        } else {
          m := m[id := m[id]["status" := Str("active")]["updatedAt" := Str(updatedAt)]];
        }
        collections := collections[l.value := m];
        return Applied;
      }
      if id in m && updatedAt != "" {
        var localTs := TextOr(m[id], "updatedAt", "");
        if localTs.None? {
          return Thrown;
        }
        if localTs.value != "" && !Less(localTs.value, updatedAt) {
          return Ignored;
        }
      }
      entity := entity["updatedAt" := Str(updatedAt)];
      collections := collections[l.value := m[id := entity]];
      r := Applied;
    }

    /** One pass over the issues of one label; a type error ends it at the issue that causes it. */
    method ReconcileLabel(l: Label, issues: seq<Issue>) returns (changed: Option<nat>)
      requires Valid()
      modifies this
      ensures Valid()
      ensures changed.Some? <==> RunsThrough(old(collections)[l], issues)
      ensures changed.Some? ==>
        && collections == old(collections)[l := Folded(old(collections)[l], Events(issues))]
        && changed.value == AppliedCount(old(collections)[l], Events(issues))
      ensures changed.None? ==>
        && collections == old(collections)[l := collections[l]]
        && exists n: nat :: PartlyFolded(old(collections)[l], collections[l], issues, n)
    {
      hide PickCollection, TagOf, Handled, Edited, Stale, Read, Events, Folded, AppliedCount, Unreadable;
      NoEvents(collections[l]);
      var count := 0;
      var k := 0;
      assert collections == collections[l := collections[l]];
      while k < |issues|
        invariant 0 <= k <= |issues| && Valid()
        invariant collections == old(collections)[l := Folded(old(collections)[l], Events(issues[..k]))]
        invariant count == AppliedCount(old(collections)[l], Events(issues[..k]))
        invariant forall n :: 0 <= n < k ==> !ThrowsAt(Folded(old(collections)[l], Events(issues[..n])), issues[n])
      {
        EventsStep(old(collections)[l], issues, k);
        EditHandled(collections[l], issues[k]);
        if issues[k].updatedAt.Some? && !issues[k].updatedAt.value.Str? {
          assert PartlyFolded(old(collections)[l], collections[l], issues, k);
          return None;
        }
        var ts := if issues[k].updatedAt.None? then "" else issues[k].updatedAt.value.s;
        var outcome := ApplyGithubEvent(TagOf(l), "edited", issues[k], ts);
        if outcome.Thrown? {
          assert PartlyFolded(old(collections)[l], collections[l], issues, k);
          return None;
        }
        if outcome.Applied? {
          count := count + 1;
        }
        k := k + 1;
      }
      assert issues[..k] == issues;
      changed := Some(count);
    }

    /** The whole reconciliation; None stands for a label whose issues could not be listed. */
    method Reconcile(listings: seq<Option<seq<Issue>>>) returns (changed: Option<nat>)
      requires Valid() && |listings| == 4
      modifies this
      ensures Valid()
      ensures changed.Some? <==> AllRunThrough(old(collections), listings, 4)
      ensures changed.Some? ==>
        && changed.value == ReconciledCount(old(collections), listings, 4)
        && FoldedBefore(old(collections), collections, listings, 4)
      ensures changed.None? ==> exists k, n: nat :: 0 <= k < 4 && Stopped(old(collections), collections, listings, k, n)
    {
      hide Folded, AppliedCount, Events, PartlyFolded, RECONCILED, RunsThrough;
      LabelsDiffer();
      var count := 0;
      var k := 0;
      while k < 4
        invariant 0 <= k <= 4 && Valid()
        invariant count == ReconciledCount(old(collections), listings, k)
        invariant FoldedBefore(old(collections), collections, listings, k)
        invariant AllRunThrough(old(collections), listings, k)
        invariant forall j :: k <= j < 4 ==> collections[RECONCILED[j]] == old(collections)[RECONCILED[j]]
      {
        var l := RECONCILED[k];
        if listings[k].Some? {
          var applied := ReconcileLabel(l, listings[k].value);
          if applied.None? {
            ghost var n: nat :| PartlyFolded(old(collections)[l], collections[l], listings[k].value, n);
            assert Stopped(old(collections), collections, listings, k, n);
            return None;
          }
          count := count + applied.value;
        } else {
          NoEvents(collections[l]);
        }
        k := k + 1;
      }
      changed := Some(count);
    }
  }

  lemma LabelsDiffer()
    ensures |RECONCILED| == 4
    ensures forall i, j :: 0 <= i < j < 4 ==> RECONCILED[i] != RECONCILED[j]
  {
  }

  /** The first n issues are folded in, and the next one makes handling fail. */
  ghost predicate PartlyFolded(m: Collection, after: Collection, issues: seq<Issue>, n: nat) {
    n < |issues| && after == Folded(m, Events(issues[..n])) && ThrowsAt(after, issues[n])
  }

  ghost predicate Total(cs: map<Label, Collection>) {
    forall l: Label :: l in cs
  }

  ghost predicate FoldedBefore(cs: map<Label, Collection>, ds: map<Label, Collection>, listings: seq<Option<seq<Issue>>>, k: nat)
    requires k <= 4 == |listings| && Total(cs) && Total(ds)
  {
    forall j :: 0 <= j < k ==> ds[RECONCILED[j]] == Folded(cs[RECONCILED[j]], ListedEvents(listings[j]))
  }

  /** None of the first k labels meets a type error. */
  ghost predicate AllRunThrough(cs: map<Label, Collection>, listings: seq<Option<seq<Issue>>>, k: nat)
    requires k <= 4 == |listings| && Total(cs)
  {
    forall j :: 0 <= j < k && listings[j].Some? ==> RunsThrough(cs[RECONCILED[j]], listings[j].value)
  }

  /** Labels before the k-th are reconciled, the k-th up to a failing issue, the others untouched. */
  ghost predicate Stopped(cs: map<Label, Collection>, ds: map<Label, Collection>, listings: seq<Option<seq<Issue>>>,
                          k: nat, n: nat)
    requires k < 4 == |listings| && Total(cs) && Total(ds)
  {
    && FoldedBefore(cs, ds, listings, k)
    && listings[k].Some?
    && PartlyFolded(cs[RECONCILED[k]], ds[RECONCILED[k]], listings[k].value, n)
    && forall j :: k < j < 4 ==> ds[RECONCILED[j]] == cs[RECONCILED[j]]
  }

  /** How an edit ends, in terms of the issue. */
  lemma EditHandled(m: Collection, issue: Issue)
    ensures issue.updatedAt.Some? && !issue.updatedAt.value.Str? ==> ThrowsAt(m, issue)
    ensures issue.updatedAt.None? || issue.updatedAt.value.Str? ==>
      var ts := if issue.updatedAt.None? then "" else issue.updatedAt.value.s;
      var h := Handled(m, "edited", Read(issue, ts));
      && ReadListed(issue) == Read(issue, ts)
      && (h.1.Thrown? <==> ThrowsAt(m, issue))
      && (h.1.Thrown? ==> h.0 == m)
      && h.0 == AfterIssue(m, issue)
      && (h.1.Applied? <==> Counts(m, issue))
  {
    assert "edited" != "closed" && "edited" != "reopened";
  }

  function AfterIssue(m: Collection, issue: Issue): Collection {
    if ReadListed(issue).Ready? then Edited(m, ReadListed(issue).ev) else m
  }

  predicate Counts(m: Collection, issue: Issue) {
    ReadListed(issue).Ready? && !Unreadable(m, ReadListed(issue).ev) && !Stale(m, ReadListed(issue).ev)
  }

  lemma NoEvents(m: Collection)
    ensures Events([]) == [] && Folded(m, []) == m && AppliedCount(m, []) == 0
  {
  }

  function ListedEvents(listing: Option<seq<Issue>>): seq<Event> {
    if listing.None? then [] else Events(listing.value)
  }

  /** Edits applied by reconciling the first n labels. */
  function ReconciledCount(cs: map<Label, Collection>, listings: seq<Option<seq<Issue>>>, n: nat): nat
    requires n <= 4 == |listings| && Total(cs)
  {
    if n == 0 then 0
    else ReconciledCount(cs, listings, n - 1)
         + AppliedCount(cs[RECONCILED[n - 1]], ListedEvents(listings[n - 1]))
  }

  lemma EventsStep(m: Collection, issues: seq<Issue>, k: nat)
    requires k < |issues|
    ensures
      var mid := Folded(m, Events(issues[..k]));
      && Folded(m, Events(issues[..k + 1])) == AfterIssue(mid, issues[k])
      && AppliedCount(m, Events(issues[..k + 1]))
         == AppliedCount(m, Events(issues[..k])) + (if Counts(mid, issues[k]) then 1 else 0)
  {
    var evs := Events(issues[..k]);
    var reading := ReadListed(issues[k]);
    assert issues[..k + 1][..k] == issues[..k];
    if reading.Ready? {
      assert Events(issues[..k + 1]) == evs + [reading.ev];
      assert (evs + [reading.ev])[..|evs|] == evs;
    } else {
      assert Events(issues[..k + 1]) == evs + [] == evs;
    }
  }

  // ------------------------------------------------------------ convergence

  ghost predicate AllTimed(evs: seq<Event>) {
    forall i :: 0 <= i < |evs| ==> evs[i].updatedAt != ""
  }

  /** No two different edits of one entity carry the same timestamp. */
  ghost predicate DistinctStamps(evs: seq<Event>) {
    forall i, j :: 0 <= i < |evs| && 0 <= j < |evs| && evs[i].id == evs[j].id && evs[i].updatedAt == evs[j].updatedAt
      ==> evs[i] == evs[j]
  }

  /** The newest edit of its entity. */
  ghost predicate IsLatest(evs: seq<Event>, ev: Event) {
    ev in evs && forall f :: f in evs && f.id == ev.id ==> !Less(ev.updatedAt, f.updatedAt)
  }

  /** Whatever is stored for the entity is newer than, or as new as, the edit. */
  ghost predicate AtLeast(m: Collection, id: string, ts: string) {
    && id in m
    && TextField(m[id], "updatedAt") != ""
    && !Less(TextField(m[id], "updatedAt"), ts)
  }

  lemma NotLessTransitive(a: string, b: string, c: string)
    requires !Less(a, b) && !Less(b, c)
    ensures !Less(a, c)
  {
    if Less(a, c) {
      LessTotal(a, b);
      if Less(b, a) {
        LessTransitive(b, a, c);
      }
    }
  }

  /** Entities that received no edit stay as they were. */
  lemma {:induction false} Untouched(m: Collection, evs: seq<Event>, id: string)
    requires forall ev :: ev in evs ==> ev.id != id
    ensures id in Folded(m, evs) <==> id in m
    ensures id in m ==> Folded(m, evs)[id] == m[id]
  {
    if evs != [] {
      assert evs[|evs| - 1] in evs;
      Untouched(m, evs[..|evs| - 1], id);
    }
  }

  /** Among the edits of an entity there is a newest one. */
  lemma {:induction false} LatestExists(evs: seq<Event>, id: string) returns (ev: Event)
    requires exists f :: f in evs && f.id == id
    ensures ev.id == id && IsLatest(evs, ev)
  {
    var n := |evs| - 1;
    var before, last := evs[..n], evs[n];
    assert forall f :: f in evs <==> f in before || f == last;
    LessIrreflexive(last.updatedAt);
    if exists f :: f in before && f.id == id {
      ev := LatestExists(before, id);
      if last.id == id && Less(ev.updatedAt, last.updatedAt) {
        forall f | f in evs && f.id == id ensures !Less(last.updatedAt, f.updatedAt) {
          if f in before {
            LessAsymmetric(ev.updatedAt, last.updatedAt);
            NotLessTransitive(last.updatedAt, ev.updatedAt, f.updatedAt);
          }
        }
        ev := last;
      }
    } else {
      ev := last;
    }
  }

  lemma LessIrreflexive(s: string)
    ensures !Less(s, s)
  {
    if Less(s, s) {
      LessAsymmetric(s, s);
    }
  }

  lemma WrittenStamp(ev: Event)
    ensures TextField(Written(ev), "updatedAt") == ev.updatedAt
    ensures "updatedAt" in Written(ev) && Written(ev)["updatedAt"] == Str(ev.updatedAt)
  {
  }

  /** The stored copy stays: it is at least as new, or its timestamp cannot be compared. */
  ghost predicate Stays(m: Collection, id: string, ts: string) {
    AtLeast(m, id, ts) || Untextual(m, id)
  }

  /** What an entity must look like after a set of edits, given its newest one. */
  ghost predicate Settled(m: Collection, after: Collection, latest: Event) {
    && latest.id in after
    && after[latest.id] == if Stays(m, latest.id, latest.updatedAt) then m[latest.id] else Written(latest)
  }

  /** One more edit, compared with the newest edit so far. */
  lemma SettledStep(m: Collection, mid: Collection, was: Event, ev: Event)
    requires Settled(m, mid, was) && ev.id == was.id && was.updatedAt != "" && ev.updatedAt != ""
    ensures Less(was.updatedAt, ev.updatedAt) ==> Settled(m, Edited(mid, ev), ev)
    ensures !Less(was.updatedAt, ev.updatedAt) ==> Settled(m, Edited(mid, ev), was)
  {
    hide Less, Written;
    WrittenStamp(was);
    if Untextual(m, ev.id) {
      assert Edited(mid, ev) == mid;
    } else {
      assert !Untextual(mid, ev.id);
      var local := if ev.id in m then TextField(m[ev.id], "updatedAt") else "";
      if Less(was.updatedAt, ev.updatedAt) {
        LessAsymmetric(was.updatedAt, ev.updatedAt);
        if AtLeast(m, ev.id, ev.updatedAt) {
          NotLessTransitive(local, ev.updatedAt, was.updatedAt);
        }
      } else if AtLeast(m, ev.id, was.updatedAt) {
        NotLessTransitive(local, was.updatedAt, ev.updatedAt);
      }
    }
  }

  /**
   Any order and any repetition of timestamped edits leaves every edited entity as its newest
   edit wrote it, or as it was if the stored copy is at least as new or has a timestamp that is
   not a string.
   */
  lemma {:induction false} LatestWins(m: Collection, evs: seq<Event>, latest: Event)
    requires AllTimed(evs) && DistinctStamps(evs) && IsLatest(evs, latest)
    ensures Settled(m, Folded(m, evs), latest)
  {
    hide Edited, Stale, Settled, AtLeast, Less, AllTimed, DistinctStamps, Untextual;
    var n := |evs| - 1;
    var before, last := evs[..n], evs[n];
    TimedPrefix(evs, n);
    assert forall f :: f in evs <==> f in before || f == last;
    var mid := Folded(m, before);
    if exists f :: f in before && f.id == latest.id {
      var prev := LatestExists(before, latest.id);
      LatestWins(m, before, prev);
      LatestStep(evs, before, last, latest, prev);
      if last.id == latest.id {
        SettledStep(m, mid, prev, last);
      } else {
        SettledElsewhere(m, mid, prev, last);
      }
    } else {
      Untouched(m, before, latest.id);
      SettledFirst(m, mid, last);
    }
  }

  /** No edit of the same entity comes after this one in alphabetical order of timestamps. */
  ghost predicate IsNewest(evs: seq<Event>, ev: Event) {
    ev in evs && forall f :: f in evs && f.id == ev.id ==> f == ev || Precedes(f.updatedAt, ev.updatedAt)
  }

  /** The entity is stored with a timestamp that is the same or comes after. */
  ghost predicate StoredAsNew(m: Collection, id: string, ts: string) {
    && id in m && "updatedAt" in m[id] && m[id]["updatedAt"].Str?
    && m[id]["updatedAt"].s != ""
    && (m[id]["updatedAt"].s == ts || Precedes(ts, m[id]["updatedAt"].s))
  }

  lemma NewestIsLatest(evs: seq<Event>, ev: Event)
    requires IsNewest(evs, ev)
    ensures IsLatest(evs, ev)
  {
    forall f | f in evs && f.id == ev.id ensures !Less(ev.updatedAt, f.updatedAt) {
      LessIrreflexive(ev.updatedAt);
      LessIffPrecedes(f.updatedAt, ev.updatedAt);
      if f != ev {
        LessAsymmetric(f.updatedAt, ev.updatedAt);
      }
    }
  }

  lemma StoredAsNewMeans(m: Collection, id: string, ts: string)
    ensures StoredAsNew(m, id, ts) <==> AtLeast(m, id, ts)
  {
    hide Less, Precedes;
    if id in m && "updatedAt" in m[id] && m[id]["updatedAt"].Str? {
      var u := m[id]["updatedAt"].s;
      LessIffPrecedes(ts, u);
      LessTotal(ts, u);
      LessIrreflexive(u);
      if Less(ts, u) {
        LessAsymmetric(ts, u);
      }
    }
  }

  /**
   Any order and any repetition of timestamped edits leaves an edited entity as its newest edit
   wrote it, or as it was if the stored copy is at least as new or has a timestamp that is not a
   string; newest is the alphabetically greatest timestamp.
   */
  lemma NewestWins(m: Collection, evs: seq<Event>, ev: Event)
    requires AllTimed(evs) && DistinctStamps(evs) && IsNewest(evs, ev)
    ensures ev.id in Folded(m, evs)
    ensures Folded(m, evs)[ev.id] ==
      if StoredAsNew(m, ev.id, ev.updatedAt) || Untextual(m, ev.id) then m[ev.id]
      else ev.entity["updatedAt" := Str(ev.updatedAt)]
  {
    hide IsNewest, StoredAsNew, AtLeast, Untextual, Folded, AllTimed, DistinctStamps, IsLatest;
    NewestIsLatest(evs, ev);
    StoredAsNewMeans(m, ev.id, ev.updatedAt);
    LatestWins(m, evs, ev);
  }

  /**
   Newest wins, exactly: unless the stored copy is at least as new, the entity ends as its newest
   edit wrote it if and only if the stored timestamp is absent or a string.
   */
  lemma NewestWinsIff(m: Collection, evs: seq<Event>, ev: Event)
    requires AllTimed(evs) && DistinctStamps(evs) && IsNewest(evs, ev)
    requires !StoredAsNew(m, ev.id, ev.updatedAt)
    ensures ev.id in Folded(m, evs)
    ensures Folded(m, evs)[ev.id] == ev.entity["updatedAt" := Str(ev.updatedAt)] <==> !Untextual(m, ev.id)
  {
    hide IsNewest, StoredAsNew, Folded, AllTimed, DistinctStamps;
    NewestWins(m, evs, ev);
  }

  // ------------------------------------------------- what one event does, in full

  /** Only this entity may differ. */
  ghost predicate OthersKept(m: Collection, after: Collection, id: string) {
    forall x :: x != id ==> (x in m <==> x in after) && (x in m ==> after[x] == m[x])
  }

  /** What an issue says: the entity with the issue number as decimal text. */
  ghost predicate Says(issue: Issue, ev: Event) {
    && issue.entity.Some? && "id" in issue.entity.value && issue.entity.value["id"] == Str(ev.id)
    && (issue.number.None? ==> ev.entity == issue.entity.value)
    && (issue.number.Some? ==>
          && IntOf(issue.number.value).Some?
          && ev.entity == issue.entity.value["_github_issue" := Str(IntText(IntOf(issue.number.value).value))])
  }

  /** The id is not a string, or the issue number not a number. */
  ghost predicate Ill(issue: Issue)
    requires issue.entity.Some? && "id" in issue.entity.value
  {
    !issue.entity.value["id"].Str? || (issue.number.Some? && IntOf(issue.number.value).None?)
  }

  /** A closed entity: marked and stamped, otherwise as it was. */
  ghost predicate MarkedClosed(was: Entity, e: Entity, ts: string) {
    && e.Keys == was.Keys + {"status", "closedAt", "updatedAt"}
    && e["status"] == Str("closed") && e["closedAt"] == Str(ts) && e["updatedAt"] == Str(ts)
    && forall k :: k in was && k !in ["status", "closedAt", "updatedAt"] ==> e[k] == was[k]
  }

  ghost predicate MarkedActive(was: Entity, e: Entity, ts: string) {
    && e.Keys == was.Keys + {"status", "updatedAt"}
    && e["status"] == Str("active") && e["updatedAt"] == Str(ts)
    && forall k :: k in was && k !in ["status", "updatedAt"] ==> e[k] == was[k]
  }

  lemma ClosedMeans(m: Collection, ev: Event)
    requires ev.id in m
    ensures ev.id in Closed(m, ev) && MarkedClosed(m[ev.id], Closed(m, ev)[ev.id], ev.updatedAt)
    ensures OthersKept(m, Closed(m, ev), ev.id)
  {
    assert "status" != "closedAt" && "status" != "updatedAt" && "closedAt" != "updatedAt";
  }

  lemma ReopenedMeans(m: Collection, ev: Event)
    ensures ev.id in Reopened(m, ev) && OthersKept(m, Reopened(m, ev), ev.id)
    ensures ev.id !in m ==> Reopened(m, ev)[ev.id] == ev.entity
    ensures ev.id in m ==> MarkedActive(m[ev.id], Reopened(m, ev)[ev.id], ev.updatedAt)
  {
    assert "status" != "updatedAt";
  }

  /** One event in plain terms: what is read, what changes, how it ends. */
  lemma EventMeans(m: Collection, action: string, issue: Issue, ts: string)
    ensures
      var h := Handled(m, action, Read(issue, ts));
      && (issue.entity.None? || "id" !in issue.entity.value ==> h == (m, Ignored))
      && (issue.entity.Some? && "id" in issue.entity.value && Ill(issue) ==> h == (m, Thrown))
      && forall ev :: Says(issue, ev) && ev.updatedAt == ts ==>
           && (action == "closed" && ev.id !in m ==> h == (m, Ignored))
           && (action == "closed" && ev.id in m ==>
                 && h.1 == Applied && OthersKept(m, h.0, ev.id) && ev.id in h.0
                 && MarkedClosed(m[ev.id], h.0[ev.id], ts))
           && (action == "reopened" ==>
                 && h.1 == Applied && OthersKept(m, h.0, ev.id) && ev.id in h.0
                 && (ev.id in m ==> MarkedActive(m[ev.id], h.0[ev.id], ts))
                 && (ev.id !in m ==> h.0[ev.id] == ev.entity))
           && (action != "closed" && action != "reopened" ==>
                 && (ts != "" && Untextual(m, ev.id) ==> h == (m, Thrown))
                 && (ts != "" && StoredAsNew(m, ev.id, ts) ==> h == (m, Ignored))
                 && (ts == "" || !(StoredAsNew(m, ev.id, ts) || Untextual(m, ev.id)) ==>
                       h == (m[ev.id := ev.entity["updatedAt" := Str(ts)]], Applied)))
  {
    var r := Read(issue, ts);
    if r.Ready? {
      EditOutcome(m, r.ev);
      ReopenedMeans(m, r.ev);
      if r.ev.id in m {
        ClosedMeans(m, r.ev);
      }
    }
    SaysWhatIsRead(issue, ts);
    hide Read, Closed, Reopened, Edited, MarkedClosed, MarkedActive, StoredAsNew, Untextual, Says, OthersKept, Stale, Unreadable;
  }

  lemma SaysWhatIsRead(issue: Issue, ts: string)
    ensures forall ev :: Says(issue, ev) && ev.updatedAt == ts ==> Read(issue, ts) == Ready(ev)
    ensures issue.entity.None? || "id" !in issue.entity.value ==> Read(issue, ts) == Malformed
    ensures issue.entity.Some? && "id" in issue.entity.value && Ill(issue) ==> Read(issue, ts) == Mistyped
  {
    hide IntOf, IntText;
  }

  /** What an issue of a listing stands for: what it says, at the time it carries. */
  ghost predicate Tells(issue: Issue, ev: Event) {
    && Says(issue, ev)
    && (issue.updatedAt.None? ==> ev.updatedAt == "")
    && (issue.updatedAt.Some? ==> issue.updatedAt.value == Str(ev.updatedAt))
  }

  lemma TellsWhatIsListed(issue: Issue, ev: Event)
    ensures Tells(issue, ev) <==> ReadListed(issue) == Ready(ev)
  {
    hide IntOf, IntText;
  }

  /** The edits of a listing are exactly what its issues tell. */
  lemma {:induction false} ListingTells(issues: seq<Issue>, ev: Event)
    ensures ev in Events(issues) <==> exists k :: 0 <= k < |issues| && Tells(issues[k], ev)
  {
    hide ReadListed, Tells;
    if issues != [] {
      var n := |issues| - 1;
      ListingTells(issues[..n], ev);
      TellsWhatIsListed(issues[n], ev);
      assert forall k :: 0 <= k < n ==> issues[..n][k] == issues[k];
      if k :| 0 <= k < n && Tells(issues[k], ev) {
        assert Tells(issues[..n][k], ev);
      }
    }
  }

  lemma EditOutcome(m: Collection, ev: Event)
    ensures ev.updatedAt != "" && Untextual(m, ev.id) ==> Edited(m, ev) == m && Unreadable(m, ev)
    ensures ev.updatedAt != "" && StoredAsNew(m, ev.id, ev.updatedAt) ==>
      Edited(m, ev) == m && !Unreadable(m, ev) && Stale(m, ev)
    ensures ev.updatedAt == "" || !(StoredAsNew(m, ev.id, ev.updatedAt) || Untextual(m, ev.id)) ==>
      && Edited(m, ev) == m[ev.id := ev.entity["updatedAt" := Str(ev.updatedAt)]]
      && !Unreadable(m, ev) && !Stale(m, ev)
  {
    hide Precedes, Less;
    StoredAsNewMeans(m, ev.id, ev.updatedAt);
  }

  /** An entity hydrated with a number for a timestamp, say, is out of reach of every timestamped edit. */
  lemma NumericStampBlocks(ev: Event)
    requires ev.updatedAt != ""
    ensures
      var m := map[ev.id := map["updatedAt" := Num(5)]];
      Unreadable(m, ev) && Folded(m, [ev]) == m && m[ev.id] != Written(ev)
  {
    var m := map[ev.id := map["updatedAt" := Num(5)]];
    WrittenStamp(ev);
    assert [ev][..0] == [] && Folded(m, []) == m;
  }

  lemma TimedPrefix(evs: seq<Event>, n: nat)
    requires AllTimed(evs) && DistinctStamps(evs) && n <= |evs|
    ensures AllTimed(evs[..n]) && DistinctStamps(evs[..n])
    ensures forall ev :: ev in evs ==> ev.updatedAt != ""
  {
  }

  lemma SettledElsewhere(m: Collection, mid: Collection, latest: Event, ev: Event)
    requires Settled(m, mid, latest) && ev.id != latest.id
    ensures Settled(m, Edited(mid, ev), latest)
  {
  }

  lemma SettledFirst(m: Collection, mid: Collection, ev: Event)
    requires ev.id in mid <==> ev.id in m
    requires ev.id in m ==> mid[ev.id] == m[ev.id]
    requires ev.updatedAt != ""
    ensures Settled(m, Edited(mid, ev), ev)
  {
  }

  /** The newest edit after one more is the old newest one or the new one. */
  lemma LatestStep(evs: seq<Event>, before: seq<Event>, last: Event, latest: Event, prev: Event)
    requires evs == before + [last] && DistinctStamps(evs) && IsLatest(evs, latest)
    requires IsLatest(before, prev) && prev.id == latest.id
    ensures last.id == latest.id && Less(prev.updatedAt, last.updatedAt) ==> latest == last
    ensures last.id != latest.id || !Less(prev.updatedAt, last.updatedAt) ==> latest == prev
  {
    assert last in evs && prev in evs;
    if last.id == latest.id && Less(prev.updatedAt, last.updatedAt) {
      if latest != last {
        assert latest in before;
        NotLessTransitive(prev.updatedAt, latest.updatedAt, last.updatedAt);
      }
    } else {
      LessTotal(prev.updatedAt, latest.updatedAt);
      assert !Less(latest.updatedAt, prev.updatedAt);
      assert !Less(prev.updatedAt, latest.updatedAt);
      SameStamp(evs, prev, latest);
    }
  }

  lemma SameStamp(evs: seq<Event>, a: Event, b: Event)
    requires DistinctStamps(evs) && a in evs && b in evs && a.id == b.id && a.updatedAt == b.updatedAt
    ensures a == b
  {
    var i :| 0 <= i < |evs| && evs[i] == a;
    var j :| 0 <= j < |evs| && evs[j] == b;
  }

  /** So two deliveries of the same edits, in whatever order and number, converge. */
  lemma DeliveriesConverge(m: Collection, evs: seq<Event>, others: seq<Event>)
    requires AllTimed(evs) && DistinctStamps(evs) && AllTimed(others) && DistinctStamps(others)
    requires forall ev :: ev in evs <==> ev in others
    ensures Folded(m, evs) == Folded(m, others)
  {
    var a, b := Folded(m, evs), Folded(m, others);
    forall id ensures (id in a <==> id in b) && (id in a ==> a[id] == b[id]) {
      if exists f :: f in evs && f.id == id {
        var latest := LatestExists(evs, id);
        assert IsLatest(others, latest);
        LatestWins(m, evs, latest);
        LatestWins(m, others, latest);
      } else {
        Untouched(m, evs, id);
        Untouched(m, others, id);
      }
    }
  }

  // ---------------------------------------------------------- reconciliation

  lemma AtLeastStays(m: Collection, ev: Event, id: string, ts: string)
    requires AtLeast(m, id, ts) && ev.updatedAt != ""
    ensures AtLeast(Edited(m, ev), id, ts)
  {
    hide Less, Written, TextField;
    if ev.id == id && !Stale(m, ev) {
      WrittenStamp(ev);
      LessAsymmetric(TextField(m[id], "updatedAt"), ev.updatedAt);
      NotLessTransitive(ev.updatedAt, TextField(m[id], "updatedAt"), ts);
    }
  }

  lemma AtLeastAfter(m: Collection, ev: Event)
    requires ev.updatedAt != "" && !Untextual(m, ev.id)
    ensures AtLeast(Edited(m, ev), ev.id, ev.updatedAt)
  {
    WrittenStamp(ev);
    LessIrreflexive(ev.updatedAt);
  }

  /** Timestamped edits neither bring in nor remove a timestamp that is not a string. */
  lemma {:induction false} UntextualStays(m: Collection, evs: seq<Event>, id: string)
    requires AllTimed(evs)
    ensures Untextual(Folded(m, evs), id) <==> Untextual(m, id)
  {
    if evs != [] {
      UntextualStays(m, evs[..|evs| - 1], id);
      WrittenStamp(evs[|evs| - 1]);
    }
  }

  /** After a pass every edit of the pass is stale. */
  lemma {:induction false} AllStale(m: Collection, evs: seq<Event>, ev: Event)
    requires AllTimed(evs) && ev in evs && !Untextual(m, ev.id)
    ensures AtLeast(Folded(m, evs), ev.id, ev.updatedAt)
  {
    hide AtLeast, Edited, Untextual;
    var n := |evs| - 1;
    if ev in evs[..n] {
      AllStale(m, evs[..n], ev);
      AtLeastStays(Folded(m, evs[..n]), evs[n], ev.id, ev.updatedAt);
    } else {
      UntextualStays(m, evs[..n], ev.id);
      AtLeastAfter(Folded(m, evs[..n]), ev);
    }
  }

  lemma {:induction false} StaleEditsDoNothing(m: Collection, evs: seq<Event>)
    requires forall i :: 0 <= i < |evs| ==> Stale(m, evs[i])
    ensures Folded(m, evs) == m && AppliedCount(m, evs) == 0
  {
    if evs != [] {
      StaleEditsDoNothing(m, evs[..|evs| - 1]);
    }
  }

  // ------------------------------------------------------ a second reconciliation

  /** Every issue that reads as an edit is one of the edits, and the others before it come first. */
  lemma {:induction false} EventsPrefix(issues: seq<Issue>, n: nat)
    requires n <= |issues|
    ensures Events(issues[..n]) <= Events(issues)
    ensures forall k :: 0 <= k < n && ReadListed(issues[k]).Ready? ==> ReadListed(issues[k]).ev in Events(issues)
  {
    hide ReadListed;
    if n < |issues| {
      EventsPrefix(issues[..|issues| - 1], n);
      assert issues[..|issues| - 1][..n] == issues[..n];
    } else if n > 0 {
      EventsPrefix(issues[..n - 1], n - 1);
      assert issues[..n] == issues && issues[..n - 1][..n - 1] == issues[..n - 1];
    }
  }

  lemma {:induction false} EventOrigin(issues: seq<Issue>, ev: Event) returns (k: nat)
    requires ev in Events(issues)
    ensures k < |issues| && ReadListed(issues[k]) == Ready(ev)
  {
    hide ReadListed;
    var n := |issues| - 1;
    if ev in Events(issues[..n]) {
      k := EventOrigin(issues[..n], ev);
    } else {
      k := n;
    }
  }

  /** A pass over timestamped issues meets a type error exactly if an issue is mistyped or an edited entity is. */
  lemma RunsThroughIff(m: Collection, issues: seq<Issue>)
    requires AllTimed(Events(issues))
    ensures RunsThrough(m, issues) <==>
      && (forall k :: 0 <= k < |issues| ==> !ReadListed(issues[k]).Mistyped?)
      && (forall ev :: ev in Events(issues) ==> !Untextual(m, ev.id))
  {
    hide ReadListed, Events, Folded, Untextual;
    forall n | 0 <= n < |issues|
      ensures ThrowsAt(Folded(m, Events(issues[..n])), issues[n]) <==>
        ReadListed(issues[n]).Mistyped? || (ReadListed(issues[n]).Ready? && Untextual(m, ReadListed(issues[n]).ev.id))
    {
      EventsPrefix(issues, n);
      EventsPrefix(issues, |issues|);
      if ReadListed(issues[n]).Ready? {
        UntextualStays(m, Events(issues[..n]), ReadListed(issues[n]).ev.id);
      }
    }
    EventsPrefix(issues, |issues|);
    forall ev | ev in Events(issues) && RunsThrough(m, issues) ensures !Untextual(m, ev.id) {
      var k := EventOrigin(issues, ev);
    }
  }

  /** A second pass over the same timestamped issues does not fail either and applies nothing. */
  lemma SecondPass(m: Collection, issues: seq<Issue>)
    requires RunsThrough(m, issues) && AllTimed(Events(issues))
    ensures
      var done := Folded(m, Events(issues));
      && RunsThrough(done, issues)
      && Folded(done, Events(issues)) == done
      && AppliedCount(done, Events(issues)) == 0
  {
    hide RunsThrough, Events, Untextual;
    var evs := Events(issues);
    var done := Folded(m, evs);
    RunsThroughIff(m, issues);
    forall id ensures Untextual(done, id) <==> Untextual(m, id) {
      UntextualStays(m, evs, id);
    }
    RunsThroughIff(done, issues);
    forall i | 0 <= i < |evs| ensures Stale(done, evs[i]) {
      AllStale(m, evs, evs[i]);
    }
    StaleEditsDoNothing(done, evs);
  }

  /**
   Reconciling twice: if a reconciliation of timestamped issues went through, a second one over
   the same listings goes through, applies no edit and leaves all four collections alone.
   */
  lemma SecondReconcileAppliesNothing(cs: map<Label, Collection>, ds: map<Label, Collection>,
                                      listings: seq<Option<seq<Issue>>>)
    requires |listings| == 4 && Total(cs) && Total(ds)
    requires AllRunThrough(cs, listings, 4) && FoldedBefore(cs, ds, listings, 4)
    requires forall k :: 0 <= k < 4 ==> AllTimed(ListedEvents(listings[k]))
    ensures AllRunThrough(ds, listings, 4) && ReconciledCount(ds, listings, 4) == 0
    ensures FoldedBefore(ds, ds, listings, 4)
  {
    forall k | 0 <= k < 4
      ensures listings[k].Some? ==> RunsThrough(ds[RECONCILED[k]], listings[k].value)
      ensures AppliedCount(ds[RECONCILED[k]], ListedEvents(listings[k])) == 0
      ensures Folded(ds[RECONCILED[k]], ListedEvents(listings[k])) == ds[RECONCILED[k]]
    {
      SecondLabel(cs, ds, listings, k);
    }
    hide AppliedCount, Folded, RunsThrough, ListedEvents, RECONCILED;
    NothingCounted(ds, listings, 4);
  }

  lemma SecondLabel(cs: map<Label, Collection>, ds: map<Label, Collection>, listings: seq<Option<seq<Issue>>>, k: nat)
    requires k < 4 == |listings| && Total(cs) && Total(ds)
    requires AllRunThrough(cs, listings, 4) && FoldedBefore(cs, ds, listings, 4)
    requires AllTimed(ListedEvents(listings[k]))
    ensures listings[k].Some? ==> RunsThrough(ds[RECONCILED[k]], listings[k].value)
    ensures AppliedCount(ds[RECONCILED[k]], ListedEvents(listings[k])) == 0
    ensures Folded(ds[RECONCILED[k]], ListedEvents(listings[k])) == ds[RECONCILED[k]]
  {
    hide RunsThrough, Events, RECONCILED;
    LabelsDiffer();
    if listings[k].Some? {
      SecondPass(cs[RECONCILED[k]], listings[k].value);
    } else {
      NoEvents(ds[RECONCILED[k]]);
    }
  }

  lemma {:induction false} NothingCounted(cs: map<Label, Collection>, listings: seq<Option<seq<Issue>>>, n: nat)
    requires n <= 4 == |listings| && Total(cs)
    requires forall k :: 0 <= k < 4 ==> AppliedCount(cs[RECONCILED[k]], ListedEvents(listings[k])) == 0
    ensures ReconciledCount(cs, listings, n) == 0
  {
    hide AppliedCount, ListedEvents, RECONCILED;
    LabelsDiffer();
    if n > 0 {
      NothingCounted(cs, listings, n - 1);
    }
  }
}
