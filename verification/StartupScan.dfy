/** The start-up scan: group every workspace pod by workspace id, then clean up
    group after group with its own copy of the decision. */
module StartupScan {
  import opened Sorting
  import opened Pods
  import opened Reconcile

  predicate IsWorkspacePod(p: Pod) { p.IsWorkspace() }

  predicate Labelled(p: Pod) { p.WorkspaceId() != "" }

  function HasId(id: string): Pod -> bool { (p: Pod) => p.WorkspaceId() == id }

  /** What the label selector of the on-demand handlers matches. */
  function Member(id: string): Pod -> bool { (p: Pod) => p.IsWorkspace() && p.WorkspaceId() == id }

  /** Workspace ids in order of first appearance, as the keys of a `Map` come. */
  function Ids(items: seq<Pod>): seq<string> {
    if items == [] then []
    else
      var ids := Ids(items[..|items| - 1]);
      var id := items[|items| - 1].WorkspaceId();
      if id == "" || id in ids then ids else ids + [id]
  }

  lemma {:induction false} IdsAreDistinct(items: seq<Pod>)
    ensures forall i, j :: 0 <= i < j < |Ids(items)| ==> Ids(items)[i] != Ids(items)[j]
    ensures forall id :: id in Ids(items) <==> id != "" && exists p :: p in items && p.WorkspaceId() == id
  {
    if items != [] {
      var front, last := items[..|items| - 1], items[|items| - 1];
      IdsAreDistinct(front);
      assert items == front + [last];
      forall id ensures id in Ids(items) <==> id != "" && exists p :: p in items && p.WorkspaceId() == id {
        if id != "" && exists p :: p in items && p.WorkspaceId() == id {
          var p :| p in items && p.WorkspaceId() == id;
          assert p in front || p == last;
        }
      }
    }
  }

  /** The groups of the pods pushed so far. */
  ghost predicate Grouped(ids: seq<string>, groups: map<string, seq<Pod>>, pushed: seq<Pod>) {
    && ids == Ids(pushed)
    && (forall id :: id in groups <==> id in ids)
    && (forall id :: id in groups ==> groups[id] == Filter(HasId(id), pushed))
  }

  lemma {:induction false} NonePushed(pushed: seq<Pod>, id: string)
    requires id != "" && id !in Ids(pushed)
    ensures Filter(HasId(id), pushed) == []
  {
    if pushed != [] {
      NonePushed(pushed[..|pushed| - 1], id);
    }
  }

  lemma PushKeepsGrouped(ids: seq<string>, groups: map<string, seq<Pod>>, pushed: seq<Pod>, p: Pod)
    requires Grouped(ids, groups, pushed)
    ensures var id := p.WorkspaceId();
            if id == "" then Grouped(ids, groups, pushed + [p])
            else if id in groups then Grouped(ids, groups[id := groups[id] + [p]], pushed + [p])
            else Grouped(ids + [id], groups[id := [p]], pushed + [p])
  {
    var id := p.WorkspaceId();
    assert (pushed + [p])[..|pushed|] == pushed;
    forall other | other in groups
      ensures Filter(HasId(other), pushed + [p]) == if other == id then groups[other] + [p] else groups[other]
    {
      FilterAppend(HasId(other), pushed, p);
    }
    if id != "" && id !in groups {
      NonePushed(pushed, id);
      FilterAppend(HasId(id), pushed, p);
      assert Filter(HasId(id), pushed + [p]) == [p];
    }
    IdsAreDistinct(pushed);
  }

  /** Fills the map of groups by pushing the listed pods one at a time. */
  method GroupByWorkspace(items: array<Pod>) returns (ids: seq<string>, groups: map<string, seq<Pod>>)
    ensures ids == Ids(items[..])
    ensures forall id :: id in groups <==> id in ids
    ensures forall id :: id in groups ==> groups[id] == Filter(HasId(id), items[..])
  {
    ids, groups := [], map[];
    var i := 0;
    while i < items.Length
      invariant 0 <= i <= items.Length
      invariant Grouped(ids, groups, items[..i])
    {
      PushKeepsGrouped(ids, groups, items[..i], items[i]);
      assert items[..i + 1] == items[..i] + [items[i]];
      var id := items[i].WorkspaceId();
      if id != "" {
        if id !in groups {
          groups := groups[id := [items[i]]];
          ids := ids + [id];
        } else {
          groups := groups[id := groups[id] + [items[i]]];
        }
      }
      i := i + 1;
    }
    assert items[..] == items[..items.Length];
  }

  /** The groups in scan order, one behind the other. */
  function Regrouped(ids: seq<string>, items: seq<Pod>): seq<Pod> {
    if ids == [] then [] else Regrouped(ids[..|ids| - 1], items) + Filter(HasId(ids[|ids| - 1]), items)
  }

  lemma {:induction false} RegroupedCount(ids: seq<string>, items: seq<Pod>, p: Pod)
    requires forall i, j :: 0 <= i < j < |ids| ==> ids[i] != ids[j]
    ensures multiset(Regrouped(ids, items))[p] == if p.WorkspaceId() in ids then multiset(items)[p] else 0
  {
    if ids != [] {
      var front, last := ids[..|ids| - 1], ids[|ids| - 1];
      RegroupedCount(front, items, p);
      FilterCount(HasId(last), items, p);
      assert ids == front + [last];
    }
  }

  lemma {:induction false} FilterCount(keep: Pod -> bool, items: seq<Pod>, p: Pod)
    ensures multiset(Filter(keep, items))[p] == if keep(p) then multiset(items)[p] else 0
  {
    if items != [] {
      FilterCount(keep, items[..|items| - 1], p);
      assert items == items[..|items| - 1] + [items[|items| - 1]];
    }
  }

  /** Grouping loses no labelled pod, repeats none and makes none up. */
  lemma GroupsPartition(items: seq<Pod>)
    ensures multiset(Regrouped(Ids(items), items)) == multiset(Filter(Labelled, items))
  {
    IdsAreDistinct(items);
    forall p: Pod ensures multiset(Regrouped(Ids(items), items))[p] == multiset(Filter(Labelled, items))[p] {
      RegroupedCount(Ids(items), items, p);
      FilterCount(Labelled, items, p);
      if p !in multiset(items) {
        assert multiset(items)[p] == 0;
      }
    }
  }

  /** The store after the groups of `ids` have been handled in turn. `clock`
      is the time at which the scan gets to a workspace. */
  function Scanned(store: seq<Pod>, items: seq<Pod>, ids: seq<string>,
                   clock: string -> int, stamp: string, faults: Faults): seq<Pod>
  {
    if ids == [] then store
    else
      var id := ids[|ids| - 1];
      CarryOut(Scanned(store, items, ids[..|ids| - 1], clock, stamp, faults),
               Decide(Filter(HasId(id), items), clock(id), stamp), faults)
  }

  /** The scan's own copy of the decision, for one group. */
  method CleanUpGroup(cluster: Cluster, group: seq<Pod>, now: int, stamp: string)
    modifies cluster
    ensures cluster.pods == CarryOut(old(cluster.pods), Decide(group, now, stamp), cluster.faults)
  {
    if |group| <= 1 {
      return;
    }
    var pods := new Pod[|group|](i requires 0 <= i < |group| => group[i]);
    assert pods[..] == group;
    SortInPlace(NewestFirst, pods);
    SortSameElements(NewestFirst, group);
    var newPod, oldPod := pods[0], pods[1];
    assert newPod == pods[..][0] && oldPod == pods[..][1];
    if newPod.Ready() {
      cluster.DeletePod(oldPod.name);
    } else if now - newPod.created > READY_TIMEOUT_MS {
      var noted := oldPod.annotations[UPGRADE_ERROR := UpgradeError(stamp, newPod)];
      cluster.PatchPod(Patch(oldPod.name, noted));
      cluster.DeletePod(newPod.name);
    }
  }

  lemma ScanStep(store: seq<Pod>, items: seq<Pod>, ids: seq<string>, k: nat,
                 clock: string -> int, stamp: string, faults: Faults)
    requires k < |ids|
    ensures Scanned(store, items, ids[..k + 1], clock, stamp, faults) ==
            CarryOut(Scanned(store, items, ids[..k], clock, stamp, faults),
                     Decide(Filter(HasId(ids[k]), items), clock(ids[k]), stamp), faults)
  {
    assert ids[..k + 1][..k] == ids[..k];
  }

  method ReconcileUpgradingWorkspaces(cluster: Cluster, clock: string -> int, stamp: string)
    modifies cluster
    ensures var items := Filter(IsWorkspacePod, old(cluster.pods));
            cluster.pods == Scanned(old(cluster.pods), items, Ids(items), clock, stamp, cluster.faults)
  {
    ghost var store := cluster.pods;
    var items := cluster.List(IsWorkspacePod);
    ghost var listed := items[..];
    var ids, groups := GroupByWorkspace(items);
    var k := 0;
    while k < |ids|
      invariant 0 <= k <= |ids|
      invariant cluster.pods == Scanned(store, listed, ids[..k], clock, stamp, cluster.faults)
    {
      ScanStep(store, listed, ids, k, clock, stamp, cluster.faults);
      CleanUpGroup(cluster, groups[ids[k]], clock(ids[k]), stamp);
      k := k + 1;
    }
    assert ids[..k] == ids;
  }

  // ----- the scan against the on-demand reconcile

  lemma {:induction false} FilterTwice(f: Pod -> bool, g: Pod -> bool, s: seq<Pod>)
    ensures Filter(f, Filter(g, s)) == Filter(g, Filter(f, s))
  {
    if s != [] {
      var front, last := s[..|s| - 1], s[|s| - 1];
      FilterTwice(f, g, front);
      FilterAppend(f, Filter(g, front), last);
      FilterAppend(g, Filter(f, front), last);
    }
  }

  lemma {:induction false} GroupIsMembers(id: string, store: seq<Pod>)
    ensures Filter(HasId(id), Filter(IsWorkspacePod, store)) == Filter(Member(id), store)
  {
    if store != [] {
      GroupIsMembers(id, store[..|store| - 1]);
      FilterAppend(HasId(id), Filter(IsWorkspacePod, store[..|store| - 1]), store[|store| - 1]);
    }
  }

  lemma {:induction false} MembersPatched(id: string, s: seq<Pod>, patch: Patch)
    ensures Filter(Member(id), Patched(s, patch)) == Patched(Filter(Member(id), s), patch)
  {
    if s != [] {
      var front, last := s[..|s| - 1], s[|s| - 1];
      MembersPatched(id, front, patch);
      assert Patched(s, patch)[..|s| - 1] == Patched(front, patch);
    }
  }

  /** Carrying out a decision and looking at one workspace commute. */
  lemma MembersCarryOut(id: string, s: seq<Pod>, d: Decision, faults: Faults)
    ensures Filter(Member(id), CarryOut(s, d, faults)) == CarryOut(Filter(Member(id), s), d, faults)
  {
    var patched := s;
    if d.patch.Some? && d.patch.value.pod !in faults.patches {
      MembersPatched(id, s, d.patch.value);
      patched := Patched(s, d.patch.value);
    }
    if d.delete.Some? && d.delete.value !in faults.deletes {
      FilterTwice(Member(id), NotNamed(d.delete.value), patched);
    }
  }

  predicate Targets(d: Decision, name: string) {
    (d.patch.Some? && d.patch.value.pod == name) || d.delete == Some(name)
  }

  lemma CarryOutElsewhere(s: seq<Pod>, d: Decision, faults: Faults)
    requires forall p :: p in s ==> !Targets(d, p.name)
    ensures CarryOut(s, d, faults) == s
  {
    if d.patch.Some? {
      forall i | 0 <= i < |s| ensures Patched(s, d.patch.value)[i] == s[i] {
        assert s[i] in s;
      }
      assert Patched(s, d.patch.value) == s;
    }
    if d.delete.Some? {
      WithoutAbsent(s, d.delete.value);
    }
  }

  lemma DecideTargetsItsPods(pods: seq<Pod>, now: int, stamp: string, name: string)
    requires Targets(Decide(pods, now, stamp), name)
    ensures exists p :: p in pods && p.name == name
  {
    NewestTwo(pods);
  }

  lemma NamesLeft(s: seq<Pod>, d: Decision, faults: Faults, q: Pod)
    requires q in CarryOut(s, d, faults)
    ensures exists p :: p in s && p.name == q.name
  {
    var patched := if d.patch.Some? && d.patch.value.pod !in faults.patches
                   then Patched(s, d.patch.value) else s;
    if d.delete.Some? {
      WithoutIn(patched, d.delete.value);
    }
    assert q in patched;
    var i :| 0 <= i < |patched| && patched[i] == q;
    assert s[i] in s && s[i].name == q.name;
  }

  /** The pods of two workspaces never share a name within a namespace. */
  lemma OtherWorkspaceOtherName(store: seq<Pod>, a: string, b: string, p: Pod, q: Pod)
    requires UniqueNames(store) && a != b
    requires p in Filter(Member(a), store) && q in Filter(Member(b), store)
    ensures p.name != q.name
  {
    FilterIn(Member(a), store);
    FilterIn(Member(b), store);
    var i :| 0 <= i < |store| && store[i] == p;
    var j :| 0 <= j < |store| && store[j] == q;
  }

  /** The pods an on-demand reconcile of workspace `id` alone would leave it. */
  function OnDemand(store: seq<Pod>, id: string, clock: string -> int, stamp: string, faults: Faults): seq<Pod> {
    var listed := Filter(Member(id), store);
    CarryOut(listed, Decide(listed, clock(id), stamp), faults)
  }

  lemma {:induction false} ScannedSoFar(store: seq<Pod>, ids: seq<string>, id: string,
                                        clock: string -> int, stamp: string, faults: Faults)
    requires UniqueNames(store)
    requires forall i, j :: 0 <= i < j < |ids| ==> ids[i] != ids[j]
    ensures Filter(Member(id), Scanned(store, Filter(IsWorkspacePod, store), ids, clock, stamp, faults)) ==
            if id in ids then OnDemand(store, id, clock, stamp, faults) else Filter(Member(id), store)
  {
    if ids != [] {
      var front, last := ids[..|ids| - 1], ids[|ids| - 1];
      assert ids == front + [last];
      ScannedSoFar(store, front, id, clock, stamp, faults);
      GroupIsMembers(last, store);
      var before := Scanned(store, Filter(IsWorkspacePod, store), front, clock, stamp, faults);
      var group := Filter(Member(last), store);
      var d := Decide(group, clock(last), stamp);
      MembersCarryOut(id, before, d, faults);
      if id != last {
        var mine := Filter(Member(id), before);
        forall q | q in mine ensures !Targets(d, q.name) {
          if Targets(d, q.name) {
            DecideTargetsItsPods(group, clock(last), stamp, q.name);
            var p :| p in group && p.name == q.name;
            var o := q;
            if id in front {
              var listed := Filter(Member(id), store);
              NamesLeft(listed, Decide(listed, clock(id), stamp), faults, q);
              o :| o in listed && o.name == q.name;
            }
            OtherWorkspaceOtherName(store, last, id, p, o);
          }
        }
        CarryOutElsewhere(mine, d, faults);
      }
    }
  }

  /** One pass of the scan does to every workspace exactly what listing that
      workspace would have done: same deletion, same note on the old pod. */
  lemma ScanEqualsOnDemand(store: seq<Pod>, id: string, clock: string -> int, stamp: string, faults: Faults)
    requires UniqueNames(store) && id != ""
    ensures var items := Filter(IsWorkspacePod, store);
            Filter(Member(id), Scanned(store, items, Ids(items), clock, stamp, faults)) ==
            OnDemand(store, id, clock, stamp, faults)
  {
    var items := Filter(IsWorkspacePod, store);
    IdsAreDistinct(items);
    ScannedSoFar(store, Ids(items), id, clock, stamp, faults);
    var listed := Filter(Member(id), store);
    if listed != [] {
      FilterIn(IsWorkspacePod, store);
      FilterIn(Member(id), store);
      assert listed[0] in listed && listed[0] in items && listed[0].WorkspaceId() == id;
    }
  }

  lemma {:induction false} MembersUnique(store: seq<Pod>, keep: Pod -> bool)
    requires UniqueNames(store)
    ensures UniqueNames(Filter(keep, store))
  {
    if store != [] {
      var front, last := store[..|store| - 1], store[|store| - 1];
      MembersUnique(front, keep);
      FilterIn(keep, front);
      forall i | 0 <= i < |Filter(keep, front)| ensures Filter(keep, front)[i].name != last.name {
        assert Filter(keep, front)[i] in front;
      }
    }
  }

  /** A pass takes at most one pod from a workspace, and never its last one. */
  lemma ScanSparesEveryWorkspace(store: seq<Pod>, id: string, clock: string -> int, stamp: string, faults: Faults)
    requires UniqueNames(store) && id != ""
    ensures var items := Filter(IsWorkspacePod, store);
            var had := Filter(Member(id), store);
            var has := Filter(Member(id), Scanned(store, items, Ids(items), clock, stamp, faults));
            && |had| - 1 <= |has| <= |had|
            && (had != [] ==> has != [])
  {
    ScanEqualsOnDemand(store, id, clock, stamp, faults);
    MembersUnique(store, Member(id));
    DecideSparesOne(Filter(Member(id), store), clock(id), stamp, faults);
  }
}
