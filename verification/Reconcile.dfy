/** The clean-up of an upgrade in transition: the reconcile that runs when a
    workspace is listed or read, the scan that runs at start-up, and what they
    leave behind when they are repeated. */
module Reconcile {
  import opened Sorting
  import opened Pods

  const READY_TIMEOUT_MS := 600000

  const UPGRADE_ERROR := "nogoo9/last-upgrade-error"

  /** A merge patch of a pod's annotations. */
  datatype Patch = Patch(pod: string, annotations: map<string, string>)

  datatype Decision = Decision(
    active: Option<Pod>,
    transitioning: bool,
    patch: Option<Patch>,
    delete: Option<string>)

  function ErrorDetails(p: Pod): string {
    match p.state
    case Waiting(reason, message) => reason + ": " + message
    case Terminated(reason, message) => reason + ": " + message
    case NoState => "Upgrade timed out waiting for pod readiness"
  }

  function UpgradeError(stamp: string, failed: Pod): string {
    "Upgrade failed at " + stamp + ": " + ErrorDetails(failed)
  }

  /** Compares the two newest pods of a workspace. */
  function Decide(pods: seq<Pod>, now: int, stamp: string): Decision {
    if pods == [] then Decision(None, false, None, None)
    else if |pods| == 1 then Decision(Some(pods[0]), false, None, None)
    else
      SortSameElements(NewestFirst, pods);
      var sorted := Sort(NewestFirst, pods);
      var newPod, oldPod := sorted[0], sorted[1];
      if newPod.Ready() then
        Decision(Some(newPod), false, None, Some(oldPod.name))
      else if now - newPod.created > READY_TIMEOUT_MS then
        Decision(Some(oldPod), false,
                 Some(Patch(oldPod.name, oldPod.annotations[UPGRADE_ERROR := UpgradeError(stamp, newPod)])),
                 Some(newPod.name))
      else
        Decision(Some(oldPod), true, None, None)
  }

  function Patched(pods: seq<Pod>, patch: Patch): (r: seq<Pod>)
    ensures |r| == |pods|
    ensures forall i :: 0 <= i < |pods| ==>
                          r[i] == if pods[i].name == patch.pod
                                  then pods[i].(annotations := pods[i].annotations + patch.annotations)
                                  else pods[i]
  {
    seq(|pods|, i requires 0 <= i < |pods| =>
      if pods[i].name == patch.pod then pods[i].(annotations := pods[i].annotations + patch.annotations)
      else pods[i])
  }

  /** Requests the API server turns down: both kinds of failure are only logged. */
  datatype Faults = Faults(patches: set<string>, deletes: set<string>)

  /** The pods of the namespace once a decision has been carried out. */
  function CarryOut(pods: seq<Pod>, d: Decision, faults: Faults): seq<Pod> {
    var patched := if d.patch.Some? && d.patch.value.pod !in faults.patches
                   then Patched(pods, d.patch.value) else pods;
    if d.delete.Some? && d.delete.value !in faults.deletes
    then Without(patched, d.delete.value) else patched
  }

  /** The Kubernetes API as an atomic store of pods. */
  class Cluster {
    var pods: seq<Pod>
    const faults: Faults

    constructor (pods: seq<Pod>, faults: Faults)
      ensures this.pods == pods && this.faults == faults
    {
      this.pods := pods;
      this.faults := faults;
    }

    method List(keep: Pod -> bool) returns (items: array<Pod>)
      ensures fresh(items) && items[..] == Filter(keep, pods)
    {
      var found := Filter(keep, pods);
      items := new Pod[|found|](i requires 0 <= i < |found| => found[i]);
      assert items[..] == found;
    }

    /** A name that is taken is refused; `accepted` is what the API says otherwise. */
    method CreatePod(pod: Pod, accepted: bool) returns (created: bool)
      modifies this
      ensures created == (accepted && forall p :: p in old(pods) ==> p.name != pod.name)
      ensures pods == if created then old(pods) + [pod] else old(pods)
    {
      var i := 0;
      while i < |pods|
        invariant 0 <= i <= |pods| && forall k :: 0 <= k < i ==> pods[k].name != pod.name
      {
        if pods[i].name == pod.name {
          return false;
        }
        i := i + 1;
      }
      created := accepted;
      if created {
        pods := pods + [pod];
      }
    }

    method PatchPod(patch: Patch)
      modifies this
      ensures pods == if patch.pod in faults.patches then old(pods) else Patched(old(pods), patch)
    {
      if patch.pod !in faults.patches {
        pods := Patched(pods, patch);
      }
    }

    method DeletePod(name: string)
      modifies this
      ensures pods == if name in faults.deletes then old(pods) else Without(old(pods), name)
    {
      if name !in faults.deletes {
        pods := Without(pods, name);
      }
    }
  }

  /** The on-demand reconcile of the pods listed for one workspace. */
  method ReconcileUpgradeTransition(cluster: Cluster, pods: array<Pod>, now: int, stamp: string)
    returns (active: Option<Pod>, transitioning: bool)
    modifies cluster, pods
    ensures var d := Decide(old(pods[..]), now, stamp);
            && active == d.active && transitioning == d.transitioning
            && cluster.pods == CarryOut(old(cluster.pods), d, cluster.faults)
    ensures forall i: nat, j: nat :: TwoNewest(old(pods[..]), i, j) ==>
              var newest, second := old(pods[..])[i], old(pods[..])[j];
              var ready := newest.phase == Running && newest.podIP != "";
              && active == Some(if ready then newest else second)
              && (transitioning <==> !ready && now - newest.created <= 600000)
              && (transitioning ==> cluster.pods == old(cluster.pods))
    ensures multiset(pods[..]) == multiset(old(pods[..]))
  {
    forall i: nat, j: nat | TwoNewest(pods[..], i, j) ensures Decides(pods[..], Decide(pods[..], now, stamp), now, i, j) {
      DecisionMeaning(pods[..], now, stamp, i, j);
    }
    ghost var listed := pods[..];
    if pods.Length <= 1 {
      return if pods.Length == 0 then None else Some(pods[0]), false;
    }
    SortInPlace(NewestFirst, pods);
    SortPermutes(NewestFirst, listed);
    SortSameElements(NewestFirst, listed);
    var newPod, oldPod := pods[0], pods[1];
    assert newPod == pods[..][0] && oldPod == pods[..][1];
    if newPod.Ready() {
      cluster.DeletePod(oldPod.name);
      return Some(newPod), false;
    }
    if now - newPod.created > READY_TIMEOUT_MS {
      var noted := oldPod.annotations[UPGRADE_ERROR := UpgradeError(stamp, newPod)];
      cluster.PatchPod(Patch(oldPod.name, noted));
      cluster.DeletePod(newPod.name);
      return Some(oldPod), false;
    }
    return Some(oldPod), true;
  }

  // ----- what a decision can do to the pods it looked at

  lemma NewestTwo(pods: seq<Pod>)
    requires |pods| >= 2
    ensures var s := Sort(NewestFirst, pods);
            && |s| == |pods| && s[0] in pods && s[1] in pods
            && s[0].created >= s[1].created
            && (forall p :: p in pods ==> p.created <= s[0].created)
            && (UniqueNames(pods) ==> s[0].name != s[1].name)
  {
    var s := Sort(NewestFirst, pods);
    SortSameElements(NewestFirst, pods);
    NewestFirstIsPreorder();
    SortSorts(NewestFirst, pods);
    assert NewestFirst(s[0], s[1]);
    forall p | p in pods ensures p.created <= s[0].created {
      assert p in s;
      var j :| 0 <= j < |s| && s[j] == p;
      assert j == 0 || NewestFirst(s[0], s[j]);
    }
    if UniqueNames(pods) {
      SortPermutes(NewestFirst, pods);
      UniqueNamesPermute(pods, s);
    }
  }

  lemma UniqueNamesPermute(a: seq<Pod>, b: seq<Pod>)
    requires UniqueNames(a) && multiset(a) == multiset(b)
    ensures UniqueNames(b)
  {
    forall i, j | 0 <= i < j < |b| ensures b[i].name != b[j].name {
      if b[i].name == b[j].name {
        assert b[i] in multiset(a) && b[j] in multiset(a);
        assert b[i] in a && b[j] in a;
        var k :| 0 <= k < |a| && a[k] == b[i];
        var l :| 0 <= l < |a| && a[l] == b[j];
        assert k == l;
        Twice(b, i, j);
        Once(a, k);
        assert false;
      }
    }
  }

  lemma Twice(s: seq<Pod>, i: nat, j: nat)
    requires i < j < |s| && s[i] == s[j]
    ensures multiset(s)[s[i]] >= 2
  {
    assert s == s[..j] + [s[j]] + s[j + 1..];
    assert s[i] in s[..j];
    assert s[i] in multiset(s[..j]);
  }

  lemma Once(s: seq<Pod>, k: nat)
    requires k < |s| && UniqueNames(s)
    ensures multiset(s)[s[k]] == 1
  {
    assert s == s[..k] + [s[k]] + s[k + 1..];
    assert s[k] !in s[..k] && s[k] !in s[k + 1..];
    assert multiset(s[..k])[s[k]] == 0 && multiset(s[k + 1..])[s[k]] == 0;
  }

  /** The pod at `i` was created later than the one at `j`, or at the same time and is
      listed before it. */
  predicate Ahead(pods: seq<Pod>, i: nat, j: nat)
    requires i < |pods| && j < |pods|
  {
    pods[i].created > pods[j].created || (pods[i].created == pods[j].created && i < j)
  }

  /** The newest pod is listed at `i`, and the newest of the others at `j`. */
  ghost predicate TwoNewest(pods: seq<Pod>, i: nat, j: nat) {
    && i < |pods| && j < |pods| && Ahead(pods, i, j)
    && forall k: nat :: k < |pods| && k != i && k != j ==> Ahead(pods, j, k)
  }

  lemma {:induction false} InsertFront(s: seq<Pod>, x: Pod)
    requires Sorted(NewestFirst, s) && s != []
    ensures var r := Insert(NewestFirst, s, x);
            && |r| == |s| + 1
            && r[0] == (if x.created > s[0].created then x else s[0])
            && r[1] == if x.created > s[0].created then s[0] else if |s| == 1 || x.created > s[1].created then x else s[1]
  {
    var front, last := s[..|s| - 1], s[|s| - 1];
    if !NewestFirst(last, x) && front != [] {
      InsertFront(front, x);
      assert |s| > 2 ==> NewestFirst(s[1], last);
    } else if front != [] {
      assert NewestFirst(s[0], last) && (|s| > 2 ==> NewestFirst(s[1], last));
    }
  }

  /** A listing of at least two pods has two such pods, and the sort puts them first. */
  lemma {:induction false} TwoNewestSorted(pods: seq<Pod>) returns (i: nat, j: nat)
    requires |pods| >= 2
    ensures TwoNewest(pods, i, j)
    ensures var s := Sort(NewestFirst, pods); |s| == |pods| && s[0] == pods[i] && s[1] == pods[j]
  {
    var n := |pods| - 1;
    var front, x := pods[..n], pods[n];
    SortSameElements(NewestFirst, pods);
    SortSameElements(NewestFirst, front);
    NewestFirstIsPreorder();
    SortSorts(NewestFirst, front);
    InsertFront(Sort(NewestFirst, front), x);
    if n == 1 {
      assert front[..0] == [] && Sort(NewestFirst, front) == [pods[0]];
      i, j := if x.created > pods[0].created then 1 else 0, if x.created > pods[0].created then 0 else 1;
    } else {
      var a, b := TwoNewestSorted(front);
      i := if x.created > pods[a].created then n else a;
      j := if x.created > pods[a].created then a else if x.created > pods[b].created then n else b;
      forall k: nat | k < |pods| && k != i && k != j ensures Ahead(pods, j, k) {
        if k < n && k != a && k != b { assert Ahead(front, b, k); }
      }
      assert Ahead(front, a, b);
    }
  }

  lemma FirstTwo(pods: seq<Pod>, i: nat, j: nat)
    requires TwoNewest(pods, i, j)
    ensures forall k: nat :: k < |pods| ==> (Ahead(pods, i, k) <==> k != i)
    ensures forall k: nat :: k < |pods| && k != i ==> (Ahead(pods, j, k) <==> k != j)
  {
    forall k: nat | k < |pods| && k != i && k != j ensures Ahead(pods, i, k) && Ahead(pods, j, k) {
      assert Ahead(pods, j, k);
    }
  }

  lemma SortedTwo(pods: seq<Pod>, i: nat, j: nat)
    requires TwoNewest(pods, i, j)
    ensures var s := Sort(NewestFirst, pods); |s| == |pods| && s[0] == pods[i] && s[1] == pods[j]
  {
    var a, b := TwoNewestSorted(pods);
    FirstTwo(pods, i, j);
    FirstTwo(pods, a, b);
    assert Ahead(pods, i, a) <==> a != i;
    assert Ahead(pods, a, i) <==> a != i;
    assert Ahead(pods, j, b) <==> b != j;
    assert Ahead(pods, b, j) <==> b != j;
  }

  ghost predicate Decides(pods: seq<Pod>, d: Decision, now: int, i: nat, j: nat)
    requires TwoNewest(pods, i, j)
  {
    var ready := pods[i].phase == Running && pods[i].podIP != "";
    && d.active == Some(if ready then pods[i] else pods[j])
    && (d.transitioning <==> !ready && now - pods[i].created <= 600000)
    && (d.transitioning ==> d.patch.None? && d.delete.None?)
  }

  /** What a reconcile decides on at least two pods, in terms of the newest and the
      second newest: the old one stays active, in transition, until the new one is running with an
      address or ten minutes have passed; then the one or the other goes, and in the latter
      case the old one is told why. */
  lemma DecisionMeaning(pods: seq<Pod>, now: int, stamp: string, i: nat, j: nat)
    requires TwoNewest(pods, i, j)
    ensures var d, newest, second := Decide(pods, now, stamp), pods[i], pods[j];
            var ready := newest.phase == Running && newest.podIP != "";
            var overdue := now - newest.created > 600000;
            && d.active == Some(if ready then newest else second)
            && (d.transitioning <==> !ready && !overdue)
            && d.delete == (if ready then Some(second.name) else if overdue then Some(newest.name) else None)
            && (d.patch.Some? <==> !ready && overdue)
            && (d.patch.Some? ==>
                  && d.patch.value.pod == second.name
                  && d.patch.value.annotations ==
                     second.annotations["nogoo9/last-upgrade-error" := "Upgrade failed at " + stamp + ": " + ErrorDetails(newest)])
  {
    SortedTwo(pods, i, j);
  }

  /** A workspace with one pod or none is never in transition. */
  lemma FewPodsStay(pods: seq<Pod>, now: int, stamp: string)
    requires |pods| <= 1
    ensures var d := Decide(pods, now, stamp);
            && d.active == (if pods == [] then None else Some(pods[0]))
            && !d.transitioning && d.patch.None? && d.delete.None?
  {
  }

  /** The reason is the first container's, while it waits or after it ended. */
  lemma ErrorDetailsMeaning(p: Pod, reason: string, message: string)
    ensures p.state in {Waiting(reason, message), Terminated(reason, message)} ==> ErrorDetails(p) == reason + ": " + message
    ensures p.state == NoState ==> ErrorDetails(p) == "Upgrade timed out waiting for pod readiness"
  {
  }

  /** A decision deletes at most one pod, only while another one remains, and
      never the pod it reports as active. */
  lemma DecideSparesOne(pods: seq<Pod>, now: int, stamp: string, faults: Faults)
    requires UniqueNames(pods)
    ensures var d := Decide(pods, now, stamp);
            var left := CarryOut(pods, d, faults);
            && |pods| - 1 <= |left| <= |pods| && UniqueNames(left)
            && (pods != [] ==> left != [])
            && (d.delete.Some? ==> |pods| >= 2 && exists p :: p in pods && p.name == d.delete.value)
            && (d.active.Some? ==> exists p :: p in left && p.name == d.active.value.name)
  {
    var d := Decide(pods, now, stamp);
    if |pods| >= 2 {
      NewestTwo(pods);
      CarryOutSparesOthers(pods, d, faults);
    } else if |pods| == 1 {
      assert pods[0] in pods;
    }
  }

  lemma CarryOutSparesOthers(pods: seq<Pod>, d: Decision, faults: Faults)
    requires UniqueNames(pods) && d.active.Some? && d.active.value in pods
    requires d.delete.Some? ==> d.delete.value != d.active.value.name && exists p :: p in pods && p.name == d.delete.value
    ensures var left := CarryOut(pods, d, faults);
            && |pods| - 1 <= |left| <= |pods| && UniqueNames(left)
            && exists p :: p in left && p.name == d.active.value.name
  {
    var patched := if d.patch.Some? && d.patch.value.pod !in faults.patches
                   then Patched(pods, d.patch.value) else pods;
    var a :| 0 <= a < |pods| && pods[a] == d.active.value;
    assert patched[a] in patched && patched[a].name == pods[a].name;
    if d.delete.Some? && d.delete.value !in faults.deletes {
      var p :| p in pods && p.name == d.delete.value;
      var b :| 0 <= b < |pods| && pods[b] == p;
      assert patched[b] in patched && patched[b].name == d.delete.value;
      WithoutOne(patched, d.delete.value);
      WithoutIn(patched, d.delete.value);
    }
    assert patched[a] in CarryOut(pods, d, faults);
  }

  // ----- the proxies and the reconcilers agree

  lemma WithoutAt(pods: seq<Pod>, i: nat)
    requires i < |pods| && UniqueNames(pods)
    ensures Without(pods, pods[i].name) == pods[..i] + pods[i + 1..]
  {
    var head, tail, name := pods[..i], pods[i + 1..], pods[i].name;
    assert pods == (head + [pods[i]]) + tail;
    FilterConcat(NotNamed(name), head + [pods[i]], tail);
    FilterAppend(NotNamed(name), head, pods[i]);
    WithoutAbsent(head, name);
    WithoutAbsent(tail, name);
  }

  lemma FirstReadyWithout(sorted: seq<Pod>, i: nat)
    requires i < |sorted|
    requires !sorted[i].Ready() || exists k :: 0 <= k < i && sorted[k].Ready()
    ensures FirstReady(sorted[..i] + sorted[i + 1..]) == FirstReady(sorted)
  {
    var head, tail := sorted[..i], sorted[i + 1..];
    assert sorted == head + sorted[i..];
    assert sorted[i..][1..] == tail;
    FirstReadyConcat(head, sorted[i..]);
    FirstReadyConcat(head, tail);
    if exists k :: 0 <= k < i && sorted[k].Ready() {
      var k :| 0 <= k < i && sorted[k].Ready();
      assert head[k].Ready() && head[k] in head;
      FirstReadyMeaning(head);
    }
  }

  lemma {:induction false} FirstReadyConcat(s: seq<Pod>, t: seq<Pod>)
    ensures FirstReady(s + t) == if FirstReady(s).Some? then FirstReady(s) else FirstReady(t)
  {
    if s == [] {
      assert s + t == t;
    } else {
      assert (s + t)[1..] == s[1..] + t;
      FirstReadyConcat(s[1..], t);
    }
  }

  /** Whatever a reconcile deletes, requests keep going to the same pod as long
      as some pod is ready: the proxies never see the clean-up. */
  lemma ReconcileKeepsRoutingPod(pods: seq<Pod>, now: int, stamp: string)
    requires UniqueNames(pods) && exists p :: p in pods && p.Ready()
    requires Decide(pods, now, stamp).delete.Some?
    ensures var left := Without(pods, Decide(pods, now, stamp).delete.value);
            left != [] && RoutingPod(left) == RoutingPod(pods)
  {
    var name := Decide(pods, now, stamp).delete.value;
    var left := Without(pods, name);
    var sorted := Sort(NewestFirst, pods);
    assert Sort(NewestFirst, left) == Without(sorted, name) by {
      NewestFirstIsPreorder();
      SortFilter(NewestFirst, NotNamed(name), pods);
    }
    assert UniqueNames(sorted) by {
      SortPermutes(NewestFirst, pods);
      UniqueNamesPermute(pods, sorted);
    }
    SortSameElements(NewestFirst, pods);
    var gone := if sorted[0].Ready() then 1 else 0;
    assert name == sorted[gone].name;
    WithoutAt(sorted, gone);
    FirstReadyWithout(sorted, gone);
    assert FirstReady(sorted).Some? by {
      var p :| p in pods && p.Ready();
      assert p in sorted;
      FirstReadyMeaning(sorted);
    }
    SortSameElements(NewestFirst, left);
    assert Sort(NewestFirst, left) != [];
  }
}
