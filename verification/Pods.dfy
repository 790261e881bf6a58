/** Workspace pods as the spawner sees them, and the pod both proxies route to. */
module Pods {
  import opened Sorting

  datatype Option<+T> = None | Some(value: T)
  {
    function GetOr(default: T): T {
      match this case Some(v) => v case None => default
    }
  }

  datatype Phase = Pending | Running | Succeeded | Failed | Unknown

  /** First container status of a pod, where error details come from. */
  datatype ContainerState =
    | NoState
    | Waiting(reason: string, message: string)
    | Terminated(reason: string, message: string)

  datatype Pod = Pod(
    name: string,
    labels: map<string, string>,
    annotations: map<string, string>,
    created: int,          // creation timestamp in milliseconds, 0 when absent
    phase: Phase,
    podIP: string,         // "" until the scheduler has assigned one
    state: ContainerState)
  {
    /** Running and reachable: the test the workers, the reconcilers and the proxies share. */
    predicate Ready() { phase.Running? && podIP != "" }

    predicate IsWorkspace() { Lookup(labels, TYPE) == "workspace" }

    function WorkspaceId(): string { Lookup(labels, WORKSPACE_ID) }

    function Owner(): string { Lookup(labels, USER_SUB) }
  }

  const TYPE := "nogoo9/type"
  const WORKSPACE_ID := "nogoo9/workspace-id"
  const USER_SUB := "nogoo9/user-sub"
  const MANAGED_BY := "nogoo9/managed-by"

  /** A missing key reads like the empty string: both are falsy in the source. */
  function Lookup(m: map<string, string>, key: string): string {
    if key in m then m[key] else ""
  }

  predicate NewestFirst(a: Pod, b: Pod) { a.created >= b.created }

  lemma NewestFirstIsPreorder()
    ensures TotalPreorder(NewestFirst)
  {
  }

  function NotNamed(name: string): Pod -> bool { (p: Pod) => p.name != name }

  function Without(pods: seq<Pod>, name: string): seq<Pod> { Filter(NotNamed(name), pods) }

  ghost predicate UniqueNames(pods: seq<Pod>) {
    forall i, j :: 0 <= i < j < |pods| ==> pods[i].name != pods[j].name
  }

  lemma {:induction false} WithoutAbsent(pods: seq<Pod>, name: string)
    requires forall p :: p in pods ==> p.name != name
    ensures Without(pods, name) == pods
  {
    if pods != [] {
      var front := pods[..|pods| - 1];
      WithoutAbsent(front, name);
      assert pods[|pods| - 1] in pods;
      assert pods == front + [pods[|pods| - 1]];
    }
  }

  lemma WithoutIn(pods: seq<Pod>, name: string)
    ensures forall p :: p in Without(pods, name) <==> p in pods && p.name != name
  {
    FilterIn(NotNamed(name), pods);
  }

  /** Deleting a pod of a list without name clashes takes out exactly that one. */
  lemma {:induction false} WithoutOne(pods: seq<Pod>, name: string)
    requires UniqueNames(pods) && exists p :: p in pods && p.name == name
    ensures |Without(pods, name)| == |pods| - 1
    ensures UniqueNames(Without(pods, name))
  {
    var front, last := pods[..|pods| - 1], pods[|pods| - 1];
    assert pods == front + [last];
    WithoutIn(front, name);
    if last.name == name {
      WithoutAbsent(front, name);
    } else {
      WithoutOne(front, name);
      forall i | 0 <= i < |Without(front, name)| ensures Without(front, name)[i].name != last.name {
        assert Without(front, name)[i] in front;
      }
    }
  }

  // ----- a list of pods as a store by name

  ghost function NamesOf(pods: seq<Pod>): set<string> { set p | p in pods :: p.name }

  ghost predicate NameTaken(pods: seq<Pod>, name: string) { exists p :: p in pods && p.name == name }

  ghost function PodNamed(pods: seq<Pod>, name: string): (p: Pod)
    requires name in NamesOf(pods)
    ensures p in pods && p.name == name
  {
    var p :| p in pods && p.name == name; p
  }

  ghost function ByName(pods: seq<Pod>): map<string, Pod>
    requires UniqueNames(pods)
  {
    map n | n in NamesOf(pods) :: PodNamed(pods, n)
  }

  lemma SameNameSamePod(store: seq<Pod>, p: Pod, q: Pod)
    requires UniqueNames(store) && p in store && q in store && p.name == q.name
    ensures p == q
  {
    var i :| 0 <= i < |store| && store[i] == p;
    var j :| 0 <= j < |store| && store[j] == q;
  }

  lemma ByNameHolds(pods: seq<Pod>, p: Pod)
    requires UniqueNames(pods)
    ensures p in pods <==> p.name in ByName(pods) && ByName(pods)[p.name] == p
  {
    if p in pods {
      SameNameSamePod(pods, p, PodNamed(pods, p.name));
    }
  }

  lemma ByNameGrows(pods: seq<Pod>, pod: Pod)
    requires UniqueNames(pods) && !NameTaken(pods, pod.name)
    ensures UniqueNames(pods + [pod]) && pod.name !in ByName(pods)
    ensures ByName(pods + [pod]) == ByName(pods)[pod.name := pod]
  {
    var more := pods + [pod];
    forall i, j | 0 <= i < j < |more| ensures more[i].name != more[j].name {
      assert more[i] in pods;
    }
    forall n | n in NamesOf(pods) ensures ByName(more)[n] == ByName(pods)[n] {
      ByNameHolds(more, PodNamed(pods, n));
    }
    ByNameHolds(more, pod);
    assert NamesOf(more) == NamesOf(pods) + {pod.name};
  }

  /** Deleting by name. */
  lemma ByNameWithout(pods: seq<Pod>, name: string)
    requires UniqueNames(pods)
    ensures UniqueNames(Without(pods, name)) && ByName(Without(pods, name)) == ByName(pods) - {name}
  {
    var left := Without(pods, name);
    WithoutIn(pods, name);
    if NameTaken(pods, name) { WithoutOne(pods, name); } else { WithoutAbsent(pods, name); }
    forall n | n in NamesOf(pods) && n != name ensures n in NamesOf(left) && ByName(left)[n] == ByName(pods)[n] {
      var p := PodNamed(pods, n);
      assert p in left;
      ByNameHolds(left, p);
    }
    forall n | n in NamesOf(left) ensures n in NamesOf(pods) && n != name {
      assert PodNamed(left, n) in pods;
    }
  }

  function FirstReady(pods: seq<Pod>): Option<Pod> {
    if pods == [] then None
    else if pods[0].Ready() then Some(pods[0])
    else FirstReady(pods[1..])
  }

  /** The pod a request for the workspace goes to. */
  function RoutingPod(items: seq<Pod>): Pod
    requires items != []
  {
    SortSameElements(NewestFirst, items);
    var sorted := Sort(NewestFirst, items);
    match FirstReady(sorted)
    case Some(p) => p
    case None => sorted[0]
  }

  method SelectRoutingPod(items: array<Pod>) returns (pod: Pod)
    requires items.Length > 0
    modifies items
    ensures pod == RoutingPod(old(items[..]))
    ensures items[..] == Sort(NewestFirst, old(items[..]))
  {
    ghost var listed := items[..];
    SortInPlace(NewestFirst, items);
    SortSameElements(NewestFirst, listed);
    var i := 0;
    while i < items.Length
      invariant 0 <= i <= items.Length
      invariant FirstReady(items[..]) == FirstReady(items[i..])
    {
      if items[i].Ready() {
        return items[i];
      }
      assert items[i..][1..] == items[i + 1..];
      i := i + 1;
    }
    return items[0];
  }

  lemma {:induction false} FirstReadyMeaning(pods: seq<Pod>)
    ensures FirstReady(pods).None? ==> forall p :: p in pods ==> !p.Ready()
    ensures FirstReady(pods).Some? ==>
              exists i :: 0 <= i < |pods| && pods[i] == FirstReady(pods).value && pods[i].Ready() &&
                          forall k :: 0 <= k < i ==> !pods[k].Ready()
  {
    if pods != [] && !pods[0].Ready() {
      FirstReadyMeaning(pods[1..]);
      if FirstReady(pods).Some? {
        var i :| 0 <= i < |pods[1..]| && pods[1..][i] == FirstReady(pods).value && pods[1..][i].Ready() &&
                 forall k :: 0 <= k < i ==> !pods[1..][k].Ready();
        assert pods[i + 1] == FirstReady(pods).value;
        forall k | 0 <= k < i + 1 ensures !pods[k].Ready() {
          if k > 0 { assert pods[k] == pods[1..][k - 1]; }
        }
      }
    }
  }

  /** What the sort-and-find of the proxies amounts to: the newest ready pod,
      or the newest pod of all while none is ready. */
  lemma RoutingPodIsNewestReady(items: seq<Pod>)
    requires items != []
    ensures var r := RoutingPod(items);
            var ready := (p: Pod) => p.phase == Running && p.podIP != "";
            && r in items
            && (ready(r) <==> exists p :: p in items && ready(p))
            && forall p :: p in items && (ready(p) || !ready(r)) ==> p.created <= r.created
  {
    var sorted := Sort(NewestFirst, items);
    var r := RoutingPod(items);
    SortSameElements(NewestFirst, items);
    NewestFirstIsPreorder();
    SortSorts(NewestFirst, items);
    FirstReadyMeaning(sorted);
    if FirstReady(sorted).Some? {
      var i :| 0 <= i < |sorted| && sorted[i] == r && r.Ready() && forall k :: 0 <= k < i ==> !sorted[k].Ready();
      forall p | p in items && p.Ready() ensures p.created <= r.created {
        assert p in sorted;
        var j :| 0 <= j < |sorted| && sorted[j] == p;
        assert i < j ==> NewestFirst(sorted[i], sorted[j]);
      }
    } else {
      forall p | p in items ensures p.created <= r.created {
        assert p in sorted;
        var j :| 0 <= j < |sorted| && sorted[j] == p;
        assert 0 < j ==> NewestFirst(sorted[0], sorted[j]);
      }
    }
  }
}
