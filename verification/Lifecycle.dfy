/** Spawning, upgrading, stopping and losing workspaces, with any number of calls
    in flight. Each step is one call to the Kubernetes API, so a check and the
    creation it is meant for can be separated by anything. */
module Lifecycle {
  import opened Sorting
  import opened Pods
  import opened Labels
  import opened Reconcile

  predicate IsActive(p: Pod) { !p.phase.Succeeded? && !p.phase.Failed? }

  /** What a handler in flight knows. */
  datatype Call =
    | SpawnStarted(id: string, owner: string, admin: bool)
    | SpawnUnique(id: string, owner: string, admin: bool)      // no pod of that id was listed
    | SpawnAdmitted(id: string, owner: string, admin: bool)    // and the quota was not used up
    | UpgradeCaptured(id: string, owner: string, oldName: string, pod: Pod)
    | Stopping(names: seq<string>)             // listed and still to be deleted
    | Over

  datatype State = State(pods: map<string, Pod>, calls: seq<Call>)

  datatype Step =
    | StartSpawn(id: string, owner: string, admin: bool)
    | CheckUnique(c: nat)
    | CheckQuota(c: nat)
    | CreateSpawned(c: nat, pod: Pod, accepted: bool)
    | StartUpgrade(oldName: string, caller: string, admin: bool, pod: Pod)
    | CreateUpgraded(c: nat, accepted: bool)
    | ListForStop(id: string, caller: string, unfiltered: bool, names: seq<string>)
    | DeleteListed(c: nat, accepted: bool)
    | Remove(name: string)           // by a reconcile, a worker or the cluster
    | Update(pod: Pod)

  function SpawnName(owner: string, id: string): string { "ws-" + owner + "-" + id }

  function Of(pods: map<string, Pod>, id: string): set<string> {
    set n | n in pods && pods[n].IsWorkspace() && pods[n].WorkspaceId() == id
  }

  function ActiveIds(pods: map<string, Pod>, owner: string): set<string> {
    set n | n in pods && pods[n].IsWorkspace() && pods[n].Owner() == owner && IsActive(pods[n])
            && pods[n].WorkspaceId() != "" :: pods[n].WorkspaceId()
  }

  /** The pods a caller's stop lists: those the caller owns, or everybody's for an
      administrator and for everybody while authentication is switched off. */
  function Stoppable(pods: map<string, Pod>, id: string, caller: string, unfiltered: bool): set<string> {
    set n | n in Of(pods, id) && (unfiltered || pods[n].Owner() == caller)
  }

  /** A listing shows every name once, in any order. */
  ghost predicate ListsNames(names: seq<string>, all: set<string>) {
    && (forall i, j :: 0 <= i < j < |names| ==> names[i] != names[j])
    && forall n :: n in names <==> n in all
  }

  /** The pod a spawn creates carries the spawner's labels over anybody's. */
  ghost predicate SpawnedPod(pod: Pod, id: string, owner: string) {
    && pod.name == SpawnName(owner, id)
    && exists spec, resolved, caller :: pod.labels == SpawnLabels(spec, resolved, caller, id, owner)
  }

  ghost predicate UpgradedPod(pod: Pod, oldPod: Pod, caller: string) {
    exists template, spec ::
      pod.labels == UpgradeLabels(template, oldPod.labels, spec, oldPod.WorkspaceId(),
                                  UpgradeOwner(oldPod.labels, oldPod.annotations, caller))
  }

  ghost predicate Enabled(s: State, step: Step) {
    match step
    case StartSpawn(id, owner, admin) => id != "" && owner != ""
    case CheckUnique(c) => c < |s.calls| && s.calls[c].SpawnStarted?
    case CheckQuota(c) => c < |s.calls| && s.calls[c].SpawnUnique?
    case CreateSpawned(c, pod, accepted) =>
      c < |s.calls| && s.calls[c].SpawnAdmitted? && SpawnedPod(pod, s.calls[c].id, s.calls[c].owner)
    case StartUpgrade(oldName, caller, admin, pod) =>
      && oldName in s.pods && s.pods[oldName].IsWorkspace() && s.pods[oldName].WorkspaceId() != ""
      && (admin || s.pods[oldName].Owner() == caller) && caller != ""
      && UpgradedPod(pod, s.pods[oldName], caller)
    case CreateUpgraded(c, accepted) => c < |s.calls| && s.calls[c].UpgradeCaptured?
    case ListForStop(id, caller, unfiltered, names) => ListsNames(names, Stoppable(s.pods, id, caller, unfiltered))
    case DeleteListed(c, accepted) => c < |s.calls| && s.calls[c].Stopping? && s.calls[c].names != []
    case Remove(name) => true
    case Update(pod) =>
      && pod.name in s.pods && pod.labels == s.pods[pod.name].labels
      && (IsActive(pod) ==> IsActive(s.pods[pod.name]))
  }

  /** `limit` is the maximum number of workspaces of a user, 0 for no limit. */
  function Do(limit: nat, s: State, step: Step): State
    requires Enabled(s, step)
  {
    match step
    case StartSpawn(id, owner, admin) => s.(calls := s.calls + [SpawnStarted(id, owner, admin)])
    case CheckUnique(c) =>
      var SpawnStarted(id, owner, admin) := s.calls[c];
      s.(calls := s.calls[c := if Of(s.pods, id) == {} then SpawnUnique(id, owner, admin) else Over])
    case CheckQuota(c) =>
      var SpawnUnique(id, owner, admin) := s.calls[c];
      s.(calls := s.calls[c :=
        if limit > 0 && !admin && |ActiveIds(s.pods, owner)| >= limit then Over else SpawnAdmitted(id, owner, admin)])
    case CreateSpawned(c, pod, accepted) =>
      // the API refuses a name that is taken
      State(if accepted && pod.name !in s.pods then s.pods[pod.name := pod] else s.pods, s.calls[c := Over])
    case StartUpgrade(oldName, caller, admin, pod) =>
      var oldPod := s.pods[oldName];
      s.(calls := s.calls + [UpgradeCaptured(oldPod.WorkspaceId(),
                                             UpgradeOwner(oldPod.labels, oldPod.annotations, caller), oldName, pod)])
    case CreateUpgraded(c, accepted) =>
      var pod := s.calls[c].pod;
      State(if accepted && pod.name !in s.pods then s.pods[pod.name := pod] else s.pods, s.calls[c := Over])
    case ListForStop(id, caller, _, names) =>
      s.(calls := s.calls + [if names == [] then Over else Stopping(names)])
    case DeleteListed(c, accepted) =>
      // a refusal, and a pod that is gone already, end the call
      var names := s.calls[c].names;
      if accepted && names[0] in s.pods
      then State(s.pods - {names[0]}, s.calls[c := if |names| == 1 then Over else Stopping(names[1..])])
      else s.(calls := s.calls[c := Over])
    case Remove(name) => s.(pods := s.pods - {name})
    case Update(pod) => s.(pods := s.pods[pod.name := pod])
  }

  /** Every pod sits under its own name and carries the spawner's labels. */
  ghost predicate Clean(s: State) {
    && (forall n :: n in s.pods ==> PodOk(n, s.pods[n]))
    && forall c :: 0 <= c < |s.calls| ==> CallOk(s.calls[c])
  }

  ghost predicate CallOk(call: Call) {
    match call
    case Over => true
    case Stopping(names) => names != []
    case UpgradeCaptured(id, owner, _, pod) => id != "" && owner != "" && Identity(pod.labels, id, owner)
    case _ => call.id != "" && call.owner != ""
  }

  ghost predicate IsRun(limit: nat, run: seq<State>, steps: seq<Step>) {
    && |run| == |steps| + 1 && Clean(run[0]) && run[0].calls == []
    && forall k :: 0 <= k < |steps| ==> Enabled(run[k], steps[k]) && run[k + 1] == Do(limit, run[k], steps[k])
  }

  lemma SpawnedIdentity(pod: Pod, id: string, owner: string)
    requires SpawnedPod(pod, id, owner)
    ensures Identity(pod.labels, id, owner)
  {
    var spec, resolved, caller :| pod.labels == SpawnLabels(spec, resolved, caller, id, owner);
    IdentityCannotBeOverridden(spec, resolved, caller, id, owner);
  }

  lemma UpgradedIdentity(pod: Pod, oldPod: Pod, caller: string)
    requires UpgradedPod(pod, oldPod, caller)
    ensures Identity(pod.labels, oldPod.WorkspaceId(), UpgradeOwner(oldPod.labels, oldPod.annotations, caller))
  {
    var owner := UpgradeOwner(oldPod.labels, oldPod.annotations, caller);
    var template, spec :| pod.labels == UpgradeLabels(template, oldPod.labels, spec, oldPod.WorkspaceId(), owner);
    IdentityCannotBeOverridden(template, oldPod.labels, spec, oldPod.WorkspaceId(), owner);
  }

  /** No step, and no label that anybody supplies, puts a pod into the cluster
      that is not labelled as a spawner's workspace with an id and an owner. */
  lemma StepKeepsClean(limit: nat, s: State, step: Step)
    requires Clean(s) && Enabled(s, step)
    ensures Clean(Do(limit, s, step))
  {
    StepKeepsPodsClean(limit, s, step);
    StepKeepsCallsOk(limit, s, step);
  }

  ghost predicate PodOk(n: string, p: Pod) {
    p.name == n && p.WorkspaceId() != "" && p.Owner() != "" && Identity(p.labels, p.WorkspaceId(), p.Owner())
  }

  lemma StepKeepsPodsClean(limit: nat, s: State, step: Step)
    requires Clean(s) && Enabled(s, step)
    ensures forall n :: n in Do(limit, s, step).pods ==> PodOk(n, Do(limit, s, step).pods[n])
  {
    if step.CreateSpawned? {
      assert CallOk(s.calls[step.c]);
      SpawnedIdentity(step.pod, s.calls[step.c].id, s.calls[step.c].owner);
    } else if step.CreateUpgraded? {
      assert CallOk(s.calls[step.c]);
    }
  }

  lemma StepKeepsCallsOk(limit: nat, s: State, step: Step)
    requires Clean(s) && Enabled(s, step)
    ensures forall c :: 0 <= c < |Do(limit, s, step).calls| ==> CallOk(Do(limit, s, step).calls[c])
  {
    var t := Do(limit, s, step);
    if step.StartUpgrade? { UpgradedIdentity(step.pod, s.pods[step.oldName], step.caller); }
    forall c | 0 <= c < |t.calls| ensures CallOk(t.calls[c]) {
      if c < |s.calls| { assert CallOk(s.calls[c]); }
    }
  }

  lemma {:induction false} RunKeepsClean(limit: nat, run: seq<State>, steps: seq<Step>, k: nat)
    requires IsRun(limit, run, steps) && k <= |steps|
    ensures Clean(run[k])
  {
    if k > 0 {
      RunKeepsClean(limit, run, steps, k - 1);
      StepKeepsClean(limit, run[k - 1], steps[k - 1]);
    }
  }

  // ----- the loops of the handlers

  /** The loop of the quota check. */
  method ActiveWorkspaceIds(items: array<Pod>) returns (ids: set<string>)
    ensures ids == set p | p in items[..] && p.phase !in {Succeeded, Failed} && p.WorkspaceId() != "" :: p.WorkspaceId()
  {
    ids := {};
    var i := 0;
    while i < items.Length
      invariant 0 <= i <= items.Length
      invariant ids == set p | p in items[..i] && IsActive(p) && p.WorkspaceId() != "" :: p.WorkspaceId()
    {
      assert items[..i + 1] == items[..i] + [items[i]];
      if IsActive(items[i]) && items[i].WorkspaceId() != "" {
        ids := ids + {items[i].WorkspaceId()};
      }
      i := i + 1;
    }
    assert items[..i] == items[..];
  }

  function Selected(id: string, caller: string, unfiltered: bool): Pod -> bool {
    (p: Pod) => p.IsWorkspace() && p.WorkspaceId() == id && (unfiltered || p.Owner() == caller)
  }

  function NotSelected(id: string, caller: string, unfiltered: bool): Pod -> bool {
    (p: Pod) => !Selected(id, caller, unfiltered)(p)
  }

  function WithoutAll(pods: seq<Pod>, gone: seq<Pod>): seq<Pod> {
    if gone == [] then pods else Without(WithoutAll(pods, gone[..|gone| - 1]), gone[|gone| - 1].name)
  }

  datatype StopOutcome = Stopped | NothingToStop | StopFailed(name: string)

  /** Position of the first pod whose deletion the API refuses. */
  function FirstRefused(pods: seq<Pod>, refused: set<string>): (k: nat)
    ensures k <= |pods| && (k < |pods| ==> pods[k].name in refused)
    ensures forall j :: 0 <= j < k ==> pods[j].name !in refused
  {
    if pods == [] || pods[0].name in refused then 0 else 1 + FirstRefused(pods[1..], refused)
  }

  /** Stops a workspace. A refused deletion ends the loop: the pods listed before
      it are gone, the others remain. */
  method StopWorkspace(cluster: Cluster, id: string, caller: string, unfiltered: bool) returns (outcome: StopOutcome)
    modifies cluster
    ensures var listed := Filter(Selected(id, caller, unfiltered), old(cluster.pods));
            var k := FirstRefused(listed, cluster.faults.deletes);
            && cluster.pods == WithoutAll(old(cluster.pods), listed[..k])
            && outcome == if listed == [] then NothingToStop
                          else if k < |listed| then StopFailed(listed[k].name) else Stopped
    ensures outcome == NothingToStop <==> NothingFor(old(cluster.pods), id, caller, unfiltered)
    ensures UniqueNames(old(cluster.pods)) ==> Spares(old(cluster.pods), cluster.pods, id, caller, unfiltered)
  {
    ghost var store := cluster.pods;
    StopMeaning(store, id, caller, unfiltered, cluster.faults.deletes);
    var items := cluster.List(Selected(id, caller, unfiltered));
    ghost var listed := items[..];
    ghost var end := FirstRefused(listed, cluster.faults.deletes);
    if items.Length == 0 {
      return NothingToStop;
    }
    var i := 0;
    while i < items.Length
      invariant 0 <= i <= end && items[..] == listed
      invariant cluster.pods == WithoutAll(store, listed[..i])
    {
      assert items[i] == listed[i];
      if items[i].name in cluster.faults.deletes {
        assert i == end;
        return StopFailed(items[i].name);
      }
      OneMoreGone(store, listed, i);
      cluster.DeletePod(items[i].name);
      i := i + 1;
    }
    assert i == end;
    return Stopped;
  }

  /** A stop takes every pod it selected, or the API refused one of them. */
  lemma StopIsComplete(store: seq<Pod>, id: string, caller: string, unfiltered: bool, refused: set<string>)
    requires UniqueNames(store)
    ensures var listed := Filter(Selected(id, caller, unfiltered), store);
            var k := FirstRefused(listed, refused);
            && (k == |listed| <==> forall p :: p in store && Selected(id, caller, unfiltered)(p) ==> p.name !in refused)
            && (k == |listed| ==> WithoutAll(store, listed[..k]) == Filter(NotSelected(id, caller, unfiltered), store))
  {
    var listed := Filter(Selected(id, caller, unfiltered), store);
    var k := FirstRefused(listed, refused);
    FilterIn(Selected(id, caller, unfiltered), store);
    if k == |listed| {
      assert listed[..k] == listed;
      StopRemoves(store, id, caller, unfiltered);
    } else {
      assert listed[k] in listed;
    }
  }

  /** Complete or not, a stop touches no pod it did not select. */
  lemma StopTouchesNoOther(store: seq<Pod>, id: string, caller: string, unfiltered: bool, k: nat, p: Pod)
    requires UniqueNames(store) && p in store && !Selected(id, caller, unfiltered)(p)
    requires k <= |Filter(Selected(id, caller, unfiltered), store)|
    ensures p in WithoutAll(store, Filter(Selected(id, caller, unfiltered), store)[..k])
  {
    var gone := Filter(Selected(id, caller, unfiltered), store)[..k];
    FilterIn(Selected(id, caller, unfiltered), store);
    forall q | q in gone ensures p.name != q.name {
      assert q in Filter(Selected(id, caller, unfiltered), store);
      if p.name == q.name { SameNameSamePod(store, p, q); }
    }
    WithoutAllKept(store, gone);
    FilterIn(KeptBy(gone), store);
    assert KeptBy(gone)(p);
  }

  /** No pod has the labels that a stop asks for. */
  ghost predicate NothingFor(store: seq<Pod>, id: string, caller: string, unfiltered: bool) {
    forall p :: p in store && Lookup(p.labels, "nogoo9/type") == "workspace" && Lookup(p.labels, "nogoo9/workspace-id") == id ==>
                  !unfiltered && Lookup(p.labels, "nogoo9/user-sub") != caller
  }

  /** The pods of other workspaces stay, and so do those of other owners if the listing is filtered. */
  ghost predicate Spares(before: seq<Pod>, after: seq<Pod>, id: string, caller: string, unfiltered: bool) {
    forall p :: p in before && p !in after ==>
                  Lookup(p.labels, "nogoo9/workspace-id") == id && (unfiltered || Lookup(p.labels, "nogoo9/user-sub") == caller)
  }

  lemma NothingSelected(store: seq<Pod>, id: string, caller: string, unfiltered: bool)
    ensures Filter(Selected(id, caller, unfiltered), store) == [] <==> NothingFor(store, id, caller, unfiltered)
  {
    var listed := Filter(Selected(id, caller, unfiltered), store);
    FilterIn(Selected(id, caller, unfiltered), store);
    if listed != [] { assert listed[0] in listed; }
  }

  /** A stop finds nothing exactly if no pod has these labels, and however far it gets it
      takes no pod that it should not. */
  lemma StopMeaning(store: seq<Pod>, id: string, caller: string, unfiltered: bool, refused: set<string>)
    ensures var listed := Filter(Selected(id, caller, unfiltered), store);
            && (listed == [] <==> NothingFor(store, id, caller, unfiltered))
            && (UniqueNames(store) ==>
                  Spares(store, WithoutAll(store, listed[..FirstRefused(listed, refused)]), id, caller, unfiltered))
  {
    var listed := Filter(Selected(id, caller, unfiltered), store);
    var k := FirstRefused(listed, refused);
    NothingSelected(store, id, caller, unfiltered);
    forall p | UniqueNames(store) && p in store && !Selected(id, caller, unfiltered)(p)
      ensures p in WithoutAll(store, listed[..k])
    {
      StopTouchesNoOther(store, id, caller, unfiltered, k, p);
    }
  }

  // ----- a stop as steps of the protocol

  function NamesIn(pods: seq<Pod>): seq<string> { seq(|pods|, i requires 0 <= i < |pods| => pods[i].name) }

  lemma {:induction false} FilterUnique(keep: Pod -> bool, pods: seq<Pod>)
    requires UniqueNames(pods)
    ensures UniqueNames(Filter(keep, pods))
  {
    if pods != [] {
      var front, last := pods[..|pods| - 1], pods[|pods| - 1];
      FilterUnique(keep, front);
      FilterIn(keep, front);
      forall i | 0 <= i < |Filter(keep, front)| ensures Filter(keep, front)[i].name != last.name {
        assert Filter(keep, front)[i] in front;
      }
    }
  }

  /** What the handler lists is what the step of the protocol lists. */
  lemma StopListsStoppable(pods: seq<Pod>, id: string, caller: string, unfiltered: bool)
    requires UniqueNames(pods)
    ensures ListsNames(NamesIn(Filter(Selected(id, caller, unfiltered), pods)), Stoppable(ByName(pods), id, caller, unfiltered))
  {
    var listed := Filter(Selected(id, caller, unfiltered), pods);
    var names, store := NamesIn(listed), ByName(pods);
    FilterUnique(Selected(id, caller, unfiltered), pods);
    FilterIn(Selected(id, caller, unfiltered), pods);
    forall n | n in names ensures n in Stoppable(store, id, caller, unfiltered) {
      var i :| 0 <= i < |listed| && listed[i].name == n;
      assert listed[i] in listed;
      ByNameHolds(pods, listed[i]);
    }
    forall n | n in Stoppable(store, id, caller, unfiltered) ensures n in names {
      assert store[n] in listed;
      var i :| 0 <= i < |listed| && listed[i] == store[n];
      assert names[i] == n;
    }
  }

  /** The deletions of a stop that nobody comes between, up to its end. */
  ghost function DeleteAll(limit: nat, s: State, c: nat, refused: set<string>): State
    requires c < |s.calls| && (s.calls[c].Stopping? ==> s.calls[c].names != [])
    decreases if s.calls[c].Stopping? then |s.calls[c].names| else 0
  {
    if !s.calls[c].Stopping? then s
    else DeleteAll(limit, Do(limit, s, DeleteListed(c, s.calls[c].names[0] !in refused)), c, refused)
  }

  /** The pods once the first `i` of the listed ones are deleted. */
  lemma {:induction false} ListedFrom(pods: seq<Pod>, listed: seq<Pod>, i: nat)
    requires UniqueNames(pods) && UniqueNames(listed) && (forall p :: p in listed ==> p in pods) && i <= |listed|
    ensures var left := WithoutAll(pods, listed[..i]);
            UniqueNames(left) && forall k :: i <= k < |listed| ==> listed[k] in left
  {
    if i > 0 {
      assert listed[..i][..i - 1] == listed[..i - 1];
      ListedFrom(pods, listed, i - 1);
      ByNameWithout(WithoutAll(pods, listed[..i - 1]), listed[i - 1].name);
      WithoutIn(WithoutAll(pods, listed[..i - 1]), listed[i - 1].name);
    }
  }

  /** One round of them, on a pod that is there. */
  lemma OneDeletion(limit: nat, left: seq<Pod>, calls: seq<Call>, names: seq<string>, refused: set<string>)
    requires UniqueNames(left) && names != [] && NameTaken(left, names[0])
    ensures UniqueNames(Without(left, names[0]))
    ensures DeleteAll(limit, State(ByName(left), calls + [Stopping(names)]), |calls|, refused) ==
            if names[0] in refused then State(ByName(left), calls + [Over])
            else DeleteAll(limit, State(ByName(Without(left, names[0])),
                                        calls + [if |names| == 1 then Over else Stopping(names[1..])]), |calls|, refused)
  {
    var s := State(ByName(left), calls + [Stopping(names)]);
    ByNameWithout(left, names[0]);
    assert forall call :: s.calls[|calls| := call] == calls + [call];
    assert names[0] in ByName(left);
  }

  lemma OneMoreGone(pods: seq<Pod>, listed: seq<Pod>, i: nat)
    requires i < |listed|
    ensures WithoutAll(pods, listed[..i + 1]) == Without(WithoutAll(pods, listed[..i]), listed[i].name)
  {
    assert listed[..i + 1][..i] == listed[..i];
  }

  lemma {:induction false} DeletesFrom(limit: nat, pods: seq<Pod>, calls: seq<Call>, listed: seq<Pod>, i: nat, refused: set<string>)
    requires UniqueNames(pods) && UniqueNames(listed) && (forall p :: p in listed ==> p in pods)
    requires i < |listed| && i <= FirstRefused(listed, refused)
    ensures UniqueNames(WithoutAll(pods, listed[..i]))
    ensures var k := FirstRefused(listed, refused);
            && UniqueNames(WithoutAll(pods, listed[..k]))
            && DeleteAll(limit, State(ByName(WithoutAll(pods, listed[..i])), calls + [Stopping(NamesIn(listed[i..]))]), |calls|, refused)
               == State(ByName(WithoutAll(pods, listed[..k])), calls + [Over])
    decreases |listed| - i
  {
    var k := FirstRefused(listed, refused);
    var left, names := WithoutAll(pods, listed[..i]), NamesIn(listed[i..]);
    ListedFrom(pods, listed, i);
    ListedFrom(pods, listed, k);
    assert names[0] == listed[i].name && listed[i] in left;
    OneDeletion(limit, left, calls, names, refused);
    if i < k {
      OneMoreGone(pods, listed, i);
      assert names[1..] == NamesIn(listed[i + 1..]);
      if i + 1 < |listed| { DeletesFrom(limit, pods, calls, listed, i + 1, refused); }
    }
  }

  /** An undisturbed stop is the protocol's listing and its deletions: the same pods are
      left and the call is over. */
  lemma StopIsSteps(limit: nat, pods: seq<Pod>, calls: seq<Call>, id: string, caller: string, unfiltered: bool,
                    refused: set<string>)
    requires UniqueNames(pods)
    ensures var listed := Filter(Selected(id, caller, unfiltered), pods);
            var s, step := State(ByName(pods), calls), ListForStop(id, caller, unfiltered, NamesIn(listed));
            var left := WithoutAll(pods, listed[..FirstRefused(listed, refused)]);
            && Enabled(s, step) && UniqueNames(left)
            && DeleteAll(limit, Do(limit, s, step), |calls|, refused) == State(ByName(left), calls + [Over])
  {
    var listed := Filter(Selected(id, caller, unfiltered), pods);
    StopListsStoppable(pods, id, caller, unfiltered);
    FilterUnique(Selected(id, caller, unfiltered), pods);
    FilterIn(Selected(id, caller, unfiltered), pods);
    if listed != [] {
      assert listed[0..] == listed;
      DeletesFrom(limit, pods, calls, listed, 0, refused);
    }
  }

  lemma {:induction false} WithoutAllIsFilter(pods: seq<Pod>, gone: seq<Pod>, keep: Pod -> bool)
    requires forall p :: p in pods ==> (keep(p) <==> forall q :: q in gone ==> p.name != q.name)
    ensures WithoutAll(pods, gone) == Filter(keep, pods)
  {
    WithoutAllKept(pods, gone);
    FilterSame(pods, KeptBy(gone), keep);
  }

  ghost function KeptBy(gone: seq<Pod>): Pod -> bool {
    (p: Pod) => forall q :: q in gone ==> p.name != q.name
  }

  lemma {:induction false} WithoutAllKept(pods: seq<Pod>, gone: seq<Pod>)
    ensures WithoutAll(pods, gone) == Filter(KeptBy(gone), pods)
  {
    if gone == [] {
      FilterAll(pods, KeptBy(gone));
    } else {
      var front, last := gone[..|gone| - 1], gone[|gone| - 1];
      assert gone == front + [last];
      WithoutAllKept(pods, front);
      FilterBoth(KeptBy(front), NotNamed(last.name), KeptBy(gone), pods);
    }
  }

  lemma {:induction false} FilterAll(pods: seq<Pod>, keep: Pod -> bool)
    requires forall p :: p in pods ==> keep(p)
    ensures Filter(keep, pods) == pods
  {
    if pods != [] {
      assert pods[|pods| - 1] in pods && pods == pods[..|pods| - 1] + [pods[|pods| - 1]];
      FilterAll(pods[..|pods| - 1], keep);
    }
  }

  lemma {:induction false} FilterBoth(f: Pod -> bool, g: Pod -> bool, both: Pod -> bool, pods: seq<Pod>)
    requires forall p :: both(p) <==> f(p) && g(p)
    ensures Filter(g, Filter(f, pods)) == Filter(both, pods)
  {
    if pods != [] {
      FilterBoth(f, g, both, pods[..|pods| - 1]);
      FilterAppend(g, Filter(f, pods[..|pods| - 1]), pods[|pods| - 1]);
    }
  }

  lemma {:induction false} FilterSame(pods: seq<Pod>, f: Pod -> bool, g: Pod -> bool)
    requires forall p :: p in pods ==> f(p) == g(p)
    ensures Filter(f, pods) == Filter(g, pods)
  {
    if pods != [] {
      assert pods[|pods| - 1] in pods;
      FilterSame(pods[..|pods| - 1], f, g);
    }
  }

  /** Deleting the listed pods one by one, by name, removes exactly them. */
  lemma StopRemoves(store: seq<Pod>, id: string, caller: string, unfiltered: bool)
    requires UniqueNames(store)
    ensures WithoutAll(store, Filter(Selected(id, caller, unfiltered), store)) ==
            Filter(NotSelected(id, caller, unfiltered), store)
  {
    var gone := Filter(Selected(id, caller, unfiltered), store);
    FilterIn(Selected(id, caller, unfiltered), store);
    forall p | p in store
      ensures NotSelected(id, caller, unfiltered)(p) <==> forall q :: q in gone ==> p.name != q.name
    {
      forall q | q in gone && q.name == p.name ensures q == p {
        SameNameSamePod(store, p, q);
      }
      if Selected(id, caller, unfiltered)(p) { assert p in gone; }
    }
    WithoutAllIsFilter(store, gone, NotSelected(id, caller, unfiltered));
  }
}
