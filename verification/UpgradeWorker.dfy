/** The body of a side-by-side upgrade worker: create, poll, then delete the old
    pod or the new one. */
module UpgradeWorker {
  import opened Pods
  import opened Reconcile
  import opened UpgradeProtocol

  datatype Reading =
    | Status(phase: Phase, podIP: string, state: ContainerState)
    | Unreadable(message: string)

  predicate ReportsReady(r: Reading) { r.Status? && r.phase.Running? && r.podIP != "" }

  /** What a reading that is not ready says about the reason, if anything. */
  function Detail(r: Reading): Option<string> {
    match r
    case Unreadable(message) => Some(message)
    case Status(_, _, Waiting(reason, message)) => Some(reason + ": " + message)
    case Status(_, _, Terminated(reason, message)) => Some(reason + ": " + message)
    case Status(_, _, NoState) => None
  }

  /** The details after n readings: those of the last one that had any. */
  function LastDetail(read: nat -> Reading, n: nat): string {
    if n == 0 then "Unknown error during readiness polling"
    else match Detail(read(n - 1))
      case Some(text) => text
      case None => LastDetail(read, n - 1)
  }

  /** The worker of the protocol after n polls with these readings. */
  function PolledThrough(w: Worker, read: nat -> Reading, n: nat): Worker {
    if n == 0 then w
    else
      var earlier := PolledThrough(w, read, n - 1);
      if earlier.Polling? then Polled(earlier, ReportsReady(read(n - 1))) else earlier
  }

  method PollForReadiness(read: nat -> Reading, oldName: string, newName: string)
    returns (ready: bool, details: string, polls: nat)
    ensures polls <= POLL_ATTEMPTS
    ensures PolledThrough(Polling(oldName, newName, 0), read, polls) ==
            if ready then SawReady(oldName, newName) else TimedOut(oldName, newName)
    ensures ready <==> exists i: nat :: i < 120 && read(i).Status? && read(i).phase == Running && read(i).podIP != ""
    ensures !ready ==> polls == POLL_ATTEMPTS && details == LastDetail(read, POLL_ATTEMPTS)
  {
    ready, details, polls := false, "Unknown error during readiness polling", 0;
    while polls < POLL_ATTEMPTS
      invariant polls <= POLL_ATTEMPTS && !ready && details == LastDetail(read, polls)
      invariant forall i: nat :: i < polls ==> !ReportsReady(read(i))
      invariant PolledThrough(Polling(oldName, newName, 0), read, polls) ==
                if polls < POLL_ATTEMPTS then Polling(oldName, newName, polls) else TimedOut(oldName, newName)
    {
      var r := read(polls);
      polls := polls + 1;
      if ReportsReady(r) {
        ready := true;
        break;
      }
      match Detail(r) {
        case Some(text) => details := text;
        case None =>
      }
    }
  }

  /** Whether a reading gives this reason. */
  predicate Says(r: Reading, text: string) {
    || r == Unreadable(text)
    || (r.Status? && !r.state.NoState? && text == r.state.reason + ": " + r.state.message)
  }

  /** The details are the reason that was given last. */
  lemma {:induction false} DetailsMeaning(read: nat -> Reading, n: nat)
    ensures var details := LastDetail(read, n);
            || (details == "Unknown error during readiness polling" && forall i: nat, text :: i < n ==> !Says(read(i), text))
            || exists i: nat :: i < n && Says(read(i), details) && forall j: nat, text :: i < j < n ==> !Says(read(j), text)
  {
    if n > 0 {
      DetailsMeaning(read, n - 1);
      if Detail(read(n - 1)).Some? { assert Says(read(n - 1), LastDetail(read, n)); }
    }
  }

  function Failure(stamp: string, details: string): string { "Upgrade failed at " + stamp + ": " + details }

  function Find(pods: seq<Pod>, name: string): Option<Pod> {
    if pods == [] then None else if pods[0].name == name then Some(pods[0]) else Find(pods[1..], name)
  }

  /** The pods when a worker is through that nobody interfered with. */
  function Concluded(pods: seq<Pod>, faults: Faults, oldName: string, newName: string, ready: bool, note: string): seq<Pod> {
    if ready then (if oldName in faults.deletes then pods else Without(pods, oldName))
    else
      var noted := match Find(pods, oldName)
                   case Some(p) =>
                     if oldName in faults.patches then pods
                     else Patched(pods, Patch(oldName, p.annotations[UPGRADE_ERROR := note]))
                   case None => pods;
      if newName in faults.deletes then noted else Without(noted, newName)
  }

  method RunSideBySide(cluster: Cluster, oldName: string, newName: string, read: nat -> Reading, stamp: string)
    returns (ready: bool)
    modifies cluster
    ensures ready <==> exists i: nat :: i < 120 && read(i).Status? && read(i).phase == Running && read(i).podIP != ""
    ensures cluster.pods == Concluded(old(cluster.pods), cluster.faults, oldName, newName, ready,
                                      Failure(stamp, LastDetail(read, POLL_ATTEMPTS)))
  {
    var details, polls;
    ready, details, polls := PollForReadiness(read, oldName, newName);
    if ready {
      cluster.DeletePod(oldName);
    } else {
      var current := Find(cluster.pods, oldName);
      if current.Some? {
        cluster.PatchPod(Patch(oldName, current.value.annotations[UPGRADE_ERROR := Failure(stamp, details)]));
      }
      cluster.DeletePod(newName);
    }
  }

  lemma WithoutNames(pods: seq<Pod>, name: string)
    ensures NamesOf(Without(pods, name)) == NamesOf(pods) - {name}
  {
    WithoutIn(pods, name);
    forall n | n in NamesOf(pods) - {name} ensures n in NamesOf(Without(pods, name)) {
      var p :| p in pods && p.name == n;
      assert p in Without(pods, name);
    }
  }

  lemma PatchedNames(pods: seq<Pod>, patch: Patch)
    ensures NamesOf(Patched(pods, patch)) == NamesOf(pods)
  {
    var r := Patched(pods, patch);
    forall n | n in NamesOf(pods) ensures n in NamesOf(r) {
      var i :| 0 <= i < |pods| && pods[i].name == n;
      assert r[i] in r && r[i].name == n;
    }
    forall n | n in NamesOf(r) ensures n in NamesOf(pods) {
      var i :| 0 <= i < |r| && r[i].name == n;
      assert pods[i] in pods;
    }
  }

  /** An upgrade is all or nothing: with no request refused, exactly one of the old
      and the new pod is left, and no other pod is affected. */
  lemma UpgradeIsAllOrNothing(pods: seq<Pod>, faults: Faults, oldName: string, newName: string, ready: bool, note: string)
    requires oldName !in faults.deletes && newName !in faults.deletes
    requires oldName in NamesOf(pods) && newName in NamesOf(pods) && oldName != newName
    ensures var left := NamesOf(Concluded(pods, faults, oldName, newName, ready, note));
            && (newName in left <==> ready) && (oldName in left <==> !ready)
            && left + {oldName, newName} == NamesOf(pods)
  {
    if ready {
      WithoutNames(pods, oldName);
    } else {
      var noted := match Find(pods, oldName)
                   case Some(p) =>
                     if oldName in faults.patches then pods
                     else Patched(pods, Patch(oldName, p.annotations[UPGRADE_ERROR := note]))
                   case None => pods;
      if Find(pods, oldName).Some? {
        PatchedNames(pods, Patch(oldName, Find(pods, oldName).value.annotations[UPGRADE_ERROR := note]));
      }
      WithoutNames(noted, newName);
    }
  }

  /** Which pods there are when a worker is through: after a success all but the old one,
      after a failure all but the new one, the old one with a note. */
  lemma ConcludedMeaning(pods: seq<Pod>, faults: Faults, oldName: string, newName: string, ready: bool, note: string, q: Pod)
    requires UniqueNames(pods)
    ensures q in Concluded(pods, faults, oldName, newName, ready, note) <==>
            if ready then q in pods && (q.name == oldName ==> oldName in faults.deletes)
            else
              && (q.name == newName ==> newName in faults.deletes)
              && exists p :: p in pods && q == if p.name == oldName && oldName !in faults.patches
                                               then p.(annotations := p.annotations["nogoo9/last-upgrade-error" := note]) else p
  {
    FindIn(pods, oldName);
    if ready {
      WithoutIn(pods, oldName);
    } else {
      var found := Find(pods, oldName);
      var noted := if found.None? || oldName in faults.patches then pods
                   else Patched(pods, Patch(oldName, found.value.annotations[UPGRADE_ERROR := note]));
      WithoutIn(noted, newName);
      NotedPods(pods, faults, oldName, note, q);
    }
  }

  lemma NotedPods(pods: seq<Pod>, faults: Faults, oldName: string, note: string, q: Pod)
    requires UniqueNames(pods)
    ensures var found := Find(pods, oldName);
            var noted := if found.None? || oldName in faults.patches then pods
                         else Patched(pods, Patch(oldName, found.value.annotations[UPGRADE_ERROR := note]));
            q in noted <==>
            exists p :: p in pods && q == if p.name == oldName && oldName !in faults.patches
                                          then p.(annotations := p.annotations["nogoo9/last-upgrade-error" := note]) else p
  {
    var found := Find(pods, oldName);
    FindIn(pods, oldName);
    if found.Some? && oldName !in faults.patches {
      var noted := Patched(pods, Patch(oldName, found.value.annotations[UPGRADE_ERROR := note]));
      forall i | 0 <= i < |pods|
        ensures noted[i] == if pods[i].name == oldName then pods[i].(annotations := pods[i].annotations["nogoo9/last-upgrade-error" := note])
                            else pods[i]
      {
        if pods[i].name == oldName { SameNameSamePod(pods, pods[i], found.value); }
      }
      if q in noted {
        var i :| 0 <= i < |noted| && noted[i] == q;
        assert pods[i] in pods;
      }
      if p :| p in pods && q == if p.name == oldName then p.(annotations := p.annotations["nogoo9/last-upgrade-error" := note]) else p {
        var i :| 0 <= i < |pods| && pods[i] == p;
        assert noted[i] in noted;
      }
    } else if q in pods && found.None? {
      assert q.name != oldName;
    }
  }

  // ----- the two endings as steps of the protocol

  lemma ByNamePatched(pods: seq<Pod>, patch: Patch, p: Pod)
    requires UniqueNames(pods) && p in pods && p.name == patch.pod
    ensures UniqueNames(Patched(pods, patch))
    ensures ByName(Patched(pods, patch)) == ByName(pods)[p.name := p.(annotations := p.annotations + patch.annotations)]
  {
    var r, q := Patched(pods, patch), p.(annotations := p.annotations + patch.annotations);
    PatchedNames(pods, patch);
    var i :| 0 <= i < |pods| && pods[i] == p;
    assert r[i] == q && r[i] in r;
    ByNameHolds(r, q);
    forall n | n in NamesOf(pods) && n != p.name ensures ByName(r)[n] == ByName(pods)[n] {
      var o := PodNamed(pods, n);
      var j :| 0 <= j < |pods| && pods[j] == o;
      assert r[j] == o && r[j] in r;
      ByNameHolds(r, o);
    }
  }

  lemma {:induction false} FindIn(pods: seq<Pod>, name: string)
    ensures Find(pods, name).Some? ==> Find(pods, name).value in pods && Find(pods, name).value.name == name
    ensures Find(pods, name).None? ==> !NameTaken(pods, name)
  {
    if pods != [] && pods[0].name != name { FindIn(pods[1..], name); }
  }

  /** A worker that saw its pod ready ends with the protocol's deletion of the old pod. */
  lemma SuccessIsAStep(s: State, w: nat, pods: seq<Pod>, faults: Faults, oldName: string, newName: string, note: string)
    requires UniqueNames(pods) && s.pods == ByName(pods) && w < |s.workers| && s.workers[w] == SawReady(oldName, newName)
    ensures var step := DeleteOld(w, oldName !in faults.deletes);
            var after := Concluded(pods, faults, oldName, newName, true, note);
            Enabled(s, step) && UniqueNames(after) && Do(s, step).pods == ByName(after)
  {
    ByNameWithout(pods, oldName);
  }

  /** The step that notes the failure on the old pod, if it is there and the note is accepted. */
  function Annotated(s: State, pods: seq<Pod>, faults: Faults, oldName: string, note: string): Option<Step> {
    var p := Find(pods, oldName);
    if p.None? || oldName in faults.patches then None
    else Some(Update(p.value.(annotations := p.value.annotations[UPGRADE_ERROR := note])))
  }

  /** One that timed out ends with an update of the old pod, if any, and the deletion of
      the new one. */
  lemma FailureIsTwoSteps(s: State, w: nat, pods: seq<Pod>, faults: Faults, oldName: string, newName: string, note: string)
    requires UniqueNames(pods) && s.pods == ByName(pods) && w < |s.workers| && s.workers[w] == TimedOut(oldName, newName)
    ensures var update := Annotated(s, pods, faults, oldName, note);
            var delete := DeleteNew(w, newName !in faults.deletes);
            var after := Concluded(pods, faults, oldName, newName, false, note);
            && (update.Some? ==> Enabled(s, update.value))
            && var noted := if update.Some? then Do(s, update.value) else s;
            Enabled(noted, delete) && UniqueNames(after) && Do(noted, delete).pods == ByName(after)
  {
    FindIn(pods, oldName);
    if Annotated(s, pods, faults, oldName, note).Some? {
      var p := Find(pods, oldName).value;
      var patch := Patch(oldName, p.annotations[UPGRADE_ERROR := note]);
      ByNameHolds(pods, p);
      ByNamePatched(pods, patch, p);
      assert p.annotations + patch.annotations == patch.annotations;
      ByNameWithout(Patched(pods, patch), newName);
    } else {
      ByNameWithout(pods, newName);
    }
  }
}
