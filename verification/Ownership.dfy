/** Whose workspace it is: which runs keep all pods of a workspace id with one
    owner, and what that owner and everybody else can then do to it. */
module Ownership {
  import opened Pods
  import opened Labels
  import opened Lifecycle
  import opened QuotaSharpness

  ghost predicate OwnersAgree(pods: map<string, Pod>) {
    forall m, n :: m in pods && n in pods && pods[m].WorkspaceId() == pods[n].WorkspaceId() ==>
                     pods[m].Owner() == pods[n].Owner()
  }

  /** The pod a step asks the API to create. */
  function Creates(s: State, step: Step): Option<Pod>
    requires Enabled(s, step)
  {
    match step
    case CreateSpawned(_, pod, accepted) => if accepted then Some(pod) else None
    case CreateUpgraded(c, accepted) => if accepted then Some(s.calls[c].pod) else None
    case _ => None
  }

  /** The step adds a pod to a workspace that belongs to someone else. */
  ghost predicate Intrudes(s: State, step: Step)
    requires Enabled(s, step)
  {
    var created := Creates(s, step);
    && created.Some? && created.value.name !in s.pods
    && exists n :: n in s.pods && s.pods[n].WorkspaceId() == created.value.WorkspaceId()
                   && s.pods[n].Owner() != created.value.Owner()
  }

  lemma StepKeepsOwners(limit: nat, s: State, step: Step)
    requires OwnersAgree(s.pods) && Enabled(s, step)
    ensures OwnersAgree(Do(limit, s, step).pods) <==> !Intrudes(s, step)
  {
    var t := Do(limit, s, step);
    var created := Creates(s, step);
    if created.Some? && created.value.name !in s.pods {
      assert t.pods == s.pods[created.value.name := created.value];
      if Intrudes(s, step) {
        var n :| n in s.pods && s.pods[n].WorkspaceId() == created.value.WorkspaceId()
                 && s.pods[n].Owner() != created.value.Owner();
        assert t.pods[n] == s.pods[n] && t.pods[created.value.name] == created.value;
      }
    } else {
      forall n | n in t.pods ensures n in s.pods && t.pods[n].labels == s.pods[n].labels {
      }
    }
  }

  lemma {:induction false} NoIntrusionKeepsOwners(limit: nat, run: seq<State>, steps: seq<Step>, k: nat)
    requires IsRun(limit, run, steps) && k <= |steps| && OwnersAgree(run[0].pods)
    requires forall i :: 0 <= i < |steps| ==> !Intrudes(run[i], steps[i])
    ensures OwnersAgree(run[k].pods)
  {
    if k > 0 {
      NoIntrusionKeepsOwners(limit, run, steps, k - 1);
      StepKeepsOwners(limit, run[k - 1], steps[k - 1]);
    }
  }

  /** All pods of every workspace have one owner throughout a run exactly when
      they start so and no step intrudes. */
  lemma OwnersAgreeExactly(limit: nat, run: seq<State>, steps: seq<Step>)
    requires IsRun(limit, run, steps)
    ensures (forall i :: 0 <= i < |run| ==> OwnersAgree(run[i].pods)) <==>
            OwnersAgree(run[0].pods) && forall i :: 0 <= i < |steps| ==> !Intrudes(run[i], steps[i])
  {
    if OwnersAgree(run[0].pods) && forall i :: 0 <= i < |steps| ==> !Intrudes(run[i], steps[i]) {
      forall k | 0 <= k < |run| ensures OwnersAgree(run[k].pods) {
        NoIntrusionKeepsOwners(limit, run, steps, k);
      }
    }
    if forall i :: 0 <= i < |run| ==> OwnersAgree(run[i].pods) {
      forall i | 0 <= i < |steps| ensures !Intrudes(run[i], steps[i]) {
        assert OwnersAgree(run[i].pods) && OwnersAgree(run[i + 1].pods);
        StepKeepsOwners(limit, run[i], steps[i]);
      }
    }
  }

  // ----- checks that nothing separates from the creation they are for

  /** A spawn lists, counts and creates, and an upgrade reads and creates, with no
      step of anybody in between. */
  ghost predicate Atomic(run: seq<State>, steps: seq<Step>)
    requires |run| == |steps| + 1
  {
    forall i :: 0 <= i < |steps| ==>
      && (steps[i].CreateSpawned? ==> i >= 2 && steps[i - 1] == CheckQuota(steps[i].c) && steps[i - 2] == CheckUnique(steps[i].c))
      && (steps[i].CreateUpgraded? ==> i >= 1 && steps[i - 1].StartUpgrade? && steps[i].c == |run[i - 1].calls|)
  }

  lemma IdIsFree(limit: nat, run: seq<State>, steps: seq<Step>, i: nat)
    requires IsRun(limit, run, steps) && Atomic(run, steps) && i < |steps| && steps[i].CreateSpawned?
    ensures Of(run[i].pods, run[i].calls[steps[i].c].id) == {}
  {
    assert run[i - 1] == Do(limit, run[i - 2], steps[i - 2]) && run[i] == Do(limit, run[i - 1], steps[i - 1]);
    assert run[i].pods == run[i - 2].pods;
  }

  lemma SpawnDoesNotIntrude(limit: nat, run: seq<State>, steps: seq<Step>, i: nat)
    requires IsRun(limit, run, steps) && Atomic(run, steps) && i < |steps| && steps[i].CreateSpawned?
    ensures !Intrudes(run[i], steps[i])
  {
    RunKeepsClean(limit, run, steps, i);
    IdIsFree(limit, run, steps, i);
    SpawnAddsItsId(run[i], steps[i]);
  }

  lemma SpawnAddsItsId(s: State, step: Step)
    requires Clean(s) && Enabled(s, step) && step.CreateSpawned? && Of(s.pods, s.calls[step.c].id) == {}
    ensures !Intrudes(s, step)
  {
    var call := s.calls[step.c];
    SpawnedIdentity(step.pod, call.id, call.owner);
    forall n | n in s.pods ensures s.pods[n].WorkspaceId() != step.pod.WorkspaceId() {
      assert n !in Of(s.pods, call.id);
    }
  }

  lemma UpgradeDoesNotIntrude(limit: nat, run: seq<State>, steps: seq<Step>, i: nat)
    requires IsRun(limit, run, steps) && Atomic(run, steps) && i < |steps| && steps[i].CreateUpgraded?
    requires OwnersAgree(run[i].pods)
    ensures !Intrudes(run[i], steps[i])
  {
    RunKeepsClean(limit, run, steps, i - 1);
    var before, start := run[i - 1], steps[i - 1];
    assert run[i] == Do(limit, before, start);
    UpgradedIdentity(start.pod, before.pods[start.oldName], start.caller);
  }

  /** With each check and its creation in one step, every workspace has one owner
      in every state of every run. */
  lemma {:induction false} AtomicRunsKeepOwners(limit: nat, run: seq<State>, steps: seq<Step>, k: nat)
    requires IsRun(limit, run, steps) && Atomic(run, steps) && k <= |steps| && OwnersAgree(run[0].pods)
    ensures OwnersAgree(run[k].pods)
  {
    if k > 0 {
      AtomicRunsKeepOwners(limit, run, steps, k - 1);
      var step := steps[k - 1];
      if step.CreateSpawned? { SpawnDoesNotIntrude(limit, run, steps, k - 1); }
      if step.CreateUpgraded? { UpgradeDoesNotIntrude(limit, run, steps, k - 1); }
      StepKeepsOwners(limit, run[k - 1], step);
    }
  }

  // ----- what an owner can rely on

  /** No step both takes pods away and adds one. */
  lemma StepKeepsAPod(limit: nat, s: State, step: Step, id: string) returns (n: string)
    requires Clean(s) && Enabled(s, step)
    requires Of(s.pods, id) != {} && Of(Do(limit, s, step).pods, id) != {}
    ensures n in s.pods && n in Do(limit, s, step).pods
    ensures s.pods[n].WorkspaceId() == id && Do(limit, s, step).pods[n].labels == s.pods[n].labels
  {
    var t := Do(limit, s, step);
    if step.DeleteListed? || step.Remove? {
      n :| n in Of(t.pods, id);
    } else {
      n :| n in Of(s.pods, id);
    }
  }

  ghost predicate Belongs(pods: map<string, Pod>, id: string, owner: string) {
    Of(pods, id) != {} && forall n :: n in Of(pods, id) ==> pods[n].Owner() == owner
  }

  lemma StepKeepsOwner(limit: nat, s: State, step: Step, id: string, owner: string)
    requires Clean(s) && Enabled(s, step) && OwnersAgree(Do(limit, s, step).pods)
    requires Belongs(s.pods, id, owner) && Of(Do(limit, s, step).pods, id) != {}
    ensures Belongs(Do(limit, s, step).pods, id, owner)
  {
    var common := StepKeepsAPod(limit, s, step, id);
    assert common in Of(s.pods, id);
  }

  lemma RunKeepsOwner(limit: nat, run: seq<State>, steps: seq<Step>, id: string, owner: string, j: nat)
    requires IsRun(limit, run, steps) && j < |steps| && OwnersAgree(run[j + 1].pods)
    requires Belongs(run[j].pods, id, owner) && Of(run[j + 1].pods, id) != {}
    ensures Belongs(run[j + 1].pods, id, owner)
  {
    RunKeepsClean(limit, run, steps, j);
    StepKeepsOwner(limit, run[j], steps[j], id, owner);
  }

  /** The workspace has pods, all with one owner per id. */
  ghost predicate Lives(pods: map<string, Pod>, id: string) { Of(pods, id) != {} && OwnersAgree(pods) }

  lemma {:induction false} Carried(run: seq<State>, id: string, owner: string, i: nat, k: nat)
    requires i <= k < |run| && Belongs(run[i].pods, id, owner)
    requires forall j :: i <= j < k && Belongs(run[j].pods, id, owner) ==> Belongs(run[j + 1].pods, id, owner)
    ensures Belongs(run[k].pods, id, owner)
    decreases k
  {
    if i < k {
      Carried(run, id, owner, i, k - 1);
      assert Belongs(run[k - 1 + 1].pods, id, owner);
    }
  }

  /** As long as a workspace has a pod, its owner stays the same, whoever upgrades
      it how often. */
  lemma OwnerStays(limit: nat, run: seq<State>, steps: seq<Step>, id: string, owner: string, i: nat, k: nat)
    requires IsRun(limit, run, steps) && i <= k <= |steps|
    requires forall j :: i <= j <= k ==> Lives(run[j].pods, id)
    requires Belongs(run[i].pods, id, owner)
    ensures Belongs(run[k].pods, id, owner)
  {
    forall j | i <= j < k && Belongs(run[j].pods, id, owner) ensures Belongs(run[j + 1].pods, id, owner) {
      assert Lives(run[j + 1].pods, id);
      RunKeepsOwner(limit, run, steps, id, owner, j);
    }
    Carried(run, id, owner, i, k);
  }

  /** A stop whose listing is filtered by owner lists every pod of the workspace if the
      caller is the owner, and none otherwise; then the call is over. */
  lemma OnlyTheOwnerStops(limit: nat, s: State, id: string, owner: string, caller: string, names: seq<string>)
    requires Belongs(s.pods, id, owner) && Enabled(s, ListForStop(id, caller, false, names))
    ensures var t := Do(limit, s, ListForStop(id, caller, false, names));
            && t.pods == s.pods
            && (caller == owner <==> t.calls[|s.calls|].Stopping?)
            && (caller == owner ==> forall n :: n in t.calls[|s.calls|].names <==> n in Of(s.pods, id))
            && (caller != owner ==> t.calls[|s.calls|].Over?)
  {
    if caller != owner {
      assert Stoppable(s.pods, id, caller, false) == {};
    } else {
      assert Stoppable(s.pods, id, caller, false) == Of(s.pods, id);
    }
    NothingListed(names, Stoppable(s.pods, id, caller, false));
  }

  lemma NothingListed(names: seq<string>, all: set<string>)
    requires ListsNames(names, all)
    ensures names == [] <==> all == {}
  {
    if names != [] { assert names[0] in names; }
  }

  /** What a stop has still to delete. */
  function Left(call: Call): set<string> {
    if call.Stopping? then set n | n in call.names else {}
  }

  /** The step does not end the stop early: every listed pod is there and its deletion is accepted. */
  predicate Proceeds(s: State, step: Step, c: nat) {
    step.DeleteListed? && step.c == c && c < |s.calls| && s.calls[c].Stopping? && s.calls[c].names != [] ==>
      step.accepted && s.calls[c].names[0] in s.pods
  }

  /** The step creates no pod of the workspace. */
  predicate Spares(s: State, step: Step, id: string)
    requires Enabled(s, step)
  {
    Creates(s, step).Some? ==> Creates(s, step).value.WorkspaceId() != id
  }

  lemma StepKeepsStopping(limit: nat, s: State, step: Step, id: string, c: nat)
    requires Enabled(s, step) && c < |s.calls| && (s.calls[c].Stopping? || s.calls[c].Over?)
    requires Proceeds(s, step, c) && Spares(s, step, id) && Of(s.pods, id) <= Left(s.calls[c])
    ensures var t := Do(limit, s, step);
            && c < |t.calls| && (t.calls[c].Stopping? || t.calls[c].Over?)
            && Of(t.pods, id) <= Left(t.calls[c])
  {
    var t := Do(limit, s, step);
    forall n | n in Of(t.pods, id) ensures n in Of(s.pods, id) {
    }
    if step.DeleteListed? && step.c == c {
      var names := s.calls[c].names;
      assert names == [names[0]] + names[1..];
    }
  }

  /** From the listing of a stop to its end, if nothing ends it early and nobody
      adds a pod to the workspace meanwhile. */
  ghost predicate StopRunsThrough(run: seq<State>, steps: seq<Step>, id: string, c: nat, i: nat, k: nat)
    requires |run| == |steps| + 1 && i <= k <= |steps|
    requires forall j :: 0 <= j < |steps| ==> Enabled(run[j], steps[j])
  {
    forall j :: i <= j < k ==> Proceeds(run[j], steps[j], c) && Spares(run[j], steps[j], id)
  }

  lemma {:induction false} StoppingSoFar(limit: nat, run: seq<State>, steps: seq<Step>, id: string, c: nat, i: nat, k: nat)
    requires IsRun(limit, run, steps) && i <= k <= |steps| && StopRunsThrough(run, steps, id, c, i, k)
    requires c < |run[i].calls| && (run[i].calls[c].Stopping? || run[i].calls[c].Over?)
    requires Of(run[i].pods, id) <= Left(run[i].calls[c])
    ensures c < |run[k].calls| && (run[k].calls[c].Stopping? || run[k].calls[c].Over?)
    ensures Of(run[k].pods, id) <= Left(run[k].calls[c])
    decreases k
  {
    if i < k {
      StoppingSoFar(limit, run, steps, id, c, i, k - 1);
      StepKeepsStopping(limit, run[k - 1], steps[k - 1], id, c);
    }
  }

  /** A stop that finds every listed pod and is refused no deletion leaves the workspace
      without a pod, provided nobody adds one meanwhile. */
  lemma OwnerStopEmpties(limit: nat, run: seq<State>, steps: seq<Step>, id: string, owner: string, i: nat, k: nat)
    requires IsRun(limit, run, steps) && i < k <= |steps| && Belongs(run[i].pods, id, owner)
    requires steps[i].ListForStop? && steps[i].id == id && (steps[i].caller == owner || steps[i].unfiltered)
    requires StopRunsThrough(run, steps, id, |run[i].calls|, i + 1, k)
    requires |run[i].calls| < |run[k].calls| && run[k].calls[|run[i].calls|].Over?
    ensures Of(run[k].pods, id) == {}
  {
    var c := |run[i].calls|;
    assert run[i + 1] == Do(limit, run[i], steps[i]);
    assert Stoppable(run[i].pods, id, steps[i].caller, steps[i].unfiltered) == Of(run[i].pods, id);
    StoppingSoFar(limit, run, steps, id, c, i + 1, k);
  }

  // ----- a stop that ends early

  ghost predicate AllSpare(run: seq<State>, steps: seq<Step>, id: string, i: nat, k: nat)
    requires |run| == |steps| + 1 && k <= |steps|
    requires forall j :: 0 <= j < |steps| ==> Enabled(run[j], steps[j])
  {
    forall j :: i <= j < k ==> Spares(run[j], steps[j], id)
  }

  /** While a stop is still going on, none of its deletions has failed. */
  lemma StepOfStopping(limit: nat, s: State, step: Step, id: string, c: nat)
    requires Enabled(s, step) && Spares(s, step, id) && c < |s.calls| && (s.calls[c].Stopping? || s.calls[c].Over?)
    requires s.calls[c].Stopping? ==> Of(s.pods, id) <= Left(s.calls[c])
    ensures var t := Do(limit, s, step);
            && c < |t.calls| && (t.calls[c].Stopping? || t.calls[c].Over?)
            && (t.calls[c].Stopping? ==> s.calls[c].Stopping? && Proceeds(s, step, c) && Of(t.pods, id) <= Left(t.calls[c]))
  {
    if Do(limit, s, step).calls[c].Stopping? {
      StepKeepsStopping(limit, s, step, id, c);
    }
  }

  lemma {:induction false} StillStopping(limit: nat, run: seq<State>, steps: seq<Step>, id: string, c: nat, i: nat, k: nat)
    requires IsRun(limit, run, steps) && i <= k <= |steps| && AllSpare(run, steps, id, i, k)
    requires c < |run[i].calls| && (run[i].calls[c].Stopping? || run[i].calls[c].Over?)
    requires run[i].calls[c].Stopping? ==> Of(run[i].pods, id) <= Left(run[i].calls[c])
    ensures c < |run[k].calls| && (run[k].calls[c].Stopping? || run[k].calls[c].Over?)
    ensures run[k].calls[c].Stopping? ==> Of(run[k].pods, id) <= Left(run[k].calls[c])
    decreases k
  {
    if i < k {
      StillStopping(limit, run, steps, id, c, i, k - 1);
      StepOfStopping(limit, run[k - 1], steps[k - 1], id, c);
    }
  }

  /** The last step of a stop: the pods it leaves of those it was to delete. */
  lemma StopEnds(limit: nat, s: State, step: Step, id: string, c: nat)
    requires Enabled(s, step) && Spares(s, step, id) && c < |s.calls| && s.calls[c].Stopping?
    requires Of(s.pods, id) <= Left(s.calls[c]) && Do(limit, s, step).calls[c].Over?
    ensures Of(Do(limit, s, step).pods, id) == {} <==> Proceeds(s, step, c) || Of(s.pods, id) == {}
  {
    assert step.DeleteListed? && step.c == c;
    if Proceeds(s, step, c) {
      StepKeepsStopping(limit, s, step, id, c);
    } else {
      assert Do(limit, s, step).pods == s.pods;
    }
  }

  /** When the owner's stop ends, with any reconciles, workers and refusals in between
      and nobody adding a pod: the workspace is empty if and only if the last deletion
      found its pod and was accepted, or there was nothing left to delete anyway. */
  lemma OwnerStopEmptiesExactly(limit: nat, run: seq<State>, steps: seq<Step>, id: string, owner: string, i: nat, k: nat)
    requires IsRun(limit, run, steps) && i < k < |steps| && Belongs(run[i].pods, id, owner)
    requires steps[i].ListForStop? && steps[i].id == id && (steps[i].caller == owner || steps[i].unfiltered)
    requires AllSpare(run, steps, id, i + 1, k + 1)
    requires var c := |run[i].calls|;
             c < |run[k].calls| && c < |run[k + 1].calls| && run[k].calls[c].Stopping? && run[k + 1].calls[c].Over?
    ensures Of(run[k + 1].pods, id) == {} <==> Proceeds(run[k], steps[k], |run[i].calls|) || Of(run[k].pods, id) == {}
  {
    var c := |run[i].calls|;
    assert run[i + 1] == Do(limit, run[i], steps[i]);
    assert Stoppable(run[i].pods, id, steps[i].caller, steps[i].unfiltered) == Of(run[i].pods, id);
    StillStopping(limit, run, steps, id, c, i + 1, k);
    StopEnds(limit, run[k], steps[k], id, c);
  }

  /** A workspace in the middle of an upgrade: the stop lists both pods, a worker deletes
      the first of them, the stop's own deletion finds it gone and ends the call. The
      second pod goes on running. */
  lemma StopCanMissAPod(p: Pod, q: Pod) returns (run: seq<State>, steps: seq<Step>)
    requires PodOk(p.name, p) && PodOk(q.name, q) && p.name != q.name
    requires p.WorkspaceId() == q.WorkspaceId() && p.Owner() == q.Owner()
    ensures IsRun(0, run, steps) && |steps| == 3 && Belongs(run[0].pods, p.WorkspaceId(), p.Owner())
    ensures steps[0] == ListForStop(p.WorkspaceId(), p.Owner(), false, [p.name, q.name])
    ensures run[2].calls == [Stopping([p.name, q.name])] && run[3].calls == [Over]
    ensures Of(run[3].pods, p.WorkspaceId()) == {q.name}
  {
    var id, owner, both, one := p.WorkspaceId(), p.Owner(), map[p.name := p, q.name := q], map[q.name := q];
    var stopping := Stopping([p.name, q.name]);
    BothListed(p, q);
    run, steps := [State(both, [])], [];
    run, steps := Then(run, steps, ListForStop(id, owner, false, [p.name, q.name]), State(both, [stopping]));
    run, steps := Then(run, steps, Remove(p.name), State(one, [stopping]));
    run, steps := Then(run, steps, DeleteListed(0, true), State(one, [Over]));
  }

  lemma BothListed(p: Pod, q: Pod)
    requires PodOk(p.name, p) && PodOk(q.name, q) && p.name != q.name
    requires p.WorkspaceId() == q.WorkspaceId() && p.Owner() == q.Owner()
    ensures var id, owner, both, one := p.WorkspaceId(), p.Owner(), map[p.name := p, q.name := q], map[q.name := q];
            && Clean(State(both, [])) && both - {p.name} == one
            && Of(both, id) == {p.name, q.name} && Of(one, id) == {q.name} && Belongs(both, id, owner)
            && ListsNames([p.name, q.name], Stoppable(both, id, owner, false))
  {
    var id, both := p.WorkspaceId(), map[p.name := p, q.name := q];
    assert p.name in Of(both, id);
  }

  // ----- what can happen in between

  lemma Then(run: seq<State>, steps: seq<Step>, step: Step, s: State) returns (run': seq<State>, steps': seq<Step>)
    requires IsRun(0, run, steps) && Enabled(run[|steps|], step) && s == Do(0, run[|steps|], step)
    ensures IsRun(0, run', steps') && run' == run + [s] && steps' == steps + [step]
    ensures run'[|steps'|] == s && run'[0] == run[0]
  {
    run', steps' := run + [s], steps + [step];
  }

  lemma UsersDiffer(u: string, v: string, id: string)
    requires u != v
    ensures SpawnName(u, id) != SpawnName(v, id)
  {
    assert |SpawnName(u, id)| - |u| == |SpawnName(v, id)| - |v|;
    assert SpawnName(u, id)[3..3 + |u|] == u && SpawnName(v, id)[3..3 + |v|] == v;
  }

  /** From the listing that finds no pod to the creation, with another spawn's
      call already in flight or not. */
  lemma Spawns(run: seq<State>, steps: seq<Step>, c: nat, pod: Pod, owner: string)
    returns (run': seq<State>, steps': seq<Step>)
    requires IsRun(0, run, steps) && IsSpawned(pod, pod.WorkspaceId(), owner) && c < |run[|steps|].calls|
    requires run[|steps|].calls[c] == SpawnUnique(pod.WorkspaceId(), owner, false) && pod.name !in run[|steps|].pods
    ensures IsRun(0, run', steps') && run'[0] == run[0]
    ensures var s := run[|steps|]; run'[|steps'|] == State(s.pods[pod.name := pod], s.calls[c := Over])
  {
    var s, id := run[|steps|], pod.WorkspaceId();
    run', steps' := Then(run, steps, CheckQuota(c), s.(calls := s.calls[c := SpawnAdmitted(id, owner, false)]));
    run', steps' := Then(run', steps', CreateSpawned(c, pod, true),
                         State(s.pods[pod.name := pod], s.calls[c := SpawnAdmitted(id, owner, false)][c := Over]));
    assert s.calls[c := SpawnAdmitted(id, owner, false)][c := Over] == s.calls[c := Over];
  }

  lemma BothFindNone(u: string, v: string, id: string) returns (run: seq<State>, steps: seq<Step>)
    requires u != "" && v != "" && id != ""
    ensures IsRun(0, run, steps) && run[0].pods == map[]
    ensures run[|steps|] == State(map[], [SpawnUnique(id, u, false), SpawnUnique(id, v, false)])
  {
    run, steps := [State(map[], [])], [];
    run, steps := Then(run, steps, StartSpawn(id, u, false), State(map[], [SpawnStarted(id, u, false)]));
    run, steps := Then(run, steps, StartSpawn(id, v, false),
                       State(map[], [SpawnStarted(id, u, false), SpawnStarted(id, v, false)]));
    assert Of(map[], id) == {};
    run, steps := Then(run, steps, CheckUnique(0), State(map[], [SpawnUnique(id, u, false), SpawnStarted(id, v, false)]));
    run, steps := Then(run, steps, CheckUnique(1), State(map[], [SpawnUnique(id, u, false), SpawnUnique(id, v, false)]));
  }

  /** Two users who spawn the same id at the same time both succeed. */
  lemma RacingSpawnsMixOwners(u: string, v: string, id: string) returns (run: seq<State>, steps: seq<Step>)
    requires u != "" && v != "" && u != v && id != ""
    ensures IsRun(0, run, steps) && run[0].pods == map[] && !OwnersAgree(run[|steps|].pods)
  {
    var pu, pv := Spawned(u, id), Spawned(v, id);
    SpawnedIsSpawned(u, id);
    SpawnedIsSpawned(v, id);
    UsersDiffer(u, v, id);
    run, steps := BothFindNone(u, v, id);
    run, steps := Spawns(run, steps, 0, pu, u);
    run, steps := Spawns(run, steps, 1, pv, v);
    assert run[|steps|].pods[pu.name] == pu && run[|steps|].pods[pv.name] == pv;
  }

  /** A user upgrades and stops a workspace; another takes the free id; the
      upgrade's worker then adds the first user's pod to it. */
  lemma LateUpgradeMixesOwners(u: string, v: string, id: string) returns (run: seq<State>, steps: seq<Step>)
    requires u != "" && v != "" && u != v && id != ""
    ensures IsRun(0, run, steps) && OwnersAgree(run[0].pods) && !OwnersAgree(run[|steps|].pods)
  {
    var pu, pv := Spawned(u, id), Spawned(v, id);
    SpawnedIsSpawned(u, id);
    SpawnedIsSpawned(v, id);
    var upgraded := UpgradedPodOf(pu, u, pv.name + "-up");
    assert upgraded.name != pv.name by { assert |upgraded.name| == |pv.name| + 3; }
    run, steps := UpgradedAndStopped(pu, u, upgraded);
    var captured := UpgradeCaptured(id, u, pu.name, upgraded);
    run, steps := FreeIdTaken(run, steps, [captured, Over], pv, v);
    run, steps := WorkerAdds(run, steps, captured, pv);
  }

  lemma FreeIdTaken(run: seq<State>, steps: seq<Step>, calls: seq<Call>, pod: Pod, owner: string)
    returns (run': seq<State>, steps': seq<Step>)
    requires IsRun(0, run, steps) && IsSpawned(pod, pod.WorkspaceId(), owner) && run[|steps|] == State(map[], calls)
    ensures IsRun(0, run', steps') && run'[0] == run[0]
    ensures run'[|steps'|] == State(map[pod.name := pod], calls + [Over])
  {
    var id, c := pod.WorkspaceId(), |calls|;
    var started, unique := SpawnStarted(id, owner, false), SpawnUnique(id, owner, false);
    assert Of(map[], id) == {};
    assert (calls + [started])[c := unique] == calls + [unique] && (calls + [unique])[c := Over] == calls + [Over];
    run', steps' := Then(run, steps, StartSpawn(id, owner, false), State(map[], calls + [started]));
    run', steps' := Then(run', steps', CheckUnique(c), State(map[], calls + [unique]));
    run', steps' := Spawns(run', steps', c, pod, owner);
  }

  lemma WorkerAdds(run: seq<State>, steps: seq<Step>, captured: Call, pv: Pod)
    returns (run': seq<State>, steps': seq<Step>)
    requires captured.UpgradeCaptured? && captured.pod.name != pv.name
    requires captured.pod.WorkspaceId() == pv.WorkspaceId() && captured.pod.Owner() != pv.Owner()
    requires IsRun(0, run, steps) && run[|steps|] == State(map[pv.name := pv], [captured, Over, Over])
    ensures IsRun(0, run', steps') && run'[0] == run[0] && !OwnersAgree(run'[|steps'|].pods)
  {
    var upgraded := captured.pod;
    var pods := map[pv.name := pv][upgraded.name := upgraded];
    run', steps' := Then(run, steps, CreateUpgraded(0, true), State(pods, [Over, Over, Over]));
    assert pods[pv.name] == pv && pods[upgraded.name] == upgraded;
  }

  lemma UpgradedAndStopped(pod: Pod, owner: string, upgraded: Pod) returns (run: seq<State>, steps: seq<Step>)
    requires IsSpawned(pod, pod.WorkspaceId(), owner) && UpgradedPod(upgraded, pod, owner)
    requires UpgradeOwner(pod.labels, pod.annotations, owner) == owner
    ensures IsRun(0, run, steps) && OwnersAgree(run[0].pods)
    ensures run[|steps|] == State(map[], [UpgradeCaptured(pod.WorkspaceId(), owner, pod.name, upgraded), Over])
  {
    var id, one := pod.WorkspaceId(), map[pod.name := pod];
    var captured := UpgradeCaptured(id, owner, pod.name, upgraded);
    run, steps := [State(one, [])], [];
    run, steps := Then(run, steps, StartUpgrade(pod.name, owner, false, upgraded), State(one, [captured]));
    run, steps := StoppedAlone(run, steps, [captured], pod, owner);
  }

  lemma StoppedAlone(run: seq<State>, steps: seq<Step>, calls: seq<Call>, pod: Pod, owner: string)
    returns (run': seq<State>, steps': seq<Step>)
    requires pod.IsWorkspace() && pod.Owner() == owner
    requires IsRun(0, run, steps) && run[|steps|] == State(map[pod.name := pod], calls)
    ensures IsRun(0, run', steps') && run'[0] == run[0] && run'[|steps'|] == State(map[], calls + [Over])
  {
    var id, one, c := pod.WorkspaceId(), map[pod.name := pod], |calls|;
    var stopping := Stopping([pod.name]);
    assert Stoppable(one, id, owner, false) == {pod.name};
    assert (calls + [stopping])[c := Over] == calls + [Over];
    run', steps' := Then(run, steps, ListForStop(id, owner, false, [pod.name]), State(one, calls + [stopping]));
    run', steps' := Then(run', steps', DeleteListed(c, true), State(map[], calls + [Over]));
  }
}
