/** The bound of `Quota` cannot be improved, and its assumption cannot be dropped. */
module QuotaSharpness {
  import opened Sorting
  import opened Pods
  import opened Labels
  import opened Lifecycle
  import opened Quota

  /** A pod that a spawn of the user creates. */
  ghost predicate IsSpawned(p: Pod, id: string, owner: string) {
    && SpawnedPod(p, id, owner) && Identity(p.labels, id, owner) && IsActive(p) && id != "" && owner != ""
    && p.IsWorkspace() && p.WorkspaceId() == id && p.Owner() == owner
  }

  /** Pods that a user spawns one after the other, for different workspaces. */
  ghost predicate Makes(make: nat -> Pod, owner: string) {
    && (forall i: nat {:trigger MadeFor(make, owner, i)} :: MadeFor(make, owner, i))
    && forall i: nat, j: nat {:trigger Apart(make, i, j)} :: i != j ==> Apart(make, i, j)
  }

  ghost predicate MadeFor(make: nat -> Pod, owner: string, i: nat) { IsSpawned(make(i), make(i).WorkspaceId(), owner) }

  predicate Apart(make: nat -> Pod, i: nat, j: nat) {
    make(i).name != make(j).name && make(i).WorkspaceId() != make(j).WorkspaceId()
  }

  /** The first n of them. */
  function Fleet(make: nat -> Pod, n: nat): map<string, Pod> {
    if n == 0 then map[] else Fleet(make, n - 1)[make(n - 1).name := make(n - 1)]
  }

  lemma {:induction false} FleetPod(make: nat -> Pod, n: nat, name: string) returns (i: nat)
    requires name in Fleet(make, n)
    ensures i < n && name == make(i).name && Fleet(make, n)[name] == make(i)
  {
    if name == make(n - 1).name {
      i := n - 1;
    } else {
      i := FleetPod(make, n - 1, name);
    }
  }

  lemma FleetGrows(make: nat -> Pod, owner: string, n: nat, i: nat)
    requires Makes(make, owner) && i >= n
    ensures make(i).name !in Fleet(make, n) && Of(Fleet(make, n), make(i).WorkspaceId()) == {}
    ensures make(i).WorkspaceId() !in ActiveIds(Fleet(make, n), owner)
  {
    forall name | name in Fleet(make, n)
      ensures name != make(i).name && Fleet(make, n)[name].WorkspaceId() != make(i).WorkspaceId()
    {
      var j := FleetPod(make, n, name);
      assert Apart(make, i, j);
    }
  }

  lemma {:induction false} FleetIsActive(make: nat -> Pod, owner: string, n: nat)
    requires Makes(make, owner)
    ensures |ActiveIds(Fleet(make, n), owner)| == n
  {
    if n > 0 {
      FleetIsActive(make, owner, n - 1);
      FleetGrows(make, owner, n - 1, n - 1);
      MadeBySpawn(make, owner, n - 1);
      ActiveWith(Fleet(make, n - 1), make(n - 1), owner);
    }
  }

  lemma ActiveWith(pods: map<string, Pod>, pod: Pod, owner: string)
    requires pod.name !in pods && pod.IsWorkspace() && pod.Owner() == owner && IsActive(pod) && pod.WorkspaceId() != ""
    ensures ActiveIds(pods[pod.name := pod], owner) == ActiveIds(pods, owner) + {pod.WorkspaceId()}
  {
    var all := pods[pod.name := pod];
    forall id | id in ActiveIds(all, owner) ensures id in ActiveIds(pods, owner) + {pod.WorkspaceId()} {
      var n :| n in all && all[n].IsWorkspace() && all[n].Owner() == owner && IsActive(all[n]) && all[n].WorkspaceId() == id;
      if n != pod.name { assert pods[n].WorkspaceId() == id; }
    }
    forall id | id in ActiveIds(pods, owner) + {pod.WorkspaceId()} ensures id in ActiveIds(all, owner) {
      if id == pod.WorkspaceId() {
        assert all[pod.name].WorkspaceId() == id;
      } else {
        var n :| n in pods && pods[n].IsWorkspace() && pods[n].Owner() == owner && IsActive(pods[n]) && pods[n].WorkspaceId() == id;
        assert all[n].WorkspaceId() == id;
      }
    }
  }

  lemma FleetIsClean(make: nat -> Pod, owner: string, n: nat)
    requires Makes(make, owner)
    ensures Clean(State(Fleet(make, n), []))
  {
    forall name | name in Fleet(make, n)
      ensures var p := Fleet(make, n)[name];
              p.name == name && p.WorkspaceId() != "" && p.Owner() != "" && Identity(p.labels, p.WorkspaceId(), p.Owner())
    {
      var i := FleetPod(make, n, name);
      assert MadeFor(make, owner, i);
    }
  }

  // ----- building runs one step at a time

  lemma Grow(limit: nat, k: nat, run: seq<State>, steps: seq<Step>, owner: string, step: Step)
    requires Covered(limit, k, run, steps, owner) && Enabled(run[|steps|], step)
    requires Tally(InFlight(owner), Do(limit, run[|steps|], step).calls) <= k
    ensures Covered(limit, k, run + [Do(limit, run[|steps|], step)], steps + [step], owner)
  {
    var longer := run + [Do(limit, run[|steps|], step)];
    forall i | 0 <= i < |longer| ensures Tally(InFlight(owner), longer[i].calls) <= k {
      if i < |run| { assert longer[i] == run[i]; }
    }
  }

  lemma {:induction false} TallyBounded(keep: Call -> bool, calls: seq<Call>)
    ensures Tally(keep, calls) <= |calls|
  {
    if calls != [] { TallyBounded(keep, calls[..|calls| - 1]); }
  }

  // ----- k spawns that all pass the check before the first of them creates its pod

  datatype Stage = Started | Unique | Admitted | Created

  function Rank(stage: Stage): nat {
    match stage case Started => 0 case Unique => 1 case Admitted => 2 case Created => 3
  }

  function Before(stage: Stage): Stage
    requires !stage.Started?
  {
    match stage case Unique => Started case Admitted => Unique case _ => Admitted
  }

  function CallAt(stage: Stage, owner: string, id: string): Call {
    match stage
    case Started => SpawnStarted(id, owner, false)
    case Unique => SpawnUnique(id, owner, false)
    case Admitted => SpawnAdmitted(id, owner, false)
    case Created => Over
  }

  function StepTo(make: nat -> Pod, n: nat, owner: string, stage: Stage, i: nat): Step {
    match stage
    case Started => StartSpawn(make(n + i).WorkspaceId(), owner, false)
    case Unique => CheckUnique(i)
    case Admitted => CheckQuota(i)
    case Created => CreateSpawned(i, make(n + i), true)
  }

  /** k spawns beside n active workspaces: the first `done` of them have reached the stage. */
  function Crowd(make: nat -> Pod, n: nat, k: nat, owner: string, stage: Stage, done: nat): State
    requires done <= k
  {
    State(Fleet(make, if stage.Created? then n + done else n),
          if stage.Started? then seq(done, (i: nat) => CallAt(stage, owner, make(n + i).WorkspaceId()))
          else seq(k, (i: nat) => CallAt(if i < done then stage else Before(stage), owner, make(n + i).WorkspaceId())))
  }

  lemma CrowdCalls(make: nat -> Pod, n: nat, k: nat, owner: string, stage: Stage, done: nat)
    requires done < k
    ensures var now, next := Crowd(make, n, k, owner, stage, done).calls, Crowd(make, n, k, owner, stage, done + 1).calls;
            var id := make(n + done).WorkspaceId();
            if stage.Started? then next == now + [CallAt(stage, owner, id)]
            else |now| == k && now[done] == CallAt(Before(stage), owner, id)
                 && next == now[done := CallAt(stage, owner, id)]
  {
  }

  lemma CrowdStep(limit: nat, k: nat, make: nat -> Pod, owner: string, stage: Stage, done: nat)
    requires 0 < limit && done < k && Makes(make, owner)
    ensures var s := Crowd(make, limit - 1, k, owner, stage, done);
            var step := StepTo(make, limit - 1, owner, stage, done);
            && Enabled(s, step) && !Overdraws(limit, k, s, step, owner)
            && Do(limit, s, step) == Crowd(make, limit - 1, k, owner, stage, done + 1)
  {
    var n := limit - 1;
    CrowdCalls(make, n, k, owner, stage, done);
    match stage {
      case Created => CrowdCreates(limit, k, make, owner, done);
      case Started => MadeBySpawn(make, owner, n + done);
      case Unique => FleetGrows(make, owner, n, n + done);
      case Admitted => FleetIsActive(make, owner, n);
    }
  }

  lemma CrowdCreates(limit: nat, k: nat, make: nat -> Pod, owner: string, done: nat)
    requires 0 < limit && done < k && Makes(make, owner)
    ensures var s := Crowd(make, limit - 1, k, owner, Created, done);
            var step := CreateSpawned(done, make(limit - 1 + done), true);
            && Enabled(s, step) && Do(limit, s, step) == Crowd(make, limit - 1, k, owner, Created, done + 1)
  {
    var n := limit - 1 + done;
    CrowdCalls(make, limit - 1, k, owner, Created, done);
    assert MadeFor(make, owner, n);
    FleetGrows(make, owner, n, n);
  }

  lemma MadeBySpawn(make: nat -> Pod, owner: string, i: nat)
    requires Makes(make, owner)
    ensures make(i).IsWorkspace() && make(i).Owner() == owner && IsActive(make(i))
    ensures make(i).WorkspaceId() != "" && owner != ""
  {
    assert MadeFor(make, owner, i);
  }

  /** A run, built from its last step backwards, that has come to the state s. */
  ghost predicate Reaches(limit: nat, k: nat, run: seq<State>, steps: seq<Step>, owner: string, s: State)
    decreases |steps|
  {
    && |run| == |steps| + 1 && run[|steps|] == s && |s.calls| <= k
    && if steps == [] then s.calls == [] && Clean(s) && |ActiveIds(s.pods, owner)| <= limit
       else
         var n := |steps| - 1;
         && Reaches(limit, k, run[..n + 1], steps[..n], owner, run[n])
         && Enabled(run[n], steps[n]) && !Overdraws(limit, k, run[n], steps[n], owner) && s == Do(limit, run[n], steps[n])
  }

  lemma {:induction false} ReachesCovered(limit: nat, k: nat, run: seq<State>, steps: seq<Step>, owner: string, s: State)
    requires 0 < limit && 0 < k && Reaches(limit, k, run, steps, owner, s)
    ensures Covered(limit, k, run, steps, owner) && NeverOverdraws(limit, k, run, steps, owner)
    decreases |steps|
  {
    TallyBounded(InFlight(owner), s.calls);
    if steps == [] {
      assert run == [s];
    } else {
      var n := |steps| - 1;
      var shorter, earlier := run[..n + 1], steps[..n];
      ReachesCovered(limit, k, shorter, earlier, owner, run[n]);
      Grow(limit, k, shorter, earlier, owner, steps[n]);
      assert run == shorter + [s] && steps == earlier + [steps[n]];
      forall j | 0 <= j < |steps| ensures !Overdraws(limit, k, run[j], steps[j], owner) {
        if j < n { assert shorter[j] == run[j] && earlier[j] == steps[j]; }
      }
    }
  }

  /** The step leads from s to t without overdrawing. */
  ghost predicate Links(limit: nat, k: nat, owner: string, s: State, step: Step, t: State) {
    Enabled(s, step) && !Overdraws(limit, k, s, step, owner) && t == Do(limit, s, step) && |t.calls| <= k
  }

  lemma ReachesNext(limit: nat, k: nat, run: seq<State>, steps: seq<Step>, owner: string, s: State, step: Step, t: State)
    returns (run': seq<State>, steps': seq<Step>)
    requires Reaches(limit, k, run, steps, owner, s) && Links(limit, k, owner, s, step, t)
    ensures Reaches(limit, k, run', steps', owner, t)
  {
    run', steps' := run + [t], steps + [step];
    assert run'[..|run|] == run && steps'[..|steps|] == steps;
  }

  lemma {:induction false} ReachesChain(limit: nat, k: nat, run: seq<State>, steps: seq<Step>, owner: string,
                                        at: nat -> State, via: nat -> Step, n: nat)
    returns (run': seq<State>, steps': seq<Step>)
    requires Reaches(limit, k, run, steps, owner, at(0))
    requires forall i: nat :: i < n ==> Links(limit, k, owner, at(i), via(i), at(i + 1))
    ensures Reaches(limit, k, run', steps', owner, at(n))
  {
    run', steps' := run, steps;
    if n > 0 {
      run', steps' := ReachesChain(limit, k, run, steps, owner, at, via, n - 1);
      assert Links(limit, k, owner, at(n - 1), via(n - 1), at(n - 1 + 1));
      run', steps' := ReachesNext(limit, k, run', steps', owner, at(n - 1), via(n - 1), at(n));
    }
  }

  lemma CrowdGathers(limit: nat, k: nat, make: nat -> Pod, owner: string) returns (run: seq<State>, steps: seq<Step>)
    requires 0 < limit && Makes(make, owner)
    ensures Reaches(limit, k, run, steps, owner, Crowd(make, limit - 1, k, owner, Started, 0))
  {
    run, steps := [State(Fleet(make, limit - 1), [])], [];
    FleetIsClean(make, owner, limit - 1);
    FleetIsActive(make, owner, limit - 1);
  }

  lemma StageEnds(make: nat -> Pod, n: nat, k: nat, owner: string, stage: Stage)
    requires !stage.Started?
    ensures Crowd(make, n, k, owner, Before(stage), k) == Crowd(make, n, k, owner, stage, 0)
  {
    assert Crowd(make, n, k, owner, Before(stage), k).calls == Crowd(make, n, k, owner, stage, 0).calls;
  }

  lemma CrowdLinks(limit: nat, k: nat, make: nat -> Pod, owner: string, stage: Stage, done: nat)
    requires 0 < limit && done < k && Makes(make, owner)
    ensures Links(limit, k, owner, Crowd(make, limit - 1, k, owner, stage, done), StepTo(make, limit - 1, owner, stage, done),
                  Crowd(make, limit - 1, k, owner, stage, done + 1))
  {
    CrowdStep(limit, k, make, owner, stage, done);
  }

  lemma ThroughStage(limit: nat, k: nat, make: nat -> Pod, run: seq<State>, steps: seq<Step>, owner: string, stage: Stage)
    returns (run': seq<State>, steps': seq<Step>)
    requires 0 < limit && Makes(make, owner)
    requires Reaches(limit, k, run, steps, owner, Crowd(make, limit - 1, k, owner, stage, 0))
    ensures Reaches(limit, k, run', steps', owner, Crowd(make, limit - 1, k, owner, stage, k))
  {
    var at := (i: nat) => Crowd(make, limit - 1, k, owner, stage, if i < k then i else k);
    var via := (i: nat) => StepTo(make, limit - 1, owner, stage, i);
    forall i: nat | i < k ensures Links(limit, k, owner, at(i), via(i), at(i + 1)) {
      CrowdLinks(limit, k, make, owner, stage, i);
    }
    run', steps' := ReachesChain(limit, k, run, steps, owner, at, via, k);
  }

  lemma {:induction false} ToStage(limit: nat, k: nat, make: nat -> Pod, owner: string, stage: Stage)
    returns (run: seq<State>, steps: seq<Step>)
    requires 0 < limit && Makes(make, owner)
    ensures Reaches(limit, k, run, steps, owner, Crowd(make, limit - 1, k, owner, stage, 0))
    decreases Rank(stage)
  {
    if stage.Started? {
      run, steps := CrowdGathers(limit, k, make, owner);
    } else {
      run, steps := ToStage(limit, k, make, owner, Before(stage));
      run, steps := ThroughStage(limit, k, make, run, steps, owner, Before(stage));
      StageEnds(make, limit - 1, k, owner, stage);
    }
  }

  // ----- pods to do it with

  function Wid(i: nat): string { seq(i + 1, (k: nat) => 'a') }

  function Spawned(owner: string, id: string): Pod {
    Pod(SpawnName(owner, id), SpawnLabels(map[], map[], map[], id, owner), map[], 0, Pending, "", NoState)
  }

  lemma SpawnedIsSpawned(owner: string, id: string)
    requires owner != "" && id != ""
    ensures IsSpawned(Spawned(owner, id), id, owner)
  {
    assert Spawned(owner, id).labels == SpawnLabels(map[], map[], map[], id, owner);
    SpawnedIdentity(Spawned(owner, id), id, owner);
  }

  lemma NamesDiffer(owner: string, a: string, b: string)
    requires |a| != |b|
    ensures SpawnName(owner, a) != SpawnName(owner, b)
  {
    assert |SpawnName(owner, a)| - |a| == |SpawnName(owner, b)| - |b|;
  }

  lemma SpawnedDiffer(owner: string, a: string, b: string)
    requires owner != "" && a != "" && b != "" && |a| != |b|
    ensures Spawned(owner, a).name != Spawned(owner, b).name
    ensures Spawned(owner, a).WorkspaceId() != Spawned(owner, b).WorkspaceId()
  {
    NamesDiffer(owner, a, b);
    SpawnedIsSpawned(owner, a);
    SpawnedIsSpawned(owner, b);
  }

  lemma UsersCanSpawn(owner: string) returns (make: nat -> Pod)
    requires owner != ""
    ensures Makes(make, owner)
  {
    make := (i: nat) => Spawned(owner, Wid(i));
    forall i: nat ensures MadeFor(make, owner, i) {
      SpawnedIsSpawned(owner, Wid(i));
    }
    forall i: nat, j: nat | i != j ensures Apart(make, i, j) {
      SpawnedDiffer(owner, Wid(i), Wid(j));
    }
  }

  lemma FullCrowd(limit: nat, k: nat, owner: string) returns (run: seq<State>, steps: seq<Step>, s: State)
    requires 0 < limit && 0 < k && owner != ""
    ensures Reaches(limit, k, run, steps, owner, s) && |ActiveIds(s.pods, owner)| == limit + k - 1
  {
    var make := UsersCanSpawn(owner);
    run, steps := ToStage(limit, k, make, owner, Created);
    run, steps := ThroughStage(limit, k, make, run, steps, owner, Created);
    s := Crowd(make, limit - 1, k, owner, Created, k);
    FleetIsActive(make, owner, limit + k - 1);
  }

  /** The bound is reached, for every limit and every number of concurrent spawns. */
  lemma QuotaBoundIsReached(limit: nat, k: nat, owner: string) returns (run: seq<State>, steps: seq<Step>)
    requires 0 < limit && 0 < k && owner != ""
    ensures Covered(limit, k, run, steps, owner) && NeverOverdraws(limit, k, run, steps, owner)
    ensures |ActiveIds(run[|steps|].pods, owner)| == limit + k - 1
  {
    var s;
    run, steps, s := FullCrowd(limit, k, owner);
    ReachesCovered(limit, k, run, steps, owner, s);
  }

  // ----- an upgrade can bring a stopped workspace back

  lemma UpgradedPodOf(first: Pod, owner: string, name: string) returns (upgraded: Pod)
    requires IsSpawned(first, first.WorkspaceId(), owner)
    ensures UpgradedPod(upgraded, first, owner) && upgraded.name == name && IsActive(upgraded)
    ensures UpgradeOwner(first.labels, first.annotations, owner) == owner
    ensures upgraded.IsWorkspace() && upgraded.WorkspaceId() == first.WorkspaceId() && upgraded.Owner() == owner
  {
    var labels := UpgradeLabels(map[], first.labels, map[], first.WorkspaceId(),
                                UpgradeOwner(first.labels, first.annotations, owner));
    upgraded := Pod(name, labels, map[], 0, Pending, "", NoState);
    UpgradedIdentity(upgraded, first, owner);
  }

  lemma Extended(run: seq<State>, steps: seq<Step>, owner: string, step: Step, s: State)
    returns (run': seq<State>, steps': seq<Step>)
    requires Covered(1, 1, run, steps, owner) && Enabled(run[|steps|], step) && s == Do(1, run[|steps|], step)
    requires Tally(InFlight(owner), s.calls) <= 1
    ensures Covered(1, 1, run', steps', owner) && run'[|steps'|] == s
  {
    Grow(1, 1, run, steps, owner, step);
    run', steps' := run + [s], steps + [step];
  }

  lemma NoneInFlight(calls: seq<Call>, owner: string)
    requires forall c :: c in calls ==> !InFlight(owner)(c)
    ensures Tally(InFlight(owner), calls) == 0
  {
    FilterIn(InFlight(owner), calls);
    if Filter(InFlight(owner), calls) != [] {
      assert Filter(InFlight(owner), calls)[0] in Filter(InFlight(owner), calls);
    }
  }

  lemma OneInFlight(calls: seq<Call>, call: Call, owner: string)
    requires forall c :: c in calls ==> !InFlight(owner)(c)
    ensures Tally(InFlight(owner), calls + [call]) <= 1
  {
    NoneInFlight(calls, owner);
    FilterAppend(InFlight(owner), calls, call);
  }

  lemma SingleWorkspace(first: Pod, owner: string) returns (run: seq<State>, steps: seq<Step>)
    requires IsSpawned(first, first.WorkspaceId(), owner)
    ensures Covered(1, 1, run, steps, owner) && run[|steps|] == State(map[first.name := first], [])
  {
    run, steps := [State(map[first.name := first], [])], [];
    ActiveWith(map[], first, owner);
    assert map[][first.name := first] == map[first.name := first];
    assert ActiveIds(map[], owner) == {};
    assert ActiveIds(run[0].pods, owner) == {first.WorkspaceId()};
  }

  lemma AdmitAlone(run: seq<State>, steps: seq<Step>, owner: string, calls: seq<Call>, id: string)
    returns (run': seq<State>, steps': seq<Step>)
    requires Covered(1, 1, run, steps, owner) && run[|steps|] == State(map[], calls) && id != "" && owner != ""
    requires forall c :: c in calls ==> !InFlight(owner)(c)
    ensures Covered(1, 1, run', steps', owner)
    ensures run'[|steps'|] == State(map[], calls + [SpawnAdmitted(id, owner, false)])
  {
    var c := |calls|;
    var started, unique, admitted := SpawnStarted(id, owner, false), SpawnUnique(id, owner, false), SpawnAdmitted(id, owner, false);
    OneInFlight(calls, started, owner);
    OneInFlight(calls, unique, owner);
    OneInFlight(calls, admitted, owner);
    run', steps' := Extended(run, steps, owner, StartSpawn(id, owner, false), State(map[], calls + [started]));
    assert Of(map[], id) == {} && ActiveIds(map[], owner) == {};
    assert (calls + [started])[c := unique] == calls + [unique] && (calls + [unique])[c := admitted] == calls + [admitted];
    run', steps' := Extended(run', steps', owner, CheckUnique(c), State(map[], calls + [unique]));
    run', steps' := Extended(run', steps', owner, CheckQuota(c), State(map[], calls + [admitted]));
  }

  lemma SpawnAlone(run: seq<State>, steps: seq<Step>, owner: string, calls: seq<Call>, pod: Pod)
    returns (run': seq<State>, steps': seq<Step>)
    requires IsSpawned(pod, pod.WorkspaceId(), owner)
    requires Covered(1, 1, run, steps, owner) && run[|steps|] == State(map[], calls)
    requires forall c :: c in calls ==> !InFlight(owner)(c)
    ensures Covered(1, 1, run', steps', owner) && run'[|steps'|] == State(map[pod.name := pod], calls + [Over])
  {
    run', steps' := AdmitAlone(run, steps, owner, calls, pod.WorkspaceId());
    run', steps' := CreateAlone(run', steps', owner, calls, pod, pod.WorkspaceId());
  }

  lemma CreateAlone(run: seq<State>, steps: seq<Step>, owner: string, calls: seq<Call>, pod: Pod, id: string)
    returns (run': seq<State>, steps': seq<Step>)
    requires SpawnedPod(pod, id, owner) && Covered(1, 1, run, steps, owner)
    requires run[|steps|] == State(map[], calls + [SpawnAdmitted(id, owner, false)])
    requires forall c :: c in calls ==> !InFlight(owner)(c)
    ensures Covered(1, 1, run', steps', owner) && run'[|steps'|] == State(map[pod.name := pod], calls + [Over])
  {
    var admitted := SpawnAdmitted(id, owner, false);
    OneInFlight(calls, Over, owner);
    assert (calls + [admitted])[|calls| := Over] == calls + [Over];
    run', steps' := Extended(run, steps, owner, CreateSpawned(|calls|, pod, true), State(map[pod.name := pod], calls + [Over]));
  }

  lemma StopAlone(run: seq<State>, steps: seq<Step>, owner: string, calls: seq<Call>, pod: Pod)
    returns (run': seq<State>, steps': seq<Step>)
    requires pod.IsWorkspace() && pod.Owner() == owner
    requires Covered(1, 1, run, steps, owner) && run[|steps|] == State(map[pod.name := pod], calls)
    requires forall c :: c in calls ==> !InFlight(owner)(c)
    ensures Covered(1, 1, run', steps', owner) && run'[|steps'|] == State(map[], calls + [Over])
  {
    var one := map[pod.name := pod];
    var stopping := Stopping([pod.name]);
    OneInFlight(calls, stopping, owner);
    OneInFlight(calls, Over, owner);
    assert Stoppable(one, pod.WorkspaceId(), owner, false) == {pod.name};
    run', steps' := Extended(run, steps, owner, ListForStop(pod.WorkspaceId(), owner, false, [pod.name]),
                             State(one, calls + [stopping]));
    assert (calls + [stopping])[|calls| := Over] == calls + [Over];
    run', steps' := Extended(run', steps', owner, DeleteListed(|calls|, true), State(map[], calls + [Over]));
  }

  lemma UpgradeThenStop(first: Pod, owner: string, upgraded: Pod) returns (run: seq<State>, steps: seq<Step>)
    requires IsSpawned(first, first.WorkspaceId(), owner) && UpgradedPod(upgraded, first, owner)
    requires UpgradeOwner(first.labels, first.annotations, owner) == owner
    ensures Covered(1, 1, run, steps, owner)
    ensures run[|steps|] == State(map[], [UpgradeCaptured(first.WorkspaceId(), owner, first.name, upgraded), Over])
  {
    var one, captured := map[first.name := first], UpgradeCaptured(first.WorkspaceId(), owner, first.name, upgraded);
    OneInFlight([], captured, owner);
    run, steps := SingleWorkspace(first, owner);
    run, steps := Extended(run, steps, owner, StartUpgrade(first.name, owner, false, upgraded), State(one, [captured]));
    run, steps := StopAlone(run, steps, owner, [captured], first);
  }

  lemma UpgradeGoesOn(run: seq<State>, steps: seq<Step>, owner: string, captured: Call, second: Pod)
    returns (run': seq<State>, steps': seq<Step>)
    requires captured.UpgradeCaptured? && IsSpawned(second, second.WorkspaceId(), owner)
    requires Covered(1, 1, run, steps, owner) && run[|steps|] == State(map[second.name := second], [captured, Over, Over])
    requires captured.pod.IsWorkspace() && captured.pod.Owner() == owner && IsActive(captured.pod)
    requires captured.pod.WorkspaceId() != "" && captured.pod.WorkspaceId() != second.WorkspaceId()
    requires captured.pod.name != second.name
    ensures Covered(1, 1, run', steps', owner) && |ActiveIds(run'[|steps'|].pods, owner)| == 2
  {
    var upgraded := captured.pod;
    var pods := map[second.name := second][upgraded.name := upgraded];
    NoneInFlight([Over, Over, Over], owner);
    run', steps' := Extended(run, steps, owner, CreateUpgraded(0, true), State(pods, [Over, Over, Over]));
    TwoActive(second, upgraded, owner);
  }

  lemma TwoActive(a: Pod, b: Pod, owner: string)
    requires a.IsWorkspace() && a.Owner() == owner && IsActive(a) && a.WorkspaceId() != ""
    requires b.IsWorkspace() && b.Owner() == owner && IsActive(b) && b.WorkspaceId() != ""
    requires a.name != b.name && a.WorkspaceId() != b.WorkspaceId()
    ensures |ActiveIds(map[a.name := a][b.name := b], owner)| == 2
  {
    ActiveWith(map[a.name := a], b, owner);
    ActiveWith(map[], a, owner);
    assert map[][a.name := a] == map[a.name := a];
    assert ActiveIds(map[], owner) == {};
    assert ActiveIds(map[a.name := a][b.name := b], owner) == {a.WorkspaceId(), b.WorkspaceId()};
  }

  lemma TwoWorkspaces(owner: string) returns (first: Pod, second: Pod)
    requires owner != ""
    ensures IsSpawned(first, first.WorkspaceId(), owner) && IsSpawned(second, second.WorkspaceId(), owner)
    ensures first.WorkspaceId() != second.WorkspaceId()
  {
    var make := UsersCanSpawn(owner);
    first, second := make(0), make(1);
    assert MadeFor(make, owner, 0) && MadeFor(make, owner, 1) && Apart(make, 0, 1);
  }

  /** One workspace is upgraded and stopped before the background worker creates
      the new pod. Another is spawned within the limit, and then the worker goes on:
      with a single spawn in flight the user ends up above a limit of one. */
  lemma UpgradeEvadesQuota(owner: string) returns (run: seq<State>, steps: seq<Step>)
    requires owner != ""
    ensures Covered(1, 1, run, steps, owner) && |ActiveIds(run[|steps|].pods, owner)| == 2
  {
    var first, second := TwoWorkspaces(owner);
    var upgraded := UpgradedPodOf(first, owner, second.name + "-up");
    assert upgraded.name != second.name by { assert |upgraded.name| == |second.name| + 3; }
    var captured := UpgradeCaptured(first.WorkspaceId(), owner, first.name, upgraded);
    run, steps := UpgradeThenStop(first, owner, upgraded);
    run, steps := SpawnAlone(run, steps, owner, [captured, Over], second);
    run, steps := UpgradeGoesOn(run, steps, owner, captured, second);
  }
}
