/** The limit on concurrent workspaces, which is checked before the pod is
    created and not again. */
module Quota {
  import opened Sorting
  import opened Pods
  import opened Lifecycle

  /** A spawn by `owner` that has to respect the limit and is not over yet. */
  function InFlight(owner: string): Call -> bool {
    (c: Call) => (c.SpawnStarted? || c.SpawnUnique? || c.SpawnAdmitted?) && c.owner == owner && !c.admin
  }

  function Admitted(owner: string): Call -> bool {
    (c: Call) => c.SpawnAdmitted? && c.owner == owner && !c.admin
  }

  function Tally(keep: Call -> bool, calls: seq<Call>): nat { |Filter(keep, calls)| }

  ghost predicate WithinQuota(limit: nat, k: nat, s: State, owner: string) {
    |ActiveIds(s.pods, owner)| + Tally(Admitted(owner), s.calls) <= limit + k - 1
  }

  lemma {:induction false} TallyUpdate(keep: Call -> bool, calls: seq<Call>, c: nat, call: Call)
    requires c < |calls|
    ensures Tally(keep, calls[c := call]) ==
            Tally(keep, calls) - (if keep(calls[c]) then 1 else 0) + (if keep(call) then 1 else 0)
  {
    var head, tail := calls[..c], calls[c + 1..];
    assert calls == (head + [calls[c]]) + tail;
    assert calls[c := call] == (head + [call]) + tail;
    FilterConcat(keep, head + [calls[c]], tail);
    FilterConcat(keep, head + [call], tail);
    FilterAppend(keep, head, calls[c]);
    FilterAppend(keep, head, call);
  }

  lemma {:induction false} TallyMonotone(f: Call -> bool, g: Call -> bool, calls: seq<Call>)
    requires forall c :: f(c) ==> g(c)
    ensures Tally(f, calls) <= Tally(g, calls)
  {
    if calls != [] {
      TallyMonotone(f, g, calls[..|calls| - 1]);
    }
  }

  lemma Fewer(a: set<string>, b: set<string>)
    requires a <= b
    ensures |a| <= |b|
  {
    if a != b {
      var rest := b - a;
      assert b == a + rest;
    }
  }

  /** The pod gives the user an active workspace it does not have. */
  predicate AddsWorkspace(pods: map<string, Pod>, pod: Pod, owner: string) {
    && pod.IsWorkspace() && pod.Owner() == owner && IsActive(pod) && pod.WorkspaceId() != ""
    && pod.WorkspaceId() !in ActiveIds(pods, owner)
  }

  lemma CreateAddsExactly(pods: map<string, Pod>, pod: Pod, owner: string)
    requires pod.name !in pods
    ensures |ActiveIds(pods[pod.name := pod], owner)| ==
            |ActiveIds(pods, owner)| + if AddsWorkspace(pods, pod, owner) then 1 else 0
  {
    var before, after := ActiveIds(pods, owner), ActiveIds(pods[pod.name := pod], owner);
    var all := pods[pod.name := pod];
    forall id | id in before ensures id in after {
      var n :| n in pods && pods[n].WorkspaceId() == id && pods[n].IsWorkspace() && pods[n].Owner() == owner && IsActive(pods[n]);
      assert all[n] == pods[n];
    }
    forall id | id in after && id !in before ensures id == pod.WorkspaceId() && AddsWorkspace(pods, pod, owner) {
      var n :| n in all && all[n].WorkspaceId() == id && all[n].IsWorkspace() && all[n].Owner() == owner && IsActive(all[n]);
    }
    if AddsWorkspace(pods, pod, owner) {
      assert all[pod.name] == pod;
      assert after == before + {pod.WorkspaceId()};
    } else {
      assert after == before;
    }
  }

  lemma UpdateAddsNone(pods: map<string, Pod>, pod: Pod, owner: string)
    requires pod.name in pods && pod.labels == pods[pod.name].labels && (IsActive(pod) ==> IsActive(pods[pod.name]))
    ensures ActiveIds(pods[pod.name := pod], owner) <= ActiveIds(pods, owner)
  {
    forall id | id in ActiveIds(pods[pod.name := pod], owner) ensures id in ActiveIds(pods, owner) {
      var n :| n in pods[pod.name := pod] && pods[pod.name := pod][n].WorkspaceId() == id
               && pods[pod.name := pod][n].IsWorkspace() && pods[pod.name := pod][n].Owner() == owner
               && IsActive(pods[pod.name := pod][n]);
      assert pods[n].WorkspaceId() == id && pods[n].IsWorkspace() && pods[n].Owner() == owner && IsActive(pods[n]);
    }
  }

  /** The pod a creation that bypasses the check asks for: by an upgrade, or by a
      spawn of an administrator or for somebody else. */
  function Unchecked(s: State, step: Step, owner: string): Option<Pod>
    requires Enabled(s, step)
  {
    match step
    case CreateUpgraded(c, true) => Some(s.calls[c].pod)
    case CreateSpawned(c, pod, true) => if Admitted(owner)(s.calls[c]) then None else Some(pod)
    case _ => None
  }

  /** An unchecked creation gives the user a workspace beyond the bound. Before it
      creates its pod a worker could ask for the same listing as the quota check. */
  predicate Overdraws(limit: nat, k: nat, s: State, step: Step, owner: string)
    requires Enabled(s, step)
  {
    var created := Unchecked(s, step, owner);
    && created.Some? && created.value.name !in s.pods && AddsWorkspace(s.pods, created.value, owner)
    && |ActiveIds(s.pods, owner)| + Tally(Admitted(owner), s.calls) >= limit + k - 1
  }

  /** A step that creates no pod leaves the user no more active workspaces. */
  lemma OthersAddNone(limit: nat, s: State, step: Step, owner: string)
    requires Enabled(s, step) && !step.CreateSpawned? && !step.CreateUpgraded?
    ensures |ActiveIds(Do(limit, s, step).pods, owner)| <= |ActiveIds(s.pods, owner)|
  {
    var t := Do(limit, s, step);
    if step.Update? { UpdateAddsNone(s.pods, step.pod, owner); }
    assert ActiveIds(t.pods, owner) <= ActiveIds(s.pods, owner);
    Fewer(ActiveIds(t.pods, owner), ActiveIds(s.pods, owner));
  }

  /** Only the quota check admits a spawn. */
  lemma TallyAfter(limit: nat, s: State, step: Step, owner: string)
    requires Enabled(s, step) && !step.CheckQuota?
    ensures Tally(Admitted(owner), Do(limit, s, step).calls) ==
            Tally(Admitted(owner), s.calls) - if step.CreateSpawned? && Admitted(owner)(s.calls[step.c]) then 1 else 0
  {
    var t := Do(limit, s, step);
    match step {
      case StartSpawn(_, _, _) => FilterAppend(Admitted(owner), s.calls, t.calls[|s.calls|]);
      case StartUpgrade(_, _, _, _) => FilterAppend(Admitted(owner), s.calls, t.calls[|s.calls|]);
      case ListForStop(_, _, _, _) => FilterAppend(Admitted(owner), s.calls, t.calls[|s.calls|]);
      case CheckUnique(c) => TallyUpdate(Admitted(owner), s.calls, c, t.calls[c]);
      case CreateSpawned(c, _, _) => TallyUpdate(Admitted(owner), s.calls, c, Over);
      case CreateUpgraded(c, _) => TallyUpdate(Admitted(owner), s.calls, c, Over);
      case DeleteListed(c, _) => TallyUpdate(Admitted(owner), s.calls, c, t.calls[c]);
      case _ =>
    }
  }

  lemma StepKeepsQuota(limit: nat, k: nat, s: State, step: Step, owner: string)
    requires limit > 0 && Clean(s) && Enabled(s, step)
    requires WithinQuota(limit, k, s, owner)
    requires Tally(InFlight(owner), Do(limit, s, step).calls) <= k
    ensures WithinQuota(limit, k, Do(limit, s, step), owner) <==> !Overdraws(limit, k, s, step, owner)
  {
    var t := Do(limit, s, step);
    if step.CheckQuota? {
      TallyUpdate(Admitted(owner), s.calls, step.c, t.calls[step.c]);
      TallyMonotone(Admitted(owner), InFlight(owner), t.calls);
    } else {
      TallyAfter(limit, s, step, owner);
      if step.CreateSpawned? || step.CreateUpgraded? {
        var pod := if step.CreateSpawned? then step.pod else s.calls[step.c].pod;
        if pod.name !in s.pods { CreateAddsExactly(s.pods, pod, owner); }
      } else {
        OthersAddNone(limit, s, step, owner);
      }
    }
  }

  ghost predicate AtMostInFlight(run: seq<State>, owner: string, k: nat) {
    forall i :: 0 <= i < |run| ==> Tally(InFlight(owner), run[i].calls) <= k
  }

  /** The runs the bound is about: at most k spawns in flight, from at most `limit`
      active workspaces. */
  ghost predicate Covered(limit: nat, k: nat, run: seq<State>, steps: seq<Step>, owner: string) {
    && limit > 0 && k > 0
    && IsRun(limit, run, steps) && AtMostInFlight(run, owner, k) && |ActiveIds(run[0].pods, owner)| <= limit
  }

  ghost predicate NeverOverdraws(limit: nat, k: nat, run: seq<State>, steps: seq<Step>, owner: string)
    requires IsRun(limit, run, steps)
  {
    forall j :: 0 <= j < |steps| ==> !Overdraws(limit, k, run[j], steps[j], owner)
  }

  lemma RunStep(limit: nat, k: nat, run: seq<State>, steps: seq<Step>, owner: string, i: nat)
    requires Covered(limit, k, run, steps, owner) && i < |steps| && WithinQuota(limit, k, run[i], owner)
    ensures WithinQuota(limit, k, run[i + 1], owner) <==> !Overdraws(limit, k, run[i], steps[i], owner)
  {
    RunKeepsClean(limit, run, steps, i);
    assert Tally(InFlight(owner), run[i + 1].calls) <= k;
    StepKeepsQuota(limit, k, run[i], steps[i], owner);
  }

  lemma {:induction false} RunKeepsQuota(limit: nat, k: nat, run: seq<State>, steps: seq<Step>, owner: string, i: nat)
    requires Covered(limit, k, run, steps, owner) && i <= |steps|
    requires forall j :: 0 <= j < i ==> !Overdraws(limit, k, run[j], steps[j], owner)
    ensures WithinQuota(limit, k, run[i], owner)
  {
    if i > 0 {
      RunKeepsQuota(limit, k, run, steps, owner, i - 1);
      RunStep(limit, k, run, steps, owner, i - 1);
    } else {
      assert Filter(Admitted(owner), run[0].calls) == [];
    }
  }

  /** Active workspaces and admitted spawns stay within limit + k - 1 throughout a
      run if and only if no unchecked creation overdraws. */
  lemma QuotaKeptExactly(limit: nat, k: nat, run: seq<State>, steps: seq<Step>, owner: string)
    requires Covered(limit, k, run, steps, owner)
    ensures (forall i :: 0 <= i < |run| ==> WithinQuota(limit, k, run[i], owner)) <==>
            NeverOverdraws(limit, k, run, steps, owner)
  {
    if NeverOverdraws(limit, k, run, steps, owner) {
      forall i | 0 <= i < |run| ensures WithinQuota(limit, k, run[i], owner) {
        RunKeepsQuota(limit, k, run, steps, owner, i);
      }
    }
    if forall i :: 0 <= i < |run| ==> WithinQuota(limit, k, run[i], owner) {
      forall j | 0 <= j < |steps| ensures !Overdraws(limit, k, run[j], steps[j], owner) {
        assert WithinQuota(limit, k, run[j + 1], owner);
        RunStep(limit, k, run, steps, owner, j);
      }
    }
  }

  /** With at most k spawns of a user in flight the user never has more than
      limit + k - 1 active workspaces; one at a time, the limit is exact. */
  lemma QuotaBound(limit: nat, k: nat, run: seq<State>, steps: seq<Step>, owner: string, i: nat)
    requires Covered(limit, k, run, steps, owner) && NeverOverdraws(limit, k, run, steps, owner) && i <= |steps|
    ensures |ActiveIds(run[i].pods, owner)| <= limit + k - 1
  {
    RunKeepsQuota(limit, k, run, steps, owner, i);
  }

  // ----- active workspaces alone

  /** The pod a step adds, checked or not. */
  function Created(s: State, step: Step): Option<Pod>
    requires Enabled(s, step)
  {
    match step
    case CreateUpgraded(c, true) => if s.calls[c].pod.name !in s.pods then Some(s.calls[c].pod) else None
    case CreateSpawned(c, pod, true) => if pod.name !in s.pods then Some(pod) else None
    case _ => None
  }

  /** The step adds a workspace where the user has as many as the bound allows. */
  predicate Exceeds(limit: nat, k: nat, s: State, step: Step, owner: string)
    requires Enabled(s, step)
  {
    var created := Created(s, step);
    && created.Some? && AddsWorkspace(s.pods, created.value, owner)
    && |ActiveIds(s.pods, owner)| >= limit + k - 1
  }

  lemma StepKeepsActive(limit: nat, k: nat, s: State, step: Step, owner: string)
    requires Enabled(s, step) && |ActiveIds(s.pods, owner)| <= limit + k - 1
    ensures |ActiveIds(Do(limit, s, step).pods, owner)| <= limit + k - 1 <==> !Exceeds(limit, k, s, step, owner)
  {
    var created := Created(s, step);
    if created.Some? {
      CreateAddsExactly(s.pods, created.value, owner);
    } else if step.CreateSpawned? || step.CreateUpgraded? {
      assert Do(limit, s, step).pods == s.pods;
    } else {
      OthersAddNone(limit, s, step, owner);
    }
  }

  lemma {:induction false} RunKeepsActive(limit: nat, k: nat, run: seq<State>, steps: seq<Step>, owner: string, i: nat)
    requires Covered(limit, k, run, steps, owner) && i <= |steps|
    requires forall j :: 0 <= j < i ==> !Exceeds(limit, k, run[j], steps[j], owner)
    ensures |ActiveIds(run[i].pods, owner)| <= limit + k - 1
  {
    if i > 0 {
      RunKeepsActive(limit, k, run, steps, owner, i - 1);
      StepKeepsActive(limit, k, run[i - 1], steps[i - 1], owner);
    }
  }

  /** The user never has more than limit + k - 1 active workspaces if and only if no
      creation, checked or not, adds one where there are that many. */
  lemma ActiveKeptExactly(limit: nat, k: nat, run: seq<State>, steps: seq<Step>, owner: string)
    requires Covered(limit, k, run, steps, owner)
    ensures (forall i :: 0 <= i < |run| ==> |ActiveIds(run[i].pods, owner)| <= limit + k - 1) <==>
            forall j :: 0 <= j < |steps| ==> !Exceeds(limit, k, run[j], steps[j], owner)
  {
    if forall j :: 0 <= j < |steps| ==> !Exceeds(limit, k, run[j], steps[j], owner) {
      forall i | 0 <= i < |run| ensures |ActiveIds(run[i].pods, owner)| <= limit + k - 1 {
        RunKeepsActive(limit, k, run, steps, owner, i);
      }
    }
    if forall i :: 0 <= i < |run| ==> |ActiveIds(run[i].pods, owner)| <= limit + k - 1 {
      forall j | 0 <= j < |steps| ensures !Exceeds(limit, k, run[j], steps[j], owner) {
        assert |ActiveIds(run[j].pods, owner)| <= limit + k - 1 && |ActiveIds(run[j + 1].pods, owner)| <= limit + k - 1;
        StepKeepsActive(limit, k, run[j], steps[j], owner);
      }
    }
  }

  /** And where that happens, an unchecked creation is to blame: that step itself or an
      earlier one. */
  lemma ExcessIsUnchecked(limit: nat, k: nat, run: seq<State>, steps: seq<Step>, owner: string, i: nat)
    requires Covered(limit, k, run, steps, owner) && i < |steps| && Exceeds(limit, k, run[i], steps[i], owner)
    ensures exists j :: 0 <= j <= i && Overdraws(limit, k, run[j], steps[j], owner)
  {
    if forall j :: 0 <= j <= i ==> !Overdraws(limit, k, run[j], steps[j], owner) {
      RunKeepsQuota(limit, k, run, steps, owner, i);
      RunKeepsQuota(limit, k, run, steps, owner, i + 1);
      StepKeepsActive(limit, k, run[i], steps[i], owner);
      assert false;
    }
  }
}
