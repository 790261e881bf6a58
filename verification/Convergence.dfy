/** What repeated reconciliation leaves of a workspace. */
module Convergence {
  import opened Sorting
  import opened Pods
  import opened Reconcile

  /** The part of a pod that reconciliation reads and never changes. */
  datatype Core = Core(name: string, created: int, ready: bool)

  function CoreOf(p: Pod): Core { Core(p.name, p.created, p.Ready()) }

  ghost function Cores(pods: seq<Pod>): set<Core> { set p | p in pods :: CoreOf(p) }

  /** `c` is a newest ready pod or, when none is ready, an oldest pod. */
  ghost predicate Champion(cores: set<Core>, c: Core) {
    && c in cores
    && (c.ready ==> forall o :: o in cores && o.ready ==> o.created <= c.created)
    && (!c.ready ==> forall o :: o in cores ==> !o.ready && c.created <= o.created)
  }

  ghost predicate Overdue(cores: set<Core>, now: int) {
    forall c :: c in cores && !c.ready ==> now - c.created > READY_TIMEOUT_MS
  }

  /** One reconcile whose delete request, if it makes one, succeeds. */
  function Round(pods: seq<Pod>, now: int, stamp: string, badPatches: set<string>): seq<Pod> {
    CarryOut(pods, Decide(pods, now, stamp), Faults(badPatches, {}))
  }

  /** Consecutive reconciles. The API may list the pods in any order each time. */
  ghost predicate Rounds(rounds: seq<seq<Pod>>, nows: seq<int>, stamp: string, badPatches: set<string>) {
    && |rounds| == |nows| + 1
    && forall i :: 0 <= i < |nows| ==>
                     multiset(rounds[i + 1]) == multiset(Round(rounds[i], nows[i], stamp, badPatches))
  }

  lemma SameCores(a: seq<Pod>, b: seq<Pod>)
    requires multiset(a) == multiset(b)
    ensures |a| == |b| && Cores(a) == Cores(b)
  {
    assert |multiset(a)| == |a| && |multiset(b)| == |b|;
    assert forall p :: p in a <==> p in multiset(a);
    assert forall p :: p in b <==> p in multiset(b);
  }

  lemma PatchedCores(pods: seq<Pod>, patch: Patch)
    ensures Cores(Patched(pods, patch)) == Cores(pods)
    ensures UniqueNames(pods) ==> UniqueNames(Patched(pods, patch))
  {
    var r := Patched(pods, patch);
    forall p | p in pods ensures CoreOf(p) in Cores(r) {
      var i :| 0 <= i < |pods| && pods[i] == p;
      assert r[i] in r && CoreOf(r[i]) == CoreOf(p);
    }
    forall q | q in r ensures CoreOf(q) in Cores(pods) {
      var i :| 0 <= i < |r| && r[i] == q;
      assert pods[i] in pods && CoreOf(pods[i]) == CoreOf(q);
    }
  }

  lemma WithoutCores(pods: seq<Pod>, p: Pod)
    requires UniqueNames(pods) && p in pods
    ensures Cores(Without(pods, p.name)) == Cores(pods) - {CoreOf(p)}
  {
    WithoutIn(pods, p.name);
    forall q | q in pods && CoreOf(q) == CoreOf(p) ensures q == p {
      var i :| 0 <= i < |pods| && pods[i] == p;
      var j :| 0 <= j < |pods| && pods[j] == q;
    }
    forall q | q in pods && q.name == p.name ensures q == p {
      var i :| 0 <= i < |pods| && pods[i] == p;
      var j :| 0 <= j < |pods| && pods[j] == q;
    }
  }

  /** `gone` never beats `other`, which stays. */
  ghost predicate Outdone(cores: set<Core>, gone: Core, other: Core) {
    && gone in cores && other in cores && gone != other
    && (|| (other.ready && gone.created <= other.created)
        || (!gone.ready && forall o :: o in cores ==> o.created <= gone.created))
  }

  /** A round on two or more overdue pods removes exactly one of them. */
  lemma RoundRemovesOne(pods: seq<Pod>, now: int, stamp: string, badPatches: set<string>)
    returns (gone: Core, other: Core)
    requires UniqueNames(pods) && |pods| >= 2 && Overdue(Cores(pods), now)
    ensures var left := Round(pods, now, stamp, badPatches);
            && |left| == |pods| - 1 && UniqueNames(left)
            && Cores(left) == Cores(pods) - {gone}
    ensures Outdone(Cores(pods), gone, other)
  {
    NewestTwo(pods);
    var s := Sort(NewestFirst, pods);
    var d := Decide(pods, now, stamp);
    gone, other := CoreOf(s[0]), CoreOf(s[1]);
    if s[0].Ready() {
      gone, other := other, gone;
    }
    assert CoreOf(s[0]) in Cores(pods) && CoreOf(s[1]) in Cores(pods);
    assert d.delete == Some(gone.name);
    DeletionTakesOne(pods, d, badPatches, gone);
  }

  lemma DeletionTakesOne(pods: seq<Pod>, d: Decision, badPatches: set<string>, gone: Core)
    requires UniqueNames(pods) && gone in Cores(pods) && d.delete == Some(gone.name)
    ensures var left := CarryOut(pods, d, Faults(badPatches, {}));
            |left| == |pods| - 1 && UniqueNames(left) && Cores(left) == Cores(pods) - {gone}
  {
    var patched := if d.patch.Some? && d.patch.value.pod !in badPatches
                   then Patched(pods, d.patch.value) else pods;
    assert Cores(patched) == Cores(pods) && UniqueNames(patched) by {
      if d.patch.Some? { PatchedCores(pods, d.patch.value); }
    }
    var p :| p in patched && CoreOf(p) == gone;
    WithoutOne(patched, p.name);
    WithoutCores(patched, p);
  }

  lemma ChampionBack(cores: set<Core>, gone: Core, other: Core, c: Core)
    requires Outdone(cores, gone, other) && Champion(cores - {gone}, c)
    ensures Champion(cores, c)
  {
    assert other in cores - {gone};
  }

  lemma RoundsTail(rounds: seq<seq<Pod>>, nows: seq<int>, stamp: string, badPatches: set<string>)
    requires Rounds(rounds, nows, stamp, badPatches) && nows != []
    ensures Rounds(rounds[1..], nows[1..], stamp, badPatches)
    ensures |rounds[1]| == |Round(rounds[0], nows[0], stamp, badPatches)|
    ensures Cores(rounds[1]) == Cores(Round(rounds[0], nows[0], stamp, badPatches))
    ensures UniqueNames(Round(rounds[0], nows[0], stamp, badPatches)) ==> UniqueNames(rounds[1])
  {
    var next := Round(rounds[0], nows[0], stamp, badPatches);
    assert multiset(rounds[0 + 1]) == multiset(next);
    SameCores(rounds[1], next);
    if UniqueNames(next) {
      UniqueNamesPermute(next, rounds[1]);
    }
    forall i | 0 <= i < |nows[1..]|
      ensures multiset(rounds[1..][i + 1]) == multiset(Round(rounds[1..][i], nows[1..][i], stamp, badPatches))
    {
      assert multiset(rounds[(i + 1) + 1]) == multiset(Round(rounds[i + 1], nows[i + 1], stamp, badPatches));
    }
  }

  /** Reconciling n pods again and again takes one away per round until, after
      n - 1 rounds and ever after, exactly one is left: the newest ready pod if
      one was ready, otherwise the oldest. */
  lemma {:induction false} ReconciliationConverges(
    rounds: seq<seq<Pod>>, nows: seq<int>, stamp: string, badPatches: set<string>)
    requires Rounds(rounds, nows, stamp, badPatches)
    requires rounds[0] != [] && UniqueNames(rounds[0])
    requires forall i :: 0 <= i < |nows| ==> Overdue(Cores(rounds[0]), nows[i])
    ensures |rounds[|nows|]| == if |nows| < |rounds[0]| then |rounds[0]| - |nows| else 1
    ensures |nows| >= |rounds[0]| - 1 ==> Champion(Cores(rounds[0]), CoreOf(rounds[|nows|][0]))
  {
    var pods := rounds[0];
    if |nows| == 0 {
      if |pods| == 1 {
        assert Cores(pods) == {CoreOf(pods[0])};
      }
    } else {
      RoundsTail(rounds, nows, stamp, badPatches);
      var gone, other;
      if |pods| >= 2 {
        gone, other := RoundRemovesOne(pods, nows[0], stamp, badPatches);
      }
      forall i | 0 <= i < |nows[1..]| ensures Overdue(Cores(rounds[1]), nows[1..][i]) {
        assert Overdue(Cores(pods), nows[i + 1]);
      }
      ReconciliationConverges(rounds[1..], nows[1..], stamp, badPatches);
      assert rounds[1..][|nows[1..]|] == rounds[|nows|];
      if |pods| >= 2 && |nows| >= |pods| - 1 {
        ChampionBack(Cores(pods), gone, other, CoreOf(rounds[|nows|][0]));
      }
    }
  }
}
