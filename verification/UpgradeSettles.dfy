/** Upgrades and their clean-up together: what a run of the protocol comes to when
    it is followed by nothing but reconciles. */
module UpgradeSettles {
  import opened Pods
  import opened Reconcile
  import opened Convergence
  import opened UpgradeProtocol

  /** The pod that repeated reconciliation keeps is the one the protocol preserves. */
  lemma ChampionIsEssential(s: State, items: seq<Pod>, c: Core)
    requires Inv(s) && Alive(s) && Lists(items, s.pods) && Champion(Cores(items), c)
    ensures Essential(s, c.name)
  {
    var p :| p in items && CoreOf(p) == c;
    var n :| n in s.pods && Essential(s, n);
    assert s.pods[n] in items && CoreOf(s.pods[n]) in Cores(items);
    if c.ready {
      assert s.pods[n].Ready() && s.pods[n].created <= c.created;
    } else {
      assert !s.pods[n].Ready() && s.everReady == {};
      assert c.created <= s.pods[n].created;
    }
  }

  /** After any harmless run of upgrades and reconciles, once all unready pods are
      overdue and deletions succeed, reconciling n pods n - 1 times leaves exactly the
      pod that was to be kept: the newest that was ever ready, else the original. */
  lemma HarmlessRunsSettle(run: seq<State>, steps: seq<Step>, rounds: seq<seq<Pod>>, nows: seq<int>, stamp: string,
                           badPatches: set<string>)
    requires IsRun(run, steps) && forall i :: 0 <= i < |steps| ==> Harmless(run[i], steps[i])
    requires Rounds(rounds, nows, stamp, badPatches) && Lists(rounds[0], run[|steps|].pods)
    requires forall i :: 0 <= i < |nows| ==> Overdue(Cores(rounds[0]), nows[i])
    requires |nows| >= |rounds[0]| - 1
    ensures |rounds[|nows|]| == 1 && Essential(run[|steps|], rounds[|nows|][0].name)
  {
    var s := run[|steps|];
    HarmlessRunIsAlive(run, steps, |steps|);
    var n :| n in s.pods && Essential(s, n);
    assert s.pods[n] in rounds[0];
    ReconciliationConverges(rounds, nows, stamp, badPatches);
    ChampionIsEssential(s, rounds[0], CoreOf(rounds[|nows|][0]));
  }
}
