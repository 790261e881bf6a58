/** The Secret and the peers together: a replica that the Secret fails goes on to
    its peers, while others may hold the Secret's key. */
module KeyCascade {
  import opened Pods
  import P = PeerDiscovery
  import R = SecretRace

  /** Replicas at the Secret, and those beyond it. Who holds the Secret's key answers
      its peers like any other; its key has no maker among the pods. */
  datatype State = State(secret: Option<string>, waiting: map<string, R.Replica>, peers: P.State)

  datatype Step =
    | AtSecret(me: string, call: R.Step)      // the only replica of its own race
    | AtPeers(step: P.Step)

  const NOBODY := ""

  function Alone(s: State, me: string): R.State
    requires me in s.waiting
  {
    R.State(s.secret, [s.waiting[me]])
  }

  ghost predicate Enabled(c: P.Config, s: State, step: Step) {
    match step
    case AtSecret(me, call) => me in s.waiting && !call.DeleteSecret? && R.Enabled(Alone(s, me), call)
    case AtPeers(p) => P.Enabled(c, s.peers, p)
  }

  function Do(c: P.Config, s: State, step: Step): State
    requires Enabled(c, s, step)
  {
    match step
    case AtPeers(p) => s.(peers := P.Do(c, s.peers, p))
    case AtSecret(me, call) =>
      var after := R.Do(Alone(s, me), call);
      match after.replicas[0]
      case Cached(key) => Leave(s, after.secret, me, P.Resolved(key, NOBODY))
      case FellThrough => Leave(s, after.secret, me, P.Listing(1))
      case r => State(after.secret, s.waiting[me := r], s.peers)
  }

  function Leave(s: State, secret: Option<string>, me: string, r: P.Replica): State {
    State(secret, s.waiting - {me}, s.peers.(replicas := s.peers.replicas[me := r]))
  }

  ghost predicate IsRun(c: P.Config, run: seq<State>, steps: seq<Step>) {
    && |run| == |steps| + 1
    && (forall n :: n in run[0].waiting ==> run[0].waiting[n].Fresh? && n != NOBODY)
    && run[0].peers == P.State(map[], {})
    && forall k :: 0 <= k < |steps| ==> Enabled(c, run[k], steps[k]) && run[k + 1] == Do(c, run[k], steps[k])
  }

  /** The pods that went on with a key of their own, as leaders or because they gave up. */
  function Makers(c: P.Config, s: State): set<string> {
    set n | n in s.peers.replicas && s.peers.replicas[n] == P.Own(c, n)
  }

  /** Somebody holds the Secret's key. */
  predicate Served(s: State) {
    exists n :: n in s.peers.replicas && s.peers.replicas[n].Resolved? && s.peers.replicas[n].maker == NOBODY
  }

  ghost predicate Agreed(s: State) {
    forall a, b :: a in s.peers.replicas && b in s.peers.replicas
                   && s.peers.replicas[a].Resolved? && s.peers.replicas[b].Resolved? ==>
                     s.peers.replicas[a] == s.peers.replicas[b]
  }

  // ----- where keys come from

  ghost predicate SourceOk(c: P.Config, s: State, r: P.Replica) {
    r.Resolved? ==>
      if r.maker == NOBODY then s.secret == Some(r.key)
      else r == P.Own(c, r.maker) && r.maker in s.peers.replicas && s.peers.replicas[r.maker] == r
  }

  ghost predicate Inv(c: P.Config, s: State) {
    && (forall n :: n in s.waiting ==>
                      && n != NOBODY && n !in s.peers.replicas
                      && (s.waiting[n].Fresh? || s.waiting[n].Absent? || s.waiting[n].Conflicted?))
    && forall n :: n in s.peers.replicas ==> n != NOBODY && SourceOk(c, s, s.peers.replicas[n])
  }

  /** A key that is in the Secret stays there, since nobody deletes it. */
  lemma SecretStays(c: P.Config, s: State, step: Step)
    requires Enabled(c, s, step)
    ensures s.secret.Some? ==> Do(c, s, step).secret == s.secret
  {
  }

  lemma PeerStepKeepsInv(c: P.Config, s: State, p: P.Step)
    requires Inv(c, s) && Enabled(c, s, AtPeers(p))
    ensures Inv(c, Do(c, s, AtPeers(p)))
  {
    var t := Do(c, s, AtPeers(p));
    assert SourceOk(c, s, s.peers.replicas[p.me]);
    forall n | n in t.peers.replicas ensures n != NOBODY && SourceOk(c, t, t.peers.replicas[n]) {
      assert SourceOk(c, s, s.peers.replicas[n]);
      if n == p.me && p.Ask? && t.peers.replicas[n].Resolved? {
        var peer := s.peers.replicas[p.me].ask[0];
        assert SourceOk(c, s, s.peers.replicas[peer]);
      }
    }
  }

  lemma SecretStepKeepsInv(c: P.Config, s: State, me: string, call: R.Step)
    requires Inv(c, s) && Enabled(c, s, AtSecret(me, call))
    ensures Inv(c, Do(c, s, AtSecret(me, call)))
  {
    var t := Do(c, s, AtSecret(me, call));
    SecretStays(c, s, AtSecret(me, call));
    forall n | n in t.peers.replicas ensures n != NOBODY && SourceOk(c, t, t.peers.replicas[n]) {
      if n != me { assert SourceOk(c, s, s.peers.replicas[n]); }
    }
  }

  lemma {:induction false} RunKeepsInv(c: P.Config, run: seq<State>, steps: seq<Step>, k: nat)
    requires IsRun(c, run, steps) && k <= |steps|
    ensures Inv(c, run[k])
  {
    if k > 0 {
      RunKeepsInv(c, run, steps, k - 1);
      match steps[k - 1] {
        case AtPeers(p) => PeerStepKeepsInv(c, run[k - 1], p);
        case AtSecret(me, call) => SecretStepKeepsInv(c, run[k - 1], me, call);
      }
    }
  }

  // ----- who agrees

  /** In every state of every run, whatever calls fail: the replicas agree if and only
      if no pod made a key of its own, or one did and nobody has the Secret's. */
  lemma CascadeAgreesExactly(c: P.Config, run: seq<State>, steps: seq<Step>, k: nat)
    requires IsRun(c, run, steps) && k <= |steps|
    ensures var makers := Makers(c, run[k]);
            Agreed(run[k]) <==> makers == {} || (|makers| == 1 && !Served(run[k]))
  {
    RunKeepsInv(c, run, steps, k);
    var s := run[k];
    var makers := Makers(c, s);
    if Agreed(s) && makers != {} {
      var m :| m in makers;
      assert SourceOk(c, s, s.peers.replicas[m]);
      assert makers == {m};
    }
    if makers == {} || (|makers| == 1 && !Served(s)) {
      forall a, b | a in s.peers.replicas && b in s.peers.replicas
                    && s.peers.replicas[a].Resolved? && s.peers.replicas[b].Resolved?
        ensures s.peers.replicas[a] == s.peers.replicas[b]
      {
        assert SourceOk(c, s, s.peers.replicas[a]) && SourceOk(c, s, s.peers.replicas[b]);
        assert s.peers.replicas[a].maker == NOBODY || s.peers.replicas[a].maker in makers;
        assert s.peers.replicas[b].maker == NOBODY || s.peers.replicas[b].maker in makers;
        if makers != {} {
          OneElement(makers, s.peers.replicas[a].maker, s.peers.replicas[b].maker);
        }
      }
    }
  }

  lemma OneElement(names: set<string>, a: string, b: string)
    requires |names| == 1 && a in names && b in names
    ensures a == b
  {
    assert |names - {a}| == 0;
    assert b !in names - {a};
  }

  /** Which steps make a key: electing oneself, a failed listing, and the last
      attempt without an answer. */
  predicate Generates(c: P.Config, s: State, step: Step)
    requires Enabled(c, s, step)
  {
    step.AtPeers? &&
    match step.step
    case Discover(me, listing) => P.Elect(c.nameLeq, listing, me).Leader?
    case ListFails(_) => true
    case Ask(_, _) => false
    case NextAttempt(me) => s.peers.replicas[me].attempt >= c.attempts
  }

  lemma MakersGrowExactly(c: P.Config, s: State, step: Step)
    requires Inv(c, s) && Enabled(c, s, step)
    ensures Makers(c, Do(c, s, step)) ==
            if Generates(c, s, step) then Makers(c, s) + {step.step.me} else Makers(c, s)
  {
    var t := Do(c, s, step);
    if step.AtPeers? && step.step.Ask? {
      var me := step.step.me;
      var peer := s.peers.replicas[me].ask[0];
      if peer in s.peers.replicas { assert SourceOk(c, s, s.peers.replicas[peer]); }
    }
    assert forall n :: n in Makers(c, s) ==> n in t.peers.replicas && t.peers.replicas[n] == s.peers.replicas[n];
  }

  lemma {:induction false} NoMakers(c: P.Config, run: seq<State>, steps: seq<Step>, k: nat)
    requires IsRun(c, run, steps) && k <= |steps|
    ensures Makers(c, run[k]) == {} <==> forall j :: 0 <= j < k ==> !Generates(c, run[j], steps[j])
  {
    if k > 0 {
      NoMakers(c, run, steps, k - 1);
      RunKeepsInv(c, run, steps, k - 1);
      MakersGrowExactly(c, run[k - 1], steps[k - 1]);
    }
  }

  /** As long as somebody has the Secret's key, the replicas agree if and only if
      every replica that the Secret failed has found a peer to take its key from. */
  lemma ServedRunsAgreeExactly(c: P.Config, run: seq<State>, steps: seq<Step>, k: nat)
    requires IsRun(c, run, steps) && k <= |steps| && Served(run[k])
    ensures Agreed(run[k]) <==> forall j :: 0 <= j < k ==> !Generates(c, run[j], steps[j])
  {
    CascadeAgreesExactly(c, run, steps, k);
    NoMakers(c, run, steps, k);
  }

  // ----- the same, in terms of what happened in the run

  /** The step gives a replica the Secret's key. */
  predicate Serves(c: P.Config, s: State, step: Step)
    requires Enabled(c, s, step)
  {
    step.AtSecret? && R.Do(Alone(s, step.me), step.call).replicas[0].Cached?
  }

  lemma ServedGrowsExactly(c: P.Config, s: State, step: Step)
    requires Inv(c, s) && Enabled(c, s, step)
    ensures Served(Do(c, s, step)) <==> Served(s) || Serves(c, s, step)
  {
    var t := Do(c, s, step);
    if Served(s) {
      var n :| n in s.peers.replicas && s.peers.replicas[n].Resolved? && s.peers.replicas[n].maker == NOBODY;
      assert t.peers.replicas[n] == s.peers.replicas[n];
    }
    if Serves(c, s, step) {
      assert t.peers.replicas[step.me].maker == NOBODY;
    }
    if Served(t) && !Serves(c, s, step) {
      var n :| n in t.peers.replicas && t.peers.replicas[n].Resolved? && t.peers.replicas[n].maker == NOBODY;
      if step.AtPeers? && n == step.step.me && step.step.Ask? && !s.peers.replicas[n].Resolved? {
        var peer := s.peers.replicas[n].ask[0];
        assert s.peers.replicas[peer].maker == NOBODY;
      }
    }
  }

  /** How many steps before k made a key. */
  ghost function Generations(c: P.Config, run: seq<State>, steps: seq<Step>, k: nat): nat
    requires IsRun(c, run, steps) && k <= |steps|
  {
    if k == 0 then 0 else Generations(c, run, steps, k - 1) + if Generates(c, run[k - 1], steps[k - 1]) then 1 else 0
  }

  lemma {:induction false} GenerationsAreMakers(c: P.Config, run: seq<State>, steps: seq<Step>, k: nat)
    requires IsRun(c, run, steps) && k <= |steps|
    ensures |Makers(c, run[k])| == Generations(c, run, steps, k)
  {
    if k > 0 {
      GenerationsAreMakers(c, run, steps, k - 1);
      RunKeepsInv(c, run, steps, k - 1);
      MakersGrowExactly(c, run[k - 1], steps[k - 1]);
      if Generates(c, run[k - 1], steps[k - 1]) {
        assert steps[k - 1].step.me !in Makers(c, run[k - 1]);
      }
    }
  }

  lemma {:induction false} ServedInRun(c: P.Config, run: seq<State>, steps: seq<Step>, k: nat)
    requires IsRun(c, run, steps) && k <= |steps|
    ensures Served(run[k]) <==> exists j :: 0 <= j < k && Serves(c, run[j], steps[j])
  {
    if k > 0 {
      ServedInRun(c, run, steps, k - 1);
      RunKeepsInv(c, run, steps, k - 1);
      ServedGrowsExactly(c, run[k - 1], steps[k - 1]);
    }
  }

  /** All agree if and only if no step of the run has made a key, or one has and no step
      has served the Secret's. */
  lemma RunsAgreeExactly(c: P.Config, run: seq<State>, steps: seq<Step>, k: nat)
    requires IsRun(c, run, steps) && k <= |steps|
    ensures Agreed(run[k]) <==>
            || Generations(c, run, steps, k) == 0
            || (Generations(c, run, steps, k) == 1 && forall j :: 0 <= j < k ==> !Serves(c, run[j], steps[j]))
  {
    CascadeAgreesExactly(c, run, steps, k);
    GenerationsAreMakers(c, run, steps, k);
    ServedInRun(c, run, steps, k);
  }

  // ----- and for the keys alone, should the same one be made twice

  ghost predicate KeysAgree(s: State) {
    forall a, b :: a in s.peers.replicas && b in s.peers.replicas
                   && s.peers.replicas[a].Resolved? && s.peers.replicas[b].Resolved? ==>
                     s.peers.replicas[a].key == s.peers.replicas[b].key
  }

  /** The key of every maker, and the Secret's if somebody has it. */
  ghost predicate InUse(c: P.Config, s: State, key: string) {
    (exists m :: m in Makers(c, s) && c.generated(m) == key) || (Served(s) && s.secret == Some(key))
  }

  lemma HeldKeysAreInUse(c: P.Config, s: State, key: string)
    requires Inv(c, s)
    ensures InUse(c, s, key) <==>
            exists n :: n in s.peers.replicas && s.peers.replicas[n].Resolved? && s.peers.replicas[n].key == key
  {
    forall n | n in s.peers.replicas && s.peers.replicas[n].Resolved?
      ensures InUse(c, s, s.peers.replicas[n].key)
    {
      var r := s.peers.replicas[n];
      assert SourceOk(c, s, r);
      if r.maker != NOBODY { assert r.maker in Makers(c, s) && c.generated(r.maker) == r.key; }
    }
    if Served(s) && s.secret == Some(key) {
      var n :| n in s.peers.replicas && s.peers.replicas[n].Resolved? && s.peers.replicas[n].maker == NOBODY;
      assert SourceOk(c, s, s.peers.replicas[n]);
    }
    if m :| m in Makers(c, s) && c.generated(m) == key {
      assert s.peers.replicas[m].key == key;
    }
  }

  /** In every state of every run the replicas hold one key if and only if the makers
      generated the same one, and it is the Secret's if somebody has that. */
  lemma CascadeKeysAgreeExactly(c: P.Config, run: seq<State>, steps: seq<Step>, k: nat)
    requires IsRun(c, run, steps) && k <= |steps|
    ensures var s := run[k];
            KeysAgree(s) <==>
            && (forall m, n :: m in Makers(c, s) && n in Makers(c, s) ==> c.generated(m) == c.generated(n))
            && (Served(s) ==> forall m :: m in Makers(c, s) ==> s.secret == Some(c.generated(m)))
  {
    RunKeepsInv(c, run, steps, k);
    var s := run[k];
    if KeysAgree(s) {
      forall m, n | m in Makers(c, s) && n in Makers(c, s) ensures c.generated(m) == c.generated(n) {
        assert s.peers.replicas[m].key == s.peers.replicas[n].key;
      }
      if Served(s) {
        var n :| n in s.peers.replicas && s.peers.replicas[n].Resolved? && s.peers.replicas[n].maker == NOBODY;
        assert SourceOk(c, s, s.peers.replicas[n]);
        forall m | m in Makers(c, s) ensures s.secret == Some(c.generated(m)) {
          assert s.peers.replicas[m].key == s.peers.replicas[n].key;
        }
      }
    } else {
      var a, b :| a in s.peers.replicas && b in s.peers.replicas && s.peers.replicas[a].Resolved?
                  && s.peers.replicas[b].Resolved? && s.peers.replicas[a].key != s.peers.replicas[b].key;
      HeldKeysAreInUse(c, s, s.peers.replicas[a].key);
      HeldKeysAreInUse(c, s, s.peers.replicas[b].key);
    }
  }

  // ----- one failed call is enough

  lemma Then(c: P.Config, run: seq<State>, steps: seq<Step>, step: Step, s: State) returns (run': seq<State>, steps': seq<Step>)
    requires IsRun(c, run, steps) && Enabled(c, run[|steps|], step) && s == Do(c, run[|steps|], step)
    ensures IsRun(c, run', steps') && run' == run + [s] && steps' == steps + [step] && run'[|steps'|] == s
  {
    run', steps' := run + [s], steps + [step];
  }

  /** One replica finds the Secret, another's read fails and then its listing: it
      makes a key of its own. */
  lemma TransientFailureSplits(c: P.Config, a: string, b: string, key: string) returns (run: seq<State>, steps: seq<Step>)
    requires a != b && a != NOBODY && b != NOBODY && key != ""
    ensures IsRun(c, run, steps) && !Agreed(run[|steps|])
  {
    var none := P.State(map[], {});
    var start := State(Some(key), map[a := R.Fresh, b := R.Fresh], none);
    run, steps := [start], [];
    var one := State(Some(key), map[b := R.Fresh], P.State(map[a := P.Resolved(key, NOBODY)], {}));
    assert start.waiting - {a} == one.waiting;
    run, steps := Then(c, run, steps, AtSecret(a, R.Read(0, R.Served)), one);
    var two := State(Some(key), map[], P.State(map[a := P.Resolved(key, NOBODY), b := P.Listing(1)], {}));
    assert one.waiting - {b} == two.waiting;
    run, steps := Then(c, run, steps, AtSecret(b, R.Read(0, R.Failed)), two);
    var three := State(Some(key), map[], P.State(map[a := P.Resolved(key, NOBODY), b := P.Own(c, b)], {b}));
    run, steps := Then(c, run, steps, AtPeers(P.ListFails(b)), three);
    assert three.peers.replicas[a] != three.peers.replicas[b];
  }
}
