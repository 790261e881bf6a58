/** Session keys without a Secret: the oldest active pod generates a key, every
    other pod asks the pods older than itself for theirs. */
module PeerDiscovery {
  import opened Sorting
  import opened Pods

  datatype Id = Id(created: int, name: string)

  /** A pod of the deployment as one list call shows it. */
  datatype Peer = Peer(id: Id, phase: Phase, podIP: string, deleted: bool)

  predicate Active(p: Peer) { p.id.name != "" && !p.deleted && !p.phase.Failed? && !p.phase.Succeeded? }

  predicate Reachable(p: Peer) { p.phase.Running? && p.podIP != "" }

  /** Oldest first, ties broken by name. `nameLeq` stands for `localeCompare`. */
  predicate IdLeq(nameLeq: (string, string) -> bool, a: Id, b: Id) {
    if a.created != b.created then a.created < b.created else nameLeq(a.name, b.name)
  }

  function OldestFirst(nameLeq: (string, string) -> bool): (Peer, Peer) -> bool {
    (a: Peer, b: Peer) => IdLeq(nameLeq, a.id, b.id)
  }

  ghost predicate Total(nameLeq: (string, string) -> bool) {
    TotalPreorder(nameLeq) && Antisymmetric(nameLeq)
  }

  ghost predicate Older(nameLeq: (string, string) -> bool, a: Id, b: Id) {
    IdLeq(nameLeq, a, b) && a != b
  }

  datatype Role = Leader | Follower(ask: seq<Peer>)

  function IndexOf(peers: seq<Peer>, name: string): (i: nat)
    ensures i <= |peers|
    ensures i < |peers| ==> peers[i].id.name == name
    ensures forall k :: 0 <= k < i ==> peers[k].id.name != name
  {
    if peers == [] || peers[0].id.name == name then 0
    else
      var i := IndexOf(peers[1..], name);
      assert forall k :: 0 < k < i + 1 ==> peers[k] == peers[1..][k - 1];
      i + 1
  }

  /** One round of the election on one listing. A pod that does not find itself
      in the listing takes every pod for older. */
  function Elect(nameLeq: (string, string) -> bool, listing: seq<Peer>, me: string): Role {
    var sorted := Sort(OldestFirst(nameLeq), Filter(Active, listing));
    if sorted == [] || sorted[0].id.name == me then Leader
    else Follower(Filter(Reachable, sorted[..IndexOf(sorted, me)]))
  }

  ghost function Ids(peers: seq<Peer>): set<Id> { set p | p in peers :: p.id }

  /** The deployment is fixed: every listing shows the same active pods, in any
      order and in any state of health. */
  ghost predicate Shows(listing: seq<Peer>, members: set<Id>) {
    Ids(Filter(Active, listing)) == members
  }

  ghost predicate Members(members: set<Id>) {
    forall a, b :: a in members && b in members && a.name == b.name ==> a == b
  }

  ghost predicate Oldest(nameLeq: (string, string) -> bool, members: set<Id>, id: Id) {
    id in members && forall m :: m in members ==> IdLeq(nameLeq, id, m)
  }

  lemma OrderIsTotal(nameLeq: (string, string) -> bool)
    requires Total(nameLeq)
    ensures TotalPreorder(OldestFirst(nameLeq))
    ensures forall a, b :: IdLeq(nameLeq, a, b) && IdLeq(nameLeq, b, a) ==> a == b
  {
  }

  /** The sort puts the oldest member first and everything before a pod is older than it. */
  lemma SortedPeers(nameLeq: (string, string) -> bool, listing: seq<Peer>, members: set<Id>, me: Id) returns (j: nat)
    requires Total(nameLeq) && Members(members) && Shows(listing, members) && me in members
    ensures var sorted := Sort(OldestFirst(nameLeq), Filter(Active, listing));
            && j < |sorted| && sorted[j].id == me
            && (forall k :: 0 <= k < |sorted| ==> sorted[k].id in members)
            && (forall k :: 0 <= k < j ==> IdLeq(nameLeq, sorted[k].id, me))
            && forall m :: m in members ==> IdLeq(nameLeq, sorted[0].id, m)
  {
    var active := Filter(Active, listing);
    var sorted := Sort(OldestFirst(nameLeq), active);
    OrderIsTotal(nameLeq);
    SortSorts(OldestFirst(nameLeq), active);
    SortSameElements(OldestFirst(nameLeq), active);
    var mine :| mine in active && mine.id == me;
    assert mine in sorted;
    j :| 0 <= j < |sorted| && sorted[j] == mine;
    forall k | 0 <= k < |sorted| ensures sorted[k].id in members {
      assert sorted[k] in active;
    }
    forall k | 0 <= k < j ensures IdLeq(nameLeq, sorted[k].id, me) {
      assert OldestFirst(nameLeq)(sorted[k], sorted[j]);
    }
    forall m | m in members ensures IdLeq(nameLeq, sorted[0].id, m) {
      var p :| p in active && p.id == m;
      assert p in sorted;
      var k :| 0 <= k < |sorted| && sorted[k] == p;
      assert k == 0 || OldestFirst(nameLeq)(sorted[0], sorted[k]);
    }
  }

  /** Whatever order the API lists the pods in, the same one pod leads, and a
      follower asks only pods that are strictly older than itself. */
  lemma ElectionIsDeterministic(nameLeq: (string, string) -> bool, listing: seq<Peer>, members: set<Id>, me: Id)
    requires Total(nameLeq) && Members(members) && Shows(listing, members) && me in members
    ensures Elect(nameLeq, listing, me.name).Leader? <==> Oldest(nameLeq, members, me)
    ensures Elect(nameLeq, listing, me.name).Follower? ==>
              forall p :: p in Elect(nameLeq, listing, me.name).ask ==> p.id in members && Older(nameLeq, p.id, me)
  {
    var sorted := Sort(OldestFirst(nameLeq), Filter(Active, listing));
    var j := SortedPeers(nameLeq, listing, members, me);
    OrderIsTotal(nameLeq);
    var index := IndexOf(sorted, me.name);
    assert index <= j;
    FilterIn(Reachable, sorted[..index]);
    forall p | p in sorted[..index] ensures p.id in members && Older(nameLeq, p.id, me) {
      var k :| 0 <= k < index && sorted[k] == p;
    }
  }

  // ----- the protocol

  datatype Replica =
    | Listing(attempt: nat)
    | Asking(attempt: nat, ask: seq<string>)
    | Resolved(key: string, maker: string)      // and the pod that made the key

  /** `gaveUp` records the pods that fell back to a key of their own. */
  datatype State = State(replicas: map<string, Replica>, gaveUp: set<string>)

  datatype Config = Config(
    members: set<Id>,
    generated: string -> string,             // the random key a pod would generate
    attempts: nat,
    nameLeq: (string, string) -> bool)

  datatype Step =
    | Discover(me: string, listing: seq<Peer>)
    | ListFails(me: string)
    | Ask(me: string, answered: bool)
    | NextAttempt(me: string)

  ghost predicate Enabled(c: Config, s: State, step: Step) {
    step.me in s.replicas &&
    match step
    case Discover(me, listing) => s.replicas[me].Listing? && Shows(listing, c.members)
    case ListFails(me) => s.replicas[me].Listing?
    case Ask(me, answered) => s.replicas[me].Asking? && s.replicas[me].ask != []
    case NextAttempt(me) => s.replicas[me].Asking? && s.replicas[me].ask == []
  }

  function Own(c: Config, me: string): Replica { Resolved(c.generated(me), me) }

  function Names(peers: seq<Peer>): seq<string> {
    seq(|peers|, i requires 0 <= i < |peers| => peers[i].id.name)
  }

  function Do(c: Config, s: State, step: Step): State
    requires Enabled(c, s, step)
  {
    var me := step.me;
    match step
    case Discover(_, listing) =>
      (match Elect(c.nameLeq, listing, me)
       case Leader => s.(replicas := s.replicas[me := Own(c, me)])
       case Follower(ask) => s.(replicas := s.replicas[me := Asking(s.replicas[me].attempt, Names(ask))]))
    case ListFails(_) => State(s.replicas[me := Own(c, me)], s.gaveUp + {me})
    case Ask(_, answered) =>
      var Asking(attempt, ask) := s.replicas[me];
      // a peer without a key answers with an error
      if answered && ask[0] in s.replicas && s.replicas[ask[0]].Resolved? && s.replicas[ask[0]].key != ""
      then s.(replicas := s.replicas[me := s.replicas[ask[0]]])
      else s.(replicas := s.replicas[me := Asking(attempt, ask[1..])])
    case NextAttempt(_) =>
      if s.replicas[me].attempt < c.attempts
      then s.(replicas := s.replicas[me := Listing(s.replicas[me].attempt + 1)])
      else State(s.replicas[me := Own(c, me)], s.gaveUp + {me})
  }

  ghost predicate IsRun(c: Config, run: seq<State>, steps: seq<Step>) {
    && Total(c.nameLeq) && Members(c.members)
    && |run| == |steps| + 1
    && (forall n :: n in run[0].replicas ==> run[0].replicas[n] == Listing(1) && exists m :: m in c.members && m.name == n)
    && run[0].gaveUp == {}
    && forall k :: 0 <= k < |steps| ==> Enabled(c, run[k], steps[k]) && run[k + 1] == Do(c, run[k], steps[k])
  }

  /** `a` is the pod named `b` or older than it. */
  ghost predicate NoYounger(c: Config, a: string, b: string) {
    exists x, y :: x in c.members && y in c.members && x.name == a && y.name == b && IdLeq(c.nameLeq, x, y)
  }

  ghost predicate ReplicaOk(c: Config, s: State, me: string, r: Replica) {
    && NoYounger(c, me, me)
    && match r
       case Listing(_) => true
       case Asking(_, ask) => forall n :: n in ask ==> NoYounger(c, n, me)
       case Resolved(key, maker) =>
         && key == c.generated(maker) && NoYounger(c, maker, me)
         && (maker in s.gaveUp || exists m: Id :: m.name == maker && Oldest(c.nameLeq, c.members, m))
  }

  ghost predicate Inv(c: Config, s: State) {
    forall n :: n in s.replicas ==> ReplicaOk(c, s, n, s.replicas[n])
  }

  lemma NoYoungerTransitive(c: Config, x: string, y: string, z: string)
    requires Total(c.nameLeq) && Members(c.members) && NoYounger(c, x, y) && NoYounger(c, y, z)
    ensures NoYounger(c, x, z)
  {
    OrderIsTotal(c.nameLeq);
    var a, b :| a in c.members && b in c.members && a.name == x && b.name == y && IdLeq(c.nameLeq, a, b);
    var b', d :| b' in c.members && d in c.members && b'.name == y && d.name == z && IdLeq(c.nameLeq, b', d);
    assert IdLeq(c.nameLeq, a, d);
  }

  lemma DiscoverOk(c: Config, s: State, me: string, listing: seq<Peer>)
    requires Total(c.nameLeq) && Members(c.members) && Inv(c, s) && Enabled(c, s, Discover(me, listing))
    ensures ReplicaOk(c, s, me, Do(c, s, Discover(me, listing)).replicas[me])
  {
    assert ReplicaOk(c, s, me, s.replicas[me]);
    var id :| id in c.members && id.name == me;
    ElectionIsDeterministic(c.nameLeq, listing, c.members, id);
    match Elect(c.nameLeq, listing, me) {
      case Leader =>
      case Follower(ask) =>
        forall n | n in Names(ask) ensures NoYounger(c, n, me) {
          var i :| 0 <= i < |ask| && ask[i].id.name == n;
          assert ask[i] in ask;
        }
    }
  }

  lemma StepKeepsInv(c: Config, s: State, step: Step)
    requires Total(c.nameLeq) && Members(c.members) && Inv(c, s) && Enabled(c, s, step)
    ensures Inv(c, Do(c, s, step))
  {
    var t := Do(c, s, step);
    forall n | n in t.replicas ensures ReplicaOk(c, t, n, t.replicas[n]) {
      assert ReplicaOk(c, s, n, s.replicas[n]);
      if n == step.me {
        match step {
          case Discover(me, listing) => DiscoverOk(c, s, me, listing);
          case Ask(me, answered) =>
            var peer := s.replicas[me].ask[0];
            assert NoYounger(c, peer, me);
            if peer in s.replicas && s.replicas[peer].Resolved? {
              assert ReplicaOk(c, s, peer, s.replicas[peer]);
              NoYoungerTransitive(c, s.replicas[peer].maker, peer, me);
            }
          case _ =>
        }
      }
    }
  }

  lemma {:induction false} RunKeepsInv(c: Config, run: seq<State>, steps: seq<Step>, k: nat)
    requires IsRun(c, run, steps) && k <= |steps|
    ensures Inv(c, run[k])
  {
    if k > 0 {
      RunKeepsInv(c, run, steps, k - 1);
      StepKeepsInv(c, run[k - 1], steps[k - 1]);
    } else {
      OrderIsTotal(c.nameLeq);
      forall n | n in run[0].replicas ensures ReplicaOk(c, run[0], n, run[0].replicas[n]) {
        var m :| m in c.members && m.name == n;
        assert IdLeq(c.nameLeq, m, m);
      }
    }
  }

  /** In every state of every run, failures included: a held key was generated
      by a pod no younger than its holder, and by the leader unless its
      generator has given up on the leader. */
  lemma KeysComeFromElders(c: Config, run: seq<State>, steps: seq<Step>, k: nat, me: string)
    requires IsRun(c, run, steps) && k <= |steps| && me in run[k].replicas && run[k].replicas[me].Resolved?
    ensures var Resolved(key, maker) := run[k].replicas[me];
            && key == c.generated(maker) && NoYounger(c, maker, me)
            && (maker in run[k].gaveUp || exists m: Id :: m.name == maker && Oldest(c.nameLeq, c.members, m))
  {
    RunKeepsInv(c, run, steps, k);
    assert ReplicaOk(c, run[k], me, run[k].replicas[me]);
  }

  /** Who has given up goes on with its own key. */
  ghost predicate OnTheirOwn(c: Config, s: State) {
    forall n :: n in s.gaveUp ==> n in s.replicas && s.replicas[n] == Own(c, n)
  }

  lemma {:induction false} GivenUpForGood(c: Config, run: seq<State>, steps: seq<Step>, k: nat)
    requires IsRun(c, run, steps) && k <= |steps|
    ensures OnTheirOwn(c, run[k])
  {
    if k > 0 {
      GivenUpForGood(c, run, steps, k - 1);
      assert run[k] == Do(c, run[k - 1], steps[k - 1]);
    }
  }

  /** Agreement: if no follower has given up, every resolved key is the key the
      oldest pod generated, even where the oldest pod's own listing failed. */
  lemma ResolvedKeysAgree(c: Config, run: seq<State>, steps: seq<Step>, k: nat, leader: Id, me: string)
    requires IsRun(c, run, steps) && k <= |steps| && run[k].gaveUp <= {leader.name}
    requires Oldest(c.nameLeq, c.members, leader)
    requires me in run[k].replicas && run[k].replicas[me].Resolved?
    ensures run[k].replicas[me] == Resolved(c.generated(leader.name), leader.name)
  {
    KeysComeFromElders(c, run, steps, k, me);
    OrderIsTotal(c.nameLeq);
    if run[k].replicas[me].maker !in run[k].gaveUp {
      var m: Id :| m.name == run[k].replicas[me].maker && Oldest(c.nameLeq, c.members, m);
      assert IdLeq(c.nameLeq, m, leader) && IdLeq(c.nameLeq, leader, m);
    }
  }

  /** In every state of every run, all resolved keys are the oldest pod's if and only
      if no other pod has given up. */
  lemma AgreementExactly(c: Config, run: seq<State>, steps: seq<Step>, k: nat, leader: Id)
    requires IsRun(c, run, steps) && k <= |steps| && Oldest(c.nameLeq, c.members, leader)
    ensures (forall n :: n in run[k].replicas && run[k].replicas[n].Resolved? ==>
                           run[k].replicas[n] == Resolved(c.generated(leader.name), leader.name)) <==>
            run[k].gaveUp <= {leader.name}
  {
    GivenUpForGood(c, run, steps, k);
    if run[k].gaveUp <= {leader.name} {
      forall n | n in run[k].replicas && run[k].replicas[n].Resolved?
        ensures run[k].replicas[n] == Resolved(c.generated(leader.name), leader.name)
      {
        ResolvedKeysAgree(c, run, steps, k, leader, n);
      }
    }
  }

  /** The same for the keys alone, should two pods generate the same one. */
  lemma KeysAgreeExactly(c: Config, run: seq<State>, steps: seq<Step>, k: nat, leader: Id)
    requires IsRun(c, run, steps) && k <= |steps| && Oldest(c.nameLeq, c.members, leader)
    ensures (forall n :: n in run[k].replicas && run[k].replicas[n].Resolved? ==>
                           run[k].replicas[n].key == c.generated(leader.name)) <==>
            forall n :: n in run[k].gaveUp ==> c.generated(n) == c.generated(leader.name)
  {
    GivenUpForGood(c, run, steps, k);
    if forall n :: n in run[k].gaveUp ==> c.generated(n) == c.generated(leader.name) {
      OrderIsTotal(c.nameLeq);
      forall n | n in run[k].replicas && run[k].replicas[n].Resolved?
        ensures run[k].replicas[n].key == c.generated(leader.name)
      {
        KeysComeFromElders(c, run, steps, k, n);
        if run[k].replicas[n].maker !in run[k].gaveUp {
          var m: Id :| m.name == run[k].replicas[n].maker && Oldest(c.nameLeq, c.members, m);
          assert IdLeq(c.nameLeq, m, leader) && IdLeq(c.nameLeq, leader, m);
        }
      }
    }
    if forall n :: n in run[k].replicas && run[k].replicas[n].Resolved? ==> run[k].replicas[n].key == c.generated(leader.name) {
      forall n | n in run[k].gaveUp ensures c.generated(n) == c.generated(leader.name) {
        assert run[k].replicas[n] == Own(c, n);
      }
    }
  }

  /** A resolved key is cached for good. */
  lemma {:induction false} ResolvedKeysNeverChange(c: Config, run: seq<State>, steps: seq<Step>, j: nat, k: nat, me: string)
    requires IsRun(c, run, steps) && j <= k <= |steps|
    requires me in run[j].replicas && run[j].replicas[me].Resolved?
    ensures me in run[k].replicas && run[k].replicas[me] == run[j].replicas[me]
  {
    if j < k {
      ResolvedKeysNeverChange(c, run, steps, j, k - 1, me);
      assert run[k] == Do(c, run[k - 1], steps[k - 1]);
    }
  }

  /** The condition is needed: whatever the configuration, two pods whose list
      calls fail go on with keys of their own. */
  lemma GivingUpSplitsKeys(c: Config, a: Id, b: Id)
    requires Total(c.nameLeq) && Members(c.members) && a in c.members && b in c.members && a != b
    requires c.generated(a.name) != c.generated(b.name)
    ensures exists run: seq<State>, steps: seq<Step> ::
              && IsRun(c, run, steps) && a.name in run[|steps|].replicas && b.name in run[|steps|].replicas
              && run[|steps|].replicas[a.name].Resolved? && run[|steps|].replicas[b.name].Resolved?
              && run[|steps|].replicas[a.name].key != run[|steps|].replicas[b.name].key
  {
    var s0 := State(map[a.name := Listing(1), b.name := Listing(1)], {});
    var steps := [ListFails(a.name), ListFails(b.name)];
    var s1 := Do(c, s0, steps[0]);
    var s2 := Do(c, s1, steps[1]);
    var run := [s0, s1, s2];
    assert IsRun(c, run, steps);
  }
}
