/** How one replica comes by its session key: configuration, the Secret, its
    peers, and a key of its own, in this order, and then never again. */
module SessionKey {
  import opened Sorting
  import opened Pods
  import P = PeerDiscovery
  import R = SecretRace

  datatype ReadReply = Data(key: string) | NotFound | Unreadable
  datatype CreateReply = Created | Conflict | Refused

  /** What this replica gets to see. `answer` is the key a peer gives at an attempt,
      empty if it gives none; `listing` is absent when the call fails. */
  datatype World = World(
    configured: string, hasApi: bool,
    firstRead: ReadReply, creation: CreateReply, secondRead: ReadReply,
    me: string, attempts: nat, nameLeq: (string, string) -> bool,
    listing: nat -> Option<seq<P.Peer>>, answer: (nat, string) -> string,
    secretKey: string, ownKey: string)      // the two random keys it may generate

  /** The key the Secret yields, empty if the replica has to go on. */
  function FromSecret(w: World): string {
    match w.firstRead
    case Data(key) => key
    case Unreadable => ""
    case NotFound =>
      (match w.creation
       case Created => w.secretKey
       case Refused => ""
       case Conflict => if w.secondRead.Data? then w.secondRead.key else "")
  }

  function FirstAnswer(ask: seq<P.Peer>, answer: string -> string): string {
    if ask == [] then ""
    else if answer(ask[0].id.name) != "" then answer(ask[0].id.name)
    else FirstAnswer(ask[1..], answer)
  }

  function AnswersAt(w: World, attempt: nat): string -> string { (name: string) => w.answer(attempt, name) }

  function FromPeers(w: World, attempt: nat): string
    decreases w.attempts + 1 - attempt
  {
    if attempt > w.attempts || w.listing(attempt).None? then ""
    else match P.Elect(w.nameLeq, w.listing(attempt).value, w.me)
      case Leader => ""
      case Follower(ask) =>
        var key := FirstAnswer(ask, AnswersAt(w, attempt));
        if key != "" then key else FromPeers(w, attempt + 1)
  }

  function Resolved(w: World): string {
    if w.configured != "" then w.configured
    else if w.hasApi && FromSecret(w) != "" then FromSecret(w)
    else if w.hasApi && FromPeers(w, 1) != "" then FromPeers(w, 1)
    else w.ownKey
  }

  /** The server module of one replica. */
  class Server {
    var cachedSessionKey: string

    constructor ()
      ensures cachedSessionKey == ""
    {
      cachedSessionKey := "";
    }

    /** The random keys are hexadecimal digits and not empty. */
    method ResolveSessionSecret(w: World) returns (key: string)
      requires w.secretKey != "" && w.ownKey != ""
      modifies this
      ensures key != ""
      ensures key == cachedSessionKey
      ensures key == if old(cachedSessionKey) != "" then old(cachedSessionKey) else Resolved(w)
    {
      if cachedSessionKey != "" {
        return cachedSessionKey;
      }
      if w.configured != "" {
        cachedSessionKey := w.configured;
        return cachedSessionKey;
      }
      if w.hasApi {
        if w.firstRead.Data? && w.firstRead.key != "" {
          cachedSessionKey := w.firstRead.key;
          return cachedSessionKey;
        }
        if w.firstRead.NotFound? {
          if w.creation.Created? {
            cachedSessionKey := w.secretKey;
            return cachedSessionKey;
          }
          if w.creation.Conflict? && w.secondRead.Data? && w.secondRead.key != "" {
            cachedSessionKey := w.secondRead.key;
            return cachedSessionKey;
          }
        }
        var found := AskPeers(w);
        if found != "" {
          cachedSessionKey := found;
          return cachedSessionKey;
        }
      }
      cachedSessionKey := w.ownKey;
      return cachedSessionKey;
    }
  }

  method AskPeers(w: World) returns (key: string)
    ensures key == FromPeers(w, 1)
  {
    var attempt: nat := 1;
    while attempt <= w.attempts
      invariant FromPeers(w, attempt) == FromPeers(w, 1)
    {
      if w.listing(attempt).None? {
        return "";
      }
      var role := P.Elect(w.nameLeq, w.listing(attempt).value, w.me);
      if role.Leader? {
        return "";
      }
      var i := 0;
      while i < |role.ask|
        invariant 0 <= i <= |role.ask|
        invariant FirstAnswer(role.ask[i..], AnswersAt(w, attempt)) == FirstAnswer(role.ask, AnswersAt(w, attempt))
      {
        var given := w.answer(attempt, role.ask[i].id.name);
        if given != "" {
          return given;
        }
        assert role.ask[i..][1..] == role.ask[i + 1..];
        i := i + 1;
      }
      attempt := attempt + 1;
    }
    return "";
  }

  // ----- the Secret: one replica's calls are those of the race

  function Seen(secret: Option<string>, reply: R.Reply): ReadReply {
    if !reply.Served? then Unreadable
    else match secret case None => NotFound case Some(key) => Data(key)
  }

  function SeenCreating(secret: Option<string>, reply: R.Reply): CreateReply {
    if !reply.Served? then Refused else if secret.Some? then Conflict else Created
  }

  function Race(key: string): R.Replica { if key != "" then R.Cached(key) else R.FellThrough }

  /** Whatever the others do between its calls: if the replies are those of the
      states s0, s1 and s2 in which the calls are made, the replica ends in the
      race as `FromSecret` says. */
  lemma ResolvesAsInRace(w: World, i: nat, s0: R.State, s1: R.State, s2: R.State, a: R.Reply, b: R.Reply, c: R.Reply)
    requires R.Enabled(s0, R.Read(i, a)) && w.firstRead == Seen(s0.secret, a) && w.secretKey != ""
    requires w.firstRead.NotFound? ==>
               R.Enabled(s1, R.Create(i, w.secretKey, b)) && w.creation == SeenCreating(s1.secret, b)
    requires w.firstRead.NotFound? && w.creation.Conflict? ==>
               R.Enabled(s2, R.ReadAgain(i, c)) && w.secondRead == Seen(s2.secret, c)
    ensures Race(FromSecret(w)) ==
            if !w.firstRead.NotFound? then R.Do(s0, R.Read(i, a)).replicas[i]
            else if !w.creation.Conflict? then R.Do(s1, R.Create(i, w.secretKey, b)).replicas[i]
            else R.Do(s2, R.ReadAgain(i, c)).replicas[i]
    ensures w.firstRead.NotFound? ==> R.Do(s0, R.Read(i, a)).replicas[i].Absent?
    ensures w.firstRead.NotFound? && w.creation.Conflict? ==>
              R.Do(s1, R.Create(i, w.secretKey, b)).replicas[i].Conflicted?
  {
  }

  // ----- the peers: whose key is adopted

  /** A peer that this replica asks: not about to go or over, running with an address, and strictly older. */
  ghost predicate Elder(w: World, me: P.Id, p: P.Peer) {
    && p.id.name != "" && !p.deleted && p.phase == Running && p.podIP != ""
    && (if p.id.created == me.created then w.nameLeq(p.id.name, me.name) && p.id != me else p.id.created < me.created)
  }

  ghost predicate OldPeer(w: World, me: P.Id, p: P.Peer) {
    P.Active(p) && P.Reachable(p) && P.Older(w.nameLeq, p.id, me)
  }

  lemma AsksOldPeers(w: World, listing: seq<P.Peer>, members: set<P.Id>, me: P.Id)
    requires P.Total(w.nameLeq) && P.Members(members) && P.Shows(listing, members) && me in members && me.name == w.me
    ensures match P.Elect(w.nameLeq, listing, w.me)
            case Leader => forall p :: p in listing ==> !OldPeer(w, me, p)
            case Follower(ask) => forall p :: p in ask <==> p in listing && OldPeer(w, me, p)
  {
    var active := Filter(P.Active, listing);
    var sorted := Sort(P.OldestFirst(w.nameLeq), active);
    var j := P.SortedPeers(w.nameLeq, listing, members, me);
    P.OrderIsTotal(w.nameLeq);
    SortSorts(P.OldestFirst(w.nameLeq), active);
    SortSameElements(P.OldestFirst(w.nameLeq), active);
    FilterIn(P.Active, listing);
    P.ElectionIsDeterministic(w.nameLeq, listing, members, me);
    var index := P.IndexOf(sorted, w.me);
    assert index <= j && sorted[index].id == me;
    FilterIn(P.Reachable, sorted[..index]);
    forall p | p in listing && OldPeer(w, me, p) ensures index > 0 && p in sorted[..index] {
      assert p in sorted;
      ElderComesFirst(w, sorted, index, me, p);
    }
    forall p | p in sorted[..index] ensures p in listing && P.Active(p) {
      assert p in sorted;
    }
  }

  lemma OldPeersAreElders(w: World, me: P.Id, p: P.Peer)
    ensures Elder(w, me, p) <==> OldPeer(w, me, p)
  {
  }

  lemma AsksExactlyElders(w: World, listing: seq<P.Peer>, members: set<P.Id>, me: P.Id)
    requires P.Total(w.nameLeq) && P.Members(members) && P.Shows(listing, members) && me in members && me.name == w.me
    ensures match P.Elect(w.nameLeq, listing, w.me)
            case Leader => forall p :: p in listing ==> !Elder(w, me, p)
            case Follower(ask) => forall p :: p in ask <==> p in listing && Elder(w, me, p)
  {
    AsksOldPeers(w, listing, members, me);
    forall p ensures Elder(w, me, p) <==> OldPeer(w, me, p) { OldPeersAreElders(w, me, p); }
  }

  lemma ElderComesFirst(w: World, sorted: seq<P.Peer>, index: nat, me: P.Id, p: P.Peer)
    requires P.Total(w.nameLeq) && Sorted(P.OldestFirst(w.nameLeq), sorted)
    requires index < |sorted| && sorted[index].id == me && p in sorted && P.Older(w.nameLeq, p.id, me)
    ensures p in sorted[..index]
  {
    P.OrderIsTotal(w.nameLeq);
    var k :| 0 <= k < |sorted| && sorted[k] == p;
    assert k < index;
  }

  predicate Alive(p: P.Peer) { p.id.name != "" && !p.deleted && p.phase !in {Failed, Succeeded} }

  lemma ActiveIsAlive(p: P.Peer)
    ensures P.Active(p) <==> Alive(p)
  {
  }

  /** A pod that is not in the listing takes every active pod for older. */
  lemma AbsentAsksAll(w: World, listing: seq<P.Peer>)
    requires forall p :: p in listing && Alive(p) ==> p.id.name != w.me
    ensures match P.Elect(w.nameLeq, listing, w.me)
            case Leader => forall p :: p in listing ==> !Alive(p)
            case Follower(ask) => forall p :: p in ask <==> p in listing && Alive(p) && p.phase == Running && p.podIP != ""
  {
    var active := Filter(P.Active, listing);
    forall p ensures p in active <==> p in listing && Alive(p) {
      FilterIn(P.Active, listing);
      ActiveIsAlive(p);
    }
    AsksAllOf(w, listing, active);
  }

  lemma AsksAllOf(w: World, listing: seq<P.Peer>, active: seq<P.Peer>)
    requires active == Filter(P.Active, listing) && forall p :: p in active ==> p.id.name != w.me
    ensures match P.Elect(w.nameLeq, listing, w.me)
            case Leader => active == []
            case Follower(ask) => forall p :: p in ask <==> p in active && p.phase == Running && p.podIP != ""
  {
    var sorted := Sort(P.OldestFirst(w.nameLeq), active);
    SortSameElements(P.OldestFirst(w.nameLeq), active);
    if sorted != [] {
      assert sorted[0] in sorted;
      var index := P.IndexOf(sorted, w.me);
      assert forall p :: p in sorted ==> p.id.name != w.me;
      assert index == |sorted| && sorted[..index] == sorted;
      FilterIn(P.Reachable, sorted);
    }
  }

  /** They are asked in the order of their age. */
  lemma AskedByAge(w: World, listing: seq<P.Peer>)
    requires P.Total(w.nameLeq) && P.Elect(w.nameLeq, listing, w.me).Follower?
    ensures Sorted(P.OldestFirst(w.nameLeq), P.Elect(w.nameLeq, listing, w.me).ask)
  {
    var sorted := Sort(P.OldestFirst(w.nameLeq), Filter(P.Active, listing));
    P.OrderIsTotal(w.nameLeq);
    SortSorts(P.OldestFirst(w.nameLeq), Filter(P.Active, listing));
    FilterSorted(P.OldestFirst(w.nameLeq), P.Reachable, sorted[..P.IndexOf(sorted, w.me)]);
  }

  lemma {:induction false} FirstAnswerMeaning(ask: seq<P.Peer>, answer: string -> string)
    ensures var key := FirstAnswer(ask, answer);
            if key == "" then forall p :: p in ask ==> answer(p.id.name) == ""
            else exists i :: 0 <= i < |ask| && answer(ask[i].id.name) == key
                             && forall k :: 0 <= k < i ==> answer(ask[k].id.name) == ""
  {
    if ask != [] && answer(ask[0].id.name) == "" {
      FirstAnswerMeaning(ask[1..], answer);
      assert ask == [ask[0]] + ask[1..];
      var key := FirstAnswer(ask, answer);
      if key != "" {
        var i :| 0 <= i < |ask[1..]| && answer(ask[1..][i].id.name) == key
                 && forall k :: 0 <= k < i ==> answer(ask[1..][k].id.name) == "";
        assert answer(ask[i + 1].id.name) == key;
        forall k | 0 <= k < i + 1 ensures answer(ask[k].id.name) == "" {
          if k > 0 { assert ask[k] == ask[1..][k - 1]; }
        }
      }
    }
  }

  /** Some elder answers at the attempt. */
  ghost predicate Answered(w: World, me: P.Id, attempt: nat) {
    w.listing(attempt).Some? &&
    exists p :: p in w.listing(attempt).value && Elder(w, me, p) && w.answer(attempt, p.id.name) != ""
  }

  /** No listing fails from one attempt to another. */
  ghost predicate Listed(w: World, from: nat, to: nat) { forall b :: from <= b <= to ==> w.listing(b).Some? }

  ghost predicate Fixed(w: World, members: set<P.Id>, me: P.Id) {
    && P.Total(w.nameLeq) && P.Members(members) && me in members && me.name == w.me
    && forall a :: w.listing(a).Some? ==> P.Shows(w.listing(a).value, members)
  }

  /** Some elder answers from this attempt on, before a listing fails. */
  ghost predicate AnsweredFrom(w: World, me: P.Id, attempt: nat) {
    exists a :: attempt <= a <= w.attempts && Listed(w, attempt, a) && Answered(w, me, a)
  }

  /** The oldest of the elders that answer at the attempt gives this key. */
  ghost predicate OldestGives(w: World, me: P.Id, attempt: nat, key: string) {
    w.listing(attempt).Some? &&
    exists p :: p in w.listing(attempt).value && Elder(w, me, p) && w.answer(attempt, p.id.name) == key &&
                forall q :: q in w.listing(attempt).value && Elder(w, me, q) && w.answer(attempt, q.id.name) != "" ==>
                              P.IdLeq(w.nameLeq, p.id, q.id)
  }

  /** From this attempt on, it is the key of the first attempt that is answered. */
  ghost predicate IsElders(w: World, me: P.Id, attempt: nat, key: string) {
    exists a: nat :: attempt <= a <= w.attempts && OldestGives(w, me, a, key) &&
                     forall b :: attempt <= b < a ==> !Answered(w, me, b)
  }

  /** From this attempt on a key is adopted if and only if an elder answers, and then it is an elder's. */
  ghost predicate Adopts(w: World, me: P.Id, attempt: nat) {
    && (FromPeers(w, attempt) != "" <==> AnsweredFrom(w, me, attempt))
    && (FromPeers(w, attempt) != "" ==> IsElders(w, me, attempt, FromPeers(w, attempt)))
  }

  lemma AdoptsStep(w: World, members: set<P.Id>, me: P.Id, attempt: nat)
    requires Fixed(w, members, me) && attempt <= w.attempts && w.listing(attempt).Some?
    requires Adopts(w, me, attempt + 1)
    ensures Adopts(w, me, attempt)
  {
    AnsweredStep(w, me, attempt);
    OneAttempt(w, members, me, attempt);
    if !Answered(w, me, attempt) && FromPeers(w, attempt) != "" {
      EldersLater(w, me, attempt, FromPeers(w, attempt));
    }
  }

  lemma EldersLater(w: World, me: P.Id, attempt: nat, key: string)
    requires !Answered(w, me, attempt) && IsElders(w, me, attempt + 1, key)
    ensures IsElders(w, me, attempt, key)
  {
    var a: nat :| attempt + 1 <= a <= w.attempts && OldestGives(w, me, a, key) &&
                  forall b :: attempt + 1 <= b < a ==> !Answered(w, me, b);
    assert forall b :: attempt <= b < a ==> !Answered(w, me, b);
  }

  lemma AdoptsNothing(w: World, me: P.Id, attempt: nat)
    requires attempt > w.attempts || w.listing(attempt).None?
    ensures Adopts(w, me, attempt)
  {
    AnsweredStep(w, me, attempt);
  }

  lemma {:induction false} AdoptsFrom(w: World, members: set<P.Id>, me: P.Id, attempt: nat)
    requires Fixed(w, members, me)
    ensures Adopts(w, me, attempt)
    decreases w.attempts + 1 - attempt
  {
    if attempt > w.attempts || w.listing(attempt).None? {
      AdoptsNothing(w, me, attempt);
    } else {
      AdoptsFrom(w, members, me, attempt + 1);
      AdoptsStep(w, members, me, attempt);
    }
  }

  /** A replica adopts a key if and only if an elder answers at an attempt before
      which no listing failed; then it is the key of the oldest of those that answer
      at the first attempt that any of them answers. */
  lemma AdoptsExactlyWhenAnswered(w: World, members: set<P.Id>, me: P.Id)
    requires Fixed(w, members, me)
    ensures FromPeers(w, 1) != "" <==> AnsweredFrom(w, me, 1)
    ensures FromPeers(w, 1) != "" ==> IsElders(w, me, 1, FromPeers(w, 1))
  {
    AdoptsFrom(w, members, me, 1);
  }

  lemma OneAttempt(w: World, members: set<P.Id>, me: P.Id, attempt: nat)
    requires Fixed(w, members, me) && attempt <= w.attempts && w.listing(attempt).Some?
    ensures Answered(w, me, attempt) ==> FromPeers(w, attempt) != "" && OldestGives(w, me, attempt, FromPeers(w, attempt))
    ensures !Answered(w, me, attempt) ==>
              || (FromPeers(w, attempt) == "" && !AnsweredFrom(w, me, attempt + 1))
              || FromPeers(w, attempt) == FromPeers(w, attempt + 1)
  {
    if P.Elect(w.nameLeq, w.listing(attempt).value, w.me).Leader? {
      LeaderHasNoElders(w, members, me, attempt);
    } else {
      FollowerAsks(w, members, me, attempt);
    }
  }

  lemma AnsweredStep(w: World, me: P.Id, attempt: nat)
    ensures AnsweredFrom(w, me, attempt) <==>
            attempt <= w.attempts && w.listing(attempt).Some? && (Answered(w, me, attempt) || AnsweredFrom(w, me, attempt + 1))
  {
    if AnsweredFrom(w, me, attempt) {
      var a :| attempt <= a <= w.attempts && Listed(w, attempt, a) && Answered(w, me, a);
      assert Listed(w, attempt + 1, a);
    }
    if attempt <= w.attempts && w.listing(attempt).Some? && AnsweredFrom(w, me, attempt + 1) {
      var a :| attempt + 1 <= a <= w.attempts && Listed(w, attempt + 1, a) && Answered(w, me, a);
      assert Listed(w, attempt, a);
    }
    assert w.listing(attempt).Some? ==> Listed(w, attempt, attempt);
  }

  lemma LeaderHasNoElders(w: World, members: set<P.Id>, me: P.Id, attempt: nat)
    requires Fixed(w, members, me) && w.listing(attempt).Some?
    requires P.Elect(w.nameLeq, w.listing(attempt).value, w.me).Leader?
    ensures forall a: nat :: !Answered(w, me, a)
    ensures !AnsweredFrom(w, me, attempt + 1)
  {
    P.ElectionIsDeterministic(w.nameLeq, w.listing(attempt).value, members, me);
    forall a: nat | w.listing(a).Some? ensures !Answered(w, me, a) {
      P.ElectionIsDeterministic(w.nameLeq, w.listing(a).value, members, me);
      AsksExactlyElders(w, w.listing(a).value, members, me);
    }
  }

  lemma FollowerAsks(w: World, members: set<P.Id>, me: P.Id, attempt: nat)
    requires Fixed(w, members, me) && attempt <= w.attempts && w.listing(attempt).Some?
    requires P.Elect(w.nameLeq, w.listing(attempt).value, w.me).Follower?
    ensures Answered(w, me, attempt) ==> FromPeers(w, attempt) != "" && OldestGives(w, me, attempt, FromPeers(w, attempt))
    ensures !Answered(w, me, attempt) ==> FromPeers(w, attempt) == FromPeers(w, attempt + 1)
  {
    var listing := w.listing(attempt).value;
    var ask := P.Elect(w.nameLeq, listing, w.me).ask;
    AsksExactlyElders(w, listing, members, me);
    FirstAnswerMeaning(ask, AnswersAt(w, attempt));
    var key := FirstAnswer(ask, AnswersAt(w, attempt));
    if key != "" {
      FirstIsOldest(w, members, me, attempt, key);
    }
  }

  lemma FirstIsOldest(w: World, members: set<P.Id>, me: P.Id, attempt: nat, key: string)
    requires Fixed(w, members, me) && w.listing(attempt).Some? && key != ""
    requires P.Elect(w.nameLeq, w.listing(attempt).value, w.me).Follower?
    requires key == FirstAnswer(P.Elect(w.nameLeq, w.listing(attempt).value, w.me).ask, AnswersAt(w, attempt))
    ensures Answered(w, me, attempt) && OldestGives(w, me, attempt, key)
  {
    var listing := w.listing(attempt).value;
    var ask, answer := P.Elect(w.nameLeq, listing, w.me).ask, AnswersAt(w, attempt);
    AsksExactlyElders(w, listing, members, me);
    AskedByAge(w, listing);
    FirstAnswerMeaning(ask, answer);
    var i :| 0 <= i < |ask| && answer(ask[i].id.name) == key && forall k :: 0 <= k < i ==> answer(ask[k].id.name) == "";
    var p := ask[i];
    assert p in ask && w.answer(attempt, p.id.name) == key;
    forall q | q in listing && Elder(w, me, q) && w.answer(attempt, q.id.name) != ""
      ensures P.IdLeq(w.nameLeq, p.id, q.id)
    {
      assert q in ask;
      var j :| 0 <= j < |ask| && ask[j] == q;
      assert answer(ask[j].id.name) != "" && j >= i;
      P.OrderIsTotal(w.nameLeq);
      assert i == j || P.OldestFirst(w.nameLeq)(ask[i], ask[j]);
    }
  }

  // ----- the answer as a whole

  /** The key, in terms of the replies: the configured one; else, with an API, the one in the
      Secret, whether it was there, was put there by this replica or by one that came first;
      else that of the oldest elder who answers, and if there is none the replica's own. */
  lemma ResolvedMeaning(w: World, members: set<P.Id>, me: P.Id)
    requires w.secretKey != ""
    ensures w.configured != "" ==> Resolved(w) == w.configured
    ensures w.configured == "" && !w.hasApi ==> Resolved(w) == w.ownKey
    ensures w.configured == "" && w.hasApi ==>
              match w.firstRead
              case Data(key) => if key != "" then Resolved(w) == key else ByPeers(w, members, me)
              case Unreadable => ByPeers(w, members, me)
              case NotFound =>
                match w.creation
                case Created => Resolved(w) == w.secretKey
                case Refused => ByPeers(w, members, me)
                case Conflict =>
                  if w.secondRead.Data? && w.secondRead.key != "" then Resolved(w) == w.secondRead.key
                  else ByPeers(w, members, me)
  {
    if Fixed(w, members, me) { AdoptsExactlyWhenAnswered(w, members, me); }
  }

  /** Without a key from the Secret it depends on the elders alone. */
  ghost predicate ByPeers(w: World, members: set<P.Id>, me: P.Id) {
    Fixed(w, members, me) ==>
      if AnsweredFrom(w, me, 1) then IsElders(w, me, 1, Resolved(w)) else Resolved(w) == w.ownKey
  }
}
