/** Replicas racing on the Kubernetes Secret that stores the session key: read
    it, create it if it is missing, read it again if another replica was first.
    Each step is one API call of one replica. */
module SecretRace {
  import opened Pods

  datatype Replica =
    | Fresh                    // nothing cached, about to read
    | Absent                   // the read said 404, about to create
    | Conflicted               // the create said 409, about to read again
    | Cached(key: string)
    | FellThrough              // on to peer discovery

  /** `secret` is the stored key, `Some("")` when the Secret holds none. */
  datatype State = State(secret: Option<string>, replicas: seq<Replica>)

  /** How an API call ends: served, or failed (any status but 404 and 409) with
      or without having taken effect. */
  datatype Reply = Served | Failed | ReplyLost

  datatype Step =
    | Read(i: nat, reply: Reply)
    | Create(i: nat, key: string, reply: Reply)
    | ReadAgain(i: nat, reply: Reply)
    | DeleteSecret

  predicate Enabled(s: State, step: Step) {
    match step
    case Read(i, reply) => i < |s.replicas| && s.replicas[i].Fresh?
    case Create(i, key, reply) => i < |s.replicas| && s.replicas[i].Absent? && key != ""
    case ReadAgain(i, reply) => i < |s.replicas| && s.replicas[i].Conflicted?
    case DeleteSecret => true
  }

  function AfterRead(secret: Option<string>, missing: Replica): Replica {
    match secret
    case None => missing
    case Some(key) => if key != "" then Cached(key) else FellThrough
  }

  function Do(s: State, step: Step): State
    requires Enabled(s, step)
  {
    match step
    case Read(i, reply) =>
      s.(replicas := s.replicas[i := if reply.Served? then AfterRead(s.secret, Absent) else FellThrough])
    case Create(i, key, reply) =>
      if s.secret.Some? then
        s.(replicas := s.replicas[i := if reply.Served? then Conflicted else FellThrough])
      else
        (match reply
         case Served => State(Some(key), s.replicas[i := Cached(key)])
         case Failed => s.(replicas := s.replicas[i := FellThrough])
         case ReplyLost => State(Some(key), s.replicas[i := FellThrough]))
    case ReadAgain(i, reply) =>
      s.(replicas := s.replicas[i := if reply.Served? then AfterRead(s.secret, FellThrough) else FellThrough])
    case DeleteSecret => s.(secret := None)
  }

  ghost predicate IsRun(run: seq<State>, steps: seq<Step>) {
    && |run| == |steps| + 1
    && (forall i :: 0 <= i < |run[0].replicas| ==> run[0].replicas[i].Fresh?)
    && forall k :: 0 <= k < |steps| ==> Enabled(run[k], steps[k]) && run[k + 1] == Do(run[k], steps[k])
  }

  predicate Done(r: Replica) { r.Cached? || r.FellThrough? }

  ghost predicate SecretStays(steps: seq<Step>) {
    forall k :: 0 <= k < |steps| ==> !steps[k].DeleteSecret?
  }

  /** Every key taken from the Secret is the one stored now, whatever API calls
      of whichever replicas failed. */
  lemma {:induction false} CachedKeysAreStored(run: seq<State>, steps: seq<Step>, k: nat)
    requires IsRun(run, steps) && SecretStays(steps) && k <= |steps|
    ensures forall i :: 0 <= i < |run[k].replicas| && run[k].replicas[i].Cached? ==>
                          run[k].secret == Some(run[k].replicas[i].key)
  {
    if k > 0 {
      CachedKeysAreStored(run, steps, k - 1);
      assert run[k] == Do(run[k - 1], steps[k - 1]);
    }
  }

  lemma {:induction false} NobodyFallsThrough(run: seq<State>, steps: seq<Step>, k: nat)
    requires IsRun(run, steps) && SecretStays(steps) && k <= |steps| && run[0].secret != Some("")
    requires forall j :: 0 <= j < |steps| ==> steps[j].reply.Served?
    ensures run[k].secret != Some("") && |run[k].replicas| == |run[0].replicas|
    ensures forall i :: 0 <= i < |run[k].replicas| ==>
                          !run[k].replicas[i].FellThrough? && (run[k].replicas[i].Conflicted? ==> run[k].secret.Some?)
  {
    if k > 0 {
      NobodyFallsThrough(run, steps, k - 1);
      assert run[k] == Do(run[k - 1], steps[k - 1]);
      assert steps[k - 1].reply.Served?;
    }
  }

  /** Without API failures and with a Secret that is neither emptied nor deleted,
      every replica that is done holds the stored key, so all of them agree. */
  lemma SecretRaceAgrees(run: seq<State>, steps: seq<Step>, k: nat, i: nat, j: nat)
    requires IsRun(run, steps) && SecretStays(steps) && k <= |steps| && run[0].secret != Some("")
    requires forall n :: 0 <= n < |steps| ==> steps[n].reply.Served?
    requires i < |run[k].replicas| && j < |run[k].replicas|
    requires Done(run[k].replicas[i]) && Done(run[k].replicas[j])
    ensures run[k].replicas[i].Cached? && run[k].replicas[i] == run[k].replicas[j]
    ensures run[k].secret == Some(run[k].replicas[i].key)
  {
    CachedKeysAreStored(run, steps, k);
    NobodyFallsThrough(run, steps, k);
  }

  ghost predicate AllStored(s: State) {
    forall i :: 0 <= i < |s.replicas| && s.replicas[i].Cached? ==> s.secret == Some(s.replicas[i].key)
  }

  /** The step deletes the Secret after a replica has cached its key. */
  predicate Orphans(s: State, step: Step) {
    step.DeleteSecret? && exists i :: 0 <= i < |s.replicas| && s.replicas[i].Cached?
  }

  lemma StepKeepsStored(s: State, step: Step)
    requires AllStored(s) && Enabled(s, step)
    ensures AllStored(Do(s, step)) <==> !Orphans(s, step)
  {
  }

  lemma {:induction false} StoredWithoutOrphans(run: seq<State>, steps: seq<Step>, k: nat)
    requires IsRun(run, steps) && k <= |steps| && forall j :: 0 <= j < |steps| ==> !Orphans(run[j], steps[j])
    ensures AllStored(run[k])
  {
    if k > 0 {
      StoredWithoutOrphans(run, steps, k - 1);
      StepKeepsStored(run[k - 1], steps[k - 1]);
    }
  }

  /** Every cached key is the stored one in every state of a run if and only if the
      Secret is never deleted once somebody has its key. */
  lemma CachedKeysStoredExactly(run: seq<State>, steps: seq<Step>)
    requires IsRun(run, steps)
    ensures (forall k :: 0 <= k < |run| ==> AllStored(run[k])) <==>
            forall j :: 0 <= j < |steps| ==> !Orphans(run[j], steps[j])
  {
    if forall j :: 0 <= j < |steps| ==> !Orphans(run[j], steps[j]) {
      forall k | 0 <= k < |run| ensures AllStored(run[k]) { StoredWithoutOrphans(run, steps, k); }
    }
    if forall k :: 0 <= k < |run| ==> AllStored(run[k]) {
      forall j | 0 <= j < |steps| ensures !Orphans(run[j], steps[j]) {
        assert AllStored(run[j]) && AllStored(run[j + 1]);
        StepKeepsStored(run[j], steps[j]);
      }
    }
  }

  /** Deleting the Secret between two replicas leaves them with different keys. */
  lemma DeletedSecretSplitsReplicas() returns (run: seq<State>, steps: seq<Step>)
    ensures IsRun(run, steps) && run[|steps|].replicas == [Cached("x"), Cached("y")]
    ensures Cached("x") != Cached("y")
  {
    run, steps := [State(None, [Fresh, Fresh])], [];
    run, steps := Then(run, steps, Read(0, Served), State(None, [Absent, Fresh]));
    run, steps := Then(run, steps, Create(0, "x", Served), State(Some("x"), [Cached("x"), Fresh]));
    run, steps := Then(run, steps, DeleteSecret, State(None, [Cached("x"), Fresh]));
    run, steps := Then(run, steps, Read(1, Served), State(None, [Cached("x"), Absent]));
    run, steps := Then(run, steps, Create(1, "y", Served), State(Some("y"), [Cached("x"), Cached("y")]));
    assert "x"[0] != "y"[0];
  }

  lemma Then(run: seq<State>, steps: seq<Step>, step: Step, s: State) returns (run': seq<State>, steps': seq<Step>)
    requires IsRun(run, steps) && Enabled(run[|steps|], step) && s == Do(run[|steps|], step)
    ensures IsRun(run', steps') && run' == run + [s] && steps' == steps + [step] && run'[|steps'|] == s
  {
    run', steps' := run + [s], steps + [step];
  }
}
