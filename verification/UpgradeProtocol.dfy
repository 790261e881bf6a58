/** Side-by-side upgrades of one workspace, any number of them at once, together
    with the reconciles and the two proxies that act on the same pods without a
    lock. A step is one call to the Kubernetes API; between two calls of one
    party every other party may act.

    The environment is trusted this far: creation times strictly increase, pod
    names are never reused, and a pod that has become ready stays ready. */
module UpgradeProtocol {
  import opened Sorting
  import opened Pods
  import opened Reconcile

  const POLL_ATTEMPTS := 120

  /** A background upgrade, with the names it captured when it started. */
  datatype Worker =
    | Starting(oldName: string, newName: string)
    | Polling(oldName: string, newName: string, missed: nat)
    | SawReady(oldName: string, newName: string)
    | TimedOut(oldName: string, newName: string)
    | Finished

  /** What a reconcile still has to delete after it looked at the pods. */
  datatype Cleanup =
    | Idle
    | Superseded(target: string, newer: string)
    | Expired(target: string)

  /** `born` and `everReady` record the history: the creation time of every pod
      there ever was, and the pods that have been ready. */
  datatype State = State(
    pods: map<string, Pod>,
    workers: seq<Worker>,
    cleanups: seq<Cleanup>,
    now: int,
    origin: string,
    born: map<string, int>,
    everReady: set<string>)

  datatype Step =
    | Begin(oldName: string, newName: string)
    | Create(w: nat, pod: Pod, answered: bool)   // without an answer the worker ends, and the pod stays
    | CreateFails(w: nat)
    | Poll(w: nat, sawReady: bool)
    | DeleteOld(w: nat, done: bool)
    | DeleteNew(w: nat, done: bool)
    | Look(items: seq<Pod>, at: int, stamp: string)   // list now, decide at a later time
    | CleanUp(c: nat, done: bool)
    | Update(pod: Pod)
    | Tick(to: int)

  ghost predicate Lists(items: seq<Pod>, pods: map<string, Pod>) {
    && UniqueNames(items)
    && (forall p :: p in items ==> p.name in pods && pods[p.name] == p)
    && (forall n :: n in pods ==> pods[n] in items)
  }

  ghost predicate Enabled(s: State, step: Step) {
    match step
    case Begin(oldName, newName) => oldName in s.pods
    case Create(w, pod, answered) =>
      && w < |s.workers| && s.workers[w].Starting? && pod.name == s.workers[w].newName
      && pod.name !in s.born && !pod.Ready()
      && forall n :: n in s.born ==> s.born[n] < pod.created
    case CreateFails(w) => w < |s.workers| && s.workers[w].Starting?
    case Poll(w, sawReady) =>
      && w < |s.workers| && s.workers[w].Polling?
      // a pod reported as ready is ready; one not reported as ready may be anything,
      // because a failed read counts like an unready pod
      && (sawReady ==> s.workers[w].newName in s.pods && s.pods[s.workers[w].newName].Ready())
    case DeleteOld(w, done) => w < |s.workers| && s.workers[w].SawReady?
    case DeleteNew(w, done) => w < |s.workers| && s.workers[w].TimedOut?
    case Look(items, at, stamp) => Lists(items, s.pods) && s.now <= at
    case CleanUp(c, done) => c < |s.cleanups| && !s.cleanups[c].Idle?
    case Update(pod) =>
      && pod.name in s.pods && pod.created == s.pods[pod.name].created
      && (s.pods[pod.name].Ready() ==> pod.Ready())
    case Tick(to) => s.now <= to
  }

  function Noted(items: seq<Pod>, now: int, stamp: string): Cleanup {
    var d := Decide(items, now, stamp);
    if d.delete.None? then Idle
    else if d.patch.Some? || d.active.None? then Expired(d.delete.value)
    else Superseded(d.delete.value, d.active.value.name)
  }

  function Polled(w: Worker, sawReady: bool): Worker
    requires w.Polling?
  {
    if sawReady then SawReady(w.oldName, w.newName)
    else if w.missed + 1 >= POLL_ATTEMPTS then TimedOut(w.oldName, w.newName)
    else w.(missed := w.missed + 1)
  }

  function Do(s: State, step: Step): State
    requires Enabled(s, step)
  {
    match step
    case Begin(oldName, newName) => s.(workers := s.workers + [Starting(oldName, newName)])
    case Create(w, pod, answered) =>
      s.(pods := s.pods[pod.name := pod],
         workers := s.workers[w := if answered then Polling(s.workers[w].oldName, pod.name, 0) else Finished],
         born := s.born[pod.name := pod.created])
    case CreateFails(w) => s.(workers := s.workers[w := Finished])
    case Poll(w, sawReady) =>
      s.(workers := s.workers[w := Polled(s.workers[w], sawReady)])
    case DeleteOld(w, done) =>
      s.(pods := if done then s.pods - {s.workers[w].oldName} else s.pods,
         workers := s.workers[w := Finished])
    case DeleteNew(w, done) =>
      s.(pods := if done then s.pods - {s.workers[w].newName} else s.pods,
         workers := s.workers[w := Finished])
    case Look(items, at, stamp) => s.(cleanups := s.cleanups + [Noted(items, at, stamp)])
    case CleanUp(c, done) =>
      s.(pods := if done then s.pods - {s.cleanups[c].target} else s.pods,
         cleanups := s.cleanups[c := Idle])
    case Update(pod) =>
      s.(pods := s.pods[pod.name := pod],
         everReady := if pod.Ready() then s.everReady + {pod.name} else s.everReady)
    case Tick(to) => s.(now := to)
  }

  ghost predicate Init(s: State) {
    && s.workers == [] && s.cleanups == []
    && s.origin in s.pods
    && (forall n :: n in s.pods ==> s.pods[n].name == n && s.pods[s.origin].created <= s.pods[n].created)
    && (forall m, n :: m in s.pods && n in s.pods && m != n ==> s.pods[m].created != s.pods[n].created)
    && s.born == (map n | n in s.pods :: s.pods[n].created)
    && s.everReady == (set n | n in s.pods && s.pods[n].Ready())
  }

  ghost predicate IsRun(run: seq<State>, steps: seq<Step>) {
    && |run| == |steps| + 1 && Init(run[0])
    && forall i :: 0 <= i < |steps| ==> Enabled(run[i], steps[i]) && run[i + 1] == Do(run[i], steps[i])
  }

  /** The pod the workspace must never lose: the newest pod that was ever ready
      or, while none was, the oldest pod of the start. */
  ghost predicate Essential(s: State, n: string) {
    && n in s.born
    && if s.everReady == {} then n == s.origin
       else n in s.everReady && forall m :: m in s.everReady && m in s.born ==> s.born[m] <= s.born[n]
  }

  ghost predicate Alive(s: State) {
    exists n :: n in s.pods && Essential(s, n)
  }

  /** The pod a failure branch is about to delete. */
  function FailureTarget(s: State, step: Step): Option<string>
    requires Enabled(s, step)
  {
    match step
    case DeleteNew(w, true) => Some(s.workers[w].newName)
    case CleanUp(c, true) => if s.cleanups[c].Expired? then Some(s.cleanups[c].target) else None
    case _ => None
  }

  /** `n` is ready and no newer pod is: requests are routed to it. */
  ghost predicate Serving(s: State, n: string) {
    && n in s.pods && s.pods[n].Ready()
    && forall m :: m in s.pods && s.pods[m].Ready() ==> s.pods[m].created <= s.pods[n].created
  }

  /** The step is not a failure branch taking out the serving pod. */
  ghost predicate Harmless(s: State, step: Step)
    requires Enabled(s, step)
  {
    var t := FailureTarget(s, step);
    t.Some? ==> !Serving(s, t.value)
  }

  // ----- invariant

  ghost predicate WorkerOk(s: State, w: Worker) {
    match w
    case Starting(oldName, newName) => oldName in s.born
    case Polling(oldName, newName, missed) => Newer(s, oldName, newName)
    case SawReady(oldName, newName) => Newer(s, oldName, newName) && newName in s.everReady
    case TimedOut(oldName, newName) => Newer(s, oldName, newName)
    case Finished => true
  }

  ghost predicate Newer(s: State, oldName: string, newName: string) {
    oldName in s.born && newName in s.born && s.born[oldName] < s.born[newName] && newName != s.origin
  }

  ghost predicate CleanupOk(s: State, c: Cleanup) {
    match c
    case Idle => true
    case Superseded(target, newer) => Newer(s, target, newer) && newer in s.everReady
    case Expired(target) => target in s.born && target != s.origin
  }

  ghost predicate History(s: State) {
    && (forall n :: n in s.pods ==>
                      && s.pods[n].name == n && n in s.born && s.born[n] == s.pods[n].created
                      && (s.pods[n].Ready() <==> n in s.everReady))
    && (forall n :: n in s.everReady ==> n in s.born)
    && (forall m, n :: m in s.born && n in s.born && m != n ==> s.born[m] != s.born[n])
    && s.origin in s.born
    && (forall n :: n in s.born ==> s.born[s.origin] <= s.born[n])
  }

  ghost predicate Inv(s: State) {
    && History(s)
    && (forall w :: 0 <= w < |s.workers| ==> WorkerOk(s, s.workers[w]))
    && (forall c :: 0 <= c < |s.cleanups| ==> CleanupOk(s, s.cleanups[c]))
  }

  lemma InitInv(s: State)
    requires Init(s)
    ensures Inv(s) && Alive(s)
  {
    if s.everReady == {} {
      assert Essential(s, s.origin);
    } else {
      var n := NewestReady(s.everReady, s.born);
      assert Essential(s, n);
    }
  }

  lemma {:induction false} NewestReady(names: set<string>, born: map<string, int>) returns (n: string)
    requires names != {} && forall m :: m in names ==> m in born
    ensures n in names && forall m :: m in names ==> born[m] <= born[n]
  {
    n :| n in names;
    if names != {n} {
      var rest := NewestReady(names - {n}, born);
      if born[n] < born[rest] {
        n := rest;
      }
    }
  }

  lemma NotedOk(s: State, items: seq<Pod>, at: int, stamp: string)
    requires History(s) && Lists(items, s.pods)
    ensures CleanupOk(s, Noted(items, at, stamp))
  {
    if |items| >= 2 {
      NewestTwo(items);
      var sorted := Sort(NewestFirst, items);
      assert sorted[0].name in s.pods && sorted[1].name in s.pods;
    }
  }

  /** The history only grows. */
  ghost predicate Grows(s: State, t: State) {
    && t.origin == s.origin && s.everReady <= t.everReady
    && forall n :: n in s.born ==> n in t.born && t.born[n] == s.born[n]
  }

  lemma DoGrows(s: State, step: Step)
    requires Enabled(s, step)
    ensures Grows(s, Do(s, step))
  {
  }

  lemma StepKeepsHistory(s: State, step: Step)
    requires Inv(s) && Enabled(s, step)
    ensures History(Do(s, step))
  {
  }

  lemma StepKeepsWorkers(s: State, step: Step, w: nat)
    requires Inv(s) && Enabled(s, step) && w < |Do(s, step).workers|
    ensures WorkerOk(Do(s, step), Do(s, step).workers[w])
  {
    DoGrows(s, step);
    if w < |s.workers| {
      assert WorkerOk(s, s.workers[w]);
    }
  }

  lemma StepKeepsCleanups(s: State, step: Step, c: nat)
    requires Inv(s) && Enabled(s, step) && c < |Do(s, step).cleanups|
    ensures CleanupOk(Do(s, step), Do(s, step).cleanups[c])
  {
    DoGrows(s, step);
    if c < |s.cleanups| {
      assert CleanupOk(s, s.cleanups[c]);
    } else {
      NotedOk(s, step.items, step.at, step.stamp);
    }
  }

  lemma StepKeepsInv(s: State, step: Step)
    requires Inv(s) && Enabled(s, step)
    ensures Inv(Do(s, step))
  {
    StepKeepsHistory(s, step);
    forall w | 0 <= w < |Do(s, step).workers| ensures WorkerOk(Do(s, step), Do(s, step).workers[w]) {
      StepKeepsWorkers(s, step, w);
    }
    forall c | 0 <= c < |Do(s, step).cleanups| ensures CleanupOk(Do(s, step), Do(s, step).cleanups[c]) {
      StepKeepsCleanups(s, step, c);
    }
  }

  /** One step keeps the essential pod exactly when it is harmless. Deletions of
      an old pod after the new one was seen ready need no condition at all. */
  lemma StepKeepsAlive(s: State, step: Step)
    requires Inv(s) && Alive(s) && Enabled(s, step)
    ensures Alive(Do(s, step)) <==> Harmless(s, step)
  {
    var n :| n in s.pods && Essential(s, n);
    match step {
      case Update(pod) => UpdateKeepsAlive(s, pod, n);
      case Create(w, pod, answered) => assert Essential(Do(s, step), n);
      case _ => OtherStepKeepsAlive(s, step, n);
    }
  }

  lemma OtherStepKeepsAlive(s: State, step: Step, n: string)
    requires Inv(s) && Enabled(s, step) && n in s.pods && Essential(s, n) && !step.Update? && !step.Create?
    ensures Alive(Do(s, step)) <==> Harmless(s, step)
  {
    EssentialServes(s, n);
    EssentialAfterDelete(s, Do(s, step), n);
    EssentialSurvives(s, step, n);
  }

  lemma EssentialSurvives(s: State, step: Step, n: string)
    requires Inv(s) && Enabled(s, step) && n in s.pods && Essential(s, n)
    requires !step.Update? && !step.Create?
    ensures n in Do(s, step).pods <==> FailureTarget(s, step) != Some(n)
    ensures FailureTarget(s, step) == Some(n) ==> s.everReady != {}
  {
    match step {
      case DeleteOld(w, done) => assert WorkerOk(s, s.workers[w]);
      case DeleteNew(w, done) => assert WorkerOk(s, s.workers[w]);
      case CleanUp(c, done) => assert CleanupOk(s, s.cleanups[c]);
      case _ =>
    }
  }

  lemma UpdateKeepsAlive(s: State, pod: Pod, n: string)
    requires Inv(s) && Enabled(s, Update(pod)) && n in s.pods && Essential(s, n)
    ensures Alive(Do(s, Update(pod)))
  {
    var t := Do(s, Update(pod));
    if !pod.Ready() {
      assert Essential(t, n);
    } else if s.everReady != {} && s.born[pod.name] <= s.born[n] {
      assert Essential(t, n);
    } else {
      assert Essential(t, pod.name);
    }
  }

  /** Once some pod has been ready, the essential pod is the one being served. */
  lemma EssentialServes(s: State, n: string)
    requires Inv(s) && n in s.pods && Essential(s, n)
    ensures s.everReady != {} ==> forall m :: Serving(s, m) <==> m == n
    ensures s.everReady == {} ==> forall m :: !Serving(s, m)
  {
  }

  lemma EssentialAfterDelete(s: State, t: State, n: string)
    requires Inv(s) && n in s.pods && Essential(s, n)
    requires t.born == s.born && t.everReady == s.everReady && t.origin == s.origin && t.pods.Keys <= s.pods.Keys
    ensures Alive(t) <==> n in t.pods
  {
    assert forall m :: Essential(t, m) <==> Essential(s, m);
    assert forall m :: Essential(s, m) ==> m == n;
  }

  // ----- whole runs

  lemma {:induction false} RunKeepsInv(run: seq<State>, steps: seq<Step>, k: nat)
    requires IsRun(run, steps) && k <= |steps|
    ensures Inv(run[k])
  {
    if k == 0 {
      InitInv(run[0]);
    } else {
      RunKeepsInv(run, steps, k - 1);
      StepKeepsInv(run[k - 1], steps[k - 1]);
    }
  }

  lemma {:induction false} HarmlessRunIsAlive(run: seq<State>, steps: seq<Step>, k: nat)
    requires IsRun(run, steps) && k <= |steps|
    requires forall i :: 0 <= i < |steps| ==> Harmless(run[i], steps[i])
    ensures Inv(run[k]) && Alive(run[k])
  {
    if k == 0 {
      InitInv(run[0]);
    } else {
      HarmlessRunIsAlive(run, steps, k - 1);
      StepKeepsInv(run[k - 1], steps[k - 1]);
      StepKeepsAlive(run[k - 1], steps[k - 1]);
    }
  }

  /** A run keeps the essential pod in every state if and only if no failure
      branch ever deletes the pod being served. */
  lemma AliveExactlyWhenHarmless(run: seq<State>, steps: seq<Step>)
    requires IsRun(run, steps)
    ensures (forall i :: 0 <= i < |run| ==> Alive(run[i])) <==>
            (forall i :: 0 <= i < |steps| ==> Harmless(run[i], steps[i]))
  {
    if forall i :: 0 <= i < |steps| ==> Harmless(run[i], steps[i]) {
      forall i | 0 <= i < |run| ensures Alive(run[i]) {
        HarmlessRunIsAlive(run, steps, i);
      }
    }
    if forall i :: 0 <= i < |run| ==> Alive(run[i]) {
      forall i | 0 <= i < |steps| ensures Harmless(run[i], steps[i]) {
        RunKeepsInv(run, steps, i);
        StepKeepsAlive(run[i], steps[i]);
        assert Alive(run[i + 1]);
      }
    }
  }

  /** Safety: if the last check of a failure branch and its deletion are one
      step, so that the deleted pod is not ready, then no interleaving of
      upgrades and reconciles empties the workspace. */
  lemma NeverEmptied(run: seq<State>, steps: seq<Step>)
    requires IsRun(run, steps)
    requires forall i :: 0 <= i < |steps| ==>
                           var t := FailureTarget(run[i], steps[i]);
                           t.Some? && t.value in run[i].pods ==> !run[i].pods[t.value].Ready()
    ensures forall i :: 0 <= i < |run| ==> Alive(run[i]) && run[i].pods != map[]
  {
    forall i | 0 <= i < |steps| ensures Harmless(run[i], steps[i]) {
    }
    forall i | 0 <= i < |run| ensures Alive(run[i]) && run[i].pods != map[] {
      HarmlessRunIsAlive(run, steps, i);
      var n :| n in run[i].pods && Essential(run[i], n);
    }
  }

  // ----- the proxies during a run

  lemma RoutingPodServes(s: State, items: seq<Pod>)
    requires Inv(s) && Alive(s) && s.everReady != {} && Lists(items, s.pods)
    ensures items != [] && RoutingPod(items).Ready()
    ensures Essential(s, RoutingPod(items).name)
  {
    var n :| n in s.pods && Essential(s, n);
    EssentialServes(s, n);
    assert s.pods[n] in items && s.pods[n].Ready();
    RoutingPodIsNewestReady(items);
    var r := RoutingPod(items);
    assert s.pods[n].created <= r.created;
    assert Serving(s, r.name);
  }

  lemma {:induction false} EverReadyGrows(run: seq<State>, steps: seq<Step>, i: nat, j: nat)
    requires IsRun(run, steps) && i <= j <= |steps|
    ensures run[i].everReady <= run[j].everReady
    ensures forall n :: n in run[i].born ==> n in run[j].born && run[j].born[n] == run[i].born[n]
  {
    if i < j {
      EverReadyGrows(run, steps, i, j - 1);
    }
  }

  /** From the first moment a pod is ready, every later request of the run is
      routed to a ready pod, and never to an older one than before. */
  lemma RequestsStayServed(run: seq<State>, steps: seq<Step>, i: nat, j: nat, before: seq<Pod>, after: seq<Pod>)
    requires IsRun(run, steps) && i <= j <= |steps|
    requires forall k :: 0 <= k < |steps| ==> Harmless(run[k], steps[k])
    requires Lists(before, run[i].pods) && Lists(after, run[j].pods)
    requires exists n :: n in run[i].pods && run[i].pods[n].Ready()
    ensures before != [] && after != []
    ensures RoutingPod(before).Ready() && RoutingPod(after).Ready()
    ensures RoutingPod(before).created <= RoutingPod(after).created
  {
    HarmlessRunIsAlive(run, steps, i);
    HarmlessRunIsAlive(run, steps, j);
    EverReadyGrows(run, steps, i, j);
    RoutingPodServes(run[i], before);
    RoutingPodServes(run[j], after);
    RoutingPodIsNewestReady(before);
    RoutingPodIsNewestReady(after);
  }

  // ----- workers come to an end

  /** The worker whose step it is. */
  function Mover(step: Step): Option<nat> {
    match step
    case Create(w, _, _) => Some(w)
    case CreateFails(w) => Some(w)
    case Poll(w, _) => Some(w)
    case DeleteOld(w, _) => Some(w)
    case DeleteNew(w, _) => Some(w)
    case _ => None
  }

  /** How many steps a worker has left at most. */
  function Remaining(w: Worker): nat {
    match w
    case Starting(_, _) => POLL_ATTEMPTS + 2
    case Polling(_, _, missed) => if missed < POLL_ATTEMPTS then POLL_ATTEMPTS - missed + 1 else 2
    case SawReady(_, _) => 1
    case TimedOut(_, _) => 1
    case Finished => 0
  }

  /** A worker's own steps bring it closer to its end, and nobody else's touch it. */
  lemma WorkerStep(s: State, step: Step, w: nat)
    requires w < |s.workers| && Enabled(s, step)
    ensures w < |Do(s, step).workers|
    ensures if Mover(step) == Some(w) then Remaining(Do(s, step).workers[w]) < Remaining(s.workers[w])
            else Do(s, step).workers[w] == s.workers[w]
  {
  }

  /** A worker that is not done is never blocked, whatever the others do. */
  lemma WorkersProgress(s: State, w: nat)
    requires w < |s.workers|
    ensures s.workers[w] != Finished ==> exists step :: Mover(step) == Some(w) && Enabled(s, step)
    ensures forall step :: Enabled(s, step) ==>
              && w < |Do(s, step).workers|
              && if Mover(step) == Some(w) then Remaining(Do(s, step).workers[w]) < Remaining(s.workers[w])
                 else Do(s, step).workers[w] == s.workers[w]
  {
    match s.workers[w] {
      case Starting(_, _) => assert Mover(CreateFails(w)) == Some(w) && Enabled(s, CreateFails(w));
      case Polling(_, _, _) => assert Mover(Poll(w, false)) == Some(w) && Enabled(s, Poll(w, false));
      case SawReady(_, _) => assert Mover(DeleteOld(w, true)) == Some(w) && Enabled(s, DeleteOld(w, true));
      case TimedOut(_, _) => assert Mover(DeleteNew(w, true)) == Some(w) && Enabled(s, DeleteNew(w, true));
      case Finished =>
    }
    forall step | Enabled(s, step)
      ensures w < |Do(s, step).workers|
      ensures if Mover(step) == Some(w) then Remaining(Do(s, step).workers[w]) < Remaining(s.workers[w])
              else Do(s, step).workers[w] == s.workers[w]
    {
      WorkerStep(s, step, w);
    }
  }

  /** How many of the steps from i to k are the worker's. */
  ghost function Moves(steps: seq<Step>, w: nat, i: nat, k: nat): nat
    requires i <= k <= |steps|
    decreases k
  {
    if i == k then 0 else Moves(steps, w, i, k - 1) + if Mover(steps[k - 1]) == Some(w) then 1 else 0
  }

  ghost predicate ComesCloser(s: State, step: Step, t: State, w: nat) {
    w < |s.workers| ==>
      && w < |t.workers|
      && Remaining(t.workers[w]) + (if Mover(step) == Some(w) then 1 else 0) <= Remaining(s.workers[w])
  }

  lemma RunComesCloser(run: seq<State>, steps: seq<Step>, w: nat, k: nat)
    requires IsRun(run, steps) && k < |steps|
    ensures ComesCloser(run[k], steps[k], run[k + 1], w)
  {
    if w < |run[k].workers| { WorkerStep(run[k], steps[k], w); }
  }

  lemma {:induction false} ComingCloser(run: seq<State>, steps: seq<Step>, w: nat, i: nat, k: nat)
    requires |run| == |steps| + 1 && i <= k <= |steps| && w < |run[i].workers|
    requires forall j :: i <= j < k ==> ComesCloser(run[j], steps[j], run[j + 1], w)
    ensures w < |run[k].workers| && Moves(steps, w, i, k) + Remaining(run[k].workers[w]) <= Remaining(run[i].workers[w])
    decreases k
  {
    if i < k {
      ComingCloser(run, steps, w, i, k - 1);
      assert ComesCloser(run[k - 1], steps[k - 1], run[k - 1 + 1], w);
    }
  }

  /** Whatever the others do, a worker takes at most 122 steps. */
  lemma WorkersEnd(run: seq<State>, steps: seq<Step>, w: nat, i: nat, k: nat)
    requires IsRun(run, steps) && i <= k <= |steps| && w < |run[i].workers|
    ensures w < |run[k].workers| && Moves(steps, w, i, k) + Remaining(run[k].workers[w]) <= Remaining(run[i].workers[w])
    ensures Moves(steps, w, i, k) <= POLL_ATTEMPTS + 2
  {
    forall j | i <= j < k ensures ComesCloser(run[j], steps[j], run[j + 1], w) {
      RunComesCloser(run, steps, w, j);
    }
    ComingCloser(run, steps, w, i, k);
  }

  // ----- the condition is needed

  function PodAt(name: string, created: int, ip: string): Pod {
    Pod(name, map[], map[], created, if ip == "" then Pending else Running, ip, NoState)
  }

  const POD_A := PodAt("a", 0, "10.0.0.1")
  const POD_B := PodAt("b", 1, "")
  const POD_B_READY := PodAt("b", 1, "10.0.0.2")

  /** Two pods are enough: a reconcile gives up on the new pod, the pod becomes
      ready while the note on the old pod is being written, a second reconcile
      deletes the old pod, and then the first one deletes the new one. */
  function Act(k: nat): Step {
    if k == 0 then Begin("a", "b")
    else if k == 1 then Create(0, POD_B, true)
    else if k == 2 then Tick(700000)
    else if k == 3 then Look([POD_A, POD_B], 700000, "")
    else if k == 4 then Update(POD_B_READY)
    else if k == 5 then Look([POD_A, POD_B_READY], 700000, "")
    else if k == 6 then CleanUp(1, true)
    else CleanUp(0, true)
  }

  function Scene(k: nat): State {
    State(
      if k < 2 then map["a" := POD_A]
      else if k < 5 then map["a" := POD_A, "b" := POD_B]
      else if k < 7 then map["a" := POD_A, "b" := POD_B_READY]
      else if k == 7 then map["b" := POD_B_READY]
      else map[],
      if k == 0 then [] else if k == 1 then [Starting("a", "b")] else [Polling("a", "b", 0)],
      if k < 4 then []
      else if k < 6 then [Expired("b")]
      else if k == 6 then [Expired("b"), Superseded("a", "b")]
      else if k == 7 then [Expired("b"), Idle]
      else [Idle, Idle],
      if k < 3 then 0 else 700000,
      "a",
      if k < 2 then map["a" := 0] else map["a" := 0, "b" := 1],
      if k < 5 then {"a"} else {"a", "b"})
  }

  lemma ScenesBefore(k: nat)
    requires k < 4
    ensures Enabled(Scene(k), Act(k)) && Scene(k + 1) == Do(Scene(k), Act(k))
  {
    if k == 3 { LookAtTwo(Scene(3), POD_A, POD_B); }
  }

  lemma ScenesAfter(k: nat)
    requires 4 <= k < 8
    ensures Enabled(Scene(k), Act(k)) && Scene(k + 1) == Do(Scene(k), Act(k))
  {
    if k == 5 { LookAtTwo(Scene(5), POD_A, POD_B_READY); }
  }

  lemma UncheckedFailureEmptiesWorkspace() returns (run: seq<State>, steps: seq<Step>)
    ensures IsRun(run, steps) && run[|steps|].pods == map[]
  {
    run, steps := seq(9, (k: nat) => Scene(k)), seq(8, (k: nat) => Act(k));
    forall i | 0 <= i < |steps| ensures Enabled(run[i], steps[i]) && run[i + 1] == Do(run[i], steps[i]) {
      if i < 4 { ScenesBefore(i); } else { ScenesAfter(i); }
    }
    assert Init(Scene(0));
  }

  lemma LookAtTwo(s: State, a: Pod, b: Pod)
    requires s.pods == map["a" := a, "b" := b] && a.name == "a" && b.name == "b" && a.created < b.created
    ensures Lists([a, b], s.pods)
    ensures Noted([a, b], s.now, "") ==
            if b.Ready() then Superseded("a", "b")
            else if s.now - b.created > READY_TIMEOUT_MS then Expired("b")
            else Idle
  {
    assert [a, b][..1] == [a] && [a][..0] == [];
    assert Sort(NewestFirst, [a]) == [a];
    assert Insert(NewestFirst, [a], b) == [b, a];
    assert Sort(NewestFirst, [a, b]) == [b, a];
  }
}
