/** Concurrent refreshes of the same token share one round trip. */
module Singleflight {

  /** Executions are numbered in the order they start; `entries` is the map of the
      module, the rest is what the event loop knows. */
  datatype State = State(entries: map<string, nat>, executions: seq<string>, settled: set<nat>)

  datatype Step = Call(token: string) | Settle(e: nat)

  /** The execution whose promise a call returns. */
  function Answer(s: State, token: string): nat {
    if token in s.entries then s.entries[token] else |s.executions|
  }

  predicate Enabled(s: State, step: Step) {
    match step
    case Call(_) => true
    case Settle(e) => e < |s.executions| && e !in s.settled
  }

  function Do(s: State, step: Step): State
    requires Enabled(s, step)
  {
    match step
    case Call(token) =>
      if token in s.entries then s
      else State(s.entries[token := |s.executions|], s.executions + [token], s.settled)
    case Settle(e) => State(s.entries - {s.executions[e]}, s.executions, s.settled + {e})
  }

  class Refreshes {
    var entries: map<string, nat>
    var executions: seq<string>
    var settled: set<nat>

    constructor ()
      ensures Abstract() == State(map[], [], {})
    {
      entries, executions, settled := map[], [], {};
    }

    function Abstract(): State
      reads this
    {
      State(entries, executions, settled)
    }

    method DeduplicateRefreshCall(token: string) returns (promise: nat)
      modifies this
      ensures Abstract() == Do(old(Abstract()), Call(token))
      ensures promise == Answer(old(Abstract()), token)
    {
      if token in entries {
        return entries[token];
      }
      promise := |executions|;
      executions := executions + [token];
      entries := entries[token := promise];
    }

    /** The clean-up of an execution that has succeeded or failed. */
    method Finally(e: nat)
      requires Enabled(Abstract(), Settle(e))
      modifies this
      ensures Abstract() == Do(old(Abstract()), Settle(e))
    {
      entries := entries - {executions[e]};
      settled := settled + {e};
    }
  }

  predicate Unsettled(s: State, e: nat) { e < |s.executions| && e !in s.settled }

  /** The map holds the unsettled executions and nothing else, each under its own token. */
  ghost predicate Exact(s: State) {
    && (forall token :: token in s.entries ==> Unsettled(s, s.entries[token]) && s.executions[s.entries[token]] == token)
    && (forall e: nat :: Unsettled(s, e) ==> s.executions[e] in s.entries && s.entries[s.executions[e]] == e)
    && forall e :: e in s.settled ==> e < |s.executions|
  }

  ghost predicate IsRun(run: seq<State>, steps: seq<Step>) {
    && |run| == |steps| + 1 && run[0] == State(map[], [], {})
    && forall k :: 0 <= k < |steps| ==> Enabled(run[k], steps[k]) && run[k + 1] == Do(run[k], steps[k])
  }

  lemma StepKeepsExact(s: State, step: Step)
    requires Exact(s) && Enabled(s, step)
    ensures Exact(Do(s, step))
  {
    var t := Do(s, step);
    forall e: nat | Unsettled(t, e) ensures t.executions[e] in t.entries && t.entries[t.executions[e]] == e {
      if e < |s.executions| { assert Unsettled(s, e); }
    }
  }

  lemma {:induction false} RunKeepsExact(run: seq<State>, steps: seq<Step>, k: nat)
    requires IsRun(run, steps) && k <= |steps|
    ensures Exact(run[k])
  {
    if k > 0 {
      RunKeepsExact(run, steps, k - 1);
      StepKeepsExact(run[k - 1], steps[k - 1]);
    }
  }

  /** A token never has two refreshes under way. */
  lemma OneFlightPerToken(run: seq<State>, steps: seq<Step>, k: nat, e: nat, f: nat)
    requires IsRun(run, steps) && k <= |steps|
    requires Unsettled(run[k], e) && Unsettled(run[k], f) && run[k].executions[e] == run[k].executions[f]
    ensures e == f
  {
    RunKeepsExact(run, steps, k);
  }

  /** A settlement takes out its own entry and leaves all others. */
  lemma SettlementIsOwn(run: seq<State>, steps: seq<Step>, k: nat)
    requires IsRun(run, steps) && k < |steps| && steps[k].Settle?
    ensures var token := run[k].executions[steps[k].e];
            && token in run[k].entries && run[k].entries[token] == steps[k].e
            && forall other :: other in run[k + 1].entries <==> other in run[k].entries && other != token
  {
    RunKeepsExact(run, steps, k);
    assert Unsettled(run[k], steps[k].e);
  }

  lemma {:induction false} ExecutionsStay(run: seq<State>, steps: seq<Step>, i: nat, j: nat)
    requires IsRun(run, steps) && i <= j <= |steps|
    ensures run[i].executions <= run[j].executions && run[i].settled <= run[j].settled
    decreases j
  {
    if i < j {
      ExecutionsStay(run, steps, i, j - 1);
      assert run[j] == Do(run[j - 1], steps[j - 1]);
    }
  }

  /** Two calls get the same promise exactly when they are for the same token and
      the first one's execution is still under way at the second. */
  lemma SharedExactly(run: seq<State>, steps: seq<Step>, i: nat, j: nat)
    requires IsRun(run, steps) && i < j < |steps| && steps[i].Call? && steps[j].Call?
    ensures var e := Answer(run[i], steps[i].token);
            Answer(run[j], steps[j].token) == e <==> steps[i].token == steps[j].token && Unsettled(run[j], e)
  {
    var e := Answer(run[i], steps[i].token);
    RunKeepsExact(run, steps, i);
    RunKeepsExact(run, steps, j);
    assert run[i + 1] == Do(run[i], steps[i]);
    assert e < |run[i + 1].executions| && run[i + 1].executions[e] == steps[i].token;
    ExecutionsStay(run, steps, i + 1, j);
    assert run[j].executions[e] == steps[i].token;
  }

  ghost function Starts(token: string, executions: seq<string>): nat {
    if executions == [] then 0
    else Starts(token, executions[..|executions| - 1]) + if executions[|executions| - 1] == token then 1 else 0
  }

  ghost function Settlements(token: string, s: State, n: nat): nat
    requires n <= |s.executions|
  {
    if n == 0 then 0
    else Settlements(token, s, n - 1) + if s.executions[n - 1] == token && n - 1 in s.settled then 1 else 0
  }

  /** Round trips are bounded by settlements, however many calls there are. */
  lemma RoundTripsBounded(run: seq<State>, steps: seq<Step>, k: nat, token: string)
    requires IsRun(run, steps) && k <= |steps|
    ensures Starts(token, run[k].executions) ==
            Settlements(token, run[k], |run[k].executions|) + if token in run[k].entries then 1 else 0
  {
    RunKeepsExact(run, steps, k);
    var s := run[k];
    StartsUpTo(token, s, |s.executions|);
    assert s.executions[..|s.executions|] == s.executions;
  }

  lemma {:induction false} StartsUpTo(token: string, s: State, n: nat)
    requires Exact(s) && n <= |s.executions|
    ensures Starts(token, s.executions[..n]) ==
            Settlements(token, s, n) + if token in s.entries && s.entries[token] < n then 1 else 0
  {
    if n > 0 {
      StartsUpTo(token, s, n - 1);
      assert s.executions[..n][..n - 1] == s.executions[..n - 1];
      assert n - 1 !in s.settled ==> Unsettled(s, n - 1);
    }
  }
}
