// Without new calls and arrivals the engine comes to rest: every run of the other
// steps is bounded, and can be continued until nothing is left to do.
module Settling {
  import opened Basics
  import opened Listener

  // What is left to do for one of n threads, for the outstanding receive, and in all.
  function ThreadWork(n: nat, th: Thread): nat {
    match th
    case Idle => 0
    case Waiting(_) => 0
    case Start(_) => 2
    case Woken(_) => 2
    case Listen(_) => 1
    case Hold(_, _) => 2 * n + 3
    case Notify(_, _) => 2 * n + 2
  }

  function ThreadsWork(n: nat, ts: seq<Thread>): nat {
    if ts == [] then 0 else ThreadWork(n, ts[0]) + ThreadsWork(n, ts[1..])
  }

  function ReceiveWork(n: nat, prob: Prob): nat {
    match prob
    case NoRecv => 1
    case Posted => 0
    case Filled(_) => 2 * n + 4
  }

  function WireWork(n: nat, wire: seq<Msg>): nat {
    if wire == [] then 0 else 2 * n + 5 + WireWork(n, wire[1..])
  }

  function Left(s: State): nat {
    var n := |s.threads|;
    ThreadsWork(n, s.threads) + ReceiveWork(n, s.prob) + WireWork(n, s.wire)
  }

  lemma {:induction false} WorkUpdate(n: nat, ts: seq<Thread>, t: nat, th: Thread)
    requires t < |ts|
    ensures ThreadsWork(n, ts[t := th]) + ThreadWork(n, ts[t]) == ThreadsWork(n, ts) + ThreadWork(n, th)
  {
    if t == 0 {
      assert ts[0 := th][1..] == ts[1..];
    } else {
      WorkUpdate(n, ts[1..], t - 1, th);
      assert ts[t := th][1..] == ts[1..][t - 1 := th];
    }
  }

  // A broadcast gives each of the others at most two steps.
  lemma {:induction false} WorkWoken(n: nat, ts: seq<Thread>)
    ensures ThreadsWork(n, WakeAll(ts)) <= ThreadsWork(n, ts) + 2 * |ts|
  {
    if ts != [] {
      WorkWoken(n, ts[1..]);
      assert WakeAll(ts)[1..] == WakeAll(ts[1..]);
    }
  }

  lemma {:induction false} WorkWokenBut(n: nat, ts: seq<Thread>, t: nat)
    requires t < |ts| && !ts[t].Waiting?
    ensures ThreadsWork(n, WakeAll(ts)) + 2 <= ThreadsWork(n, ts) + 2 * |ts|
  {
    assert WakeAll(ts)[1..] == WakeAll(ts[1..]);
    if t == 0 {
      WorkWoken(n, ts[1..]);
    } else {
      WorkWokenBut(n, ts[1..], t - 1);
    }
  }

  predicate Internal(step: Step) { !step.Begin? && !step.Arrive? }

  lemma BroadcastWorks(s: State, step: Step)
    requires Enabled(s, step) && step.Broadcast?
    ensures Left(Next(s, step)) < Left(s)
  {
    var n, th := |s.threads|, s.threads[step.t];
    WorkWokenBut(n, s.threads, step.t);
    WorkUpdate(n, WakeAll(s.threads), step.t, if th.listening then Listen(th.call) else Idle);
  }

  lemma SearchWorks(s: State, step: Step)
    requires Enabled(s, step) && (step.Enter? || step.Wake?)
    ensures Left(Next(s, step)) < Left(s)
  {
    var s' := Next(s, step);
    WorkUpdate(|s.threads|, s.threads, step.t, s'.threads[step.t]);
    assert s'.threads == s.threads[step.t := s'.threads[step.t]];
  }

  // Every such step takes one away.
  lemma EveryStepWorks(s: State, step: Step)
    requires Enabled(s, step) && Internal(step)
    ensures Left(Next(s, step)) < Left(s)
  {
    var s' := Next(s, step);
    if step.Broadcast? {
      BroadcastWorks(s, step);
    } else if step.Enter? || step.Wake? {
      SearchWorks(s, step);
    } else if !step.Complete? {
      WorkUpdate(|s.threads|, s.threads, step.t, s'.threads[step.t]);
      assert s'.threads == s.threads[step.t := s'.threads[step.t]];
    }
  }

  // The state after further steps.
  function Continue(s: State, more: seq<Step>): Option<State>
    decreases |more|
  {
    if more == [] then Some(s)
    else if !Enabled(s, more[0]) then None
    else Continue(Next(s, more[0]), more[1..])
  }

  ghost predicate AllInternal(more: seq<Step>) { forall i | 0 <= i < |more| :: Internal(more[i]) }

  // Whatever is scheduled, the engine stops by itself ...
  lemma {:induction false} Bounded(s: State, more: seq<Step>)
    requires AllInternal(more) && Continue(s, more).Some?
    ensures |more| + Left(Continue(s, more).value) <= Left(s)
    decreases |more|
  {
    if more != [] {
      EveryStepWorks(s, more[0]);
      Bounded(Next(s, more[0]), more[1..]);
    }
  }

  // ... and only where nothing is left to do.
  lemma {:induction false} BecomesQuiet(s: State) returns (more: seq<Step>)
    ensures AllInternal(more) && Continue(s, more).Some? && Quiet(Continue(s, more).value)
    decreases Left(s)
  {
    if Quiet(s) {
      more := [];
    } else {
      var step :| Enabled(s, step) && !(step.Begin? || step.Arrive?);
      EveryStepWorks(s, step);
      var rest := BecomesQuiet(Next(s, step));
      more := [step] + rest;
      assert more[1..] == rest;
    }
  }

  lemma {:induction false} RunContinues(n: nat, steps: seq<Step>, more: seq<Step>)
    requires Run(n, steps).Some? && Continue(Run(n, steps).value, more).Some?
    ensures Run(n, steps + more) == Continue(Run(n, steps).value, more)
    decreases |more|
  {
    if more == [] {
      assert steps + more == steps;
    } else {
      var next, s := Then(n, steps, more[0], Run(n, steps).value);
      RunContinues(n, next, more[1..]);
      ConcatAssociative(steps, [more[0]], more[1..]);
      assert more == [more[0]] + more[1..];
    }
  }
}
