// Which calls threads may make at the same time: the exact conditions under which
// messages are received in order and nobody sleeps on a message.
module Callers {
  import opened Basics
  import opened Mailbox
  import opened Listener
  import opened Scenarios

  // The runs in which threads make only these calls.
  ghost predicate Uses(allowed: set<Call>, steps: seq<Step>) {
    forall i | 0 <= i < |steps| && steps[i].Begin? :: steps[i].call in allowed
  }

  ghost predicate NoProbes(allowed: set<Call>) { forall c | c in allowed :: !c.probe }

  ghost predicate NoReceives(allowed: set<Call>) { forall c | c in allowed :: c.probe }

  // All receives have the same source and tag arguments.
  ghost predicate OneFilter(allowed: set<Call>) {
    forall a, b | a in allowed && b in allowed && !a.probe && !b.probe :: a.src == b.src && a.tag == b.tag
  }

  // The message a step hands to a receiver is the earliest it could be given.
  ghost predicate InOrder(s: State, step: Step)
    requires Enabled(s, step)
  {
    TakenAt(s, step).Some? ==> EarliestFor(s, s.threads[step.t].call, Given(s, step))
  }

  function Given(s: State, step: Step): Msg
    requires Enabled(s, step) && TakenAt(s, step).Some?
  {
    if step.Settle? then s.threads[step.t].msg else s.queue[Hit(s.threads[step.t].call, s.queue)]
  }

  // Thread t is in a call although a message for it has arrived and is nobody's yet.
  ghost predicate HasMessage(s: State, t: nat)
    requires t < |s.threads|
  {
    !s.threads[t].Idle? && exists m :: m in s.queue + Flight(s) + s.wire && Wanted(s.threads[t].call, m)
  }

  // ---------------------------------------------------------------------
  // Enough.

  ghost predicate CallsAllowed(allowed: set<Call>, s: State) {
    forall t | 0 <= t < |s.threads| && !s.threads[t].Idle? :: s.threads[t].call in allowed
  }

  lemma CallsAllowedStep(allowed: set<Call>, s: State, step: Step)
    requires CallsAllowed(allowed, s) && Enabled(s, step) && (step.Begin? ==> step.call in allowed)
    ensures CallsAllowed(allowed, Next(s, step))
  {
  }

  lemma {:induction false} CallsAllowedRun(n: nat, allowed: set<Call>, steps: seq<Step>)
    requires Run(n, steps).Some? && Uses(allowed, steps)
    ensures CallsAllowed(allowed, Run(n, steps).value)
  {
    if steps != [] {
      var before := steps[..|steps| - 1];
      CallsAllowedRun(n, allowed, before);
      assert steps[|steps| - 1].Begin? ==> steps[|steps| - 1].call in allowed;
      CallsAllowedStep(allowed, Run(n, before).value, steps[|steps| - 1]);
    }
  }

  // With one filter and no probes what is queued is for nobody.
  ghost predicate NobodyWants(allowed: set<Call>, queue: seq<Msg>) {
    forall c, m | c in allowed && m in queue :: !Wanted(c, m)
  }

  lemma NobodyWantsStep(allowed: set<Call>, s: State, step: Step)
    requires NoProbes(allowed) && OneFilter(allowed) && CallsAllowed(allowed, s)
    requires NobodyWants(allowed, s.queue) && Enabled(s, step)
    ensures NobodyWants(allowed, Next(s, step).queue)
  {
    QueueAfter(s, step);
  }

  lemma {:induction false} OneFilterIsCareful(n: nat, allowed: set<Call>, steps: seq<Step>)
    requires Run(n, steps).Some? && Uses(allowed, steps) && NoProbes(allowed) && OneFilter(allowed)
    ensures Careful(n, steps) && NobodyWants(allowed, Run(n, steps).value.queue)
  {
    if steps != [] {
      var before, last := steps[..|steps| - 1], steps[|steps| - 1];
      OneFilterIsCareful(n, allowed, before);
      CallsAllowedRun(n, allowed, before);
      var s := Run(n, before).value;
      NobodyWantsStep(allowed, s, last);
      if last.Wake? {
        HitAll(s.threads[last.t].call, s.queue);
      }
    }
  }

  lemma CarefulInOrder(n: nat, steps: seq<Step>, step: Step)
    requires Run(n, steps).Some? && Careful(n, steps) && Enabled(Run(n, steps).value, step)
    ensures InOrder(Run(n, steps).value, step)
  {
    var s := Run(n, steps).value;
    if TakenAt(s, step).Some? {
      CarefulRun(n, steps);
      SearchedRun(n, steps);
      var l := InvRun(n, steps);
      EarliestIff(s, l, step);
      QueueLeads(s, l, step.t, step.Settle?);
    }
  }

  lemma ProbesTakeNothing(n: nat, allowed: set<Call>, steps: seq<Step>, step: Step)
    requires Run(n, steps).Some? && Uses(allowed, steps) && NoReceives(allowed) && Enabled(Run(n, steps).value, step)
    ensures InOrder(Run(n, steps).value, step)
  {
    CallsAllowedRun(n, allowed, steps);
  }

  lemma CarefulSleepless(n: nat, steps: seq<Step>, t: nat)
    requires Run(n, steps).Some? && Careful(n, steps) && Quiet(Run(n, steps).value)
    requires t < |Run(n, steps).value.threads|
    ensures !HasMessage(Run(n, steps).value, t)
  {
    var s := Run(n, steps).value;
    ThreadCount(n, steps);
    if !s.threads[t].Idle? {
      var l := NobodySleepsOnAMatch(n, steps, t);
      assert forall m | m in s.queue + Flight(s) + s.wire :: m in Line(s, l);
    }
  }

  lemma {:induction false} ThreadCount(n: nat, steps: seq<Step>)
    requires Run(n, steps).Some?
    ensures |Run(n, steps).value.threads| == n
  {
    if steps != [] {
      ThreadCount(n, steps[..|steps| - 1]);
    }
  }

  // ---------------------------------------------------------------------
  // Necessary.

  function Sample(c: Call): (e: Envelope)
    ensures Wants(c, e)
  {
    Envelope(if c.src == ANY_ADDR then 1 else c.src, if c.tag == ANY_TAG then 0 else c.tag, [])
  }

  // Different filters differ on some message.
  lemma Distinguished(a: Call, b: Call) returns (e: Envelope)
    requires a.src != b.src || a.tag != b.tag
    ensures Wants(a, e) != Wants(b, e)
  {
    var x, y := Sample(a), Sample(b);
    if a.src != b.src {
      if a.src == ANY_ADDR {
        e := Envelope(b.src + 1, x.tag, []);
      } else if b.src == ANY_ADDR {
        e := Envelope(a.src + 1, y.tag, []);
      } else {
        e := x;
      }
    } else {
      if a.tag == ANY_TAG {
        e := Envelope(x.src, if b.tag == 0 then 1 else 0, []);
      } else if b.tag == ANY_TAG {
        e := Envelope(x.src, if a.tag == 0 then 1 else 0, []);
      } else {
        e := x;
      }
    }
  }

  // Two receives with different filters, in the order in which the first is not for
  // the message that is for the second.
  lemma TwoFilters(allowed: set<Call>) returns (a: Call, b: Call, mb: Envelope)
    requires !OneFilter(allowed)
    ensures a in allowed && b in allowed && !a.probe && !b.probe && Wants(b, mb) && !Wants(a, mb)
  {
    a, b :| a in allowed && b in allowed && !a.probe && !b.probe && (a.src != b.src || a.tag != b.tag);
    mb := Distinguished(a, b);
    if Wants(a, mb) {
      a, b := b, a;
    }
  }

  lemma RunsPastMatch(n: nat, allowed: set<Call>) returns (steps: seq<Step>, s: State, b: Call, first: Envelope)
    requires n >= 2 && !NoReceives(allowed) && !(NoProbes(allowed) && OneFilter(allowed))
    ensures Run(n, steps) == Some(s) && Uses(allowed, steps) && PastMatch(s, n, 0, 1, b, first)
  {
    if p :| p in allowed && p.probe {
      b :| b in allowed && !b.probe;
      first := Sample(b);
      steps, s := ProbePasses(n, [], Initial(n), 0, p, 1, b, first);
    } else {
      var a;
      a, b, first := TwoFilters(allowed);
      steps, s := ReceivesPass(n, [], Initial(n), 0, a, Sample(a), 1, b, first);
    }
  }

  lemma SomeoneOvertakes(n: nat, allowed: set<Call>) returns (steps: seq<Step>, step: Step)
    requires n >= 2 && !NoReceives(allowed) && !(NoProbes(allowed) && OneFilter(allowed))
    ensures Run(n, steps).Some? && Uses(allowed, steps)
    ensures Enabled(Run(n, steps).value, step) && !InOrder(Run(n, steps).value, step)
  {
    var s, b, first;
    steps, s, b, first := RunsPastMatch(n, allowed);
    steps, s := Overtaking(n, steps, s, 0, 1, b, first);
    step := Settle(1);
    var l := InvRun(n, steps);
    EarliestIff(s, l, step);
    QueueLeads(s, l, 1, true);
  }

  lemma SomeoneSleeps(n: nat, allowed: set<Call>) returns (steps: seq<Step>)
    requires n >= 2 && !(NoProbes(allowed) && OneFilter(allowed))
    ensures Run(n, steps).Some? && Uses(allowed, steps) && Quiet(Run(n, steps).value)
    ensures 1 < |Run(n, steps).value.threads| && HasMessage(Run(n, steps).value, 1)
  {
    var s;
    if p :| p in allowed && p.probe {
      steps, s := LostWakeUp(n, [], Initial(n), 0, p, 1, p, Sample(p));
      assert s.prob.msg in s.queue + Flight(s) + s.wire;
    } else {
      var b, first;
      assert !NoReceives(allowed) by {
        var a, b, mb := TwoFilters(allowed);
      }
      steps, s, b, first := RunsPastMatch(n, allowed);
      steps, s := AsleepOnAMatch(n, steps, s, 0, 1, b, first);
      assert s.queue[0] in s.queue + Flight(s) + s.wire;
    }
  }

  // ---------------------------------------------------------------------
  // The conditions.

  // Two or more threads making these calls receive messages in the order of arrival,
  // in every run, exactly when they only probe, or never probe and all receive with
  // the same source and tag.
  lemma NoOvertakingIff(n: nat, allowed: set<Call>)
    requires n >= 2
    ensures (forall steps, step | Run(n, steps).Some? && Uses(allowed, steps) && Enabled(Run(n, steps).value, step) ::
               InOrder(Run(n, steps).value, step))
       <==> NoReceives(allowed) || (NoProbes(allowed) && OneFilter(allowed))
  {
    if NoReceives(allowed) || (NoProbes(allowed) && OneFilter(allowed)) {
      forall steps, step | Run(n, steps).Some? && Uses(allowed, steps) && Enabled(Run(n, steps).value, step)
        ensures InOrder(Run(n, steps).value, step)
      {
        if NoReceives(allowed) {
          ProbesTakeNothing(n, allowed, steps, step);
        } else {
          OneFilterIsCareful(n, allowed, steps);
          CarefulInOrder(n, steps, step);
        }
      }
    } else {
      var steps, step := SomeoneOvertakes(n, allowed);
    }
  }

  // They never sleep on a message that has arrived exactly when they never probe and
  // all receive with the same source and tag.
  lemma NoSleepingIff(n: nat, allowed: set<Call>)
    requires n >= 2
    ensures (forall steps, t | Run(n, steps).Some? && Uses(allowed, steps) && Quiet(Run(n, steps).value)
                            && 0 <= t < |Run(n, steps).value.threads| :: !HasMessage(Run(n, steps).value, t))
       <==> NoProbes(allowed) && OneFilter(allowed)
  {
    if NoProbes(allowed) && OneFilter(allowed) {
      forall steps, t | Run(n, steps).Some? && Uses(allowed, steps) && Quiet(Run(n, steps).value)
                     && 0 <= t < |Run(n, steps).value.threads|
        ensures !HasMessage(Run(n, steps).value, t)
      {
        OneFilterIsCareful(n, allowed, steps);
        CarefulSleepless(n, steps, t);
      }
    } else {
      var steps := SomeoneSleeps(n, allowed);
    }
  }
}
