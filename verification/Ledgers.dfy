// Which thread of an engine received which message, when thread t only ever makes the
// receive calls[t] and messages are handed out in the order of arrival.
module Ledgers {
  import opened Basics
  import opened Mailbox
  import L = Listener
  import opened Callers
  import opened Settling

  // The thread has its message, if it had a call.
  predicate Returning(th: L.Thread) { th.Idle? || (th.Notify? && !th.listening) }

  ghost predicate Took(e: L.State, t: nat) { exists id :: id in e.taken && e.taken[id] == t }

  ghost predicate ThreadOk(e: L.State, call: L.Call, t: nat)
    requires t < |e.threads|
  {
    && !call.probe
    && (!e.threads[t].Idle? ==> e.threads[t].call == call)
    && (Returning(e.threads[t]) ==> Took(e, t))
  }

  // Message id went to the thread that wanted it, which is done.
  ghost predicate EntryOk(e: L.State, calls: seq<L.Call>, begun: nat, id: nat)
    requires begun <= |calls| <= |e.threads| && id in e.taken
  {
    && id < |e.arrived| && e.taken[id] < begun
    && L.Wanted(calls[e.taken[id]], L.Msg(id, e.arrived[id])) && Returning(e.threads[e.taken[id]])
  }

  // No message that the thread wanted was passed over for a later one.
  ghost predicate Earliest(e: L.State, call: L.Call, id: nat) {
    forall x: nat | x < |e.arrived| && x !in e.taken && L.Wanted(call, L.Msg(x, e.arrived[x])) :: id < x
  }

  ghost predicate OneEach(taken: map<nat, nat>) {
    forall i, j | i in taken && j in taken && taken[i] == taken[j] :: i == j
  }

  // The first begun calls have been made, and none of the others.
  ghost predicate Ledger(e: L.State, calls: seq<L.Call>, begun: nat) {
    && begun <= |calls| <= |e.threads|
    && (forall t | begun <= t < |e.threads| :: e.threads[t].Idle?)
    && (forall t: nat | t < begun :: ThreadOk(e, calls[t], t))
    && (forall id | id in e.taken :: EntryOk(e, calls, begun, id) && Earliest(e, calls[e.taken[id]], id))
    && OneEach(e.taken)
  }

  lemma NobodyTook(e: L.State, calls: seq<L.Call>, begun: nat, t: nat)
    requires Ledger(e, calls, begun) && t < |e.threads| && !Returning(e.threads[t])
    ensures forall id | id in e.taken :: e.taken[id] != t
  {
  }

  // ---------------------------------------------------------------------
  // Steps.

  // A step that hands out no message.
  lemma ThreadsAfter(e: L.State, calls: seq<L.Call>, begun: nat, step: L.Step)
    requires Ledger(e, calls, begun) && L.Enabled(e, step) && Internal(step) && L.TakenAt(e, step).None?
    ensures var e' := L.Next(e, step);
            && |e'.threads| == |e.threads| && e'.taken == e.taken && e'.arrived == e.arrived
            && (forall t | begun <= t < |e.threads| :: e'.threads[t].Idle?)
            && (forall t: nat | t < begun ::
                  && (Returning(e'.threads[t]) <==> Returning(e.threads[t]))
                  && (!e'.threads[t].Idle? ==> !e.threads[t].Idle? && e'.threads[t].call == e.threads[t].call))
  {
    if step.Complete? {
    } else if step.t < begun {
      assert ThreadOk(e, calls[step.t], step.t);
    }
  }

  lemma LedgerKept(e: L.State, calls: seq<L.Call>, begun: nat, step: L.Step)
    requires Ledger(e, calls, begun) && L.Enabled(e, step) && Internal(step) && L.TakenAt(e, step).None?
    ensures Ledger(L.Next(e, step), calls, begun)
  {
    var e' := L.Next(e, step);
    ThreadsAfter(e, calls, begun, step);
    forall t: nat | t < begun ensures ThreadOk(e', calls[t], t) {
      assert ThreadOk(e, calls[t], t);
      if Took(e, t) {
        var id :| id in e.taken && e.taken[id] == t;
        assert e'.taken[id] == t;
      }
    }
    forall id | id in e'.taken ensures EntryOk(e', calls, begun, id) && Earliest(e', calls[e'.taken[id]], id) {
      assert EntryOk(e, calls, begun, id) && Earliest(e, calls[e.taken[id]], id);
    }
  }

  // A step that hands a message to thread step.t.
  lemma ThreadsAfterTaking(e: L.State, calls: seq<L.Call>, begun: nat, step: L.Step) returns (id: nat)
    requires Ledger(e, calls, begun) && L.Enabled(e, step) && Internal(step) && L.TakenAt(e, step).Some?
    requires step.t < |e.threads|
    ensures step.t < begun && !Returning(e.threads[step.t]) && e.threads[step.t].call == calls[step.t]
    ensures id == Given(e, step).id
    ensures var e' := L.Next(e, step);
            && |e'.threads| == |e.threads| && e'.taken == e.taken[id := step.t] && e'.arrived == e.arrived
            && Returning(e'.threads[step.t])
            && (!e'.threads[step.t].Idle? ==> e'.threads[step.t].call == calls[step.t])
            && (forall t | 0 <= t < |e.threads| && t != step.t :: e'.threads[t] == e.threads[t])
  {
    id := Given(e, step).id;
    assert !e.threads[step.t].Idle?;
    assert ThreadOk(e, calls[step.t], step.t);
  }

  lemma LedgerTakes(e: L.State, l: Option<nat>, calls: seq<L.Call>, begun: nat, step: L.Step)
    requires L.Inv(e, l) && Ledger(e, calls, begun) && L.Enabled(e, step) && Internal(step) && L.TakenAt(e, step).Some?
    requires step.t < |e.threads| && InOrder(e, step)
    ensures Ledger(L.Next(e, step), calls, begun)
  {
    var e', t0 := L.Next(e, step), step.t;
    var id := ThreadsAfterTaking(e, calls, begun, step);
    var m := Given(e, step);
    GivenArrived(e, l, step);
    NobodyTook(e, calls, begun, t0);
    forall t: nat | t < begun ensures ThreadOk(e', calls[t], t) {
      ThreadAfterTaking(e, e', calls, begun, id, t0, t);
    }
    forall x | x in e'.taken ensures EntryOk(e', calls, begun, x) && Earliest(e', calls[e'.taken[x]], x) {
      if x != id {
        EntryAfterTaking(e, e', calls, begun, id, t0, x);
      }
    }
  }

  // e' is e after thread t0 was given message id.
  ghost predicate Gave(e: L.State, e': L.State, calls: seq<L.Call>, id: nat, t0: nat) {
    && t0 < |calls| <= |e.threads| && |e'.threads| == |e.threads|
    && e'.taken == e.taken[id := t0] && e'.arrived == e.arrived && id !in e.taken
    && Returning(e'.threads[t0]) && (!e'.threads[t0].Idle? ==> e'.threads[t0].call == calls[t0])
    && (forall t | 0 <= t < |e.threads| && t != t0 :: e'.threads[t] == e.threads[t])
  }

  lemma ThreadAfterTaking(e: L.State, e': L.State, calls: seq<L.Call>, begun: nat, id: nat, t0: nat, t: nat)
    requires Ledger(e, calls, begun) && Gave(e, e', calls, id, t0) && t < begun
    ensures ThreadOk(e', calls[t], t)
  {
    assert ThreadOk(e, calls[t], t);
    if t == t0 {
      assert e'.taken[id] == t;
    } else if Took(e, t) {
      var x :| x in e.taken && e.taken[x] == t;
      assert e'.taken[x] == t;
    }
  }

  lemma EntryAfterTaking(e: L.State, e': L.State, calls: seq<L.Call>, begun: nat, id: nat, t0: nat, x: nat)
    requires Ledger(e, calls, begun) && Gave(e, e', calls, id, t0) && x in e.taken
    ensures EntryOk(e', calls, begun, x) && Earliest(e', calls[e'.taken[x]], x)
  {
    assert EntryOk(e, calls, begun, x) && Earliest(e, calls[e.taken[x]], x);
  }

  // What is given is a message that arrived and nobody had.
  lemma GivenArrived(e: L.State, l: Option<nat>, step: L.Step)
    requires L.Inv(e, l) && L.Enabled(e, step) && L.TakenAt(e, step).Some?
    ensures var m := Given(e, step); m.id < |e.arrived| && m.env == e.arrived[m.id] && m.id !in e.taken
  {
    L.LineStep(e, l, step);
    L.QueueLeads(e, l, step.t, step.Settle?);
    assert Given(e, step) == L.Line(e, l)[L.TakenAt(e, step).value];
    assert Given(e, step) in L.Line(e, l);
  }

  lemma LedgerBegins(e: L.State, calls: seq<L.Call>, begun: nat)
    requires Ledger(e, calls, begun) && begun < |calls| && !calls[begun].probe
    ensures L.Enabled(e, L.Begin(begun, calls[begun]))
    ensures Ledger(L.Next(e, L.Begin(begun, calls[begun])), calls, begun + 1)
  {
    var e' := L.Next(e, L.Begin(begun, calls[begun]));
    forall t: nat | t < begun + 1 ensures ThreadOk(e', calls[t], t) {
      if t < begun {
        assert ThreadOk(e, calls[t], t);
        if Took(e, t) {
          var id :| id in e.taken && e.taken[id] == t;
          assert e'.taken[id] == t;
        }
      }
    }
    forall id | id in e'.taken ensures EntryOk(e', calls, begun + 1, id) && Earliest(e', calls[e'.taken[id]], id) {
      assert EntryOk(e, calls, begun, id) && Earliest(e, calls[e.taken[id]], id);
    }
  }

  lemma LedgerArrives(e: L.State, calls: seq<L.Call>, begun: nat, env: Envelope)
    requires Ledger(e, calls, begun)
    ensures Ledger(L.Next(e, L.Arrive(env)), calls, begun)
  {
    var e' := L.Next(e, L.Arrive(env));
    forall t: nat | t < begun ensures ThreadOk(e', calls[t], t) {
      assert ThreadOk(e, calls[t], t);
      if Took(e, t) {
        var id :| id in e.taken && e.taken[id] == t;
        assert e'.taken[id] == t;
      }
    }
    forall id | id in e'.taken ensures EntryOk(e', calls, begun, id) && Earliest(e', calls[e'.taken[id]], id) {
      assert EntryOk(e, calls, begun, id) && Earliest(e, calls[e.taken[id]], id);
    }
  }

  // Every step of the engine itself.
  lemma LedgerStep(e: L.State, l: Option<nat>, calls: seq<L.Call>, begun: nat, step: L.Step)
    requires L.Inv(e, l) && Ledger(e, calls, begun) && L.Enabled(e, step) && Internal(step) && InOrder(e, step)
    ensures Ledger(L.Next(e, step), calls, begun)
  {
    if L.TakenAt(e, step).None? {
      LedgerKept(e, calls, begun, step);
    } else {
      LedgerTakes(e, l, calls, begun, step);
    }
  }

  // The record only grows, and only for threads in a call.
  lemma TakenAfter(e: L.State, l: Option<nat>, calls: seq<L.Call>, begun: nat, step: L.Step)
    requires L.Inv(e, l) && Ledger(e, calls, begun) && L.Enabled(e, step) && Internal(step)
    ensures var e' := L.Next(e, step);
            && e'.arrived == e.arrived
            && (forall id | id in e.taken :: id in e'.taken)
            && (forall id | id in e'.taken ::
                  if id in e.taken then e'.taken[id] == e.taken[id]
                  else e'.taken[id] < |e.threads| && !e.threads[e'.taken[id]].Idle?)
  {
    if L.TakenAt(e, step).None? {
      ThreadsAfter(e, calls, begun, step);
    } else {
      var id := ThreadsAfterTaking(e, calls, begun, step);
      GivenArrived(e, l, step);
    }
  }
}
