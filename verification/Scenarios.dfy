// Runs of the engine with two active threads, for any filters and messages.
module Scenarios {
  import opened Basics
  import opened Mailbox
  import opened Listener

  // Threads u and v are at tu and tv, and all others idle.
  ghost predicate Pair(s: State, n: nat, u: nat, tu: Thread, v: nat, tv: Thread) {
    && |s.threads| == n && u < n && v < n && u != v
    && s.threads[u] == tu && s.threads[v] == tv
    && (forall w | 0 <= w < n && w != u && w != v :: s.threads[w].Idle?)
  }

  // Nothing going on: no call, no message, no outstanding receive.
  ghost predicate Clean(s: State, n: nat) {
    && |s.threads| == n && (forall w | 0 <= w < n :: s.threads[w].Idle?)
    && !s.token && s.queue == [] && s.prob.NoRecv? && s.wire == []
  }

  predicate Wants(call: Call, e: Envelope) { Matches(call.src, call.tag, e) }

  // The first call finds nothing and listens.
  lemma Called(n: nat, before: seq<Step>, s0: State, u: nat, call: Call) returns (steps: seq<Step>, s: State)
    requires Run(n, before) == Some(s0) && Clean(s0, n) && u < n
    ensures steps == before + [Begin(u, call), Enter(u)] && Run(n, steps) == Some(s)
    ensures s == s0.(threads := s0.threads[u := Listen(call)], token := true)
  {
    steps, s := Then(n, before, Begin(u, call), s0);
    steps, s := Then(n, steps, Enter(u), s);
  }

  // A message arrives while u listens and nothing is on its way: u takes it in hand.
  lemma Handed(n: nat, before: seq<Step>, s0: State, u: nat, call: Call, e: Envelope)
    returns (steps: seq<Step>, s: State)
    requires Run(n, before) == Some(s0) && u < |s0.threads| && s0.threads[u] == Listen(call)
    requires s0.prob.Posted? && s0.wire == []
    ensures steps == before + [Arrive(e), Complete, Take(u)] && Run(n, steps) == Some(s)
    ensures s == s0.(threads := s0.threads[u := Hold(call, Msg(|s0.arrived|, e))], prob := NoRecv,
                     arrived := s0.arrived + [e])
  {
    steps, s := Then(n, before, Arrive(e), s0);
    steps, s := Then(n, steps, Complete, s);
    steps, s := Then(n, steps, Take(u), s);
    assert s.wire == [];
  }

  // One receive from the call to its return, its message arriving on the way.
  lemma Serve(n: nat, before: seq<Step>, s0: State, u: nat, call: Call, e: Envelope)
    returns (steps: seq<Step>, s: State)
    requires Run(n, before) == Some(s0) && Clean(s0, n) && u < n && !call.probe && Wants(call, e)
    ensures steps == before + [Begin(u, call), Enter(u), Post(u)] + [Arrive(e), Complete, Take(u)]
                            + [Settle(u), Broadcast(u)]
    ensures Run(n, steps) == Some(s) && Clean(s, n)
    ensures s.arrived == s0.arrived + [e] && s.taken == s0.taken[|s0.arrived| := u]
  {
    steps, s := Called(n, before, s0, u, call);
    steps, s := Then(n, steps, Post(u), s);
    steps, s := Handed(n, steps, s, u, call, e);
    steps, s := Then(n, steps, Settle(u), s);
    steps, s := Then(n, steps, Broadcast(u), s);
  }

  // u listens, v waits, and the receive of u is posted.
  lemma BothCalled(n: nat, before: seq<Step>, s0: State, u: nat, a: Call, v: nat, b: Call)
    returns (steps: seq<Step>, s: State)
    requires Run(n, before) == Some(s0) && Clean(s0, n) && u < n && v < n && u != v
    ensures steps == before + [Begin(u, a), Enter(u), Begin(v, b), Enter(v), Post(u)]
    ensures Run(n, steps) == Some(s) && Pair(s, n, u, Listen(a), v, Waiting(b))
    ensures s.token && s.queue == [] && s.prob.Posted? && s.wire == []
    ensures s.arrived == s0.arrived && s.taken == s0.taken
  {
    steps, s := Called(n, before, s0, u, a);
    steps, s := Then(n, steps, Begin(v, b), s);
    steps, s := Then(n, steps, Enter(v), s);
    steps, s := Then(n, steps, Post(u), s);
  }

  // A message that u does not take is queued, and v is woken.
  lemma Queued(n: nat, before: seq<Step>, s0: State, u: nat, a: Call, v: nat, b: Call, e: Envelope)
    returns (steps: seq<Step>, s: State)
    requires Run(n, before) == Some(s0) && Pair(s0, n, u, Listen(a), v, Waiting(b))
    requires s0.token && s0.queue == [] && s0.prob.Posted? && s0.wire == [] && (a.probe || !Wants(a, e))
    ensures steps == before + [Arrive(e), Complete, Take(u)] + [Settle(u), Broadcast(u)]
    ensures Run(n, steps) == Some(s) && Pair(s, n, u, if a.probe then Idle else Listen(a), v, Woken(b))
    ensures s.token == !a.probe && s.queue == [Msg(|s0.arrived|, e)] && s.prob.NoRecv? && s.wire == []
    ensures s.arrived == s0.arrived + [e] && s.taken == s0.taken
  {
    steps, s := Handed(n, before, s0, u, a, e);
    steps, s := Then(n, steps, Settle(u), s);
    steps, s := Then(n, steps, Broadcast(u), s);
  }

  // u gets its own message and frees the token; v listens past the queued one.
  lemma TokenPassed(n: nat, before: seq<Step>, s0: State, u: nat, a: Call, v: nat, b: Call, e: Envelope)
    returns (steps: seq<Step>, s: State)
    requires Run(n, before) == Some(s0) && Pair(s0, n, u, Listen(a), v, Woken(b))
    requires s0.token && s0.prob.NoRecv? && s0.wire == [] && !a.probe && Wants(a, e)
    ensures steps == before + [Post(u)] + [Arrive(e), Complete, Take(u)] + [Settle(u), Wake(v), Broadcast(u)]
    ensures Run(n, steps) == Some(s) && Pair(s, n, u, Idle, v, Listen(b))
    ensures s.token && s.queue == s0.queue && s.prob.NoRecv? && s.wire == []
    ensures s.arrived == s0.arrived + [e] && s.taken == s0.taken[|s0.arrived| := u]
  {
    steps, s := Then(n, before, Post(u), s0);
    steps, s := Handed(n, steps, s, u, a, e);
    steps, s := Then(n, steps, Settle(u), s);
    steps, s := Then(n, steps, Wake(v), s);
    steps, s := Then(n, steps, Broadcast(u), s);
  }

  // v listens while the first message in the queue is for it.
  ghost predicate PastMatch(s: State, n: nat, u: nat, v: nat, b: Call, first: Envelope) {
    && Pair(s, n, u, Idle, v, Listen(b)) && s.token && s.prob.NoRecv? && s.wire == []
    && !b.probe && |s.queue| == 1 && s.queue[0].env == first && Wants(b, first)
  }

  // Two receives and a message that matches the second and not the first.
  lemma ReceivesPass(n: nat, before: seq<Step>, s0: State, u: nat, a: Call, ma: Envelope, v: nat, b: Call, mb: Envelope)
    returns (steps: seq<Step>, s: State)
    requires Run(n, before) == Some(s0) && Clean(s0, n) && u < n && v < n && u != v
    requires !a.probe && !b.probe && Wants(a, ma) && Wants(b, mb) && !Wants(a, mb)
    ensures steps == before + [Begin(u, a), Enter(u), Begin(v, b), Enter(v), Post(u)]
                            + [Arrive(mb), Complete, Take(u)] + [Settle(u), Broadcast(u)]
                            + [Post(u)] + [Arrive(ma), Complete, Take(u)] + [Settle(u), Wake(v), Broadcast(u)]
    ensures Run(n, steps) == Some(s) && PastMatch(s, n, u, v, b, mb) && s.arrived == s0.arrived + [mb, ma]
  {
    steps, s := BothCalled(n, before, s0, u, a, v, b);
    steps, s := Queued(n, steps, s, u, a, v, b, mb);
    steps, s := TokenPassed(n, steps, s, u, a, v, b, ma);
    assert s0.arrived + [mb] + [ma] == s0.arrived + [mb, ma];
  }

  // A probe and a receive are enough, whatever their filters.
  lemma ProbePasses(n: nat, before: seq<Step>, s0: State, u: nat, p: Call, v: nat, b: Call, mb: Envelope)
    returns (steps: seq<Step>, s: State)
    requires Run(n, before) == Some(s0) && Clean(s0, n) && u < n && v < n && u != v
    requires p.probe && !b.probe && Wants(b, mb)
    ensures steps == before + [Begin(u, p), Enter(u), Begin(v, b), Enter(v), Post(u)]
                            + [Arrive(mb), Complete, Take(u)] + [Settle(u), Broadcast(u)] + [Wake(v)]
    ensures Run(n, steps) == Some(s) && PastMatch(s, n, u, v, b, mb)
  {
    steps, s := BothCalled(n, before, s0, u, p, v, b);
    steps, s := Queued(n, steps, s, u, p, v, b, mb);
    steps, s := Then(n, steps, Wake(v), s);
  }

  // Listening past a match, v sleeps ...
  lemma AsleepOnAMatch(n: nat, before: seq<Step>, s0: State, u: nat, v: nat, b: Call, first: Envelope)
    returns (steps: seq<Step>, s: State)
    requires Run(n, before) == Some(s0) && PastMatch(s0, n, u, v, b, first)
    ensures steps == before + [Post(v)] && Run(n, steps) == Some(s) && Quiet(s)
    ensures |s.threads| == n && s.threads[v] == Listen(b) && s.queue == s0.queue && s.prob.Posted? && s.wire == []
    ensures (forall w | 0 <= w < n && w != v :: s.threads[w].Idle?) && s.arrived == s0.arrived
  {
    steps, s := Then(n, before, Post(v), s0);
  }

  // ... until a later message for it overtakes the queued one.
  lemma Overtaking(n: nat, before: seq<Step>, s0: State, u: nat, v: nat, b: Call, first: Envelope)
    returns (steps: seq<Step>, s: State)
    requires Run(n, before) == Some(s0) && PastMatch(s0, n, u, v, b, first)
    ensures steps == before + [Post(v)] + [Arrive(first), Complete, Take(v)]
    ensures Run(n, steps) == Some(s) && Enabled(s, Settle(v)) && s.threads[v].call == b && !b.probe
    ensures Wanted(b, s.threads[v].msg) && Hit(b, s.queue) < |s.queue|
  {
    steps, s := AsleepOnAMatch(n, before, s0, u, v, b, first);
    steps, s := Then(n, steps, Arrive(first), s);
    steps, s := Then(n, steps, Complete, s);
    steps, s := Then(n, steps, Take(v), s);
    HitAll(b, s.queue);
    assert s.queue[0] in s.queue;
  }

  // An empty probe leaves a waiting call of any kind behind, and its message in the
  // outstanding receive.
  lemma LostWakeUp(n: nat, before: seq<Step>, s0: State, u: nat, p: Call, v: nat, b: Call, mb: Envelope)
    returns (steps: seq<Step>, s: State)
    requires Run(n, before) == Some(s0) && Clean(s0, n) && u < n && v < n && u != v && p.probe && Wants(b, mb)
    ensures steps == before + [Begin(u, p), Enter(u), Begin(v, b), Enter(v), Post(u)]
                            + [EmptyProbe(u), Arrive(mb), Complete]
    ensures Run(n, steps) == Some(s) && Quiet(s) && Pair(s, n, u, Idle, v, Waiting(b))
    ensures s.prob.Filled? && Wanted(b, s.prob.msg)
  {
    steps, s := BothCalled(n, before, s0, u, p, v, b);
    steps, s := Then(n, steps, EmptyProbe(u), s);
    steps, s := Then(n, steps, Arrive(mb), s);
    steps, s := Then(n, steps, Complete, s);
  }
}
