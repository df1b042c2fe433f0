// A rank that posts two receives in a round may be left with one that never returns,
// in a run of all ranks, engines and messages.
module EngineHangs {
  import opened Basics
  import opened Mailbox
  import opened N = Network
  import L = Listener
  import opened Scenarios
  import opened Callers
  import opened Settling
  import opened RankReceives
  import opened Composed
  import opened EngineProgress

  // ---------------------------------------------------------------------
  // Runs one act longer.

  ghost predicate At<V>(op: (V, V) -> V, c: Setup, init: seq<V>, strict: bool, acts: seq<Act>, w: World<V>) {
    SetupOk(c) && |init| == c.n && Reached(op, c, init, strict, acts) == Some(w)
  }

  lemma OneMore<V>(op: (V, V) -> V, c: Setup, init: seq<V>, strict: bool, acts: seq<Act>, w: World<V>, act: Act)
    returns (acts': seq<Act>, w': World<V>)
    requires At(op, c, init, strict, acts, w) && Can(c, strict, w, act)
    ensures Can(c, false, w, act) && w' == After(op, c, w, act)
    ensures acts' == acts + [act] && At(op, c, init, strict, acts', w')
  {
    ReachedMore(op, c, init, strict, acts, act);
    acts', w' := acts + [act], After(op, c, w, act);
  }

  // No rank has moved.
  ghost predicate RanksStay<V>(w: World<V>, w': World<V>) {
    w'.pcs == w.pcs && |w'.air| == |w.air| && |w'.logs| == |w.logs|
  }

  lemma StepEnabled(n: nat, all: seq<L.Step>, m: nat)
    requires m < |all| && L.Run(n, all).Some?
    ensures L.Run(n, all[..m]).Some? && L.Enabled(L.Run(n, all[..m]).value, all[m])
  {
    assert all == all[..m + 1] + all[m + 1..];
    RunPrefix(n, all[..m + 1], all[m + 1..]);
    assert all[..m + 1][..m] == all[..m];
  }

  // The engine goes on along a given run.
  lemma {:induction false} EngineOn<V>(op: (V, V) -> V, c: Setup, init: seq<V>, strict: bool, acts: seq<Act>,
                                       w: World<V>, r: nat, all: seq<L.Step>, m: nat, k: nat)
    returns (acts': seq<Act>, w': World<V>)
    requires At(op, c, init, strict, acts, w) && r < c.n && m <= k <= |all|
    requires L.Run(c.sizes[r], all).Some? && w.logs[r] == all[..m]
    requires forall j | m <= j < k :: Internal(all[j])
    ensures At(op, c, init, strict, acts', w') && acts <= acts'
    ensures RanksStay(w, w') && w'.air == w.air && w'.logs[r] == all[..k]
    decreases k - m
  {
    if m == k {
      acts', w' := acts, w;
    } else {
      StepEnabled(c.sizes[r], all, m);
      assert RankShape(c, w, r);
      acts', w' := OneMore(op, c, init, strict, acts, w, Engine(r, all[m]));
      assert w'.logs[r] == all[..m + 1];
      acts', w' := EngineOn(op, c, init, strict, acts', w', r, all, m + 1, k);
    }
  }

  // The rank posts its next receive.
  lemma IssueOn<V>(op: (V, V) -> V, c: Setup, init: seq<V>, strict: bool, acts: seq<Act>, w: World<V>, r: nat,
                   all: seq<L.Step>, m: nat)
    returns (acts': seq<Act>, w': World<V>)
    requires At(op, c, init, strict, acts, w) && r < c.n && RankShape(c, w, r) && m < |all|
    requires L.Run(c.sizes[r], all).Some? && w.logs[r] == all[..m]
    requires w.pcs[r].round < |c.prog| && Matched(c.n, c.prog[w.pcs[r].round]) && !w.pcs[r].sent
    requires w.pcs[r].posted < |c.prog[w.pcs[r].round].parts[r].recvs| && all[m] == NextCall(c, r, w.pcs[r])
    ensures At(op, c, init, strict, acts', w') && acts <= acts'
    ensures w'.pcs == w.pcs[r := w.pcs[r].(posted := w.pcs[r].posted + 1)] && w'.air == w.air && w'.accs == w.accs
    ensures |w'.logs| == |w.logs| && w'.logs[r] == all[..m + 1]
  {
    StepEnabled(c.sizes[r], all, m);
    IssueAfter(op, c, w, r);
    acts', w' := OneMore(op, c, init, strict, acts, w, Issue(r));
    assert all[..m + 1] == all[..m] + [all[m]];
  }

  lemma IssueAfter<V>(op: (V, V) -> V, c: Setup, w: World<V>, r: nat)
    requires Composed.Shape(c, w) && r < c.n && RankShape(c, w, r)
    requires w.pcs[r].round < |c.prog| && Matched(c.n, c.prog[w.pcs[r].round]) && !w.pcs[r].sent
    requires w.pcs[r].posted < |c.prog[w.pcs[r].round].parts[r].recvs|
    requires L.Enabled(w.engines[r], NextCall(c, r, w.pcs[r]))
    ensures Can(c, false, w, Issue(r)) && Can(c, true, w, Issue(r))
    ensures var w' := After(op, c, w, Issue(r));
            && w'.pcs == w.pcs[r := w.pcs[r].(posted := w.pcs[r].posted + 1)] && w'.air == w.air && w'.accs == w.accs
            && |w'.logs| == |w.logs| && w'.logs[r] == w.logs[r] + [NextCall(c, r, w.pcs[r])]
  {
  }

  // The oldest message arrives.
  lemma DeliverOn<V>(op: (V, V) -> V, c: Setup, init: seq<V>, strict: bool, acts: seq<Act>, w: World<V>, r: nat,
                     all: seq<L.Step>, m: nat)
    returns (acts': seq<Act>, w': World<V>)
    requires At(op, c, init, strict, acts, w) && r < c.n && m < |all| && w.logs[r] == all[..m] && w.air[r] != []
    requires all[m] == L.Arrive(Envelope(w.air[r][0].src + 1, c.tag, []))
    ensures At(op, c, init, strict, acts', w') && acts <= acts'
    ensures RanksStay(w, w') && w'.air == w.air[r := w.air[r][1..]] && w'.logs[r] == all[..m + 1]
  {
    acts', w' := OneMore(op, c, init, strict, acts, w, Deliver(r, 0));
    assert Composed.Without(w.air[r], 0) == w.air[r][1..];
  }

  // ---------------------------------------------------------------------
  // A rank posts the receives of a round and sends.

  ghost predicate IdleFrom(e: L.State, b: nat) { forall t | b <= t < |e.threads| :: e.threads[t].Idle? }

  // w' is w with another position and engine of rank r.
  ghost predicate OnlyRank<V>(w: World<V>, w': World<V>, r: nat) {
    && r < |w.pcs| && |w'.pcs| == |w.pcs| && w'.pcs == w.pcs[r := w'.pcs[r]] && w'.accs == w.accs && |w'.air| == |w.air|
    && |w'.engines| == |w.engines| == |w'.logs| == |w.logs|
    && forall q | 0 <= q < |w.engines| && q != r :: w'.engines[q] == w.engines[q] && w'.logs[q] == w.logs[q]
  }

  lemma {:induction false} PostAll<V>(op: (V, V) -> V, c: Setup, init: seq<V>, strict: bool, acts: seq<Act>,
                                      w: World<V>, r: nat)
    returns (acts': seq<Act>, w': World<V>)
    requires At(op, c, init, strict, acts, w) && r < c.n && RankShape(c, w, r)
    requires w.pcs[r].round < |c.prog| && !w.pcs[r].sent && IdleFrom(w.engines[r], Issued(c, r, w.pcs[r]))
    ensures At(op, c, init, strict, acts', w') && acts <= acts'
    ensures OnlyRank(w, w', r) && w'.air == w.air
    ensures |c.prog[w.pcs[r].round].parts| == c.n
    ensures w'.pcs[r] == w.pcs[r].(posted := |c.prog[w.pcs[r].round].parts[r].recvs|)
    decreases |c.prog[w.pcs[r].round].parts[r].recvs| - w.pcs[r].posted
  {
    var pc := w.pcs[r];
    assert Matched(c.n, c.prog[pc.round]);
    if pc.posted == |c.prog[pc.round].parts[r].recvs| {
      acts', w' := acts, w;
    } else {
      IssuedBound(c, r, pc);
      acts', w' := OneMore(op, c, init, strict, acts, w, Issue(r));
      assert RankShape(c, w', r);
      acts', w' := PostAll(op, c, init, strict, acts', w', r);
    }
  }

  // The message of rank s in its round is on its way.
  lemma SendOut<V>(op: (V, V) -> V, c: Setup, init: seq<V>, strict: bool, acts: seq<Act>, w: World<V>, s: nat, d: nat)
    returns (acts': seq<Act>, w': World<V>)
    requires At(op, c, init, strict, acts, w) && s < c.n && d < c.n && RankShape(c, w, s)
    requires w.pcs[s].round < |c.prog| && !w.pcs[s].sent && IdleFrom(w.engines[s], Issued(c, s, w.pcs[s]))
    requires Matched(c.n, c.prog[w.pcs[s].round]) && c.prog[w.pcs[s].round].parts[s].dst == Some(d)
    ensures At(op, c, init, strict, acts', w') && acts <= acts'
    ensures OnlyRank(w, w', s) && w'.air == w.air[d := w.air[d] + [Flying(s, w.accs[s])]]
    ensures w'.pcs[s].round == w.pcs[s].round && w'.pcs[s].sent
  {
    acts', w' := PostAll(op, c, init, strict, acts, w, s);
    acts', w' := OneMore(op, c, init, strict, acts', w', Emit(s));
  }

  // ---------------------------------------------------------------------
  // The second of two receives is left behind.

  // All ranks are about to begin round i, and nothing is left of the rounds before.
  ghost predicate Fresh<V>(c: Setup, w: World<V>, i: nat)
    requires Composed.Shape(c, w)
  {
    && i < |c.prog| && Matched(c.n, c.prog[i])
    && forall r: nat | r < c.n :: FreshRank(c, w, i, r)
  }

  ghost predicate FreshRank<V>(c: Setup, w: World<V>, i: nat, r: nat)
    requires Composed.Shape(c, w) && r < c.n
  {
    RankShape(c, w, r) && w.pcs[r] == Pc(i, 0, false, false, 0) && w.air[r] == [] && Clean(w.engines[r], c.sizes[r])
  }

  // Both messages for r are on their way, that of v first.
  lemma BothSent<V>(op: (V, V) -> V, c: Setup, init: seq<V>, strict: bool, acts: seq<Act>, w: World<V>, i: nat,
                    r: nat, u: nat, v: nat)
    returns (acts': seq<Act>, w': World<V>)
    requires At(op, c, init, strict, acts, w) && Fresh(c, w, i) && r < c.n && u < c.n && v < c.n && u != v
    requires u != r && v != r && c.prog[i].parts[u].dst == Some(r) == c.prog[i].parts[v].dst
    ensures At(op, c, init, strict, acts', w') && acts <= acts'
    ensures |w'.air| == |w'.pcs| == |w'.logs| == |w'.engines| == c.n
    ensures w'.pcs[r] == w.pcs[r] && w'.logs[r] == w.logs[r] && w'.engines[r] == w.engines[r]
    ensures w'.pcs[v].round == i && w'.pcs[v].sent
    ensures w'.air[r] == [Flying(v, w.accs[v]), Flying(u, w.accs[u])]
  {
    assert FreshRank(c, w, i, r) && FreshRank(c, w, i, u) && FreshRank(c, w, i, v);
    acts', w' := SendOut(op, c, init, strict, acts, w, v, r);
    assert RankShape(c, w', u);
    acts', w' := SendOut(op, c, init, strict, acts', w', u, r);
  }

  // A run of one engine in which calls a and then d begin, and mb and then ma arrive.
  ghost predicate Scripted(all: seq<L.Step>, m: nat, b: nat, a: L.Call, d: L.Call, ma: Envelope, mb: Envelope) {
    && |all| == m + 18
    && all[m] == L.Begin(b, a) && all[m + 2] == L.Begin(b + 1, d)
    && all[m + 5] == L.Arrive(mb) && all[m + 11] == L.Arrive(ma)
    && (forall j | m < j < |all| && j != m + 2 && j != m + 5 && j != m + 11 :: Internal(all[j]))
  }

  lemma WriteScript(log: seq<L.Step>, b: nat, a: L.Call, ma: Envelope, d: L.Call, mb: Envelope)
    returns (all: seq<L.Step>)
    ensures all == log + [L.Begin(b, a), L.Enter(b), L.Begin(b + 1, d), L.Enter(b + 1), L.Post(b)]
                       + [L.Arrive(mb), L.Complete, L.Take(b)] + [L.Settle(b), L.Broadcast(b)]
                       + [L.Post(b)] + [L.Arrive(ma), L.Complete, L.Take(b)]
                       + [L.Settle(b), L.Wake(b + 1), L.Broadcast(b)] + [L.Post(b + 1)]
    ensures Scripted(all, |log|, b, a, d, ma, mb) && all[..|log|] == log
  {
    all := log + [L.Begin(b, a), L.Enter(b), L.Begin(b + 1, d), L.Enter(b + 1), L.Post(b),
                  L.Arrive(mb), L.Complete, L.Take(b), L.Settle(b), L.Broadcast(b), L.Post(b),
                  L.Arrive(ma), L.Complete, L.Take(b), L.Settle(b), L.Wake(b + 1), L.Broadcast(b), L.Post(b + 1)];
  }

  // The engine of r alone.
  lemma Script(n: nat, log: seq<L.Step>, e: L.State, b: nat, a: L.Call, ma: Envelope, d: L.Call, mb: Envelope)
    returns (all: seq<L.Step>, e': L.State)
    requires L.Run(n, log) == Some(e) && Clean(e, n) && b + 1 < n
    requires !a.probe && !d.probe && Wants(a, ma) && Wants(d, mb) && !Wants(a, mb)
    ensures Scripted(all, |log|, b, a, d, ma, mb) && all[..|log|] == log && L.Run(n, all) == Some(e')
    ensures L.Quiet(e') && |e'.threads| == n && HasMessage(e', b + 1) && Deaf(e', b + 1, d)
  {
    all, e' := SecondSleeps(n, log, e, b, a, ma, d, mb);
    var same := WriteScript(log, b, a, ma, d, mb);
  }

  lemma SecondSleeps(n: nat, log: seq<L.Step>, e: L.State, b: nat, a: L.Call, ma: Envelope, d: L.Call, mb: Envelope)
    returns (all: seq<L.Step>, e': L.State)
    requires L.Run(n, log) == Some(e) && Clean(e, n) && b + 1 < n
    requires !a.probe && !d.probe && Wants(a, ma) && Wants(d, mb) && !Wants(a, mb)
    ensures all == log + [L.Begin(b, a), L.Enter(b), L.Begin(b + 1, d), L.Enter(b + 1), L.Post(b)]
                       + [L.Arrive(mb), L.Complete, L.Take(b)] + [L.Settle(b), L.Broadcast(b)]
                       + [L.Post(b)] + [L.Arrive(ma), L.Complete, L.Take(b)]
                       + [L.Settle(b), L.Wake(b + 1), L.Broadcast(b)] + [L.Post(b + 1)]
    ensures L.Run(n, all) == Some(e') && L.Quiet(e') && |e'.threads| == n
    ensures HasMessage(e', b + 1) && Deaf(e', b + 1, d)
  {
    var steps, s := ReceivesPass(n, log, e, b, a, ma, b + 1, d, mb);
    all, e' := AsleepOnAMatch(n, steps, s, b, b + 1, d, mb);
    assert e'.queue[0] in e'.queue + L.Flight(e') + e'.wire;
  }

  // The rank posts the j-th receive of round i, and its engine goes on.
  lemma IssueAt<V>(op: (V, V) -> V, c: Setup, init: seq<V>, strict: bool, acts: seq<Act>, w: World<V>, r: nat,
                   i: nat, j: nat, all: seq<L.Step>, m: nat, k: nat)
    returns (acts': seq<Act>, w': World<V>)
    requires At(op, c, init, strict, acts, w) && r < c.n && i < |c.prog| && Matched(c.n, c.prog[i])
    requires w.pcs[r] == Pc(i, j, false, false, 0) && j < |c.prog[i].parts[r].recvs| && m < |all|
    requires L.Run(c.sizes[r], all).Some? && w.logs[r] == all[..m]
    requires all[m] == L.Begin(Base(c, r, i) + j, CallOf(Receive(i, c.prog[i].parts[r].recvs[j]), c.tag))
    requires m < k <= |all| && forall x | m < x < k :: Internal(all[x])
    ensures At(op, c, init, strict, acts', w') && acts <= acts'
    ensures w'.pcs == w.pcs[r := Pc(i, j + 1, false, false, 0)] && w'.air == w.air
    ensures |w'.logs| == |w.logs| && w'.logs[r] == all[..k]
  {
    assert RankShape(c, w, r);
    assert w.pcs[r].(posted := j + 1) == Pc(i, j + 1, false, false, 0);
    acts', w' := IssueOn(op, c, init, strict, acts, w, r, all, m);
    acts', w' := EngineOn(op, c, init, strict, acts', w', r, all, m + 1, k);
  }

  // The run of all ranks in which r's engine does that: r posts both receives ...
  lemma PostBoth<V>(op: (V, V) -> V, c: Setup, init: seq<V>, strict: bool, acts: seq<Act>, w: World<V>, i: nat, r: nat,
                    all: seq<L.Step>, m: nat, b: nat, a: L.Call, d: L.Call, ma: Envelope, mb: Envelope)
    returns (acts': seq<Act>, w': World<V>)
    requires At(op, c, init, strict, acts, w) && r < c.n && i < |c.prog| && Matched(c.n, c.prog[i])
    requires w.pcs[r] == Pc(i, 0, false, false, 0) && |c.prog[i].parts[r].recvs| >= 2
    requires L.Run(c.sizes[r], all).Some? && Scripted(all, m, b, a, d, ma, mb) && w.logs[r] == all[..m]
    requires b == Base(c, r, i) && a == CallOf(Receive(i, c.prog[i].parts[r].recvs[0]), c.tag)
    requires d == CallOf(Receive(i, c.prog[i].parts[r].recvs[1]), c.tag)
    ensures At(op, c, init, strict, acts', w') && acts <= acts' && |w'.air| == |w'.logs| == c.n
    ensures w'.pcs == w.pcs[r := Pc(i, 2, false, false, 0)] && w'.air == w.air && w'.logs[r] == all[..m + 5]
  {
    acts', w' := IssueAt(op, c, init, strict, acts, w, r, i, 0, all, m, m + 2);
    acts', w' := IssueAt(op, c, init, strict, acts', w', r, i, 1, all, m + 2, m + 5);
  }

  // ... and both messages arrive.
  lemma HearBoth<V>(op: (V, V) -> V, c: Setup, init: seq<V>, strict: bool, acts: seq<Act>, w: World<V>, r: nat,
                    all: seq<L.Step>, m: nat, b: nat, a: L.Call, d: L.Call, ma: Envelope, mb: Envelope)
    returns (acts': seq<Act>, w': World<V>)
    requires At(op, c, init, strict, acts, w) && r < c.n && RankShape(c, w, r)
    requires L.Run(c.sizes[r], all).Some? && Scripted(all, m, b, a, d, ma, mb) && w.logs[r] == all[..m + 5]
    requires |w.air[r]| == 2 && mb == Envelope(w.air[r][0].src + 1, c.tag, [])
    requires ma == Envelope(w.air[r][1].src + 1, c.tag, [])
    ensures At(op, c, init, strict, acts', w') && acts <= acts' && |w'.air| == |w'.logs| == c.n
    ensures w'.pcs == w.pcs && w'.air[r] == [] && w'.logs[r] == all
  {
    acts', w' := DeliverOn(op, c, init, strict, acts, w, r, all, m + 5);
    acts', w' := EngineOn(op, c, init, strict, acts', w', r, all, m + 6, m + 11);
    acts', w' := DeliverOn(op, c, init, strict, acts', w', r, all, m + 11);
    acts', w' := EngineOn(op, c, init, strict, acts', w', r, all, m + 12, m + 18);
    assert all[..m + 18] == all;
  }

  // Rank r's engine is at rest, and does not hear of the message from v that its second
  // receive of round i is for.
  ghost predicate LeftBehind<V>(c: Setup, w: World<V>, i: nat, r: nat, v: nat)
    requires Composed.Shape(c, w) && r < c.n && v < c.n && i < |c.prog|
  {
    var t := Base(c, r, i) + 1;
    && L.Quiet(w.engines[r]) && t < |w.engines[r].threads| && HasMessage(w.engines[r], t)
    && Deaf(w.engines[r], t, CallOf(Receive(i, v), c.tag))
    && w.pcs[r] == Pc(i, 2, false, false, 0) && w.air[r] == []
    && w.pcs[v].round == i && w.pcs[v].sent
  }

  lemma ScriptFor<V>(c: Setup, w: World<V>, i: nat, r: nat, u: nat, v: nat) returns (all: seq<L.Step>, e: L.State)
    requires Composed.Shape(c, w) && Fresh(c, w, i) && r < c.n && |c.prog[i].parts[r].recvs| >= 2 && u != v
    ensures RankShape(c, w, r) && L.Run(c.sizes[r], all) == Some(e)
    ensures |w.logs[r]| <= |all| && all[..|w.logs[r]|] == w.logs[r]
    ensures Scripted(all, |w.logs[r]|, Base(c, r, i), CallOf(Receive(i, u), c.tag), CallOf(Receive(i, v), c.tag),
                     MessageOf(Receive(i, u), c.tag), MessageOf(Receive(i, v), c.tag))
    ensures L.Quiet(e) && Base(c, r, i) + 1 < |e.threads| && HasMessage(e, Base(c, r, i) + 1)
    ensures Deaf(e, Base(c, r, i) + 1, CallOf(Receive(i, v), c.tag))
  {
    assert FreshRank(c, w, i, r);
    CallAt(c, r, i, 1);
    all, e := Script(c.sizes[r], w.logs[r], w.engines[r], Base(c, r, i), CallOf(Receive(i, u), c.tag),
                     MessageOf(Receive(i, u), c.tag), CallOf(Receive(i, v), c.tag), MessageOf(Receive(i, v), c.tag));
  }

  // So the engine of r can come to rest with the second receive of round i left behind.
  lemma TwoReceives<V>(op: (V, V) -> V, c: Setup, init: seq<V>, strict: bool, acts: seq<Act>, w: World<V>, i: nat,
                       r: nat, u: nat, v: nat)
    returns (acts': seq<Act>, w': World<V>)
    requires At(op, c, init, strict, acts, w) && Fresh(c, w, i) && r < c.n && u < c.n && v < c.n && u != v
    requires |c.prog[i].parts[r].recvs| >= 2 && u == c.prog[i].parts[r].recvs[0] && v == c.prog[i].parts[r].recvs[1]
    requires u != r && v != r && c.prog[i].parts[u].dst == Some(r) == c.prog[i].parts[v].dst
    ensures At(op, c, init, strict, acts', w') && acts <= acts' && LeftBehind(c, w', i, r, v)
  {
    assert FreshRank(c, w, i, r);
    var all, e := ScriptFor(c, w, i, r, u, v);
    acts', w' := BothSent(op, c, init, strict, acts, w, i, r, u, v);
    assert RankShape(c, w', r);
    var a, d := CallOf(Receive(i, u), c.tag), CallOf(Receive(i, v), c.tag);
    var ma, mb := MessageOf(Receive(i, u), c.tag), MessageOf(Receive(i, v), c.tag);
    var m, b := |w.logs[r]|, Base(c, r, i);
    acts', w' := PostBoth(op, c, init, strict, acts', w', i, r, all, m, b, a, d, ma, mb);
    assert RankShape(c, w', r);
    acts', w' := HearBoth(op, c, init, strict, acts', w', r, all, m, b, a, d, ma, mb);
    assert RankShape(c, w', r);
  }
}
