// When ranks and engines can deadlock: a receive that was left behind returns no more
// unless its rank is sent another message.
module Deadlock {
  import opened Basics
  import opened Mailbox
  import opened N = Network
  import opened Runs
  import L = Listener
  import opened Scenarios
  import opened Callers
  import opened RankReceives
  import opened Composed
  import opened EngineRuns
  import opened EngineProgress
  import opened EngineHangs
  import opened FreshRounds

  // A run can come to rest although not all ranks have returned.
  ghost predicate MayDeadlock<V>(op: (V, V) -> V, c: Setup, init: seq<V>, strict: bool)
    requires SetupOk(c) && |init| == c.n
  {
    exists acts :: Deadlocked(op, c, init, strict, acts)
  }

  ghost predicate Deadlocked<V>(op: (V, V) -> V, c: Setup, init: seq<V>, strict: bool, acts: seq<Act>)
    requires SetupOk(c) && |init| == c.n
  {
    && Reached(op, c, init, strict, acts).Some?
    && AtRest(c, strict, Reached(op, c, init, strict, acts).value)
    && !Done(c, Reached(op, c, init, strict, acts).value)
  }

  // From round i on s sends nothing more to d after the message of that round.
  ghost predicate LastMessage(c: Setup, i: nat, s: nat, d: nat)
    requires AllMatched(c.n, c.prog) && s < c.n
  {
    forall j | i < j < |c.prog| :: Matched(c.n, c.prog[j]) && c.prog[j].parts[s].dst != Some(d)
  }

  // v has sent its last message to r, and that one has arrived, but thread t of r's
  // engine, which is to receive it, does not hear of it.
  ghost predicate Blocked<V>(c: Setup, w: World<V>, i: nat, r: nat, v: nat, t: nat) {
    && Composed.Shape(c, w) && r < c.n && v < c.n && i < |c.prog| && RankShape(c, w, r) && RankShape(c, w, v)
    && LastMessage(c, i, v, r) && t < Base(c, r, i + 1)
    && Deaf(w.engines[r], t, CallOf(Receive(i, v), c.tag))
    && w.pcs[r].round <= i && Collected(c, r, w.pcs[r]) <= t
    && (forall f | f in w.air[r] :: f.src != v)
    && RoundsSent(w.pcs[v]) > i
  }

  lemma DeafOn(n: nat, log: seq<L.Step>, e: L.State, step: L.Step, t: nat, call: L.Call)
    requires L.Run(n, log) == Some(e) && Deaf(e, t, call) && L.Enabled(e, step)
    requires step.Arrive? ==> !Wants(call, step.env)
    ensures Deaf(L.Next(e, step), t, call)
  {
    var l := L.InvRun(n, log);
    DeafStep(e, l, step, t, call);
  }

  // The engine of r, or one of the others, moves.
  lemma BlockedEngine<V>(c: Setup, w: World<V>, w': World<V>, i: nat, r: nat, v: nat, t: nat, q: nat, step: L.Step)
    requires Blocked(c, w, i, r, v, t) && Composed.Shape(c, w') && q < c.n && L.Enabled(w.engines[q], step)
    requires w'.engines == w.engines[q := L.Next(w.engines[q], step)]
    requires q == r && step.Arrive? ==> step.env.src != v + 1
    requires forall f | f in w'.air[r] :: f in w.air[r]
    requires w'.pcs[v].round == w.pcs[v].round && w'.pcs[v].sent == w.pcs[v].sent
    requires w'.pcs[r].round == w.pcs[r].round && w'.pcs[r].waited == w.pcs[r].waited
    ensures Blocked(c, w', i, r, v, t)
  {
    assert RankShape(c, w', r) && RankShape(c, w', v);
    if q == r {
      DeafOn(c.sizes[r], w.logs[r], w.engines[r], step, t, CallOf(Receive(i, v), c.tag));
    }
  }

  // A rank's loop moves.
  lemma BlockedLoop<V>(c: Setup, w: World<V>, w': World<V>, i: nat, r: nat, v: nat, t: nat)
    requires Blocked(c, w, i, r, v, t) && Composed.Shape(c, w') && RankShape(c, w', r) && w'.engines == w.engines
    requires forall f | f in w'.air[r] && f.src == v :: f in w.air[r]
    requires RoundsSent(w'.pcs[v]) >= RoundsSent(w.pcs[v])
    requires w'.pcs[r].round <= i && Collected(c, r, w'.pcs[r]) <= t
    ensures Blocked(c, w', i, r, v, t)
  {
    assert RankShape(c, w', v);
  }

  lemma BlockedEmit<V>(op: (V, V) -> V, c: Setup, w: World<V>, i: nat, r: nat, v: nat, t: nat, q: nat)
    requires Blocked(c, w, i, r, v, t) && Can(c, false, w, Emit(q))
    ensures Blocked(c, After(op, c, w, Emit(q)), i, r, v, t)
  {
    var w' := After(op, c, w, Emit(q));
    LoopAct(op, c, w, Emit(q));
    assert RankShape(c, w', r);
    BlockedLoop(c, w, w', i, r, v, t);
  }

  lemma LoopAct<V>(op: (V, V) -> V, c: Setup, w: World<V>, act: Act)
    requires Composed.Shape(c, w) && Local(act) && Can(c, false, w, act)
    ensures Composed.Shape(c, After(op, c, w, act)) && After(op, c, w, act).engines == w.engines
    ensures RankShape(c, w, act.rank)
    ensures RoundsSent(After(op, c, w, act).pcs[act.rank]) >= RoundsSent(w.pcs[act.rank])
    ensures forall q | 0 <= q < c.n && q != act.rank :: After(op, c, w, act).pcs[q] == w.pcs[q]
    ensures !act.Emit? ==> After(op, c, w, act).air == w.air
  {
    ShapeAfter(op, c, w, act);
    assert RankShape(c, w, act.rank);
  }

  // Rank r does not get past the receive.
  lemma BlockedRank<V>(op: (V, V) -> V, c: Setup, w: World<V>, i: nat, r: nat, v: nat, t: nat, act: Act)
    requires Blocked(c, w, i, r, v, t) && Can(c, false, w, act) && Local(act) && act.rank == r
    requires Composed.Shape(c, After(op, c, w, act)) && RankShape(c, After(op, c, w, act), r)
    ensures After(op, c, w, act).pcs[r].round <= i && Collected(c, r, After(op, c, w, act).pcs[r]) <= t
  {
    LoopCounts(op, c, w, act);
    if act.Advance? {
      NextBase(c, r, w.pcs[r].round);
    }
  }

  lemma WithoutMembers<T>(q: seq<T>, k: nat)
    requires k < |q|
    ensures forall x | x in Composed.Without(q, k) :: x in q
  {
  }

  lemma BlockedDeliver<V>(op: (V, V) -> V, c: Setup, w: World<V>, i: nat, r: nat, v: nat, t: nat, q: nat, k: nat)
    requires Blocked(c, w, i, r, v, t) && Can(c, false, w, Deliver(q, k))
    ensures Blocked(c, After(op, c, w, Deliver(q, k)), i, r, v, t)
  {
    var w', f := After(op, c, w, Deliver(q, k)), w.air[q][k];
    ShapeAfter(op, c, w, Deliver(q, k));
    WithoutMembers(w.air[q], k);
    assert f in w.air[q];
    BlockedEngine(c, w, w', i, r, v, t, q, L.Arrive(Envelope(f.src + 1, c.tag, [])));
  }

  lemma BlockedIssue<V>(op: (V, V) -> V, c: Setup, w: World<V>, i: nat, r: nat, v: nat, t: nat, q: nat)
    requires Blocked(c, w, i, r, v, t) && Can(c, false, w, Issue(q))
    ensures Blocked(c, After(op, c, w, Issue(q)), i, r, v, t)
  {
    var w' := After(op, c, w, Issue(q));
    ShapeAfter(op, c, w, Issue(q));
    assert RankShape(c, w, q) && Matched(c.n, c.prog[w.pcs[q].round]);
    BlockedEngine(c, w, w', i, r, v, t, q, NextCall(c, q, w.pcs[q]));
  }

  lemma BlockedLocal<V>(op: (V, V) -> V, c: Setup, w: World<V>, i: nat, r: nat, v: nat, t: nat, act: Act)
    requires Blocked(c, w, i, r, v, t) && Can(c, false, w, act) && Local(act) && !act.Emit?
    ensures Blocked(c, After(op, c, w, act), i, r, v, t)
  {
    var w' := After(op, c, w, act);
    LoopAct(op, c, w, act);
    assert RankShape(c, w', r);
    if act.rank == r {
      BlockedRank(op, c, w, i, r, v, t, act);
    }
    BlockedLoop(c, w, w', i, r, v, t);
  }

  lemma BlockedStays<V>(op: (V, V) -> V, c: Setup, w: World<V>, i: nat, r: nat, v: nat, t: nat, act: Act)
    requires Blocked(c, w, i, r, v, t) && Can(c, false, w, act)
    ensures Blocked(c, After(op, c, w, act), i, r, v, t)
  {
    match act
    case Deliver(q, k) => BlockedDeliver(op, c, w, i, r, v, t, q, k);
    case Engine(q, step) =>
      ShapeAfter(op, c, w, act);
      BlockedEngine(c, w, After(op, c, w, act), i, r, v, t, q, step);
    case Issue(q) => BlockedIssue(op, c, w, i, r, v, t, q);
    case Emit(q) => BlockedEmit(op, c, w, i, r, v, t, q);
    case _ => BlockedLocal(op, c, w, i, r, v, t, act);
  }

  lemma {:induction false} BlockedRun<V>(op: (V, V) -> V, c: Setup, init: seq<V>, strict: bool, acts: seq<Act>,
                                         all: seq<Act>, i: nat, r: nat, v: nat, t: nat)
    requires SetupOk(c) && |init| == c.n && acts <= all
    requires Reached(op, c, init, strict, acts).Some? && Reached(op, c, init, strict, all).Some?
    requires Blocked(c, Reached(op, c, init, strict, acts).value, i, r, v, t)
    ensures Blocked(c, Reached(op, c, init, strict, all).value, i, r, v, t)
    decreases |all|
  {
    if acts != all {
      var before := all[..|all| - 1];
      assert acts <= before;
      BlockedRun(op, c, init, strict, acts, before, i, r, v, t);
      BlockedStays(op, c, Reached(op, c, init, strict, before).value, i, r, v, t, all[|all| - 1]);
    }
  }

  lemma LeftBehindBlocks<V>(c: Setup, w: World<V>, i: nat, r: nat, v: nat)
    requires Composed.Shape(c, w) && r < c.n && v < c.n && i < |c.prog| && LeftBehind(c, w, i, r, v)
    requires LastMessage(c, i, v, r) && Matched(c.n, c.prog[i]) && |c.prog[i].parts[r].recvs| >= 2
    ensures Blocked(c, w, i, r, v, Base(c, r, i) + 1)
  {
    CallAt(c, r, i, 1);
    assert RankShape(c, w, r) && RankShape(c, w, v);
  }

  // A run that has left the receive behind comes to rest with rank r in it.
  lemma LeftBehindDeadlocks<V>(op: (V, V) -> V, c: Setup, init: seq<V>, strict: bool, acts: seq<Act>, w: World<V>,
                               i: nat, r: nat, v: nat)
    requires At(op, c, init, strict, acts, w) && r < c.n && v < c.n && i < |c.prog| && LeftBehind(c, w, i, r, v)
    requires LastMessage(c, i, v, r) && Matched(c.n, c.prog[i]) && |c.prog[i].parts[r].recvs| >= 2
    ensures MayDeadlock(op, c, init, strict)
  {
    LeftBehindBlocks(c, w, i, r, v);
    var all := EveryRunEnds(op, c, init, strict, acts);
    BlockedRun(op, c, init, strict, acts, all, i, r, v, Base(c, r, i) + 1);
    assert Deadlocked(op, c, init, strict, all);
  }

  // ---------------------------------------------------------------------
  // The conditions.

  ghost predicate NoSelfReceives(prog: Program) {
    forall i, r | 0 <= i < |prog| && 0 <= r < |prog[i].parts| :: r !in prog[i].parts[r].recvs
  }

  // Some engine can come to rest although a message for a posted receive has arrived.
  ghost predicate CollectiveMayHang<V>(op: (V, V) -> V, c: Setup, init: seq<V>, strict: bool)
    requires SetupOk(c) && |init| == c.n
  {
    exists acts, r, t :: Asleep(op, c, init, strict, acts, r, t)
  }

  ghost predicate Asleep<V>(op: (V, V) -> V, c: Setup, init: seq<V>, strict: bool, acts: seq<Act>, r: nat, t: nat)
    requires SetupOk(c) && |init| == c.n
  {
    && r < c.n && Reached(op, c, init, strict, acts).Some?
    && var e := Reached(op, c, init, strict, acts).value.engines[r];
    t < |e.threads| && L.Quiet(e) && HasMessage(e, t)
  }

  // The first round in which some rank posts two receives.
  lemma {:induction false} FirstTwo(prog: Program) returns (i: nat, r: nat)
    requires !AtMostOneReceive(prog)
    ensures i < |prog| && r < |prog[i].parts| && |prog[i].parts[r].recvs| >= 2 && AtMostOneReceive(prog[..i])
    decreases |prog|
  {
    var last := |prog| - 1;
    if AtMostOneReceive(prog[..last]) {
      assert prog == prog[..last] + [prog[last]];
      AtMostOneConcat(prog[..last], [prog[last]]);
      r :| 0 <= r < |prog[last].parts| && |prog[last].parts[r].recvs| > 1;
      i := last;
    } else {
      i, r := FirstTwo(prog[..last]);
      assert prog[..last][..i] == prog[..i];
    }
  }

  // Before that nothing goes wrong, and in it a receive can be left behind.
  lemma SomeLeftBehind<V>(op: (V, V) -> V, c: Setup, init: seq<V>, strict: bool, i: nat, r: nat)
    returns (acts: seq<Act>, w: World<V>, v: nat)
    requires SetupOk(c) && |init| == c.n && i < |c.prog| && AtMostOneReceive(c.prog[..i])
    requires r < |c.prog[i].parts| && |c.prog[i].parts[r].recvs| >= 2 && r !in c.prog[i].parts[r].recvs
    ensures At(op, c, init, strict, acts, w) && Matched(c.n, c.prog[i]) && v == c.prog[i].parts[r].recvs[1] < c.n
    ensures LeftBehind(c, w, i, r, v)
  {
    assert Matched(c.n, c.prog[i]);
    var recvs := c.prog[i].parts[r].recvs;
    v := recvs[1];
    assert recvs[0] in recvs && recvs[1] in recvs;
    acts, w := ReachesRound(op, c, init, strict, i);
    acts, w := TwoReceives(op, c, init, strict, acts, w, i, r, recvs[0], v);
  }

  lemma NeverAsleep<V>(op: (V, V) -> V, c: Setup, init: seq<V>, strict: bool, acts: seq<Act>, r: nat, t: nat)
    requires SetupOk(c) && |init| == c.n && AtMostOneReceive(c.prog)
    ensures !Asleep(op, c, init, strict, acts, r, t)
  {
    if r < c.n && Reached(op, c, init, strict, acts).Some? {
      EveryRunRefines(op, c, init, strict, acts);
      var w := Reached(op, c, init, strict, acts).value;
      assert RankShape(c, w, r) && RankOk(c, w, r);
      AloneIsCareful(c.sizes[r], w.logs[r]);
      if L.Quiet(w.engines[r]) && t < |w.engines[r].threads| {
        CarefulSleepless(c.sizes[r], w.logs[r], t);
      }
    }
  }

  lemma NeverHangs<V>(op: (V, V) -> V, c: Setup, init: seq<V>, strict: bool)
    requires SetupOk(c) && |init| == c.n && AtMostOneReceive(c.prog)
    ensures !CollectiveMayHang(op, c, init, strict) && !MayDeadlock(op, c, init, strict)
  {
    forall acts, r: nat, t: nat ensures !Asleep(op, c, init, strict, acts, r, t) {
      NeverAsleep(op, c, init, strict, acts, r, t);
    }
    forall acts ensures !Deadlocked(op, c, init, strict, acts) {
      if Reached(op, c, init, strict, acts).Some? {
        NeverStuck(op, c, init, strict, acts);
      }
    }
  }

  // In no run of the ranks and their engines does a receive sleep on a message that has
  // arrived exactly when no rank posts two receives in a round.
  lemma CollectiveMayHangIff<V>(op: (V, V) -> V, c: Setup, init: seq<V>, strict: bool)
    requires SetupOk(c) && |init| == c.n && NoSelfReceives(c.prog)
    ensures !CollectiveMayHang(op, c, init, strict) <==> AtMostOneReceive(c.prog)
  {
    if AtMostOneReceive(c.prog) {
      NeverHangs(op, c, init, strict);
    } else {
      var i, r := FirstTwo(c.prog);
      var acts, w, v := SomeLeftBehind(op, c, init, strict, i, r);
      assert Asleep(op, c, init, strict, acts, r, Base(c, r, i) + 1);
    }
  }

  // A sleeping receive does not return if its rank is sent no further message by the same
  // one.
  lemma TwoReceivesDeadlock<V>(op: (V, V) -> V, c: Setup, init: seq<V>, strict: bool, i: nat, r: nat)
    requires SetupOk(c) && |init| == c.n && i < |c.prog| && AtMostOneReceive(c.prog[..i])
    requires Matched(c.n, c.prog[i]) && r < c.n && r !in c.prog[i].parts[r].recvs && |c.prog[i].parts[r].recvs| >= 2
    requires c.prog[i].parts[r].recvs[1] < c.n && LastMessage(c, i, c.prog[i].parts[r].recvs[1], r)
    ensures MayDeadlock(op, c, init, strict)
  {
    var acts, w, v := SomeLeftBehind(op, c, init, strict, i, r);
    LeftBehindDeadlocks(op, c, init, strict, acts, w, i, r, v);
  }

  // No rank sends to another one in two rounds.
  ghost predicate OncePerPair(c: Setup)
    requires AllMatched(c.n, c.prog)
  {
    forall i, s: nat, d: nat | 0 <= i < |c.prog| && s < c.n && Sends(c, i, s, d) :: LastMessage(c, i, s, d)
  }

  ghost predicate Sends(c: Setup, i: nat, s: nat, d: nat)
    requires AllMatched(c.n, c.prog) && i < |c.prog| && s < c.n
  {
    Matched(c.n, c.prog[i]) && c.prog[i].parts[s].dst == Some(d)
  }

  // So if no pair of ranks communicates twice, every run can be finished exactly when no
  // rank posts two receives in a round.
  lemma DeadlockIff<V>(op: (V, V) -> V, c: Setup, init: seq<V>, strict: bool)
    requires SetupOk(c) && |init| == c.n && NoSelfReceives(c.prog) && OncePerPair(c)
    ensures !MayDeadlock(op, c, init, strict) <==> AtMostOneReceive(c.prog)
  {
    if AtMostOneReceive(c.prog) {
      NeverHangs(op, c, init, strict);
    } else {
      var i, r := FirstTwo(c.prog);
      assert Matched(c.n, c.prog[i]);
      var recvs := c.prog[i].parts[r].recvs;
      assert recvs[1] in recvs;
      assert Sends(c, i, recvs[1], r);
      TwoReceivesDeadlock(op, c, init, strict, i, r);
    }
  }

  // ---------------------------------------------------------------------
  // Results.

  // Without two receives in a round a rank that has returned from its collective holds
  // the lockstep value, and if nothing can move all have returned.
  lemma EngineResult<V>(op: (V, V) -> V, c: Setup, init: seq<V>, strict: bool, acts: seq<Act>, r: nat)
    requires SetupOk(c) && |init| == c.n && AtMostOneReceive(c.prog)
    requires Reached(op, c, init, strict, acts).Some? && r < c.n
    ensures var w := Reached(op, c, init, strict, acts).value;
            && (AtRest(c, strict, w) ==> w.pcs[r].round == |c.prog|)
            && (w.pcs[r].round == |c.prog| ==> w.accs[r] == Exec(op, c.prog, init)[r])
  {
    EveryRunRefines(op, c, init, strict, acts);
    NeverStuck(op, c, init, strict, acts);
    EveryRunAgrees(op, c.prog, init, strict, CallsOf(acts), r);
    assert c.prog[..|c.prog|] == c.prog;
  }
}
