// Every run of ranks and engines ends, and with at most one receive a round it ends
// only when all ranks have returned.
module EngineProgress {
  import opened Basics
  import opened N = Network
  import opened Interleaving
  import opened Runs
  import L = Listener
  import opened Settling
  import opened Ledgers
  import opened RankReceives
  import opened Composed
  import opened EngineRuns

  // No rank, no engine and no message can move.
  ghost predicate AtRest<V>(c: Setup, strict: bool, w: World<V>)
    requires Composed.Shape(c, w)
  {
    forall act :: !Can(c, strict, w, act)
  }

  // ---------------------------------------------------------------------
  // Every run ends.

  ghost function LoopsLeft<V>(c: Setup, w: World<V>): (xs: seq<nat>)
    requires Composed.Shape(c, w)
    ensures |xs| == c.n
    ensures forall r: nat | r < c.n ::
              RankShape(c, w, r) && xs[r] == Work(c.n, c.prog, r, |c.prog|) - StepsDone(c.n, c.prog, r, w.pcs[r])
  {
    assert forall r: nat | r < c.n :: RankShape(c, w, r);
    seq(c.n, r requires 0 <= r < c.n && Composed.Shape(c, w) && RankShape(c, w, r) => RankLeft(c, r, w.pcs[r]))
  }

  ghost function RankLeft(c: Setup, r: nat, pc: Pc): (left: nat)
    requires AllMatched(c.n, c.prog) && r < c.n && PcOk(c.n, c.prog, r, pc)
    ensures left == Work(c.n, c.prog, r, |c.prog|) - StepsDone(c.n, c.prog, r, pc)
  {
    DoneBound(c.n, c.prog, r, pc);
    Work(c.n, c.prog, r, |c.prog|) - StepsDone(c.n, c.prog, r, pc)
  }

  function AirLeft<V>(w: World<V>): (xs: seq<nat>)
    ensures |xs| == |w.air| && forall r | 0 <= r < |w.air| :: xs[r] == |w.air[r]|
  {
    seq(|w.air|, r requires 0 <= r < |w.air| => |w.air[r]|)
  }

  function EnginesLeft<V>(w: World<V>): (xs: seq<nat>)
    ensures |xs| == |w.engines| && forall r | 0 <= r < |w.engines| :: xs[r] == Left(w.engines[r])
  {
    seq(|w.engines|, r requires 0 <= r < |w.engines| => Left(w.engines[r]))
  }

  lemma SumLess(xs: seq<nat>, ys: seq<nat>, r: nat)
    requires |xs| == |ys| && r < |xs| && xs[r] < ys[r]
    requires forall q | 0 <= q < |xs| && q != r :: xs[q] == ys[q]
    ensures Sum(xs) < Sum(ys)
  {
    SumBelow(xs, ys);
  }

  lemma LoopStepDone<V>(op: (V, V) -> V, c: Setup, w: World<V>, act: Act)
    requires Composed.Shape(c, w) && Can(c, false, w, act) && !act.Deliver? && !act.Engine?
    ensures var w' := After(op, c, w, act);
            && Composed.Shape(c, w') && RankShape(c, w, act.rank) && RankShape(c, w', act.rank)
            && StepsDone(c.n, c.prog, act.rank, w'.pcs[act.rank])
               == StepsDone(c.n, c.prog, act.rank, w.pcs[act.rank]) + 1
            && forall q | 0 <= q < c.n && q != act.rank :: w'.pcs[q] == w.pcs[q]
  {
    ShapeAfter(op, c, w, act);
    assert RankShape(c, w, act.rank) && RankShape(c, After(op, c, w, act), act.rank);
  }

  // The world has less to do: in the loops, or then in the air, or then in the engines.
  ghost predicate Less<V>(c: Setup, w': World<V>, w: World<V>)
    requires Composed.Shape(c, w') && Composed.Shape(c, w)
  {
    || Sum(LoopsLeft(c, w')) < Sum(LoopsLeft(c, w))
    || (LoopsLeft(c, w') == LoopsLeft(c, w)
        && (|| Sum(AirLeft(w')) < Sum(AirLeft(w))
            || (AirLeft(w') == AirLeft(w) && Sum(EnginesLeft(w')) < Sum(EnginesLeft(w)))))
  }

  lemma DeliverWorks<V>(op: (V, V) -> V, c: Setup, w: World<V>, r: nat, k: nat)
    requires Composed.Shape(c, w) && Can(c, false, w, Deliver(r, k))
    ensures Composed.Shape(c, After(op, c, w, Deliver(r, k))) && Less(c, After(op, c, w, Deliver(r, k)), w)
  {
    var w' := After(op, c, w, Deliver(r, k));
    ShapeAfter(op, c, w, Deliver(r, k));
    SumLess(AirLeft(w'), AirLeft(w), r);
    assert w'.pcs == w.pcs;
  }

  lemma EngineWorks<V>(op: (V, V) -> V, c: Setup, w: World<V>, r: nat, step: L.Step)
    requires Composed.Shape(c, w) && Can(c, false, w, Engine(r, step))
    ensures Composed.Shape(c, After(op, c, w, Engine(r, step))) && Less(c, After(op, c, w, Engine(r, step)), w)
  {
    ShapeAfter(op, c, w, Engine(r, step));
    EveryStepWorks(w.engines[r], step);
    OnlyEngineWorks(c, w, After(op, c, w, Engine(r, step)), r);
  }

  lemma OnlyEngineWorks<V>(c: Setup, w: World<V>, w': World<V>, r: nat)
    requires Composed.Shape(c, w) && Composed.Shape(c, w') && r < c.n && w'.pcs == w.pcs && w'.air == w.air
    requires Left(w'.engines[r]) < Left(w.engines[r])
    requires forall q | 0 <= q < c.n && q != r :: w'.engines[q] == w.engines[q]
    ensures Less(c, w', w)
  {
    SumLess(EnginesLeft(w'), EnginesLeft(w), r);
  }

  lemma LoopWorks<V>(c: Setup, w: World<V>, w': World<V>, r: nat)
    requires Composed.Shape(c, w) && Composed.Shape(c, w') && r < c.n && RankShape(c, w, r) && RankShape(c, w', r)
    requires StepsDone(c.n, c.prog, r, w'.pcs[r]) == StepsDone(c.n, c.prog, r, w.pcs[r]) + 1
    requires forall q | 0 <= q < c.n && q != r :: w'.pcs[q] == w.pcs[q]
    ensures Less(c, w', w)
  {
    SumLess(LoopsLeft(c, w'), LoopsLeft(c, w), r);
  }

  lemma ActWorks<V>(op: (V, V) -> V, c: Setup, w: World<V>, act: Act)
    requires Composed.Shape(c, w) && Can(c, false, w, act)
    ensures Composed.Shape(c, After(op, c, w, act)) && Less(c, After(op, c, w, act), w)
  {
    match act
    case Deliver(r, k) => DeliverWorks(op, c, w, r, k);
    case Engine(r, step) => EngineWorks(op, c, w, r, step);
    case _ =>
      LoopStepDone(op, c, w, act);
      LoopWorks(c, w, After(op, c, w, act), act.rank);
  }

  lemma CanStrict<V>(c: Setup, strict: bool, w: World<V>, act: Act)
    requires Composed.Shape(c, w) && Can(c, strict, w, act)
    ensures Can(c, false, w, act)
  {
  }

  lemma ReachedMore<V>(op: (V, V) -> V, c: Setup, init: seq<V>, strict: bool, acts: seq<Act>, act: Act)
    requires SetupOk(c) && |init| == c.n && Reached(op, c, init, strict, acts).Some?
    requires Can(c, strict, Reached(op, c, init, strict, acts).value, act)
    ensures Can(c, false, Reached(op, c, init, strict, acts).value, act)
    ensures Reached(op, c, init, strict, acts + [act])
         == Some(After(op, c, Reached(op, c, init, strict, acts).value, act))
  {
    assert (acts + [act])[..|acts|] == acts;
    CanStrict(c, strict, Reached(op, c, init, strict, acts).value, act);
  }

  // Every run is the beginning of one that cannot go on, whatever the program.
  lemma {:induction false} EveryRunEnds<V>(op: (V, V) -> V, c: Setup, init: seq<V>, strict: bool, acts: seq<Act>)
    returns (all: seq<Act>)
    requires SetupOk(c) && |init| == c.n && Reached(op, c, init, strict, acts).Some?
    ensures acts <= all && Reached(op, c, init, strict, all).Some?
    ensures AtRest(c, strict, Reached(op, c, init, strict, all).value)
    decreases Sum(LoopsLeft(c, Reached(op, c, init, strict, acts).value)),
              Sum(AirLeft(Reached(op, c, init, strict, acts).value)),
              Sum(EnginesLeft(Reached(op, c, init, strict, acts).value))
  {
    var w := Reached(op, c, init, strict, acts).value;
    if AtRest(c, strict, w) {
      all := acts;
    } else {
      var act :| Can(c, strict, w, act);
      ReachedMore(op, c, init, strict, acts, act);
      ActWorks(op, c, w, act);
      all := EveryRunEnds(op, c, init, strict, acts + [act]);
    }
  }

  // ---------------------------------------------------------------------
  // Where a run ends.

  lemma RestingEngine<V>(c: Setup, strict: bool, w: World<V>, r: nat)
    requires Composed.Shape(c, w) && AtRest(c, strict, w) && r < c.n
    ensures L.Quiet(w.engines[r]) && w.air[r] == []
  {
    forall step | L.Enabled(w.engines[r], step) ensures step.Begin? || step.Arrive? {
      assert !Can(c, strict, w, Engine(r, step));
    }
    assert !Can(c, strict, w, Deliver(r, 0));
  }

  // The thread that made the last call of an engine at rest: it has taken a message, or
  // nothing from its rank is left.
  lemma RestingThread(n: nat, log: seq<L.Step>, e: L.State, calls: seq<L.Call>, t: nat, src: nat, tag: nat)
    requires L.Run(n, log) == Some(e) && Alone(n, log) && L.Quiet(e) && |e.threads| == n
    requires Ledger(e, calls, t + 1) && FromRank(e.arrived, src, tag) && calls[t] == L.Call(false, src + 1, tag)
    ensures (e.threads[t].Idle? && Took(e, t)) || NothingUnreadFrom(e, src, t)
  {
    assert ThreadOk(e, calls[t], t);
    if !e.threads[t].Idle? {
      L.QuietThread(e, t);
      AloneIsCareful(n, log);
      var l := L.NobodySleepsOnAMatch(n, log, t);
      forall x: nat | UnreadAt(e, src, t, x) ensures false {
        StillInLine(e, l, calls, t, src, tag, x);
      }
    }
  }

  ghost predicate NothingUnreadFrom(e: L.State, src: nat, t: nat) { forall x: nat :: !UnreadAt(e, src, t, x) }

  // What nobody has taken and the thread wants is still in the line.
  lemma StillInLine(e: L.State, l: Option<nat>, calls: seq<L.Call>, t: nat, src: nat, tag: nat, x: nat)
    requires L.Inv(e, l) && Ledger(e, calls, t + 1) && FromRank(e.arrived, src, tag) && !Returning(e.threads[t])
    requires calls[t] == L.Call(false, src + 1, tag) && UnreadAt(e, src, t, x)
    ensures L.Msg(x, e.arrived[x]) in L.Line(e, l) && L.Wanted(e.threads[t].call, L.Msg(x, e.arrived[x]))
  {
    NobodyTook(e, calls, t + 1, t);
    assert ThreadOk(e, calls[t], t);
    assert x in e.taken ==> EntryOk(e, calls, t + 1, x);
  }

  lemma RestingReceive<V>(c: Setup, w: World<V>, r: nat, src: nat)
    requires RanksOk(c, w) && r < c.n && RankShape(c, w, r) && L.Quiet(w.engines[r])
    requires Collected(c, r, w.pcs[r]) < Issued(c, r, w.pcs[r])
    requires w.pcs[r].round < |c.prog| && src in c.prog[w.pcs[r].round].parts[r].recvs
    ensures Collected(c, r, w.pcs[r]) < |w.engines[r].threads|
    ensures (w.engines[r].threads[Collected(c, r, w.pcs[r])].Idle? && Took(w.engines[r], Collected(c, r, w.pcs[r])))
         || NothingUnreadFrom(w.engines[r], src, Collected(c, r, w.pcs[r]))
  {
    assert RankOk(c, w, r);
    LastCall(c, r, w.pcs[r], src);
    RestingThread(c.sizes[r], w.logs[r], w.engines[r], Calls(c, r), Collected(c, r, w.pcs[r]), src, c.tag);
  }

  // ---------------------------------------------------------------------
  // Progress.

  lemma {:induction false} TwoUnread<V>(e: L.State, inbox: seq<V>, src: nat, done: nat, x: nat, y: nat, i: nat)
    requires x < y < i <= |e.arrived| == |inbox| && UnreadAt(e, src, done, x) && UnreadAt(e, src, done, y)
    ensures |Unread(e, inbox, src, done, i)| >= 2
  {
    if i == y + 1 {
      NothingUnread(e, inbox, src, done, y);
    } else {
      TwoUnread(e, inbox, src, done, x, y, i - 1);
    }
  }

  // A wait that could complete on channels can complete with an engine at rest.
  lemma CanCollect<V>(c: Setup, w: World<V>, s: N.State<V>, strict: bool, r: nat) returns (id: nat)
    requires RanksOk(c, w) && Stands(c, w, s) && N.Enabled(c.n, c.prog, strict, s, N.Wait(r))
    requires L.Quiet(w.engines[r]) && w.air[r] == []
    ensures Can(c, strict, w, Collect(r, id))
  {
    var pc, e := w.pcs[r], w.engines[r];
    assert RankShape(c, w, r) && RankOk(c, w, r) && Matched(c.n, c.prog[pc.round]);
    var src, t := c.prog[pc.round].parts[r].recvs[pc.waited], Collected(c, r, pc);
    StandsAt(c, w, s, src, r);
    NothingUnread(e, w.inbox[r], src, t, |w.inbox[r]|);
    RestingReceive(c, w, r, src);
    id :| id in e.taken && e.taken[id] == t;
    assert EntryOk(e, Calls(c, r), Issued(c, r, pc), id);
  }

  lemma PostedMore(c: Setup, d: nat, pc: Pc, src: nat)
    requires AllMatched(c.n, c.prog) && d < c.n && PcOk(c.n, c.prog, d, pc)
    requires Consumed(c.n, c.prog, src, d, pc) < Posted(c.n, c.prog, src, d, pc)
    ensures Posted(c.n, c.prog, src, d, pc) == Consumed(c.n, c.prog, src, d, pc) + 1
    ensures pc.round < |c.prog| && src in c.prog[pc.round].parts[d].recvs && Collected(c, d, pc) < Issued(c, d, pc)
  {
    assert pc.waited > 0 ==> pc.posted == |c.prog[pc.round].parts[d].recvs|;
  }

  // If thread t has taken a message from src, one that nobody has taken is the second.
  lemma SecondUnread<V>(e: L.State, inbox: seq<V>, calls: seq<L.Call>, t: nat, src: nat, tag: nat, x: nat)
    requires Ledger(e, calls, t + 1) && Took(e, t) && calls[t] == L.Call(false, src + 1, tag)
    requires |inbox| == |e.arrived| && UnreadAt(e, src, t, x) && x !in e.taken
    ensures |Unread(e, inbox, src, t, |inbox|)| >= 2
  {
    var id :| id in e.taken && e.taken[id] == t;
    assert EntryOk(e, calls, t + 1, id);
    TwoUnread(e, inbox, src, t, if x < id then x else id, if x < id then id else x, |inbox|);
  }

  lemma UntakenIsSecond<V>(c: Setup, w: World<V>, q: nat, d: nat, x: nat)
    requires RanksOk(c, w) && d < c.n && RankShape(c, w, d) && L.Quiet(w.engines[d])
    requires Collected(c, d, w.pcs[d]) < Issued(c, d, w.pcs[d])
    requires w.pcs[d].round < |c.prog| && q in c.prog[w.pcs[d].round].parts[d].recvs
    requires UnreadAt(w.engines[d], q, Collected(c, d, w.pcs[d]), x) && x !in w.engines[d].taken
    ensures |Unread(w.engines[d], w.inbox[d], q, Collected(c, d, w.pcs[d]), |w.inbox[d]|)| >= 2
  {
    assert RankOk(c, w, d);
    RestingReceive(c, w, d, q);
    LastCall(c, d, w.pcs[d], q);
    SecondUnread(w.engines[d], w.inbox[d], Calls(c, d), Collected(c, d, w.pcs[d]), q, c.tag, x);
  }

  // Once d has posted a receive for every message from q, an engine at rest has taken
  // them all.
  lemma PostedMeansTaken<V>(c: Setup, w: World<V>, q: nat, d: nat)
    requires RanksOk(c, w) && q < c.n && d < c.n && RankShape(c, w, d)
    requires L.Quiet(w.engines[d]) && w.air[d] == []
    requires |Pending(c, w, q, d)| + Consumed(c.n, c.prog, q, d, w.pcs[d]) <= Posted(c.n, c.prog, q, d, w.pcs[d])
    ensures AllTaken(w, q, d)
  {
    var e, t := w.engines[d], Collected(c, d, w.pcs[d]);
    forall x: nat | x < |e.arrived| && e.arrived[x].src == q + 1 ensures x in e.taken {
      if x !in e.taken {
        assert UnreadAt(e, q, t, x);
        NothingUnread(e, w.inbox[d], q, t, |w.inbox[d]|);
        PostedMore(c, d, w.pcs[d], q);
        UntakenIsSecond(c, w, q, d, x);
      }
    }
  }

  lemma CanReturn<V>(op: (V, V) -> V, c: Setup, init: seq<V>, w: World<V>, s: N.State<V>, strict: bool, r: nat)
    requires RanksOk(c, w) && Stands(c, w, s) && N.Enabled(c.n, c.prog, true, s, N.Flush(r))
    requires |init| == c.n && Inv(op, c.prog, init, s)
    requires forall d | 0 <= d < c.n :: L.Quiet(w.engines[d]) && w.air[d] == []
    ensures Can(c, strict, w, Return(r))
  {
    assert RankShape(c, w, r) && Matched(c.n, c.prog[w.pcs[r].round]);
    var dst := c.prog[w.pcs[r].round].parts[r].dst;
    if dst.Some? {
      assert RankShape(c, w, dst.value);
      StandsAt(c, w, s, r, dst.value);
      assert ChanOk(op, c.prog, init, s, r, dst.value);
      PostedMeansTaken(c, w, r, dst.value);
    }
  }

  lemma CanIssue<V>(c: Setup, w: World<V>, strict: bool, r: nat)
    requires RanksOk(c, w) && r < c.n && RankShape(c, w, r) && w.pcs[r].round < |c.prog| && !w.pcs[r].sent
    requires w.pcs[r].posted < |c.prog[w.pcs[r].round].parts[r].recvs|
    ensures Can(c, strict, w, Issue(r))
  {
    assert RankOk(c, w, r);
    IssuedBound(c, r, w.pcs[r]);
  }

  // With engines at rest and nothing on its way, a rank can make the next call.
  lemma RankProgress<V>(op: (V, V) -> V, c: Setup, init: seq<V>, w: World<V>, s: N.State<V>, strict: bool)
    returns (act: Act)
    requires RanksOk(c, w) && Stands(c, w, s) && |init| == c.n && Inv(op, c.prog, init, s) && !Done(c, w)
    requires forall d | 0 <= d < c.n :: L.Quiet(w.engines[d]) && w.air[d] == []
    ensures Can(c, strict, w, act)
  {
    var step := Runs.Progress(op, c.prog, init, s);
    var r := step.rank;
    assert RankShape(c, w, r);
    match step
    case Post(_) =>
      CanIssue(c, w, strict, r);
      act := Issue(r);
    case Send(_) => act := Emit(r);
    case Flush(_) =>
      CanReturn(op, c, init, w, s, strict, r);
      act := Return(r);
    case Wait(_) =>
      var id := CanCollect(c, w, s, strict, r);
      act := Collect(r, id);
    case Next(_) => act := Advance(r);
  }

  // No run of ranks and engines gets stuck if no rank posts two receives in a round.
  lemma NeverStuck<V>(op: (V, V) -> V, c: Setup, init: seq<V>, strict: bool, acts: seq<Act>)
    requires SetupOk(c) && AtMostOneReceive(c.prog) && |init| == c.n && Reached(op, c, init, strict, acts).Some?
    ensures AtRest(c, strict, Reached(op, c, init, strict, acts).value)
         ==> Done(c, Reached(op, c, init, strict, acts).value)
  {
    var w := Reached(op, c, init, strict, acts).value;
    if AtRest(c, strict, w) && !Done(c, w) {
      EveryRunRefines(op, c, init, strict, acts);
      InvRun(op, c.prog, init, strict, CallsOf(acts));
      forall d: nat | d < c.n ensures L.Quiet(w.engines[d]) && w.air[d] == [] {
        RestingEngine(c, strict, w, d);
      }
      var act := RankProgress(op, c, init, w, N.Run(op, c.prog, init, strict, CallsOf(acts)).value, strict);
    }
  }
}
