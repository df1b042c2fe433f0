// While no rank posts two receives in a round, some run brings all ranks to the next
// round with every engine as it was at the start.
module FreshRounds {
  import opened Basics
  import opened N = Network
  import opened Runs
  import L = Listener
  import opened Scenarios
  import opened RankReceives
  import opened Composed
  import opened EngineRuns
  import opened EngineProgress
  import opened EngineHangs

  // ---------------------------------------------------------------------
  // Engines without probes.

  ghost predicate NoProbeIn(log: seq<L.Step>) { forall j | 0 <= j < |log| && log[j].Begin? :: !log[j].call.probe }

  // No call is a probe, and whoever has posted the outstanding receive still listens.
  ghost predicate Plain(e: L.State) {
    && (forall t | 0 <= t < |e.threads| && !e.threads[t].Idle? :: !e.threads[t].call.probe)
    && (e.prob.Posted? ==> SomeoneListens(e))
  }

  ghost predicate SomeoneListens(e: L.State) { exists t :: 0 <= t < |e.threads| && e.threads[t].Listen? }

  lemma PlainStep(e: L.State, l: Option<nat>, step: L.Step)
    requires L.Exclusive(e, l) && Plain(e) && L.Enabled(e, step) && (step.Begin? ==> !step.call.probe)
    ensures Plain(L.Next(e, step))
  {
    var e' := L.Next(e, step);
    if e'.prob.Posted? {
      if step.Post? {
        assert e'.threads[step.t].Listen?;
      } else {
        var t :| 0 <= t < |e.threads| && e.threads[t].Listen?;
        assert e'.threads[t].Listen?;
      }
    }
  }

  lemma {:induction false} PlainRun(n: nat, log: seq<L.Step>)
    requires L.Run(n, log).Some? && NoProbeIn(log)
    ensures Plain(L.Run(n, log).value)
  {
    if log != [] {
      var before, last := log[..|log| - 1], log[|log| - 1];
      PlainRun(n, before);
      var l := L.InvRun(n, before);
      assert last.Begin? ==> !last.call.probe;
      PlainStep(L.Run(n, before).value, l, last);
    }
  }

  ghost predicate NoProbes<V>(w: World<V>) { forall r | 0 <= r < |w.logs| :: NoProbeIn(w.logs[r]) }

  lemma NoProbesAfter<V>(op: (V, V) -> V, c: Setup, w: World<V>, act: Act)
    requires Composed.Shape(c, w) && Can(c, false, w, act) && NoProbes(w)
    ensures NoProbes(After(op, c, w, act))
  {
    var w' := After(op, c, w, act);
    forall r | 0 <= r < |w'.logs| ensures NoProbeIn(w'.logs[r]) {
      assert NoProbeIn(w.logs[r]);
    }
  }

  lemma {:induction false} NoProbesRun<V>(op: (V, V) -> V, c: Setup, init: seq<V>, strict: bool, acts: seq<Act>)
    requires SetupOk(c) && |init| == c.n && Reached(op, c, init, strict, acts).Some?
    ensures NoProbes(Reached(op, c, init, strict, acts).value)
  {
    if acts != [] {
      var before := acts[..|acts| - 1];
      NoProbesRun(op, c, init, strict, before);
      NoProbesAfter(op, c, Reached(op, c, init, strict, before).value, acts[|acts| - 1]);
    }
  }

  // ---------------------------------------------------------------------
  // The end of a run.

  lemma SomeMember(line: seq<L.Msg>)
    ensures line != [] ==> exists m :: m in line
  {
    if line != [] {
      assert line[0] in line;
    }
  }

  // With nothing in a call and every message taken an engine is as at the start.
  lemma EndsClean(n: nat, log: seq<L.Step>, e: L.State)
    requires L.Run(n, log) == Some(e) && NoProbeIn(log) && AllIdle(e) && |e.threads| == n
    requires forall id: nat | id < |e.arrived| :: id in e.taken
    ensures Clean(e, n)
  {
    PlainRun(n, log);
    var l := L.InvRun(n, log);
    var line := L.Line(e, l);
    SomeMember(line);
    assert |line| == |e.queue| + |L.InHand(e, l)| + |L.Flight(e)| + |e.wire|;
  }

  lemma AllArrivedTaken<V>(c: Setup, w: World<V>, s: N.State<V>, r: nat)
    requires RanksOk(c, w) && Stands(c, w, s) && Drained(c.n, s) && r < c.n
    ensures forall id: nat | id < |w.engines[r].arrived| :: id in w.engines[r].taken
  {
    assert RankShape(c, w, r) && RankOk(c, w, r);
    var e, done := w.engines[r], Collected(c, r, w.pcs[r]);
    forall id: nat | id < |e.arrived| ensures id in e.taken {
      var src: nat := e.arrived[id].src - 1;
      StandsAt(c, w, s, src, r);
      NothingUnread(e, w.inbox[r], src, done, |w.inbox[r]|);
      assert !UnreadAt(e, src, done, id);
    }
  }

  lemma DoneIsIdle<V>(c: Setup, w: World<V>, r: nat)
    requires RanksOk(c, w) && Done(c, w) && r < c.n
    ensures w.pcs[r] == Pc(|c.prog|, 0, false, false, 0) && AllIdle(w.engines[r])
  {
    assert RankShape(c, w, r) && RankOk(c, w, r);
    var e, done := w.engines[r], Collected(c, r, w.pcs[r]);
    forall t: nat | t < |e.threads| ensures e.threads[t].Idle? {
      assert t < done || done <= t;
    }
  }

  // All ranks can return, and then nothing is left in any engine.
  lemma EndsFresh<V>(op: (V, V) -> V, c: Setup, init: seq<V>, strict: bool) returns (acts: seq<Act>, w: World<V>)
    requires SetupOk(c) && AtMostOneReceive(c.prog) && |init| == c.n
    ensures At(op, c, init, strict, acts, w)
    ensures forall r: nat | r < c.n :: FreshRank(c, w, |c.prog|, r)
  {
    acts := EveryRunEnds(op, c, init, strict, []);
    w := Reached(op, c, init, strict, acts).value;
    NeverStuck(op, c, init, strict, acts);
    EveryRunRefines(op, c, init, strict, acts);
    EveryRunResult(op, c.prog, init, strict, CallsOf(acts));
    NoProbesRun(op, c, init, strict, acts);
    forall r: nat | r < c.n ensures FreshRank(c, w, |c.prog|, r) {
      assert RankShape(c, w, r);
      RestingEngine(c, strict, w, r);
      DoneIsIdle(c, w, r);
      AllArrivedTaken(c, w, N.Run(op, c.prog, init, strict, CallsOf(acts)).value, r);
      assert NoProbeIn(w.logs[r]);
      EndsClean(c.sizes[r], w.logs[r], w.engines[r]);
    }
  }

  // ---------------------------------------------------------------------
  // The first rounds of a longer program.

  function Cut(c: Setup, i: nat): Setup
    requires i <= |c.prog|
  {
    c.(prog := c.prog[..i])
  }

  lemma {:induction false} CutReceives(c: Setup, i: nat, r: nat, j: nat)
    requires AllMatched(c.n, c.prog) && j <= i <= |c.prog| && r < c.n
    ensures AllMatched(c.n, Cut(c, i).prog)
    ensures Receives(c.n, Cut(c, i).prog, r, j) == Receives(c.n, c.prog, r, j)
  {
    assert forall x | 0 <= x < i :: Cut(c, i).prog[x] == c.prog[x];
    if j > 0 {
      CutReceives(c, i, r, j - 1);
    }
  }

  lemma CutOk(c: Setup, i: nat)
    requires SetupOk(c) && i <= |c.prog|
    ensures SetupOk(Cut(c, i))
  {
    forall r: nat | r < c.n
      ensures AllMatched(c.n, Cut(c, i).prog) && Base(Cut(c, i), r, i) <= c.sizes[r]
    {
      CutReceives(c, i, r, i);
      BaseMonotone(c, r, i, |c.prog|);
    }
    assert forall x | 0 <= x < i :: Cut(c, i).prog[x] == c.prog[x];
  }

  lemma CutShape<V>(c: Setup, i: nat, w: World<V>)
    requires SetupOk(c) && i <= |c.prog| && Composed.Shape(Cut(c, i), w)
    ensures Composed.Shape(c, w)
  {
    forall r: nat | r < c.n ensures RankShape(c, w, r) {
      assert RankShape(Cut(c, i), w, r);
    }
  }

  lemma CutCounts(c: Setup, i: nat, r: nat, pc: Pc)
    requires AllMatched(c.n, c.prog) && i <= |c.prog| && r < c.n && pc.round < i
    requires AllMatched(c.n, Cut(c, i).prog) && PcOk(c.n, c.prog, r, pc) && PcOk(c.n, Cut(c, i).prog, r, pc)
    ensures Cut(c, i).prog[pc.round] == c.prog[pc.round] && Matched(c.n, c.prog[pc.round])
    ensures Issued(Cut(c, i), r, pc) == Issued(c, r, pc) && Collected(Cut(c, i), r, pc) == Collected(c, r, pc)
    ensures pc.posted < |c.prog[pc.round].parts[r].recvs| ==> NextCall(Cut(c, i), r, pc) == NextCall(c, r, pc)
  {
    CutReceives(c, i, r, pc.round);
    assert Matched(c.n, c.prog[pc.round]);
  }

  // What can happen in the first rounds is what can happen in them as a program.
  lemma CutCan<V>(op: (V, V) -> V, c: Setup, i: nat, strict: bool, w: World<V>, act: Act)
    requires SetupOk(c) && i <= |c.prog| && Composed.Shape(Cut(c, i), w) && Can(Cut(c, i), strict, w, act)
    ensures Composed.Shape(c, w) && Can(c, strict, w, act)
    ensures After(op, c, w, act) == After(op, Cut(c, i), w, act)
  {
    CutShape(c, i, w);
    var r := act.rank;
    assert RankShape(c, w, r) && RankShape(Cut(c, i), w, r);
    if !act.Deliver? && !act.Engine? {
      CutCounts(c, i, r, w.pcs[r]);
    }
  }

  lemma {:induction false} CutReached<V>(op: (V, V) -> V, c: Setup, init: seq<V>, strict: bool, i: nat, acts: seq<Act>)
    requires SetupOk(c) && |init| == c.n && i <= |c.prog| && SetupOk(Cut(c, i))
    requires Reached(op, Cut(c, i), init, strict, acts).Some?
    ensures Reached(op, c, init, strict, acts) == Reached(op, Cut(c, i), init, strict, acts)
  {
    if acts != [] {
      var before := acts[..|acts| - 1];
      CutReached(op, c, init, strict, i, before);
      CutCan(op, c, i, strict, Reached(op, c, init, strict, before).value, acts[|acts| - 1]);
    }
  }

  // Some run reaches round i with all ranks at its beginning and nothing left behind.
  lemma ReachesRound<V>(op: (V, V) -> V, c: Setup, init: seq<V>, strict: bool, i: nat)
    returns (acts: seq<Act>, w: World<V>)
    requires SetupOk(c) && |init| == c.n && i < |c.prog| && AtMostOneReceive(c.prog[..i])
    ensures At(op, c, init, strict, acts, w) && Fresh(c, w, i)
  {
    CutOk(c, i);
    acts, w := EndsFresh(op, Cut(c, i), init, strict);
    CutReached(op, c, init, strict, i, acts);
    assert Matched(c.n, c.prog[i]);
    forall r: nat | r < c.n ensures FreshRank(c, w, i, r) {
      assert FreshRank(Cut(c, i), w, i, r) && RankShape(c, w, r);
    }
  }
}
