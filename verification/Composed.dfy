// Ranks, transport and engines in one machine: a posted receive is a thread of the
// rank's unexpected-message engine, a message travels to the engine of its destination,
// and a wait ends when the thread has returned.
module Composed {
  import opened Basics
  import opened Mailbox
  import opened N = Network
  import L = Listener
  import opened Settling
  import opened RankReceives

  // A message on its way.
  datatype Flying<V> = Flying(src: nat, value: V)

  // air[d] holds what is on its way to rank d. engines[d] is its engine, logs[d] the
  // steps that engine has made and inbox[d] the data of the messages that arrived there.
  datatype World<V> = World(pcs: seq<Pc>, accs: seq<V>, air: seq<seq<Flying<V>>>,
                            engines: seq<L.State>, logs: seq<seq<L.Step>>, inbox: seq<seq<V>>)

  // Issue: post the next receive. Emit: hand the buffer to the transport. Return: the
  // blocking send returns. Collect: wait for the next posted receive, which has taken
  // message id. Advance: go round the loop. Deliver: a message arrives, not before older
  // ones from the same rank. Engine: a step of the engine.
  datatype Act =
    | Issue(rank: nat)
    | Emit(rank: nat)
    | Return(rank: nat)
    | Collect(rank: nat, id: nat)
    | Advance(rank: nat)
    | Deliver(rank: nat, k: nat)
    | Engine(rank: nat, step: L.Step)

  // n ranks, the rounds they run, their tag, and how many threads each engine has.
  datatype Setup = Setup(n: nat, prog: Program, tag: nat, sizes: seq<nat>)

  // ---------------------------------------------------------------------
  // The receives of a rank as threads of its engine.

  ghost function Base(c: Setup, r: nat, i: nat): nat
    requires AllMatched(c.n, c.prog) && r < c.n && i <= |c.prog|
  {
    |Receives(c.n, c.prog, r, i)|
  }

  ghost function Calls(c: Setup, r: nat): (calls: seq<L.Call>)
    requires AllMatched(c.n, c.prog) && r < c.n
    ensures |calls| == Base(c, r, |c.prog|)
  {
    var posts := Receives(c.n, c.prog, r, |c.prog|);
    seq(|posts|, t requires 0 <= t < |posts| => CallOf(posts[t], c.tag))
  }

  lemma {:induction false} BaseMonotone(c: Setup, r: nat, i: nat, j: nat)
    requires AllMatched(c.n, c.prog) && r < c.n && i <= j <= |c.prog|
    ensures Base(c, r, i) <= Base(c, r, j)
    ensures Receives(c.n, c.prog, r, j)[..Base(c, r, i)] == Receives(c.n, c.prog, r, i)
  {
    if i < j {
      BaseMonotone(c, r, i, j - 1);
      var shorter := Receives(c.n, c.prog, r, j - 1);
      assert Receives(c.n, c.prog, r, j)[..|shorter|] == shorter;
    }
  }

  // The receives of round i come right after those of earlier rounds.
  lemma CallAt(c: Setup, r: nat, i: nat, j: nat)
    requires AllMatched(c.n, c.prog) && r < c.n && i < |c.prog| && j < |c.prog[i].parts[r].recvs|
    ensures Base(c, r, i + 1) == Base(c, r, i) + |c.prog[i].parts[r].recvs|
    ensures Base(c, r, i) + j < Base(c, r, |c.prog|)
    ensures Calls(c, r)[Base(c, r, i) + j] == CallOf(Receive(i, c.prog[i].parts[r].recvs[j]), c.tag)
  {
    BaseMonotone(c, r, i + 1, |c.prog|);
    var all, some := Receives(c.n, c.prog, r, |c.prog|), Receives(c.n, c.prog, r, i + 1);
    assert all[..|some|][Base(c, r, i) + j] == some[Base(c, r, i) + j];
    assert some == Receives(c.n, c.prog, r, i) + InRound(i, c.prog[i].parts[r].recvs);
  }

  // How many receives the rank has posted, and how many it has waited for.
  ghost function Issued(c: Setup, r: nat, pc: Pc): nat
    requires AllMatched(c.n, c.prog) && r < c.n && PcOk(c.n, c.prog, r, pc)
  {
    Base(c, r, pc.round) + pc.posted
  }

  ghost function Collected(c: Setup, r: nat, pc: Pc): nat
    requires AllMatched(c.n, c.prog) && r < c.n && PcOk(c.n, c.prog, r, pc)
  {
    Base(c, r, pc.round) + pc.waited
  }

  // The call that posts the next receive.
  ghost function NextCall(c: Setup, r: nat, pc: Pc): L.Step
    requires AllMatched(c.n, c.prog) && r < c.n && PcOk(c.n, c.prog, r, pc) && pc.round < |c.prog|
    requires Matched(c.n, c.prog[pc.round]) && pc.posted < |c.prog[pc.round].parts[r].recvs|
  {
    L.Begin(Issued(c, r, pc), CallOf(Receive(pc.round, c.prog[pc.round].parts[r].recvs[pc.posted]), c.tag))
  }

  lemma IssuedBound(c: Setup, r: nat, pc: Pc)
    requires AllMatched(c.n, c.prog) && r < c.n && PcOk(c.n, c.prog, r, pc)
    ensures Issued(c, r, pc) <= Base(c, r, |c.prog|)
    ensures pc.round < |c.prog| && pc.posted < |c.prog[pc.round].parts[r].recvs| ==>
              Issued(c, r, pc) < Base(c, r, |c.prog|)
  {
    if pc.round < |c.prog| && pc.posted > 0 {
      CallAt(c, r, pc.round, pc.posted - 1);
    }
    if pc.round < |c.prog| && pc.posted < |c.prog[pc.round].parts[r].recvs| {
      CallAt(c, r, pc.round, pc.posted);
    }
    BaseMonotone(c, r, pc.round, |c.prog|);
  }

  // ---------------------------------------------------------------------
  // Steps.

  ghost predicate SetupOk(c: Setup) {
    && AllMatched(c.n, c.prog) && |c.sizes| == c.n
    && forall r: nat | r < c.n :: Base(c, r, |c.prog|) <= c.sizes[r]
  }

  ghost predicate RankShape<V>(c: Setup, w: World<V>, r: nat)
    requires SetupOk(c) && |w.pcs| == |w.air| == |w.engines| == |w.logs| == |w.inbox| == c.n && r < c.n
  {
    && PcOk(c.n, c.prog, r, w.pcs[r])
    && (forall f | f in w.air[r] :: f.src < c.n)
    && L.Run(c.sizes[r], w.logs[r]) == Some(w.engines[r])
    && |w.engines[r].threads| == c.sizes[r]
    && |w.inbox[r]| == |w.engines[r].arrived|
  }

  ghost predicate Shape<V>(c: Setup, w: World<V>) {
    && SetupOk(c)
    && |w.pcs| == |w.accs| == |w.air| == |w.engines| == |w.logs| == |w.inbox| == c.n
    && forall r: nat | r < c.n :: RankShape(c, w, r)
  }

  // Every message s has sent to d has been taken by a receive.
  ghost predicate AllTaken<V>(w: World<V>, s: nat, d: nat)
    requires d < |w.air| && d < |w.engines|
  {
    && (forall f | f in w.air[d] :: f.src != s)
    && (forall id: nat | id < |w.engines[d].arrived| && w.engines[d].arrived[id].src == s + 1 ::
          id in w.engines[d].taken)
  }

  // With strict sends a send returns only once its message has been taken.
  ghost predicate RankCan<V>(c: Setup, strict: bool, w: World<V>, act: Act)
    requires Shape(c, w) && act.rank < c.n && w.pcs[act.rank].round < |c.prog|
    requires !act.Deliver? && !act.Engine?
  {
    var r := act.rank;
    var pc, e := w.pcs[r], w.engines[r];
    assert RankShape(c, w, r) && Matched(c.n, c.prog[pc.round]);
    var part := c.prog[pc.round].parts[r];
    match act
    case Issue(_) =>
      && !pc.sent && pc.posted < |part.recvs|
      && Issued(c, r, pc) < |e.threads| && e.threads[Issued(c, r, pc)].Idle?
    case Emit(_) => !pc.sent && pc.posted == |part.recvs|
    case Return(_) => pc.sent && !pc.flushed && (strict && part.dst.Some? ==> AllTaken(w, r, part.dst.value))
    case Collect(_, id) =>
      && pc.flushed && pc.waited < |part.recvs| && Collected(c, r, pc) < |e.threads|
      && id in e.taken && id < |e.arrived| && e.taken[id] == Collected(c, r, pc)
      && e.threads[Collected(c, r, pc)].Idle?
    case Advance(_) => pc.flushed && pc.waited == |part.recvs|
  }

  ghost predicate Can<V>(c: Setup, strict: bool, w: World<V>, act: Act)
    requires Shape(c, w)
  {
    && act.rank < c.n
    && match act
       case Deliver(d, k) => k < |w.air[d]| && forall j | 0 <= j < k :: w.air[d][j].src != w.air[d][k].src
       case Engine(r, step) => Internal(step) && L.Enabled(w.engines[r], step)
       case _ => w.pcs[act.rank].round < |c.prog| && RankCan(c, strict, w, act)
  }

  ghost function Move<V>(w: World<V>, r: nat, step: L.Step): World<V>
    requires r < |w.engines| == |w.logs| && L.Enabled(w.engines[r], step)
  {
    w.(engines := w.engines[r := L.Next(w.engines[r], step)], logs := w.logs[r := w.logs[r] + [step]])
  }

  function Without<T>(q: seq<T>, k: nat): seq<T>
    requires k < |q|
  {
    q[..k] + q[k + 1..]
  }

  ghost function After<V>(op: (V, V) -> V, c: Setup, w: World<V>, act: Act): World<V>
    requires Shape(c, w) && Can(c, false, w, act)
  {
    var r := act.rank;
    var pc := w.pcs[r];
    assert RankShape(c, w, r);
    match act
    case Deliver(_, k) =>
      var f := w.air[r][k];
      Move(w.(air := w.air[r := Without(w.air[r], k)], inbox := w.inbox[r := w.inbox[r] + [f.value]]), r,
           L.Arrive(Envelope(f.src + 1, c.tag, [])))
    case Engine(_, step) => Move(w, r, step)
    case Issue(_) =>
      assert Matched(c.n, c.prog[pc.round]);
      Move(w.(pcs := w.pcs[r := pc.(posted := pc.posted + 1)]), r, NextCall(c, r, pc))
    case Emit(_) =>
      assert Matched(c.n, c.prog[pc.round]);
      var dst := c.prog[pc.round].parts[r].dst;
      w.(pcs := w.pcs[r := pc.(sent := true)],
         air := if dst.None? then w.air else w.air[dst.value := w.air[dst.value] + [Flying(r, w.accs[r])]])
    case Return(_) => w.(pcs := w.pcs[r := pc.(flushed := true)])
    case Collect(_, id) =>
      w.(pcs := w.pcs[r := pc.(waited := pc.waited + 1)],
         accs := w.accs[r := Apply(c.prog[pc.round].mode, op, w.accs[r], w.inbox[r][id])])
    case Advance(_) => w.(pcs := w.pcs[r := Pc(pc.round + 1, 0, false, false, 0)])
  }

  lemma EngineMove(n: nat, log: seq<L.Step>, e: L.State, step: L.Step)
    requires L.Run(n, log) == Some(e) && L.Enabled(e, step)
    ensures L.Run(n, log + [step]) == Some(L.Next(e, step))
    ensures |L.Next(e, step).threads| == |e.threads|
    ensures L.Next(e, step).arrived == if step.Arrive? then e.arrived + [step.env] else e.arrived
  {
    var longer, e' := L.Then(n, log, step, e);
  }

  lemma ShapeMove<V>(c: Setup, w: World<V>, r: nat, step: L.Step)
    requires Shape(c, w) && r < c.n && L.Enabled(w.engines[r], step)
    ensures L.Run(c.sizes[r], w.logs[r] + [step]) == Some(L.Next(w.engines[r], step))
    ensures |L.Next(w.engines[r], step).threads| == c.sizes[r]
    ensures L.Next(w.engines[r], step).arrived ==
              if step.Arrive? then w.engines[r].arrived + [step.env] else w.engines[r].arrived
  {
    assert RankShape(c, w, r);
    EngineMove(c.sizes[r], w.logs[r], w.engines[r], step);
  }

  // Rank q is as it was.
  ghost predicate Same<V>(w: World<V>, w': World<V>, q: nat)
    requires |w.pcs| == |w.air| == |w.engines| == |w.logs| == |w.inbox|
    requires |w'.pcs| == |w'.air| == |w'.engines| == |w'.logs| == |w'.inbox| == |w.pcs| && q < |w.pcs|
  {
    && w'.pcs[q] == w.pcs[q] && w'.air[q] == w.air[q] && w'.engines[q] == w.engines[q]
    && w'.logs[q] == w.logs[q] && w'.inbox[q] == w.inbox[q]
  }

  lemma ShapeFrom<V>(c: Setup, w: World<V>, w': World<V>, r: nat)
    requires Shape(c, w) && r < c.n
    requires |w'.pcs| == |w'.accs| == |w'.air| == |w'.engines| == |w'.logs| == |w'.inbox| == c.n
    requires forall q: nat | q < c.n && q != r :: Same(w, w', q)
    requires RankShape(c, w', r)
    ensures Shape(c, w')
  {
    forall q: nat | q < c.n ensures RankShape(c, w', q) {
      if q != r {
        assert RankShape(c, w, q) && Same(w, w', q);
      }
    }
  }

  lemma ShapeDeliver<V>(op: (V, V) -> V, c: Setup, w: World<V>, r: nat, k: nat)
    requires Shape(c, w) && Can(c, false, w, Deliver(r, k))
    ensures Shape(c, After(op, c, w, Deliver(r, k)))
  {
    var w' := After(op, c, w, Deliver(r, k));
    assert RankShape(c, w, r);
    ShapeMove(c, w, r, L.Arrive(Envelope(w.air[r][k].src + 1, c.tag, [])));
    ShapeFrom(c, w, w', r);
  }

  lemma ShapeEngine<V>(op: (V, V) -> V, c: Setup, w: World<V>, r: nat, step: L.Step)
    requires Shape(c, w) && Can(c, false, w, Engine(r, step))
    ensures Shape(c, After(op, c, w, Engine(r, step)))
  {
    assert RankShape(c, w, r);
    ShapeMove(c, w, r, step);
    ShapeFrom(c, w, After(op, c, w, Engine(r, step)), r);
  }

  lemma ShapeIssue<V>(op: (V, V) -> V, c: Setup, w: World<V>, r: nat)
    requires Shape(c, w) && Can(c, false, w, Issue(r))
    ensures Shape(c, After(op, c, w, Issue(r)))
  {
    assert RankShape(c, w, r);
    var pc := w.pcs[r];
    assert Matched(c.n, c.prog[pc.round]);
    ShapeMove(c, w, r, NextCall(c, r, pc));
    ShapeFrom(c, w, After(op, c, w, Issue(r)), r);
  }

  lemma ShapeEmit<V>(op: (V, V) -> V, c: Setup, w: World<V>, r: nat)
    requires Shape(c, w) && Can(c, false, w, Emit(r))
    ensures Shape(c, After(op, c, w, Emit(r)))
  {
    var w' := After(op, c, w, Emit(r));
    forall q: nat | q < c.n ensures RankShape(c, w', q) {
      assert RankShape(c, w, q);
    }
  }

  lemma ShapeAfter<V>(op: (V, V) -> V, c: Setup, w: World<V>, act: Act)
    requires Shape(c, w) && Can(c, false, w, act)
    ensures Shape(c, After(op, c, w, act))
  {
    match act
    case Deliver(r, k) => ShapeDeliver(op, c, w, r, k);
    case Engine(r, step) => ShapeEngine(op, c, w, r, step);
    case Issue(r) => ShapeIssue(op, c, w, r);
    case Emit(r) => ShapeEmit(op, c, w, r);
    case _ =>
      assert RankShape(c, w, act.rank);
      ShapeFrom(c, w, After(op, c, w, act), act.rank);
  }

  ghost function Start<V>(c: Setup, init: seq<V>): (w: World<V>)
    requires SetupOk(c) && |init| == c.n
    ensures Shape(c, w)
  {
    World(seq(c.n, _ => START), init, seq(c.n, _ => []),
          seq(c.n, r requires 0 <= r < c.n && |c.sizes| == c.n => L.Initial(c.sizes[r])),
          seq(c.n, _ => []), seq(c.n, _ => []))
  }

  // The world a run ends in; None if some act of it is not possible.
  ghost function Reached<V>(op: (V, V) -> V, c: Setup, init: seq<V>, strict: bool, acts: seq<Act>)
    : (end: Option<World<V>>)
    requires SetupOk(c) && |init| == c.n
    ensures end.Some? ==> Shape(c, end.value)
  {
    if acts == [] then Some(Start(c, init))
    else
      match Reached(op, c, init, strict, acts[..|acts| - 1])
      case None => None
      case Some(w) =>
        if Can(c, strict, w, acts[|acts| - 1]) then
          ShapeAfter(op, c, w, acts[|acts| - 1]);
          Some(After(op, c, w, acts[|acts| - 1]))
        else None
  }

  ghost predicate Done<V>(c: Setup, w: World<V>) { forall r | 0 <= r < |w.pcs| :: w.pcs[r].round == |c.prog| }
}
