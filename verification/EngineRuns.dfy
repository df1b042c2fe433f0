// If no rank posts two receives in a round, every run of ranks and engines is a run of
// the machine on channels.
module EngineRuns {
  import opened Basics
  import opened Mailbox
  import opened N = Network
  import opened Interleaving
  import L = Listener
  import opened Settling
  import opened Callers
  import opened Ledgers
  import opened RankReceives
  import opened Composed

  // ---------------------------------------------------------------------
  // The channel from a to b: what has arrived and no finished wait has consumed, and
  // then what is on its way.

  ghost predicate UnreadAt(e: L.State, src: nat, done: nat, id: nat) {
    id < |e.arrived| && e.arrived[id].src == src + 1 && !(id in e.taken && e.taken[id] < done)
  }

  ghost function Unread<V>(e: L.State, inbox: seq<V>, src: nat, done: nat, i: nat): seq<V>
    requires i <= |e.arrived| == |inbox|
  {
    if i == 0 then []
    else Unread(e, inbox, src, done, i - 1) + (if UnreadAt(e, src, done, i - 1) then [inbox[i - 1]] else [])
  }

  lemma {:induction false} UnreadSame<V>(e: L.State, inbox: seq<V>, done: nat, e': L.State, inbox': seq<V>, done': nat,
                                         src: nat, i: nat)
    requires i <= |e.arrived| == |inbox| && i <= |e'.arrived| == |inbox'|
    requires forall x: nat | x < i ::
               (UnreadAt(e, src, done, x) <==> UnreadAt(e', src, done', x)) && inbox[x] == inbox'[x]
    ensures Unread(e, inbox, src, done, i) == Unread(e', inbox', src, done', i)
  {
    if i > 0 {
      UnreadSame(e, inbox, done, e', inbox', done', src, i - 1);
    }
  }

  lemma {:induction false} NothingUnread<V>(e: L.State, inbox: seq<V>, src: nat, done: nat, i: nat)
    requires i <= |e.arrived| == |inbox|
    ensures Unread(e, inbox, src, done, i) == [] <==> forall x: nat | x < i :: !UnreadAt(e, src, done, x)
  {
    if i > 0 {
      NothingUnread(e, inbox, src, done, i - 1);
      if UnreadAt(e, src, done, i - 1) {
        assert !forall x: nat | x < i :: !UnreadAt(e, src, done, x);
      }
    }
  }

  // Consuming the first unread message.
  lemma {:induction false} UnreadFirst<V>(e: L.State, inbox: seq<V>, src: nat, done: nat, done': nat, id: nat, i: nat)
    requires i <= |e.arrived| == |inbox| && id < i
    requires UnreadAt(e, src, done, id) && !UnreadAt(e, src, done', id)
    requires forall x: nat | x < id :: !UnreadAt(e, src, done, x)
    requires forall x: nat | x != id :: UnreadAt(e, src, done, x) <==> UnreadAt(e, src, done', x)
    ensures Unread(e, inbox, src, done, i) == [inbox[id]] + Unread(e, inbox, src, done', i)
  {
    if i == id + 1 {
      NothingUnread(e, inbox, src, done, id);
      NothingUnread(e, inbox, src, done', id);
    } else {
      UnreadFirst(e, inbox, src, done, done', id, i - 1);
    }
  }

  ghost function FromAir<V>(air: seq<Flying<V>>, src: nat): seq<V> {
    if air == [] then []
    else FromAir(air[..|air| - 1], src) + (if air[|air| - 1].src == src then [air[|air| - 1].value] else [])
  }

  lemma FromAirAppend<V>(air: seq<Flying<V>>, f: Flying<V>, src: nat)
    ensures FromAir(air + [f], src) == FromAir(air, src) + (if f.src == src then [f.value] else [])
  {
    assert (air + [f])[..|air|] == air && (air + [f])[|air|] == f;
  }

  lemma {:induction false} NothingInAir<V>(air: seq<Flying<V>>, src: nat)
    ensures FromAir(air, src) == [] <==> forall j | 0 <= j < |air| :: air[j].src != src
  {
    if air != [] {
      NothingInAir(air[..|air| - 1], src);
    }
  }

  // The oldest message from its rank leaves the air.
  lemma {:induction false} FromAirFirst<V>(air: seq<Flying<V>>, k: nat, src: nat)
    requires k < |air| && forall j | 0 <= j < k :: air[j].src != air[k].src
    ensures FromAir(air, src)
         == (if air[k].src == src then [air[k].value] else []) + FromAir(Composed.Without(air, k), src)
  {
    var last := |air| - 1;
    var rest := Composed.Without(air, k);
    if k == last {
      assert rest == air[..last];
      NothingInAir(rest, air[k].src);
    } else {
      var fewer := Composed.Without(air[..last], k);
      FromAirFirst(air[..last], k, src);
      assert rest == fewer + [air[last]];
      FromAirAppend(fewer, air[last], src);
      ConcatAssociative(if air[k].src == src then [air[k].value] else [], FromAir(fewer, src),
                        if air[last].src == src then [air[last].value] else []);
    }
  }

  ghost function Pending<V>(c: Setup, w: World<V>, a: nat, b: nat): seq<V>
    requires Composed.Shape(c, w) && b < c.n
  {
    assert RankShape(c, w, b);
    Unread(w.engines[b], w.inbox[b], a, Collected(c, b, w.pcs[b]), |w.inbox[b]|) + FromAir(w.air[b], a)
  }

  // s is the state of the machine on channels that w stands for.
  ghost predicate Stands<V>(c: Setup, w: World<V>, s: N.State<V>)
    requires Composed.Shape(c, w)
  {
    && N.Shape(c.n, c.prog, s) && s.pcs == w.pcs && s.accs == w.accs
    && forall a: nat, b: nat | a < c.n && b < c.n :: s.chans[(a, b)] == Pending(c, w, a, b)
  }

  lemma StandsAt<V>(c: Setup, w: World<V>, s: N.State<V>, a: nat, b: nat)
    requires Composed.Shape(c, w) && Stands(c, w, s) && a < c.n && b < c.n
    ensures s.chans[(a, b)] == Pending(c, w, a, b)
  {
  }

  lemma StandsAtStart<V>(c: Setup, init: seq<V>)
    requires SetupOk(c) && |init| == c.n
    ensures Stands(c, Start(c, init), N.Initial(c.prog, init))
  {
    var w := Start(c, init);
    forall a: nat, b: nat | a < c.n && b < c.n ensures Pending(c, w, a, b) == [] {
      assert RankShape(c, w, b);
    }
  }

  // ---------------------------------------------------------------------
  // What holds in every reachable world.

  ghost predicate FromRanks(c: Setup, arrived: seq<Envelope>) {
    forall id: nat | id < |arrived| :: 0 < arrived[id].src <= c.n && arrived[id] == Envelope(arrived[id].src, c.tag, [])
  }

  // One call at a time, and each takes the message of its receive.
  ghost predicate RankOk<V>(c: Setup, w: World<V>, r: nat)
    requires Composed.Shape(c, w) && r < c.n && RankShape(c, w, r)
  {
    && Alone(c.sizes[r], w.logs[r])
    && Ledger(w.engines[r], Calls(c, r), Issued(c, r, w.pcs[r]))
    && (forall t: nat | t < Collected(c, r, w.pcs[r]) && t < |w.engines[r].threads| :: w.engines[r].threads[t].Idle?)
    && FromRanks(c, w.engines[r].arrived)
  }

  ghost predicate RanksOk<V>(c: Setup, w: World<V>) {
    && Composed.Shape(c, w) && AtMostOneReceive(c.prog)
    && forall r: nat | r < c.n :: RankShape(c, w, r) && RankOk(c, w, r)
  }

  lemma OkFrom<V>(c: Setup, w: World<V>, w': World<V>, r: nat)
    requires RanksOk(c, w) && Composed.Shape(c, w') && r < c.n
    requires forall q: nat | q < c.n && q != r ::
               w'.pcs[q] == w.pcs[q] && w'.engines[q] == w.engines[q] && w'.logs[q] == w.logs[q]
    requires RankShape(c, w', r) && RankOk(c, w', r)
    ensures RanksOk(c, w')
  {
    forall q: nat | q < c.n ensures RankShape(c, w', q) && RankOk(c, w', q) {
      assert RankShape(c, w', q);
      if q != r {
        assert RankShape(c, w, q) && RankOk(c, w, q);
      }
    }
  }

  lemma PendingSame<V>(c: Setup, w: World<V>, w': World<V>, a: nat, b: nat)
    requires Composed.Shape(c, w) && Composed.Shape(c, w') && b < c.n
    requires w'.engines[b].arrived == w.engines[b].arrived && w'.engines[b].taken == w.engines[b].taken
    requires w'.inbox[b] == w.inbox[b] && FromAir(w'.air[b], a) == FromAir(w.air[b], a)
    requires RankShape(c, w, b) && RankShape(c, w', b) && Collected(c, b, w'.pcs[b]) == Collected(c, b, w.pcs[b])
    ensures Pending(c, w', a, b) == Pending(c, w, a, b)
  {
    var done := Collected(c, b, w.pcs[b]);
    UnreadSame(w.engines[b], w.inbox[b], done, w'.engines[b], w'.inbox[b], done, a, |w.inbox[b]|);
  }

  // ---------------------------------------------------------------------
  // A step of an engine.

  lemma AloneMore(n: nat, log: seq<L.Step>, step: L.Step)
    requires L.Run(n, log).Some? && Alone(n, log) && L.Run(n, log + [step]).Some?
    requires step.Begin? ==> AllIdle(L.Run(n, log).value)
    ensures Alone(n, log + [step])
  {
    assert (log + [step])[..|log|] == log;
  }

  lemma InternalOk<V>(c: Setup, w: World<V>, w': World<V>, r: nat, step: L.Step)
    requires Composed.Shape(c, w) && Composed.Shape(c, w') && r < c.n && RankShape(c, w, r) && RankShape(c, w', r)
    requires RankOk(c, w, r) && Internal(step) && L.Enabled(w.engines[r], step)
    requires w'.pcs[r] == w.pcs[r] && w'.engines[r] == L.Next(w.engines[r], step) && w'.logs[r] == w.logs[r] + [step]
    ensures RankOk(c, w', r)
  {
    AloneMore(c.sizes[r], w.logs[r], step);
    EngineStep(c.sizes[r], w.logs[r], w.engines[r], Calls(c, r), Issued(c, r, w.pcs[r]), step);
    forall t: nat | t < Collected(c, r, w.pcs[r]) && t < |w'.engines[r].threads|
      ensures w'.engines[r].threads[t].Idle?
    {
      if !w'.engines[r].threads[t].Idle? {
        WokenUp(w.engines[r], step, t);
      }
    }
  }

  // What a step of an engine with one call at a time does to its record.
  lemma EngineStep(n: nat, log: seq<L.Step>, e: L.State, calls: seq<L.Call>, begun: nat, step: L.Step)
    requires L.Run(n, log) == Some(e) && Alone(n, log) && Ledger(e, calls, begun)
    requires L.Enabled(e, step) && Internal(step)
    ensures Ledger(L.Next(e, step), calls, begun) && L.Next(e, step).arrived == e.arrived
    ensures forall id | id in e.taken :: id in L.Next(e, step).taken
    ensures forall id | id in L.Next(e, step).taken ::
              if id in e.taken then L.Next(e, step).taken[id] == e.taken[id]
              else L.Next(e, step).taken[id] < |e.threads| && !e.threads[L.Next(e, step).taken[id]].Idle?
  {
    AloneIsCareful(n, log);
    CarefulInOrder(n, log, step);
    var l := L.InvRun(n, log);
    LedgerStep(e, l, calls, begun, step);
    TakenAfter(e, l, calls, begun, step);
  }

  lemma EngineKeepsRank<V>(op: (V, V) -> V, c: Setup, w: World<V>, r: nat, step: L.Step)
    requires RanksOk(c, w) && Can(c, false, w, Engine(r, step))
    ensures Composed.Shape(c, After(op, c, w, Engine(r, step))) && RanksOk(c, After(op, c, w, Engine(r, step)))
  {
    var w' := After(op, c, w, Engine(r, step));
    ShapeAfter(op, c, w, Engine(r, step));
    assert RankShape(c, w, r) && RankOk(c, w, r) && RankShape(c, w', r);
    InternalOk(c, w, w', r, step);
    OkFrom(c, w, w', r);
  }

  lemma UnreadKept<V>(e: L.State, e': L.State, inbox: seq<V>, src: nat, done: nat)
    requires e'.arrived == e.arrived && |inbox| == |e.arrived|
    requires forall t: nat | t < done && t < |e.threads| :: e.threads[t].Idle?
    requires forall id | id in e.taken :: id in e'.taken
    requires forall id | id in e'.taken ::
               if id in e.taken then e'.taken[id] == e.taken[id]
               else e'.taken[id] < |e.threads| && !e.threads[e'.taken[id]].Idle?
    ensures Unread(e', inbox, src, done, |inbox|) == Unread(e, inbox, src, done, |inbox|)
  {
    UnreadSame(e, inbox, done, e', inbox, done, src, |inbox|);
  }

  lemma EngineKeepsChannels<V>(op: (V, V) -> V, c: Setup, w: World<V>, r: nat, step: L.Step, a: nat, b: nat)
    requires RanksOk(c, w) && Can(c, false, w, Engine(r, step)) && b < c.n
    requires Composed.Shape(c, After(op, c, w, Engine(r, step)))
    ensures Pending(c, After(op, c, w, Engine(r, step)), a, b) == Pending(c, w, a, b)
  {
    var w' := After(op, c, w, Engine(r, step));
    assert RankShape(c, w, b) && RankShape(c, w', b) && RankOk(c, w, b);
    if b == r {
      EngineStep(c.sizes[r], w.logs[r], w.engines[r], Calls(c, r), Issued(c, r, w.pcs[r]), step);
      UnreadKept(w.engines[r], w'.engines[r], w.inbox[r], a, Collected(c, r, w.pcs[r]));
    } else {
      PendingSame(c, w, w', a, b);
    }
  }

  // ---------------------------------------------------------------------
  // A message arrives.

  lemma ArrivalOk<V>(c: Setup, w: World<V>, w': World<V>, r: nat, env: Envelope)
    requires Composed.Shape(c, w) && Composed.Shape(c, w') && r < c.n && RankShape(c, w, r) && RankShape(c, w', r)
    requires RankOk(c, w, r) && env == Envelope(env.src, c.tag, []) && 0 < env.src <= c.n
    requires w'.pcs[r] == w.pcs[r] && w'.engines[r] == L.Next(w.engines[r], L.Arrive(env))
    requires w'.logs[r] == w.logs[r] + [L.Arrive(env)]
    ensures RankOk(c, w', r)
  {
    AloneMore(c.sizes[r], w.logs[r], L.Arrive(env));
    LedgerArrives(w.engines[r], Calls(c, r), Issued(c, r, w.pcs[r]), env);
  }

  lemma DeliverKeepsRank<V>(op: (V, V) -> V, c: Setup, w: World<V>, r: nat, k: nat)
    requires RanksOk(c, w) && Can(c, false, w, Deliver(r, k))
    ensures Composed.Shape(c, After(op, c, w, Deliver(r, k))) && RanksOk(c, After(op, c, w, Deliver(r, k)))
  {
    var w' := After(op, c, w, Deliver(r, k));
    ShapeAfter(op, c, w, Deliver(r, k));
    assert RankShape(c, w, r) && RankOk(c, w, r) && RankShape(c, w', r);
    assert w.air[r][k] in w.air[r];
    ArrivalOk(c, w, w', r, Envelope(w.air[r][k].src + 1, c.tag, []));
    OkFrom(c, w, w', r);
  }

  lemma UnreadArrival<V>(e: L.State, inbox: seq<V>, env: Envelope, value: V, src: nat, done: nat)
    requires |e.arrived| == |inbox| && forall id | id in e.taken :: id < |e.arrived|
    ensures var e' := L.Next(e, L.Arrive(env));
            && |e'.arrived| == |inbox| + 1
            && Unread(e', inbox + [value], src, done, |inbox| + 1)
               == Unread(e, inbox, src, done, |inbox|) + (if env.src == src + 1 then [value] else [])
  {
    UnreadSame(e, inbox, done, L.Next(e, L.Arrive(env)), inbox + [value], done, src, |inbox|);
  }

  lemma ArrivalPending<V>(c: Setup, w: World<V>, w': World<V>, r: nat, k: nat, a: nat)
    requires Composed.Shape(c, w) && Composed.Shape(c, w') && r < c.n && RankShape(c, w, r) && RankShape(c, w', r)
    requires RankOk(c, w, r) && k < |w.air[r]| && forall j | 0 <= j < k :: w.air[r][j].src != w.air[r][k].src
    requires w'.pcs[r] == w.pcs[r] && w'.air[r] == Composed.Without(w.air[r], k)
    requires w'.engines[r] == L.Next(w.engines[r], L.Arrive(Envelope(w.air[r][k].src + 1, c.tag, [])))
    requires w'.inbox[r] == w.inbox[r] + [w.air[r][k].value]
    ensures Pending(c, w', a, r) == Pending(c, w, a, r)
  {
    var done, f := Collected(c, r, w.pcs[r]), w.air[r][k];
    var mine := if f.src == a then [f.value] else [];
    FromAirFirst(w.air[r], k, a);
    UnreadArrival(w.engines[r], w.inbox[r], Envelope(f.src + 1, c.tag, []), f.value, a, done);
    var before := Unread(w.engines[r], w.inbox[r], a, done, |w.inbox[r]|);
    ConcatAssociative(before, mine, FromAir(w'.air[r], a));
    assert Pending(c, w, a, r) == before + FromAir(w.air[r], a);
    assert Pending(c, w', a, r) == (before + mine) + FromAir(w'.air[r], a);
  }

  lemma DeliverKeepsChannels<V>(op: (V, V) -> V, c: Setup, w: World<V>, r: nat, k: nat, a: nat, b: nat)
    requires RanksOk(c, w) && Can(c, false, w, Deliver(r, k)) && b < c.n
    requires Composed.Shape(c, After(op, c, w, Deliver(r, k)))
    ensures Pending(c, After(op, c, w, Deliver(r, k)), a, b) == Pending(c, w, a, b)
  {
    var w' := After(op, c, w, Deliver(r, k));
    assert RankShape(c, w, b) && RankShape(c, w', b) && RankOk(c, w, b);
    if b == r {
      ArrivalPending(c, w, w', r, k, a);
    } else {
      PendingSame(c, w, w', a, b);
    }
  }

  // ---------------------------------------------------------------------
  // The steps of a rank's loop.

  // With at most one receive a round, a rank that may post has waited for all it posted.
  lemma NothingOutstanding(c: Setup, r: nat, pc: Pc)
    requires AllMatched(c.n, c.prog) && AtMostOneReceive(c.prog) && r < c.n && PcOk(c.n, c.prog, r, pc)
    requires pc.round < |c.prog| && !pc.sent && pc.posted < |c.prog[pc.round].parts[r].recvs|
    ensures pc.posted == 0 && pc.waited == 0 && Issued(c, r, pc) == Collected(c, r, pc)
  {
    assert Matched(c.n, c.prog[pc.round]);
  }

  lemma IssueOk<V>(c: Setup, w: World<V>, w': World<V>, r: nat, call: L.Call)
    requires Composed.Shape(c, w) && Composed.Shape(c, w') && r < c.n && RankShape(c, w, r) && RankShape(c, w', r)
    requires RankOk(c, w, r) && Issued(c, r, w.pcs[r]) == Collected(c, r, w.pcs[r])
    requires Issued(c, r, w'.pcs[r]) == Issued(c, r, w.pcs[r]) + 1
    requires Collected(c, r, w'.pcs[r]) == Collected(c, r, w.pcs[r])
    requires Issued(c, r, w.pcs[r]) < |Calls(c, r)| && call == Calls(c, r)[Issued(c, r, w.pcs[r])] && !call.probe
    requires L.Enabled(w.engines[r], L.Begin(Issued(c, r, w.pcs[r]), call))
    requires w'.engines[r] == L.Next(w.engines[r], L.Begin(Issued(c, r, w.pcs[r]), call))
    requires w'.logs[r] == w.logs[r] + [L.Begin(Issued(c, r, w.pcs[r]), call)]
    ensures RankOk(c, w', r)
  {
    NewCallOk(c.sizes[r], w.logs[r], w.engines[r], Calls(c, r), Issued(c, r, w.pcs[r]));
  }

  // A call while no other is running.
  lemma NewCallOk(n: nat, log: seq<L.Step>, e: L.State, calls: seq<L.Call>, begun: nat)
    requires L.Run(n, log) == Some(e) && Alone(n, log) && Ledger(e, calls, begun)
    requires begun < |calls| && !calls[begun].probe
    requires forall t: nat | t < begun && t < |e.threads| :: e.threads[t].Idle?
    requires L.Enabled(e, L.Begin(begun, calls[begun]))
    ensures L.Run(n, log + [L.Begin(begun, calls[begun])]) == Some(L.Next(e, L.Begin(begun, calls[begun])))
    ensures Alone(n, log + [L.Begin(begun, calls[begun])])
    ensures Ledger(L.Next(e, L.Begin(begun, calls[begun])), calls, begun + 1)
    ensures L.Next(e, L.Begin(begun, calls[begun])).arrived == e.arrived
    ensures forall t: nat | t < begun :: L.Next(e, L.Begin(begun, calls[begun])).threads[t].Idle?
  {
    forall t | 0 <= t < |e.threads| ensures e.threads[t].Idle? {
      assert t < begun || begun <= t;
    }
    EngineMove(n, log, e, L.Begin(begun, calls[begun]));
    AloneMore(n, log, L.Begin(begun, calls[begun]));
    LedgerBegins(e, calls, begun);
  }

  lemma IssueKeepsRank<V>(op: (V, V) -> V, c: Setup, w: World<V>, r: nat)
    requires RanksOk(c, w) && Can(c, false, w, Issue(r))
    ensures Composed.Shape(c, After(op, c, w, Issue(r))) && RanksOk(c, After(op, c, w, Issue(r)))
  {
    var w' := After(op, c, w, Issue(r));
    ShapeAfter(op, c, w, Issue(r));
    assert RankShape(c, w, r) && RankOk(c, w, r) && RankShape(c, w', r);
    NothingOutstanding(c, r, w.pcs[r]);
    CallAt(c, r, w.pcs[r].round, w.pcs[r].posted);
    IssueOk(c, w, w', r, NextCall(c, r, w.pcs[r]).call);
    OkFrom(c, w, w', r);
  }

  // The other steps leave the engines alone.
  predicate Local(act: Act) { act.Emit? || act.Return? || act.Collect? || act.Advance? }

  lemma LocalOk<V>(c: Setup, w: World<V>, w': World<V>, r: nat)
    requires Composed.Shape(c, w) && Composed.Shape(c, w') && r < c.n && RankShape(c, w, r) && RankShape(c, w', r)
    requires RankOk(c, w, r) && w'.engines[r] == w.engines[r] && w'.logs[r] == w.logs[r]
    requires Issued(c, r, w'.pcs[r]) == Issued(c, r, w.pcs[r])
    requires Collected(c, r, w'.pcs[r]) == Collected(c, r, w.pcs[r])
          || (Collected(c, r, w'.pcs[r]) == Collected(c, r, w.pcs[r]) + 1
              && Collected(c, r, w.pcs[r]) < |w.engines[r].threads|
              && w.engines[r].threads[Collected(c, r, w.pcs[r])].Idle?)
    ensures RankOk(c, w', r)
  {
  }

  lemma LoopCounts<V>(op: (V, V) -> V, c: Setup, w: World<V>, act: Act)
    requires Composed.Shape(c, w) && Local(act) && Can(c, false, w, act) && RankShape(c, w, act.rank)
    ensures Composed.Shape(c, After(op, c, w, act)) && RankShape(c, After(op, c, w, act), act.rank)
    ensures var pc, pc' := w.pcs[act.rank], After(op, c, w, act).pcs[act.rank];
            && Issued(c, act.rank, pc') == Issued(c, act.rank, pc)
            && Collected(c, act.rank, pc') == Collected(c, act.rank, pc) + if act.Collect? then 1 else 0
  {
    ShapeAfter(op, c, w, act);
    assert RankShape(c, After(op, c, w, act), act.rank);
    var r, pc := act.rank, w.pcs[act.rank];
    if act.Advance? {
      NextBase(c, r, pc.round);
    }
  }

  lemma NextBase(c: Setup, r: nat, i: nat)
    requires AllMatched(c.n, c.prog) && r < c.n && i < |c.prog|
    ensures Matched(c.n, c.prog[i]) && Base(c, r, i + 1) == Base(c, r, i) + |c.prog[i].parts[r].recvs|
  {
    assert Matched(c.n, c.prog[i]);
    assert Receives(c.n, c.prog, r, i + 1) == Receives(c.n, c.prog, r, i) + InRound(i, c.prog[i].parts[r].recvs);
  }

  lemma LocalKeepsRank<V>(op: (V, V) -> V, c: Setup, w: World<V>, act: Act)
    requires RanksOk(c, w) && Local(act) && Can(c, false, w, act)
    ensures Composed.Shape(c, After(op, c, w, act)) && RanksOk(c, After(op, c, w, act))
  {
    var w', r := After(op, c, w, act), act.rank;
    assert RankShape(c, w, r) && RankOk(c, w, r);
    LoopCounts(op, c, w, act);
    LocalOk(c, w, w', r);
    OkFrom(c, w, w', r);
  }

  lemma KeepsRanks<V>(op: (V, V) -> V, c: Setup, w: World<V>, act: Act)
    requires RanksOk(c, w) && Can(c, false, w, act)
    ensures Composed.Shape(c, After(op, c, w, act)) && RanksOk(c, After(op, c, w, act))
  {
    match act
    case Deliver(r, k) => DeliverKeepsRank(op, c, w, r, k);
    case Engine(r, step) => EngineKeepsRank(op, c, w, r, step);
    case Issue(r) => IssueKeepsRank(op, c, w, r);
    case _ => LocalKeepsRank(op, c, w, act);
  }

  // ---------------------------------------------------------------------
  // Every step is a step of the machine on channels, or none.

  // A step that changes no channel.
  lemma StandsStill<V>(c: Setup, w: World<V>, w': World<V>, s: N.State<V>, s': N.State<V>)
    requires Composed.Shape(c, w) && Composed.Shape(c, w') && Stands(c, w, s)
    requires N.Shape(c.n, c.prog, s') && s'.pcs == w'.pcs && s'.accs == w'.accs && s'.chans == s.chans
    requires forall a: nat, b: nat | a < c.n && b < c.n :: Pending(c, w', a, b) == Pending(c, w, a, b)
    ensures Stands(c, w', s')
  {
    forall a: nat, b: nat | a < c.n && b < c.n ensures s'.chans[(a, b)] == Pending(c, w', a, b) {
      StandsAt(c, w, s, a, b);
    }
  }

  // A step that changes the channel from x to y.
  lemma StandsMoved<V>(c: Setup, w: World<V>, w': World<V>, s: N.State<V>, s': N.State<V>, x: nat, y: nat, q: seq<V>)
    requires Composed.Shape(c, w) && Composed.Shape(c, w') && Stands(c, w, s) && x < c.n && y < c.n
    requires N.Shape(c.n, c.prog, s') && s'.pcs == w'.pcs && s'.accs == w'.accs && s'.chans == s.chans[(x, y) := q]
    requires Pending(c, w', x, y) == q
    requires forall a: nat, b: nat | a < c.n && b < c.n && (a != x || b != y) ::
               Pending(c, w', a, b) == Pending(c, w, a, b)
    ensures Stands(c, w', s')
  {
    forall a: nat, b: nat | a < c.n && b < c.n ensures s'.chans[(a, b)] == Pending(c, w', a, b) {
      StandsAt(c, w, s, a, b);
    }
  }

  lemma IssueKeepsChannels<V>(op: (V, V) -> V, c: Setup, w: World<V>, r: nat, a: nat, b: nat)
    requires Composed.Shape(c, w) && Can(c, false, w, Issue(r)) && b < c.n
    ensures Composed.Shape(c, After(op, c, w, Issue(r)))
    ensures Pending(c, After(op, c, w, Issue(r)), a, b) == Pending(c, w, a, b)
  {
    var w' := After(op, c, w, Issue(r));
    ShapeAfter(op, c, w, Issue(r));
    assert RankShape(c, w, b) && RankShape(c, w', b);
    PendingSame(c, w, w', a, b);
  }

  lemma IssueIsPost<V>(op: (V, V) -> V, c: Setup, w: World<V>, s: N.State<V>, strict: bool, r: nat)
    requires RanksOk(c, w) && Can(c, false, w, Issue(r)) && Stands(c, w, s)
    ensures N.Enabled(c.n, c.prog, strict, s, N.Post(r)) && Composed.Shape(c, After(op, c, w, Issue(r)))
    ensures Stands(c, After(op, c, w, Issue(r)), N.Do(op, c.n, c.prog, s, N.Post(r)))
  {
    var w' := After(op, c, w, Issue(r));
    ShapeAfter(op, c, w, Issue(r));
    forall a: nat, b: nat | a < c.n && b < c.n ensures Pending(c, w', a, b) == Pending(c, w, a, b) {
      IssueKeepsChannels(op, c, w, r, a, b);
    }
    StandsStill(c, w, w', s, N.Do(op, c.n, c.prog, s, N.Post(r)));
  }

  lemma EmitPending<V>(c: Setup, w: World<V>, w': World<V>, r: nat, d: nat)
    requires Composed.Shape(c, w) && Composed.Shape(c, w') && r < c.n && d < c.n
    requires w'.engines == w.engines && w'.inbox == w.inbox && w'.air[d] == w.air[d] + [Flying(r, w.accs[r])]
    requires RankShape(c, w, d) && RankShape(c, w', d) && Collected(c, d, w'.pcs[d]) == Collected(c, d, w.pcs[d])
    ensures Pending(c, w', r, d) == Pending(c, w, r, d) + [w.accs[r]]
  {
    var done := Collected(c, d, w.pcs[d]);
    FromAirAppend(w.air[d], Flying(r, w.accs[r]), r);
    ConcatAssociative(Unread(w.engines[d], w.inbox[d], r, done, |w.inbox[d]|), FromAir(w.air[d], r), [w.accs[r]]);
  }

  // What a send puts into the air is in its channel, and nothing else changes.
  lemma EmitChannels<V>(op: (V, V) -> V, c: Setup, w: World<V>, r: nat, a: nat, b: nat)
    requires RanksOk(c, w) && Can(c, false, w, Emit(r)) && a < c.n && b < c.n
    ensures Composed.Shape(c, After(op, c, w, Emit(r)))
    ensures Pending(c, After(op, c, w, Emit(r)), a, b)
         == Pending(c, w, a, b)
            + (if a == r && c.prog[w.pcs[r].round].parts[r].dst == Some(b) then [w.accs[r]] else [])
  {
    var w' := After(op, c, w, Emit(r));
    ShapeAfter(op, c, w, Emit(r));
    assert RankShape(c, w, b) && RankShape(c, w', b);
    if a == r && c.prog[w.pcs[r].round].parts[r].dst == Some(b) {
      EmitPending(c, w, w', r, b);
    } else {
      FromAirAppend(w.air[b], Flying(r, w.accs[r]), a);
      PendingSame(c, w, w', a, b);
    }
  }

  lemma EmitIsSend<V>(op: (V, V) -> V, c: Setup, w: World<V>, s: N.State<V>, strict: bool, r: nat)
    requires RanksOk(c, w) && Can(c, false, w, Emit(r)) && Stands(c, w, s)
    ensures N.Enabled(c.n, c.prog, strict, s, N.Send(r)) && Composed.Shape(c, After(op, c, w, Emit(r)))
    ensures Stands(c, After(op, c, w, Emit(r)), N.Do(op, c.n, c.prog, s, N.Send(r)))
  {
    var w', s' := After(op, c, w, Emit(r)), N.Do(op, c.n, c.prog, s, N.Send(r));
    ShapeAfter(op, c, w, Emit(r));
    assert Matched(c.n, c.prog[w.pcs[r].round]);
    var dst := c.prog[w.pcs[r].round].parts[r].dst;
    forall a: nat, b: nat | a < c.n && b < c.n && (dst == Some(b) ==> a != r)
      ensures Pending(c, w', a, b) == Pending(c, w, a, b)
    {
      EmitChannels(op, c, w, r, a, b);
    }
    if dst.Some? {
      EmitChannels(op, c, w, r, r, dst.value);
      StandsAt(c, w, s, r, dst.value);
      StandsMoved(c, w, w', s, s', r, dst.value, Pending(c, w, r, dst.value) + [w.accs[r]]);
    } else {
      StandsStill(c, w, w', s, s');
    }
  }

  // Message id is the first unread one from src, and the only one that thread t took.
  ghost predicate First(e: L.State, src: nat, t: nat, id: nat) {
    && UnreadAt(e, src, t, id) && !UnreadAt(e, src, t + 1, id)
    && (forall x: nat | x < id :: !UnreadAt(e, src, t, x))
    && (forall a: nat, x: nat | a != src || x != id :: UnreadAt(e, a, t, x) <==> UnreadAt(e, a, t + 1, x))
  }

  ghost predicate FromRank(arrived: seq<Envelope>, src: nat, tag: nat) {
    forall id: nat | id < |arrived| && arrived[id].src == src + 1 :: arrived[id].tag == tag
  }

  // What thread t took is the oldest message from its rank.
  lemma TookFirst(e: L.State, calls: seq<L.Call>, t: nat, src: nat, tag: nat, id: nat)
    requires Ledger(e, calls, t + 1) && FromRank(e.arrived, src, tag) && calls[t] == L.Call(false, src + 1, tag)
    requires id in e.taken && e.taken[id] == t
    ensures First(e, src, t, id)
  {
    assert EntryOk(e, calls, t + 1, id) && Earliest(e, calls[t], id);
    assert e.arrived[id].src == src + 1;
    forall x: nat | x in e.taken && x != id ensures e.taken[x] < t {
      assert EntryOk(e, calls, t + 1, x);
    }
    forall x: nat | x < id ensures !UnreadAt(e, src, t, x) {
      if x < |e.arrived| && e.arrived[x].src == src + 1 {
        assert L.Wanted(calls[t], L.Msg(x, e.arrived[x]));
      }
    }
  }

  lemma PostedOne(c: Setup, r: nat, pc: Pc)
    requires AllMatched(c.n, c.prog) && AtMostOneReceive(c.prog) && r < c.n && PcOk(c.n, c.prog, r, pc)
    requires Collected(c, r, pc) < Issued(c, r, pc)
    ensures pc.round < |c.prog| && pc.posted == 1 == |c.prog[pc.round].parts[r].recvs| && pc.waited == 0
    ensures Issued(c, r, pc) == Collected(c, r, pc) + 1
  {
    assert Matched(c.n, c.prog[pc.round]);
  }

  // The call of the receive that is not waited for.
  lemma LastCall(c: Setup, d: nat, pc: Pc, src: nat)
    requires AllMatched(c.n, c.prog) && AtMostOneReceive(c.prog) && d < c.n && PcOk(c.n, c.prog, d, pc)
    requires Collected(c, d, pc) < Issued(c, d, pc)
    requires pc.round < |c.prog| && src in c.prog[pc.round].parts[d].recvs
    ensures Issued(c, d, pc) == Collected(c, d, pc) + 1 <= |Calls(c, d)|
    ensures Calls(c, d)[Collected(c, d, pc)] == L.Call(false, src + 1, c.tag)
  {
    PostedOne(c, d, pc);
    CallAt(c, d, pc.round, 0);
  }

  // The message collected is the oldest of its channel.
  lemma CollectFirst(c: Setup, r: nat, pc: Pc, e: L.State, id: nat) returns (src: nat)
    requires AllMatched(c.n, c.prog) && AtMostOneReceive(c.prog) && r < c.n && PcOk(c.n, c.prog, r, pc)
    requires pc.round < |c.prog| && pc.flushed && pc.waited < |c.prog[pc.round].parts[r].recvs|
    requires Ledger(e, Calls(c, r), Issued(c, r, pc)) && FromRanks(c, e.arrived)
    requires id in e.taken && e.taken[id] == Collected(c, r, pc)
    ensures src == c.prog[pc.round].parts[r].recvs[pc.waited] && src < c.n
    ensures First(e, src, Collected(c, r, pc), id)
  {
    assert Matched(c.n, c.prog[pc.round]);
    src := c.prog[pc.round].parts[r].recvs[pc.waited];
    LastCall(c, r, pc, src);
    TookFirst(e, Calls(c, r), Collected(c, r, pc), src, c.tag, id);
  }

  lemma CollectPending<V>(c: Setup, w: World<V>, w': World<V>, r: nat, id: nat, src: nat, a: nat)
    requires Composed.Shape(c, w) && Composed.Shape(c, w') && r < c.n && RankShape(c, w, r) && RankShape(c, w', r)
    requires w'.engines[r] == w.engines[r] && w'.inbox[r] == w.inbox[r] && w'.air[r] == w.air[r] && id < |w.inbox[r]|
    requires Collected(c, r, w'.pcs[r]) == Collected(c, r, w.pcs[r]) + 1
    requires First(w.engines[r], src, Collected(c, r, w.pcs[r]), id)
    ensures Pending(c, w, a, r) == (if a == src then [w.inbox[r][id]] else []) + Pending(c, w', a, r)
  {
    var e, inbox, t := w.engines[r], w.inbox[r], Collected(c, r, w.pcs[r]);
    if a == src {
      UnreadFirst(e, inbox, src, t, t + 1, id, |inbox|);
      var left := Unread(e, inbox, src, t + 1, |inbox|);
      ConcatAssociative([inbox[id]], left, FromAir(w.air[r], src));
      assert Pending(c, w', a, r) == left + FromAir(w.air[r], src);
    } else {
      UnreadSame(e, inbox, t, e, inbox, t + 1, a, |inbox|);
      assert Pending(c, w', a, r) == Pending(c, w, a, r);
    }
  }

  // What a wait does when the channel starts with v.
  lemma WaitEffect<V>(op: (V, V) -> V, n: nat, prog: Program, strict: bool, s: N.State<V>, r: nat, v: V, rest: seq<V>)
    requires N.Shape(n, prog, s) && r < n && s.pcs[r].round < |prog| && s.pcs[r].flushed
    requires s.pcs[r].waited < |prog[s.pcs[r].round].parts[r].recvs|
    requires prog[s.pcs[r].round].parts[r].recvs[s.pcs[r].waited] < n
    requires s.chans[(prog[s.pcs[r].round].parts[r].recvs[s.pcs[r].waited], r)] == [v] + rest
    ensures N.Enabled(n, prog, strict, s, N.Wait(r))
    ensures N.Do(op, n, prog, s, N.Wait(r))
         == s.(pcs := s.pcs[r := s.pcs[r].(waited := s.pcs[r].waited + 1)],
               accs := s.accs[r := Apply(prog[s.pcs[r].round].mode, op, s.accs[r], v)],
               chans := s.chans[(prog[s.pcs[r].round].parts[r].recvs[s.pcs[r].waited], r) := rest])
  {
    assert ([v] + rest)[1..] == rest;
  }

  // w' is w after rank r collected message id.
  ghost predicate Collects<V>(c: Setup, w: World<V>, w': World<V>, r: nat, id: nat)
    requires Composed.Shape(c, w) && Composed.Shape(c, w') && r < c.n && RankShape(c, w, r) && RankShape(c, w', r)
  {
    && w'.engines == w.engines && w'.inbox == w.inbox && w'.air == w.air && id < |w.inbox[r]|
    && w'.pcs == w.pcs[r := w'.pcs[r]]
    && Collected(c, r, w'.pcs[r]) == Collected(c, r, w.pcs[r]) + 1
  }

  // A collected message leaves its channel and no other.
  lemma CollectChannels<V>(c: Setup, w: World<V>, w': World<V>, r: nat, id: nat, src: nat, a: nat, b: nat)
    requires Composed.Shape(c, w) && Composed.Shape(c, w') && r < c.n && RankShape(c, w, r) && RankShape(c, w', r)
    requires Collects(c, w, w', r, id) && First(w.engines[r], src, Collected(c, r, w.pcs[r]), id) && b < c.n
    ensures a == src && b == r ==> Pending(c, w, a, b) == [w.inbox[r][id]] + Pending(c, w', a, b)
    ensures a != src || b != r ==> Pending(c, w', a, b) == Pending(c, w, a, b)
  {
    assert RankShape(c, w, b) && RankShape(c, w', b);
    if b == r {
      CollectPending(c, w, w', r, id, src, a);
      assert [] + Pending(c, w', a, b) == Pending(c, w', a, b);
    } else {
      PendingSame(c, w, w', a, b);
    }
  }

  lemma CollectStands<V>(op: (V, V) -> V, c: Setup, w: World<V>, w': World<V>, s: N.State<V>, strict: bool, r: nat,
                         id: nat, src: nat)
    requires Composed.Shape(c, w) && Composed.Shape(c, w') && r < c.n && RankShape(c, w, r) && RankShape(c, w', r)
    requires Collects(c, w, w', r, id) && First(w.engines[r], src, Collected(c, r, w.pcs[r]), id)
    requires Stands(c, w, s) && w.pcs[r].round < |c.prog| && w.pcs[r].flushed
    requires w.pcs[r].waited < |c.prog[w.pcs[r].round].parts[r].recvs|
    requires src == c.prog[w.pcs[r].round].parts[r].recvs[w.pcs[r].waited] && src < c.n
    requires w'.pcs[r] == w.pcs[r].(waited := w.pcs[r].waited + 1)
    requires w'.accs == w.accs[r := Apply(c.prog[w.pcs[r].round].mode, op, w.accs[r], w.inbox[r][id])]
    ensures N.Enabled(c.n, c.prog, strict, s, N.Wait(r))
    ensures Stands(c, w', N.Do(op, c.n, c.prog, s, N.Wait(r)))
  {
    var rest := Pending(c, w', src, r);
    CollectChannels(c, w, w', r, id, src, src, r);
    StandsAt(c, w, s, src, r);
    WaitEffect(op, c.n, c.prog, strict, s, r, w.inbox[r][id], rest);
    forall a: nat, b: nat | a < c.n && b < c.n && (a != src || b != r)
      ensures Pending(c, w', a, b) == Pending(c, w, a, b)
    {
      CollectChannels(c, w, w', r, id, src, a, b);
    }
    StandsMoved(c, w, w', s, N.Do(op, c.n, c.prog, s, N.Wait(r)), src, r, rest);
  }

  lemma CollectIsWait<V>(op: (V, V) -> V, c: Setup, w: World<V>, s: N.State<V>, strict: bool, r: nat, id: nat)
    requires RanksOk(c, w) && Can(c, false, w, Collect(r, id)) && Stands(c, w, s)
    ensures N.Enabled(c.n, c.prog, strict, s, N.Wait(r)) && Composed.Shape(c, After(op, c, w, Collect(r, id)))
    ensures Stands(c, After(op, c, w, Collect(r, id)), N.Do(op, c.n, c.prog, s, N.Wait(r)))
  {
    assert RankShape(c, w, r) && RankOk(c, w, r);
    LoopCounts(op, c, w, Collect(r, id));
    var src := CollectFirst(c, r, w.pcs[r], w.engines[r], id);
    CollectStands(op, c, w, After(op, c, w, Collect(r, id)), s, strict, r, id, src);
  }

  lemma {:induction false} OneUnread<V>(e: L.State, inbox: seq<V>, src: nat, done: nat, i: nat)
    requires i <= |e.arrived| == |inbox|
    requires forall x: nat, y: nat | UnreadAt(e, src, done, x) && UnreadAt(e, src, done, y) :: x == y
    ensures |Unread(e, inbox, src, done, i)| <= 1
  {
    if i > 0 {
      OneUnread(e, inbox, src, done, i - 1);
      if UnreadAt(e, src, done, i - 1) {
        NothingUnread(e, inbox, src, done, i - 1);
      }
    }
  }

  // A message from s that is taken and not waited for is for the receive posted last.
  lemma TakenByLast(c: Setup, d: nat, pc: Pc, e: L.State, s: nat, x: nat)
    requires AllMatched(c.n, c.prog) && AtMostOneReceive(c.prog) && d < c.n && PcOk(c.n, c.prog, d, pc)
    requires Ledger(e, Calls(c, d), Issued(c, d, pc)) && UnreadAt(e, s, Collected(c, d, pc), x) && x in e.taken
    ensures e.taken[x] == Collected(c, d, pc)
    ensures Consumed(c.n, c.prog, s, d, pc) + 1 == Posted(c.n, c.prog, s, d, pc)
  {
    assert EntryOk(e, Calls(c, d), Issued(c, d, pc), x);
    PostedOne(c, d, pc);
    LastCall(c, d, pc, c.prog[pc.round].parts[d].recvs[0]);
    var recvs := c.prog[pc.round].parts[d].recvs;
    assert recvs[..0] == [] && recvs[..1] == [recvs[0]] == [s];
  }

  lemma UnreadTaken(c: Setup, d: nat, pc: Pc, e: L.State, s: nat)
    requires AllMatched(c.n, c.prog) && AtMostOneReceive(c.prog) && d < c.n && PcOk(c.n, c.prog, d, pc)
    requires Ledger(e, Calls(c, d), Issued(c, d, pc))
    requires forall x: nat | UnreadAt(e, s, Collected(c, d, pc), x) :: x in e.taken
    ensures forall x: nat, y: nat | UnreadAt(e, s, Collected(c, d, pc), x) && UnreadAt(e, s, Collected(c, d, pc), y) ::
              x == y
  {
    forall x: nat, y: nat | UnreadAt(e, s, Collected(c, d, pc), x) && UnreadAt(e, s, Collected(c, d, pc), y)
      ensures x == y
    {
      TakenByLast(c, d, pc, e, s, x);
      TakenByLast(c, d, pc, e, s, y);
    }
  }

  // If all that s sent to d has been taken, at most one message is not waited for, and
  // then d has posted a receive for it.
  lemma TakenMeansPosted<V>(c: Setup, w: World<V>, s: nat, d: nat)
    requires RanksOk(c, w) && s < c.n && d < c.n && AllTaken(w, s, d) && RankShape(c, w, d)
    ensures |Pending(c, w, s, d)| + Consumed(c.n, c.prog, s, d, w.pcs[d]) <= Posted(c.n, c.prog, s, d, w.pcs[d])
  {
    var e, pc, t := w.engines[d], w.pcs[d], Collected(c, d, w.pcs[d]);
    assert RankOk(c, w, d);
    NothingInAir(w.air[d], s);
    assert Pending(c, w, s, d) == Unread(e, w.inbox[d], s, t, |w.inbox[d]|);
    if x: nat :| UnreadAt(e, s, t, x) {
      TakenByLast(c, d, pc, e, s, x);
      UnreadTaken(c, d, pc, e, s);
      OneUnread(e, w.inbox[d], s, t, |w.inbox[d]|);
    } else {
      NothingUnread(e, w.inbox[d], s, t, |w.inbox[d]|);
      PostedBound(c.n, c.prog, s, d, pc);
    }
  }

  lemma PostedBound(n: nat, prog: Program, s: nat, d: nat, pc: Pc)
    requires AllMatched(n, prog) && d < n && PcOk(n, prog, d, pc)
    ensures Consumed(n, prog, s, d, pc) <= Posted(n, prog, s, d, pc)
  {
    if pc.round < |prog| && s in prog[pc.round].parts[d].recvs[..pc.waited] {
      var recvs := prog[pc.round].parts[d].recvs;
      var i :| 0 <= i < pc.waited && recvs[..pc.waited][i] == s;
      assert recvs[..pc.posted][i] == s;
    }
  }

  lemma ReturnEnabled<V>(op: (V, V) -> V, c: Setup, init: seq<V>, w: World<V>, s: N.State<V>, strict: bool, r: nat)
    requires RanksOk(c, w) && Can(c, strict, w, Return(r)) && Stands(c, w, s)
    requires |init| == c.n && Inv(op, c.prog, init, s)
    ensures N.Enabled(c.n, c.prog, strict, s, N.Flush(r))
  {
    assert RankShape(c, w, r) && Matched(c.n, c.prog[w.pcs[r].round]);
    var dst := c.prog[w.pcs[r].round].parts[r].dst;
    if strict && dst.Some? {
      assert RankShape(c, w, dst.value);
      TakenMeansPosted(c, w, r, dst.value);
      StandsAt(c, w, s, r, dst.value);
      assert ChanOk(op, c.prog, init, s, r, dst.value);
    }
  }

  // A step of a rank's loop that leaves the counts of waits alone changes no channel.
  lemma LoopKeepsChannels<V>(c: Setup, w: World<V>, w': World<V>, r: nat)
    requires Composed.Shape(c, w) && Composed.Shape(c, w') && r < c.n && RankShape(c, w, r) && RankShape(c, w', r)
    requires w'.engines == w.engines && w'.inbox == w.inbox && w'.air == w.air
    requires forall q | 0 <= q < c.n && q != r :: w'.pcs[q] == w.pcs[q]
    requires Collected(c, r, w'.pcs[r]) == Collected(c, r, w.pcs[r])
    ensures forall a: nat, b: nat | a < c.n && b < c.n :: Pending(c, w', a, b) == Pending(c, w, a, b)
  {
    forall a: nat, b: nat | a < c.n && b < c.n ensures Pending(c, w', a, b) == Pending(c, w, a, b) {
      assert RankShape(c, w, b) && RankShape(c, w', b);
      PendingSame(c, w, w', a, b);
    }
  }

  lemma ReturnIsFlush<V>(op: (V, V) -> V, c: Setup, init: seq<V>, w: World<V>, s: N.State<V>, strict: bool, r: nat)
    requires RanksOk(c, w) && Can(c, strict, w, Return(r)) && Stands(c, w, s)
    requires |init| == c.n && Inv(op, c.prog, init, s)
    ensures N.Enabled(c.n, c.prog, strict, s, N.Flush(r)) && Composed.Shape(c, After(op, c, w, Return(r)))
    ensures Stands(c, After(op, c, w, Return(r)), N.Do(op, c.n, c.prog, s, N.Flush(r)))
  {
    var w' := After(op, c, w, Return(r));
    assert RankShape(c, w, r);
    LoopCounts(op, c, w, Return(r));
    ReturnEnabled(op, c, init, w, s, strict, r);
    LoopKeepsChannels(c, w, w', r);
    StandsStill(c, w, w', s, N.Do(op, c.n, c.prog, s, N.Flush(r)));
  }

  lemma AdvanceIsNext<V>(op: (V, V) -> V, c: Setup, w: World<V>, s: N.State<V>, strict: bool, r: nat)
    requires RanksOk(c, w) && Can(c, false, w, Advance(r)) && Stands(c, w, s)
    ensures N.Enabled(c.n, c.prog, strict, s, N.Next(r)) && Composed.Shape(c, After(op, c, w, Advance(r)))
    ensures Stands(c, After(op, c, w, Advance(r)), N.Do(op, c.n, c.prog, s, N.Next(r)))
  {
    var w' := After(op, c, w, Advance(r));
    assert RankShape(c, w, r);
    LoopCounts(op, c, w, Advance(r));
    LoopKeepsChannels(c, w, w', r);
    StandsStill(c, w, w', s, N.Do(op, c.n, c.prog, s, N.Next(r)));
  }

  // Deliveries and steps of engines are no steps of the machine on channels.
  lemma SilentStep<V>(op: (V, V) -> V, c: Setup, w: World<V>, s: N.State<V>, act: Act)
    requires RanksOk(c, w) && Can(c, false, w, act) && Stands(c, w, s) && (act.Deliver? || act.Engine?)
    ensures Composed.Shape(c, After(op, c, w, act)) && Stands(c, After(op, c, w, act), s)
  {
    var w' := After(op, c, w, act);
    ShapeAfter(op, c, w, act);
    forall a: nat, b: nat | a < c.n && b < c.n ensures Pending(c, w', a, b) == Pending(c, w, a, b) {
      if act.Deliver? {
        DeliverKeepsChannels(op, c, w, act.rank, act.k, a, b);
      } else {
        EngineKeepsChannels(op, c, w, act.rank, act.step, a, b);
      }
    }
    StandsStill(c, w, w', s, s);
  }

  // The call of a rank that an act is.
  function Call(act: Act): Option<N.Step> {
    match act
    case Issue(r) => Some(N.Post(r))
    case Emit(r) => Some(N.Send(r))
    case Return(r) => Some(N.Flush(r))
    case Collect(r, _) => Some(N.Wait(r))
    case Advance(r) => Some(N.Next(r))
    case _ => None
  }

  lemma StepRefines<V>(op: (V, V) -> V, c: Setup, init: seq<V>, w: World<V>, s: N.State<V>, strict: bool, act: Act)
    requires RanksOk(c, w) && Can(c, strict, w, act) && Stands(c, w, s) && |init| == c.n && Inv(op, c.prog, init, s)
    ensures Can(c, false, w, act) && Composed.Shape(c, After(op, c, w, act))
    ensures Call(act).None? ==> Stands(c, After(op, c, w, act), s)
    ensures Call(act).Some? ==>
              && N.Enabled(c.n, c.prog, strict, s, Call(act).value) && N.Enabled(c.n, c.prog, false, s, Call(act).value)
              && Stands(c, After(op, c, w, act), N.Do(op, c.n, c.prog, s, Call(act).value))
  {
    match act
    case Issue(r) => IssueIsPost(op, c, w, s, strict, r);
    case Emit(r) => EmitIsSend(op, c, w, s, strict, r);
    case Return(r) => ReturnIsFlush(op, c, init, w, s, strict, r);
    case Collect(r, id) => CollectIsWait(op, c, w, s, strict, r, id);
    case Advance(r) => AdvanceIsNext(op, c, w, s, strict, r);
    case _ => SilentStep(op, c, w, s, act);
  }

  // The steps of the machine on channels in a run of ranks and engines.
  function CallsOf(acts: seq<Act>): seq<N.Step> {
    if acts == [] then []
    else
      CallsOf(acts[..|acts| - 1])
      + (if Call(acts[|acts| - 1]).Some? then [Call(acts[|acts| - 1]).value] else [])
  }

  lemma RanksOkAtStart<V>(c: Setup, init: seq<V>)
    requires SetupOk(c) && AtMostOneReceive(c.prog) && |init| == c.n
    ensures RanksOk(c, Start(c, init))
  {
    var w := Start(c, init);
    forall r: nat | r < c.n ensures RankShape(c, w, r) && RankOk(c, w, r) {
      assert RankShape(c, w, r);
      assert Base(c, r, 0) == 0;
    }
  }

  lemma RunMore<V>(op: (V, V) -> V, prog: Program, init: seq<V>, strict: bool, steps: seq<N.Step>, step: N.Step)
    requires AllMatched(|init|, prog) && N.Run(op, prog, init, strict, steps).Some?
    requires N.Enabled(|init|, prog, strict, N.Run(op, prog, init, strict, steps).value, step)
    ensures N.Enabled(|init|, prog, false, N.Run(op, prog, init, strict, steps).value, step)
    ensures N.Run(op, prog, init, strict, steps + [step])
         == Some(N.Do(op, |init|, prog, N.Run(op, prog, init, strict, steps).value, step))
  {
    assert (steps + [step])[..|steps|] == steps;
  }

  // What EveryRunRefines says about one run.
  ghost predicate Refines<V>(op: (V, V) -> V, c: Setup, init: seq<V>, strict: bool, w: World<V>, steps: seq<N.Step>) {
    && RanksOk(c, w) && |init| == c.n
    && N.Run(op, c.prog, init, strict, steps).Some?
    && Stands(c, w, N.Run(op, c.prog, init, strict, steps).value)
  }

  lemma RefinesMore<V>(op: (V, V) -> V, c: Setup, init: seq<V>, strict: bool, w: World<V>, steps: seq<N.Step>, act: Act)
    requires Refines(op, c, init, strict, w, steps) && Can(c, strict, w, act)
    ensures Can(c, false, w, act)
    ensures Refines(op, c, init, strict, After(op, c, w, act),
                    steps + (if Call(act).Some? then [Call(act).value] else []))
  {
    InvRun(op, c.prog, init, strict, steps);
    StepRefines(op, c, init, w, N.Run(op, c.prog, init, strict, steps).value, strict, act);
    KeepsRanks(op, c, w, act);
    if Call(act).Some? {
      RunMore(op, c.prog, init, strict, steps, Call(act).value);
    } else {
      assert steps + [] == steps;
    }
  }

  // If no rank posts two receives in a round, the calls of every run of ranks and engines
  // are a run of the machine on channels with the same positions, buffers and channels.
  lemma {:induction false} EveryRunRefines<V>(op: (V, V) -> V, c: Setup, init: seq<V>, strict: bool, acts: seq<Act>)
    requires SetupOk(c) && AtMostOneReceive(c.prog) && |init| == c.n && Reached(op, c, init, strict, acts).Some?
    ensures Refines(op, c, init, strict, Reached(op, c, init, strict, acts).value, CallsOf(acts))
  {
    if acts == [] {
      RanksOkAtStart(c, init);
      StandsAtStart(c, init);
    } else {
      var before := acts[..|acts| - 1];
      EveryRunRefines(op, c, init, strict, before);
      RefinesMore(op, c, init, strict, Reached(op, c, init, strict, before).value, CallsOf(before), acts[|acts| - 1]);
    }
  }
}
