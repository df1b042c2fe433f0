// The calls of the ranks against the messages in the channels: what posting, sending and
// waiting are, counted without the lists of calls that the loops are compared with.
module CallCounts {
  import opened Basics
  import opened Network
  import opened Interleaving
  import opened Runs

  // How many receives from q were posted and waited for, and how many sends to q made.
  ghost predicate Tally(calls: seq<Event>, q: nat, posted: nat, waited: nat, sent: nat) {
    && multiset(calls)[PostRecv(q)] == posted
    && multiset(calls)[WaitFor(q)] == waited
    && multiset(calls)[SendTo(q)] == sent
  }

  // The calls of a rank up to pc, counted by partner.
  ghost predicate Counted(n: nat, prog: Program, r: nat, pc: Pc, calls: seq<Event>, q: nat)
    requires AllMatched(n, prog) && r < n && PcOk(n, prog, r, pc)
  {
    Tally(calls, q, Posted(n, prog, q, r, pc), Consumed(n, prog, q, r, pc), SendCount(n, prog, r, q, RoundsSent(pc)))
  }

  lemma OneCall(calls: seq<Event>, call: Event, q: nat, posted: nat, waited: nat, sent: nat)
    requires Tally(calls, q, posted, waited, sent)
    ensures Tally(calls + [call], q, posted + (if call == PostRecv(q) then 1 else 0),
                  waited + (if call == WaitFor(q) then 1 else 0), sent + (if call == SendTo(q) then 1 else 0))
  {
  }

  lemma MemberMore(srcs: seq<nat>, k: nat, q: nat)
    requires k < |srcs| && Distinct(srcs)
    ensures q in srcs[..k + 1] <==> q in srcs[..k] || q == srcs[k]
    ensures q == srcs[k] ==> q !in srcs[..k]
  {
    assert srcs[..k + 1] == srcs[..k] + [srcs[k]];
  }

  lemma PostedByPost(n: nat, prog: Program, s: nat, d: nat, pc: Pc)
    requires AllMatched(n, prog) && d < n && PcOk(n, prog, d, pc) && pc.round < |prog| && !pc.sent
    requires pc.posted < |prog[pc.round].parts[d].recvs|
    ensures var pc' := pc.(posted := pc.posted + 1);
            && PcOk(n, prog, d, pc')
            && Posted(n, prog, s, d, pc')
               == Posted(n, prog, s, d, pc) + if s == prog[pc.round].parts[d].recvs[pc.posted] then 1 else 0
  {
    assert Matched(n, prog[pc.round]);
    MemberMore(prog[pc.round].parts[d].recvs, pc.posted, s);
  }

  lemma PostedSame(n: nat, prog: Program, s: nat, d: nat, pc: Pc, pc': Pc)
    requires AllMatched(n, prog) && d < n && PcOk(n, prog, d, pc) && PcOk(n, prog, d, pc')
    requires pc'.round == pc.round && pc'.posted == pc.posted
    ensures Posted(n, prog, s, d, pc') == Posted(n, prog, s, d, pc)
  {
  }

  // The counts go up by what the call is.
  lemma Recount(n: nat, prog: Program, r: nat, pc: Pc, pc': Pc, calls: seq<Event>, call: Event, q: nat)
    requires AllMatched(n, prog) && r < n && PcOk(n, prog, r, pc) && PcOk(n, prog, r, pc')
    requires Counted(n, prog, r, pc, calls, q)
    requires Posted(n, prog, q, r, pc') == Posted(n, prog, q, r, pc) + if call == PostRecv(q) then 1 else 0
    requires Consumed(n, prog, q, r, pc') == Consumed(n, prog, q, r, pc) + if call == WaitFor(q) then 1 else 0
    requires SendCount(n, prog, r, q, RoundsSent(pc'))
          == SendCount(n, prog, r, q, RoundsSent(pc)) + if call == SendTo(q) then 1 else 0
    ensures Counted(n, prog, r, pc', calls + [call], q)
  {
    OneCall(calls, call, q, Posted(n, prog, q, r, pc), Consumed(n, prog, q, r, pc),
            SendCount(n, prog, r, q, RoundsSent(pc)));
  }

  lemma CountedPost(n: nat, prog: Program, r: nat, pc: Pc, pc': Pc, calls: seq<Event>, src: nat, q: nat)
    requires AllMatched(n, prog) && r < n && PcOk(n, prog, r, pc) && Counted(n, prog, r, pc, calls, q)
    requires pc.round < |prog| && !pc.sent && pc.posted < |prog[pc.round].parts[r].recvs|
    requires src == prog[pc.round].parts[r].recvs[pc.posted] && pc' == pc.(posted := pc.posted + 1)
    ensures PcOk(n, prog, r, pc') && Counted(n, prog, r, pc', calls + [PostRecv(src)], q)
  {
    PostedByPost(n, prog, q, r, pc);
    ConsumedSame(n, prog, q, r, pc, pc');
    Recount(n, prog, r, pc, pc', calls, PostRecv(src), q);
  }

  lemma WaitedPc(n: nat, prog: Program, r: nat, pc: Pc, pc': Pc)
    requires AllMatched(n, prog) && r < n && PcOk(n, prog, r, pc) && pc.round < |prog| && pc.flushed
    requires pc.waited < |prog[pc.round].parts[r].recvs| && pc' == pc.(waited := pc.waited + 1)
    ensures PcOk(n, prog, r, pc') && RoundsSent(pc') == RoundsSent(pc)
  {
  }

  lemma CountedWait(n: nat, prog: Program, r: nat, pc: Pc, pc': Pc, calls: seq<Event>, src: nat, q: nat)
    requires AllMatched(n, prog) && r < n && q < n && PcOk(n, prog, r, pc) && Counted(n, prog, r, pc, calls, q)
    requires pc.round < |prog| && pc.flushed && pc.waited < |prog[pc.round].parts[r].recvs|
    requires src == prog[pc.round].parts[r].recvs[pc.waited] && pc' == pc.(waited := pc.waited + 1)
    ensures PcOk(n, prog, r, pc') && Counted(n, prog, r, pc', calls + [WaitFor(src)], q)
  {
    WaitedPc(n, prog, r, pc, pc');
    ConsumedByWait(n, prog, q, r, pc);
    PostedSame(n, prog, q, r, pc, pc');
    Recount(n, prog, r, pc, pc', calls, WaitFor(src), q);
  }

  lemma SentBySend(n: nat, prog: Program, r: nat, pc: Pc, pc': Pc, q: nat)
    requires AllMatched(n, prog) && r < n && PcOk(n, prog, r, pc) && pc' == pc.(sent := true)
    requires pc.round < |prog| && !pc.sent && pc.posted == |prog[pc.round].parts[r].recvs|
    ensures PcOk(n, prog, r, pc')
    ensures SendCount(n, prog, r, q, RoundsSent(pc'))
         == SendCount(n, prog, r, q, RoundsSent(pc)) + if prog[pc.round].parts[r].dst == Some(q) then 1 else 0
  {
  }

  lemma CountedSend(n: nat, prog: Program, r: nat, pc: Pc, pc': Pc, calls: seq<Event>, q: nat)
    requires AllMatched(n, prog) && r < n && PcOk(n, prog, r, pc) && Counted(n, prog, r, pc, calls, q)
    requires pc.round < |prog| && !pc.sent && pc.posted == |prog[pc.round].parts[r].recvs|
    requires pc' == pc.(sent := true)
    ensures PcOk(n, prog, r, pc') && Counted(n, prog, r, pc', calls + Sends(prog[pc.round].parts[r].dst), q)
  {
    var dst := prog[pc.round].parts[r].dst;
    SentBySend(n, prog, r, pc, pc', q);
    PostedSame(n, prog, q, r, pc, pc');
    ConsumedSame(n, prog, q, r, pc, pc');
    if dst.Some? {
      Recount(n, prog, r, pc, pc', calls, SendTo(dst.value), q);
    } else {
      assert calls + [] == calls;
    }
  }

  lemma CountedNext(n: nat, prog: Program, r: nat, pc: Pc, calls: seq<Event>, q: nat)
    requires AllMatched(n, prog) && r < n && PcOk(n, prog, r, pc) && q < n && Counted(n, prog, r, pc, calls, q)
    requires pc.round < |prog| && pc.flushed && pc.waited == |prog[pc.round].parts[r].recvs|
    ensures PcOk(n, prog, r, Pc(pc.round + 1, 0, false, false, 0))
    ensures Counted(n, prog, r, Pc(pc.round + 1, 0, false, false, 0), calls, q)
  {
    var recvs, pc' := prog[pc.round].parts[r].recvs, Pc(pc.round + 1, 0, false, false, 0);
    assert recvs[..pc.posted] == recvs == recvs[..pc.waited];
    assert Posted(n, prog, q, r, pc') == RecvCount(n, prog, q, r, pc.round + 1) == Posted(n, prog, q, r, pc);
    assert Consumed(n, prog, q, r, pc') == RecvCount(n, prog, q, r, pc.round + 1) == Consumed(n, prog, q, r, pc);
    assert RoundsSent(pc') == RoundsSent(pc);
  }

  lemma CountedFlush(n: nat, prog: Program, r: nat, pc: Pc, calls: seq<Event>, q: nat)
    requires AllMatched(n, prog) && r < n && PcOk(n, prog, r, pc) && Counted(n, prog, r, pc, calls, q) && pc.sent
    ensures PcOk(n, prog, r, pc.(flushed := true)) && Counted(n, prog, r, pc.(flushed := true), calls, q)
  {
    PostedSame(n, prog, q, r, pc, pc.(flushed := true));
    ConsumedSame(n, prog, q, r, pc, pc.(flushed := true));
  }

  function NextPc(pc: Pc, step: Step): Pc {
    match step
    case Post(_) => pc.(posted := pc.posted + 1)
    case Send(_) => pc.(sent := true)
    case Flush(_) => pc.(flushed := true)
    case Wait(_) => pc.(waited := pc.waited + 1)
    case Next(_) => Pc(pc.round + 1, 0, false, false, 0)
  }

  lemma OnlyMover<V>(op: (V, V) -> V, n: nat, prog: Program, s: State<V>, step: Step)
    requires Shape(n, prog, s) && Enabled(n, prog, false, s, step)
    ensures Do(op, n, prog, s, step).pcs[step.rank] == NextPc(s.pcs[step.rank], step)
    ensures forall q | 0 <= q < n && q != step.rank :: Do(op, n, prog, s, step).pcs[q] == s.pcs[q]
  {
  }

  // A step of the rank counts for the call it makes, and for no other.
  lemma CountedStep<V>(op: (V, V) -> V, n: nat, prog: Program, s: State<V>, step: Step, calls: seq<Event>, q: nat)
    requires Shape(n, prog, s) && Enabled(n, prog, false, s, step) && q < n
    requires Counted(n, prog, step.rank, s.pcs[step.rank], calls, q)
    ensures PcOk(n, prog, step.rank, NextPc(s.pcs[step.rank], step))
    ensures Counted(n, prog, step.rank, NextPc(s.pcs[step.rank], step), calls + StepEvents(n, prog, s, step), q)
  {
    var r, pc := step.rank, s.pcs[step.rank];
    var pc', recvs := NextPc(pc, step), prog[pc.round].parts[r].recvs;
    match step
    case Post(_) => CountedPost(n, prog, r, pc, pc', calls, recvs[pc.posted], q);
    case Wait(_) => CountedWait(n, prog, r, pc, pc', calls, recvs[pc.waited], q);
    case Send(_) => CountedSend(n, prog, r, pc, pc', calls, q);
    case Flush(_) =>
      assert calls + [] == calls;
      CountedFlush(n, prog, r, pc, calls, q);
    case Next(_) =>
      assert calls + [] == calls;
      CountedNext(n, prog, r, pc, calls, q);
  }

  lemma {:induction false} CountedRun<V>(op: (V, V) -> V, prog: Program, init: seq<V>, strict: bool, steps: seq<Step>,
                                         r: nat, q: nat)
    requires AllMatched(|init|, prog) && Run(op, prog, init, strict, steps).Some? && r < |init| && q < |init|
    ensures Counted(|init|, prog, r, Run(op, prog, init, strict, steps).value.pcs[r],
                    Performed(op, prog, init, strict, steps, r), q)
  {
    if steps != [] {
      var before, step := steps[..|steps| - 1], steps[|steps| - 1];
      CountedRun(op, prog, init, strict, before, r, q);
      var s := Run(op, prog, init, strict, before).value;
      OnlyMover(op, |init|, prog, s, step);
      if step.rank == r {
        CountedStep(op, |init|, prog, s, step, Performed(op, prog, init, strict, before, r), q);
      } else {
        assert Performed(op, prog, init, strict, before, r) + [] == Performed(op, prog, init, strict, before, r);
      }
    }
  }

  // In every reachable state, for every ordered pair of ranks: what is in the channel and
  // what has been waited for is what was sent, and nothing is waited for that was not
  // posted.
  lemma CallsConserved<V>(op: (V, V) -> V, prog: Program, init: seq<V>, strict: bool, steps: seq<Step>, s: nat, d: nat)
    requires AllMatched(|init|, prog) && Run(op, prog, init, strict, steps).Some? && s < |init| && d < |init|
    ensures |Run(op, prog, init, strict, steps).value.chans[(s, d)]|
              + multiset(Performed(op, prog, init, strict, steps, d))[WaitFor(s)]
         == multiset(Performed(op, prog, init, strict, steps, s))[SendTo(d)]
    ensures var calls := multiset(Performed(op, prog, init, strict, steps, d));
            calls[WaitFor(s)] <= calls[PostRecv(s)] <= calls[WaitFor(s)] + 1
  {
    var state := Run(op, prog, init, strict, steps).value;
    InvRun(op, prog, init, strict, steps);
    assert ChanOk(op, prog, init, state, s, d);
    CountedRun(op, prog, init, strict, steps, d, s);
    CountedRun(op, prog, init, strict, steps, s, d);
    WaitedIsPosted(|init|, prog, s, d, state.pcs[d]);
  }

  lemma WaitedIsPosted(n: nat, prog: Program, s: nat, d: nat, pc: Pc)
    requires AllMatched(n, prog) && d < n && PcOk(n, prog, d, pc)
    ensures Consumed(n, prog, s, d, pc) <= Posted(n, prog, s, d, pc) <= Consumed(n, prog, s, d, pc) + 1
  {
    if pc.round < |prog| && pc.waited > 0 {
      var recvs := prog[pc.round].parts[d].recvs;
      assert recvs[..pc.posted] == recvs;
    }
  }

  lemma SameCalls(calls: seq<Event>, more: seq<Event>, e: Event)
    ensures calls + more == calls + [e] <==> more == [e]
  {
    assert (calls + more)[|calls|..] == more && (calls + [e])[|calls|..] == [e];
  }

  lemma StepChannel<V>(op: (V, V) -> V, n: nat, prog: Program, s: State<V>, step: Step, a: nat, b: nat)
    requires Shape(n, prog, s) && Enabled(n, prog, false, s, step) && a < n && b < n
    ensures var before, after := s.chans[(a, b)], Do(op, n, prog, s, step).chans[(a, b)];
            && (|after| > |before| <==> step.rank == a && StepEvents(n, prog, s, step) == [SendTo(b)])
            && (|after| < |before| <==> step.rank == b && StepEvents(n, prog, s, step) == [WaitFor(a)])
  {
    assert Matched(n, prog[s.pcs[step.rank].round]);
  }

  // A step that makes the channel from s to d longer is one call of s, a send to d, and
  // one that makes it shorter is one call of d, a wait for s.
  lemma ChannelSteps<V>(op: (V, V) -> V, prog: Program, init: seq<V>, strict: bool, steps: seq<Step>, step: Step,
                        s: nat, d: nat)
    requires AllMatched(|init|, prog) && s < |init| && d < |init|
    requires Run(op, prog, init, strict, steps).Some? && Run(op, prog, init, strict, steps + [step]).Some?
    ensures var before, after := Run(op, prog, init, strict, steps).value.chans[(s, d)],
                                 Run(op, prog, init, strict, steps + [step]).value.chans[(s, d)];
            && (|after| > |before| <==>
                  Performed(op, prog, init, strict, steps + [step], s)
                  == Performed(op, prog, init, strict, steps, s) + [SendTo(d)])
            && (|after| < |before| <==>
                  Performed(op, prog, init, strict, steps + [step], d)
                  == Performed(op, prog, init, strict, steps, d) + [WaitFor(s)])
  {
    var all := steps + [step];
    assert all[..|all| - 1] == steps && all[|all| - 1] == step;
    var state := Run(op, prog, init, strict, steps).value;
    StepChannel(op, |init|, prog, state, step, s, d);
    var events := StepEvents(|init|, prog, state, step);
    SameCalls(Performed(op, prog, init, strict, steps, s), if step.rank == s then events else [], SendTo(d));
    SameCalls(Performed(op, prog, init, strict, steps, d), if step.rank == d then events else [], WaitFor(s));
  }

  // So in the calls of the loops every send has its posted receive and its wait.
  lemma LoopCalls(n: nat, prog: Program, s: nat, d: nat)
    requires AllMatched(n, prog) && s < n && d < n
    ensures multiset(RankEvents(n, prog, s))[SendTo(d)] == multiset(RankEvents(n, prog, d))[PostRecv(s)]
         == multiset(RankEvents(n, prog, d))[WaitFor(s)] == SendCount(n, prog, s, d, |prog|)
  {
    var op, init := (x: int, y: int) => x, seq(n, _ => 0);
    var steps := RunFinishes(op, prog, init, false, []);
    EveryRunPerforms(op, prog, init, false, steps, s);
    EveryRunPerforms(op, prog, init, false, steps, d);
    CountedRun(op, prog, init, false, steps, s, d);
    CountedRun(op, prog, init, false, steps, d, s);
    CountsAgree(n, prog, s, d, |prog|);
  }

  // ---------------------------------------------------------------------
  // Blocking sends.

  function RoundsReturned(pc: Pc): nat { pc.round + if pc.flushed then 1 else 0 }

  // The receive for every send of s that has returned is posted.
  ghost predicate ReturnedPosted(n: nat, prog: Program, s: nat, d: nat, mine: Pc, other: Pc)
    requires AllMatched(n, prog) && s < n && d < n && PcOk(n, prog, s, mine) && PcOk(n, prog, d, other)
  {
    SendCount(n, prog, s, d, RoundsReturned(mine)) <= Posted(n, prog, s, d, other)
  }

  lemma PostedGrows<V>(op: (V, V) -> V, n: nat, prog: Program, s: State<V>, step: Step, q: nat)
    requires Shape(n, prog, s) && Enabled(n, prog, false, s, step) && q < n
    ensures Posted(n, prog, q, step.rank, Do(op, n, prog, s, step).pcs[step.rank])
         >= Posted(n, prog, q, step.rank, s.pcs[step.rank])
  {
    var pc := s.pcs[step.rank];
    var recvs := prog[pc.round].parts[step.rank].recvs;
    if step.Post? {
      assert recvs[..pc.posted + 1] == recvs[..pc.posted] + [recvs[pc.posted]];
    } else if step.Next? {
      assert recvs[..pc.posted] == recvs;
    }
  }

  lemma ReturnedGrows<V>(n: nat, prog: Program, s: State<V>, step: Step, q: nat)
    requires Shape(n, prog, s) && Enabled(n, prog, true, s, step) && q < n
    requires SendCount(n, prog, step.rank, q, RoundsReturned(s.pcs[step.rank]))
          <= Posted(n, prog, step.rank, q, s.pcs[q])
    ensures RoundsReturned(NextPc(s.pcs[step.rank], step)) <= |prog|
    ensures SendCount(n, prog, step.rank, q, RoundsReturned(NextPc(s.pcs[step.rank], step)))
         <= Posted(n, prog, step.rank, q, s.pcs[q])
  {
    var r, pc := step.rank, s.pcs[step.rank];
    if step.Flush? {
      FlushReturned(n, prog, r, q, pc);
    } else {
      assert RoundsReturned(NextPc(pc, step)) == RoundsReturned(pc);
    }
  }

  lemma FlushReturned(n: nat, prog: Program, r: nat, q: nat, pc: Pc)
    requires AllMatched(n, prog) && r < n && pc.round < |prog| && !pc.flushed && pc.sent
    ensures RoundsReturned(pc.(flushed := true)) == RoundsSent(pc) == RoundsReturned(pc) + 1
    ensures prog[pc.round].parts[r].dst != Some(q) ==>
              SendCount(n, prog, r, q, RoundsSent(pc)) == SendCount(n, prog, r, q, RoundsReturned(pc))
  {
  }

  lemma ReturnedPostedStep<V>(op: (V, V) -> V, n: nat, prog: Program, s: State<V>, step: Step, a: nat, b: nat)
    requires Shape(n, prog, s) && Enabled(n, prog, true, s, step) && a < n && b < n
    requires ReturnedPosted(n, prog, a, b, s.pcs[a], s.pcs[b])
    ensures ReturnedPosted(n, prog, a, b, Do(op, n, prog, s, step).pcs[a], Do(op, n, prog, s, step).pcs[b])
  {
    OnlyMover(op, n, prog, s, step);
    if step.rank == a {
      ReturnedGrows(n, prog, s, step, b);
    }
    if step.rank == b {
      PostedGrows(op, n, prog, s, step, a);
    }
  }

  lemma {:induction false} ReturnedPostedRun<V>(op: (V, V) -> V, prog: Program, init: seq<V>, steps: seq<Step>, a: nat,
                                                b: nat)
    requires AllMatched(|init|, prog) && Run(op, prog, init, true, steps).Some? && a < |init| && b < |init|
    ensures var pcs := Run(op, prog, init, true, steps).value.pcs; ReturnedPosted(|init|, prog, a, b, pcs[a], pcs[b])
  {
    if steps != [] {
      var before := steps[..|steps| - 1];
      ReturnedPostedRun(op, prog, init, before, a, b);
      ReturnedPostedStep(op, |init|, prog, Run(op, prog, init, true, before).value, steps[|steps| - 1], a, b);
    }
  }

  lemma SentReturned(n: nat, prog: Program, s: nat, d: nat, pc: Pc)
    requires AllMatched(n, prog) && s < n && PcOk(n, prog, s, pc)
    ensures SendCount(n, prog, s, d, RoundsSent(pc))
         <= SendCount(n, prog, s, d, RoundsReturned(pc)) + if pc.sent && !pc.flushed then 1 else 0
  {
  }

  // If sends block, at most the last send of a rank is one whose receive is not posted, and
  // only until that send returns.
  lemma BlockingSends<V>(op: (V, V) -> V, prog: Program, init: seq<V>, steps: seq<Step>, s: nat, d: nat)
    requires AllMatched(|init|, prog) && Run(op, prog, init, true, steps).Some? && s < |init| && d < |init|
    ensures var pc := Run(op, prog, init, true, steps).value.pcs[s];
            multiset(Performed(op, prog, init, true, steps, s))[SendTo(d)]
            <= multiset(Performed(op, prog, init, true, steps, d))[PostRecv(s)]
               + if pc.sent && !pc.flushed then 1 else 0
  {
    ReturnedPostedRun(op, prog, init, steps, s, d);
    CountedRun(op, prog, init, true, steps, s, d);
    CountedRun(op, prog, init, true, steps, d, s);
    SentReturned(|init|, prog, s, d, Run(op, prog, init, true, steps).value.pcs[s]);
  }
}
