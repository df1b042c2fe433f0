// What holds of whole runs: progress, a bound on their length, their result,
// causality between ranks, and the sequence of calls each rank performs.
module Runs {
  import opened Basics
  import opened Network
  import opened Interleaving

  // ---------------------------------------------------------------------
  // Progress.

  lemma SlowestRank<V>(n: nat, prog: Program, s: State<V>) returns (r: nat)
    requires Shape(n, prog, s) && 0 < n
    ensures r < n && forall q | 0 <= q < n :: s.pcs[r].round <= s.pcs[q].round
  {
    r := 0;
    for q := 1 to n
      invariant r < n && forall q' | 0 <= q' < q :: s.pcs[r].round <= s.pcs[q'].round
    {
      if s.pcs[q].round < s.pcs[r].round {
        r := q;
      }
    }
  }

  lemma {:induction false} RecvMonotone(n: nat, prog: Program, s: nat, d: nat, i: nat, j: nat)
    requires AllMatched(n, prog) && d < n && i <= j <= |prog|
    ensures RecvCount(n, prog, s, d, i) <= RecvCount(n, prog, s, d, j)
  {
    if i < j {
      RecvMonotone(n, prog, s, d, i, j - 1);
    }
  }

  // A strict send returns once no rank is behind round m and round m is fully posted.
  lemma FlushEnabled<V>(op: (V, V) -> V, prog: Program, init: seq<V>, s: State<V>, m: nat, r: nat)
    requires Inv(op, prog, init, s) && m < |prog| && r < |init|
    requires forall q | 0 <= q < |init| :: m <= s.pcs[q].round && (s.pcs[q].round == m ==> s.pcs[q].sent)
    requires s.pcs[r].round == m && !s.pcs[r].flushed
    ensures Enabled(|init|, prog, true, s, Flush(r))
  {
    var n, part := |init|, prog[m].parts[r];
    if part.dst.Some? {
      assert Matched(n, prog[m]);
      var d := part.dst.value;
      var pc := s.pcs[d];
      var recvs := prog[m].parts[d].recvs;
      assert r in recvs;
      CountsAgree(n, prog, r, d, m + 1);
      if pc.round == m {
        assert recvs[..pc.posted] == recvs;
        CountsAgree(n, prog, r, d, m);
      } else {
        RecvMonotone(n, prog, r, d, m + 1, pc.round);
      }
    }
  }

  // A receive completes once no rank is behind round m and round m is fully sent.
  lemma WaitEnabled<V>(op: (V, V) -> V, prog: Program, init: seq<V>, s: State<V>, m: nat, r: nat)
    requires Inv(op, prog, init, s) && m < |prog| && r < |init|
    requires forall q | 0 <= q < |init| :: m <= s.pcs[q].round && (s.pcs[q].round == m ==> s.pcs[q].flushed)
    requires s.pcs[r].round == m && s.pcs[r].waited < |prog[m].parts[r].recvs|
    ensures Enabled(|init|, prog, true, s, Wait(r))
  {
    var n, pc := |init|, s.pcs[r];
    var recvs := prog[m].parts[r].recvs;
    var src := recvs[pc.waited];
    assert Matched(n, prog[m]);
    assert prog[m].parts[src].dst == Some(r);
    assert src !in recvs[..pc.waited];
    var e := RoundsSent(s.pcs[src]);
    CountMonotone(n, prog, src, r, m + 1, e);
    CountsAgree(n, prog, src, r, m);
    assert ChanOk(op, prog, init, s, src, r);
  }

  // No reachable state is stuck, even when every send blocks until its receive is posted.
  lemma Progress<V>(op: (V, V) -> V, prog: Program, init: seq<V>, s: State<V>) returns (step: Step)
    requires Inv(op, prog, init, s) && !Finished(prog, s)
    ensures Enabled(|init|, prog, true, s, step)
  {
    var n := |init|;
    var r := SlowestRank(n, prog, s);
    var m := s.pcs[r].round;
    if q :| 0 <= q < n && s.pcs[q].round == m && !s.pcs[q].sent {
      step := if s.pcs[q].posted < |prog[m].parts[q].recvs| then Post(q) else Send(q);
    } else if q :| 0 <= q < n && s.pcs[q].round == m && !s.pcs[q].flushed {
      FlushEnabled(op, prog, init, s, m, q);
      step := Flush(q);
    } else if s.pcs[r].waited < |prog[m].parts[r].recvs| {
      WaitEnabled(op, prog, init, s, m, r);
      step := Wait(r);
    } else {
      step := Next(r);
    }
  }

  // ---------------------------------------------------------------------
  // Length of runs.

  // The steps rank r makes in its first i rounds.
  ghost function Work(n: nat, prog: Program, r: nat, i: nat): nat
    requires AllMatched(n, prog) && r < n && i <= |prog|
  {
    if i == 0 then 0 else Work(n, prog, r, i - 1) + 2 * |prog[i - 1].parts[r].recvs| + 3
  }

  ghost function StepsDone(n: nat, prog: Program, r: nat, pc: Pc): nat
    requires AllMatched(n, prog) && r < n && PcOk(n, prog, r, pc)
  {
    Work(n, prog, r, pc.round) + pc.posted + (if pc.sent then 1 else 0) + (if pc.flushed then 1 else 0) + pc.waited
  }

  lemma {:induction false} WorkMonotone(n: nat, prog: Program, r: nat, i: nat, j: nat)
    requires AllMatched(n, prog) && r < n && i <= j <= |prog|
    ensures Work(n, prog, r, i) <= Work(n, prog, r, j)
    ensures i < j ==> Work(n, prog, r, i) + 2 * |prog[i].parts[r].recvs| + 3 <= Work(n, prog, r, j)
  {
    if i < j {
      WorkMonotone(n, prog, r, i, j - 1);
    }
  }

  lemma DoneBound(n: nat, prog: Program, r: nat, pc: Pc)
    requires AllMatched(n, prog) && r < n && PcOk(n, prog, r, pc)
    ensures StepsDone(n, prog, r, pc) <= Work(n, prog, r, |prog|)
    ensures StepsDone(n, prog, r, pc) == Work(n, prog, r, |prog|) <==> pc.round == |prog|
  {
    WorkMonotone(n, prog, r, pc.round, |prog|);
  }

  function Sum(xs: seq<nat>): nat { if xs == [] then 0 else Sum(xs[..|xs| - 1]) + xs[|xs| - 1] }

  lemma {:induction false} SumIncrement(xs: seq<nat>, r: nat)
    requires r < |xs|
    ensures Sum(xs[r := xs[r] + 1]) == Sum(xs) + 1
  {
    var last := |xs| - 1;
    var ys := xs[r := xs[r] + 1];
    if r == last {
      assert ys[..last] == xs[..last];
    } else {
      SumIncrement(xs[..last], r);
      assert ys[..last] == xs[..last][r := xs[r] + 1];
    }
  }

  lemma {:induction false} SumBelow(xs: seq<nat>, ys: seq<nat>)
    requires |xs| == |ys| && forall r | 0 <= r < |xs| :: xs[r] <= ys[r]
    ensures Sum(xs) <= Sum(ys)
    ensures Sum(xs) == Sum(ys) <==> xs == ys
  {
    if xs != [] {
      var last := |xs| - 1;
      SumBelow(xs[..last], ys[..last]);
      assert xs == xs[..last] + [xs[last]] && ys == ys[..last] + [ys[last]];
    }
  }

  lemma {:induction false} SumZero(xs: seq<nat>)
    requires forall r | 0 <= r < |xs| :: xs[r] == 0
    ensures Sum(xs) == 0
  {
    if xs != [] {
      SumZero(xs[..|xs| - 1]);
    }
  }

  ghost function AllDone(n: nat, prog: Program, pcs: seq<Pc>): (xs: seq<nat>)
    requires AllMatched(n, prog) && |pcs| == n
    requires forall r | 0 <= r < n :: PcOk(n, prog, r, pcs[r])
    ensures |xs| == n && forall r | 0 <= r < n :: xs[r] == StepsDone(n, prog, r, pcs[r])
  {
    seq(n, r requires 0 <= r < n => StepsDone(n, prog, r, pcs[r]))
  }

  ghost function AllWork(n: nat, prog: Program): (xs: seq<nat>)
    requires AllMatched(n, prog)
    ensures |xs| == n && forall r | 0 <= r < n :: xs[r] == Work(n, prog, r, |prog|)
  {
    seq(n, r requires 0 <= r < n => Work(n, prog, r, |prog|))
  }

  // The length of a complete run.
  ghost function TotalWork(n: nat, prog: Program): nat
    requires AllMatched(n, prog)
  {
    Sum(AllWork(n, prog))
  }

  lemma OneStepDone<V>(op: (V, V) -> V, n: nat, prog: Program, s: State<V>, step: Step)
    requires Shape(n, prog, s) && Enabled(n, prog, false, s, step)
    ensures var s' := Do(op, n, prog, s, step); var r := step.rank;
            && StepsDone(n, prog, r, s'.pcs[r]) == StepsDone(n, prog, r, s.pcs[r]) + 1
            && forall q | 0 <= q < n && q != r :: s'.pcs[q] == s.pcs[q]
  {
  }

  lemma StepCounts<V>(op: (V, V) -> V, n: nat, prog: Program, s: State<V>, step: Step)
    requires Shape(n, prog, s) && Enabled(n, prog, false, s, step)
    ensures Sum(AllDone(n, prog, Do(op, n, prog, s, step).pcs)) == Sum(AllDone(n, prog, s.pcs)) + 1
  {
    var s' := Do(op, n, prog, s, step);
    var r := step.rank;
    OneStepDone(op, n, prog, s, step);
    var xs := AllDone(n, prog, s.pcs);
    assert AllDone(n, prog, s'.pcs) == xs[r := xs[r] + 1];
    SumIncrement(xs, r);
  }

  lemma {:induction false} RunLength<V>(op: (V, V) -> V, prog: Program, init: seq<V>, strict: bool, steps: seq<Step>)
    requires AllMatched(|init|, prog) && Run(op, prog, init, strict, steps).Some?
    ensures Sum(AllDone(|init|, prog, Run(op, prog, init, strict, steps).value.pcs)) == |steps|
  {
    if steps == [] {
      SumZero(AllDone(|init|, prog, Initial(prog, init).pcs));
    } else {
      var before := steps[..|steps| - 1];
      RunLength(op, prog, init, strict, before);
      StepCounts(op, |init|, prog, Run(op, prog, init, strict, before).value, steps[|steps| - 1]);
    }
  }

  lemma FinishedIsAllWork<V>(n: nat, prog: Program, s: State<V>)
    requires Shape(n, prog, s)
    ensures Sum(AllDone(n, prog, s.pcs)) <= TotalWork(n, prog)
    ensures Sum(AllDone(n, prog, s.pcs)) == TotalWork(n, prog) <==> Finished(prog, s)
  {
    var done, all := AllDone(n, prog, s.pcs), AllWork(n, prog);
    forall r: nat | r < n ensures done[r] <= all[r] && (done[r] == all[r] <==> s.pcs[r].round == |prog|) {
      DoneBound(n, prog, r, s.pcs[r]);
    }
    SumBelow(done, all);
  }

  // ---------------------------------------------------------------------
  // The main theorems about runs.

  ghost predicate Drained<V>(n: nat, s: State<V>) {
    forall a: nat, b: nat | a < n && b < n :: (a, b) in s.chans && s.chans[(a, b)] == []
  }

  // Every run, however its steps interleave and whichever sends block: it is no
  // longer than TotalWork; it can be continued exactly as long as some rank has
  // not finished, and that is exactly when it is shorter than TotalWork.
  lemma EveryRunCompletes<V>(op: (V, V) -> V, prog: Program, init: seq<V>, strict: bool, steps: seq<Step>)
    requires AllMatched(|init|, prog) && Run(op, prog, init, strict, steps).Some?
    ensures |steps| <= TotalWork(|init|, prog)
    ensures var s := Run(op, prog, init, strict, steps).value;
            && (Finished(prog, s) <==> |steps| == TotalWork(|init|, prog))
            && (Finished(prog, s) <==> !exists step :: Enabled(|init|, prog, true, s, step))
  {
    var s := Run(op, prog, init, strict, steps).value;
    InvRun(op, prog, init, strict, steps);
    RunLength(op, prog, init, strict, steps);
    FinishedIsAllWork(|init|, prog, s);
    if !Finished(prog, s) {
      var step := Progress(op, prog, init, s);
    }
  }

  // So every run is the beginning of a finished one.
  lemma {:induction false} RunFinishes<V>(op: (V, V) -> V, prog: Program, init: seq<V>, strict: bool, steps: seq<Step>)
    returns (all: seq<Step>)
    requires AllMatched(|init|, prog) && Run(op, prog, init, strict, steps).Some?
    ensures steps <= all && Run(op, prog, init, strict, all).Some?
    ensures Finished(prog, Run(op, prog, init, strict, all).value)
    decreases TotalWork(|init|, prog) - |steps|
  {
    var s := Run(op, prog, init, strict, steps).value;
    EveryRunCompletes(op, prog, init, strict, steps);
    if Finished(prog, s) {
      all := steps;
    } else {
      InvRun(op, prog, init, strict, steps);
      var step := Progress(op, prog, init, s);
      var longer := steps + [step];
      assert longer[..|steps|] == steps;
      EveryRunCompletes(op, prog, init, strict, longer);
      all := RunFinishes(op, prog, init, strict, longer);
    }
  }

  // A rank that has completed its first i rounds and not yet received anything in
  // the next one holds the lockstep value, whatever the other ranks are doing.
  lemma EveryRunAgrees<V>(op: (V, V) -> V, prog: Program, init: seq<V>, strict: bool, steps: seq<Step>, r: nat)
    requires AllMatched(|init|, prog) && Run(op, prog, init, strict, steps).Some? && r < |init|
    ensures var s := Run(op, prog, init, strict, steps).value;
            s.pcs[r].waited == 0 ==> s.accs[r] == Lock(op, prog, init, s.pcs[r].round)[r]
  {
    InvRun(op, prog, init, strict, steps);
  }

  // A completed run leaves the lockstep result in every rank and no message behind.
  lemma EveryRunResult<V>(op: (V, V) -> V, prog: Program, init: seq<V>, strict: bool, steps: seq<Step>)
    requires AllMatched(|init|, prog) && Run(op, prog, init, strict, steps).Some?
    requires Finished(prog, Run(op, prog, init, strict, steps).value)
    ensures Run(op, prog, init, strict, steps).value.accs == Exec(op, prog, init)
    ensures Drained(|init|, Run(op, prog, init, strict, steps).value)
  {
    var s := Run(op, prog, init, strict, steps).value;
    InvRun(op, prog, init, strict, steps);
    assert prog[..|prog|] == prog;
    forall a: nat, b: nat | a < |init| && b < |init| ensures s.chans[(a, b)] == [] {
      assert ChanOk(op, prog, init, s, a, b);
      CountsAgree(|init|, prog, a, b, |prog|);
    }
  }

  // ---------------------------------------------------------------------
  // Causality: a rank past round i knows its sources have sent in round i.

  lemma ReceivedAtMostSent<V>(op: (V, V) -> V, prog: Program, init: seq<V>, s: State<V>, i: nat, d: nat, src: nat)
    requires Inv(op, prog, init, s) && d < |init| && src < |init| && i <= s.pcs[d].round
    ensures SendCount(|init|, prog, src, d, i) <= SendCount(|init|, prog, src, d, RoundsSent(s.pcs[src]))
  {
    var n := |init|;
    var consumed := Consumed(n, prog, src, d, s.pcs[d]);
    CountsAgree(n, prog, src, d, i);
    RecvMonotone(n, prog, src, d, i, s.pcs[d].round);
    assert ChanOk(op, prog, init, s, src, d);
    assert consumed <= SendCount(n, prog, src, d, RoundsSent(s.pcs[src]));
  }

  lemma ReceivedMeansSent<V>(op: (V, V) -> V, prog: Program, init: seq<V>, s: State<V>, i: nat, d: nat, src: nat)
    requires Inv(op, prog, init, s) && d < |init| && src < |init|
    requires i < s.pcs[d].round && src in prog[i].parts[d].recvs
    ensures i < RoundsSent(s.pcs[src])
  {
    var n, e := |init|, RoundsSent(s.pcs[src]);
    assert Matched(n, prog[i]);
    assert prog[i].parts[src].dst == Some(d);
    assert SendCount(n, prog, src, d, i + 1) == SendCount(n, prog, src, d, i) + 1;
    ReceivedAtMostSent(op, prog, init, s, i + 1, d, src);
    if e <= i {
      CountMonotone(n, prog, src, d, e, i);
    }
  }

  // The same fact for every reachable state, in terms of positions only.
  ghost predicate Causal(n: nat, prog: Program, pcs: seq<Pc>) {
    && AllMatched(n, prog) && |pcs| == n
    && (forall r | 0 <= r < n :: PcOk(n, prog, r, pcs[r]))
    && (forall i: nat, d: nat, src: nat ::
          d < n && i < pcs[d].round && src in prog[i].parts[d].recvs ==> src < n && i < RoundsSent(pcs[src]))
  }

  lemma RunIsCausal<V>(op: (V, V) -> V, prog: Program, init: seq<V>, strict: bool, steps: seq<Step>)
    requires AllMatched(|init|, prog) && Run(op, prog, init, strict, steps).Some?
    ensures Causal(|init|, prog, Run(op, prog, init, strict, steps).value.pcs)
  {
    var s := Run(op, prog, init, strict, steps).value;
    InvRun(op, prog, init, strict, steps);
    forall i: nat, d: nat, src: nat | d < |init| && i < s.pcs[d].round && src in prog[i].parts[d].recvs
      ensures src < |init| && i < RoundsSent(s.pcs[src])
    {
      assert Matched(|init|, prog[i]);
      ReceivedMeansSent(op, prog, init, s, i, d, src);
    }
  }

  // ---------------------------------------------------------------------
  // The calls a rank performs: posting a receive, sending, waiting.

  datatype Event = PostRecv(src: nat) | SendTo(dst: nat) | WaitFor(src: nat)

  function Posts(srcs: seq<nat>): (es: seq<Event>)
    ensures |es| == |srcs|
  {
    seq(|srcs|, j requires 0 <= j < |srcs| => PostRecv(srcs[j]))
  }

  function Waits(srcs: seq<nat>): (es: seq<Event>)
    ensures |es| == |srcs|
  {
    seq(|srcs|, j requires 0 <= j < |srcs| => WaitFor(srcs[j]))
  }

  function Sends(dst: Option<nat>): seq<Event> {
    if dst.Some? then [SendTo(dst.value)] else []
  }

  function PartEvents(part: Part): seq<Event> {
    Posts(part.recvs) + Sends(part.dst) + Waits(part.recvs)
  }

  // The calls rank r makes in its whole program.
  ghost function RankEvents(n: nat, prog: Program, r: nat): seq<Event>
    requires AllMatched(n, prog) && r < n
  {
    if prog == [] then []
    else
      assert AllMatched(n, prog[1..]) && Matched(n, prog[0]);
      PartEvents(prog[0].parts[r]) + RankEvents(n, prog[1..], r)
  }

  lemma {:induction false} RankEventsConcat(n: nat, a: Program, b: Program, r: nat)
    requires AllMatched(n, a) && AllMatched(n, b) && r < n
    ensures AllMatched(n, a + b)
    ensures RankEvents(n, a + b, r) == RankEvents(n, a, r) + RankEvents(n, b, r)
  {
    if a == [] {
      assert a + b == b;
    } else {
      assert (a + b)[1..] == a[1..] + b;
      RankEventsConcat(n, a[1..], b, r);
      assert Matched(n, a[0]);
      ConcatAssociative(PartEvents(a[0].parts[r]), RankEvents(n, a[1..], r), RankEvents(n, b, r));
    }
  }

  // The calls made by the time the rank is at pc.
  ghost function EventsAt(n: nat, prog: Program, r: nat, pc: Pc): seq<Event>
    requires AllMatched(n, prog) && r < n && PcOk(n, prog, r, pc)
  {
    RankEvents(n, prog[..pc.round], r) + if pc.round == |prog| then [] else RoundEvents(prog[pc.round].parts[r], pc)
  }

  function RoundEvents(part: Part, pc: Pc): seq<Event>
    requires pc.posted <= |part.recvs| && pc.waited <= |part.recvs|
  {
    Posts(part.recvs[..pc.posted]) + (if pc.sent then Sends(part.dst) else []) + Waits(part.recvs[..pc.waited])
  }

  // The call performed by a step, if it is one.
  ghost function StepEvents<V>(n: nat, prog: Program, s: State<V>, step: Step): seq<Event>
    requires Shape(n, prog, s) && Enabled(n, prog, false, s, step)
  {
    var pc := s.pcs[step.rank];
    var part := prog[pc.round].parts[step.rank];
    match step
    case Post(_) => [PostRecv(part.recvs[pc.posted])]
    case Send(_) => Sends(part.dst)
    case Wait(_) => [WaitFor(part.recvs[pc.waited])]
    case _ => []
  }

  lemma NextPerforms(n: nat, prog: Program, r: nat, pc: Pc)
    requires AllMatched(n, prog) && r < n && PcOk(n, prog, r, pc) && pc.round < |prog| && pc.sent
    requires pc.waited == |prog[pc.round].parts[r].recvs|
    ensures EventsAt(n, prog, r, Pc(pc.round + 1, 0, false, false, 0)) == EventsAt(n, prog, r, pc)
  {
    var part := prog[pc.round].parts[r];
    assert part.recvs[..pc.posted] == part.recvs == part.recvs[..pc.waited];
    var one := [prog[pc.round]];
    assert prog[..pc.round + 1] == prog[..pc.round] + one;
    RankEventsConcat(n, prog[..pc.round], one, r);
    assert RankEvents(n, one, r) == PartEvents(part);
    if pc.round + 1 < |prog| {
      var next := prog[pc.round + 1].parts[r].recvs;
      assert Posts(next[..0]) == [] && Waits(next[..0]) == [];
    }
  }

  // One more receive posted, or waited for.
  lemma PostPerforms(recvs: seq<nat>, k: nat)
    requires k < |recvs|
    ensures Posts(recvs[..k + 1]) == Posts(recvs[..k]) + [PostRecv(recvs[k])]
    ensures Waits(recvs[..k + 1]) == Waits(recvs[..k]) + [WaitFor(recvs[k])]
  {
  }

  // A step within a round.
  lemma InRoundPerforms(n: nat, prog: Program, r: nat, pc: Pc, pc': Pc, more: seq<Event>)
    requires AllMatched(n, prog) && r < n && PcOk(n, prog, r, pc) && PcOk(n, prog, r, pc')
    requires pc'.round == pc.round < |prog|
    requires RoundEvents(prog[pc.round].parts[r], pc') == RoundEvents(prog[pc.round].parts[r], pc) + more
    ensures EventsAt(n, prog, r, pc') == EventsAt(n, prog, r, pc) + more
  {
  }

  lemma StepPerforms<V>(op: (V, V) -> V, n: nat, prog: Program, s: State<V>, step: Step)
    requires Shape(n, prog, s) && Enabled(n, prog, false, s, step)
    ensures var r := step.rank; var s' := Do(op, n, prog, s, step);
            EventsAt(n, prog, r, s'.pcs[r]) == EventsAt(n, prog, r, s.pcs[r]) + StepEvents(n, prog, s, step)
  {
    var r := step.rank;
    var pc, pc' := s.pcs[r], Do(op, n, prog, s, step).pcs[r];
    var recvs := prog[pc.round].parts[r].recvs;
    match step
    case Post(_) =>
      PostPerforms(recvs, pc.posted);
      InRoundPerforms(n, prog, r, pc, pc', [PostRecv(recvs[pc.posted])]);
    case Send(_) =>
      assert Waits(recvs[..0]) == [];
      InRoundPerforms(n, prog, r, pc, pc', Sends(prog[pc.round].parts[r].dst));
    case Flush(_) =>
    case Wait(_) =>
      PostPerforms(recvs, pc.waited);
      InRoundPerforms(n, prog, r, pc, pc', [WaitFor(recvs[pc.waited])]);
    case Next(_) =>
      NextPerforms(n, prog, r, pc);
  }

  // The calls rank r makes along a run.
  ghost function Performed<V>(op: (V, V) -> V, prog: Program, init: seq<V>, strict: bool, steps: seq<Step>, r: nat)
    : seq<Event>
    requires AllMatched(|init|, prog) && Run(op, prog, init, strict, steps).Some?
  {
    if steps == [] then []
    else
      var before := steps[..|steps| - 1];
      var step := steps[|steps| - 1];
      Performed(op, prog, init, strict, before, r) +
      if step.rank == r then StepEvents(|init|, prog, Run(op, prog, init, strict, before).value, step) else []
  }

  lemma {:induction false} PerformedAt<V>(op: (V, V) -> V, prog: Program, init: seq<V>, strict: bool,
                                               steps: seq<Step>, r: nat)
    requires AllMatched(|init|, prog) && Run(op, prog, init, strict, steps).Some? && r < |init|
    ensures Performed(op, prog, init, strict, steps, r)
         == EventsAt(|init|, prog, r, Run(op, prog, init, strict, steps).value.pcs[r])
  {
    if steps == [] {
      assert prog[..0] == [];
      if prog != [] {
        assert Posts(prog[0].parts[r].recvs[..0]) == [] && Waits(prog[0].parts[r].recvs[..0]) == [];
      }
    } else {
      var before := steps[..|steps| - 1];
      PerformedAt(op, prog, init, strict, before, r);
      StepPerforms(op, |init|, prog, Run(op, prog, init, strict, before).value, steps[|steps| - 1]);
    }
  }

  // In every completed run each rank performs exactly the calls of its loop, in loop order.
  lemma EveryRunPerforms<V>(op: (V, V) -> V, prog: Program, init: seq<V>, strict: bool, steps: seq<Step>, r: nat)
    requires AllMatched(|init|, prog) && Run(op, prog, init, strict, steps).Some? && r < |init|
    requires Finished(prog, Run(op, prog, init, strict, steps).value)
    ensures Performed(op, prog, init, strict, steps, r) == RankEvents(|init|, prog, r)
  {
    PerformedAt(op, prog, init, strict, steps, r);
    assert prog[..|prog|] == prog;
  }
}
