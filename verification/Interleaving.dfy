// Every interleaving of the concurrent machine computes the lockstep result,
// delivers every message, makes progress, and is bounded.
module Interleaving {
  import opened Basics
  import opened Network

  // ---------------------------------------------------------------------
  // Counting messages on one channel.

  lemma {:induction false} CountsAgree(n: nat, prog: Program, s: nat, d: nat, i: nat)
    requires AllMatched(n, prog) && s < n && d < n && i <= |prog|
    ensures SendCount(n, prog, s, d, i) == RecvCount(n, prog, s, d, i)
  {
    if i > 0 {
      CountsAgree(n, prog, s, d, i - 1);
      assert Matched(n, prog[i - 1]);
    }
  }

  lemma {:induction false} CountMonotone(n: nat, prog: Program, s: nat, d: nat, i: nat, j: nat)
    requires AllMatched(n, prog) && s < n && i <= j <= |prog|
    ensures SendCount(n, prog, s, d, i) <= SendCount(n, prog, s, d, j)
  {
    if i < j {
      CountMonotone(n, prog, s, d, i, j - 1);
    }
  }

  // The buffers of all ranks when the lockstep execution reaches round i.
  ghost function Lock<V>(op: (V, V) -> V, prog: Program, init: seq<V>, i: nat): (out: seq<V>)
    requires AllMatched(|init|, prog) && i <= |prog|
    ensures |out| == |init|
  {
    Exec(op, prog[..i], init)
  }

  lemma LockStep<V>(op: (V, V) -> V, prog: Program, init: seq<V>, i: nat)
    requires AllMatched(|init|, prog) && i < |prog|
    ensures Matched(|init|, prog[i])
    ensures Lock(op, prog, init, i + 1) == ExecRound(op, prog[i], Lock(op, prog, init, i))
  {
    assert prog[..i + 1][..i] == prog[..i];
  }

  // The messages s sends to d in the first i rounds, in order.
  ghost function SentSeq<V>(op: (V, V) -> V, prog: Program, init: seq<V>, s: nat, d: nat, i: nat): (out: seq<V>)
    requires AllMatched(|init|, prog) && s < |init| && i <= |prog|
    ensures |out| == SendCount(|init|, prog, s, d, i)
  {
    if i == 0 then []
    else
      SentSeq(op, prog, init, s, d, i - 1) +
      (if prog[i - 1].parts[s].dst == Some(d) then [Lock(op, prog, init, i - 1)[s]] else [])
  }

  // The message that s sends to d in round i sits at index SendCount(.., i).
  lemma {:induction false} SentSeqAt<V>(op: (V, V) -> V, prog: Program, init: seq<V>, s: nat, d: nat, i: nat, e: nat)
    requires AllMatched(|init|, prog) && s < |init| && i < e <= |prog|
    requires prog[i].parts[s].dst == Some(d)
    ensures SendCount(|init|, prog, s, d, i) < SendCount(|init|, prog, s, d, e)
    ensures SentSeq(op, prog, init, s, d, e)[SendCount(|init|, prog, s, d, i)] == Lock(op, prog, init, i)[s]
  {
    if i + 1 < e {
      SentSeqAt(op, prog, init, s, d, i, e - 1);
    }
  }

  // ---------------------------------------------------------------------
  // The invariant of every reachable state.

  ghost function AccAt<V>(op: (V, V) -> V, prog: Program, init: seq<V>, r: nat, pc: Pc): V
    requires AllMatched(|init|, prog) && r < |init| && PcOk(|init|, prog, r, pc)
  {
    var lock := Lock(op, prog, init, pc.round);
    if pc.round == |prog| then lock[r]
    else Absorb(prog[pc.round].mode, op, lock[r], lock, prog[pc.round].parts[r].recvs[..pc.waited])
  }

  // chan holds what a has sent to b in its first e rounds, less the first c messages.
  ghost predicate ChanAt<V>(op: (V, V) -> V, prog: Program, init: seq<V>, chan: seq<V>, a: nat, b: nat, e: nat, c: nat)
    requires AllMatched(|init|, prog) && a < |init| && e <= |prog|
  {
    var sent := SentSeq(op, prog, init, a, b, e);
    c <= |sent| && chan == sent[c..]
  }

  ghost predicate ChanOk<V>(op: (V, V) -> V, prog: Program, init: seq<V>, s: State<V>, a: nat, b: nat)
    requires Shape(|init|, prog, s) && a < |init| && b < |init|
  {
    ChanAt(op, prog, init, s.chans[(a, b)], a, b, RoundsSent(s.pcs[a]), Consumed(|init|, prog, a, b, s.pcs[b]))
  }

  ghost predicate Inv<V>(op: (V, V) -> V, prog: Program, init: seq<V>, s: State<V>) {
    && Shape(|init|, prog, s)
    && (forall r | 0 <= r < |init| :: s.accs[r] == AccAt(op, prog, init, r, s.pcs[r]))
    && (forall a: nat, b: nat | a < |init| && b < |init| :: ChanOk(op, prog, init, s, a, b))
  }

  lemma InvInitial<V>(op: (V, V) -> V, prog: Program, init: seq<V>)
    requires AllMatched(|init|, prog)
    ensures Inv(op, prog, init, Initial(prog, init))
  {
    assert prog[..0] == [];
  }

  // A rank that can wait for src in round i finds exactly the message src sent in round i.
  lemma HeadOfChannel<V>(op: (V, V) -> V, prog: Program, init: seq<V>, s: State<V>, r: nat)
    requires Inv(op, prog, init, s) && Enabled(|init|, prog, false, s, Wait(r))
    ensures var pc := s.pcs[r]; var src := prog[pc.round].parts[r].recvs[pc.waited];
            src < |init|
            && s.chans[(src, r)][0] == Lock(op, prog, init, pc.round)[src]
            && RoundsSent(s.pcs[src]) > pc.round
            && Consumed(|init|, prog, src, r, pc) == SendCount(|init|, prog, src, r, pc.round)
  {
    var n, pc := |init|, s.pcs[r];
    var recvs := prog[pc.round].parts[r].recvs;
    var src := recvs[pc.waited];
    assert Matched(n, prog[pc.round]);
    assert src < n && prog[pc.round].parts[src].dst == Some(r);
    assert src !in recvs[..pc.waited];
    CountsAgree(n, prog, src, r, pc.round);
    assert ChanOk(op, prog, init, s, src, r);
    var e := RoundsSent(s.pcs[src]);
    if e <= pc.round {
      CountMonotone(n, prog, src, r, e, pc.round);
      assert false;
    }
    SentSeqAt(op, prog, init, src, r, pc.round, e);
  }

  lemma ConsumedAtLoopEnd(n: nat, prog: Program, s: nat, d: nat, pc: Pc)
    requires AllMatched(n, prog) && s < n && d < n && PcOk(n, prog, d, pc)
    requires pc.round < |prog| && pc.waited == |prog[pc.round].parts[d].recvs|
    ensures Consumed(n, prog, s, d, pc) == RecvCount(n, prog, s, d, pc.round + 1)
  {
    var recvs := prog[pc.round].parts[d].recvs;
    assert recvs[..pc.waited] == recvs;
  }

  lemma AccStep<V>(op: (V, V) -> V, prog: Program, init: seq<V>, s: State<V>, step: Step)
    requires Inv(op, prog, init, s) && Enabled(|init|, prog, false, s, step)
    ensures var s' := Do(op, |init|, prog, s, step); var r := step.rank;
            s'.accs[r] == AccAt(op, prog, init, r, s'.pcs[r])
  {
    var r := step.rank;
    var pc := s.pcs[r];
    var recvs := prog[pc.round].parts[r].recvs;
    match step
    case Wait(_) =>
      HeadOfChannel(op, prog, init, s, r);
      assert recvs[..pc.waited + 1][..pc.waited] == recvs[..pc.waited];
    case Next(_) =>
      LockStep(op, prog, init, pc.round);
      assert recvs[..pc.waited] == recvs;
    case _ =>
  }

  lemma ChanAfterSend<V>(op: (V, V) -> V, prog: Program, init: seq<V>, chan: seq<V>, a: nat, b: nat, e: nat, c: nat)
    requires AllMatched(|init|, prog) && a < |init| && e < |prog|
    requires ChanAt(op, prog, init, chan, a, b, e, c)
    ensures ChanAt(op, prog, init,
                   if prog[e].parts[a].dst == Some(b) then chan + [Lock(op, prog, init, e)[a]] else chan,
                   a, b, e + 1, c)
  {
    var sent, next := SentSeq(op, prog, init, a, b, e), SentSeq(op, prog, init, a, b, e + 1);
    if prog[e].parts[a].dst == Some(b) {
      assert next == sent + [Lock(op, prog, init, e)[a]];
      assert next[c..] == sent[c..] + [Lock(op, prog, init, e)[a]];
    }
  }

  lemma SendEffect<V>(op: (V, V) -> V, n: nat, prog: Program, s: State<V>, r: nat, a: nat, b: nat)
    requires Shape(n, prog, s) && Enabled(n, prog, false, s, Send(r))
    requires a < n && b < n
    ensures var s' := Do(op, n, prog, s, Send(r)); var e := s.pcs[r].round;
            && RoundsSent(s.pcs[r]) == e < |prog|
            && Consumed(n, prog, a, b, s'.pcs[b]) == Consumed(n, prog, a, b, s.pcs[b])
            && RoundsSent(s'.pcs[a]) == (if a == r then e + 1 else RoundsSent(s.pcs[a]))
            && s'.chans[(a, b)] == (if a == r && prog[e].parts[a].dst == Some(b)
                                    then s.chans[(a, b)] + [s.accs[r]] else s.chans[(a, b)])
  {
  }

  lemma AccBeforeSend<V>(op: (V, V) -> V, prog: Program, init: seq<V>, s: State<V>, r: nat)
    requires Inv(op, prog, init, s) && Enabled(|init|, prog, false, s, Send(r))
    ensures s.accs[r] == Lock(op, prog, init, s.pcs[r].round)[r]
  {
    assert prog[s.pcs[r].round].parts[r].recvs[..s.pcs[r].waited] == [];
  }

  // A channel is undisturbed if neither end moved on it.
  lemma ChanSame<V>(op: (V, V) -> V, prog: Program, init: seq<V>, s: State<V>, s': State<V>, a: nat, b: nat)
    requires Shape(|init|, prog, s) && Shape(|init|, prog, s') && a < |init| && b < |init|
    requires ChanOk(op, prog, init, s, a, b) && s'.chans[(a, b)] == s.chans[(a, b)]
    requires RoundsSent(s'.pcs[a]) == RoundsSent(s.pcs[a])
    requires Consumed(|init|, prog, a, b, s'.pcs[b]) == Consumed(|init|, prog, a, b, s.pcs[b])
    ensures ChanOk(op, prog, init, s', a, b)
  {
  }

  lemma ChanSend<V>(op: (V, V) -> V, prog: Program, init: seq<V>, s: State<V>, r: nat, a: nat, b: nat)
    requires Inv(op, prog, init, s) && Enabled(|init|, prog, false, s, Send(r))
    requires a < |init| && b < |init|
    ensures ChanOk(op, prog, init, Do(op, |init|, prog, s, Send(r)), a, b)
  {
    SendEffect(op, |init|, prog, s, r, a, b);
    assert ChanOk(op, prog, init, s, a, b);
    if a == r {
      AccBeforeSend(op, prog, init, s, r);
      ChanAfterSend(op, prog, init, s.chans[(a, b)], a, b, s.pcs[r].round, Consumed(|init|, prog, a, b, s.pcs[b]));
    } else {
      ChanSame(op, prog, init, s, Do(op, |init|, prog, s, Send(r)), a, b);
    }
  }

  lemma ChanAfterWait<V>(op: (V, V) -> V, prog: Program, init: seq<V>, chan: seq<V>, a: nat, b: nat, e: nat, c: nat)
    requires AllMatched(|init|, prog) && a < |init| && e <= |prog|
    requires ChanAt(op, prog, init, chan, a, b, e, c) && chan != []
    ensures ChanAt(op, prog, init, chan[1..], a, b, e, c + 1)
  {
  }

  lemma ConsumedByWait(n: nat, prog: Program, s: nat, d: nat, pc: Pc)
    requires AllMatched(n, prog) && s < n && d < n && PcOk(n, prog, d, pc) && pc.flushed
    requires pc.waited < |prog[pc.round].parts[d].recvs|
    ensures var pc' := pc.(waited := pc.waited + 1);
            Consumed(n, prog, s, d, pc') ==
            Consumed(n, prog, s, d, pc) + (if s == prog[pc.round].parts[d].recvs[pc.waited] then 1 else 0)
  {
    var recvs := prog[pc.round].parts[d].recvs;
    assert Matched(n, prog[pc.round]);
    assert recvs[..pc.waited + 1] == recvs[..pc.waited] + [recvs[pc.waited]];
    assert recvs[pc.waited] !in recvs[..pc.waited];
  }

  lemma ChanWait<V>(op: (V, V) -> V, prog: Program, init: seq<V>, s: State<V>, r: nat, a: nat, b: nat)
    requires Inv(op, prog, init, s) && Enabled(|init|, prog, false, s, Wait(r))
    requires a < |init| && b < |init|
    ensures ChanOk(op, prog, init, Do(op, |init|, prog, s, Wait(r)), a, b)
  {
    var pc := s.pcs[r];
    var s' := Do(op, |init|, prog, s, Wait(r));
    assert ChanOk(op, prog, init, s, a, b);
    assert RoundsSent(s'.pcs[a]) == RoundsSent(s.pcs[a]);
    if b == r {
      ConsumedByWait(|init|, prog, a, b, pc);
      if a == prog[pc.round].parts[r].recvs[pc.waited] {
        ChanAfterWait(op, prog, init, s.chans[(a, b)], a, b, RoundsSent(s.pcs[a]), Consumed(|init|, prog, a, b, pc));
      }
    } else {
      assert s'.chans[(a, b)] == s.chans[(a, b)];
    }
  }

  lemma ConsumedSame(n: nat, prog: Program, s: nat, d: nat, pc: Pc, pc': Pc)
    requires AllMatched(n, prog) && d < n && PcOk(n, prog, d, pc) && PcOk(n, prog, d, pc')
    requires pc'.round == pc.round && pc'.waited == pc.waited
    ensures Consumed(n, prog, s, d, pc') == Consumed(n, prog, s, d, pc)
  {
  }

  lemma LocalStep<V>(op: (V, V) -> V, n: nat, prog: Program, s: State<V>, step: Step, a: nat, b: nat)
    requires Shape(n, prog, s) && Enabled(n, prog, false, s, step)
    requires step.Post? || step.Flush? || step.Next?
    requires a < n && b < n
    ensures var s' := Do(op, n, prog, s, step);
            && s'.chans == s.chans
            && RoundsSent(s'.pcs[a]) == RoundsSent(s.pcs[a])
            && Consumed(n, prog, a, b, s'.pcs[b]) == Consumed(n, prog, a, b, s.pcs[b])
  {
    var s' := Do(op, n, prog, s, step);
    if b == step.rank && step.Next? {
      ConsumedAtLoopEnd(n, prog, a, b, s.pcs[b]);
      assert s'.pcs[b] == Pc(s.pcs[b].round + 1, 0, false, false, 0);
    } else {
      ConsumedSame(n, prog, a, b, s.pcs[b], s'.pcs[b]);
    }
  }

  lemma ChanLocal<V>(op: (V, V) -> V, prog: Program, init: seq<V>, s: State<V>, step: Step, a: nat, b: nat)
    requires Inv(op, prog, init, s) && Enabled(|init|, prog, false, s, step)
    requires step.Post? || step.Flush? || step.Next?
    requires a < |init| && b < |init|
    ensures ChanOk(op, prog, init, Do(op, |init|, prog, s, step), a, b)
  {
    LocalStep(op, |init|, prog, s, step, a, b);
    assert ChanOk(op, prog, init, s, a, b);
    ChanSame(op, prog, init, s, Do(op, |init|, prog, s, step), a, b);
  }

  lemma InvStep<V>(op: (V, V) -> V, prog: Program, init: seq<V>, s: State<V>, step: Step)
    requires Inv(op, prog, init, s) && Enabled(|init|, prog, false, s, step)
    ensures Inv(op, prog, init, Do(op, |init|, prog, s, step))
  {
    var s' := Do(op, |init|, prog, s, step);
    AccStep(op, prog, init, s, step);
    forall a: nat, b: nat | a < |init| && b < |init| ensures ChanOk(op, prog, init, s', a, b) {
      match step
      case Send(r) => ChanSend(op, prog, init, s, r, a, b);
      case Wait(r) => ChanWait(op, prog, init, s, r, a, b);
      case _ => ChanLocal(op, prog, init, s, step, a, b);
    }
  }

  // Every state of every run satisfies the invariant.
  lemma {:induction false} InvRun<V>(op: (V, V) -> V, prog: Program, init: seq<V>, strict: bool, steps: seq<Step>)
    requires AllMatched(|init|, prog) && Run(op, prog, init, strict, steps).Some?
    ensures Inv(op, prog, init, Run(op, prog, init, strict, steps).value)
  {
    if steps == [] {
      InvInitial(op, prog, init);
    } else {
      var before := steps[..|steps| - 1];
      InvRun(op, prog, init, strict, before);
      InvStep(op, prog, init, Run(op, prog, init, strict, before).value, steps[|steps| - 1]);
    }
  }
}
