// N ranks run their loops concurrently over FIFO channels. A collective is a
// sequence of rounds (one per loop iteration); in a round a rank posts its
// receives, makes at most one blocking send, and waits for its receives in
// order. Steps of different ranks interleave in every possible way.
//
// The theory is developed once: as long as every round is matched (a rank sends
// to d exactly when d receives from it), all interleavings compute what the
// lockstep execution Exec computes, none of them deadlocks even if a send blocks
// until its receive is posted, and concatenating matched programs is safe on a
// single tag.
module Network {
  import opened Basics

  // What a completed receive does to the rank's buffer: combine it with what was
  // received, a plain receive into the buffer, or the zero-byte receive of a barrier.
  // An operator takes (in, inout); the received buffer is in, the rank's own is inout.
  datatype Mode = Fold | Overwrite | Discard

  datatype Part = Part(recvs: seq<nat>, dst: Option<nat>)
  datatype Round = Round(parts: seq<Part>, mode: Mode)
  type Program = seq<Round>

  ghost predicate Distinct(xs: seq<nat>) {
    forall i, j | 0 <= i < j < |xs| :: xs[i] != xs[j]
  }

  // The sends of a round are exactly the converse of its receives.
  ghost predicate Matched(n: nat, round: Round) {
    && |round.parts| == n
    && (forall d | 0 <= d < n :: Distinct(round.parts[d].recvs))
    && (forall d, j | 0 <= d < n && 0 <= j < |round.parts[d].recvs| :: round.parts[d].recvs[j] < n)
    && (forall s | 0 <= s < n :: round.parts[s].dst.Some? ==> round.parts[s].dst.value < n)
    && (forall s: nat, d: nat {:trigger s in round.parts[d].recvs} {:trigger round.parts[s].dst, Some(d)}
          | s < n && d < n ::
          round.parts[s].dst == Some(d) <==> s in round.parts[d].recvs)
  }

  ghost predicate AllMatched(n: nat, prog: Program) {
    forall i | 0 <= i < |prog| :: Matched(n, prog[i])
  }

  // ---------------------------------------------------------------------
  // The lockstep reference: every rank finishes a round before any starts
  // the next one.

  function Apply<V>(mode: Mode, op: (V, V) -> V, acc: V, m: V): V {
    match mode
    case Fold => op(m, acc)
    case Overwrite => m
    case Discard => acc
  }

  ghost predicate InRange(srcs: seq<nat>, n: nat) {
    forall j | 0 <= j < |srcs| :: srcs[j] < n
  }

  ghost function Absorb<V>(mode: Mode, op: (V, V) -> V, acc: V, vals: seq<V>, srcs: seq<nat>): V
    requires InRange(srcs, |vals|)
  {
    if srcs == [] then acc
    else
      var last := |srcs| - 1;
      assert InRange(srcs[..last], |vals|);
      Apply(mode, op, Absorb(mode, op, acc, vals, srcs[..last]), vals[srcs[last]])
  }

  lemma {:induction false} AbsorbCons<V>(mode: Mode, op: (V, V) -> V, acc: V, vals: seq<V>, src: nat, rest: seq<nat>)
    requires src < |vals| && InRange(rest, |vals|)
    ensures InRange([src] + rest, |vals|)
    ensures Absorb(mode, op, acc, vals, [src] + rest)
         == Absorb(mode, op, Apply(mode, op, acc, vals[src]), vals, rest)
    decreases |rest|
  {
    if rest == [] {
      assert [src] + rest == [src];
      assert [src][..0] == [];
    } else {
      var last := |rest| - 1;
      AbsorbCons(mode, op, acc, vals, src, rest[..last]);
      assert ([src] + rest)[..|rest|] == [src] + rest[..last];
    }
  }

  lemma {:induction false} AbsorbDiscard<V>(op: (V, V) -> V, acc: V, vals: seq<V>, srcs: seq<nat>)
    requires InRange(srcs, |vals|)
    ensures Absorb(Discard, op, acc, vals, srcs) == acc
  {
    if srcs != [] {
      AbsorbDiscard(op, acc, vals, srcs[..|srcs| - 1]);
    }
  }

  ghost function ExecRound<V>(op: (V, V) -> V, round: Round, vals: seq<V>): (out: seq<V>)
    requires Matched(|vals|, round)
    ensures |out| == |vals|
    ensures forall r | 0 <= r < |vals| :: out[r] == Absorb(round.mode, op, vals[r], vals, round.parts[r].recvs)
  {
    seq(|vals|, r requires 0 <= r < |vals| && Matched(|vals|, round)
                => Absorb(round.mode, op, vals[r], vals, round.parts[r].recvs))
  }

  lemma ExecRoundAt<V>(op: (V, V) -> V, round: Round, vals: seq<V>, r: nat, mode: Mode, recvs: seq<nat>)
    requires Matched(|vals|, round) && r < |vals|
    requires round.mode == mode && round.parts[r].recvs == recvs
    ensures InRange(recvs, |vals|)
    ensures ExecRound(op, round, vals)[r] == Absorb(mode, op, vals[r], vals, recvs)
  {
  }

  ghost function Exec<V>(op: (V, V) -> V, prog: Program, vals: seq<V>): (out: seq<V>)
    requires AllMatched(|vals|, prog)
    ensures |out| == |vals|
  {
    if prog == [] then vals
    else
      var last := |prog| - 1;
      assert AllMatched(|vals|, prog[..last]);
      ExecRound(op, prog[last], Exec(op, prog[..last], vals))
  }

  lemma ExecCons<V>(op: (V, V) -> V, first: Round, rest: Program, vals: seq<V>)
    requires Matched(|vals|, first) && AllMatched(|vals|, rest)
    ensures AllMatched(|vals|, [first] + rest)
    ensures Exec(op, [first] + rest, vals) == Exec(op, rest, ExecRound(op, first, vals))
  {
    assert [first][..0] == [];
    assert Exec(op, [first][..0], vals) == vals;
    ExecConcat(op, [first], rest, vals);
  }

  lemma {:induction false} ExecConcat<V>(op: (V, V) -> V, a: Program, b: Program, vals: seq<V>)
    requires AllMatched(|vals|, a) && AllMatched(|vals|, b)
    ensures AllMatched(|vals|, a + b)
    ensures Exec(op, a + b, vals) == Exec(op, b, Exec(op, a, vals))
    decreases |b|
  {
    if b == [] {
      assert a + b == a;
    } else {
      var last := |b| - 1;
      ExecConcat(op, a, b[..last], vals);
      assert (a + b)[..|a + b| - 1] == a + b[..last];
    }
  }

  // sub is the stretch of prog that starts at round base.
  ghost predicate EmbeddedAt(prog: Program, base: nat, sub: Program) {
    base + |sub| <= |prog| && forall i | 0 <= i < |sub| :: prog[base + i] == sub[i]
  }

  lemma EmbeddedInConcat(pre: Program, sub: Program, post: Program)
    ensures EmbeddedAt(pre + sub + post, |pre|, sub)
  {
  }

  // ---------------------------------------------------------------------
  // The concurrent machine.

  // Where a rank stands in its program.
  datatype Pc = Pc(round: nat, posted: nat, sent: bool, flushed: bool, waited: nat)

  const START := Pc(0, 0, false, false, 0)

  // chans[(s, d)] is what s has sent to d and d has not yet waited for.
  datatype State<V> = State(pcs: seq<Pc>, accs: seq<V>, chans: map<(nat, nat), seq<V>>)

  // Post: issue the next non-blocking receive. Send: hand the buffer to the
  // transport. Flush: the blocking send returns. Wait: the next posted receive
  // completes. Next: go round the loop.
  datatype Step = Post(rank: nat) | Send(rank: nat) | Flush(rank: nat) | Wait(rank: nat) | Next(rank: nat)

  ghost predicate PcOk(n: nat, prog: Program, r: nat, pc: Pc)
    requires AllMatched(n, prog) && r < n
  {
    && pc.round <= |prog|
    && (pc.sent ==> pc.round < |prog| && pc.posted == |prog[pc.round].parts[r].recvs|)
    && (pc.flushed ==> pc.sent)
    && (pc.waited > 0 ==> pc.flushed)
    && (pc.posted > 0 || pc.waited > 0 ==> pc.round < |prog|)
    && (pc.round < |prog| ==>
          pc.posted <= |prog[pc.round].parts[r].recvs| && pc.waited <= |prog[pc.round].parts[r].recvs|)
  }

  ghost predicate Shape<V>(n: nat, prog: Program, s: State<V>) {
    && AllMatched(n, prog)
    && |s.pcs| == |s.accs| == n
    && (forall r | 0 <= r < n :: PcOk(n, prog, r, s.pcs[r]))
    && (forall a: nat, b: nat | a < n && b < n :: (a, b) in s.chans)
  }

  // How many messages s sends to d in the first i rounds ...
  ghost function SendCount(n: nat, prog: Program, s: nat, d: nat, i: nat): nat
    requires AllMatched(n, prog) && s < n && i <= |prog|
  {
    if i == 0 then 0
    else SendCount(n, prog, s, d, i - 1) + (if prog[i - 1].parts[s].dst == Some(d) then 1 else 0)
  }

  // ... and how many receives from s does d make in them.
  ghost function RecvCount(n: nat, prog: Program, s: nat, d: nat, i: nat): nat
    requires AllMatched(n, prog) && d < n && i <= |prog|
  {
    if i == 0 then 0
    else RecvCount(n, prog, s, d, i - 1) + (if s in prog[i - 1].parts[d].recvs then 1 else 0)
  }

  // Rounds in which the rank has already made its send.
  function RoundsSent(pc: Pc): nat { pc.round + if pc.sent then 1 else 0 }

  ghost function Posted(n: nat, prog: Program, s: nat, d: nat, pc: Pc): nat
    requires AllMatched(n, prog) && d < n && PcOk(n, prog, d, pc)
  {
    RecvCount(n, prog, s, d, pc.round) +
    (if pc.round < |prog| && s in prog[pc.round].parts[d].recvs[..pc.posted] then 1 else 0)
  }

  ghost function Consumed(n: nat, prog: Program, s: nat, d: nat, pc: Pc): nat
    requires AllMatched(n, prog) && d < n && PcOk(n, prog, d, pc)
  {
    RecvCount(n, prog, s, d, pc.round) +
    (if pc.round < |prog| && s in prog[pc.round].parts[d].recvs[..pc.waited] then 1 else 0)
  }

  // With strict sends, a send returns only once the receiver has posted a
  // receive for it (rendezvous transfer); otherwise it may return at once (eager
  // transfer). Real runs mix the two, so they lie between the two semantics.
  ghost predicate Enabled<V>(n: nat, prog: Program, strict: bool, s: State<V>, step: Step)
    requires Shape(n, prog, s)
  {
    var r := step.rank;
    && r < n
    && var pc := s.pcs[r];
    && pc.round < |prog|
    && var part := prog[pc.round].parts[r];
    match step
    case Post(_) => !pc.sent && pc.posted < |part.recvs|
    case Send(_) => !pc.sent && pc.posted == |part.recvs|
    case Flush(_) =>
      && pc.sent && !pc.flushed
      && (strict && part.dst.Some? ==>
            SendCount(n, prog, r, part.dst.value, RoundsSent(pc))
            <= Posted(n, prog, r, part.dst.value, s.pcs[part.dst.value]))
    case Wait(_) => pc.flushed && pc.waited < |part.recvs| && s.chans[(part.recvs[pc.waited], r)] != []
    case Next(_) => pc.flushed && pc.waited == |part.recvs|
  }

  ghost function Do<V>(op: (V, V) -> V, n: nat, prog: Program, s: State<V>, step: Step): (s': State<V>)
    requires Shape(n, prog, s) && Enabled(n, prog, false, s, step)
    ensures Shape(n, prog, s')
  {
    var r := step.rank;
    var pc := s.pcs[r];
    var part := prog[pc.round].parts[r];
    match step
    case Post(_) => s.(pcs := s.pcs[r := pc.(posted := pc.posted + 1)])
    case Send(_) =>
      s.(pcs := s.pcs[r := pc.(sent := true)],
         chans := if part.dst.None? then s.chans
                  else s.chans[(r, part.dst.value) := s.chans[(r, part.dst.value)] + [s.accs[r]]])
    case Flush(_) => s.(pcs := s.pcs[r := pc.(flushed := true)])
    case Wait(_) =>
      var src := part.recvs[pc.waited];
      s.(pcs := s.pcs[r := pc.(waited := pc.waited + 1)],
         accs := s.accs[r := Apply(prog[pc.round].mode, op, s.accs[r], s.chans[(src, r)][0])],
         chans := s.chans[(src, r) := s.chans[(src, r)][1..]])
    case Next(_) => s.(pcs := s.pcs[r := Pc(pc.round + 1, 0, false, false, 0)])
  }

  ghost function Initial<V>(prog: Program, init: seq<V>): (s: State<V>)
    requires AllMatched(|init|, prog)
    ensures Shape(|init|, prog, s)
  {
    State(seq(|init|, _ => START), init,
          map a: nat, b: nat | 0 <= a < |init| && 0 <= b < |init| :: (a, b) := [])
  }

  // The state a run ends in; None if some step of it is not possible.
  ghost function Run<V>(op: (V, V) -> V, prog: Program, init: seq<V>, strict: bool, steps: seq<Step>)
    : (end: Option<State<V>>)
    requires AllMatched(|init|, prog)
    ensures end.Some? ==> Shape(|init|, prog, end.value)
  {
    if steps == [] then Some(Initial(prog, init))
    else
      var last := |steps| - 1;
      match Run(op, prog, init, strict, steps[..last])
      case None => None
      case Some(s) =>
        if Enabled(|init|, prog, strict, s, steps[last])
        then Some(Do(op, |init|, prog, s, steps[last])) else None
  }

  ghost predicate Finished<V>(prog: Program, s: State<V>) {
    forall r | 0 <= r < |s.pcs| :: s.pcs[r].round == |prog|
  }
}
