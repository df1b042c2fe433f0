// The dissemination barrier: in the round with mask 2^j, rank r exchanges
// zero-byte messages with ranks r + 2^j and r - 2^j.
module Barrier {
  import opened Basics
  import opened Network
  import opened Runs

  function BarrierRound(n: nat, mask: nat): Round
    requires 0 < mask < n
  {
    Round(seq(n, r requires 0 <= r < n => Part([Down(n, r, mask)], Some(Up(n, r, mask)))), Discard)
  }

  function BarrierFrom(n: nat, mask: nat): Program
    requires 0 < mask
    decreases n - mask
  {
    if mask >= n then [] else [BarrierRound(n, mask)] + BarrierFrom(n, 2 * mask)
  }

  function BarrierProg(n: nat): Program { BarrierFrom(n, 1) }

  lemma BarrierRoundMatched(n: nat, mask: nat)
    requires 0 < mask < n
    ensures Matched(n, BarrierRound(n, mask))
  {
    assert forall s: nat, d: nat | s < n && d < n :: Up(n, s, mask) == d <==> s == Down(n, d, mask);
  }

  lemma {:induction false} BarrierMatched(n: nat, mask: nat)
    requires 0 < mask
    ensures AllMatched(n, BarrierFrom(n, mask))
    decreases n - mask
  {
    if mask < n {
      BarrierRoundMatched(n, mask);
      BarrierMatched(n, 2 * mask);
    }
  }

  // The j-th round uses mask * 2^j, and the loop ends at the first power that reaches n.
  lemma {:induction false} BarrierMasks(n: nat, mask: nat, j: nat)
    requires 0 < mask && j <= |BarrierFrom(n, mask)|
    ensures n <= Shifted(mask, |BarrierFrom(n, mask)|)
    ensures j < |BarrierFrom(n, mask)| ==>
              Shifted(mask, j) < n && BarrierFrom(n, mask)[j] == BarrierRound(n, Shifted(mask, j))
    decreases n - mask
  {
    if mask < n {
      ShiftedOnce(mask, |BarrierFrom(n, 2 * mask)|);
      if j == 0 {
        BarrierMasks(n, 2 * mask, 0);
      } else {
        ShiftedOnce(mask, j - 1);
        BarrierMasks(n, 2 * mask, j - 1);
      }
    }
  }

  // How far rank q lies below rank r, going down and around.
  function Behind(n: nat, q: nat, r: nat): nat
    requires q < n && r < n
  {
    if q <= r then r - q else r - q + n
  }

  // A rank that has sent in round j of a barrier has transitively heard from the
  // 2^j ranks r, r-1, ..., r-(2^j-1): each has sent its first message of that barrier.
  lemma {:induction false} HeardFrom(n: nat, prog: Program, pcs: seq<Pc>, base: nat, j: nat, r: nat)
    requires Causal(n, prog, pcs) && r < n
    requires EmbeddedAt(prog, base, BarrierProg(n)) && j < |BarrierProg(n)|
    requires base + j < RoundsSent(pcs[r])
    ensures forall q: nat | q < n && Behind(n, q, r) < Shifted(1, j) :: base < RoundsSent(pcs[q])
    decreases j, 0
  {
    if j > 0 {
      HeardOneMore(n, prog, pcs, base, j - 1, r);
    }
  }

  lemma {:induction false} HeardOneMore(n: nat, prog: Program, pcs: seq<Pc>, base: nat, j: nat, r: nat)
    requires Causal(n, prog, pcs) && r < n
    requires EmbeddedAt(prog, base, BarrierProg(n)) && j < |BarrierProg(n)| && base + j < pcs[r].round
    ensures forall q: nat | q < n && Behind(n, q, r) < 2 * Shifted(1, j) :: base < RoundsSent(pcs[q])
    decreases j, 1
  {
    var src := HeardFromSource(n, prog, pcs, base, j, r);
    HeardFrom(n, prog, pcs, base, j, r);
    HeardFrom(n, prog, pcs, base, j, src);
    forall q: nat | q < n && Behind(n, q, r) < 2 * Shifted(1, j) ensures base < RoundsSent(pcs[q]) {
      if Shifted(1, j) <= Behind(n, q, r) {
        assert Behind(n, q, src) < Shifted(1, j);
      }
    }
  }

  // A rank past round j has received from the rank 2^j below it, which had sent in round j.
  lemma HeardFromSource(n: nat, prog: Program, pcs: seq<Pc>, base: nat, j: nat, r: nat) returns (src: nat)
    requires Causal(n, prog, pcs) && r < n
    requires EmbeddedAt(prog, base, BarrierProg(n)) && j < |BarrierProg(n)| && base + j < pcs[r].round
    ensures src < n && base + j < RoundsSent(pcs[src])
    ensures forall q: nat | q < n && Shifted(1, j) <= Behind(n, q, r) ::
              Behind(n, q, src) == Behind(n, q, r) - Shifted(1, j)
  {
    BarrierMasks(n, 1, j);
    src := Down(n, r, Shifted(1, j));
    assert prog[base + j].parts[r].recvs == [src];
  }

  // A rank past the last round of an embedded barrier knows that every other rank
  // has sent its first message of it.
  lemma PastBarrier(n: nat, prog: Program, pcs: seq<Pc>, base: nat, r: nat, q: nat)
    requires Causal(n, prog, pcs) && EmbeddedAt(prog, base, BarrierProg(n))
    requires r < n && q < n && q != r && base + |BarrierProg(n)| <= pcs[r].round
    ensures base < RoundsSent(pcs[q])
  {
    var rounds := |BarrierProg(n)|;
    assert 0 < rounds;
    BarrierMasks(n, 1, rounds - 1);
    HeardOneMore(n, prog, pcs, base, rounds - 1, r);
    assert Behind(n, q, r) < Shifted(1, rounds);
  }

  // Barrier safety, for a barrier anywhere in a sequence of collectives on one
  // tag: no rank returns from it before every other rank has entered it (has
  // sent its first message of it).
  lemma BarrierSafety<V>(op: (V, V) -> V, pre: Program, post: Program, init: seq<V>, strict: bool, steps: seq<Step>,
                         r: nat, q: nat)
    requires AllMatched(|init|, pre + BarrierProg(|init|) + post)
    requires Run(op, pre + BarrierProg(|init|) + post, init, strict, steps).Some?
    requires r < |init| && q < |init| && q != r
    ensures var s := Run(op, pre + BarrierProg(|init|) + post, init, strict, steps).value;
            |pre| + |BarrierProg(|init|)| <= s.pcs[r].round ==> |pre| < RoundsSent(s.pcs[q])
  {
    var n := |init|;
    var prog := pre + BarrierProg(n) + post;
    RunIsCausal(op, prog, init, strict, steps);
    EmbeddedInConcat(pre, BarrierProg(n), post);
    var pcs := Run(op, prog, init, strict, steps).value.pcs;
    if |pre| + |BarrierProg(n)| <= pcs[r].round {
      PastBarrier(n, prog, pcs, |pre|, r, q);
    }
  }

  // b barriers in a row on the same tag.
  function Barriers(n: nat, b: nat): Program {
    if b == 0 then [] else Barriers(n, b - 1) + BarrierProg(n)
  }

  lemma {:induction false} BarriersMatched(n: nat, b: nat)
    ensures AllMatched(n, Barriers(n, b))
  {
    if b > 0 {
      BarriersMatched(n, b - 1);
      BarrierMatched(n, 1);
    }
  }

  lemma {:induction false} BarriersSplit(n: nat, b: nat, i: nat)
    requires i < b
    ensures Barriers(n, b) == Barriers(n, i) + BarrierProg(n) + Barriers(n, b - i - 1)
  {
    if i + 1 == b {
      assert Barriers(n, b) == Barriers(n, i) + BarrierProg(n) + [];
    } else {
      BarriersSplit(n, b - 1, i);
      var mid := Barriers(n, i) + BarrierProg(n);
      assert mid + Barriers(n, b - i - 2) + BarrierProg(n) == mid + (Barriers(n, b - i - 2) + BarrierProg(n));
    }
  }

  // With any number b of consecutive barriers: no rank completes its barrier i
  // before every other rank has entered its barrier i.
  lemma ConsecutiveBarriers<V>(op: (V, V) -> V, b: nat, i: nat, init: seq<V>, strict: bool, steps: seq<Step>,
                               r: nat, q: nat)
    requires i < b && r < |init| && q < |init| && q != r
    requires AllMatched(|init|, Barriers(|init|, b)) && Run(op, Barriers(|init|, b), init, strict, steps).Some?
    ensures var s := Run(op, Barriers(|init|, b), init, strict, steps).value;
            |Barriers(|init|, i + 1)| <= s.pcs[r].round ==> |Barriers(|init|, i)| < RoundsSent(s.pcs[q])
  {
    BarriersSplit(|init|, b, i);
    BarrierSafety(op, Barriers(|init|, i), Barriers(|init|, b - i - 1), init, strict, steps, r, q);
  }

  // Within one barrier a rank sends to a different rank in every round, so a
  // single tag separates the rounds.
  lemma BarrierPartnersDiffer(n: nat, i: nat, j: nat, s: nat)
    requires i < j < |BarrierProg(n)| && s < n
    ensures AllMatched(n, BarrierProg(n))
    ensures BarrierProg(n)[i].parts[s].dst != BarrierProg(n)[j].parts[s].dst
  {
    BarrierMatched(n, 1);
    BarrierMasks(n, 1, i);
    BarrierMasks(n, 1, j);
    ShiftedIncreases(1, i, j);
  }

  // A barrier leaves every buffer alone.
  lemma {:induction false} BarrierKeepsBuffers<V>(op: (V, V) -> V, n: nat, mask: nat, vals: seq<V>)
    requires 0 < mask && |vals| == n
    ensures AllMatched(n, BarrierFrom(n, mask))
    ensures Exec(op, BarrierFrom(n, mask), vals) == vals
    decreases n - mask
  {
    BarrierMatched(n, mask);
    if mask < n {
      var first := BarrierRound(n, mask);
      BarrierRoundMatched(n, mask);
      BarrierMatched(n, 2 * mask);
      forall r | 0 <= r < n ensures ExecRound(op, first, vals)[r] == vals[r] {
        AbsorbDiscard(op, vals[r], vals, first.parts[r].recvs);
      }
      assert ExecRound(op, first, vals) == vals;
      ExecCons(op, first, BarrierFrom(n, 2 * mask), vals);
      BarrierKeepsBuffers(op, n, 2 * mask, vals);
    }
  }

  // ---------------------------------------------------------------------
  // The loop of one rank.

  lemma BarrierIteration(n: nat, mask: nat, r: nat)
    requires 0 < mask < n && r < n
    ensures AllMatched(n, BarrierFrom(n, mask)) && AllMatched(n, BarrierFrom(n, 2 * mask))
    ensures RankEvents(n, BarrierFrom(n, mask), r)
         == PartEvents(Part([Down(n, r, mask)], Some(Up(n, r, mask)))) + RankEvents(n, BarrierFrom(n, 2 * mask), r)
  {
    BarrierMatched(n, mask);
    BarrierMatched(n, 2 * mask);
    assert BarrierFrom(n, mask)[1..] == BarrierFrom(n, 2 * mask);
  }

  // mona_comm_sendrecv: post the receive, send, wait for the receive.
  method SendRecv(dest: nat, source: nat) returns (events: seq<Event>)
    ensures events == [PostRecv(source), SendTo(dest), WaitFor(source)]
    ensures events == PartEvents(Part([source], Some(dest)))
  {
    events := [PostRecv(source)];
    events := events + [SendTo(dest)];
    events := events + [WaitFor(source)];
  }

  // Masks and ranks are C ints; they do not overflow as long as 2 * size fits.
  method BarrierLoop(size: int32, rank: int32) returns (events: seq<Event>)
    requires 0 < size <= 0x4000_0000 && 0 <= rank < size
    ensures AllMatched(size as nat, BarrierProg(size as nat))
    ensures events == RankEvents(size as nat, BarrierProg(size as nat), rank as nat)
  {
    ghost var n, rk, m: nat := size as nat, rank as nat, 1;
    BarrierMatched(n, 1);
    events := [];
    if size == 1 {
      return;
    }
    var mask: int32 := 1;
    ghost var all := RankEvents(n, BarrierProg(n), rk);
    ghost var rest := all;
    while mask < size
      invariant mask as int == m && 0 < m < 2 * n
      invariant AllMatched(n, BarrierFrom(n, m)) && rest == RankEvents(n, BarrierFrom(n, m), rk)
      invariant events + rest == all
      decreases n - m
    {
      var dst := AddRank(rank, mask, size);
      var src := SubRank(rank, mask, size);
      BarrierIteration(n, m, rk);
      var call := SendRecv(dst as nat, src as nat);
      rest := RankEvents(n, BarrierFrom(n, 2 * m), rk);
      ConcatAssociative(events, call, rest);
      events := events + call;
      mask, m := mask * 2, 2 * m;
    }
  }
}
