// Which collectives can deadlock on the unexpected-message engine, which is the default:
// those in which some rank posts two receives at once.
module Hanging {
  import opened Basics
  import opened Network
  import opened RankReceives
  import opened Composed
  import opened Deadlock
  import opened Barrier
  import opened Reduce
  import opened BinaryReduce
  import opened Broadcast
  import opened Allreduce
  import opened Gather

  // ---------------------------------------------------------------------
  // Barrier and broadcast never hang.

  lemma {:induction false} BarrierReceives(n: nat, mask: nat)
    requires 0 < mask
    ensures AtMostOneReceive(BarrierFrom(n, mask))
    decreases n - mask
  {
    if mask < n {
      BarrierReceives(n, 2 * mask);
      AtMostOneConcat([BarrierRound(n, mask)], BarrierFrom(n, 2 * mask));
    }
  }

  lemma BarrierNeverHangs<V>(op: (V, V) -> V, c: Setup, init: seq<V>, strict: bool)
    requires SetupOk(c) && |init| == c.n && c.prog == BarrierProg(c.n)
    ensures !CollectiveMayHang(op, c, init, strict) && !MayDeadlock(op, c, init, strict)
  {
    BarrierReceives(c.n, 1);
    NeverHangs(op, c, init, strict);
  }

  lemma {:induction false} BcastReceives(n: nat, root: nat, j: nat)
    requires root < n && j <= MaskCount(n, 1)
    ensures AtMostOneReceive(BcastFrom(n, root, j))
  {
    if j > 0 {
      MasksBelow(n, 1, j - 1);
      BcastReceives(n, root, j - 1);
      AtMostOneConcat([BcastRound(n, root, Shifted(1, j - 1))], BcastFrom(n, root, j - 1));
    }
  }

  lemma BcastNeverHangs<V>(op: (V, V) -> V, c: Setup, init: seq<V>, strict: bool, root: nat)
    requires SetupOk(c) && |init| == c.n && root < c.n && c.prog == BcastProg(c.n, root)
    ensures !CollectiveMayHang(op, c, init, strict) && !MayDeadlock(op, c, init, strict)
  {
    BcastReceives(c.n, root, MaskCount(c.n, 1));
    NeverHangs(op, c, init, strict);
  }

  // ---------------------------------------------------------------------
  // Reduce.

  // At most one of two ranks is a child, and with radix 2 there is only one.
  lemma FewChildren(n: nat, k: nat, root: nat, p: nat, pk: nat, rel: nat)
    requires 0 < p && root < n && rel < n && (n <= 2 || (k == 2 && pk == 2 * p))
    ensures |Children(n, root, p, rel + p, rel + pk)| <= 1
  {
    if n <= 2 {
      assert Children(n, root, p, rel + 2 * p, rel + pk) == [];
    } else {
      OnlyChild(n, root, p, rel);
    }
  }

  lemma {:induction false} FewReceives(n: nat, k: nat, root: nat, p: nat)
    requires 0 < p && 2 <= k && root < n && (n <= 2 || k == 2)
    ensures AtMostOneReceive(ReduceFrom(n, k, root, p))
    decreases n - p
  {
    MulGrows(p, k);
    if p < n {
      var pk := p * k;
      FewReceives(n, k, root, pk);
      var round := ReduceRound(n, k, root, p);
      forall r | 0 <= r < n ensures |round.parts[r].recvs| <= 1 {
        assert round.parts[r] == ReducePart(n, root, p, pk, r);
        FewChildren(n, k, root, p, pk, Down(n, r, root));
      }
      AtMostOneConcat([round], ReduceFrom(n, k, root, pk));
    }
  }

  // The root posts receives from relative ranks 1 and 2 at once.
  lemma RootReceivesTwo(n: nat, k: nat, root: nat)
    requires 3 <= k && root < n && 3 <= n
    ensures |ReduceProg(n, k, root)| > 0 && |ReduceProg(n, k, root)[0].parts| == n
    ensures var recvs := ReduceProg(n, k, root)[0].parts[root].recvs;
            |recvs| >= 2 && recvs[1] == Up(n, 2, root) && root !in recvs
  {
    var prog := ReduceProg(n, k, root);
    MulGrows(1, k);
    assert prog[0] == ReduceRound(n, k, root, 1);
    assert prog[0].parts[root] == ReducePart(n, root, 1, 1 * k, root);
    assert Down(n, root, root) == 0 && Rem(0, k) == 0;
    assert prog[0].parts[root].recvs == Children(n, root, 1, 1, k);
    assert Children(n, root, 1, 1, k) == [Up(n, 1, root)] + ([Up(n, 2, root)] + Children(n, root, 1, 3, k));
    ChildrenMembers(n, root, 1, 1, k, 0);
    assert Up(n, 0, root) == root;
  }

  // Relative rank 2 has left the loop after the first level.
  lemma {:induction false} SecondIsSilent(n: nat, k: nat, root: nat, p: nat, j: nat)
    requires 3 <= p && 3 <= k && root < n && 3 <= n && j < |ReduceFrom(n, k, root, p)|
    ensures |ReduceFrom(n, k, root, p)[j].parts| == n
    ensures ReduceFrom(n, k, root, p)[j].parts[Up(n, 2, root)].dst == None
    decreases j
  {
    MulGrows(p, k);
    if j > 0 {
      SecondIsSilent(n, k, root, p * k, j - 1);
    } else {
      assert ReduceFrom(n, k, root, p)[0] == ReduceRound(n, k, root, p);
      assert Down(n, Up(n, 2, root), root) == 2;
      SmallRem(2, p * k);
      SmallRem(2, p);
    }
  }

  lemma SmallRem(x: nat, m: nat)
    requires x < m
    ensures x % m == x && Rem(x, m) == x
  {
  }

  lemma SecondSendsOnce(n: nat, k: nat, root: nat, j: nat)
    requires 3 <= k && root < n && 3 <= n && 0 < j < |ReduceProg(n, k, root)|
    ensures |ReduceProg(n, k, root)[j].parts| == n
    ensures ReduceProg(n, k, root)[j].parts[Up(n, 2, root)].dst == None
  {
    MulGrows(1, k);
    assert ReduceProg(n, k, root) == [ReduceRound(n, k, root, 1)] + ReduceFrom(n, k, root, 1 * k);
    SecondIsSilent(n, k, root, k, j - 1);
  }

  lemma ReduceDeadlockIff<V>(op: (V, V) -> V, c: Setup, init: seq<V>, strict: bool, k: nat, root: nat)
    requires 2 <= k && root < c.n && c.prog == ReduceProg(c.n, k, root)
    requires SetupOk(c) && |init| == c.n
    ensures MayDeadlock(op, c, init, strict) <==> 3 <= k && 3 <= c.n
  {
    if 3 <= k && 3 <= c.n {
      RootReceivesTwo(c.n, k, root);
      assert Matched(c.n, c.prog[0]);
      forall j | 0 < j < |c.prog|
        ensures Matched(c.n, c.prog[j]) && c.prog[j].parts[Up(c.n, 2, root)].dst != Some(root)
      {
        SecondSendsOnce(c.n, k, root, j);
      }
      TwoReceivesDeadlock(op, c, init, strict, 0, root);
    } else {
      FewReceives(c.n, k, root, 1);
      NeverHangs(op, c, init, strict);
    }
  }

  // Nothing is sent to rank 0 in a broadcast from it.
  lemma NothingToRoot(n: nat, j: nat, s: nat)
    requires s < n && j < |BcastProg(n, 0)|
    ensures AllMatched(n, BcastProg(n, 0)) && Matched(n, BcastProg(n, 0)[j])
    ensures BcastProg(n, 0)[j].parts[s].dst != Some(0)
  {
    BcastMatched(n, 0, MaskCount(n, 1));
    if BcastProg(n, 0)[j].parts[s].dst == Some(0) {
      BcastAscends(n, MaskCount(n, 1), j, s, 0);
    }
  }

  // A phase in which s sends to rank 0 in its first round only, and a broadcast.
  lemma ThenBroadcast(c: Setup, first: Program, s: nat)
    requires SetupOk(c) && s < c.n && first != [] && c.prog == first + BcastProg(c.n, 0)
    requires forall j | 0 < j < |first| :: Matched(c.n, first[j]) && first[j].parts[s].dst != Some(0)
    ensures LastMessage(c, 0, s, 0)
  {
    forall j | 0 < j < |c.prog| ensures Matched(c.n, c.prog[j]) && c.prog[j].parts[s].dst != Some(0) {
      if |first| <= j {
        NothingToRoot(c.n, j - |first|, s);
      }
    }
  }

  lemma AllreduceDeadlockIff<V>(op: (V, V) -> V, c: Setup, init: seq<V>, strict: bool, k: nat)
    requires 2 <= k && 0 < c.n && c.prog == AllreduceProg(c.n, k)
    requires SetupOk(c) && |init| == c.n
    ensures MayDeadlock(op, c, init, strict) <==> 3 <= k && 3 <= c.n
  {
    var first := ReduceProg(c.n, k, 0);
    if 3 <= k && 3 <= c.n {
      RootReceivesTwo(c.n, k, 0);
      assert c.prog[0] == first[0] && Matched(c.n, c.prog[0]);
      forall j | 0 < j < |first| ensures Matched(c.n, first[j]) && first[j].parts[Up(c.n, 2, 0)].dst != Some(0) {
        assert c.prog[j] == first[j];
        SecondSendsOnce(c.n, k, 0, j);
      }
      ThenBroadcast(c, first, Up(c.n, 2, 0));
      TwoReceivesDeadlock(op, c, init, strict, 0, 0);
    } else {
      FewReceives(c.n, k, 0, 1);
      BcastReceives(c.n, 0, MaskCount(c.n, 1));
      AtMostOneConcat(first, BcastProg(c.n, 0));
      NeverHangs(op, c, init, strict);
    }
  }

  // ---------------------------------------------------------------------
  // Gather.

  // Two ranks other than the root have non-empty blocks.
  ghost predicate TwoSenders(n: nat, root: nat, sizes: seq<nat>)
    requires |sizes| == n
  {
    exists r, q :: 0 <= r < q < n && r != root && q != root && sizes[r] != 0 && sizes[q] != 0
  }

  lemma GathervReceives(n: nat, root: nat, recvSizes: seq<nat>, sendSizes: seq<nat>)
    requires root < n && |recvSizes| == |sendSizes| == n
    ensures AtMostOneReceive([GathervRound(n, root, recvSizes, sendSizes)]) <==> !TwoSenders(n, root, recvSizes)
  {
    var round := GathervRound(n, root, recvSizes, sendSizes);
    var srcs := Sources(n, root, recvSizes, 0);
    assert AtMostOneReceive([round]) <==> |srcs| <= 1 by {
      assert [round][0].parts[root].recvs == srcs;
      assert forall r | 0 <= r < n && r != root :: round.parts[r].recvs == [];
    }
    forall x: nat ensures x in srcs <==> x < n && x != root && recvSizes[x] != 0 {
      SourcesMembers(n, root, recvSizes, 0, x);
    }
    SourcesDistinct(n, root, recvSizes, 0);
    if |srcs| > 1 {
      assert srcs[0] in srcs && srcs[1] in srcs && srcs[0] != srcs[1];
      assert TwoSenders(n, root, recvSizes);
    }
  }

  // Its first round is a gather at root from two ranks or more.
  lemma TwoSendersDeadlock<V>(op: (V, V) -> V, c: Setup, init: seq<V>, strict: bool, root: nat, recvSizes: seq<nat>,
                              sendSizes: seq<nat>)
    requires SetupOk(c) && |init| == c.n && root < c.n && |recvSizes| == |sendSizes| == c.n && |c.prog| > 0
    requires c.prog[0] == GathervRound(c.n, root, recvSizes, sendSizes) && TwoSenders(c.n, root, recvSizes)
    requires forall s: nat | s < c.n && s != root :: LastMessage(c, 0, s, root)
    ensures MayDeadlock(op, c, init, strict)
  {
    GathervReceives(c.n, root, recvSizes, sendSizes);
    var srcs := Sources(c.n, root, recvSizes, 0);
    assert Matched(c.n, c.prog[0]) && c.prog[0].parts[root].recvs == srcs;
    SourcesMembers(c.n, root, recvSizes, 0, root);
    assert srcs[1] in srcs;
    TwoReceivesDeadlock(op, c, init, strict, 0, root);
  }

  lemma GathervDeadlockIff<V>(op: (V, V) -> V, c: Setup, init: seq<V>, strict: bool, root: nat, recvSizes: seq<nat>,
                              sendSizes: seq<nat>)
    requires root < c.n && |recvSizes| == |sendSizes| == c.n
    requires c.prog == [GathervRound(c.n, root, recvSizes, sendSizes)]
    requires SetupOk(c) && |init| == c.n
    ensures MayDeadlock(op, c, init, strict) <==> TwoSenders(c.n, root, recvSizes)
  {
    GathervReceives(c.n, root, recvSizes, sendSizes);
    if TwoSenders(c.n, root, recvSizes) {
      TwoSendersDeadlock(op, c, init, strict, root, recvSizes, sendSizes);
    } else {
      NeverHangs(op, c, init, strict);
    }
  }

  lemma ThreeRanks(n: nat, root: nat, ones: seq<nat>)
    requires root < n == |ones| && forall r | 0 <= r < n :: ones[r] == 1
    ensures TwoSenders(n, root, ones) <==> 3 <= n
  {
    if 3 <= n {
      var r, q := if root == 0 then 1 else 0, if root == 2 then 1 else 2;
      assert r != root && q != root && ones[r] != 0 && ones[q] != 0;
    }
  }

  lemma GatherDeadlockIff<V>(op: (V, V) -> V, c: Setup, init: seq<V>, strict: bool, root: nat)
    requires root < c.n && c.prog == [GatherRound(c.n, root)]
    requires SetupOk(c) && |init| == c.n
    ensures MayDeadlock(op, c, init, strict) <==> 3 <= c.n
  {
    var ones: seq<nat> := seq(c.n, _ => 1);
    GathervDeadlockIff(op, c, init, strict, root, ones, ones);
    ThreeRanks(c.n, root, ones);
  }

  // An allgather or allgatherv can deadlock exactly when its gather can.
  lemma AllgatherDeadlockIff<V>(op: (V, V) -> V, c: Setup, init: seq<V>, strict: bool, sizes: seq<nat>)
    requires 0 < c.n == |sizes| && c.prog == [GathervRound(c.n, 0, sizes, sizes)] + BcastProg(c.n, 0)
    requires SetupOk(c) && |init| == c.n
    ensures MayDeadlock(op, c, init, strict) <==> TwoSenders(c.n, 0, sizes)
  {
    var gather := [GathervRound(c.n, 0, sizes, sizes)];
    if TwoSenders(c.n, 0, sizes) {
      forall s: nat | s < c.n ensures LastMessage(c, 0, s, 0) {
        ThenBroadcast(c, gather, s);
      }
      TwoSendersDeadlock(op, c, init, strict, 0, sizes, sizes);
    } else {
      GathervReceives(c.n, 0, sizes, sizes);
      BcastReceives(c.n, 0, MaskCount(c.n, 1));
      AtMostOneConcat(gather, BcastProg(c.n, 0));
      NeverHangs(op, c, init, strict);
    }
  }
}
