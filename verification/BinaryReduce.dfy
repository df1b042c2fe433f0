// The bit-mask binomial reduction, and its agreement with the radix-k loop.
module BinaryReduce {
  import opened Basics
  import opened Runs
  import opened Reduce
  import opened ReduceLoop
  import opened BitMask

  // With radix 2 a leader has at most one child, one stride above it.
  lemma OnlyChild(n: nat, root: nat, p: nat, rel: nat)
    requires 0 < p && root < n && rel < n
    ensures Children(n, root, p, rel + p, rel + 2 * p) == if rel + p < n then [Up(n, rel + p, root)] else []
  {
    assert Children(n, root, p, rel + 2 * p, rel + 2 * p) == [];
  }

  // One iteration of the mask loop.
  method MaskStep(size: int32, root: int32, relRank: int32, mask: int32, ghost j: nat)
    returns (events: seq<Event>, sent: bool)
    requires 0 <= root < size && 0 <= relRank < size <= 0x4000_0000 && 0 < mask < size
    requires mask as int == Shifted(1, j) && relRank as nat % mask as nat == 0
    ensures events == PartEvents(ReducePart(size as nat, root as nat, mask as nat, 2 * mask as nat,
                                            Up(size as nat, relRank as nat, root as nat)))
    ensures sent <==> relRank as nat % (2 * mask as nat) != 0
  {
    ghost var n, rel, m := size as nat, relRank as nat, mask as nat;
    assert Down(n, Up(n, rel, root as nat), root as nat) == rel;
    OneBit(rel, j);
    events := [];
    if And(mask as nat, relRank as nat) == 0 {
      OnlyChild(n, root as nat, m, rel);
      var source := Or(relRank as nat, mask as nat);
      if source < size as nat {
        var src := AddRank(source as int32, root, size);
        events := [PostRecv(src as nat), WaitFor(src as nat)];
        assert events == Posts([src as nat]) + [] + Waits([src as nat]);
      }
      sent := false;
    } else {
      var dest := AddRank(AndNot(relRank as nat, mask as nat) as int32, root, size);
      events := [SendTo(dest as nat)];
      sent := true;
    }
  }

  lemma MaskIteration(n: nat, root: nat, m: nat, rank: nat)
    requires 0 < m < n && root < n && rank < n
    ensures ReduceEvents(n, 2, root, m, rank)
         == PartEvents(ReducePart(n, root, m, 2 * m, rank)) + ReduceEvents(n, 2, root, 2 * m, rank)
    ensures Down(n, rank, root) % (2 * m) != 0 ==> ReduceEvents(n, 2, root, 2 * m, rank) == []
  {
    ReduceIteration(n, 2, root, m, rank);
    assert m * 2 == 2 * m;
    if Down(n, rank, root) % (2 * m) != 0 {
      SilentAfterSend(n, 2, root, 2 * m, rank);
    }
  }

  // The mask loop.
  method MaskLoop(size: int32, rank: int32, root: int32) returns (events: seq<Event>)
    requires 0 <= rank < size && 0 <= root < size <= 0x4000_0000
    ensures events == ReduceEvents(size as nat, 2, root as nat, 1, rank as nat)
  {
    ghost var n, rt, rk := size as nat, root as nat, rank as nat;
    var relRank := SubRank(rank, root, size);
    ghost var rel := relRank as nat;
    ghost var all := ReduceEvents(n, 2, rt, 1, rk);
    ghost var rest, m: nat, j: nat := all, 1, 0;
    assert rk == Up(n, rel, rt);
    events := [];
    var mask: int32, sent := 1, false;
    while mask < size && !sent
      invariant mask as int == m == Shifted(1, j) && m < 2 * n
      invariant !sent ==> rel % m == 0
      invariant events + rest == all
      invariant rest == if sent then [] else ReduceEvents(n, 2, rt, m, rk)
      decreases if sent then 0 else 1, n - m
    {
      var call;
      MaskIteration(n, rt, m, rk);
      call, sent := MaskStep(size, root, relRank, mask, j);
      rest := ReduceEvents(n, 2, rt, 2 * m, rk);
      ConcatAssociative(events, call, rest);
      events := events + call;
      if !sent {
        mask, m, j := mask * 2, 2 * m, j + 1;
      }
    }
  }

  // binary_tree_reduce. For every count, size, rank and root it makes exactly the calls,
  // with the same partners and in the same order, that the radix loop makes with k = 2.
  method BinaryReduceLoop(count: nat, size: int32, rank: int32, root: int32) returns (events: seq<Event>)
    requires 0 <= rank < size && 0 <= root < size <= 0x4000_0000
    ensures events == if count == 0 then [] else ReduceEvents(size as nat, 2, root as nat, 1, rank as nat)
  {
    if count == 0 {
      return [];
    }
    events := MaskLoop(size, rank, root);
  }
}
