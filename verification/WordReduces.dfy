// Tree reductions with the maximum and the sum of unsigned words, from the ranks' buffers
// to the result.
module WordReduces {
  import opened Basics
  import opened Network
  import opened Runs
  import opened Reduce
  import opened Allreduce
  import opened Operators

  ghost predicate SameCount(bufs: seq<seq<uint32>>, count: nat) { forall r | 0 <= r < |bufs| :: |bufs[r]| == count }

  // In every interleaving, for every radix and root, element i at the root is at least that
  // element of every rank, and that of rank r.
  lemma MaxReduceRun(bufs: seq<seq<uint32>>, count: nat, k: nat, root: nat, strict: bool, steps: seq<Step>, i: nat)
    returns (r: nat)
    requires root < |bufs| && 2 <= k && i < count && SameCount(bufs, count)
    requires AllMatched(|bufs|, ReduceProg(|bufs|, k, root))
    requires Run(Lift(MaxOp), ReduceProg(|bufs|, k, root), bufs, strict, steps).Some?
    requires Finished(ReduceProg(|bufs|, k, root),
                      Run(Lift(MaxOp), ReduceProg(|bufs|, k, root), bufs, strict, steps).value)
    ensures var result := Run(Lift(MaxOp), ReduceProg(|bufs|, k, root), bufs, strict, steps).value.accs[root];
            && r < |bufs| && |result| == count && result[i] == bufs[r][i]
            && forall q | 0 <= q < |bufs| :: bufs[q][i] <= result[i]
  {
    MaxLaws();
    LiftAssociative(MaxOp);
    ReduceRun(Lift(MaxOp), bufs, k, root, strict, steps);
    FoldElement(MaxOp, bufs, root, 0, |bufs|, count, i);
    var at := MaxFold(Column(bufs, count, i), root, |bufs|);
    r := Up(|bufs|, at, root);
    forall q: nat | q < |bufs| ensures bufs[q][i] <= bufs[r][i] {
      assert q == Up(|bufs|, Down(|bufs|, q, root), root);
    }
  }

  // With the sum it is the sum of that element over all ranks up to a multiple of 2^32.
  lemma SumReduceRun(bufs: seq<seq<uint32>>, count: nat, k: nat, root: nat, strict: bool, steps: seq<Step>, i: nat)
    returns (wraps: nat)
    requires root < |bufs| && 2 <= k && i < count && SameCount(bufs, count)
    requires AllMatched(|bufs|, ReduceProg(|bufs|, k, root))
    requires Run(Lift(SumOp), ReduceProg(|bufs|, k, root), bufs, strict, steps).Some?
    requires Finished(ReduceProg(|bufs|, k, root),
                      Run(Lift(SumOp), ReduceProg(|bufs|, k, root), bufs, strict, steps).value)
    ensures var result := Run(Lift(SumOp), ReduceProg(|bufs|, k, root), bufs, strict, steps).value.accs[root];
            |result| == count && result[i] + wraps * 0x1_0000_0000 == Sum(Column(bufs, count, i))
  {
    SumLaws();
    LiftAssociative(SumOp);
    ReduceRun(Lift(SumOp), bufs, k, root, strict, steps);
    FoldElement(SumOp, bufs, root, 0, |bufs|, count, i);
    var vals := Column(bufs, count, i);
    ResultIndependentOfRoot<uint32>(SumOp, vals, root);
    wraps := SumFold(vals, |vals|);
    assert vals[..|vals|] == vals;
  }
}
