// A tree reduction with mona_op_maxloc_f64, from the ranks' buffers to the result.
module MaxlocReduce {
  import opened Basics
  import opened Network
  import opened Reduce
  import opened Allreduce
  import opened Operators

  // In every interleaving, for every radix and root, element i at the root is what
  // the first rank in root-relative order that attains its maximum contributed, if no contribution is NaN.
  lemma MaxlocReduceRun(bufs: seq<seq<Located>>, count: nat, k: nat, root: nat, strict: bool, steps: seq<Step>, i: nat)
    returns (first: nat)
    requires root < |bufs| && 2 <= k && i < count && forall r | 0 <= r < |bufs| :: |bufs[r]| == count
    requires AllMatched(|bufs|, ReduceProg(|bufs|, k, root))
    requires Run(Lift(Maxloc), ReduceProg(|bufs|, k, root), bufs, strict, steps).Some?
    requires Finished(ReduceProg(|bufs|, k, root),
                      Run(Lift(Maxloc), ReduceProg(|bufs|, k, root), bufs, strict, steps).value)
    ensures var n := |bufs|;
            var result := Run(Lift(Maxloc), ReduceProg(n, k, root), bufs, strict, steps).value.accs[root];
            && first < n && |result| == count && result[i] == bufs[Up(n, first, root)][i]
            && (forall rel: nat | rel < n :: bufs[Up(n, rel, root)][i].d.r <= result[i].d.r)
            && (forall rel: nat | rel < first :: bufs[Up(n, rel, root)][i].d.r < result[i].d.r)
  {
    MaxlocAssociative();
    LiftAssociative(Maxloc);
    ReduceRun(Lift(Maxloc), bufs, k, root, strict, steps);
    first := MaxlocElement(bufs, count, root, i);
  }
}
