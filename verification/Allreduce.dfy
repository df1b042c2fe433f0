// Reduce results at the level of runs, what they depend on, and the reduce
// followed by a broadcast on one tag that makes an all-reduce.
module Allreduce {
  import opened Basics
  import opened Network
  import opened Runs
  import opened Reduce
  import opened ReduceLoop
  import opened Broadcast

  // In every completed run of a reduce, the root holds the fold of the
  // contributions in root-relative order.
  lemma ReduceRun<V(!new)>(op: (V, V) -> V, init: seq<V>, k: nat, root: nat, strict: bool, steps: seq<Step>)
    requires Associative(op) && root < |init| && 2 <= k
    requires AllMatched(|init|, ReduceProg(|init|, k, root))
    requires Run(op, ReduceProg(|init|, k, root), init, strict, steps).Some?
    requires Finished(ReduceProg(|init|, k, root), Run(op, ReduceProg(|init|, k, root), init, strict, steps).value)
    ensures Run(op, ReduceProg(|init|, k, root), init, strict, steps).value.accs[root]
         == FoldRange(op, init, root, 0, |init|)
  {
    EveryRunResult(op, ReduceProg(|init|, k, root), init, strict, steps);
    ReduceValue(op, init, k, root);
  }

  // ---------------------------------------------------------------------
  // Dependence on the root.

  // The fold over actual ranks lo .. hi - 1.
  lemma {:induction false} FoldRotated<V(!new)>(op: (V, V) -> V, init: seq<V>, root: nat, lo: nat, hi: nat)
    requires root < |init| && lo < hi <= |init|
    ensures hi <= |init| - root ==> FoldRange(op, init, root, lo, hi) == FoldRange(op, init, 0, lo + root, hi + root)
    ensures |init| - root <= lo ==>
              FoldRange(op, init, root, lo, hi) == FoldRange(op, init, 0, lo + root - |init|, hi + root - |init|)
  {
    if lo + 1 < hi {
      FoldRotated(op, init, root, lo, hi - 1);
    }
  }

  // With a commutative operator the fold is the same for every root.
  lemma ResultIndependentOfRoot<V(!new)>(op: (V, V) -> V, init: seq<V>, root: nat)
    requires Associative(op) && Commutative(op) && root < |init|
    ensures FoldRange(op, init, root, 0, |init|) == FoldRange(op, init, 0, 0, |init|)
  {
    var n := |init|;
    if root > 0 {
      var cut := n - root;
      FoldSplit(op, init, root, 0, cut, n);
      FoldRotated(op, init, root, 0, cut);
      FoldRotated(op, init, root, cut, n);
      FoldSplit(op, init, 0, 0, root, n);
      assert CommutesAt(op, FoldRange(op, init, 0, 0, root), FoldRange(op, init, 0, root, n));
    }
  }

  // Two reductions of the same contributions, whatever their radixes, roots, blocking
  // and interleavings, leave the same value at their roots.
  lemma ReduceRunsAgree<V(!new)>(op: (V, V) -> V, init: seq<V>, k: nat, root: nat, strict: bool, steps: seq<Step>,
                                 k': nat, root': nat, strict': bool, steps': seq<Step>)
    requires Associative(op) && Commutative(op) && root < |init| && root' < |init| && 2 <= k && 2 <= k'
    requires AllMatched(|init|, ReduceProg(|init|, k, root)) && AllMatched(|init|, ReduceProg(|init|, k', root'))
    requires Run(op, ReduceProg(|init|, k, root), init, strict, steps).Some?
    requires Run(op, ReduceProg(|init|, k', root'), init, strict', steps').Some?
    requires Finished(ReduceProg(|init|, k, root), Run(op, ReduceProg(|init|, k, root), init, strict, steps).value)
    requires Finished(ReduceProg(|init|, k', root'),
                      Run(op, ReduceProg(|init|, k', root'), init, strict', steps').value)
    ensures Run(op, ReduceProg(|init|, k, root), init, strict, steps).value.accs[root]
         == Run(op, ReduceProg(|init|, k', root'), init, strict', steps').value.accs[root']
  {
    ReduceRun(op, init, k, root, strict, steps);
    ReduceRun(op, init, k', root', strict', steps');
    ResultIndependentOfRoot(op, init, root);
    ResultIndependentOfRoot(op, init, root');
  }

  // ---------------------------------------------------------------------
  // The order of the operands. Section 5.9.1 of MPI 3.1 asks for x0 o x1 o ... with the
  // contributions in the order of ranks, where a o b is the operator with a as `in`.

  ghost function InOrder<V>(op: (V, V) -> V, xs: seq<V>): V
    requires xs != []
  {
    if |xs| == 1 then xs[0] else op(InOrder(op, xs[..|xs| - 1]), xs[|xs| - 1])
  }

  function Reversed<V>(xs: seq<V>): (r: seq<V>)
    ensures |r| == |xs| && forall i | 0 <= i < |xs| :: r[i] == xs[|xs| - 1 - i]
  {
    seq(|xs|, i requires 0 <= i < |xs| => xs[|xs| - 1 - i])
  }

  lemma {:induction false} InOrderFront<V(!new)>(op: (V, V) -> V, x: V, xs: seq<V>)
    requires Associative(op) && xs != []
    ensures InOrder(op, [x] + xs) == op(x, InOrder(op, xs))
    decreases |xs|
  {
    var all, last := [x] + xs, |xs| - 1;
    if last == 0 {
      assert all[..1] == [x];
    } else {
      assert all[..|all| - 1] == [x] + xs[..last];
      InOrderFront(op, x, xs[..last]);
      assert AssociatesAt(op, x, InOrder(op, xs[..last]), xs[last]);
    }
  }

  // At root 0 the contributions are combined in the reverse order of ranks.
  lemma {:induction false} ReversedAtRootZero<V(!new)>(op: (V, V) -> V, init: seq<V>, hi: nat)
    requires Associative(op) && 0 < hi <= |init|
    ensures FoldRange(op, init, 0, 0, hi) == InOrder(op, Reversed(init[..hi]))
  {
    if hi == 1 {
      assert Reversed(init[..1]) == [init[0]];
    } else {
      ReversedAtRootZero(op, init, hi - 1);
      assert Reversed(init[..hi]) == [init[hi - 1]] + Reversed(init[..hi - 1]);
      InOrderFront(op, init[hi - 1], Reversed(init[..hi - 1]));
    }
  }

  // With a commutative operator this is also the order of ranks, from every root.
  lemma {:induction false} OrderOfCommutative<V(!new)>(op: (V, V) -> V, init: seq<V>, hi: nat)
    requires Commutative(op) && 0 < hi <= |init|
    ensures FoldRange(op, init, 0, 0, hi) == InOrder(op, init[..hi])
  {
    if hi > 1 {
      OrderOfCommutative(op, init, hi - 1);
      assert init[..hi][..hi - 1] == init[..hi - 1];
      assert CommutesAt(op, init[hi - 1], FoldRange(op, init, 0, 0, hi - 1));
    }
  }

  lemma CommutativeInRankOrder<V(!new)>(op: (V, V) -> V, init: seq<V>, root: nat)
    requires Associative(op) && Commutative(op) && root < |init|
    ensures FoldRange(op, init, root, 0, |init|) == InOrder(op, init)
  {
    ResultIndependentOfRoot(op, init, root);
    OrderOfCommutative(op, init, |init|);
    assert init[..|init|] == init;
  }

  // Concatenation tells all orders apart.
  function Append(a: seq<nat>, b: seq<nat>): seq<nat> { a + b }

  lemma AppendAssociative()
    ensures Associative(Append)
  {
    forall a, b, c ensures AssociatesAt(Append, a, b, c) {
      assert a + b + c == a + (b + c);
    }
  }

  // s starts with x and ends with y.
  ghost predicate FromTo(s: seq<nat>, x: nat, y: nat) { s != [] && s[0] == x && s[|s| - 1] == y }

  function Singletons(n: nat): (init: seq<seq<nat>>)
    ensures |init| == n && forall i | 0 <= i < n :: init[i] == [i]
  {
    seq(n, i => [i])
  }

  lemma {:induction false} EndsOfFold(n: nat, root: nat, hi: nat)
    requires root < n && 0 < hi <= n
    ensures FromTo(FoldRange(Append, Singletons(n), root, 0, hi), Up(n, hi - 1, root), root)
  {
    if hi > 1 {
      EndsOfFold(n, root, hi - 1);
    }
  }

  lemma {:induction false} EndsOfOrder(xs: seq<seq<nat>>)
    requires xs != [] && forall i | 0 <= i < |xs| :: |xs[i]| == 1
    ensures FromTo(InOrder(Append, xs), xs[0][0], xs[|xs| - 1][0])
  {
    if |xs| > 1 {
      EndsOfOrder(xs[..|xs| - 1]);
    }
  }

  lemma ShortRankOrder<V>(op: (V, V) -> V, init: seq<V>, root: nat)
    requires |init| == 1 || (|init| == 2 && root == 1)
    requires root < |init|
    ensures FoldRange(op, init, root, 0, |init|) == InOrder(op, init)
  {
    if |init| == 2 {
      assert init[..1] == [init[0]];
      assert FoldRange(op, init, root, 0, 1) == init[Up(2, 0, 1)] == init[1];
    }
  }

  // An operator that is only associative is combined in the reverse order of ranks
  // exactly when the root is 0 ...
  lemma ReverseOrderIff(n: nat, root: nat)
    requires root < n
    ensures (forall init: seq<seq<nat>> | |init| == n ::
               FoldRange(Append, init, root, 0, n) == InOrder(Append, Reversed(init)))
       <==> root == 0
  {
    if root == 0 {
      forall init: seq<seq<nat>> | |init| == n
        ensures FoldRange(Append, init, 0, 0, n) == InOrder(Append, Reversed(init))
      {
        AppendAssociative();
        ReversedAtRootZero(Append, init, n);
        assert init[..n] == init;
      }
    } else {
      var init := Singletons(n);
      EndsOfFold(n, root, n);
      EndsOfOrder(Reversed(init));
      assert FoldRange(Append, init, root, 0, n) != InOrder(Append, Reversed(init));
    }
  }

  // ... and in the order of ranks exactly for one rank, or for two with root 1.
  lemma RankOrderIff(n: nat, root: nat)
    requires root < n
    ensures (forall init: seq<seq<nat>> | |init| == n ::
               FoldRange(Append, init, root, 0, n) == InOrder(Append, init))
       <==> n == 1 || (n == 2 && root == 1)
  {
    if n == 1 || (n == 2 && root == 1) {
      forall init: seq<seq<nat>> | |init| == n
        ensures FoldRange(Append, init, root, 0, n) == InOrder(Append, init)
      {
        ShortRankOrder(Append, init, root);
      }
    } else {
      var init := Singletons(n);
      EndsOfFold(n, root, n);
      EndsOfOrder(init);
      assert FoldRange(Append, init, root, 0, n) != InOrder(Append, init);
    }
  }

  // ---------------------------------------------------------------------
  // reduce_bcast.

  function AllreduceProg(n: nat, k: nat): Program
    requires 2 <= k && 0 < n
  {
    ReduceProg(n, k, 0) + BcastProg(n, 0)
  }

  lemma AllreduceMatched(n: nat, k: nat)
    requires 2 <= k && 0 < n
    ensures AllMatched(n, AllreduceProg(n, k))
    ensures AllMatched(n, ReduceProg(n, k, 0)) && AllMatched(n, BcastProg(n, 0))
  {
    ReduceMatched(n, k, 0, 1);
    BcastMatched(n, 0, MaskCount(n, 1));
  }

  lemma AllreduceValue<V(!new)>(op: (V, V) -> V, init: seq<V>, k: nat)
    requires Associative(op) && 2 <= k && init != []
    ensures AllMatched(|init|, AllreduceProg(|init|, k))
    ensures Exec(op, AllreduceProg(|init|, k), init) == seq(|init|, _ => FoldRange(op, init, 0, 0, |init|))
  {
    var n := |init|;
    AllreduceMatched(n, k);
    ExecConcat(op, ReduceProg(n, k, 0), BcastProg(n, 0), init);
    ReduceValue(op, init, k, 0);
    BcastValue(op, 0, Exec(op, ReduceProg(n, k, 0), init));
  }

  // Any rank that has returned holds the fold over all ranks, even while other
  // ranks are still in the reduce or the broadcast phase.
  lemma AllreduceRun<V(!new)>(op: (V, V) -> V, init: seq<V>, k: nat, strict: bool, steps: seq<Step>, r: nat)
    requires Associative(op) && 2 <= k && r < |init|
    requires AllMatched(|init|, AllreduceProg(|init|, k))
    requires Run(op, AllreduceProg(|init|, k), init, strict, steps).Some?
    ensures var s := Run(op, AllreduceProg(|init|, k), init, strict, steps).value;
            s.pcs[r].round == |AllreduceProg(|init|, k)| ==> s.accs[r] == FoldRange(op, init, 0, 0, |init|)
  {
    var prog := AllreduceProg(|init|, k);
    EveryRunAgrees(op, prog, init, strict, steps, r);
    AllreduceValue(op, init, k);
    assert prog[..|prog|] == prog;
  }

  lemma {:induction false} BcastAscends(n: nat, j: nat, i: nat, s: nat, d: nat)
    requires 0 < n && j <= MaskCount(n, 1) && s < n && i < |BcastFrom(n, 0, j)|
    requires AllMatched(n, BcastFrom(n, 0, j)) && BcastFrom(n, 0, j)[i].parts[s].dst == Some(d)
    ensures s < d
  {
    MasksBelow(n, 1, j - 1);
    if i == 0 {
      assert BcastFrom(n, 0, j)[0].parts[s] == BcastPart(n, 0, Shifted(1, j - 1), s);
    } else {
      BcastMatched(n, 0, j - 1);
      BcastAscends(n, j - 1, i - 1, s, d);
    }
  }

  // The reduce phase sends only to lower ranks and the broadcast phase only to
  // higher ones, so even without channel order a receive of one phase could not
  // match a send of the other: no channel is used by both.
  lemma PhasesUseDisjointChannels(n: nat, k: nat, i: nat, j: nat, s: nat, d: nat)
    requires 2 <= k && s < n && i < |ReduceProg(n, k, 0)| && j < |BcastProg(n, 0)|
    ensures AllMatched(n, ReduceProg(n, k, 0)) && AllMatched(n, BcastProg(n, 0))
    ensures ReduceProg(n, k, 0)[i].parts[s].dst == Some(d) ==> d < s
    ensures BcastProg(n, 0)[j].parts[s].dst == Some(d) ==> s < d
  {
    AllreduceMatched(n, k);
    if ReduceProg(n, k, 0)[i].parts[s].dst == Some(d) {
      assert Matched(n, ReduceProg(n, k, 0)[i]);
      EdgesDescend(n, k, 0, 1, i, s, d);
    }
    if BcastProg(n, 0)[j].parts[s].dst == Some(d) {
      BcastAscends(n, MaskCount(n, 1), j, s, d);
    }
  }

  // With count 0 only the broadcast, of no bytes, communicates.
  method AllreduceLoops(count: nat, k: int32, size: int32, rank: int32) returns (events: seq<Event>)
    requires 2 <= k && 0 <= rank < size <= 0x4000_0000 && Reach(1, k as nat, size as nat) <= INT_MAX
    ensures AllMatched(size as nat, AllreduceProg(size as nat, k as nat))
    ensures AllMatched(size as nat, BcastProg(size as nat, 0))
    ensures events == RankEvents(size as nat, if count == 0 then BcastProg(size as nat, 0)
                                              else AllreduceProg(size as nat, k as nat), rank as nat)
  {
    ghost var n, kn, rk := size as nat, k as nat, rank as nat;
    AllreduceMatched(n, kn);
    RankEventsConcat(n, ReduceProg(n, kn, 0), BcastProg(n, 0), rk);
    events := RadixReduceLoop(count, k, size, rank, 0);
    var bcast := BcastLoops(size, rank, 0);
    events := events + bcast;
  }
}
