// The radix-k tree reduction. Ranks are numbered relative to the root; at the
// level with stride p, a rank whose relative number is a multiple of p * k
// receives from the next k - 1 multiples of p and folds them in order, and every
// other multiple of p sends its partial result down to its group's first rank.
module Reduce {
  import opened Basics
  import opened Network

  lemma MulGrows(p: nat, k: nat)
    requires 0 < p && 2 <= k
    ensures 2 * p <= p * k
  {
    MulMonotone(2, k, p);
  }

  // The senders with relative ranks c, c + p, c + 2p, ... below hi and below n.
  function Children(n: nat, root: nat, p: nat, c: nat, hi: nat): seq<nat>
    requires 0 < p && root < n
    decreases hi - c
  {
    if c >= hi || c >= n then [] else [Up(n, c, root)] + Children(n, root, p, c + p, hi)
  }

  // One rank's part at stride p, with pk = p * k the stride of the next level.
  function ReducePart(n: nat, root: nat, p: nat, pk: nat, rank: nat): Part
    requires 0 < p && 0 < pk && root < n && rank < n
  {
    var rel := Down(n, rank, root);
    var d := Rem(rel, pk);
    if d == 0 then Part(Children(n, root, p, rel + p, rel + pk), None)
    else if rel % p == 0 then Part([], Some(Up(n, rel - d, root)))
    else Part([], None)
  }

  function ReduceRound(n: nat, k: nat, root: nat, p: nat): Round
    requires 0 < p && 2 <= k && root < n
  {
    MulGrows(p, k);
    Round(seq(n, rank requires 0 <= rank < n => ReducePart(n, root, p, p * k, rank)), Fold)
  }

  function ReduceFrom(n: nat, k: nat, root: nat, p: nat): Program
    requires 0 < p && 2 <= k && root < n
    decreases n - p
  {
    MulGrows(p, k);
    if p >= n then [] else [ReduceRound(n, k, root, p)] + ReduceFrom(n, k, root, p * k)
  }

  function ReduceProg(n: nat, k: nat, root: nat): Program
    requires 2 <= k && root < n
  {
    ReduceFrom(n, k, root, 1)
  }

  // ---------------------------------------------------------------------
  // Sends are the converse of receives.

  lemma {:induction false} ChildrenMembers(n: nat, root: nat, p: nat, c: nat, hi: nat, x: nat)
    requires 0 < p && root < n && x < n && c % p == 0
    ensures Up(n, x, root) in Children(n, root, p, c, hi) <==> c <= x < hi && x % p == 0
    decreases hi - c
  {
    if c < hi && c < n {
      NextMultiple(c, p);
      ChildrenMembers(n, root, p, c + p, hi, x);
      if c < x && x % p == 0 {
        MultiplesApart(c, x, p);
      }
      assert Up(n, x, root) == Up(n, c, root) <==> x == c;
    }
  }

  lemma {:induction false} ChildrenDistinct(n: nat, root: nat, p: nat, c: nat, hi: nat)
    requires 0 < p && root < n && c % p == 0
    ensures Distinct(Children(n, root, p, c, hi))
    ensures InRange(Children(n, root, p, c, hi), n)
    decreases hi - c
  {
    if c < hi && c < n {
      NextMultiple(c, p);
      ChildrenDistinct(n, root, p, c + p, hi);
      ChildrenMembers(n, root, p, c + p, hi, c);
    }
  }

  // x sends to y at stride p: both readings of "y is the first rank of x's group".
  lemma GroupOf(x: nat, y: nat, p: nat, k: nat)
    requires 0 < p && 2 <= k && x % p == 0
    ensures 0 < p * k
    ensures x % (p * k) != 0 && y == x - x % (p * k)
       <==> y % (p * k) == 0 && y + p <= x < y + p * k
  {
    MulGrows(p, k);
    var q, i := SplitDigit(x, p, k);
    if x % (p * k) != 0 && y == x - x % (p * k) {
      DivModUnique(y, p * k, q, 0);
      MulMonotone(1, i, p);
    }
    if y % (p * k) == 0 && y + p <= x < y + p * k {
      DivModUnique(x, p * k, y / (p * k), x - y);
    }
  }

  lemma ReceivesFrom(n: nat, k: nat, root: nat, p: nat, pk: nat, x: nat, y: nat)
    requires 0 < p && 0 < k && 0 < pk == p * k && root < n && x < n && y < n
    ensures Up(n, x, root) in ReducePart(n, root, p, pk, Up(n, y, root)).recvs
       <==> y % pk == 0 && y + p <= x < y + pk && x % p == 0
  {
    assert Down(n, Up(n, y, root), root) == y;
    if y % pk == 0 {
      ModOfMultiple(y, p, k);
      NextMultiple(y, p);
      ChildrenMembers(n, root, p, y + p, y + pk, x);
    }
  }

  lemma SendTarget(n: nat, root: nat, x: nat, t: int, y: nat)
    requires root < n && x < n && y < n && 0 <= t <= x
    ensures Up(n, t, root) == Up(n, y, root) <==> t == y
  {
  }

  lemma SendsTo(n: nat, root: nat, p: nat, pk: nat, x: nat, y: nat)
    requires 0 < p && 0 < pk && root < n && x < n && y < n
    ensures ReducePart(n, root, p, pk, Up(n, x, root)).dst == Some(Up(n, y, root))
       <==> x % p == 0 && x % pk != 0 && y == x - x % pk
  {
    assert Down(n, Up(n, x, root), root) == x;
    SendTarget(n, root, x, x - Rem(x, pk), y);
  }

  lemma ReducePartsMatch(n: nat, k: nat, root: nat, p: nat, pk: nat, s: nat, d: nat)
    requires 0 < p && 2 <= k && 0 < pk == p * k && root < n && s < n && d < n
    ensures ReducePart(n, root, p, pk, s).dst == Some(d) <==> s in ReducePart(n, root, p, pk, d).recvs
  {
    var x, y := Down(n, s, root), Down(n, d, root);
    assert s == Up(n, x, root) && d == Up(n, y, root);
    ReceivesFrom(n, k, root, p, pk, x, y);
    SendsTo(n, root, p, pk, x, y);
    if x % p == 0 {
      GroupOf(x, y, p, k);
    }
  }

  lemma ReduceRoundMatched(n: nat, k: nat, root: nat, p: nat)
    requires 0 < p && 2 <= k && root < n
    ensures Matched(n, ReduceRound(n, k, root, p))
  {
    MulGrows(p, k);
    var round := ReduceRound(n, k, root, p);
    forall d: nat | d < n
      ensures Distinct(round.parts[d].recvs) && InRange(round.parts[d].recvs, n)
    {
      var y := Down(n, d, root);
      if y % (p * k) == 0 {
        ModOfMultiple(y, p, k);
        NextMultiple(y, p);
        ChildrenDistinct(n, root, p, y + p, y + p * k);
      }
    }
    forall s: nat, d: nat | s < n && d < n
      ensures round.parts[s].dst == Some(d) <==> s in round.parts[d].recvs
    {
      ReducePartsMatch(n, k, root, p, p * k, s, d);
    }
  }

  lemma {:induction false} ReduceMatched(n: nat, k: nat, root: nat, p: nat)
    requires 0 < p && 2 <= k && root < n
    ensures AllMatched(n, ReduceFrom(n, k, root, p))
    decreases n - p
  {
    MulGrows(p, k);
    if p < n {
      ReduceRoundMatched(n, k, root, p);
      ReduceMatched(n, k, root, p * k);
    }
  }

  // ---------------------------------------------------------------------
  // The value at the root.

  ghost predicate AssociatesAt<V>(op: (V, V) -> V, a: V, b: V, c: V) {
    op(op(a, b), c) == op(a, op(b, c))
  }

  ghost predicate Associative<V(!new)>(op: (V, V) -> V) {
    forall a, b, c :: AssociatesAt(op, a, b, c)
  }

  ghost predicate CommutesAt<V>(op: (V, V) -> V, a: V, b: V) {
    op(a, b) == op(b, a)
  }

  ghost predicate Commutative<V(!new)>(op: (V, V) -> V) {
    forall a, b :: CommutesAt(op, a, b)
  }

  // The fold of the contributions of relative ranks lo, lo + 1, ..., hi - 1: each is
  // combined as `in` with the result of those before it as `inout`.
  ghost function FoldRange<V>(op: (V, V) -> V, init: seq<V>, root: nat, lo: nat, hi: nat): V
    requires root < |init| && lo < hi <= |init|
  {
    if lo + 1 == hi then init[Up(|init|, lo, root)]
    else op(init[Up(|init|, hi - 1, root)], FoldRange(op, init, root, lo, hi - 1))
  }

  lemma {:induction false} FoldSplit<V(!new)>(op: (V, V) -> V, init: seq<V>, root: nat, a: nat, b: nat, c: nat)
    requires Associative(op) && root < |init| && a < b < c <= |init|
    ensures FoldRange(op, init, root, a, c)
         == op(FoldRange(op, init, root, b, c), FoldRange(op, init, root, a, b))
  {
    if b + 1 < c {
      FoldSplit(op, init, root, a, b, c - 1);
      assert AssociatesAt(op, init[Up(|init|, c - 1, root)], FoldRange(op, init, root, b, c - 1),
                          FoldRange(op, init, root, a, b));
    }
  }

  // At stride p every active rank holds the fold over its block of p relative ranks.
  ghost predicate LevelHolds<V>(op: (V, V) -> V, init: seq<V>, root: nat, p: nat, vals: seq<V>)
    requires root < |init| && 0 < p && |vals| == |init|
  {
    forall rel: nat | rel < |init| && rel % p == 0 ::
      vals[Up(|init|, rel, root)] == FoldRange(op, init, root, rel, Min(rel + p, |init|))
  }

  lemma {:induction false} AbsorbChildren<V(!new)>(op: (V, V) -> V, init: seq<V>, root: nat, p: nat, vals: seq<V>,
                                                  acc: V, rel: nat, c: nat, hi: nat)
    requires Associative(op) && root < |init| && 0 < p && |vals| == |init|
    requires LevelHolds(op, init, root, p, vals)
    requires rel < |init| && rel < c <= hi && c % p == 0 && hi % p == 0
    requires acc == FoldRange(op, init, root, rel, Min(c, |init|))
    ensures InRange(Children(|init|, root, p, c, hi), |init|)
    ensures Absorb(Fold, op, acc, vals, Children(|init|, root, p, c, hi))
         == FoldRange(op, init, root, rel, Min(hi, |init|))
    decreases hi - c
  {
    var n := |init|;
    if c < hi && c < n {
      NextMultiple(c, p);
      MultiplesApart(c, hi, p);
      var next := op(vals[Up(n, c, root)], acc);
      assert next == FoldRange(op, init, root, rel, Min(c + p, n)) by {
        FoldSplit(op, init, root, rel, c, Min(c + p, n));
        assert vals[Up(n, c, root)] == FoldRange(op, init, root, c, Min(c + p, n));
      }
      AbsorbChildren(op, init, root, p, vals, next, rel, c + p, hi);
      AbsorbCons(Fold, op, acc, vals, Up(n, c, root), Children(n, root, p, c + p, hi));
    }
  }

  lemma LeaderReceives(n: nat, k: nat, root: nat, p: nat, pk: nat, rel: nat)
    requires 0 < p && 2 <= k && root < n && 0 < pk == p * k && rel < n && rel % pk == 0
    ensures |ReduceRound(n, k, root, p).parts| == n
    ensures ReduceRound(n, k, root, p).parts[Up(n, rel, root)].recvs == Children(n, root, p, rel + p, rel + pk)
  {
    MulGrows(p, k);
    assert Down(n, Up(n, rel, root), root) == rel;
  }

  lemma LeaderFolds<V(!new)>(op: (V, V) -> V, init: seq<V>, k: nat, root: nat, p: nat, pk: nat, vals: seq<V>, rel: nat)
    requires Associative(op) && root < |init| && 0 < p && 2 <= k && |vals| == |init| && 0 < pk == p * k
    requires LevelHolds(op, init, root, p, vals) && rel < |init| && rel % pk == 0
    ensures InRange(Children(|init|, root, p, rel + p, rel + pk), |init|)
    ensures Absorb(Fold, op, vals[Up(|init|, rel, root)], vals, Children(|init|, root, p, rel + p, rel + pk))
         == FoldRange(op, init, root, rel, Min(rel + pk, |init|))
  {
    MulGrows(p, k);
    ModOfMultiple(rel, p, k);
    NextMultiple(rel, p);
    StrideMultiple(rel, p, k);
    AbsorbChildren(op, init, root, p, vals, vals[Up(|init|, rel, root)], rel, rel + p, rel + pk);
  }

  lemma LeaderAfter<V(!new)>(op: (V, V) -> V, init: seq<V>, k: nat, root: nat, p: nat, pk: nat, vals: seq<V>, rel: nat)
    requires Associative(op) && root < |init| && 0 < p && 2 <= k && |vals| == |init| && 0 < pk == p * k
    requires LevelHolds(op, init, root, p, vals) && Matched(|init|, ReduceRound(|init|, k, root, p))
    requires rel < |init| && rel % pk == 0
    ensures ExecRound(op, ReduceRound(|init|, k, root, p), vals)[Up(|init|, rel, root)]
         == FoldRange(op, init, root, rel, Min(rel + pk, |init|))
  {
    LeaderReceives(|init|, k, root, p, pk, rel);
    LeaderFolds(op, init, k, root, p, pk, vals, rel);
    ExecRoundAt(op, ReduceRound(|init|, k, root, p), vals, Up(|init|, rel, root), Fold,
                Children(|init|, root, p, rel + p, rel + pk));
  }

  // A round in which every leader receives from its children raises the level.
  lemma LevelAfterRound<V(!new)>(op: (V, V) -> V, init: seq<V>, k: nat, root: nat, p: nat, pk: nat, vals: seq<V>)
    requires Associative(op) && root < |init| && 0 < p && 2 <= k && |vals| == |init| && 0 < pk == p * k
    requires LevelHolds(op, init, root, p, vals) && Matched(|init|, ReduceRound(|init|, k, root, p))
    ensures LevelHolds(op, init, root, pk, ExecRound(op, ReduceRound(|init|, k, root, p), vals))
  {
    forall rel: nat | rel < |init| && rel % pk == 0
      ensures ExecRound(op, ReduceRound(|init|, k, root, p), vals)[Up(|init|, rel, root)]
           == FoldRange(op, init, root, rel, Min(rel + pk, |init|))
    {
      LeaderAfter(op, init, k, root, p, pk, vals, rel);
    }
  }

  lemma FirstLevel<V(!new)>(op: (V, V) -> V, init: seq<V>, k: nat, root: nat, p: nat, vals: seq<V>)
    returns (next: seq<V>)
    requires Associative(op) && root < |init| && 0 < p && 2 <= k && |vals| == |init|
    requires LevelHolds(op, init, root, p, vals) && p < |init|
    ensures 0 < p * k && |next| == |init| && LevelHolds(op, init, root, p * k, next)
    ensures AllMatched(|init|, ReduceFrom(|init|, k, root, p)) && AllMatched(|init|, ReduceFrom(|init|, k, root, p * k))
    ensures Exec(op, ReduceFrom(|init|, k, root, p), vals) == Exec(op, ReduceFrom(|init|, k, root, p * k), next)
  {
    var n := |init|;
    MulGrows(p, k);
    ReduceMatched(n, k, root, p);
    ReduceMatched(n, k, root, p * k);
    ReduceRoundMatched(n, k, root, p);
    ExecCons(op, ReduceRound(n, k, root, p), ReduceFrom(n, k, root, p * k), vals);
    next := ExecRound(op, ReduceRound(n, k, root, p), vals);
    LevelAfterRound(op, init, k, root, p, p * k, vals);
  }

  lemma {:induction false} LevelsToRoot<V(!new)>(op: (V, V) -> V, init: seq<V>, k: nat, root: nat, p: nat, vals: seq<V>)
    requires Associative(op) && root < |init| && 0 < p && 2 <= k && |vals| == |init|
    requires LevelHolds(op, init, root, p, vals)
    ensures AllMatched(|init|, ReduceFrom(|init|, k, root, p))
    ensures Exec(op, ReduceFrom(|init|, k, root, p), vals)[root] == FoldRange(op, init, root, 0, |init|)
    decreases |init| - p
  {
    if p >= |init| {
      DivModUnique(0, p, 0, 0);
      assert vals[Up(|init|, 0, root)] == FoldRange(op, init, root, 0, Min(0 + p, |init|));
    } else {
      MulGrows(p, k);
      var next := FirstLevel(op, init, k, root, p, vals);
      LevelsToRoot(op, init, k, root, p * k, next);
    }
  }

  // For every number of ranks, root, radix and associative operator the root ends
  // with the fold over relative ranks 0, 1, ..., n - 1.
  lemma ReduceValue<V(!new)>(op: (V, V) -> V, init: seq<V>, k: nat, root: nat)
    requires Associative(op) && root < |init| && 2 <= k
    ensures AllMatched(|init|, ReduceProg(|init|, k, root))
    ensures Exec(op, ReduceProg(|init|, k, root), init)[root] == FoldRange(op, init, root, 0, |init|)
  {
    forall rel: nat | rel < |init| && rel % 1 == 0
      ensures init[Up(|init|, rel, root)] == FoldRange(op, init, root, rel, Min(rel + 1, |init|))
    {
    }
    LevelsToRoot(op, init, k, root, 1, init);
  }
}
