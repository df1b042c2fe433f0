// The loop one rank runs in radix_k_tree_reduce, in C ints, linked to its part
// of the radix-k program; and the shape of the tree those loops build together.
module ReduceLoop {
  import opened Basics
  import opened Network
  import opened Runs
  import opened Reduce

  // ---------------------------------------------------------------------
  // The tree.

  // How many messages rank r sends in the whole program.
  ghost function SendsMade(n: nat, prog: Program, r: nat): nat
    requires AllMatched(n, prog) && r < n
  {
    if prog == [] then 0
    else
      assert AllMatched(n, prog[1..]) && Matched(n, prog[0]);
      (if prog[0].parts[r].dst.Some? then 1 else 0) + SendsMade(n, prog[1..], r)
  }

  lemma SmallMod(x: nat, p: nat)
    requires x < p
    ensures x % p == x
  {
    DivModUnique(x, p, 0, x);
  }

  // Every rank but the root sends exactly once; the root never sends.
  lemma {:induction false} SendsOnce(n: nat, k: nat, root: nat, p: nat, r: nat)
    requires 0 < p && 2 <= k && root < n && r < n
    ensures AllMatched(n, ReduceFrom(n, k, root, p))
    ensures SendsMade(n, ReduceFrom(n, k, root, p), r)
         == if Down(n, r, root) % p == 0 && r != root then 1 else 0
    decreases n - p
  {
    var rel, pk := Down(n, r, root), p * k;
    ReduceMatched(n, k, root, p);
    MulGrows(p, k);
    if p >= n {
      SmallMod(rel, p);
    } else {
      assert ReduceFrom(n, k, root, p)[1..] == ReduceFrom(n, k, root, pk);
      SendsOnce(n, k, root, pk, r);
      assert ReduceFrom(n, k, root, p)[0].parts[r] == ReducePart(n, root, p, pk, r);
      if rel % pk == 0 {
        ModOfMultiple(rel, p, k);
      }
    }
  }

  // Every edge goes to a rank closer to the root in relative numbering.
  lemma {:induction false} EdgesDescend(n: nat, k: nat, root: nat, p: nat, i: nat, s: nat, d: nat)
    requires 0 < p && 2 <= k && root < n && s < n && d < n && i < |ReduceFrom(n, k, root, p)|
    requires AllMatched(n, ReduceFrom(n, k, root, p))
    requires ReduceFrom(n, k, root, p)[i].parts[s].dst == Some(d)
    ensures Down(n, d, root) < Down(n, s, root)
    decreases n - p
  {
    MulGrows(p, k);
    var x, y := Down(n, s, root), Down(n, d, root);
    if i == 0 {
      assert s == Up(n, x, root) && d == Up(n, y, root);
      SendsTo(n, root, p, p * k, x, y);
    } else {
      ReduceMatched(n, k, root, p * k);
      EdgesDescend(n, k, root, p * k, i - 1, s, d);
    }
  }

  lemma {:induction false} SomeSend(n: nat, prog: Program, r: nat) returns (i: nat)
    requires AllMatched(n, prog) && r < n && SendsMade(n, prog, r) > 0
    ensures i < |prog| && r < |prog[i].parts| && prog[i].parts[r].dst.Some?
  {
    assert Matched(n, prog[0]);
    if prog[0].parts[r].dst.Some? {
      i := 0;
    } else {
      i := SomeSend(n, prog[1..], r);
      i := i + 1;
    }
  }

  ghost predicate Edge(prog: Program, s: nat, d: nat) {
    exists i :: 0 <= i < |prog| && s < |prog[i].parts| && prog[i].parts[s].dst == Some(d)
  }

  ghost predicate Path(prog: Program, path: seq<nat>) {
    forall i | 0 <= i < |path| - 1 :: Edge(prog, path[i], path[i + 1])
  }

  // With one edge out of each of the other n - 1 ranks, the sends form a tree
  // rooted at the root: following them from any rank arrives there.
  lemma {:induction false} PathToRoot(n: nat, k: nat, root: nat, r: nat) returns (path: seq<nat>)
    requires 2 <= k && root < n && r < n
    ensures path != [] && path[0] == r && path[|path| - 1] == root
    ensures Path(ReduceProg(n, k, root), path)
    decreases Down(n, r, root)
  {
    if r == root {
      path := [r];
    } else {
      var prog := ReduceProg(n, k, root);
      ReduceMatched(n, k, root, 1);
      SendsOnce(n, k, root, 1, r);
      var i := SomeSend(n, prog, r);
      assert Matched(n, prog[i]);
      var d := prog[i].parts[r].dst.value;
      EdgesDescend(n, k, root, 1, i, r, d);
      var rest := PathToRoot(n, k, root, d);
      path := [r] + rest;
      assert Edge(prog, r, d);
      forall j | 0 <= j < |path| - 1 ensures Edge(prog, path[j], path[j + 1]) {
        if j > 0 {
          assert Edge(prog, rest[j - 1], rest[j]);
        }
      }
    }
  }

  // p after j iterations of `p *= k`.
  function Scaled(p: nat, k: nat, j: nat): nat { if j == 0 then p else Scaled(p, k, j - 1) * k }

  lemma {:induction false} ScaledOnce(p: nat, k: nat, j: nat)
    ensures Scaled(p * k, k, j) == Scaled(p, k, j + 1)
  {
    if j > 0 {
      ScaledOnce(p, k, j - 1);
    }
  }

  // The level loop runs until the first power of k that reaches n.
  lemma {:induction false} LevelCount(n: nat, k: nat, root: nat, p: nat)
    requires 0 < p && 2 <= k && root < n
    ensures n <= Scaled(p, k, |ReduceFrom(n, k, root, p)|)
    ensures forall j: nat | j < |ReduceFrom(n, k, root, p)| :: Scaled(p, k, j) < n
    decreases n - p
  {
    MulGrows(p, k);
    if p < n {
      LevelCount(n, k, root, p * k);
      var rest := |ReduceFrom(n, k, root, p * k)|;
      ScaledOnce(p, k, rest);
      forall j: nat | j < rest + 1 ensures Scaled(p, k, j) < n {
        if j > 0 {
          ScaledOnce(p, k, j - 1);
        }
      }
    }
  }

  // The least power of k, times p, that reaches n.
  function Reach(p: nat, k: nat, n: nat): (m: nat)
    requires 0 < p && 2 <= k
    ensures p <= m && n <= m
    decreases n - p
  {
    MulGrows(p, k);
    if n <= p then p else Reach(p * k, k, n)
  }

  // It is the stride after the last level, so by LevelCount the least power that does.
  lemma {:induction false} ReachIsStride(n: nat, k: nat, root: nat, p: nat)
    requires 0 < p && 2 <= k && root < n
    ensures Reach(p, k, n) == Scaled(p, k, |ReduceFrom(n, k, root, p)|)
    decreases n - p
  {
    MulGrows(p, k);
    if p < n {
      ReachIsStride(n, k, root, p * k);
      ScaledOnce(p, k, |ReduceFrom(n, k, root, p * k)|);
    }
  }

  lemma NextStrideReached(p: nat, k: nat, n: nat)
    requires 0 < p < n && 2 <= k
    ensures p * k <= Reach(p, k, n) == Reach(p * k, k, n)
  {
    MulGrows(p, k);
  }

  // ---------------------------------------------------------------------
  // The ints the root computes.

  // One of the inner loops, from child number i on: the offset of the child, its
  // relative rank (the same at the root) and, if there is such a rank, its rank
  // before the modulo.
  function ChildInts(n: nat, k: nat, root: nat, p: nat, i: nat, ip: nat): (ints: seq<nat>)
    decreases k - i
  {
    if i >= k then []
    else if ip >= n then [ip]
    else [ip, ip + root] + ChildInts(n, k, root, p, i + 1, ip + p)
  }

  // The level loop from stride p on.
  function RootInts(n: nat, k: nat, root: nat, p: nat): seq<nat>
    requires 0 < p && 2 <= k && root < n
    decreases n - p
  {
    MulGrows(p, k);
    if p >= n then [] else [p * k] + ChildInts(n, k, root, p, 1, p) + RootInts(n, k, root, p * k)
  }

  ghost predicate AllFit(ints: seq<nat>) { forall x | x in ints :: x <= INT_MAX }

  lemma AllFitConcat(a: seq<nat>, b: seq<nat>)
    ensures AllFit(a + b) <==> AllFit(a) && AllFit(b)
  {
    assert forall x | x in a + b :: x in a || x in b;
    assert forall x | x in a || x in b :: x in a + b;
  }

  lemma {:induction false} ChildIntsFit(n: nat, k: nat, root: nat, p: nat, i: nat, ip: nat)
    requires n <= 0x4000_0000 && root < n && p < n && ip < n + p
    ensures AllFit(ChildInts(n, k, root, p, i, ip))
    decreases k - i
  {
    if i < k && ip < n {
      ChildIntsFit(n, k, root, p, i + 1, ip + p);
      AllFitConcat([ip, ip + root], ChildInts(n, k, root, p, i + 1, ip + p));
    }
  }

  // Up to 2^30 ranks no int overflows at the root exactly when the least power of the
  // radix that reaches the number of ranks is at most INT_MAX.
  lemma {:induction false} RootIntsFitFrom(n: nat, k: nat, root: nat, p: nat)
    requires 0 < p && 2 <= k && root < n <= 0x4000_0000
    ensures p < n ==> (AllFit(RootInts(n, k, root, p)) <==> Reach(p, k, n) <= INT_MAX)
    decreases n - p
  {
    MulGrows(p, k);
    if p < n {
      var pk := p * k;
      NextStrideReached(p, k, n);
      RootIntsFitFrom(n, k, root, pk);
      ChildIntsFit(n, k, root, p, 1, p);
      AllFitConcat([pk], ChildInts(n, k, root, p, 1, p));
      AllFitConcat([pk] + ChildInts(n, k, root, p, 1, p), RootInts(n, k, root, pk));
      assert pk in [pk];
      if n <= pk {
        assert RootInts(n, k, root, pk) == [] && Reach(pk, k, n) == pk;
      }
    }
  }

  lemma RootIntsFitIff(n: nat, k: nat, root: nat)
    requires 2 <= k && root < n <= 0x4000_0000
    ensures AllFit(RootInts(n, k, root, 1)) <==> Reach(1, k, n) <= INT_MAX
  {
    RootIntsFitFrom(n, k, root, 1);
  }

  // 65537 ranks with radix 65536: the second level computes 2^32, which an int takes
  // for the zero it then divides by.
  lemma RadixOverflows(root: nat)
    requires root < 65537
    ensures 0x1_0000_0000 in RootInts(65537, 65536, root, 1) && ToInt(0x1_0000_0000) == 0
    ensures Reach(1, 65536, 65537) > INT_MAX
  {
    var n, k := 65537, 65536;
    assert 1 * k == 65536 && 65536 * k == 0x1_0000_0000;
    var second := RootInts(n, k, root, 65536);
    assert second[0] == 0x1_0000_0000;
    assert RootInts(n, k, root, 1) == ([1 * k] + ChildInts(n, k, root, 1, 1, 1)) + second;
    assert second[0] in second;
  }

  // Three ranks with the largest int as radix: the only level computes that int.
  lemma LargestRadixFits(root: nat)
    requires root < 3
    ensures Reach(1, INT_MAX, 3) == INT_MAX && AllFit(RootInts(3, INT_MAX, root, 1))
  {
    assert 1 * INT_MAX == INT_MAX;
    RootIntsFitIff(3, INT_MAX, root);
  }

  // ---------------------------------------------------------------------
  // The loop.

  ghost function ReduceEvents(n: nat, k: nat, root: nat, p: nat, rank: nat): seq<Event>
    requires 0 < p && 2 <= k && root < n && rank < n
  {
    ReduceMatched(n, k, root, p);
    RankEvents(n, ReduceFrom(n, k, root, p), rank)
  }

  lemma ReduceIteration(n: nat, k: nat, root: nat, p: nat, rank: nat)
    requires 0 < p < n && 2 <= k && root < n && rank < n
    ensures 0 < p * k
    ensures ReduceEvents(n, k, root, p, rank)
         == PartEvents(ReducePart(n, root, p, p * k, rank)) + ReduceEvents(n, k, root, p * k, rank)
  {
    MulGrows(p, k);
    ReduceMatched(n, k, root, p);
    ReduceMatched(n, k, root, p * k);
    assert ReduceFrom(n, k, root, p)[1..] == ReduceFrom(n, k, root, p * k);
  }

  // A rank that has left the loop takes no part in the remaining levels.
  lemma {:induction false} SilentAfterSend(n: nat, k: nat, root: nat, p: nat, rank: nat)
    requires 0 < p && 2 <= k && root < n && rank < n && Down(n, rank, root) % p != 0
    ensures ReduceEvents(n, k, root, p, rank) == []
    decreases n - p
  {
    MulGrows(p, k);
    if p < n {
      if Down(n, rank, root) % (p * k) == 0 {
        ModOfMultiple(Down(n, rank, root), p, k);
      }
      ReduceIteration(n, k, root, p, rank);
      SilentAfterSend(n, k, root, p * k, rank);
    }
  }

  function Strides(j: nat, p: nat): nat { if j == 0 then 0 else Strides(j - 1, p) + p }

  lemma {:induction false} StridesIsProduct(j: nat, p: nat)
    ensures Strides(j, p) == j * p == p * j
  {
    if j > 0 {
      StridesIsProduct(j - 1, p);
      assert j * p == (j - 1) * p + p;
    }
  }

  lemma {:induction false} StridesMonotone(i: nat, j: nat, p: nat)
    requires i <= j
    ensures Strides(i, p) <= Strides(j, p)
  {
    if i < j {
      StridesMonotone(i, j - 1, p);
    }
  }

  function RelSource(relRank: int32, i: int32, p: int32): (r: int32)
    requires 0 <= relRank && 0 <= i && 0 <= p && relRank as nat + Strides(i as nat, p as nat) <= INT_MAX
    ensures r as int == relRank as int + Strides(i as nat, p as nat)
  {
    StridesIsProduct(i as nat, p as nat);
    relRank + i * p
  }

  // One of the two inner loops over i = 1 .. k - 1: the sources it goes through.
  method ChildLoop(k: int32, size: int32, root: int32, relRank: int32, p: int32) returns (srcs: seq<nat>)
    requires 2 <= k && 0 <= root < size && 0 <= relRank < size <= 0x4000_0000 && 0 < p < size
    ensures srcs == Children(size as nat, root as nat, p as nat, relRank as nat + p as nat,
                             relRank as nat + p as nat * k as nat)
  {
    ghost var n, kn, rt, rel, pn := size as nat, k as nat, root as nat, relRank as nat, p as nat;
    ghost var hi := rel + Strides(kn, pn);
    StridesIsProduct(kn, pn);
    ghost var all := Children(n, rt, pn, rel + pn, hi);
    ghost var rest, j: nat := all, 1;
    srcs := [];
    var i: int32 := 1;
    while i < k
      invariant i as int == j && 1 <= j <= kn && Strides(j, pn) < n - rel + pn
      invariant rest == Children(n, rt, pn, rel + Strides(j, pn), hi) && srcs + rest == all
      decreases kn - j
    {
      StridesMonotone(j + 1, kn, pn);
      var relSrc := RelSource(relRank, i, p);
      if relSrc >= size {
        break;
      }
      var src := AddRank(relSrc, root, size);
      rest := Children(n, rt, pn, rel + Strides(j + 1, pn), hi);
      ConcatAssociative(srcs, [src as nat], rest);
      srcs := srcs + [src as nat];
      i, j := i + 1, j + 1;
    }
    assert rest == [];
  }

  // The body of the level loop: a leader receives from its children and folds
  // them in order, any other rank sends its partial result and leaves the loop.
  method ReduceLevel(k: int32, size: int32, root: int32, relRank: int32, p: int32)
    returns (events: seq<Event>, sent: bool)
    requires 2 <= k && 0 <= root < size && 0 <= relRank < size <= 0x4000_0000 && 0 < p < size
    requires 0 < p as int * k as int <= INT_MAX && relRank as nat % p as nat == 0
    ensures 0 < p as nat * k as nat
    ensures events == PartEvents(ReducePart(size as nat, root as nat, p as nat, p as nat * k as nat,
                                            Up(size as nat, relRank as nat, root as nat)))
    ensures sent <==> relRank as nat % (p as nat * k as nat) != 0
  {
    ghost var n, rel, pk := size as nat, relRank as nat, p as nat * k as nat;
    assert Down(n, Up(n, rel, root as nat), root as nat) == rel;
    var d := relRank % (p * k);
    assert d as nat == rel % pk;
    if d == 0 {
      var posted := ChildLoop(k, size, root, relRank, p);
      var waited := ChildLoop(k, size, root, relRank, p);
      assert Posts(posted) + [] + Waits(waited) == Posts(posted) + Waits(waited);
      events := Posts(posted) + Waits(waited);
    } else {
      assert d as nat == Rem(rel, pk);
      var dest := relRank - d + root;
      if dest >= size {
        dest := dest - size;
      }
      events := [SendTo(dest as nat)];
    }
    sent := d != 0;
  }

  // One iteration: what it does, and the stride it leaves for the next one.
  method ReduceStep(k: int32, size: int32, rank: int32, root: int32, relRank: int32, p: int32)
    returns (events: seq<Event>, sent: bool, next: int32)
    requires 2 <= k && 0 <= root < size <= 0x4000_0000 && 0 <= rank < size && 0 <= relRank < size && 0 < p < size
    requires p as int * k as int <= INT_MAX
    requires relRank as nat == Down(size as nat, rank as nat, root as nat) && relRank as nat % p as nat == 0
    ensures sent ==> events == ReduceEvents(size as nat, k as nat, root as nat, p as nat, rank as nat)
    ensures !sent ==> p < next && next as int == p as int * k as int && relRank as nat % next as nat == 0
    ensures !sent ==> (
      events + ReduceEvents(size as nat, k as nat, root as nat, next as nat, rank as nat)
      == ReduceEvents(size as nat, k as nat, root as nat, p as nat, rank as nat))
  {
    ghost var n, pk := size as nat, p as nat * k as nat;
    MulGrows(p as nat, k as nat);
    ReduceIteration(n, k as nat, root as nat, p as nat, rank as nat);
    events, sent := ReduceLevel(k, size, root, relRank, p);
    if sent {
      SilentAfterSend(n, k as nat, root as nat, pk, rank as nat);
    }
    next := p * k;
  }

  // The level loop, which ends after the last level or when the rank has sent.
  method LevelLoop(k: int32, size: int32, rank: int32, root: int32, relRank: int32) returns (events: seq<Event>)
    requires 2 <= k && 0 <= rank < size && 0 <= root < size && 0 <= relRank < size <= 0x4000_0000
    requires Reach(1, k as nat, size as nat) <= INT_MAX
    requires relRank as nat == Down(size as nat, rank as nat, root as nat)
    ensures events == ReduceEvents(size as nat, k as nat, root as nat, 1, rank as nat)
  {
    ghost var n, kn, rt, rk, rel := size as nat, k as nat, root as nat, rank as nat, relRank as nat;
    ghost var all := ReduceEvents(n, kn, rt, 1, rk);
    ghost var rest, pn: nat := all, 1;
    events := [];
    var p: int32, sent := 1, false;
    while p < size && !sent
      invariant p as int == pn && 0 < pn && Reach(pn, kn, n) <= INT_MAX
      invariant !sent ==> rel % pn == 0
      invariant events + rest == all
      invariant rest == if sent then [] else ReduceEvents(n, kn, rt, pn, rk)
      decreases if sent then 0 else 1, n - pn
    {
      var call, next;
      NextStrideReached(pn, kn, n);
      call, sent, next := ReduceStep(k, size, rank, root, relRank, p);
      if sent {
        rest := [];
      } else {
        p, pn := next, next as nat;
        rest := ReduceEvents(n, kn, rt, pn, rk);
      }
      ConcatAssociative(events, call, rest);
      events := events + call;
    }
  }

  // radix_k_tree_reduce on count elements; without any it makes no call. If 2 * size and
  // the least power of k that reaches size fit in an int then so does every stride,
  // relative source and shifted rank of every rank.
  method RadixReduceLoop(count: nat, k: int32, size: int32, rank: int32, root: int32) returns (events: seq<Event>)
    requires 2 <= k && 0 <= rank < size && 0 <= root < size
    requires size <= 0x4000_0000 && Reach(1, k as nat, size as nat) <= INT_MAX
    ensures events == if count == 0 then [] else ReduceEvents(size as nat, k as nat, root as nat, 1, rank as nat)
  {
    var relRank := rank - root;
    if relRank < 0 {
      relRank := relRank + size;
    }
    if count == 0 || size == 1 {
      return [];
    }
    events := LevelLoop(k, size, rank, root, relRank);
  }
}
