// The binomial broadcast. In the round with mask 2^j, a rank whose lowest set bit
// (relative to the root) is bit j receives from the rank with that bit cleared, and
// every rank that already has the data and has a partner 2^j above it sends.
module Broadcast {
  import opened Basics
  import opened Network
  import opened Runs
  import opened BitMask

  function BcastPart(n: nat, root: nat, m: nat, rank: nat): Part
    requires 0 < m < n && root < n && rank < n
  {
    var rel := Down(n, rank, root);
    if rel % (2 * m) == m then Part([Down(n, rank, m)], None)
    else if rel % (2 * m) == 0 && rel + m < n then Part([], Some(Up(n, rank, m)))
    else Part([], None)
  }

  function BcastRound(n: nat, root: nat, m: nat): Round
    requires 0 < m < n && root < n
  {
    Round(seq(n, rank requires 0 <= rank < n => BcastPart(n, root, m, rank)), Overwrite)
  }

  // How many masks 1, 2, 4, ... are below n.
  function MaskCount(n: nat, m: nat): nat
    requires 0 < m
    decreases n - m
  {
    if m >= n then 0 else 1 + MaskCount(n, 2 * m)
  }

  lemma {:induction false} MasksBelow(n: nat, m: nat, j: nat)
    requires 0 < m
    ensures j < MaskCount(n, m) <==> Shifted(m, j) < n
    decreases n - m
  {
    if m >= n {
      if j > 0 { ShiftedIncreases(m, 0, j); }
    } else if j > 0 {
      ShiftedOnce(m, j - 1);
      MasksBelow(n, 2 * m, j - 1);
    }
  }

  // The rounds with masks 2^(j-1), ..., 2, 1.
  function BcastFrom(n: nat, root: nat, j: nat): Program
    requires root < n && j <= MaskCount(n, 1)
  {
    if j == 0 then []
    else
      MasksBelow(n, 1, j - 1);
      [BcastRound(n, root, Shifted(1, j - 1))] + BcastFrom(n, root, j - 1)
  }

  function BcastProg(n: nat, root: nat): Program
    requires root < n
  {
    BcastFrom(n, root, MaskCount(n, 1))
  }

  // ---------------------------------------------------------------------
  // Sends are the converse of receives.

  lemma HalfTurn(x: nat, m: nat)
    requires 0 < m
    ensures (x + m) % (2 * m) == m <==> x % (2 * m) == 0
  {
    var q, t := x / (2 * m), x % (2 * m);
    assert x == q * (2 * m) + t;
    if t < m {
      DivModUnique(x + m, 2 * m, q, t + m);
    } else {
      assert x + m == (q + 1) * (2 * m) + (t - m);
      DivModUnique(x + m, 2 * m, q + 1, t - m);
    }
  }

  lemma BcastPartsMatch(n: nat, root: nat, m: nat, s: nat, d: nat)
    requires 0 < m < n && root < n && s < n && d < n
    ensures BcastPart(n, root, m, s).dst == Some(d) <==> s in BcastPart(n, root, m, d).recvs
  {
    var x, y := Down(n, s, root), Down(n, d, root);
    HalfTurn(x, m);
    assert Rem(y, 2 * m) <= y;
    assert x + m < n && d == Up(n, s, m) ==> y == x + m;
    assert m <= y && s == Down(n, d, m) ==> y == x + m;
    assert y == x + m ==> d == Up(n, s, m) && s == Down(n, d, m);
  }

  lemma BcastRoundMatched(n: nat, root: nat, m: nat)
    requires 0 < m < n && root < n
    ensures Matched(n, BcastRound(n, root, m))
  {
    var round := BcastRound(n, root, m);
    forall s: nat, d: nat | s < n && d < n
      ensures round.parts[s].dst == Some(d) <==> s in round.parts[d].recvs
    {
      BcastPartsMatch(n, root, m, s, d);
    }
  }

  lemma {:induction false} BcastMatched(n: nat, root: nat, j: nat)
    requires root < n && j <= MaskCount(n, 1)
    ensures AllMatched(n, BcastFrom(n, root, j))
  {
    if j > 0 {
      MasksBelow(n, 1, j - 1);
      BcastRoundMatched(n, root, Shifted(1, j - 1));
      BcastMatched(n, root, j - 1);
    }
  }

  // ---------------------------------------------------------------------
  // Delivery.

  // Every rank whose relative number is a multiple of m has the root's data.
  ghost predicate Reached<V>(n: nat, root: nat, m: nat, v: V, vals: seq<V>)
    requires root < n && 0 < m && |vals| == n
  {
    forall rel: nat | rel < n && rel % m == 0 :: vals[Up(n, rel, root)] == v
  }

  lemma BcastRoundDelivers<V>(op: (V, V) -> V, n: nat, root: nat, m: nat, v: V, vals: seq<V>)
    requires 0 < m < n && root < n && |vals| == n && Matched(n, BcastRound(n, root, m))
    requires Reached(n, root, 2 * m, v, vals)
    ensures Reached(n, root, m, v, ExecRound(op, BcastRound(n, root, m), vals))
  {
    var round := BcastRound(n, root, m);
    forall rel: nat | rel < n && rel % m == 0
      ensures ExecRound(op, round, vals)[Up(n, rel, root)] == v
    {
      var rank := Up(n, rel, root);
      assert Down(n, rank, root) == rel;
      assert round.parts[rank] == BcastPart(n, root, m, rank);
      var q, i := SplitDigit(rel, m, 2);
      assert m * 2 == 2 * m;
      if i == 1 {
        assert Rem(rel, 2 * m) <= rel;
        HalfTurn(rel - m, m);
        var src := Down(n, rank, m);
        assert src == Up(n, rel - m, root);
        assert [src][..0] == [];
        ExecRoundAt(op, round, vals, rank, Overwrite, [src]);
        assert Absorb(Overwrite, op, vals[rank], vals, [src]) == vals[src];
      } else {
        ExecRoundAt(op, round, vals, rank, Overwrite, []);
      }
    }
  }

  // Once mask 1 is done, every rank has been reached.
  lemma AllReached<V>(n: nat, root: nat, v: V, vals: seq<V>)
    requires root < n && |vals| == n && Reached(n, root, 1, v, vals)
    ensures vals == seq(n, _ => v)
  {
    forall r: nat | r < n ensures vals[r] == v {
      assert Down(n, r, root) % 1 == 0 && r == Up(n, Down(n, r, root), root);
    }
  }

  lemma BcastRoundFirst<V>(op: (V, V) -> V, n: nat, root: nat, j: nat, v: V, vals: seq<V>) returns (next: seq<V>)
    requires root < n && 0 < j <= MaskCount(n, 1) && |vals| == n
    requires Reached(n, root, Shifted(1, j), v, vals)
    ensures |next| == n && Reached(n, root, Shifted(1, j - 1), v, next)
    ensures AllMatched(n, BcastFrom(n, root, j)) && AllMatched(n, BcastFrom(n, root, j - 1))
    ensures Exec(op, BcastFrom(n, root, j), vals) == Exec(op, BcastFrom(n, root, j - 1), next)
  {
    MasksBelow(n, 1, j - 1);
    var m := Shifted(1, j - 1);
    BcastMatched(n, root, j);
    BcastMatched(n, root, j - 1);
    BcastRoundMatched(n, root, m);
    BcastRoundDelivers(op, n, root, m, v, vals);
    ExecCons(op, BcastRound(n, root, m), BcastFrom(n, root, j - 1), vals);
    next := ExecRound(op, BcastRound(n, root, m), vals);
  }

  lemma {:induction false} BcastDelivers<V>(op: (V, V) -> V, n: nat, root: nat, j: nat, v: V, vals: seq<V>)
    requires root < n && j <= MaskCount(n, 1) && |vals| == n
    requires Reached(n, root, Shifted(1, j), v, vals)
    ensures AllMatched(n, BcastFrom(n, root, j))
    ensures Exec(op, BcastFrom(n, root, j), vals) == seq(n, _ => v)
  {
    if j == 0 {
      AllReached(n, root, v, vals);
    } else {
      var next := BcastRoundFirst(op, n, root, j, v, vals);
      BcastDelivers(op, n, root, j - 1, v, next);
    }
  }

  // For every size and root, all ranks end with the root's buffer.
  lemma BcastValue<V>(op: (V, V) -> V, root: nat, vals: seq<V>)
    requires root < |vals|
    ensures AllMatched(|vals|, BcastProg(|vals|, root))
    ensures Exec(op, BcastProg(|vals|, root), vals) == seq(|vals|, _ => vals[root])
  {
    var n, top := |vals|, MaskCount(|vals|, 1);
    MasksBelow(n, 1, top);
    forall rel: nat | rel < n && rel % Shifted(1, top) == 0 ensures vals[Up(n, rel, root)] == vals[root] {
      DivModUnique(rel, Shifted(1, top), 0, rel);
    }
    BcastDelivers(op, n, root, top, vals[root], vals);
  }

  // In every run, a rank that has returned from the broadcast holds the root's buffer,
  // however far the other ranks are.
  lemma BcastRun<V>(op: (V, V) -> V, root: nat, vals: seq<V>, strict: bool, steps: seq<Step>, r: nat)
    requires root < |vals| && r < |vals| && AllMatched(|vals|, BcastProg(|vals|, root))
    requires Run(op, BcastProg(|vals|, root), vals, strict, steps).Some?
    ensures var s := Run(op, BcastProg(|vals|, root), vals, strict, steps).value;
            s.pcs[r].round == |BcastProg(|vals|, root)| ==> s.accs[r] == vals[root]
  {
    var prog := BcastProg(|vals|, root);
    EveryRunAgrees(op, prog, vals, strict, steps, r);
    BcastValue(op, root, vals);
    assert prog[..|prog|] == prog;
  }

  // ---------------------------------------------------------------------
  // Who receives from whom.

  ghost function RecvsMade(n: nat, prog: Program, r: nat): seq<nat>
    requires AllMatched(n, prog) && r < n
  {
    if prog == [] then []
    else
      assert AllMatched(n, prog[1..]) && Matched(n, prog[0]);
      prog[0].parts[r].recvs + RecvsMade(n, prog[1..], r)
  }

  lemma NotMultiple(x: nat, m: nat)
    requires 0 < m && x % m != 0
    ensures x % (2 * m) != 0 && x % (2 * m) != m
  {
    assert m * 2 == 2 * m;
    if x % (2 * m) == 0 {
      ModOfMultiple(x, m, 2);
    }
    if x % (2 * m) == m {
      assert x == (x / (2 * m)) * (2 * m) + m;
      assert x == (2 * (x / (2 * m)) + 1) * m;
      DivModUnique(x, m, 2 * (x / (2 * m)) + 1, 0);
    }
  }

  // One receive, from the rank whose relative number has the lowest set bit cleared, if
  // that bit is among the first j; no receive otherwise.
  function OneReceive(n: nat, root: nat, rel: nat, j: nat): seq<nat>
    requires root < n && rel < n
  {
    if rel % Shifted(1, j) == 0 then [] else [Up(n, ClearLowest(rel), root)]
  }

  // In the round with mask 2^j a rank receives exactly if bit j is its lowest set bit.
  lemma RoundReceives(n: nat, root: nat, j: nat, r: nat)
    requires root < n && r < n && j < MaskCount(n, 1)
    ensures Shifted(1, j) < n
    ensures var rel := Down(n, r, root);
            BcastPart(n, root, Shifted(1, j), r).recvs + OneReceive(n, root, rel, j) == OneReceive(n, root, rel, j + 1)
  {
    MasksBelow(n, 1, j);
    var rel, m := Down(n, r, root), Shifted(1, j);
    var recvs := BcastPart(n, root, m, r).recvs;
    if rel % m == 0 {
      OneBit(rel, j);
      if And(m, rel) != 0 {
        ClearLowestBit(rel, j);
      }
      assert recvs + [] == recvs;
    } else {
      NotMultiple(rel, m);
      assert recvs == [];
    }
  }

  // The receives of the rounds from mask 2^i down are those of the first of them and
  // those of the rest.
  lemma RecvsMadeFirst(n: nat, root: nat, i: nat, r: nat)
    requires root < n && i < MaskCount(n, 1) && r < n
    ensures AllMatched(n, BcastFrom(n, root, i)) && AllMatched(n, BcastFrom(n, root, i + 1))
    ensures RecvsMade(n, BcastFrom(n, root, i), r) == OneReceive(n, root, Down(n, r, root), i) ==>
              RecvsMade(n, BcastFrom(n, root, i + 1), r) == OneReceive(n, root, Down(n, r, root), i + 1)
  {
    MasksBelow(n, 1, i);
    BcastMatched(n, root, i);
    BcastMatched(n, root, i + 1);
    assert BcastFrom(n, root, i + 1)[1..] == BcastFrom(n, root, i);
    assert BcastFrom(n, root, i + 1)[0].parts[r] == BcastPart(n, root, Shifted(1, i), r);
    RoundReceives(n, root, i, r);
  }

  lemma {:induction false} ReceivesFrom(n: nat, root: nat, j: nat, r: nat)
    requires root < n && j <= MaskCount(n, 1) && r < n
    ensures AllMatched(n, BcastFrom(n, root, j))
    ensures RecvsMade(n, BcastFrom(n, root, j), r) == OneReceive(n, root, Down(n, r, root), j)
  {
    BcastMatched(n, root, j);
    if j == 0 {
      assert BcastFrom(n, root, 0) == [] && Shifted(1, 0) == 1;
    } else {
      ReceivesFrom(n, root, j - 1, r);
      RecvsMadeFirst(n, root, j - 1, r);
    }
  }

  // Every rank but the root receives exactly once, from the rank whose relative number
  // has its lowest set bit cleared.
  lemma ReceivesOnce(n: nat, root: nat, r: nat)
    requires root < n && r < n
    ensures AllMatched(n, BcastProg(n, root))
    ensures RecvsMade(n, BcastProg(n, root), r)
         == if r == root then [] else [Up(n, ClearLowest(Down(n, r, root)), root)]
  {
    var rel, top := Down(n, r, root), MaskCount(n, 1);
    ReceivesFrom(n, root, top, r);
    MasksBelow(n, 1, top);
    DivModUnique(rel, Shifted(1, top), 0, rel);
  }

  // ---------------------------------------------------------------------
  // The loops of one rank.

  ghost function BcastEvents(n: nat, root: nat, j: nat, rank: nat): seq<Event>
    requires root < n && j <= MaskCount(n, 1) && rank < n
  {
    BcastMatched(n, root, j);
    RankEvents(n, BcastFrom(n, root, j), rank)
  }

  lemma BcastIteration(n: nat, root: nat, j: nat, rank: nat)
    requires root < n && 0 < j <= MaskCount(n, 1) && rank < n
    ensures 0 < Shifted(1, j - 1) < n
    ensures BcastEvents(n, root, j, rank)
         == PartEvents(BcastPart(n, root, Shifted(1, j - 1), rank)) + BcastEvents(n, root, j - 1, rank)
  {
    MasksBelow(n, 1, j - 1);
    BcastMatched(n, root, j);
    BcastMatched(n, root, j - 1);
    assert BcastFrom(n, root, j)[1..] == BcastFrom(n, root, j - 1);
  }

  // Rounds above a rank's receive do not involve it.
  lemma {:induction false} SilentAbove(n: nat, root: nat, i: nat, j: nat, rank: nat)
    requires root < n && i <= j <= MaskCount(n, 1) && rank < n
    requires Down(n, rank, root) % Shifted(1, i) != 0
    ensures Down(n, rank, root) % Shifted(1, j) != 0
    ensures BcastEvents(n, root, j, rank) == BcastEvents(n, root, i, rank)
  {
    if i < j {
      SilentAbove(n, root, i, j - 1, rank);
      BcastIteration(n, root, j, rank);
      NotMultiple(Down(n, rank, root), Shifted(1, j - 1));
    }
  }

  // The first loop: find the lowest set bit of the relative rank and receive there.
  method ReceiveLoop(size: int32, rank: int32, root: int32, relRank: int32)
    returns (events: seq<Event>, mask: int32, ghost j: nat)
    requires 0 <= rank < size && 0 <= root < size <= 0x4000_0000 && 0 <= relRank < size
    requires relRank as nat == Down(size as nat, rank as nat, root as nat)
    ensures mask as int == Shifted(1, j) && j <= MaskCount(size as nat, 1)
    ensures relRank as nat % Shifted(1, j) == 0
    ensures events + BcastEvents(size as nat, root as nat, j, rank as nat)
         == BcastEvents(size as nat, root as nat, MaskCount(size as nat, 1), rank as nat)
  {
    ghost var n, rt, rk, rel := size as nat, root as nat, rank as nat, relRank as nat;
    ghost var top := MaskCount(n, 1);
    mask, j := 1, 0;
    while mask < size && And(relRank as nat, mask as nat) == 0
      invariant mask as int == Shifted(1, j) && Shifted(1, j) < 2 * n
      invariant j <= top && rel % Shifted(1, j) == 0
      decreases 2 * n - Shifted(1, j)
    {
      OneBit(rel, j);
      MasksBelow(n, 1, j);
      mask, j := mask * 2, j + 1;
    }
    MasksBelow(n, 1, j);
    events := [];
    if mask < size {
      OneBit(rel, j);
      var src := SubRank(rank, mask, size);
      events := [PostRecv(src as nat), WaitFor(src as nat)];
      assert events == Posts([src as nat]) + [] + Waits([src as nat]);
      BcastIteration(n, rt, j + 1, rk);
      SilentAbove(n, rt, j + 1, top, rk);
    }
  }

  // The body of the forwarding loop.
  method SendStep(size: int32, rank: int32, root: int32, relRank: int32, mask: int32) returns (events: seq<Event>)
    requires 0 <= rank < size && 0 <= root < size <= 0x4000_0000 && 0 <= relRank < size && 0 < mask < size
    requires relRank as nat == Down(size as nat, rank as nat, root as nat)
    requires relRank as nat % (2 * mask as nat) == 0
    ensures events == PartEvents(BcastPart(size as nat, root as nat, mask as nat, rank as nat))
  {
    events := [];
    if relRank + mask < size {
      var dst := rank + mask;
      if dst >= size {
        dst := dst - size;
      }
      events := [SendTo(dst as nat)];
    }
  }

  // mona_comm_bcast_binomial: receive, then forward on the smaller masks.
  method BcastLoops(size: int32, rank: int32, root: int32) returns (events: seq<Event>)
    requires 0 <= rank < size && 0 <= root < size <= 0x4000_0000
    ensures events == BcastEvents(size as nat, root as nat, MaskCount(size as nat, 1), rank as nat)
  {
    ghost var n, rt, rk := size as nat, root as nat, rank as nat;
    if size == 1 {
      return [];
    }
    var relRank := if rank >= root then rank - root else rank - root + size;
    ghost var rel, all := relRank as nat, BcastEvents(n, rt, MaskCount(n, 1), rk);
    var mask: int32;
    ghost var j: nat;
    events, mask, j := ReceiveLoop(size, rank, root, relRank);
    mask := mask / 2;
    ghost var rest := BcastEvents(n, rt, j, rk);
    while mask > 0
      invariant j <= MaskCount(n, 1) && mask as int == if j == 0 then 0 else Shifted(1, j - 1)
      invariant rel % Shifted(1, j) == 0
      invariant rest == BcastEvents(n, rt, j, rk) && events + rest == all
      decreases j
    {
      BcastIteration(n, rt, j, rk);
      rest := BcastEvents(n, rt, j - 1, rk);
      var call := SendStep(size, rank, root, relRank, mask);
      ConcatAssociative(events, call, rest);
      events := events + call;
      assert Shifted(1, j) == Shifted(1, j - 1) * 2;
      ModOfMultiple(rel, Shifted(1, j - 1), 2);
      mask, j := mask / 2, j - 1;
    }
  }
}
