// allgatherv from the messages to the bytes: a gatherv to rank 0 and a broadcast on
// one tag, with the blocks packed before the broadcast and unpacked after it.
module Allgatherv {
  import opened Basics
  import opened Network
  import opened Runs
  import opened Broadcast
  import opened Gather
  import opened Placement
  import opened Offsets

  type Bytes = seq<byte>

  // Every block fits every rank's buffer and has the size its rank announced.
  ghost predicate Arguments(bufs: seq<Bytes>, blocks: seq<Bytes>, l: Layout) {
    && 0 < |bufs| == |blocks| == |l.sizes| == |l.displs|
    && (forall q | 0 <= q < |bufs| :: Fits(l, |bufs[q]|))
    && (forall i | 0 <= i < |blocks| :: |blocks[i]| == l.sizes[i])
  }

  // ---------------------------------------------------------------------
  // The messages.

  // What a rank holds: its number, the block it sends, and its receive buffer. A
  // received block goes to its displacement.
  datatype Cell = Cell(rank: nat, block: Bytes, recvbuf: Bytes)

  function Deposit(l: Layout): (Cell, Cell) -> Cell {
    (m: Cell, acc: Cell) =>
      if m.rank < |l.displs| && l.displs[m.rank] + |m.block| <= |acc.recvbuf|
      then acc.(recvbuf := Write(acc.recvbuf, l.displs[m.rank], m.block)) else acc
  }

  // Rank 0 has copied its own block before it waits for the others.
  ghost function Cells(bufs: seq<Bytes>, blocks: seq<Bytes>, l: Layout): (cells: seq<Cell>)
    requires Arguments(bufs, blocks, l)
    ensures |cells| == |bufs|
  {
    seq(|bufs|, r requires 0 <= r < |bufs| && Arguments(bufs, blocks, l) =>
      Cell(r, blocks[r], if r == 0 then Write(bufs[0], l.displs[0], blocks[0]) else bufs[r]))
  }

  // The receives of the gather are threads that write the receive buffer as their data
  // arrives, in any order; srcs is that order. Rank 0 copies its own block before.
  ghost predicate Arrivals(l: Layout, srcs: seq<nat>)
    requires 0 < |l.sizes|
  {
    Distinct(srcs) && forall i: nat :: i in srcs <==> i in Sources(|l.sizes|, 0, l.sizes, 0)
  }

  function ArrivalRound(l: Layout, srcs: seq<nat>): Round
    requires 0 < |l.sizes|
  {
    Round(seq(|l.sizes|, r requires 0 <= r < |l.sizes| =>
            if r == 0 then Part(srcs, None) else Part([], if l.sizes[r] == 0 then None else Some(0))), Fold)
  }

  function AllgathervProg(l: Layout, srcs: seq<nat>): Program
    requires 0 < |l.sizes|
  {
    [ArrivalRound(l, srcs)] + BcastProg(|l.sizes|, 0)
  }

  // In the order of the waits it is the gatherv and the broadcast as they are called.
  lemma AllgathervCalls(l: Layout)
    requires 0 < |l.sizes|
    ensures Arrivals(l, Sources(|l.sizes|, 0, l.sizes, 0))
    ensures AllgathervProg(l, Sources(|l.sizes|, 0, l.sizes, 0))
         == [GathervRound(|l.sizes|, 0, l.sizes, l.sizes)] + BcastProg(|l.sizes|, 0)
  {
    SourcesDistinct(|l.sizes|, 0, l.sizes, 0);
    assert ArrivalRound(l, Sources(|l.sizes|, 0, l.sizes, 0)).parts
        == GathervRound(|l.sizes|, 0, l.sizes, l.sizes).parts;
  }

  lemma ArrivalsInside(l: Layout, srcs: seq<nat>)
    requires 0 < |l.sizes| && Arrivals(l, srcs)
    ensures InRange(srcs, |l.sizes|) && InRange([0] + srcs, |l.sizes|)
    ensures forall i: nat | i < |l.sizes| && l.sizes[i] != 0 :: i in [0] + srcs
  {
    forall i: nat ensures i in srcs <==> 0 < i < |l.sizes| && l.sizes[i] != 0 {
      SourcesMembers(|l.sizes|, 0, l.sizes, 0, i);
    }
    forall j | 0 <= j < |srcs| ensures srcs[j] < |l.sizes| {
      assert srcs[j] in srcs;
    }
  }

  lemma ArrivalRoundMatched(l: Layout, srcs: seq<nat>)
    requires 0 < |l.sizes| && Arrivals(l, srcs)
    ensures Matched(|l.sizes|, ArrivalRound(l, srcs))
  {
    ArrivalsInside(l, srcs);
    forall i: nat ensures i in srcs <==> 0 < i < |l.sizes| && l.sizes[i] != 0 {
      SourcesMembers(|l.sizes|, 0, l.sizes, 0, i);
    }
  }

  lemma AllgathervMatched(l: Layout, srcs: seq<nat>)
    requires 0 < |l.sizes| && Arrivals(l, srcs)
    ensures AllMatched(|l.sizes|, AllgathervProg(l, srcs)) && AllMatched(|l.sizes|, BcastProg(|l.sizes|, 0))
    ensures Matched(|l.sizes|, ArrivalRound(l, srcs))
  {
    ArrivalRoundMatched(l, srcs);
    BcastMatched(|l.sizes|, 0, MaskCount(|l.sizes|, 1));
  }

  lemma DepositBlock(bufs: seq<Bytes>, blocks: seq<Bytes>, l: Layout, src: nat, root: Bytes)
    requires Arguments(bufs, blocks, l) && src < |bufs| && |root| == |bufs[0]|
    ensures l.displs[src] + |blocks[src]| <= |root|
    ensures Apply(Fold, Deposit(l), Cell(0, blocks[0], root), Cells(bufs, blocks, l)[src])
         == Cell(0, blocks[0], Write(root, l.displs[src], blocks[src]))
  {
  }

  lemma GatheredNext(bufs: seq<Bytes>, blocks: seq<Bytes>, l: Layout, order: seq<nat>, src: nat)
    requires Arguments(bufs, blocks, l) && src < |blocks| && InRange(order, |blocks|)
    ensures Gathered(bufs[0], blocks, l, order + [src])
         == Write(Gathered(bufs[0], blocks, l, order), l.displs[src], blocks[src])
  {
    assert (order + [src])[..|order|] == order;
  }

  lemma {:induction false} AbsorbBlocks(bufs: seq<Bytes>, blocks: seq<Bytes>, l: Layout, srcs: seq<nat>)
    requires Arguments(bufs, blocks, l) && InRange(srcs, |bufs|)
    ensures InRange([0] + srcs, |blocks|)
    ensures Absorb(Fold, Deposit(l), Cells(bufs, blocks, l)[0], Cells(bufs, blocks, l), srcs)
         == Cell(0, blocks[0], Gathered(bufs[0], blocks, l, [0] + srcs))
  {
    if srcs == [] {
      assert [] + [0] == [0] + [];
      GatheredNext(bufs, blocks, l, [], 0);
    } else {
      var last := |srcs| - 1;
      AbsorbBlocks(bufs, blocks, l, srcs[..last]);
      ConcatAssociative([0], srcs[..last], [srcs[last]]);
      assert srcs == srcs[..last] + [srcs[last]];
      GatheredNext(bufs, blocks, l, [0] + srcs[..last], srcs[last]);
      DepositBlock(bufs, blocks, l, srcs[last], Gathered(bufs[0], blocks, l, [0] + srcs[..last]));
    }
  }

  // After the gather rank 0 holds every block.
  lemma GatheredAtRoot(bufs: seq<Bytes>, blocks: seq<Bytes>, l: Layout, srcs: seq<nat>)
    requires Arguments(bufs, blocks, l) && Arrivals(l, srcs)
    ensures Matched(|bufs|, ArrivalRound(l, srcs)) && InRange([0] + srcs, |blocks|)
    ensures ExecRound(Deposit(l), ArrivalRound(l, srcs), Cells(bufs, blocks, l))[0]
         == Cell(0, blocks[0], Gathered(bufs[0], blocks, l, [0] + srcs))
  {
    ArrivalRoundMatched(l, srcs);
    ArrivalsInside(l, srcs);
    ExecRoundAt(Deposit(l), ArrivalRound(l, srcs), Cells(bufs, blocks, l), 0, Fold, srcs);
    AbsorbBlocks(bufs, blocks, l, srcs);
  }

  // In every run, a rank that has returned was sent what rank 0 had gathered,
  // whatever phase the others are in.
  lemma AllgathervMessages(bufs: seq<Bytes>, blocks: seq<Bytes>, l: Layout, srcs: seq<nat>, strict: bool,
                           steps: seq<Step>, r: nat)
    requires Arguments(bufs, blocks, l) && Arrivals(l, srcs) && r < |bufs|
    requires AllMatched(|bufs|, AllgathervProg(l, srcs))
    requires Run(Deposit(l), AllgathervProg(l, srcs), Cells(bufs, blocks, l), strict, steps).Some?
    ensures InRange([0] + srcs, |blocks|)
    ensures var s := Run(Deposit(l), AllgathervProg(l, srcs), Cells(bufs, blocks, l), strict, steps).value;
            s.pcs[r].round == |AllgathervProg(l, srcs)| ==>
              s.accs[r] == Cell(0, blocks[0], Gathered(bufs[0], blocks, l, [0] + srcs))
  {
    var n, op, cells, prog := |bufs|, Deposit(l), Cells(bufs, blocks, l), AllgathervProg(l, srcs);
    AllgathervMatched(l, srcs);
    GatheredAtRoot(bufs, blocks, l, srcs);
    EveryRunAgrees(op, prog, cells, strict, steps, r);
    assert prog[..|prog|] == prog;
    ExecCons(op, ArrivalRound(l, srcs), BcastProg(n, 0), cells);
    BcastValue(op, 0, ExecRound(op, ArrivalRound(l, srcs), cells));
  }

  // ---------------------------------------------------------------------
  // The bytes.

  // The receive buffer of rank r in the end, from what rank 0 gathered and whatever
  // the contiguous buffer held when rank 0 allocated it.
  function FinalBuffer(own: Bytes, root: Bytes, tmp: Bytes, l: Layout, r: nat): (out: Option<Bytes>)
    requires Fits(l, |own|) && Fits(l, |root|) && |tmp| == TotalSize(l)
  {
    var packed := PackInt(tmp, root, l, |l.sizes|);
    if packed.None? then None
    else if r == 0 then Some(root)
    else UnpackInt(own, packed.value, l, |l.sizes|)
  }

  lemma FinalBufferIs(own: Bytes, root: Bytes, tmp: Bytes, l: Layout, r: nat)
    requires Fits(l, |own|) && Fits(l, |root|) && |tmp| == TotalSize(l) && StartsFit(l)
    ensures |Packed(root, l, |l.sizes|)| == TotalSize(l)
    ensures FinalBuffer(own, root, tmp, l, r)
         == Some(if r == 0 then root else Unpacked(own, Packed(root, l, |l.sizes|), l, |l.sizes|))
  {
    PackIntIff(root, l);
    PackedLength(root, l, |l.sizes|);
    UnpackIntIff(own, l);
  }

  // out is what rank r ends with if rank 0's buffer is filled in the order given.
  ghost predicate IsBuffer(bufs: seq<Bytes>, blocks: seq<Bytes>, l: Layout, srcs: seq<nat>, r: nat, out: Bytes)
    requires Arguments(bufs, blocks, l) && Arrivals(l, srcs) && r < |bufs|
  {
    ArrivalsInside(l, srcs);
    var root := Gathered(bufs[0], blocks, l, [0] + srcs);
    PackedLength(root, l, |l.sizes|);
    out == if r == 0 then root else Unpacked(bufs[r], Packed(root, l, |l.sizes|), l, |l.sizes|)
  }

  // Every rank agrees with rank 0 on every byte inside some block, even where blocks
  // overlap, and keeps its own bytes elsewhere.
  lemma AllgathervAgrees(bufs: seq<Bytes>, blocks: seq<Bytes>, l: Layout, srcs: seq<nat>, r: nat, root: Bytes,
                         out: Bytes, x: nat)
    requires Arguments(bufs, blocks, l) && Arrivals(l, srcs) && 0 < r < |bufs|
    requires IsBuffer(bufs, blocks, l, srcs, 0, root) && IsBuffer(bufs, blocks, l, srcs, r, out)
    requires x < |bufs[r]|
    ensures |out| == |bufs[r]| && |root| == |bufs[0]|
    ensures Covered(l, |l.sizes|, x) ==> x < |root| && out[x] == root[x]
    ensures !Covered(l, |l.sizes|, x) ==> out[x] == bufs[r][x]
  {
    ArrivalsInside(l, srcs);
    UnpackAfterPack(root, bufs[r], l, |l.sizes|);
  }

  lemma BlockByte(bufs: seq<Bytes>, blocks: seq<Bytes>, l: Layout, srcs: seq<nat>, r: nat, out: Bytes, i: nat, y: nat)
    requires Arguments(bufs, blocks, l) && Arrivals(l, srcs) && r < |bufs| && i < |blocks| && y < |blocks[i]|
    requires IsBuffer(bufs, blocks, l, srcs, r, out) && Disjoint(l)
    ensures l.displs[i] + y < |out| == |bufs[r]| && out[l.displs[i] + y] == blocks[i][y]
  {
    ArrivalsInside(l, srcs);
    var root, x := Gathered(bufs[0], blocks, l, [0] + srcs), l.displs[i] + y;
    assert Fits(l, |bufs[0]|) && Fits(l, |bufs[r]|);
    assert InBlock(l, i, x) && i in [0] + srcs;
    GatheredBlock(bufs[0], blocks, l, [0] + srcs, x);
    if r != 0 {
      AllgathervAgrees(bufs, blocks, l, srcs, r, root, out, x);
    }
  }

  // If the blocks are disjoint, block i is rank i's data at every rank.
  lemma AllgathervBlocks(bufs: seq<Bytes>, blocks: seq<Bytes>, l: Layout, srcs: seq<nat>, r: nat, out: Bytes, i: nat)
    requires Arguments(bufs, blocks, l) && Arrivals(l, srcs) && r < |bufs| && i < |blocks|
    requires IsBuffer(bufs, blocks, l, srcs, r, out) && Disjoint(l)
    ensures |out| == |bufs[r]| && Slice(out, l, i) == blocks[i]
  {
    ArrivalsInside(l, srcs);
    assert Fits(l, |bufs[0]|) && Fits(l, |bufs[r]|);
    forall y: nat | y < |blocks[i]| ensures l.displs[i] + y < |out| && out[l.displs[i] + y] == blocks[i][y] {
      BlockByte(bufs, blocks, l, srcs, r, out, i, y);
    }
  }

  // The receive buffer of a rank that has returned, in a run of the whole operation.
  ghost function Outcome(bufs: seq<Bytes>, blocks: seq<Bytes>, l: Layout, srcs: seq<nat>, strict: bool,
                         steps: seq<Step>, r: nat, tmp: Bytes): Option<Bytes>
    requires Returned(bufs, blocks, l, srcs, strict, steps, r) && |tmp| == TotalSize(l)
  {
    AllgathervMessages(bufs, blocks, l, srcs, strict, steps, r);
    var root := Run(Deposit(l), AllgathervProg(l, srcs), Cells(bufs, blocks, l), strict, steps).value.accs[r].recvbuf;
    FinalBuffer(bufs[r], root, tmp, l, r)
  }

  ghost predicate Returned(bufs: seq<Bytes>, blocks: seq<Bytes>, l: Layout, srcs: seq<nat>, strict: bool,
                           steps: seq<Step>, r: nat)
  {
    && Arguments(bufs, blocks, l) && Arrivals(l, srcs) && r < |bufs|
    && AllMatched(|bufs|, AllgathervProg(l, srcs))
    && Run(Deposit(l), AllgathervProg(l, srcs), Cells(bufs, blocks, l), strict, steps).Some?
    && Run(Deposit(l), AllgathervProg(l, srcs), Cells(bufs, blocks, l), strict, steps).value.pcs[r].round
       == |AllgathervProg(l, srcs)|
  }

  // If every non-empty block starts at or below INT_MAX, then in every run, in whatever
  // order the blocks arrive, each rank that has returned agrees with rank 0 inside the
  // blocks, keeps its own bytes outside, and with disjoint blocks holds every rank's data.
  lemma AllgathervRun(bufs: seq<Bytes>, blocks: seq<Bytes>, l: Layout, srcs: seq<nat>, strict: bool, steps: seq<Step>,
                      r: nat, tmp: Bytes)
    requires Returned(bufs, blocks, l, srcs, strict, steps, r) && StartsFit(l) && |tmp| == TotalSize(l)
    ensures var out := Outcome(bufs, blocks, l, srcs, strict, steps, r, tmp);
            out.Some? && IsBuffer(bufs, blocks, l, srcs, r, out.value)
    ensures Disjoint(l) ==> HoldsAll(bufs, blocks, l, r, Outcome(bufs, blocks, l, srcs, strict, steps, r, tmp))
  {
    AllgathervMessages(bufs, blocks, l, srcs, strict, steps, r);
    ArrivalsInside(l, srcs);
    var root := Gathered(bufs[0], blocks, l, [0] + srcs);
    assert Fits(l, |root|) && Fits(l, |bufs[r]|);
    FinalBufferIs(bufs[r], root, tmp, l, r);
    var out := Outcome(bufs, blocks, l, srcs, strict, steps, r, tmp).value;
    assert IsBuffer(bufs, blocks, l, srcs, r, out);
    if Disjoint(l) {
      forall i: nat | i < |blocks| ensures |out| == |bufs[r]| && Slice(out, l, i) == blocks[i] {
        AllgathervBlocks(bufs, blocks, l, srcs, r, out, i);
      }
      assert |out| == |bufs[r]|;
    }
  }

  // ---------------------------------------------------------------------
  // The exact condition, for disjoint blocks.

  ghost predicate HoldsAll(bufs: seq<Bytes>, blocks: seq<Bytes>, l: Layout, r: nat, out: Option<Bytes>)
    requires Arguments(bufs, blocks, l) && r < |bufs|
  {
    && out.Some? && |out.value| == |bufs[r]|
    && forall i: nat | i < |blocks| :: Slice(out.value, l, i) == blocks[i]
  }

  // out has the bytes of root in every block.
  ghost predicate SameBlocks(root: Bytes, out: Option<Bytes>, l: Layout)
    requires Fits(l, |root|)
  {
    && out.Some? && Fits(l, |out.value|)
    && forall i: nat | i < |l.sizes| :: Slice(out.value, l, i) == Slice(root, l, i)
  }

  lemma SameByte(root: Bytes, out: Bytes, l: Layout, i: nat, x: nat)
    requires Fits(l, |root|) && SameBlocks(root, Some(out), l) && i < |l.sizes| && InBlock(l, i, x)
    ensures out[x] == root[x]
  {
    assert Slice(out, l, i)[x - l.displs[i]] == Slice(root, l, i)[x - l.displs[i]];
  }

  lemma FinalBufferFails(own: Bytes, tmp: Bytes, l: Layout, length: nat, r: nat) returns (root: Bytes)
    requires Fits(l, |own|) && Fits(l, length) && Disjoint(l) && !StartsFit(l) && r != 0 && |tmp| == TotalSize(l)
    ensures |root| == length && !SameBlocks(root, FinalBuffer(own, root, tmp, l, r), l)
  {
    var b :| 0 <= b < |l.sizes| && !StartFits(l, b);
    root := Filled(length, 0);
    if Offset(l, b) < 0 {
      PackStops(tmp, root, l, b, |l.sizes|);
    } else {
      var j, y := SharedByte(l, |own|, b);
      root := root[y := 1];
      var out := FinalBuffer(own, root, tmp, l, r);
      if SameBlocks(root, out, l) {
        SameByte(root, out.value, l, j, y);
        SameByte(root, out.value, l, b, l.displs[b]);
        assert false;
      }
    }
  }

  lemma SlicesEqual(a: Bytes, b: Bytes, l: Layout, i: nat)
    requires Fits(l, |a|) && Fits(l, |b|) && i < |l.sizes|
    requires forall x: nat | InBlock(l, i, x) :: a[x] == b[x]
    ensures Slice(a, l, i) == Slice(b, l, i)
  {
    forall k | 0 <= k < l.sizes[i] ensures Slice(a, l, i)[k] == Slice(b, l, i)[k] {
      assert InBlock(l, i, l.displs[i] + k);
    }
  }

  lemma UnpackedBlock(own: Bytes, root: Bytes, l: Layout, i: nat, out: Bytes)
    requires Fits(l, |own|) && Fits(l, |root|) && i < |l.sizes| && |Packed(root, l, |l.sizes|)| == TotalSize(l)
    requires out == Unpacked(own, Packed(root, l, |l.sizes|), l, |l.sizes|)
    ensures Slice(out, l, i) == Slice(root, l, i)
  {
    forall x: nat | InBlock(l, i, x) ensures out[x] == root[x] {
      UnpackedByte(root, own, l, |l.sizes|, x);
      assert Covered(l, |l.sizes|, x);
    }
    SlicesEqual(out, root, l, i);
  }

  lemma FinalBufferWorks(own: Bytes, root: Bytes, tmp: Bytes, l: Layout, r: nat)
    requires Fits(l, |own|) && Fits(l, |root|) && StartsFit(l) && r != 0 && |tmp| == TotalSize(l)
    ensures SameBlocks(root, FinalBuffer(own, root, tmp, l, r), l)
  {
    FinalBufferIs(own, root, tmp, l, r);
    var out := FinalBuffer(own, root, tmp, l, r).value;
    forall i: nat | i < |l.sizes| ensures Slice(out, l, i) == Slice(root, l, i) {
      UnpackedBlock(own, root, l, i, out);
    }
  }

  // Ranks other than 0 end with rank 0's bytes in every block, whatever all buffers hold,
  // exactly when every non-empty block starts at or below INT_MAX.
  lemma FinalBufferIff(l: Layout, length: nat, ownLength: nat, r: nat)
    requires Fits(l, length) && Fits(l, ownLength) && Disjoint(l) && r != 0
    ensures (forall own: Bytes, root: Bytes, tmp: Bytes
               | |own| == ownLength && |root| == length && |tmp| == TotalSize(l)
               :: SameBlocks(root, FinalBuffer(own, root, tmp, l, r), l))
       <==> StartsFit(l)
  {
    if StartsFit(l) {
      forall own: Bytes, root: Bytes, tmp: Bytes | |own| == ownLength && |root| == length && |tmp| == TotalSize(l)
        ensures SameBlocks(root, FinalBuffer(own, root, tmp, l, r), l)
      {
        FinalBufferWorks(own, root, tmp, l, r);
      }
    } else {
      var own, tmp := Filled(ownLength, 0), Filled(TotalSize(l), 0);
      var root := FinalBufferFails(own, tmp, l, length, r);
    }
  }

  // The blocks that lie in a buffer.
  function Slices(buf: Bytes, l: Layout): (blocks: seq<Bytes>)
    requires Fits(l, |buf|)
    ensures |blocks| == |l.sizes| && forall i | 0 <= i < |blocks| :: blocks[i] == Slice(buf, l, i)
  {
    seq(|l.sizes|, i requires 0 <= i < |l.sizes| && Fits(l, |buf|) => Slice(buf, l, i))
  }

  // Gathering what is there already changes nothing.
  lemma {:induction false} GatheredInPlace(buf: Bytes, l: Layout, order: seq<nat>)
    requires Fits(l, |buf|) && InRange(order, |l.sizes|)
    ensures Gathered(buf, Slices(buf, l), l, order) == buf
  {
    if order != [] {
      GatheredInPlace(buf, l, order[..|order| - 1]);
      var last := order[|order| - 1];
      assert Write(buf, l.displs[last], Slice(buf, l, last)) == buf;
    }
  }

  function Length(l: Layout): (length: nat)
    requires |l.sizes| == |l.displs|
    ensures Fits(l, length)
  {
    LengthFrom(l, |l.sizes|)
  }

  function LengthFrom(l: Layout, i: nat): (length: nat)
    requires |l.sizes| == |l.displs| && i <= |l.sizes|
    ensures forall j | 0 <= j < i :: l.displs[j] + l.sizes[j] <= length
  {
    if i == 0 then 0
    else
      var rest, end := LengthFrom(l, i - 1), l.displs[i - 1] + l.sizes[i - 1];
      if rest < end then end else rest
  }

  lemma MoreThanOne(l: Layout)
    requires !StartsFit(l)
    ensures 1 < |l.sizes|
  {
    var b :| 0 <= b < |l.sizes| && !StartFits(l, b);
    assert b != 0;
  }

  // A run that goes wrong when some block starts out of reach.
  lemma AllgathervFails(l: Layout, tmp: Bytes) returns (bufs: seq<Bytes>, blocks: seq<Bytes>, steps: seq<Step>)
    requires 0 < |l.sizes| && Disjoint(l) && !StartsFit(l) && |tmp| == TotalSize(l)
    ensures Arrivals(l, Sources(|l.sizes|, 0, l.sizes, 0))
    ensures Returned(bufs, blocks, l, Sources(|l.sizes|, 0, l.sizes, 0), true, steps, 1)
    ensures !HoldsAll(bufs, blocks, l, 1,
                      Outcome(bufs, blocks, l, Sources(|l.sizes|, 0, l.sizes, 0), true, steps, 1, tmp))
  {
    var n, srcs := |l.sizes|, Sources(|l.sizes|, 0, l.sizes, 0);
    MoreThanOne(l);
    var own := Filled(Length(l), 0);
    var root := FinalBufferFails(own, tmp, l, Length(l), 1);
    bufs, blocks := seq(n, q => if q == 0 then root else own), Slices(root, l);
    AllgathervCalls(l);
    AllgathervMatched(l, srcs);
    steps := RunFinishes(Deposit(l), AllgathervProg(l, srcs), Cells(bufs, blocks, l), true, []);
    AllgathervMessages(bufs, blocks, l, srcs, true, steps, 1);
    ArrivalsInside(l, srcs);
    GatheredInPlace(root, l, [0] + srcs);
  }

  // For disjoint blocks allgatherv is right, for all contents of all buffers, at every
  // rank, in every run and every order of arrival, exactly when every non-empty block
  // starts at or below INT_MAX.
  lemma AllgathervIff(l: Layout)
    requires 0 < |l.sizes| && Disjoint(l)
    ensures (forall bufs, blocks, srcs, strict, steps, r, tmp
               | Returned(bufs, blocks, l, srcs, strict, steps, r) && |tmp| == TotalSize(l)
               :: HoldsAll(bufs, blocks, l, r, Outcome(bufs, blocks, l, srcs, strict, steps, r, tmp)))
       <==> StartsFit(l)
  {
    if StartsFit(l) {
      forall bufs, blocks, srcs, strict, steps, r, tmp
        | Returned(bufs, blocks, l, srcs, strict, steps, r) && |tmp| == TotalSize(l)
        ensures HoldsAll(bufs, blocks, l, r, Outcome(bufs, blocks, l, srcs, strict, steps, r, tmp))
      {
        AllgathervRun(bufs, blocks, l, srcs, strict, steps, r, tmp);
      }
    } else {
      var tmp := Filled(TotalSize(l), 0);
      var bufs, blocks, steps := AllgathervFails(l, tmp);
    }
  }
}
