// Where the bytes of an allgatherv go: the root gathers the blocks at their
// displacements, packs them into one contiguous buffer, broadcasts it, and every
// other rank unpacks it at the same displacements.
module Placement {
  import opened Basics

  datatype Layout = Layout(sizes: seq<nat>, displs: seq<nat>)

  // One size and displacement per rank, and every block inside the buffer.
  predicate Fits(l: Layout, length: nat) {
    |l.sizes| == |l.displs| && forall i | 0 <= i < |l.sizes| :: l.displs[i] + l.sizes[i] <= length
  }

  function Slice(buf: seq<byte>, l: Layout, i: nat): (s: seq<byte>)
    requires Fits(l, |buf|) && i < |l.sizes|
    ensures |s| == l.sizes[i]
  {
    buf[l.displs[i]..l.displs[i] + l.sizes[i]]
  }

  // memcpy(buf + off, data, |data|)
  function Write(buf: seq<byte>, off: nat, data: seq<byte>): (out: seq<byte>)
    requires off + |data| <= |buf|
    ensures |out| == |buf|
    ensures forall x | 0 <= x < |buf| ::
              out[x] == if off <= x < off + |data| then data[x - off] else buf[x]
  {
    seq(|buf|, x requires 0 <= x < |buf| => if off <= x < off + |data| then data[x - off] else buf[x])
  }

  predicate InBlock(l: Layout, i: nat, x: nat)
    requires |l.sizes| == |l.displs| && i < |l.sizes|
  {
    l.displs[i] <= x < l.displs[i] + l.sizes[i]
  }

  ghost predicate Covered(l: Layout, upto: nat, x: nat)
    requires |l.sizes| == |l.displs| && upto <= |l.sizes|
  {
    exists i: nat :: i < upto && InBlock(l, i, x)
  }

  // ---------------------------------------------------------------------
  // Pack and unpack, as functions of the buffers.

  // The first i blocks, one after the other.
  function Packed(buf: seq<byte>, l: Layout, i: nat): seq<byte>
    requires Fits(l, |buf|) && i <= |l.sizes|
  {
    if i == 0 then [] else Packed(buf, l, i - 1) + Slice(buf, l, i - 1)
  }

  function Position(sizes: seq<nat>, i: nat): nat
    requires i <= |sizes|
  {
    if i == 0 then 0 else Position(sizes, i - 1) + sizes[i - 1]
  }

  lemma {:induction false} PositionMonotone(sizes: seq<nat>, i: nat, j: nat)
    requires i <= j <= |sizes|
    ensures Position(sizes, i) <= Position(sizes, j)
  {
    if i < j {
      PositionMonotone(sizes, i, j - 1);
    }
  }

  lemma {:induction false} PackedLength(buf: seq<byte>, l: Layout, i: nat)
    requires Fits(l, |buf|) && i <= |l.sizes|
    ensures |Packed(buf, l, i)| == Position(l.sizes, i)
  {
    if i > 0 {
      PackedLength(buf, l, i - 1);
    }
  }

  // Copying the first i pieces of tmp back to their displacements.
  function Unpacked(buf: seq<byte>, tmp: seq<byte>, l: Layout, i: nat): (out: seq<byte>)
    requires Fits(l, |buf|) && i <= |l.sizes| && Position(l.sizes, i) <= |tmp|
    ensures |out| == |buf|
  {
    if i == 0 then buf
    else
      Write(Unpacked(buf, tmp, l, i - 1), l.displs[i - 1], tmp[Position(l.sizes, i - 1)..Position(l.sizes, i)])
  }

  lemma {:induction false} PackedPiece(buf: seq<byte>, l: Layout, i: nat, upto: nat)
    requires Fits(l, |buf|) && i < upto <= |l.sizes|
    ensures |Packed(buf, l, upto)| == Position(l.sizes, upto)
    ensures Position(l.sizes, i + 1) <= Position(l.sizes, upto)
    ensures Packed(buf, l, upto)[Position(l.sizes, i)..Position(l.sizes, i + 1)] == Slice(buf, l, i)
    decreases upto
  {
    PackedLength(buf, l, upto);
    PackedLength(buf, l, upto - 1);
    PositionMonotone(l.sizes, i + 1, upto);
    if i + 1 < upto {
      PackedPiece(buf, l, i, upto - 1);
      assert Packed(buf, l, upto)[..Position(l.sizes, upto - 1)] == Packed(buf, l, upto - 1);
      PositionMonotone(l.sizes, i + 1, upto - 1);
    }
  }

  lemma CoveredStep(l: Layout, i: nat, x: nat)
    requires |l.sizes| == |l.displs| && 0 < i <= |l.sizes|
    ensures Covered(l, i, x) <==> Covered(l, i - 1, x) || InBlock(l, i - 1, x)
  {
    if InBlock(l, i - 1, x) {
      assert Covered(l, i, x);
    }
  }

  lemma SliceWritten(prev: seq<byte>, src: seq<byte>, l: Layout, j: nat, piece: seq<byte>, x: nat)
    requires Fits(l, |src|) && Fits(l, |prev|) && j < |l.sizes| && piece == Slice(src, l, j) && x < |prev|
    ensures var out := Write(prev, l.displs[j], piece);
            if InBlock(l, j, x) then x < |src| && out[x] == src[x] else out[x] == prev[x]
  {
  }

  lemma {:induction false} UnpackedByte(src: seq<byte>, buf: seq<byte>, l: Layout, i: nat, x: nat)
    requires Fits(l, |src|) && Fits(l, |buf|) && i <= |l.sizes| && x < |buf|
    ensures |Packed(src, l, |l.sizes|)| == Position(l.sizes, |l.sizes|)
    ensures Position(l.sizes, i) <= Position(l.sizes, |l.sizes|)
    ensures var out := Unpacked(buf, Packed(src, l, |l.sizes|), l, i);
            if Covered(l, i, x) then x < |src| && out[x] == src[x] else out[x] == buf[x]
  {
    PackedLength(src, l, |l.sizes|);
    PositionMonotone(l.sizes, i, |l.sizes|);
    if i > 0 {
      UnpackedByte(src, buf, l, i - 1, x);
      PackedPiece(src, l, i - 1, |l.sizes|);
      var tmp := Packed(src, l, |l.sizes|);
      SliceWritten(Unpacked(buf, tmp, l, i - 1), src, l, i - 1,
                   tmp[Position(l.sizes, i - 1)..Position(l.sizes, i)], x);
      CoveredStep(l, i, x);
    }
  }

  // Unpacking what src packed makes every byte inside some block equal to src's,
  // even where blocks overlap, and leaves every other byte of buf alone.
  lemma UnpackAfterPack(src: seq<byte>, buf: seq<byte>, l: Layout, i: nat)
    requires Fits(l, |src|) && Fits(l, |buf|) && i <= |l.sizes|
    ensures |Packed(src, l, |l.sizes|)| == Position(l.sizes, |l.sizes|)
    ensures Position(l.sizes, i) <= Position(l.sizes, |l.sizes|)
    ensures var out := Unpacked(buf, Packed(src, l, |l.sizes|), l, i);
            forall x: nat | x < |buf| ::
              (Covered(l, i, x) ==> x < |src| && out[x] == src[x]) && (!Covered(l, i, x) ==> out[x] == buf[x])
  {
    PackedLength(src, l, |l.sizes|);
    PositionMonotone(l.sizes, i, |l.sizes|);
    var out := Unpacked(buf, Packed(src, l, |l.sizes|), l, i);
    forall x: nat | x < |buf|
      ensures (Covered(l, i, x) ==> x < |src| && out[x] == src[x]) && (!Covered(l, i, x) ==> out[x] == buf[x])
    {
      UnpackedByte(src, buf, l, i, x);
    }
  }

  // ---------------------------------------------------------------------
  // The gathered buffer at the root: the receives complete in any order.

  function Gathered(buf: seq<byte>, blocks: seq<seq<byte>>, l: Layout, order: seq<nat>): (out: seq<byte>)
    requires Fits(l, |buf|) && |blocks| == |l.sizes|
    requires forall i | 0 <= i < |blocks| :: |blocks[i]| == l.sizes[i]
    requires forall j | 0 <= j < |order| :: order[j] < |blocks|
    ensures |out| == |buf|
  {
    if order == [] then buf
    else
      var last := order[|order| - 1];
      Write(Gathered(buf, blocks, l, order[..|order| - 1]), l.displs[last], blocks[last])
  }

  ghost predicate Disjoint(l: Layout) {
    |l.sizes| == |l.displs| &&
    forall i: nat, j: nat, x: nat | i < |l.sizes| && j < |l.sizes| && InBlock(l, i, x) && InBlock(l, j, x) :: i == j
  }

  // With disjoint blocks, whichever order the blocks arrive in: block i is rank
  // i's data and bytes outside the arrived blocks are unchanged.
  lemma {:induction false} GatheredBlock(buf: seq<byte>, blocks: seq<seq<byte>>, l: Layout, order: seq<nat>, x: nat)
    requires Fits(l, |buf|) && |blocks| == |l.sizes| && Disjoint(l) && x < |buf|
    requires forall i | 0 <= i < |blocks| :: |blocks[i]| == l.sizes[i]
    requires forall j | 0 <= j < |order| :: order[j] < |blocks|
    ensures forall i: nat | i in order && InBlock(l, i, x) ::
              Gathered(buf, blocks, l, order)[x] == blocks[i][x - l.displs[i]]
    ensures (forall i: nat | i in order :: !InBlock(l, i, x)) ==> Gathered(buf, blocks, l, order)[x] == buf[x]
  {
    if order != [] {
      var last := order[|order| - 1];
      GatheredBlock(buf, blocks, l, order[..|order| - 1], x);
      var before := order[..|order| - 1];
      assert order == before + [last];
      forall i: nat | i in order && InBlock(l, i, x)
        ensures Gathered(buf, blocks, l, order)[x] == blocks[i][x - l.displs[i]]
      {
        if !InBlock(l, last, x) {
          assert i in before;
        }
      }
    }
  }
}
