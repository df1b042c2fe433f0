// The offset into the contiguous buffer of an allgatherv is an int, while the block
// sizes are size_t. Packing and unpacking with the offset the code computes.
module Offsets {
  import opened Basics
  import opened Placement

  // Every block that has any bytes starts where an int can point.
  predicate StartsFit(l: Layout) {
    forall i | 0 <= i < |l.sizes| :: StartFits(l, i)
  }

  predicate StartFits(l: Layout, i: nat)
    requires i < |l.sizes|
  {
    l.sizes[i] != 0 ==> Position(l.sizes, i) <= INT_MAX
  }

  function TotalSize(l: Layout): nat { Position(l.sizes, |l.sizes|) }

  // The offset at which the loops find block i.
  function Offset(l: Layout, i: nat): (off: int)
    requires i <= |l.sizes|
    ensures off <= INT_MAX && off <= Position(l.sizes, i)
  {
    ToInt(Position(l.sizes, i))
  }

  lemma PieceInside(l: Layout, i: nat)
    requires i < |l.sizes|
    ensures Position(l.sizes, i) + l.sizes[i] <= TotalSize(l) && Offset(l, i) + l.sizes[i] <= TotalSize(l)
  {
    PositionMonotone(l.sizes, i + 1, |l.sizes|);
  }

  // One copy of the pack loop; None if it goes to before the contiguous buffer.
  function PackPiece(t: seq<byte>, buf: seq<byte>, l: Layout, i: nat): (out: Option<seq<byte>>)
    requires Fits(l, |buf|) && i < |l.sizes| && |t| == TotalSize(l)
    ensures out.Some? ==> |out.value| == |t|
  {
    PieceInside(l, i);
    if l.sizes[i] == 0 then Some(t)
    else if Offset(l, i) < 0 then None
    else Some(Write(t, Offset(l, i), Slice(buf, l, i)))
  }

  // The pack loop on a contiguous buffer that holds anything.
  function PackInt(tmp: seq<byte>, buf: seq<byte>, l: Layout, i: nat): (out: Option<seq<byte>>)
    requires Fits(l, |buf|) && i <= |l.sizes| && |tmp| == TotalSize(l)
    ensures out.Some? ==> |out.value| == |tmp|
  {
    if i == 0 then Some(tmp)
    else
      var t := PackInt(tmp, buf, l, i - 1);
      if t.None? then None else PackPiece(t.value, buf, l, i - 1)
  }

  // One copy of the unpack loop; None if it reads from before the contiguous buffer.
  function UnpackPiece(b: seq<byte>, tmp: seq<byte>, l: Layout, i: nat): (out: Option<seq<byte>>)
    requires Fits(l, |b|) && i < |l.sizes| && |tmp| == TotalSize(l)
    ensures out.Some? ==> |out.value| == |b|
  {
    PieceInside(l, i);
    if l.sizes[i] == 0 then Some(b)
    else if Offset(l, i) < 0 then None
    else Some(Write(b, l.displs[i], tmp[Offset(l, i)..Offset(l, i) + l.sizes[i]]))
  }

  function UnpackInt(buf: seq<byte>, tmp: seq<byte>, l: Layout, i: nat): (out: Option<seq<byte>>)
    requires Fits(l, |buf|) && i <= |l.sizes| && |tmp| == TotalSize(l)
    ensures out.Some? ==> |out.value| == |buf|
  {
    if i == 0 then Some(buf)
    else
      var b := UnpackInt(buf, tmp, l, i - 1);
      if b.None? then None else UnpackPiece(b.value, tmp, l, i - 1)
  }

  lemma OffsetFits(l: Layout, i: nat)
    requires i < |l.sizes| && StartsFit(l) && l.sizes[i] != 0
    ensures Offset(l, i) == Position(l.sizes, i)
  {
    assert StartFits(l, i);
  }

  // ---------------------------------------------------------------------
  // Enough.

  lemma WriteNext(t: seq<byte>, at: nat, data: seq<byte>)
    requires at + |data| <= |t|
    ensures Write(t, at, data)[..at + |data|] == t[..at] + data
  {
  }

  lemma WriteNothing(t: seq<byte>, at: nat)
    requires at <= |t|
    ensures Write(t, at, []) == t
  {
  }

  lemma {:induction false} PackIntFits(tmp: seq<byte>, buf: seq<byte>, l: Layout, i: nat)
    requires Fits(l, |buf|) && i <= |l.sizes| && |tmp| == TotalSize(l) && StartsFit(l)
    ensures PackInt(tmp, buf, l, i).Some? && Position(l.sizes, i) <= |tmp|
    ensures PackInt(tmp, buf, l, i).value[..Position(l.sizes, i)] == Packed(buf, l, i)
  {
    PositionMonotone(l.sizes, i, |l.sizes|);
    if i > 0 {
      PackIntFits(tmp, buf, l, i - 1);
      var t := PackInt(tmp, buf, l, i - 1).value;
      if l.sizes[i - 1] == 0 {
        assert Slice(buf, l, i - 1) == [];
      } else {
        OffsetFits(l, i - 1);
        WriteNext(t, Position(l.sizes, i - 1), Slice(buf, l, i - 1));
      }
    }
  }

  lemma UnpackPieceFits(b: seq<byte>, tmp: seq<byte>, l: Layout, i: nat, from: nat, to: nat)
    requires Fits(l, |b|) && i < |l.sizes| && |tmp| == TotalSize(l) && StartsFit(l)
    requires from == Position(l.sizes, i) && to == Position(l.sizes, i + 1) <= |tmp|
    ensures UnpackPiece(b, tmp, l, i) == Some(Write(b, l.displs[i], tmp[from..to]))
  {
    if l.sizes[i] == 0 {
      assert tmp[from..to] == [];
      WriteNothing(b, l.displs[i]);
    } else {
      OffsetFits(l, i);
    }
  }

  lemma {:induction false} UnpackIntFits(buf: seq<byte>, tmp: seq<byte>, l: Layout, i: nat)
    requires Fits(l, |buf|) && i <= |l.sizes| && |tmp| == TotalSize(l) && StartsFit(l)
    ensures Position(l.sizes, i) <= |tmp|
    ensures UnpackInt(buf, tmp, l, i) == Some(Unpacked(buf, tmp, l, i))
  {
    PositionMonotone(l.sizes, i, |l.sizes|);
    if i > 0 {
      UnpackIntFits(buf, tmp, l, i - 1);
      UnpackPieceFits(Unpacked(buf, tmp, l, i - 1), tmp, l, i - 1, Position(l.sizes, i - 1), Position(l.sizes, i));
    }
  }

  // ---------------------------------------------------------------------
  // Necessary: the last byte of the contiguous buffer is out of reach.

  lemma OffsetShort(l: Layout, i: nat)
    requires i < |l.sizes| && l.sizes[i] != 0 && !StartsFit(l)
    ensures Offset(l, i) + l.sizes[i] < TotalSize(l)
  {
    var bad :| 0 <= bad < |l.sizes| && !StartFits(l, bad);
    PositionMonotone(l.sizes, i + 1, |l.sizes|);
    if bad <= i {
      PositionMonotone(l.sizes, bad, i);
    } else {
      PositionMonotone(l.sizes, i + 1, bad);
      PositionMonotone(l.sizes, bad + 1, |l.sizes|);
    }
  }

  lemma {:induction false} LastByteKept(tmp: seq<byte>, buf: seq<byte>, l: Layout, i: nat)
    requires Fits(l, |buf|) && i <= |l.sizes| && |tmp| == TotalSize(l) && tmp != [] && !StartsFit(l)
    ensures PackInt(tmp, buf, l, i).Some? ==> PackInt(tmp, buf, l, i).value[|tmp| - 1] == tmp[|tmp| - 1]
  {
    if i > 0 {
      LastByteKept(tmp, buf, l, i - 1);
      if l.sizes[i - 1] != 0 {
        OffsetShort(l, i - 1);
      }
    }
  }

  lemma TotalPositive(l: Layout)
    requires !StartsFit(l)
    ensures TotalSize(l) > 0
  {
    var bad :| 0 <= bad < |l.sizes| && !StartFits(l, bad);
    PositionMonotone(l.sizes, bad, |l.sizes|);
  }

  function Filled(n: nat, b: byte): (s: seq<byte>)
    ensures |s| == n && forall i | 0 <= i < n :: s[i] == b
  {
    seq(n, _ => b)
  }

  lemma PackIntWorks(buf: seq<byte>, l: Layout, tmp: seq<byte>)
    requires Fits(l, |buf|) && StartsFit(l) && |tmp| == TotalSize(l)
    ensures PackInt(tmp, buf, l, |l.sizes|) == Some(Packed(buf, l, |l.sizes|))
  {
    PackIntFits(tmp, buf, l, |l.sizes|);
    PackedLength(buf, l, |l.sizes|);
    var t := PackInt(tmp, buf, l, |l.sizes|).value;
    assert t[..|tmp|] == t;
  }

  lemma PackIntFails(buf: seq<byte>, l: Layout) returns (tmp: seq<byte>)
    requires Fits(l, |buf|) && !StartsFit(l)
    ensures |tmp| == TotalSize(l) && PackInt(tmp, buf, l, |l.sizes|) != Some(Packed(buf, l, |l.sizes|))
  {
    TotalPositive(l);
    PackedLength(buf, l, |l.sizes|);
    var last := Packed(buf, l, |l.sizes|)[TotalSize(l) - 1];
    tmp := Filled(TotalSize(l), if last == 0 then 1 else 0);
    LastByteKept(tmp, buf, l, |l.sizes|);
  }

  // Packing concatenates the blocks, whatever the allocated buffer held, exactly when
  // every non-empty block starts at or below INT_MAX.
  lemma PackIntIff(buf: seq<byte>, l: Layout)
    requires Fits(l, |buf|)
    ensures (forall tmp: seq<byte> | |tmp| == TotalSize(l) ::
               PackInt(tmp, buf, l, |l.sizes|) == Some(Packed(buf, l, |l.sizes|)))
       <==> StartsFit(l)
  {
    if StartsFit(l) {
      forall tmp: seq<byte> | |tmp| == TotalSize(l)
        ensures PackInt(tmp, buf, l, |l.sizes|) == Some(Packed(buf, l, |l.sizes|))
      {
        PackIntWorks(buf, l, tmp);
      }
    } else {
      var tmp := PackIntFails(buf, l);
    }
  }

  // The last block with any bytes.
  lemma {:induction false} LastBlock(l: Layout, i: nat) returns (last: nat)
    requires i <= |l.sizes| && Position(l.sizes, i) > 0
    ensures last < i && l.sizes[last] != 0 && Position(l.sizes, last + 1) == Position(l.sizes, i)
    ensures forall j | last < j < i :: l.sizes[j] == 0
  {
    if l.sizes[i - 1] != 0 {
      last := i - 1;
    } else {
      last := LastBlock(l, i - 1);
    }
  }

  lemma NothingUnpacked(buf: seq<byte>, tmp: seq<byte>, l: Layout, i: nat, at: nat)
    requires Fits(l, |buf|) && i < |l.sizes| && l.sizes[i] == 0 && at == Position(l.sizes, i) <= |tmp|
    ensures at == Position(l.sizes, i + 1) && Unpacked(buf, tmp, l, i + 1) == Unpacked(buf, tmp, l, i)
  {
    assert tmp[at..at] == [];
    WriteNothing(Unpacked(buf, tmp, l, i), l.displs[i]);
  }

  lemma {:induction false} NothingFollows(buf: seq<byte>, tmp: seq<byte>, l: Layout, j: nat, i: nat)
    requires Fits(l, |buf|) && j <= i <= |l.sizes| && |tmp| == TotalSize(l)
    requires forall x | j <= x < i :: l.sizes[x] == 0
    ensures Position(l.sizes, i) == Position(l.sizes, j) <= |tmp|
    ensures Unpacked(buf, tmp, l, i) == Unpacked(buf, tmp, l, j)
  {
    if j == i {
      PositionMonotone(l.sizes, i, |l.sizes|);
    } else {
      NothingFollows(buf, tmp, l, j, i - 1);
      NothingUnpacked(buf, tmp, l, i - 1, Position(l.sizes, i - 1));
    }
  }

  lemma {:induction false} NothingFollowsInt(buf: seq<byte>, tmp: seq<byte>, l: Layout, j: nat, i: nat)
    requires Fits(l, |buf|) && j <= i <= |l.sizes| && |tmp| == TotalSize(l)
    requires forall x | j <= x < i :: l.sizes[x] == 0
    ensures UnpackInt(buf, tmp, l, i) == UnpackInt(buf, tmp, l, j)
  {
    if j < i {
      NothingFollowsInt(buf, tmp, l, j, i - 1);
    }
  }

  // The last byte of what is written to a block is the last byte of the piece.
  lemma LastWritten(prev: seq<byte>, off: nat, piece: seq<byte>, tmp: seq<byte>, from: nat, to: nat)
    requires from < to <= |tmp| && piece == tmp[from..to] && off + |piece| <= |prev|
    ensures Write(prev, off, piece)[off + (to - from) - 1] == tmp[to - 1]
  {
  }

  lemma UnpackedLast(buf: seq<byte>, tmp: seq<byte>, l: Layout, i: nat, from: nat, to: nat)
    requires Fits(l, |buf|) && i < |l.sizes| && from == Position(l.sizes, i) && to == Position(l.sizes, i + 1) <= |tmp|
    requires l.sizes[i] != 0
    ensures from + l.sizes[i] == to
    ensures Unpacked(buf, tmp, l, i + 1)[l.displs[i] + l.sizes[i] - 1] == tmp[to - 1]
  {
    LastWritten(Unpacked(buf, tmp, l, i), l.displs[i], tmp[from..to], tmp, from, to);
  }

  predicate OnlyLast(tmp: seq<byte>) {
    tmp != [] && tmp[|tmp| - 1] == 1 && forall x | 0 <= x < |tmp| - 1 :: tmp[x] == 0
  }

  function LastOne(n: nat): (tmp: seq<byte>)
    requires n > 0
    ensures |tmp| == n && OnlyLast(tmp)
  {
    Filled(n, 0)[n - 1 := 1]
  }

  lemma PieceMisses(b: seq<byte>, tmp: seq<byte>, l: Layout, i: nat)
    requires Fits(l, |b|) && i < |l.sizes| && |tmp| == TotalSize(l) && l.sizes[i] != 0 && OnlyLast(tmp)
    requires Offset(l, i) + l.sizes[i] < TotalSize(l)
    ensures var out := UnpackPiece(b, tmp, l, i);
            out.Some? ==> out.value[l.displs[i] + l.sizes[i] - 1] == 0
  {
    var from, to := Offset(l, i), Offset(l, i) + l.sizes[i];
    if 0 <= from {
      LastWritten(b, l.displs[i], tmp[from..to], tmp, from, to);
    }
  }

  lemma UnpackIntMisses(buf: seq<byte>, tmp: seq<byte>, l: Layout, i: nat)
    requires Fits(l, |buf|) && i < |l.sizes| && |tmp| == TotalSize(l) && l.sizes[i] != 0
    requires !StartsFit(l) && OnlyLast(tmp)
    ensures var out := UnpackInt(buf, tmp, l, i + 1);
            out.Some? ==> out.value[l.displs[i] + l.sizes[i] - 1] == 0
  {
    OffsetShort(l, i);
    var b := UnpackInt(buf, tmp, l, i);
    if b.Some? {
      PieceMisses(b.value, tmp, l, i);
    }
  }

  lemma DifferAt(out: Option<seq<byte>>, good: seq<byte>, x: nat)
    requires x < |good| && good[x] == 1 && (out.Some? ==> |out.value| == |good| && out.value[x] == 0)
    ensures out != Some(good)
  {
  }

  // The last byte of the last block stays 0 where it should become 1.
  lemma SomeUnpackFails(buf: seq<byte>, l: Layout) returns (tmp: seq<byte>, x: nat)
    requires Fits(l, |buf|) && !StartsFit(l)
    ensures |tmp| == TotalSize(l) && x < |buf| && Unpacked(buf, tmp, l, |l.sizes|)[x] == 1
    ensures UnpackInt(buf, tmp, l, |l.sizes|).Some? ==> UnpackInt(buf, tmp, l, |l.sizes|).value[x] == 0
  {
    TotalPositive(l);
    tmp := LastOne(TotalSize(l));
    var i := LastBlock(l, |l.sizes|);
    x := l.displs[i] + l.sizes[i] - 1;
    UnpackedLast(buf, tmp, l, i, Position(l.sizes, i), |tmp|);
    UnpackIntMisses(buf, tmp, l, i);
    NothingFollows(buf, tmp, l, i + 1, |l.sizes|);
    NothingFollowsInt(buf, tmp, l, i + 1, |l.sizes|);
  }

  lemma UnpackIntFails(buf: seq<byte>, l: Layout) returns (tmp: seq<byte>)
    requires Fits(l, |buf|) && !StartsFit(l)
    ensures |tmp| == TotalSize(l) && UnpackInt(buf, tmp, l, |l.sizes|) != Some(Unpacked(buf, tmp, l, |l.sizes|))
  {
    var x;
    tmp, x := SomeUnpackFails(buf, l);
    DifferAt(UnpackInt(buf, tmp, l, |l.sizes|), Unpacked(buf, tmp, l, |l.sizes|), x);
  }

  // Unpacking copies every piece of every contiguous buffer exactly under the same
  // condition.
  lemma UnpackIntIff(buf: seq<byte>, l: Layout)
    requires Fits(l, |buf|)
    ensures (forall tmp: seq<byte> | |tmp| == TotalSize(l) ::
               UnpackInt(buf, tmp, l, |l.sizes|) == Some(Unpacked(buf, tmp, l, |l.sizes|)))
       <==> StartsFit(l)
  {
    if StartsFit(l) {
      forall tmp: seq<byte> | |tmp| == TotalSize(l)
        ensures UnpackInt(buf, tmp, l, |l.sizes|) == Some(Unpacked(buf, tmp, l, |l.sizes|))
      {
        UnpackIntFits(buf, tmp, l, |l.sizes|);
      }
    } else {
      var tmp := UnpackIntFails(buf, l);
    }
  }

  // ---------------------------------------------------------------------
  // Packing at rank 0 and unpacking elsewhere, together.

  lemma {:induction false} PackStops(tmp: seq<byte>, buf: seq<byte>, l: Layout, b: nat, k: nat)
    requires Fits(l, |buf|) && b < k <= |l.sizes| && |tmp| == TotalSize(l)
    requires l.sizes[b] != 0 && Offset(l, b) < 0
    ensures PackInt(tmp, buf, l, k).None?
  {
    if b + 1 < k {
      PackStops(tmp, buf, l, b, k - 1);
    }
  }

  // With disjoint blocks, what ends up in a block is what was read for it.
  lemma {:induction false} ReadBack(buf: seq<byte>, tmp: seq<byte>, l: Layout, k: nat, i: nat, y: nat)
    requires Fits(l, |buf|) && Disjoint(l) && i < k <= |l.sizes| && |tmp| == TotalSize(l) && y < l.sizes[i]
    requires UnpackInt(buf, tmp, l, k).Some?
    ensures 0 <= Offset(l, i) && Offset(l, i) + l.sizes[i] <= |tmp|
    ensures UnpackInt(buf, tmp, l, k).value[l.displs[i] + y] == tmp[Offset(l, i) + y]
  {
    PieceInside(l, i);
    if i + 1 < k {
      ReadBack(buf, tmp, l, k - 1, i, y);
      OtherBlockKept(UnpackInt(buf, tmp, l, k - 1).value, tmp, l, k - 1, i, l.displs[i] + y);
    }
  }

  lemma OtherBlockKept(b: seq<byte>, tmp: seq<byte>, l: Layout, k: nat, i: nat, x: nat)
    requires Fits(l, |b|) && Disjoint(l) && i < k < |l.sizes| && |tmp| == TotalSize(l) && x < |b| && InBlock(l, i, x)
    ensures UnpackPiece(b, tmp, l, k).Some? ==> UnpackPiece(b, tmp, l, k).value[x] == b[x]
  {
    PieceInside(l, k);
    assert !InBlock(l, k, x);
    assert x < l.displs[k] || l.displs[k] + l.sizes[k] <= x;
  }

  // The block that byte o of the contiguous buffer belongs to.
  lemma {:induction false} BlockAt(l: Layout, o: nat, b: nat) returns (j: nat)
    requires b <= |l.sizes| && o < Position(l.sizes, b)
    ensures j < b && Position(l.sizes, j) <= o < Position(l.sizes, j + 1)
  {
    if Position(l.sizes, b - 1) <= o {
      j := b - 1;
    } else {
      j := BlockAt(l, o, b - 1);
    }
  }

  // If block b starts out of reach and its offset wraps to one inside the contiguous
  // buffer, two different bytes of the user's buffer are read from the same place.
  lemma SharedByte(l: Layout, length: nat, b: nat) returns (j: nat, y: nat)
    requires Fits(l, length) && Disjoint(l) && b < |l.sizes| && !StartFits(l, b) && 0 <= Offset(l, b)
    ensures j < b && InBlock(l, j, y) && InBlock(l, b, l.displs[b]) && y != l.displs[b]
    ensures forall own: seq<byte>, tmp: seq<byte>
              | |own| == length && |tmp| == TotalSize(l) && UnpackInt(own, tmp, l, |l.sizes|).Some?
              :: UnpackInt(own, tmp, l, |l.sizes|).value[y] == UnpackInt(own, tmp, l, |l.sizes|).value[l.displs[b]]
  {
    j := BlockAt(l, Offset(l, b), b);
    y := l.displs[j] + (Offset(l, b) - Position(l.sizes, j));
    assert InBlock(l, j, y) && InBlock(l, b, l.displs[b]);
    forall own: seq<byte>, tmp: seq<byte>
      | |own| == length && |tmp| == TotalSize(l) && UnpackInt(own, tmp, l, |l.sizes|).Some?
      ensures UnpackInt(own, tmp, l, |l.sizes|).value[y] == UnpackInt(own, tmp, l, |l.sizes|).value[l.displs[b]]
    {
      ReadBack(own, tmp, l, |l.sizes|, b, 0);
      ReadBack(own, tmp, l, |l.sizes|, j, y - l.displs[j]);
    }
  }

  // A block of 2^31 bytes and one of a single byte: the second is copied to 2^31
  // bytes before the buffer.
  lemma LargeBlockFails(buf: seq<byte>, tmp: seq<byte>)
    requires |buf| == 0x8000_0001 == |tmp|
    ensures var l := Layout([0x8000_0000, 1], [0, 0x8000_0000]);
            && Fits(l, |buf|) && Disjoint(l) && TotalSize(l) == |tmp| && Offset(l, 1) == -0x8000_0000
            && PackInt(tmp, buf, l, 2) == None && UnpackInt(buf, tmp, l, 2) == None
  {
    var l := Layout([0x8000_0000, 1], [0, 0x8000_0000]);
    assert Position(l.sizes, 1) == 0x8000_0000;
    assert Position(l.sizes, 2) == 0x8000_0001;
  }

  // ---------------------------------------------------------------------
  // The copying loops.

  method CopyInto(dst: array<byte>, off: nat, src: seq<byte>)
    requires off + |src| <= dst.Length
    modifies dst
    ensures dst[..] == Write(old(dst[..]), off, src)
  {
    forall x | 0 <= x < |src| {
      dst[off + x] := src[x];
    }
  }

  method Allocate(l: Layout) returns (tmp: array<byte>)
    ensures fresh(tmp) && tmp.Length == TotalSize(l)
  {
    var total: nat := 0;
    for i := 0 to |l.sizes|
      invariant total == Position(l.sizes, i)
    {
      total := total + l.sizes[i];
    }
    tmp := new byte[total](_ => 0);
  }

  // position += size, in an int.
  method Advance(l: Layout, i: nat, position: int32) returns (next: int32)
    requires i < |l.sizes| && position as int == Offset(l, i)
    ensures next as int == Offset(l, i + 1)
  {
    ToIntAdd(Position(l.sizes, i), l.sizes[i]);
    next := ToInt(position as int + l.sizes[i]) as int32;
  }

  lemma PackNext(t: seq<byte>, buf: seq<byte>, l: Layout, i: nat)
    requires Fits(l, |buf|) && i < |l.sizes| && Position(l.sizes, i + 1) <= |t|
    requires t[..Position(l.sizes, i)] == Packed(buf, l, i)
    ensures Write(t, Position(l.sizes, i), Slice(buf, l, i))[..Position(l.sizes, i + 1)] == Packed(buf, l, i + 1)
  {
    WriteNext(t, Position(l.sizes, i), Slice(buf, l, i));
  }

  // The first i blocks are packed.
  ghost predicate PackedTo(t: seq<byte>, buf: seq<byte>, l: Layout, i: nat, position: int)
    requires Fits(l, |buf|) && i <= |l.sizes|
  {
    && |t| == TotalSize(l) && Position(l.sizes, i) <= |t| && t[..Position(l.sizes, i)] == Packed(buf, l, i)
    && position == Offset(l, i)
  }

  lemma AllPacked(t: seq<byte>, buf: seq<byte>, l: Layout, position: int)
    requires Fits(l, |buf|) && PackedTo(t, buf, l, |l.sizes|, position)
    ensures t == Packed(buf, l, |l.sizes|)
  {
    assert t[..|t|] == t;
  }

  // The body of the pack loop.
  method PackOne(tmp: array<byte>, recvbuf: array<byte>, l: Layout, i: nat, position: int32) returns (next: int32)
    requires tmp != recvbuf && Fits(l, recvbuf.Length) && StartsFit(l) && i < |l.sizes|
    requires PackedTo(tmp[..], recvbuf[..], l, i, position as int)
    modifies tmp
    ensures PackedTo(tmp[..], recvbuf[..], l, i + 1, next as int)
  {
    PositionMonotone(l.sizes, i + 1, |l.sizes|);
    PackNext(tmp[..], recvbuf[..], l, i);
    if l.sizes[i] != 0 {
      OffsetFits(l, i);
      CopyInto(tmp, position as nat, recvbuf[l.displs[i]..l.displs[i] + l.sizes[i]]);
    }
    next := Advance(l, i, position);
  }

  // Rank 0 copies its fragments into the contiguous buffer.
  method PackLoop(recvbuf: array<byte>, l: Layout) returns (tmp: array<byte>)
    requires Fits(l, recvbuf.Length) && StartsFit(l)
    ensures fresh(tmp) && tmp[..] == Packed(recvbuf[..], l, |l.sizes|)
  {
    tmp := Allocate(l);
    var position: int32 := 0;
    for i := 0 to |l.sizes|
      invariant fresh(tmp) && PackedTo(tmp[..], recvbuf[..], l, i, position as int)
    {
      position := PackOne(tmp, recvbuf, l, i, position);
    }
    AllPacked(tmp[..], recvbuf[..], l, position as int);
  }

  // The first i pieces are unpacked.
  ghost predicate UnpackedTo(b: seq<byte>, buf: seq<byte>, tmp: seq<byte>, l: Layout, i: nat, position: int)
    requires Fits(l, |buf|) && i <= |l.sizes|
  {
    && |tmp| == TotalSize(l) && Position(l.sizes, i) <= |tmp| && b == Unpacked(buf, tmp, l, i)
    && position == Offset(l, i)
  }

  // The body of the unpack loop.
  method UnpackOne(recvbuf: array<byte>, tmp: array<byte>, l: Layout, i: nat, position: int32, ghost buf: seq<byte>)
    returns (next: int32)
    requires recvbuf != tmp && Fits(l, |buf|) && |buf| == recvbuf.Length && StartsFit(l) && i < |l.sizes|
    requires UnpackedTo(recvbuf[..], buf, tmp[..], l, i, position as int)
    modifies recvbuf
    ensures UnpackedTo(recvbuf[..], buf, tmp[..], l, i + 1, next as int)
  {
    PositionMonotone(l.sizes, i + 1, |l.sizes|);
    UnpackPieceFits(recvbuf[..], tmp[..], l, i, Position(l.sizes, i), Position(l.sizes, i + 1));
    if l.sizes[i] != 0 {
      OffsetFits(l, i);
      var at := position as nat;
      assert tmp[at..at + l.sizes[i]] == tmp[..][at..at + l.sizes[i]];
      CopyInto(recvbuf, l.displs[i], tmp[at..at + l.sizes[i]]);
    }
    next := Advance(l, i, position);
  }

  // The other ranks copy the broadcast buffer back to the displacements.
  method UnpackLoop(recvbuf: array<byte>, tmp: array<byte>, l: Layout)
    requires recvbuf != tmp && Fits(l, recvbuf.Length) && tmp.Length == TotalSize(l) && StartsFit(l)
    modifies recvbuf
    ensures recvbuf[..] == Unpacked(old(recvbuf[..]), tmp[..], l, |l.sizes|)
  {
    ghost var buf := recvbuf[..];
    var position: int32 := 0;
    for i := 0 to |l.sizes|
      invariant UnpackedTo(recvbuf[..], buf, tmp[..], l, i, position as int)
    {
      position := UnpackOne(recvbuf, tmp, l, i, position, buf);
    }
  }
}
