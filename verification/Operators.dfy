// Built-in reduction operators: in-place loops over `count` elements, the
// element-wise functions they compute, and what a reduce with them returns.
module Operators {
  import opened Basics
  import opened Reduce
  import opened ReduceLoop
  import opened Runs

  function ZipWith<T>(f: (T, T) -> T, a: seq<T>, b: seq<T>): (c: seq<T>)
    ensures |c| == Min(|a|, |b|)
    ensures forall i | 0 <= i < |c| :: c[i] == f(a[i], b[i])
  {
    seq(Min(|a|, |b|), i requires 0 <= i < Min(|a|, |b|) => f(a[i], b[i]))
  }

  // Applying f to every element, as an operator on whole buffers.
  function Lift<T(!new)>(f: (T, T) -> T): (seq<T>, seq<T>) -> seq<T> {
    (a: seq<T>, b: seq<T>) => ZipWith(f, a, b)
  }

  lemma LiftAssociative<T(!new)>(f: (T, T) -> T)
    requires Associative(f)
    ensures Associative(Lift(f))
  {
    forall a, b, c ensures AssociatesAt(Lift(f), a, b, c) {
      var l, r := ZipWith(f, ZipWith(f, a, b), c), ZipWith(f, a, ZipWith(f, b, c));
      forall i | 0 <= i < |l| ensures l[i] == r[i] {
        assert AssociatesAt(f, a[i], b[i], c[i]);
      }
      assert l == r;
    }
  }

  lemma LiftCommutative<T(!new)>(f: (T, T) -> T)
    requires Commutative(f)
    ensures Commutative(Lift(f))
  {
    forall a, b ensures CommutesAt(Lift(f), a, b) {
      var l, r := ZipWith(f, a, b), ZipWith(f, b, a);
      forall i | 0 <= i < |l| ensures l[i] == r[i] {
        assert CommutesAt(f, a[i], b[i]);
      }
      assert l == r;
    }
  }

  // Element i of every rank's buffer.
  function Column<T>(bufs: seq<seq<T>>, count: nat, i: nat): (c: seq<T>)
    requires i < count && forall r | 0 <= r < |bufs| :: |bufs[r]| == count
    ensures |c| == |bufs| && forall r | 0 <= r < |bufs| :: c[r] == bufs[r][i]
  {
    seq(|bufs|, r requires 0 <= r < |bufs| && |bufs[r]| == count => bufs[r][i])
  }

  // Element i of the folded buffers is the fold of the elements i.
  lemma {:induction false} FoldElement<T(!new)>(f: (T, T) -> T, bufs: seq<seq<T>>, root: nat, lo: nat, hi: nat,
                                               count: nat, i: nat)
    requires root < |bufs| && lo < hi <= |bufs| && i < count
    requires forall r | 0 <= r < |bufs| :: |bufs[r]| == count
    ensures |FoldRange(Lift(f), bufs, root, lo, hi)| == count
    ensures FoldRange(Lift(f), bufs, root, lo, hi)[i] == FoldRange(f, Column(bufs, count, i), root, lo, hi)
  {
    if lo + 1 < hi {
      FoldElement(f, bufs, root, lo, hi - 1, count, i);
    }
  }

  // ---------------------------------------------------------------------
  // max and sum on unsigned words.

  const WORD: int := 0x1_0000_0000

  type uint32 = x: int | 0 <= x < 0x1_0000_0000

  function MaxOp(input: uint32, inout: uint32): uint32 { if inout < input then input else inout }

  function SumOp(input: uint32, inout: uint32): uint32 { (inout + input) % WORD }

  // The sum, less 2^32 if it does not fit.
  lemma WrapOnce(a: uint32, b: uint32)
    ensures SumOp(a, b) == if a + b < 0x1_0000_0000 then a + b else a + b - 0x1_0000_0000
  {
  }

  lemma MaxLaws()
    ensures Associative(MaxOp) && Commutative(MaxOp)
  {
    forall a, b, c ensures AssociatesAt(MaxOp, a, b, c) {}
    forall a, b ensures CommutesAt(MaxOp, a, b) {}
  }

  // The larger of its operands.
  lemma MaxIsLargest(input: uint32, inout: uint32)
    ensures input <= MaxOp(input, inout) && inout <= MaxOp(input, inout)
    ensures MaxOp(input, inout) == input || MaxOp(input, inout) == inout
  {
  }

  // A fold of them: no contribution is larger, and one is as large ...
  lemma {:induction false} MaxFold(vals: seq<uint32>, root: nat, hi: nat) returns (at: nat)
    requires root < |vals| && 0 < hi <= |vals|
    ensures at < hi && FoldRange(MaxOp, vals, root, 0, hi) == vals[Up(|vals|, at, root)]
    ensures forall rel: nat | rel < hi :: vals[Up(|vals|, rel, root)] <= vals[Up(|vals|, at, root)]
  {
    at := 0;
    if hi > 1 {
      at := MaxFold(vals, root, hi - 1);
      if vals[Up(|vals|, at, root)] < vals[Up(|vals|, hi - 1, root)] {
        at := hi - 1;
      }
    }
  }

  // ... and the sum of all contributions up to a multiple of 2^32.
  lemma {:induction false} SumFold(vals: seq<uint32>, hi: nat) returns (wraps: nat)
    requires 0 < hi <= |vals|
    ensures var r: uint32 := FoldRange<uint32>(SumOp, vals, 0, 0, hi); r + wraps * 0x1_0000_0000 == Sum(vals[..hi])
  {
    assert Up(|vals|, hi - 1, 0) == hi - 1;
    assert vals[..hi][..hi - 1] == vals[..hi - 1];
    if hi == 1 {
      wraps := 0;
      assert Sum(vals[..0]) == 0;
    } else {
      wraps := SumFold(vals, hi - 1);
      var rest: uint32 := FoldRange<uint32>(SumOp, vals, 0, 0, hi - 1);
      WrapOnce(vals[hi - 1], rest);
      if vals[hi - 1] + rest >= WORD {
        wraps := wraps + 1;
      }
    }
  }

  // Wrap-around addition is still associative and commutative.
  lemma SumLaws()
    ensures Associative(SumOp) && Commutative(SumOp)
  {
    forall a, b, c ensures AssociatesAt(SumOp, a, b, c) {
      WrapOnce(a, b);
      WrapOnce(b, c);
      WrapOnce(SumOp(a, b), c);
      WrapOnce(a, SumOp(b, c));
    }
    forall a, b ensures CommutesAt(SumOp, a, b) {}
  }

  method MaxInto(input: array<uint32>, inout: array<uint32>)
    requires input.Length == inout.Length && input != inout
    modifies inout
    ensures inout[..] == ZipWith(MaxOp, input[..], old(inout[..]))
  {
    for i := 0 to inout.Length
      invariant forall j | 0 <= j < i :: inout[j] == MaxOp(input[j], old(inout[j]))
      invariant forall j | i <= j < inout.Length :: inout[j] == old(inout[j])
    {
      inout[i] := if inout[i] < input[i] then input[i] else inout[i];
    }
  }

  method SumInto(input: array<uint32>, inout: array<uint32>)
    requires input.Length == inout.Length && input != inout
    modifies inout
    ensures inout[..] == ZipWith(SumOp, input[..], old(inout[..]))
  {
    for i := 0 to inout.Length
      invariant forall j | 0 <= j < i :: inout[j] == SumOp(input[j], old(inout[j]))
      invariant forall j | i <= j < inout.Length :: inout[j] == old(inout[j])
    {
      inout[i] := (inout[i] + input[i]) % WORD;
    }
  }

  // ---------------------------------------------------------------------
  // maxloc. Doubles are compared as real numbers, except that NaN is not less than
  // anything and nothing is less than NaN.

  datatype Double = NaN | Number(r: real)

  predicate Less(a: Double, b: Double) { a.Number? && b.Number? && a.r < b.r }

  datatype DoubleInt = DoubleInt(d: Double, i: int)

  function MaxlocOp(input: DoubleInt, inout: DoubleInt): DoubleInt {
    if Less(inout.d, input.d) then input else inout
  }

  method MaxlocInto(input: array<DoubleInt>, inout: array<DoubleInt>)
    requires input.Length == inout.Length && input != inout
    modifies inout
    ensures inout[..] == ZipWith(MaxlocOp, input[..], old(inout[..]))
  {
    for i := 0 to inout.Length
      invariant forall j | 0 <= j < i :: inout[j] == MaxlocOp(input[j], old(inout[j]))
      invariant forall j | i <= j < inout.Length :: inout[j] == old(inout[j])
    {
      if Less(inout[i].d, input[i].d) {
        inout[i] := input[i];
      }
    }
  }

  // A NaN received in between hides a larger value received after it from a smaller one
  // before it. That is the only way in which the result depends on the shape of the tree.
  lemma MaxlocAssociatesIff(a: DoubleInt, b: DoubleInt, c: DoubleInt)
    ensures AssociatesAt(MaxlocOp, a, b, c) <==> !(b.d.NaN? && Less(c.d, a.d))
  {
    if b.d.NaN? {
      assert MaxlocOp(b, c) == c && MaxlocOp(a, b) == b;
    }
  }

  // Without NaN it is associative.
  type Located = p: DoubleInt | p.d.Number? witness DoubleInt(Number(0.0), 0)

  function Maxloc(input: Located, inout: Located): Located { MaxlocOp(input, inout) }

  lemma MaxlocAssociative()
    ensures Associative(Maxloc)
  {
    forall a: Located, b: Located, c: Located ensures AssociatesAt(Maxloc, a, b, c) {
      MaxlocAssociatesIff(a, b, c);
    }
  }

  // The fold picks the contribution of the first rank, in root-relative order, that
  // attains the maximum: nobody has more, and everybody before it has less.
  lemma {:induction false} MaxlocFold(vals: seq<Located>, root: nat, hi: nat) returns (first: nat)
    requires root < |vals| && 0 < hi <= |vals|
    ensures first < hi && FoldRange(Maxloc, vals, root, 0, hi) == vals[Up(|vals|, first, root)]
    ensures forall rel: nat | rel < hi :: vals[Up(|vals|, rel, root)].d.r <= vals[Up(|vals|, first, root)].d.r
    ensures forall rel: nat | rel < first :: vals[Up(|vals|, rel, root)].d.r < vals[Up(|vals|, first, root)].d.r
  {
    first := 0;
    if hi > 1 {
      first := MaxlocFold(vals, root, hi - 1);
      if vals[Up(|vals|, first, root)].d.r < vals[Up(|vals|, hi - 1, root)].d.r {
        first := hi - 1;
      }
    }
  }

  lemma MaxlocElement(bufs: seq<seq<Located>>, count: nat, root: nat, i: nat) returns (first: nat)
    requires root < |bufs| && i < count && forall r | 0 <= r < |bufs| :: |bufs[r]| == count
    ensures var n := |bufs|; var result := FoldRange(Lift(Maxloc), bufs, root, 0, n);
            && first < n && |result| == count && result[i] == bufs[Up(n, first, root)][i]
            && (forall rel: nat | rel < n :: bufs[Up(n, rel, root)][i].d.r <= result[i].d.r)
            && (forall rel: nat | rel < first :: bufs[Up(n, rel, root)][i].d.r < result[i].d.r)
  {
    FoldElement(Maxloc, bufs, root, 0, |bufs|, count, i);
    first := MaxlocFold(Column(bufs, count, i), root, |bufs|);
  }

  // With root 0 and every rank contributing its own number, the index returned is
  // the smallest rank that attains the maximum.
  lemma MaxlocSmallestRank(vals: seq<Located>)
    requires vals != [] && forall r | 0 <= r < |vals| :: vals[r].i == r
    ensures var result := FoldRange(Maxloc, vals, 0, 0, |vals|);
            && 0 <= result.i < |vals| && vals[result.i] == result
            && forall r | 0 <= r < |vals| ::
                 vals[r].d.r <= result.d.r && (vals[r].d == result.d ==> result.i <= r)
  {
    var first := MaxlocFold(vals, 0, |vals|);
    forall r: nat | r < |vals|
      ensures vals[r].d.r <= vals[first].d.r && (vals[r].d == vals[first].d ==> first <= r)
    {
      assert Up(|vals|, r, 0) == r;
    }
  }

  // ---------------------------------------------------------------------
  // The radix hint and the input buffer of a reduce.

  datatype Status = NaSuccess | NaInvalidArg

  // The uint32_t hint is passed to an int32_t parameter.
  function PassedRadix(radix: uint32): (k: int32)
  {
    if radix < 0x8000_0000 then radix as int32 else (radix - WORD) as int32
  }

  // The int32 that is the hint up to a multiple of 2^32.
  lemma PassedRadixWraps(radix: uint32)
    ensures PassedRadix(radix) as int == radix || PassedRadix(radix) as int == radix - 0x1_0000_0000
  {
  }

  class Hints {
    var reduceRadix: uint32

    constructor ()
      ensures reduceRadix == 2
    {
      reduceRadix := 2;
    }

    method SetReduceRadix(radix: uint32) returns (status: Status)
      modifies this
      ensures status == NaInvalidArg <==> radix < 2
      ensures reduceRadix == if radix < 2 then old(reduceRadix) else radix
    {
      if radix < 2 {
        return NaInvalidArg;
      }
      reduceRadix := radix;
      return NaSuccess;
    }
  }

  // A reduce with this hint runs its loop on a positive radix without overflow; a
  // single rank returns before using it.
  ghost predicate RadixUsable(radix: uint32, n: nat, root: nat)
    requires 2 <= radix && root < n
  {
    n == 1 || (PassedRadix(radix) >= 2 && AllFit(RootInts(n, radix, root, 1)))
  }

  // An accepted hint is usable at the root of n ranks exactly when the least power of
  // it that reaches n is at most INT_MAX; in particular it is then below 2^31.
  lemma AcceptedRadixUsable(radix: uint32, n: nat, root: nat)
    requires 2 <= radix && root < n <= 0x4000_0000
    ensures RadixUsable(radix, n, root) <==> Reach(1, radix, n) <= INT_MAX
    ensures 1 < n && radix >= 0x8000_0000 ==> PassedRadix(radix) < 0 && !RadixUsable(radix, n, root)
  {
    if 1 < n {
      NextStrideReached(1, radix, n);
      RootIntsFitIff(n, radix, root);
    }
  }

  datatype SendBuffer<V> = InPlace | Data(value: V)

  // What a rank's receive buffer holds when the level loop starts; None if the
  // code would copy from the MONA_IN_PLACE marker, which is not a buffer.
  function ReduceInput<V>(size: nat, rank: nat, root: nat, count: nat, sendbuf: SendBuffer<V>, recvbuf: V): Option<V> {
    if count == 0 || size == 1 then
      Some(if sendbuf.InPlace? then recvbuf else sendbuf.value)
    else if rank != root || !sendbuf.InPlace? then
      (if sendbuf.InPlace? then None else Some(sendbuf.value))
    else Some(recvbuf)
  }

  // What a rank contributes, by the arguments it passes.
  function Contribution<V>(sendbuf: SendBuffer<V>, recvbuf: V): V {
    if sendbuf.InPlace? then recvbuf else sendbuf.value
  }

  // A rank starts from its contribution exactly if it passes a send buffer, is the root,
  // or has nothing to do.
  lemma ReduceInputIff<V>(size: nat, rank: nat, root: nat, count: nat, sendbuf: SendBuffer<V>, recvbuf: V)
    ensures forall v | sendbuf == Data(v) :: ReduceInput(size, rank, root, count, sendbuf, recvbuf) == Some(v)
    ensures sendbuf == InPlace ==>
              ReduceInput(size, rank, root, count, sendbuf, recvbuf)
              == if rank == root || count == 0 || size == 1 then Some(recvbuf) else None
    ensures ReduceInput(size, rank, root, count, sendbuf, recvbuf) == Some(Contribution(sendbuf, recvbuf))
       <==> !sendbuf.InPlace? || rank == root || count == 0 || size == 1
  {
  }

  ghost predicate StartsRight<V>(root: nat, count: nat, sendbufs: seq<SendBuffer<V>>, recvbufs: seq<V>)
    requires |sendbufs| == |recvbufs|
  {
    forall rank: nat | rank < |sendbufs| ::
      ReduceInput(|sendbufs|, rank, root, count, sendbufs[rank], recvbufs[rank])
      == Some(Contribution(sendbufs[rank], recvbufs[rank]))
  }

  // Whatever the ranks pass, all of them start from their contributions exactly if none
  // but the root passes MONA_IN_PLACE, or there is nothing to do.
  lemma ReduceInputsIff<V>(root: nat, count: nat, sendbufs: seq<SendBuffer<V>>, recvbufs: seq<V>)
    requires root < |sendbufs| == |recvbufs|
    ensures StartsRight(root, count, sendbufs, recvbufs)
       <==> count == 0 || |sendbufs| == 1 || forall r | 0 <= r < |sendbufs| && r != root :: !sendbufs[r].InPlace?
  {
    forall rank: nat | rank < |sendbufs|
      ensures ReduceInput(|sendbufs|, rank, root, count, sendbufs[rank], recvbufs[rank])
              == Some(Contribution(sendbufs[rank], recvbufs[rank]))
         <==> !sendbufs[rank].InPlace? || rank == root || count == 0 || |sendbufs| == 1
    {
      ReduceInputIff(|sendbufs|, rank, root, count, sendbufs[rank], recvbufs[rank]);
    }
  }

  // So an allreduce, which reduces to rank 0, cannot have MONA_IN_PLACE on all ranks
  // unless there is only one.
  lemma AllreduceInPlaceIff<V>(recvbufs: seq<V>, count: nat)
    requires recvbufs != [] && 0 < count
    ensures StartsRight(0, count, seq(|recvbufs|, _ => InPlace), recvbufs) <==> |recvbufs| == 1
  {
    var sendbufs: seq<SendBuffer<V>> := seq(|recvbufs|, _ => InPlace);
    ReduceInputsIff(0, count, sendbufs, recvbufs);
    if |recvbufs| > 1 {
      assert sendbufs[1].InPlace?;
    }
  }
}
