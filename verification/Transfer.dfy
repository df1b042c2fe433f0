// Eager and rendezvous transfer of one high-level message: how the sender chooses
// the path and fills its message, and what the receiver copies out.
module Transfer {
  import opened Basics
  import opened Codec

  const SIZE_T: int := 0x1_0000_0000_0000_0000

  // The header NA writes, the largest message it takes, and the RDMA hint.
  datatype Transport = Transport(header: Bytes, maxSize: nat, threshold: nat)

  // a - b in size_t.
  function SubSize(a: nat, b: nat): nat
    requires a < SIZE_T && b < SIZE_T
  {
    if b <= a then a - b else a - b + SIZE_T
  }

  // mona_usend_nc compares the whole message with the limit ...
  predicate UnexpectedIsSmall(t: Transport, total: nat) {
    |t.header| + 1 + total <= Min(t.maxSize, t.threshold)
  }

  function ExpectedOverhead(t: Transport): nat { |t.header| + 1 + SIZE_BYTES }

  // ... and mona_send_nc compares the data with what is left after the header.
  predicate ExpectedIsSmall(t: Transport, total: nat)
    requires t.maxSize < SIZE_T && ExpectedOverhead(t) < SIZE_T
  {
    total <= Min(SubSize(t.maxSize, ExpectedOverhead(t)), t.threshold)
  }

  function UnexpectedMessage(t: Transport, bufs: seq<Bytes>, handle: Bytes): Bytes {
    var data := Concat(bufs);
    if UnexpectedIsSmall(t, |data|) then UnexpectedSmall(t.header, data)
    else LargeMessage(t.header, handle, |data|, 0)
  }

  function ExpectedMessage(t: Transport, bufs: seq<Bytes>, handle: Bytes): Bytes
    requires t.maxSize < SIZE_T && ExpectedOverhead(t) < SIZE_T
  {
    var data := Concat(bufs);
    if ExpectedIsSmall(t, |data|) then ExpectedSmall(t.header, data)
    else LargeMessage(t.header, handle, |data|, 0)
  }

  // A message on the small path of usend fits the transport's buffer.
  lemma UnexpectedSmallFits(t: Transport, bufs: seq<Bytes>, handle: Bytes)
    requires UnexpectedIsSmall(t, |Concat(bufs)|)
    ensures |UnexpectedMessage(t, bufs, handle)| <= t.maxSize
  {
  }

  // On the expected path this holds for every data exactly when the header itself
  // fits; otherwise the subtraction wraps and even an empty message is too long.
  lemma ExpectedSmallFitsIff(t: Transport)
    requires t.maxSize < SIZE_T && ExpectedOverhead(t) < SIZE_T
    ensures (forall bufs: seq<Bytes>, handle: Bytes ::
               ExpectedIsSmall(t, |Concat(bufs)|) ==> |ExpectedMessage(t, bufs, handle)| <= t.maxSize)
       <==> ExpectedOverhead(t) <= t.maxSize
  {
    if t.maxSize < ExpectedOverhead(t) {
      assert Concat([]) == [];
      assert ExpectedIsSmall(t, |Concat([])|);
      assert |ExpectedMessage(t, [], [])| == ExpectedOverhead(t);
    }
  }

  // The path by the sizes of the buffers: usend sends a small message, one whose type
  // byte is 0, exactly if header, type byte and data together reach neither limit.
  lemma UnexpectedPath(t: Transport, bufs: seq<Bytes>, handle: Bytes)
    ensures var msg, total := UnexpectedMessage(t, bufs, handle), Total(Lengths(bufs));
            && UnexpectedIsSmall(t, |Concat(bufs)|) == UnexpectedIsSmall(t, total)
            && (UnexpectedIsSmall(t, total)
                <==> |t.header| + 1 + total <= t.maxSize && |t.header| + 1 + total <= t.threshold)
            && |t.header| < |msg|
            && msg[|t.header|] == (if |t.header| + 1 + total <= t.maxSize && |t.header| + 1 + total <= t.threshold
                                   then 0 else 1)
  {
    ConcatLength(bufs);
  }

  // send does so exactly if the data is at most the threshold and fits behind the header
  // and the size, except that without room for these the limit is huge.
  lemma ExpectedPath(t: Transport, bufs: seq<Bytes>, handle: Bytes)
    requires t.maxSize < SIZE_T && ExpectedOverhead(t) < SIZE_T
    ensures var msg, total := ExpectedMessage(t, bufs, handle), Total(Lengths(bufs));
            && |t.header| < |msg|
            && msg[|t.header|] == (if total <= t.threshold
                                      && |t.header| + 9 + total
                                         <= if |t.header| + 9 <= t.maxSize then t.maxSize
                                            else t.maxSize + 0x1_0000_0000_0000_0000
                                   then 0 else 1)
  {
    ConcatLength(bufs);
  }

  // ---------------------------------------------------------------------
  // The receiver.

  // Bytes delivered in order over several buffers.
  function Scatter(data: Bytes, olds: seq<Bytes>): (news: seq<Bytes>)
    ensures |news| == |olds|
  {
    if olds == [] then []
    else
      var s := Min(|data|, |olds[0]|);
      [data[..s] + olds[0][s..]] + Scatter(data[s..], olds[1..])
  }

  lemma {:induction false} ConcatFront(x: Bytes, bufs: seq<Bytes>)
    ensures Concat([x] + bufs) == x + Concat(bufs)
  {
    if bufs == [] {
      assert ([x] + bufs)[..0] == [] && [x] + bufs == [x];
    } else {
      var n := |bufs|;
      assert ([x] + bufs)[..n] == [x] + bufs[..n - 1];
      ConcatFront(x, bufs[..n - 1]);
    }
  }

  lemma ConcatCons(bufs: seq<Bytes>)
    requires bufs != []
    ensures Concat(bufs) == bufs[0] + Concat(bufs[1..])
  {
    assert bufs == [bufs[0]] + bufs[1..];
    ConcatFront(bufs[0], bufs[1..]);
  }

  lemma ScatterHead(data: Bytes, olds: seq<Bytes>, s: nat)
    requires olds != [] && s == Min(|data|, |olds[0]|)
    ensures Scatter(data, olds)[0] == data[..s] + olds[0][s..]
    ensures Scatter(data, olds)[1..] == Scatter(data[s..], olds[1..])
  {
  }

  // room with as much of data as fits copied to its start.
  function Overlay(data: Bytes, room: Bytes): (r: Bytes)
    ensures |r| == |room|
  {
    data[..Min(|data|, |room|)] + room[Min(|data|, |room|)..]
  }

  lemma OverlayConcat(data: Bytes, s: nat, x: Bytes, rest: Bytes)
    requires s == Min(|data|, |x|)
    ensures Overlay(data, x + rest) == (data[..s] + x[s..]) + Overlay(data[s..], rest)
  {
    var whole := Overlay(data, x + rest);
    var parts := (data[..s] + x[s..]) + Overlay(data[s..], rest);
    assert |whole| == |parts|;
    forall i | 0 <= i < |whole| ensures whole[i] == parts[i] {
      assert whole[i] == if i < |data| then data[i] else (x + rest)[i];
      assert i >= |x| ==> parts[i] == Overlay(data[s..], rest)[i - |x|];
    }
  }

  // Read one after the other, the buffers hold the data and then what they held.
  lemma {:induction false} ScatterFlattens(data: Bytes, olds: seq<Bytes>)
    ensures Concat(Scatter(data, olds)) == Overlay(data, Concat(olds))
  {
    if olds != [] {
      var s := Min(|data|, |olds[0]|);
      ScatterFlattens(data[s..], olds[1..]);
      ConcatCons(olds);
      ScatterHead(data, olds, s);
      ConcatCons(Scatter(data, olds));
      OverlayConcat(data, s, olds[0], Concat(olds[1..]));
    }
  }

  // The copy loop of the small path: it counts down the remaining size but copies
  // every buffer from the start of the data.
  function CopyLoop(data: Bytes, remaining: nat, olds: seq<Bytes>): (news: seq<Bytes>)
    requires remaining <= |data|
    ensures |news| == |olds|
  {
    if olds == [] then []
    else
      var s := Min(remaining, |olds[0]|);
      [data[..s] + olds[0][s..]] + CopyLoop(data, remaining - s, olds[1..])
  }

  datatype Received = Received(bufs: seq<Bytes>, size: nat)

  // Memory exposed for RDMA, by serialized handle.
  type Memory = map<Bytes, Bytes>

  // The transfer of a large message into buffers with the given room succeeds: its
  // handle can be deserialized and what is pulled, if anything, lies in exposed memory.
  predicate Readable(content: Content, memory: Memory, room: nat) {
    content.Large? ==>
      && content.handle in memory
      && (Min(content.size, room) > 0 ==> content.offset + Min(content.size, room) <= |memory[content.handle]|)
  }

  // otherwise is the size reported for a message of neither kind, which copies nothing.
  function Receive(content: Content, memory: Memory, olds: seq<Bytes>, otherwise: nat): Received
    requires Readable(content, memory, Total(Lengths(olds))) && !content.Truncated?
  {
    var room := Total(Lengths(olds));
    match content
    case Small(data) => Received(CopyLoop(data, |data|, olds), Min(|data|, room))
    case Large(handle, size, offset) =>
      var got := Min(size, room);
      Received(Scatter(Pulled(memory[handle], offset, got), olds), got)
    case Other => Received(olds, otherwise)
  }

  function Pulled(exposed: Bytes, offset: nat, got: nat): Bytes
    requires got > 0 ==> offset + got <= |exposed|
  {
    if got == 0 then [] else exposed[offset..offset + got]
  }

  // Byte by byte, for any offset, any exposed memory and any receive buffers: the bytes
  // from the offset on fill the buffers in order, as far as size and room go, and nothing
  // else changes. It works exactly if the handle is known and those bytes exist.
  lemma LargeBytes(handle: Bytes, size: nat, offset: nat, memory: Memory, olds: seq<Bytes>, otherwise: nat)
    ensures var got := Min(size, Total(Lengths(olds)));
            Readable(Large(handle, size, offset), memory, Total(Lengths(olds)))
            <==> handle in memory && (got == 0 || offset + got <= |memory[handle]|)
    ensures Readable(Large(handle, size, offset), memory, Total(Lengths(olds))) ==>
              var r := Receive(Large(handle, size, offset), memory, olds, otherwise);
              && r.size == (if size < |Concat(olds)| then size else |Concat(olds)|)
              && |Concat(r.bufs)| == |Concat(olds)|
              && (forall i | 0 <= i < r.size ::
                    offset + i < |memory[handle]| && Concat(r.bufs)[i] == memory[handle][offset + i])
              && (forall i | r.size <= i < |Concat(olds)| :: Concat(r.bufs)[i] == Concat(olds)[i])
  {
    ConcatLength(olds);
    if Readable(Large(handle, size, offset), memory, Total(Lengths(olds))) {
      ScatterFlattens(Pulled(memory[handle], offset, Min(size, |Concat(olds)|)), olds);
    }
  }

  // Each receive buffer keeps its length.
  lemma {:induction false} ScatterLengths(data: Bytes, olds: seq<Bytes>, k: nat)
    requires k < |olds|
    ensures |Scatter(data, olds)[k]| == |olds[k]|
  {
    if k > 0 {
      ScatterLengths(data[Min(|data|, |olds[0]|)..], olds[1..], k - 1);
    }
  }

  // A message with another type byte copies nothing, on either path.
  lemma OtherType(header: Bytes, kind: byte, rest: Bytes, memory: Memory, olds: seq<Bytes>, otherwise: nat)
    requires 1 < kind
    ensures var content := ParseUnexpected(|header|, header + [kind] + rest);
            && content == ParseExpected(|header|, header + [kind] + rest) && !content.Truncated?
            && Readable(content, memory, Total(Lengths(olds)))
            && Receive(content, memory, olds, otherwise) == Received(olds, otherwise)
  {
    assert (header + [kind] + rest)[|header|] == kind;
  }

  // So for the messages of usend_mem and send_mem, as the receiver reads them.
  lemma LargeDelivered(header: Bytes, handle: Bytes, size: nat, offset: nat, stale: Bytes, memory: Memory,
                       olds: seq<Bytes>, otherwise: nat, i: nat)
    requires |handle| < Pow256(8) && size < Pow256(8) && offset < Pow256(8)
    requires handle in memory && i < |Concat(olds)|
    requires offset + Min(size, |Concat(olds)|) <= |memory[handle]|
    ensures var msg := LargeMessage(header, handle, size, offset);
            var content := ParseUnexpected(|header|, msg);
            && content == ParseExpected(|header|, msg + stale) && !content.Truncated?
            && Readable(content, memory, Total(Lengths(olds)))
            && var r := Receive(content, memory, olds, otherwise);
               && |r.bufs| == |olds| && (forall k | 0 <= k < |olds| :: |r.bufs[k]| == |olds[k]|)
               && r.size == (if size < |Concat(olds)| then size else |Concat(olds)|)
               && |Concat(r.bufs)| == |Concat(olds)|
               && Concat(r.bufs)[i] == if i < size then memory[handle][offset + i] else Concat(olds)[i]
  {
    UnexpectedRoundTrip(header, [], handle, size, offset);
    ExpectedRoundTrip(header, [], handle, size, offset, stale);
    ConcatLength(olds);
    LargeBytes(handle, size, offset, memory, olds, otherwise);
    var r := Receive(Large(handle, size, offset), memory, olds, otherwise);
    forall k: nat | k < |olds| ensures |r.bufs[k]| == |olds[k]| {
      ScatterLengths(Pulled(memory[handle], offset, r.size), olds, k);
    }
  }

  lemma ReceiveOne(content: Content, memory: Memory, room: Bytes, data: Bytes, otherwise: nat)
    requires content == Small(data)
          || (content.Large? && content.handle in memory && memory[content.handle] == data
              && content.size == |data| && content.offset == 0)
    ensures Readable(content, memory, Total(Lengths([room])))
    ensures var s := Min(|data|, |room|);
            Receive(content, memory, [room], otherwise) == Received([data[..s] + room[s..]], s)
  {
    assert Lengths([room]) == [|room|] && [|room|][..0] == [];
    assert Total([|room|]) == |room|;
    var s := Min(|data|, |room|);
    assert CopyLoop(data, |data|, [room]) == [data[..s] + room[s..]] + [];
    assert [room][1..] == [];
    var got := data[..s];
    assert data[0..0 + s] == got && (s == 0 ==> got == []);
    assert Scatter(got, [room]) == [got[..s] + room[s..]] + Scatter(got[s..], []);
    assert got[..s] == got;
  }

  // For any send buffers, any limits and a receive into one buffer of any size, both
  // paths deliver the first min(total, size) bytes of the concatenation and report
  // that many; the rest of the buffer is untouched.
  lemma UnexpectedTransparent(t: Transport, bufs: seq<Bytes>, handle: Bytes, room: Bytes, otherwise: nat)
    requires |handle| < Pow256(8) && |Concat(bufs)| < Pow256(8)
    ensures var data := Concat(bufs); var s := Min(|data|, |room|); var memory := map[handle := data];
            var content := ParseUnexpected(|t.header|, UnexpectedMessage(t, bufs, handle));
            && !content.Truncated? && Readable(content, memory, Total(Lengths([room])))
            && Receive(content, memory, [room], otherwise) == Received([data[..s] + room[s..]], s)
  {
    var data := Concat(bufs);
    UnexpectedRoundTrip(t.header, data, handle, |data|, 0);
    ReceiveOne(ParseUnexpected(|t.header|, UnexpectedMessage(t, bufs, handle)), map[handle := data], room, data,
               otherwise);
  }

  // The same on the expected path, whatever stale bytes the receive buffer holds.
  lemma ExpectedTransparent(t: Transport, bufs: seq<Bytes>, handle: Bytes, room: Bytes, stale: Bytes, otherwise: nat)
    requires t.maxSize < SIZE_T && ExpectedOverhead(t) < SIZE_T
    requires |handle| < Pow256(8) && |Concat(bufs)| < Pow256(8)
    ensures var data := Concat(bufs); var s := Min(|data|, |room|); var memory := map[handle := data];
            var content := ParseExpected(|t.header|, ExpectedMessage(t, bufs, handle) + stale);
            && !content.Truncated? && Readable(content, memory, Total(Lengths([room])))
            && Receive(content, memory, [room], otherwise) == Received([data[..s] + room[s..]], s)
  {
    var data := Concat(bufs);
    ExpectedRoundTrip(t.header, data, handle, |data|, 0, stale);
    ReceiveOne(ParseExpected(|t.header|, ExpectedMessage(t, bufs, handle) + stale), map[handle := data], room, data,
               otherwise);
  }

  // ---------------------------------------------------------------------
  // Several receive buffers.

  predicate AllEmpty(sizes: seq<nat>) { forall i | 0 <= i < |sizes| :: sizes[i] == 0 }

  // The data fits in the first non-empty buffer, or no later buffer has any room.
  predicate OneBufferSuffices(n: nat, sizes: seq<nat>)
  {
    if sizes == [] then true
    else if sizes[0] == 0 then OneBufferSuffices(n, sizes[1..])
    else n <= sizes[0] || AllEmpty(sizes[1..])
  }

  lemma KeepFirst(data: Bytes, room: Bytes)
    ensures data[0..] == data && data[..0] + room[0..] == room
  {
  }

  lemma LengthsTail(olds: seq<Bytes>)
    requires olds != []
    ensures Lengths(olds)[0] == |olds[0]| && Lengths(olds)[1..] == Lengths(olds[1..])
  {
  }

  lemma {:induction false} NothingCopied(data: Bytes, remaining: nat, olds: seq<Bytes>)
    requires remaining <= |data| && (remaining == 0 || AllEmpty(Lengths(olds)))
    ensures CopyLoop(data, remaining, olds) == olds
  {
    if olds != [] {
      LengthsTail(olds);
      KeepFirst(data, olds[0]);
      NothingCopied(data, remaining, olds[1..]);
      assert olds == [olds[0]] + olds[1..];
    }
  }

  lemma {:induction false} NothingScattered(data: Bytes, olds: seq<Bytes>)
    requires data == [] || AllEmpty(Lengths(olds))
    ensures Scatter(data, olds) == olds
  {
    if olds != [] {
      LengthsTail(olds);
      KeepFirst(data, olds[0]);
      NothingScattered(data, olds[1..]);
      assert Min(|data|, |olds[0]|) == 0;
      assert olds == [olds[0]] + olds[1..];
    }
  }

  lemma {:induction false} CopyLoopCorrectIf(data: Bytes, olds: seq<Bytes>)
    requires OneBufferSuffices(|data|, Lengths(olds))
    ensures CopyLoop(data, |data|, olds) == Scatter(data, olds)
  {
    if olds != [] {
      var s := Min(|data|, |olds[0]|);
      LengthsTail(olds);
      if |olds[0]| == 0 {
        assert data[0..] == data;
        CopyLoopCorrectIf(data, olds[1..]);
      } else {
        NothingCopied(data, |data| - s, olds[1..]);
        NothingScattered(data[s..], olds[1..]);
      }
    }
  }

  lemma EmptyFirst(data: Bytes, remaining: nat, olds: seq<Bytes>)
    requires remaining <= |data| && olds != [] && olds[0] == []
    ensures CopyLoop(data, remaining, olds) == [[]] + CopyLoop(data, remaining, olds[1..])
    ensures Scatter(data, olds) == [[]] + Scatter(data, olds[1..])
    ensures Lengths(olds)[1..] == Lengths(olds[1..])
  {
    assert data[0..] == data && data[..0] + olds[0][0..] == [];
  }

  // 0 1 1 1 ...: data whose first byte differs from all others.
  function Marked(n: nat): (data: Bytes)
    ensures |data| == n
  {
    seq(n, i => if i == 0 then 0 else 1)
  }

  // Among buffers with some room, the two loops differ once the data no longer
  // starts at its first byte.
  lemma {:induction false} LaterBufferDiffers(data: Bytes, s: nat, olds: seq<Bytes>)
    requires 0 < s < |data| && !AllEmpty(Lengths(olds)) && data[0] != data[s]
    ensures CopyLoop(data, |data| - s, olds) != Scatter(data[s..], olds)
  {
    if olds[0] == [] {
      EmptyFirst(data, |data| - s, olds);
      EmptyFirst(data[s..], |data| - s, olds);
      assert Lengths(olds)[0] == 0;
      LaterBufferDiffers(data, s, olds[1..]);
      TailsDiffer([], CopyLoop(data, |data| - s, olds[1..]), Scatter(data[s..], olds[1..]));
    } else {
      assert CopyLoop(data, |data| - s, olds)[0][0] == data[0];
      assert Scatter(data[s..], olds)[0][0] == data[s];
    }
  }

  lemma TailsDiffer(x: Bytes, a: seq<Bytes>, b: seq<Bytes>)
    requires a != b
    ensures [x] + a != [x] + b
  {
    assert ([x] + a)[1..] == a && ([x] + b)[1..] == b;
  }

  lemma {:induction false} CopyLoopWrongUnless(n: nat, olds: seq<Bytes>)
    requires !OneBufferSuffices(n, Lengths(olds))
    ensures CopyLoop(Marked(n), n, olds) != Scatter(Marked(n), olds)
  {
    var data := Marked(n);
    assert Lengths(olds)[1..] == Lengths(olds[1..]);
    if olds[0] == [] {
      EmptyFirst(data, n, olds);
      CopyLoopWrongUnless(n, olds[1..]);
      TailsDiffer([], CopyLoop(data, n, olds[1..]), Scatter(data, olds[1..]));
    } else {
      var s := |olds[0]|;
      LaterBufferDiffers(data, s, olds[1..]);
      TailsDiffer(data[..s] + olds[0][s..], CopyLoop(data, n - s, olds[1..]), Scatter(data[s..], olds[1..]));
    }
  }

  // The small path delivers n bytes correctly into several buffers, for every
  // content, exactly when one buffer suffices for them.
  lemma CopyLoopCorrectIff(n: nat, olds: seq<Bytes>)
    ensures (forall data: Bytes | |data| == n :: CopyLoop(data, n, olds) == Scatter(data, olds))
       <==> OneBufferSuffices(n, Lengths(olds))
  {
    if OneBufferSuffices(n, Lengths(olds)) {
      forall data: Bytes | |data| == n ensures CopyLoop(data, n, olds) == Scatter(data, olds) {
        CopyLoopCorrectIf(data, olds);
      }
    } else {
      CopyLoopWrongUnless(n, olds);
    }
  }

  // ---------------------------------------------------------------------
  // The loops that fill and empty message buffers.

  method Memcpy(buffer: array<byte>, p: nat, data: Bytes) returns (next: nat)
    requires p + |data| <= buffer.Length
    modifies buffer
    ensures next == p + |data|
    ensures buffer[..next] == old(buffer[..p]) + data
    ensures buffer[next..] == old(buffer[next..])
  {
    forall i | 0 <= i < |data| {
      buffer[p + i] := data[i];
    }
    next := p + |data|;
  }

  // Append the send buffers one after the other from p.
  method PackBuffers(buffer: array<byte>, p: nat, bufs: seq<Bytes>) returns (next: nat)
    requires p + |Concat(bufs)| <= buffer.Length
    modifies buffer
    ensures next == p + |Concat(bufs)| && buffer[..next] == old(buffer[..p]) + Concat(bufs)
    ensures buffer[next..] == old(buffer[next..])
  {
    next := p;
    assert bufs[..|bufs|] == bufs;
    for i := 0 to |bufs|
      invariant next == p + |Concat(bufs[..i])| <= buffer.Length
      invariant buffer[..next] == old(buffer[..p]) + Concat(bufs[..i])
      invariant buffer[next..] == old(buffer[next..])
    {
      assert bufs[..i + 1][..i] == bufs[..i];
      ConcatPrefix(bufs, i + 1);
      label before:
      next := Memcpy(buffer, next, bufs[i]);
      assert buffer[next..] == old@before(buffer[next..]);
    }
  }

  lemma {:induction false} ConcatPrefix(bufs: seq<Bytes>, i: nat)
    requires i <= |bufs|
    ensures |Concat(bufs[..i])| <= |Concat(bufs)|
    decreases |bufs| - i
  {
    if i < |bufs| {
      ConcatPrefix(bufs, i + 1);
      assert bufs[..i + 1][..i] == bufs[..i];
    } else {
      assert bufs[..i] == bufs;
    }
  }

  // The message mona_usend_mem (and mona_send_mem) fills in.
  method FillLarge(buffer: array<byte>, header: Bytes, handle: Bytes, size: nat, offset: nat) returns (msgSize: nat)
    requires |header| + 25 + |handle| <= buffer.Length
    modifies buffer
    ensures msgSize <= buffer.Length && buffer[..msgSize] == LargeMessage(header, handle, size, offset)
  {
    var p := Memcpy(buffer, 0, header);
    p := Memcpy(buffer, p, [HL_MSG_LARGE]);
    p := Memcpy(buffer, p, Encode(|handle|, SIZE_BYTES));
    p := Memcpy(buffer, p, Encode(size, SIZE_BYTES));
    p := Memcpy(buffer, p, Encode(offset, SIZE_BYTES));
    msgSize := Memcpy(buffer, p, handle);
    LargeMessageParts(header, Encode(|handle|, SIZE_BYTES), Encode(size, SIZE_BYTES), Encode(offset, SIZE_BYTES),
                      handle);
  }

  lemma LargeMessageParts(header: Bytes, a: Bytes, b: Bytes, c: Bytes, handle: Bytes)
    ensures [] + header + [HL_MSG_LARGE] + a + b + c + handle == header + [HL_MSG_LARGE] + (a + b + c + handle)
  {
  }

  // The message mona_usend_nc sends on either path. If it is a large one, NA must
  // accept messages long enough to hold a serialized handle.
  method BuildUnexpected(t: Transport, buffer: array<byte>, bufs: seq<Bytes>, handle: Bytes) returns (msgSize: nat)
    requires buffer.Length == t.maxSize
    requires UnexpectedIsSmall(t, |Concat(bufs)|) || |t.header| + 25 + |handle| <= t.maxSize
    modifies buffer
    ensures msgSize <= buffer.Length && buffer[..msgSize] == UnexpectedMessage(t, bufs, handle)
    ensures |t.header| < msgSize && |t.header| < buffer.Length
    ensures buffer[|t.header|] ==
              if && |t.header| + 1 + Total(Lengths(bufs)) <= t.maxSize
                 && |t.header| + 1 + Total(Lengths(bufs)) <= t.threshold
              then 0 else 1
  {
    UnexpectedPath(t, bufs, handle);
    var dataSize := 0;
    for i := 0 to |bufs|
      invariant dataSize == |Concat(bufs[..i])|
    {
      assert bufs[..i + 1][..i] == bufs[..i];
      dataSize := dataSize + |bufs[i]|;
    }
    assert bufs[..|bufs|] == bufs;
    if UnexpectedIsSmall(t, dataSize) {
      var p := Memcpy(buffer, 0, t.header);
      p := Memcpy(buffer, p, [HL_MSG_SMALL]);
      msgSize := PackBuffers(buffer, p, bufs);
      assert [] + t.header + [HL_MSG_SMALL] + Concat(bufs) == UnexpectedSmall(t.header, Concat(bufs));
    } else {
      msgSize := FillLarge(buffer, t.header, handle, dataSize, 0);
    }
  }

  function Values(bufs: seq<array<byte>>): (vs: seq<Bytes>)
    reads bufs
    ensures |vs| == |bufs| && forall i | 0 <= i < |bufs| :: vs[i] == bufs[i][..]
  {
    seq(|bufs|, i requires 0 <= i < |bufs| reads bufs => bufs[i][..])
  }

  ghost predicate DistinctArrays(bufs: seq<array<byte>>) {
    forall i, j | 0 <= i < j < |bufs| :: bufs[i] != bufs[j]
  }

  // What is left of the data when the copy loop reaches buffer i.
  ghost function Left(n: nat, olds: seq<Bytes>, i: nat): nat
    requires i <= |olds|
  {
    n - Min(n, Total(Lengths(olds[..i])))
  }

  lemma LeftStep(n: nat, olds: seq<Bytes>, i: nat)
    requires i < |olds|
    ensures Left(n, olds, i + 1) == Left(n, olds, i) - Min(Left(n, olds, i), |olds[i]|)
  {
    assert Lengths(olds[..i + 1])[..i] == Lengths(olds[..i]);
  }

  lemma {:induction false} CopyLoopTail(data: Bytes, olds: seq<Bytes>, i: nat)
    requires i <= |olds|
    ensures CopyLoop(data, |data|, olds)[i..] == CopyLoop(data, Left(|data|, olds, i), olds[i..])
  {
    if i == 0 {
      assert olds[0..] == olds && Lengths(olds[..0]) == [];
    } else {
      CopyLoopTail(data, olds, i - 1);
      LeftStep(|data|, olds, i - 1);
      var tail := olds[i - 1..];
      assert tail[1..] == olds[i..];
      assert CopyLoop(data, |data|, olds)[i..] == CopyLoop(data, |data|, olds)[i - 1..][1..];
    }
  }

  lemma CopyLoopAt(data: Bytes, olds: seq<Bytes>, i: nat)
    requires i < |olds|
    ensures var s := Min(Left(|data|, olds, i), |olds[i]|);
            CopyLoop(data, |data|, olds)[i] == data[..s] + olds[i][s..]
  {
    CopyLoopTail(data, olds, i);
    assert CopyLoop(data, |data|, olds)[i] == CopyLoop(data, |data|, olds)[i..][0];
  }

  method CopyPrefix(buffer: array<byte>, data: Bytes)
    requires |data| <= buffer.Length
    modifies buffer
    ensures buffer[..] == data + old(buffer[..])[|data|..]
  {
    var p := Memcpy(buffer, 0, data);
    assert buffer[..] == buffer[..p] + buffer[p..];
  }

  // One turn of the copy loop.
  lemma CopyLoopTurn(data: Bytes, olds: seq<Bytes>, news: seq<Bytes>, i: nat, remaining: nat, s: nat)
    requires i < |olds| && news == CopyLoop(data, |data|, olds)
    requires remaining == Left(|data|, olds, i) && s == Min(remaining, |olds[i]|)
    ensures s <= remaining <= |data| && news[i] == data[..s] + olds[i][s..] && |data[..s]| == s <= |olds[i]|
    ensures remaining - s == Left(|data|, olds, i + 1)
  {
    CopyLoopAt(data, olds, i);
    LeftStep(|data|, olds, i);
  }

  lemma CopyLoopEnd(data: Bytes, olds: seq<Bytes>, news: seq<Bytes>, i: nat, remaining: nat)
    requires i <= |olds| && news == CopyLoop(data, |data|, olds)
    requires remaining == Left(|data|, olds, i) && (i == |olds| || remaining == 0)
    ensures forall j | i <= j < |olds| :: news[j] == olds[j]
    ensures |data| - remaining == Min(|data|, Total(Lengths(olds)))
  {
    assert olds[..|olds|] == olds;
    if remaining == 0 {
      NothingLeft(data, olds, i);
    }
  }

  // The copy loop of mona_urecv_nc and mona_recv_nc on arrays.
  method CopyOut(data: Bytes, bufs: seq<array<byte>>) returns (copied: nat)
    requires DistinctArrays(bufs)
    modifies set b | b in bufs
    ensures Values(bufs) == CopyLoop(data, |data|, old(Values(bufs)))
    ensures copied == Min(|data|, Total(Lengths(old(Values(bufs)))))
  {
    ghost var olds := Values(bufs);
    ghost var news := CopyLoop(data, |data|, olds);
    var remaining, i := |data|, 0;
    copied := 0;
    while i < |bufs| && remaining != 0
      invariant 0 <= i <= |bufs| && copied == |data| - remaining
      invariant remaining == Left(|data|, olds, i)
      invariant forall j | 0 <= j < i :: bufs[j][..] == news[j]
      invariant forall j | i <= j < |bufs| :: bufs[j][..] == olds[j]
    {
      var s := Min(remaining, bufs[i].Length);
      CopyLoopTurn(data, olds, news, i, remaining, s);
      CopyPrefix(bufs[i], data[..s]);
      remaining, copied, i := remaining - s, copied + s, i + 1;
    }
    CopyLoopEnd(data, olds, news, i, remaining);
    assert Values(bufs) == news;
  }

  // Once nothing is left the remaining buffers keep what they hold.
  lemma {:induction false} NothingLeft(data: Bytes, olds: seq<Bytes>, i: nat)
    requires i <= |olds| && Left(|data|, olds, i) == 0
    ensures Left(|data|, olds, |olds|) == 0
    ensures forall j | i <= j < |olds| :: CopyLoop(data, |data|, olds)[j] == olds[j]
    decreases |olds| - i
  {
    if i < |olds| {
      CopyLoopAt(data, olds, i);
      LeftStep(|data|, olds, i);
      NothingLeft(data, olds, i + 1);
    }
  }

  // ---------------------------------------------------------------------
  // The receiving end of a message, on arrays.

  lemma SliceOfSlice(data: Bytes, at: nat, s: nat)
    requires at + s <= |data|
    ensures data[at..][..s] == data[at..at + s] && data[at..][s..] == data[at + s..]
  {
  }

  lemma {:induction false} ScatterTail(data: Bytes, olds: seq<Bytes>, i: nat)
    requires i <= |olds|
    ensures Scatter(data, olds)[i..] == Scatter(data[|data| - Left(|data|, olds, i)..], olds[i..])
  {
    if i == 0 {
      assert olds[0..] == olds && Lengths(olds[..0]) == [] && data[0..] == data;
    } else {
      var at := |data| - Left(|data|, olds, i - 1);
      var s := Min(|data| - at, |olds[i - 1]|);
      ScatterTail(data, olds, i - 1);
      LeftStep(|data|, olds, i - 1);
      SliceOfSlice(data, at, s);
      ScatterHead(data[at..], olds[i - 1..], s);
      assert olds[i - 1..][1..] == olds[i..];
      assert Scatter(data, olds)[i..] == Scatter(data, olds)[i - 1..][1..];
    }
  }

  lemma ScatterAt(data: Bytes, olds: seq<Bytes>, news: seq<Bytes>, i: nat, at: nat, s: nat)
    requires i < |olds| && news == Scatter(data, olds)
    requires at == |data| - Left(|data|, olds, i) && s == Min(|data| - at, |olds[i]|)
    ensures news[i] == data[at..at + s] + olds[i][s..]
    ensures at + s == |data| - Left(|data|, olds, i + 1)
  {
    ScatterTail(data, olds, i);
    LeftStep(|data|, olds, i);
    SliceOfSlice(data, at, s);
    HeadOfTail(news, data[at..], olds[i..], i, s);
  }

  lemma HeadOfTail(news: seq<Bytes>, rest: Bytes, rooms: seq<Bytes>, i: nat, s: nat)
    requires i < |news| && rooms != [] && news[i..] == Scatter(rest, rooms) && s == Min(|rest|, |rooms[0]|)
    ensures news[i] == rest[..s] + rooms[0][s..]
  {
    ScatterHead(rest, rooms, s);
    assert news[i] == news[i..][0];
  }

  // The transport's RDMA get into the segments of the receiver.
  method Get(data: Bytes, bufs: seq<array<byte>>)
    requires DistinctArrays(bufs)
    modifies set b | b in bufs
    ensures Values(bufs) == Scatter(data, old(Values(bufs)))
  {
    ghost var olds := Values(bufs);
    ghost var news := Scatter(data, olds);
    var at := 0;
    for i := 0 to |bufs|
      invariant at == |data| - Left(|data|, olds, i)
      invariant forall j | 0 <= j < i :: bufs[j][..] == news[j]
      invariant forall j | i <= j < |bufs| :: bufs[j][..] == olds[j]
    {
      var s := Min(|data| - at, bufs[i].Length);
      ScatterAt(data, olds, news, i, at, s);
      CopyPrefix(bufs[i], data[at..at + s]);
      at := at + s;
    }
    assert Values(bufs) == news;
  }

  method MaxDataSize(bufs: seq<array<byte>>) returns (size: nat)
    ensures size == Total(Lengths(Values(bufs)))
  {
    size := 0;
    ghost var sizes := Lengths(Values(bufs));
    for i := 0 to |bufs|
      invariant size == Total(sizes[..i])
    {
      assert sizes[..i + 1][..i] == sizes[..i];
      size := size + bufs[i].Length;
    }
    assert sizes[..|bufs|] == sizes;
  }

  lemma LargeFields(buffer: Bytes, start: nat, content: Content)
    requires start <= |buffer| && content == ParseLarge(buffer[start..]) && content.Large?
    ensures start + 24 <= |buffer| && content.size == Decode(buffer[start + 8..start + 16])
    ensures content.offset == Decode(buffer[start + 16..start + 24])
    ensures var handleSize := Decode(buffer[start..start + 8]);
            && start + 24 + handleSize <= |buffer|
            && content.handle == buffer[start + 24..start + 24 + handleSize]
  {
    var body := buffer[start..];
    assert body[..8] == buffer[start..start + 8] && body[8..16] == buffer[start + 8..start + 16];
    assert body[16..24] == buffer[start + 16..start + 24];
    var handleSize := Decode(body[..8]);
    assert body[24..24 + handleSize] == buffer[start + 24..start + 24 + handleSize];
  }

  // Read the three sizes and the handle, advancing p.
  method ReadLarge(buffer: Bytes, start: nat, ghost content: Content) returns (handle: Bytes, size: nat, offset: nat)
    requires start <= |buffer| && content == ParseLarge(buffer[start..]) && content.Large?
    ensures content == Large(handle, size, offset)
  {
    LargeFields(buffer, start, content);
    var p := start;
    var handleSize := Decode(buffer[p..p + SIZE_BYTES]);
    p := p + SIZE_BYTES;
    size := Decode(buffer[p..p + SIZE_BYTES]);
    p := p + SIZE_BYTES;
    offset := Decode(buffer[p..p + SIZE_BYTES]);
    p := p + SIZE_BYTES;
    handle := buffer[p..p + handleSize];
  }

  // Pull as much of the exposed data as there is room for; ok unless NA reports an error.
  method ReceiveLarge(buffer: Bytes, start: nat, memory: Memory, bufs: seq<array<byte>>, ghost content: Content,
                      ghost otherwise: nat)
    returns (ok: bool, size: nat)
    requires start <= |buffer| && DistinctArrays(bufs)
    requires content == ParseLarge(buffer[start..]) && content.Large?
    modifies set b | b in bufs
    ensures ok <==> Readable(content, memory, Total(Lengths(old(Values(bufs)))))
    ensures ok ==> Received(Values(bufs), size) == Receive(content, memory, old(Values(bufs)), otherwise)
  {
    ghost var olds := Values(bufs);
    var room := MaxDataSize(bufs);
    var handle, dataSize, offset := ReadLarge(buffer, start, content);
    size := Min(dataSize, room);
    ok := handle in memory && (size == 0 || offset + size <= |memory[handle]|);
    if ok {
      var data := Pulled(memory[handle], offset, size);
      assert Receive(content, memory, olds, otherwise) == Received(Scatter(data, olds), size);
      Get(data, bufs);
    }
  }

  // What mona_urecv_nc does with a matching message of recvSize bytes: one of neither
  // kind copies nothing and reports the size of the whole message.
  method ReceiveUnexpected(headerSize: nat, buffer: Bytes, memory: Memory, bufs: seq<array<byte>>)
    returns (ok: bool, size: nat)
    requires DistinctArrays(bufs) && !ParseUnexpected(headerSize, buffer).Truncated?
    modifies set b | b in bufs
    ensures ok <==> Readable(ParseUnexpected(headerSize, buffer), memory, Total(Lengths(old(Values(bufs)))))
    ensures ok ==>
              Received(Values(bufs), size)
              == Receive(ParseUnexpected(headerSize, buffer), memory, old(Values(bufs)), |buffer|)
  {
    var p := headerSize;
    ok, size := true, |buffer|;
    if buffer[p] == HL_MSG_SMALL {
      p := p + 1;
      size := CopyOut(buffer[p..], bufs);
    } else if buffer[p] == HL_MSG_LARGE {
      p := p + 1;
      ok, size := ReceiveLarge(buffer, p, memory, bufs, ParseUnexpected(headerSize, buffer), |buffer|);
    }
  }

  // Read the data size and the data of a small expected message.
  method ReadSmall(headerSize: nat, buffer: Bytes) returns (data: Bytes)
    requires ParseExpected(headerSize, buffer).Small?
    ensures ParseExpected(headerSize, buffer) == Small(data)
  {
    var p := headerSize + 1;
    ghost var body := buffer[p..];
    var size := Decode(buffer[p..p + SIZE_BYTES]);
    p := p + SIZE_BYTES;
    assert body[..8] == buffer[headerSize + 1..p] && body[8..8 + size] == buffer[p..p + size];
    data := buffer[p..p + size];
  }

  // What mona_recv_nc does with a full receive buffer: for a message of neither kind
  // it leaves the caller's *actual_size alone.
  method ReceiveExpected(headerSize: nat, buffer: Bytes, memory: Memory, bufs: seq<array<byte>>, actualSize: nat)
    returns (ok: bool, size: nat)
    requires DistinctArrays(bufs) && !ParseExpected(headerSize, buffer).Truncated?
    modifies set b | b in bufs
    ensures ok <==> Readable(ParseExpected(headerSize, buffer), memory, Total(Lengths(old(Values(bufs)))))
    ensures ok ==>
              Received(Values(bufs), size)
              == Receive(ParseExpected(headerSize, buffer), memory, old(Values(bufs)), actualSize)
  {
    var p := headerSize;
    ok, size := true, actualSize;
    if buffer[p] == HL_MSG_SMALL {
      var data := ReadSmall(headerSize, buffer);
      size := CopyOut(data, bufs);
    } else if buffer[p] == HL_MSG_LARGE {
      p := p + 1;
      ok, size := ReceiveLarge(buffer, p, memory, bufs, ParseExpected(headerSize, buffer), actualSize);
    }
  }

  // The message mona_send_nc sends on either path: a small one if the header itself
  // fits, a large one if a serialized handle does.
  method BuildExpected(t: Transport, buffer: array<byte>, bufs: seq<Bytes>, handle: Bytes) returns (msgSize: nat)
    requires buffer.Length == t.maxSize < SIZE_T && ExpectedOverhead(t) < SIZE_T
    requires if ExpectedIsSmall(t, |Concat(bufs)|) then ExpectedOverhead(t) <= t.maxSize
             else |t.header| + 25 + |handle| <= t.maxSize
    modifies buffer
    ensures msgSize <= buffer.Length && buffer[..msgSize] == ExpectedMessage(t, bufs, handle)
  {
    var dataSize := 0;
    for i := 0 to |bufs|
      invariant dataSize == |Concat(bufs[..i])|
    {
      assert bufs[..i + 1][..i] == bufs[..i];
      dataSize := dataSize + |bufs[i]|;
    }
    assert bufs[..|bufs|] == bufs;
    if ExpectedIsSmall(t, dataSize) {
      var p := Memcpy(buffer, 0, t.header);
      p := Memcpy(buffer, p, [HL_MSG_SMALL]);
      p := Memcpy(buffer, p, Encode(dataSize, SIZE_BYTES));
      msgSize := PackBuffers(buffer, p, bufs);
      assert [] + t.header + [HL_MSG_SMALL] + Encode(dataSize, SIZE_BYTES) + Concat(bufs)
          == ExpectedSmall(t.header, Concat(bufs));
    } else {
      msgSize := FillLarge(buffer, t.header, handle, dataSize, 0);
    }
  }
}
