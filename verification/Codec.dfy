// The bytes of high-level messages: an opaque transport header, a type byte, and
// either the data itself or a serialized memory handle with sizes.
module Codec {
  import opened Basics

  type Bytes = seq<byte>

  // A size_t in memory: 8 bytes, least significant first.
  const SIZE_BYTES: nat := 8

  function Pow256(k: nat): (p: nat)
    ensures p > 0
  {
    if k == 0 then 1 else 256 * Pow256(k - 1)
  }

  function Encode(x: nat, k: nat): (bs: Bytes)
    ensures |bs| == k
  {
    if k == 0 then [] else [x % 256] + Encode(x / 256, k - 1)
  }

  function Decode(bs: Bytes): nat {
    if bs == [] then 0 else bs[0] + 256 * Decode(bs[1..])
  }

  lemma {:induction false} DecodeEncode(x: nat, k: nat)
    requires x < Pow256(k)
    ensures Decode(Encode(x, k)) == x
  {
    if k > 0 {
      DecodeEncode(x / 256, k - 1);
      assert Encode(x, k)[1..] == Encode(x / 256, k - 1);
    }
  }

  function Concat(bufs: seq<Bytes>): Bytes {
    if bufs == [] then [] else Concat(bufs[..|bufs| - 1]) + bufs[|bufs| - 1]
  }

  function Total(sizes: seq<nat>): nat {
    if sizes == [] then 0 else Total(sizes[..|sizes| - 1]) + sizes[|sizes| - 1]
  }

  function Lengths(bufs: seq<Bytes>): (sizes: seq<nat>)
    ensures |sizes| == |bufs|
  {
    seq(|bufs|, i requires 0 <= i < |bufs| => |bufs[i]|)
  }

  lemma {:induction false} ConcatLength(bufs: seq<Bytes>)
    ensures |Concat(bufs)| == Total(Lengths(bufs))
  {
    if bufs != [] {
      ConcatLength(bufs[..|bufs| - 1]);
      assert Lengths(bufs)[..|bufs| - 1] == Lengths(bufs[..|bufs| - 1]);
    }
  }

  // ---------------------------------------------------------------------
  // Messages.

  const HL_MSG_SMALL: byte := 0
  const HL_MSG_LARGE: byte := 1

  // A large message names exposed memory: serialized handle, data size, offset. Other
  // has a type byte that is neither, and Truncated ends before what its fields announce.
  datatype Content =
    | Small(data: Bytes) | Large(handle: Bytes, size: nat, offset: nat) | Other | Truncated

  function LargeBody(handle: Bytes, size: nat, offset: nat): Bytes {
    Encode(|handle|, SIZE_BYTES) + Encode(size, SIZE_BYTES) + Encode(offset, SIZE_BYTES) + handle
  }

  function ParseLarge(body: Bytes): Content {
    if |body| < 24 then Truncated
    else
      var handleSize := Decode(body[..8]);
      if |body| < 24 + handleSize then Truncated
      else Large(body[24..24 + handleSize], Decode(body[8..16]), Decode(body[16..24]))
  }

  lemma ParseLargeBody(handle: Bytes, size: nat, offset: nat)
    requires |handle| < Pow256(8) && size < Pow256(8) && offset < Pow256(8)
    ensures ParseLarge(LargeBody(handle, size, offset)) == Large(handle, size, offset)
  {
    var body := LargeBody(handle, size, offset);
    var a, b, c := Encode(|handle|, 8), Encode(size, 8), Encode(offset, 8);
    DecodeEncode(|handle|, 8);
    DecodeEncode(size, 8);
    DecodeEncode(offset, 8);
    assert body == a + b + c + handle;
    assert body[..8] == a && body[8..16] == b && body[16..24] == c;
    assert body[24..24 + |handle|] == handle;
  }

  // Unexpected messages carry their size in the transport; the data is all that
  // follows the type byte.
  function UnexpectedSmall(header: Bytes, data: Bytes): Bytes { header + [HL_MSG_SMALL] + data }

  // Both kinds of large message have the same layout.
  function LargeMessage(header: Bytes, handle: Bytes, size: nat, offset: nat): Bytes {
    header + [HL_MSG_LARGE] + LargeBody(handle, size, offset)
  }

  function ParseUnexpected(headerSize: nat, msg: Bytes): Content {
    if |msg| <= headerSize then Truncated
    else if msg[headerSize] == HL_MSG_SMALL then Small(msg[headerSize + 1..])
    else if msg[headerSize] == HL_MSG_LARGE then ParseLarge(msg[headerSize + 1..])
    else Other
  }

  // Expected messages do not learn how much arrived, so small ones say it: the
  // receive buffer is always maxSize long and may hold stale bytes after the data.
  function ExpectedSmall(header: Bytes, data: Bytes): Bytes {
    header + [HL_MSG_SMALL] + Encode(|data|, SIZE_BYTES) + data
  }

  function ParseExpected(headerSize: nat, buffer: Bytes): Content {
    if |buffer| <= headerSize then Truncated
    else
      var body := buffer[headerSize + 1..];
      if buffer[headerSize] == HL_MSG_SMALL then
        if |body| < 8 then Truncated
        else
          var size := Decode(body[..8]);
          if |body| < 8 + size then Truncated else Small(body[8..8 + size])
      else if buffer[headerSize] == HL_MSG_LARGE then ParseLarge(body)
      else Other
  }

  // ---------------------------------------------------------------------
  // Where the fields are.

  lemma DivideTwice(x: nat, p: nat)
    requires 0 < p
    ensures (x / 256) / p == x / (256 * p)
  {
    var q, t := (x / 256) / p, (x / 256) % p;
    assert x == (q * p + t) * 256 + x % 256 == q * (256 * p) + (256 * t + x % 256);
    DivModUnique(x, 256 * p, q, 256 * t + x % 256);
  }

  // A size_t is written least significant byte first.
  lemma {:induction false} EncodedByte(x: nat, k: nat, i: nat)
    requires i < k
    ensures Encode(x, k)[i] == (x / Pow256(i)) % 256
  {
    if i > 0 {
      EncodedByte(x / 256, k - 1, i - 1);
      DivideTwice(x, Pow256(i - 1));
    }
  }

  // A large message: the transport's header, the byte 1, the sizes of the handle and of
  // the data and the offset with 8 bytes each, and the handle.
  lemma LargeLayout(header: Bytes, handle: Bytes, size: nat, offset: nat, k: nat)
    requires k < 8
    ensures var msg, h := LargeMessage(header, handle, size, offset), |header|;
            && |msg| == h + 25 + |handle| && msg[..h] == header && msg[h] == 1 && msg[h + 25..] == handle
            && msg[h + 1 + k] == (|handle| / Pow256(k)) % 256
            && msg[h + 9 + k] == (size / Pow256(k)) % 256
            && msg[h + 17 + k] == (offset / Pow256(k)) % 256
  {
    EncodedByte(|handle|, 8, k);
    EncodedByte(size, 8, k);
    EncodedByte(offset, 8, k);
    FieldsAt(header, Encode(|handle|, 8), Encode(size, 8), Encode(offset, 8), handle, k);
  }

  lemma FieldsAt(header: Bytes, a: Bytes, b: Bytes, c: Bytes, handle: Bytes, k: nat)
    requires |a| == |b| == |c| == 8 && k < 8
    ensures var msg, h := header + [1] + (a + b + c + handle), |header|;
            && |msg| == h + 25 + |handle| && msg[..h] == header && msg[h] == 1 && msg[h + 25..] == handle
            && msg[h + 1 + k] == a[k] && msg[h + 9 + k] == b[k] && msg[h + 17 + k] == c[k]
  {
  }

  // Small messages: the header, the byte 0, on the expected path the size of the data
  // with 8 bytes, and the data.
  lemma SmallLayout(header: Bytes, data: Bytes, k: nat)
    requires k < 8
    ensures UnexpectedSmall(header, data) == header + [0] + data
    ensures var msg, h := ExpectedSmall(header, data), |header|;
            && |msg| == h + 9 + |data| && msg[..h] == header && msg[h] == 0 && msg[h + 9..] == data
            && msg[h + 1 + k] == (|data| / Pow256(k)) % 256
  {
    EncodedByte(|data|, 8, k);
  }

  // ---------------------------------------------------------------------
  // Reading back.

  lemma UnexpectedRoundTrip(header: Bytes, data: Bytes, handle: Bytes, size: nat, offset: nat)
    requires |handle| < Pow256(8) && size < Pow256(8) && offset < Pow256(8)
    ensures ParseUnexpected(|header|, UnexpectedSmall(header, data)) == Small(data)
    ensures ParseUnexpected(|header|, LargeMessage(header, handle, size, offset)) == Large(handle, size, offset)
  {
    ParseLargeBody(handle, size, offset);
    var small, large := UnexpectedSmall(header, data), LargeMessage(header, handle, size, offset);
    assert small[|header| + 1..] == data;
    assert large[|header| + 1..] == LargeBody(handle, size, offset);
  }

  lemma ParseLargeStale(body: Bytes, stale: Bytes)
    requires ParseLarge(body).Large?
    ensures ParseLarge(body + stale) == ParseLarge(body)
  {
    var handleSize := Decode(body[..8]);
    assert (body + stale)[..8] == body[..8] && (body + stale)[8..16] == body[8..16];
    assert (body + stale)[16..24] == body[16..24];
    assert (body + stale)[24..24 + handleSize] == body[24..24 + handleSize];
  }

  // Whatever an earlier message left in the receive buffer after this one.
  lemma ExpectedRoundTrip(header: Bytes, data: Bytes, handle: Bytes, size: nat, offset: nat, stale: Bytes)
    requires |data| < Pow256(8) && |handle| < Pow256(8) && size < Pow256(8) && offset < Pow256(8)
    ensures ParseExpected(|header|, ExpectedSmall(header, data) + stale) == Small(data)
    ensures ParseExpected(|header|, LargeMessage(header, handle, size, offset) + stale) == Large(handle, size, offset)
  {
    ParseLargeBody(handle, size, offset);
    ParseLargeStale(LargeBody(handle, size, offset), stale);
    DecodeEncode(|data|, 8);
    var small, large := ExpectedSmall(header, data) + stale, LargeMessage(header, handle, size, offset) + stale;
    var body := small[|header| + 1..];
    assert body == Encode(|data|, 8) + data + stale;
    assert body[..8] == Encode(|data|, 8) && body[8..8 + |data|] == data;
    assert large[|header| + 1..] == LargeBody(handle, size, offset) + stale;
  }
}
