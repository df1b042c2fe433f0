// The specification of the unexpected-message engine: a mailbox is the sequence
// of arrived messages; a receive takes the earliest one that matches.
module Mailbox {
  import opened Codec

  datatype Envelope = Envelope(src: nat, tag: nat, bytes: Bytes)

  // MONA_ANY_ADDR is the null address and MONA_ANY_TAG the largest 32-bit tag.
  const ANY_ADDR: nat := 0
  const ANY_TAG: nat := 0xFFFF_FFFF

  predicate Matches(src: nat, tag: nat, e: Envelope) {
    (tag == ANY_TAG || e.tag == tag) && (src == ANY_ADDR || src == e.src)
  }

  // The index of the earliest matching message from i on, or the length if there is none.
  function FirstFrom(src: nat, tag: nat, box: seq<Envelope>, i: nat): (r: nat)
    requires i <= |box|
    ensures i <= r <= |box|
    ensures r < |box| ==> Matches(src, tag, box[r])
    ensures forall j | i <= j < r :: !Matches(src, tag, box[j])
    decreases |box| - i
  {
    if i == |box| || Matches(src, tag, box[i]) then i else FirstFrom(src, tag, box, i + 1)
  }

  function FirstMatch(src: nat, tag: nat, box: seq<Envelope>): (i: nat)
    ensures i <= |box|
    ensures i < |box| ==> Matches(src, tag, box[i])
    ensures forall j | 0 <= j < i :: !Matches(src, tag, box[j])
  {
    FirstFrom(src, tag, box, 0)
  }

  lemma FirstMatchUnique(src: nat, tag: nat, box: seq<Envelope>, i: nat)
    requires i <= |box| && (i < |box| ==> Matches(src, tag, box[i]))
    requires forall j | 0 <= j < i :: !Matches(src, tag, box[j])
    ensures FirstMatch(src, tag, box) == i
  {
  }

  // What that means for the fields of the messages: the tag and source asked for, unless
  // any will do, and none before it has both.
  lemma FirstMatchFields(src: nat, tag: nat, box: seq<Envelope>)
    ensures var i := FirstMatch(src, tag, box);
            && (i < |box| ==> (tag != 0xFFFF_FFFF ==> box[i].tag == tag) && (src != 0 ==> box[i].src == src))
            && (forall m | m in box[..i] :: (tag != 0xFFFF_FFFF && m.tag != tag) || (src != 0 && m.src != src))
            && (src == 0 && tag == 0xFFFF_FFFF ==> i == 0)
    ensures FirstMatch(src, tag, box) == |box| <==>
              forall m | m in box :: (tag != 0xFFFF_FFFF && m.tag != tag) || (src != 0 && m.src != src)
  {
    var i := FirstMatch(src, tag, box);
    if i < |box| {
      assert box[i] in box;
    } else {
      assert box[..i] == box;
    }
  }

  function Without(box: seq<Envelope>, i: nat): seq<Envelope>
    requires i < |box|
  {
    box[..i] + box[i + 1..]
  }

  lemma FirstMatchConcat(src: nat, tag: nat, a: seq<Envelope>, b: seq<Envelope>)
    ensures FirstMatch(src, tag, a + b)
         == if FirstMatch(src, tag, a) < |a| then FirstMatch(src, tag, a) else |a| + FirstMatch(src, tag, b)
    ensures FirstMatch(src, tag, a) < |a| ==>
              Without(a + b, FirstMatch(src, tag, a)) == Without(a, FirstMatch(src, tag, a)) + b
  {
    var i := FirstMatch(src, tag, a);
    if i < |a| {
      FirstMatchUnique(src, tag, a + b, i);
    } else {
      var j := FirstMatch(src, tag, b);
      forall x | 0 <= x < |a| + j ensures !Matches(src, tag, (a + b)[x]) {
        assert (a + b)[x] == if x < |a| then a[x] else b[x - |a|];
      }
      FirstMatchUnique(src, tag, a + b, |a| + j);
    }
  }

  // ---------------------------------------------------------------------
  // Non-overtaking, for a caller that receives one message at a time.

  function Selected(src: nat, tag: nat, box: seq<Envelope>): seq<Envelope> {
    if box == [] then []
    else (if Matches(src, tag, box[0]) then [box[0]] else []) + Selected(src, tag, box[1..])
  }

  function Others(src: nat, tag: nat, box: seq<Envelope>): seq<Envelope> {
    if box == [] then []
    else (if Matches(src, tag, box[0]) then [] else [box[0]]) + Others(src, tag, box[1..])
  }

  // What k receives with the same filter return and leave behind.
  function ReceiveMany(src: nat, tag: nat, box: seq<Envelope>, k: nat): (seq<Envelope>, seq<Envelope>) {
    var i := FirstMatch(src, tag, box);
    if k == 0 || i == |box| then ([], box)
    else
      var (got, left) := ReceiveMany(src, tag, Without(box, i), k - 1);
      ([box[i]] + got, left)
  }

  predicate NoneMatch(src: nat, tag: nat, box: seq<Envelope>) {
    forall e | e in box :: !Matches(src, tag, e)
  }

  lemma {:induction false} NoneSelected(src: nat, tag: nat, box: seq<Envelope>)
    requires NoneMatch(src, tag, box)
    ensures Selected(src, tag, box) == [] && Others(src, tag, box) == box
  {
    if box != [] {
      NoneSelected(src, tag, box[1..]);
      assert box == [box[0]] + box[1..];
    }
  }

  lemma Split(src: nat, tag: nat, x: Envelope, rest: seq<Envelope>, box: seq<Envelope>)
    requires box == [x] + rest
    ensures Matches(src, tag, x) ==>
              && Selected(src, tag, box) == [x] + Selected(src, tag, rest)
              && Others(src, tag, box) == Others(src, tag, rest)
    ensures !Matches(src, tag, x) ==>
              && Selected(src, tag, box) == Selected(src, tag, rest)
              && Others(src, tag, box) == [x] + Others(src, tag, rest)
  {
    assert box[0] == x && box[1..] == rest;
  }

  lemma {:induction false} TakeFirst(src: nat, tag: nat, before: seq<Envelope>, x: Envelope, after: seq<Envelope>)
    requires NoneMatch(src, tag, before) && Matches(src, tag, x)
    ensures Selected(src, tag, before + [x] + after) == [x] + Selected(src, tag, before + after)
    ensures Others(src, tag, before + [x] + after) == Others(src, tag, before + after)
    decreases |before|
  {
    if before == [] {
      assert [] + [x] + after == [x] + after && [] + after == after;
      Split(src, tag, x, after, [x] + after);
    } else {
      var y, less := before[0], before[1..];
      assert before == [y] + less;
      TakeFirst(src, tag, less, x, after);
      assert before + [x] + after == [y] + (less + [x] + after) && before + after == [y] + (less + after);
      Split(src, tag, y, less + [x] + after, before + [x] + after);
      Split(src, tag, y, less + after, before + after);
    }
  }

  lemma TakeMatch(src: nat, tag: nat, box: seq<Envelope>, i: nat)
    requires i == FirstMatch(src, tag, box) < |box|
    ensures Selected(src, tag, box) == [box[i]] + Selected(src, tag, Without(box, i))
    ensures Others(src, tag, box) == Others(src, tag, Without(box, i))
  {
    assert box == box[..i] + [box[i]] + box[i + 1..];
    TakeFirst(src, tag, box[..i], box[i], box[i + 1..]);
  }

  // Repeated receives with one filter return the matching messages in the order
  // they arrived, and leave the others in the order they arrived.
  lemma {:induction false} ReceivesInArrivalOrder(src: nat, tag: nat, box: seq<Envelope>, k: nat)
    requires k >= |Selected(src, tag, box)|
    ensures ReceiveMany(src, tag, box, k) == (Selected(src, tag, box), Others(src, tag, box))
    decreases |box|
  {
    var i := FirstMatch(src, tag, box);
    if i == |box| {
      assert NoneMatch(src, tag, box);
      NoneSelected(src, tag, box);
    } else {
      TakeMatch(src, tag, box, i);
      ReceivesInArrivalOrder(src, tag, Without(box, i), k - 1);
    }
  }

  // The size a probe reports for a message.
  function ReportedSize(headerSize: nat, e: Envelope): nat {
    match ParseUnexpected(headerSize, e.bytes)
    case Small(data) => |data|
    case Large(_, size, _) => size
    case _ => |e.bytes|
  }
}
