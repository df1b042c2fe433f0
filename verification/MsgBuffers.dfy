// Message buffers on the heap: the free list of an instance and its queue of
// pending messages, both threaded through the same `next` field.
module MsgBuffers {
  import opened Codec
  import opened Mailbox

  // A message buffer. `next` links the free list (to another CachedMsg) or the
  // pending queue (to the PendingMsg after the one that owns this buffer).
  class CachedMsg {
    var buffer: Bytes
    var next: object?

    constructor ()
      ensures next == null
    {
      buffer := [];
      next := null;
    }
  }

  class PendingMsg {
    const cachedMsg: CachedMsg
    const recvSize: nat
    const recvAddr: nat
    const recvTag: nat

    constructor (msg: CachedMsg, size: nat, addr: nat, tag: nat)
      ensures cachedMsg == msg && recvSize == size && recvAddr == addr && recvTag == tag
    {
      cachedMsg, recvSize, recvAddr, recvTag := msg, size, addr, tag;
    }
  }

  // ---------------------------------------------------------------------
  // get_msg_from_cache and return_msg_to_cache.

  class MessageCache {
    var head: CachedMsg?
    ghost var free: seq<CachedMsg>  // bottom of the stack first

    // The list from head is acyclic and visits exactly the free buffers.
    ghost predicate Valid()
      reads this, free
    {
      && (free == [] ==> head == null)
      && (free != [] ==> head == free[|free| - 1] && free[0].next == null)
      && (forall i, j | 0 <= i < j < |free| && j == i + 1 :: free[j].next == free[i])
      && (forall i, j | 0 <= i < j < |free| :: free[i] != free[j])
    }

    ghost function Buffers(): set<CachedMsg>
      reads this
    {
      set m | m in free
    }

    constructor ()
      ensures Valid() && free == []
    {
      head, free := null, [];
    }

    method Get() returns (msg: CachedMsg)
      requires Valid()
      modifies this, free
      ensures Valid() && msg.next == null && msg !in free
      ensures old(free) == [] ==> fresh(msg) && free == []
      ensures old(free) != [] ==> old(free) == free + [msg]
      ensures Buffers() == old(Buffers()) - {msg} && (msg in old(Buffers()) || fresh(msg))
    {
      if head != null {
        msg := head;
        ghost var last := |free| - 1;
        if last > 0 {
          assert msg.next == free[last - 1];
        }
        head := msg.next as CachedMsg?;
        msg.next := null;
        free := free[..last];
      } else {
        msg := new CachedMsg();
      }
    }

    method Return(msg: CachedMsg)
      requires Valid() && msg !in free
      modifies this, msg`next
      ensures Valid() && free == old(free) + [msg] && Buffers() == old(Buffers()) + {msg}
    {
      msg.next := head;
      head := msg;
      free := free + [msg];
    }
  }

  // ---------------------------------------------------------------------
  // The queue of pending messages.

  class PendingList {
    var oldest: PendingMsg?
    var newest: PendingMsg?
    ghost var pend: seq<PendingMsg>

    ghost function Buffers(): set<CachedMsg>
      reads this
    {
      set p | p in pend :: p.cachedMsg
    }

    // newest is the last node reachable from oldest, both are null together, and no
    // two nodes share a buffer.
    ghost predicate Valid()
      reads this, Buffers()
    {
      && (pend == [] ==> oldest == null && newest == null)
      && (pend != [] ==> oldest == pend[0] && newest == pend[|pend| - 1] && newest.cachedMsg.next == null)
      && (forall i, j | 0 <= i < j < |pend| && j == i + 1 :: pend[i].cachedMsg.next == pend[j])
      && (forall i, j | 0 <= i < j < |pend| :: pend[i].cachedMsg != pend[j].cachedMsg)
      && (forall p | p in pend :: p.recvSize == |p.cachedMsg.buffer|)
    }

    // The messages in the queue, oldest first.
    ghost function Queue(): (q: seq<Envelope>)
      reads this, Buffers()
      ensures |q| == |pend|
    {
      seq(|pend|, i requires 0 <= i < |pend| reads this, Buffers()
                  => Envelope(pend[i].recvAddr, pend[i].recvTag, pend[i].cachedMsg.buffer))
    }

    constructor ()
      ensures Valid() && pend == []
    {
      oldest, newest, pend := null, null, [];
    }

    // The search loop of search_for_matching_unexpected_message: the earliest match
    // and the node before it.
    method Find(src: nat, tag: nat) returns (p: PendingMsg?, prev: PendingMsg?, ghost i: nat)
      requires Valid()
      ensures i == FirstMatch(src, tag, Queue()) <= |pend|
      ensures if FirstMatch(src, tag, Queue()) < |pend| then p == pend[FirstMatch(src, tag, Queue())] else p == null
      ensures if i > 0 then prev == pend[i - 1] else prev == null
      ensures p != null ==> p.recvSize == |p.cachedMsg.buffer| && p.cachedMsg in Buffers() &&
                            Queue()[i] == Envelope(p.recvAddr, p.recvTag, p.cachedMsg.buffer)
    {
      p, prev, i := oldest, null, 0;
      while p != null && !((tag == ANY_TAG || p.recvTag == tag) && (src == ANY_ADDR || src == p.recvAddr))
        invariant 0 <= i <= |pend|
        invariant if i < |pend| then p == pend[i] else p == null
        invariant if i > 0 then prev == pend[i - 1] else prev == null
        invariant forall j | 0 <= j < i :: !Matches(src, tag, Queue()[j])
        decreases |pend| - i
      {
        prev := p;
        if i + 1 < |pend| {
          assert p.cachedMsg.next == pend[i + 1];
        }
        p := p.cachedMsg.next as PendingMsg?;
        i := i + 1;
      }
      FirstMatchUnique(src, tag, Queue(), i);
    }

    // The pointer surgery of a removal.
    method Unlink(p: PendingMsg, prev: PendingMsg?, ghost i: nat)
      requires Valid() && i < |pend| && p == pend[i] && if i > 0 then prev == pend[i - 1] else prev == null
      modifies this, Buffers()
      ensures Valid() && pend == old(pend)[..i] + old(pend)[i + 1..]
      ensures forall m | m in old(Buffers()) :: m.buffer == old(m.buffer)
    {
      if i + 1 < |pend| {
        assert p.cachedMsg.next == pend[i + 1];
      }
      if prev != null {
        prev.cachedMsg.next := p.cachedMsg.next;
      }
      if p == oldest {
        oldest := p.cachedMsg.next as PendingMsg?;
      }
      if p == newest {
        newest := prev;
      }
      pend := pend[..i] + pend[i + 1..];
    }

    twostate lemma Removed(i: nat)
      requires i < |old(pend)| && pend == old(pend)[..i] + old(pend)[i + 1..]
      requires forall j, k | 0 <= j < k < |old(pend)| :: old(pend)[j].cachedMsg != old(pend)[k].cachedMsg
      requires forall m | m in old(Buffers()) :: m.buffer == old(m.buffer)
      ensures Buffers() == old(Buffers()) - {old(pend)[i].cachedMsg}
      ensures Queue() == Without(old(Queue()), i)
    {
      assert old(pend) == old(pend)[..i] + [old(pend)[i]] + old(pend)[i + 1..];
    }

    // The removing half of search_for_matching_unexpected_message.
    method Remove(p: PendingMsg, prev: PendingMsg?, ghost i: nat)
      requires Valid() && i < |pend| && p == pend[i] && if i > 0 then prev == pend[i - 1] else prev == null
      modifies this, Buffers()
      ensures Valid() && Queue() == Without(old(Queue()), i)
      ensures p.cachedMsg in old(Buffers()) && Buffers() == old(Buffers()) - {p.cachedMsg}
      ensures forall m | m in old(Buffers()) :: m.buffer == old(m.buffer)
    {
      Unlink(p, prev, i);
      Removed(i);
    }

    // Appending a received message.
    method Append(msg: CachedMsg, size: nat, addr: nat, tag: nat)
      requires Valid() && msg !in Buffers() && size == |msg.buffer|
      modifies this, msg`next, Buffers()
      ensures Valid() && |pend| == |old(pend)| + 1 && pend[..|old(pend)|] == old(pend)
      ensures Queue() == old(Queue()) + [Envelope(addr, tag, msg.buffer)]
      ensures Buffers() == old(Buffers()) + {msg}
      ensures forall m | m in Buffers() :: m.buffer == old(m.buffer)
    {
      var p := new PendingMsg(msg, size, addr, tag);
      msg.next := null;
      if oldest == null {
        oldest := p;
        newest := p;
      } else {
        newest.cachedMsg.next := p;
        newest := p;
      }
      pend := pend + [p];
    }
  }
}
