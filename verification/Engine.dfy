// The unexpected-message engine of one instance, one call at a time: the pending
// queue and the outstanding low-level receive together behave as a mailbox.
module Engine {
  import opened Basics
  import opened Codec
  import opened Mailbox
  import opened MsgBuffers
  import opened Transfer

  ghost predicate Partition<T>(all: set<T>, a: set<T>, b: set<T>, c: set<T>, d: set<T>) {
    all == a + b + c + d && a !! b !! c !! d
  }

  class Instance {
    const cache: MessageCache
    const pending: PendingList
    var queueActive: bool
    // The outstanding low-level receive. probDone says NA has completed it.
    var probMsg: CachedMsg?
    var probActive: bool
    var probDone: bool
    var probAddr: nat
    var probTag: nat
    var probSize: nat
    // Messages that reached the transport and no receive has taken yet.
    var wire: seq<Envelope>
    // Buffers in the hands of running or finished calls.
    ghost var held: set<CachedMsg>
    // Every buffer ever allocated.
    ghost var all: set<CachedMsg>

    ghost function Outstanding(): set<CachedMsg>
      reads this
    {
      if probMsg == null then {} else {probMsg}
    }

    ghost function Footprint(): set<object>
      reads this
    {
      {this, cache, pending} + all
    }

    // Every buffer is in exactly one of the free list, the pending queue, the
    // outstanding receive and the hands of a caller.
    ghost predicate Separate()
      reads this, cache, pending
    {
      Partition(all, cache.Buffers(), pending.Buffers(), Outstanding(), held)
    }

    ghost predicate Valid()
      reads this, cache, pending, all, cache.free, pending.Buffers(), Outstanding()
    {
      && Separate()
      && cache.Valid() && pending.Valid()
      && (probActive <==> probMsg != null)
      && (probDone ==> probActive && probSize == |probMsg.buffer|)
    }

    ghost function InFlight(): seq<Envelope>
      reads this, Outstanding()
    {
      if probMsg != null && probDone then [Envelope(probAddr, probTag, probMsg.buffer)] else []
    }

    // The mailbox: everything that arrived and was not received, oldest first.
    ghost function Contents(): seq<Envelope>
      reads this, pending, pending.Buffers(), Outstanding()
    {
      pending.Queue() + InFlight() + wire
    }

    constructor ()
      ensures Valid() && Contents() == [] && !queueActive && held == {} && !probActive
      ensures fresh(Footprint())
    {
      cache := new MessageCache();
      pending := new PendingList();
      queueActive, probMsg, probActive, probDone := false, null, false, false;
      probAddr, probTag, probSize, wire, held, all := 0, 0, 0, [], {}, {};
    }

    // ---------------------------------------------------------------------
    // The transport.

    method Arrive(e: Envelope)
      requires Valid()
      modifies this`wire
      ensures Valid() && Contents() == old(Contents()) + [e]
      ensures wire == old(wire) + [e]
    {
      wire := wire + [e];
    }

    method ArriveAll(later: seq<Envelope>)
      requires Valid()
      modifies `wire
      ensures Valid() && Contents() == old(Contents()) + later
    {
      for i := 0 to |later|
        invariant Valid() && Contents() == old(Contents()) + later[..i]
      {
        Arrive(later[i]);
      }
      assert later[..|later|] == later;
    }

    // The bytes NA writes into the posted buffer.
    method Write(bytes: Bytes)
      requires Valid() && probActive && !probDone
      modifies probMsg`buffer
      ensures Valid() && probMsg.buffer == bytes && pending.Queue() == old(pending.Queue())
    {
      probMsg.buffer := bytes;
      assert probMsg !in pending.Buffers() && probMsg !in cache.free;
    }

    method Complete(e: Envelope)
      requires Valid() && probActive && probMsg.buffer == e.bytes
      modifies `probAddr, `probTag, `probSize, `probDone
      ensures Valid() && pending.Queue() == old(pending.Queue()) && probDone && InFlight() == [e]
    {
      probAddr, probTag, probSize, probDone := e.src, e.tag, |e.bytes|, true;
    }

    // NA completes the posted receive with the oldest message.
    method Deliver()
      requires Valid() && probActive && !probDone && wire != []
      modifies `wire, `probAddr, `probTag, `probSize, `probDone, probMsg`buffer
      ensures Valid() && Contents() == old(Contents()) && pending.Queue() == old(pending.Queue())
      ensures probDone && wire == old(wire)[1..]
    {
      ghost var q, w := pending.Queue(), wire;
      Write(wire[0].bytes);
      Complete(wire[0]);
      wire := wire[1..];
      assert pending.Queue() == q && InFlight() == [w[0]];
      FirstMoves(q, w);
    }

    // The listener token, pending_msg_queue_active.
    method SetToken(active: bool)
      requires Valid()
      modifies `queueActive
      ensures Valid() && queueActive == active && Contents() == old(Contents())
      ensures pending.Queue() == old(pending.Queue()) && InFlight() == old(InFlight())
    {
      queueActive := active;
    }

    // A buffer from the cache, on its way to the caller or the outstanding receive.
    method GetBuffer() returns (msg: CachedMsg)
      requires Valid()
      modifies cache, cache.free
      ensures cache.Valid() && cache.Buffers() == old(cache.Buffers()) - {msg}
      ensures pending.Valid() && pending.Queue() == old(pending.Queue()) && InFlight() == old(InFlight())
      ensures msg in old(cache.Buffers()) || (fresh(msg) && msg !in all)
      ensures msg !in pending.Buffers() && msg !in held && msg != probMsg
    {
      msg := cache.Get();
    }

    method Acquire() returns (msg: CachedMsg)
      requires Valid()
      modifies `held, `all, cache, cache.free
      ensures Valid() && old(all) <= all && (forall m | m in all :: m in old(all) || fresh(m))
      ensures msg !in old(held) && held == old(held) + {msg}
      ensures pending.Queue() == old(pending.Queue()) && InFlight() == old(InFlight())
      ensures Contents() == old(Contents())
    {
      msg := GetBuffer();
      held, all := held + {msg}, all + {msg};
      assert pending.Queue() == old(pending.Queue()) && InFlight() == old(InFlight());
    }

    method Fill(msg: CachedMsg, bytes: Bytes)
      requires Valid() && msg in held
      modifies msg`buffer
      ensures Valid() && Contents() == old(Contents()) && msg.buffer == bytes
    {
      msg.buffer := bytes;
    }

    method Release(msg: CachedMsg)
      requires Valid() && msg in held
      modifies `held, cache, msg`next
      ensures Valid() && held == old(held) - {msg} && cache.free == old(cache.free) + [msg]
      ensures Contents() == old(Contents())
    {
      cache.Return(msg);
      held := held - {msg};
    }

    // ---------------------------------------------------------------------
    // Steps of receive_new_unexpected_message.

    method SetReceive(msg: CachedMsg)
      requires Valid() && !probActive && msg in held
      modifies `probMsg, `probActive, `probDone, `held
      ensures Valid() && probActive && !probDone && held == old(held) - {msg}
      ensures Contents() == old(Contents()) && pending.Queue() == old(pending.Queue())
    {
      probMsg, probActive, probDone := msg, true, false;
      held := held - {msg};
    }

    method Post()
      requires Valid() && !probActive
      modifies `probMsg, `probActive, `probDone, `held, `all, cache, cache.free
      ensures Valid() && probActive && !probDone
      ensures Contents() == old(Contents()) && pending.Queue() == old(pending.Queue()) && held == old(held)
      ensures old(all) <= all && (forall m | m in all :: m in old(all) || fresh(m))
    {
      var msg := Acquire();
      SetReceive(msg);
    }

    // Take the completed message out of the outstanding receive.
    method Take() returns (msg: CachedMsg, size: nat, addr: nat, tag: nat)
      requires Valid() && probActive && probDone
      modifies `probMsg, `probActive, `probDone, `probAddr, `probTag, `probSize, `held
      ensures Valid() && !probActive && !probDone
      ensures old(InFlight()) == [Envelope(addr, tag, msg.buffer)] && size == |msg.buffer|
      ensures held == old(held) + {msg} && msg !in old(held)
    {
      msg, size, addr, tag := probMsg, probSize, probAddr, probTag;
      probMsg, probActive, probDone := null, false, false;
      probAddr, probSize, probTag := 0, 0, 0;
      held := held + {msg};
    }

    method Enqueue(msg: CachedMsg, size: nat, addr: nat, tag: nat)
      requires Valid() && msg in held && size == |msg.buffer|
      modifies `held, pending, pending.Buffers(), msg`next
      ensures Valid() && pending.Queue() == old(pending.Queue()) + [Envelope(addr, tag, msg.buffer)]
      ensures held == old(held) - {msg}
      ensures InFlight() == old(InFlight())
    {
      pending.Append(msg, size, addr, tag);
      held := held - {msg};
    }

    // Make sure a receive is outstanding and see whether it has completed; if NA
    // makes progress it has, unless nothing arrived.
    method Await(progress: bool) returns (ready: bool)
      requires Valid()
      modifies Footprint()
      ensures Valid() && old(all) <= all && (forall m | m in all :: m in old(all) || fresh(m))
      ensures held == old(held) && queueActive == old(queueActive)
      ensures pending.Queue() == old(pending.Queue()) && Contents() == old(Contents())
      ensures ready == probDone && probActive
      ensures ready <==> old(probDone) || (progress && old(wire) != [])
      ensures !ready && wire == [] ==> Contents() == pending.Queue()
    {
      if !probActive {
        Post();
      }
      if !probDone && progress && wire != [] {
        Deliver();
      }
      ready := probDone;
      assert pending.Queue() + [] + [] == pending.Queue();
    }

    // Hand over the received message if it is the one wanted, or queue it.
    method Dispatch(probe: bool, src: nat, tag: nat, ghost e: Envelope)
      returns (msg: CachedMsg?, size: nat, addr: nat, found: nat)
      requires Valid() && probDone && InFlight() == [e] && queueActive
      modifies this, pending, pending.Buffers(), probMsg
      ensures Valid() && all == old(all) && wire == old(wire) && !probActive && !probDone
      ensures msg != null <==> !probe && Matches(src, tag, e)
      ensures msg != null <==> !probe && (tag == 0xFFFF_FFFF || e.tag == tag) && (src == 0 || e.src == src)
      ensures msg != null ==> (
                && msg !in old(held) && held == old(held) + {msg} && !queueActive
                && size == |msg.buffer| && e == Envelope(addr, found, msg.buffer)
                && pending.Queue() == old(pending.Queue()))
      ensures msg == null ==> (
                && held == old(held) && queueActive == !probe
                && pending.Queue() == old(pending.Queue()) + [e])
    {
      var next;
      ghost var q := pending.Queue();
      next, size, addr, found := Take();
      assert pending.Queue() == q && e == Envelope(addr, found, next.buffer) && wire == old(wire);
      if !probe && (tag == ANY_TAG || found == tag) && (src == ANY_ADDR || src == addr) {
        SetToken(false);
        msg := next;
      } else {
        Enqueue(next, size, addr, found);
        assert pending.Queue() == q + [e];
        if probe {
          SetToken(false);
        }
        msg := null;
      }
    }

    // One turn of the retry loop: dispatch the received message and, if it was not
    // the one wanted, wait for the next.
    method Advance(src: nat, tag: nat)
      returns (ready: bool, msg: CachedMsg?, size: nat, addr: nat, found: nat)
      requires Valid() && queueActive && probDone
      requires FirstMatch(src, tag, pending.Queue()) == |pending.Queue()|
      modifies Footprint()
      ensures Valid() && old(all) <= all && (forall m | m in all :: m in old(all) || fresh(m))
      ensures msg != null ==> (
                && msg !in old(held) && held == old(held) + {msg} && size == |msg.buffer| && !queueActive
                && Removes(src, tag, old(Contents()), Envelope(addr, found, msg.buffer), Contents()))
      ensures msg == null ==> (
                && held == old(held) && queueActive && Contents() == old(Contents())
                && FirstMatch(src, tag, pending.Queue()) == |pending.Queue()|
                && ready == probDone && (!ready ==> Contents() == pending.Queue())
                && |pending.Queue()| == |old(pending.Queue())| + 1)
    {
      ghost var q, e, w := pending.Queue(), InFlight()[0], wire;
      TakeOrQueue(src, tag, q, e, w);
      msg, size, addr, found := Dispatch(false, src, tag, e);
      ready := false;
      if msg == null {
        assert Contents() == (q + [e]) + [] + w;
        ready := Await(true);
      } else {
        assert Contents() == q + [] + w;
      }
    }

    // receive_new_unexpected_message for a receive: wait for new messages, queueing
    // those that do not match. It blocks on an empty transport, holding the token,
    // and goes on from the same point after an arrival.
    method ReceiveNew(src: nat, tag: nat)
      returns (blocked: bool, msg: CachedMsg?, size: nat, addr: nat, found: nat)
      requires Valid() && queueActive
      requires FirstMatch(src, tag, pending.Queue()) == |pending.Queue()|
      modifies Footprint()
      ensures Valid() && old(all) <= all && (forall m | m in all :: m in old(all) || fresh(m))
      ensures blocked == queueActive == (msg == null)
      ensures blocked ==> (
                && held == old(held) && pending.Queue() == Contents() == old(Contents())
                && FirstMatch(src, tag, Contents()) == |Contents()|)
      ensures !blocked ==> (
                && msg !in old(held) && held == old(held) + {msg} && size == |msg.buffer|
                && Removes(src, tag, old(Contents()), Envelope(addr, found, msg.buffer), Contents()))
    {
      blocked, msg, size, addr, found := true, null, 0, 0, 0;
      ghost var box, was, mine := Contents(), all, held;
      var ready := Await(true);
      while ready
        invariant Valid() && queueActive && held == mine && blocked && msg == null
        invariant was <= all && (forall m | m in all :: m in was || fresh(m))
        invariant Contents() == box && ready == probDone
        invariant !ready ==> Contents() == pending.Queue()
        invariant FirstMatch(src, tag, pending.Queue()) == |pending.Queue()|
        decreases |Contents()| - |pending.Queue()|
      {
        ready, msg, size, addr, found := Advance(src, tag);
        if msg != null {
          blocked := false;
          return;
        }
      }
    }

    // The probing call of the same routine: it takes at most one new message, into
    // the queue, and gives the token back. An empty probe leaves the receive posted.
    method ProbeNew(progress: bool, src: nat, tag: nat)
      requires Valid() && queueActive
      modifies Footprint()
      ensures Valid() && old(all) <= all && (forall m | m in all :: m in old(all) || fresh(m))
      ensures !queueActive && held == old(held) && Contents() == old(Contents())
      ensures |pending.Queue()| == |old(pending.Queue())|
                + if old(probDone) || (progress && old(wire) != []) then 1 else 0
    {
      var ready := Await(progress);
      if ready {
        ghost var q, e, w := pending.Queue(), InFlight()[0], wire;
        var _, _, _, _ := Dispatch(true, src, tag, e);
        DropEmpty(q + [e], w);
      } else {
        SetToken(false);
      }
    }

    // Taking a found message out of the queue: what that leaves alone ...
    method Detach(p: PendingMsg, prev: PendingMsg?, ghost i: nat)
      requires Valid() && i < |pending.pend| && p == pending.pend[i]
      requires if i > 0 then prev == pending.pend[i - 1] else prev == null
      modifies pending, pending.Buffers()
      ensures pending.Valid() && pending.Queue() == Without(old(pending.Queue()), i)
      ensures p.cachedMsg !in pending.Buffers() && p.cachedMsg !in held
      ensures p.cachedMsg.buffer == old(p.cachedMsg.buffer)
      ensures Partition(all, cache.Buffers(), pending.Buffers() + {p.cachedMsg}, Outstanding(), held)
      ensures cache.Valid() && InFlight() == old(InFlight())
      ensures probDone ==> probSize == |probMsg.buffer|
    {
      pending.Remove(p, prev, i);
      assert pending.Buffers() + {p.cachedMsg} == old(pending.Buffers());
      assert probMsg != null ==> probMsg.buffer == old(probMsg.buffer);
    }

    method GiveToCaller(msg: CachedMsg)
      requires Partition(all, cache.Buffers(), pending.Buffers() + {msg}, Outstanding(), held)
      requires cache.Valid() && pending.Valid() && msg !in pending.Buffers() && (probActive <==> probMsg != null)
      requires probDone ==> probActive && probSize == |probMsg.buffer|
      modifies `held
      ensures Valid() && msg !in old(held) && held == old(held) + {msg}
      ensures pending.Queue() == old(pending.Queue()) && InFlight() == old(InFlight())
    {
      held := held + {msg};
    }

    // ... and who holds it then.
    method Extract(p: PendingMsg, prev: PendingMsg?, ghost i: nat)
      requires Valid() && i < |pending.pend| && p == pending.pend[i]
      requires if i > 0 then prev == pending.pend[i - 1] else prev == null
      modifies `held, pending, pending.Buffers()
      ensures Valid() && pending.Queue() == Without(old(pending.Queue()), i)
      ensures p.cachedMsg !in old(held) && held == old(held) + {p.cachedMsg}
      ensures p.cachedMsg.buffer == old(p.cachedMsg.buffer) && InFlight() == old(InFlight())
    {
      Detach(p, prev, i);
      GiveToCaller(p.cachedMsg);
    }

    // search_for_matching_unexpected_message with remove set.
    method SearchRemove(src: nat, tag: nat) returns (msg: CachedMsg?, size: nat, addr: nat, found: nat)
      requires Valid()
      modifies `held, pending, pending.Buffers()
      ensures Valid()
      ensures msg == null ==>
                held == old(held) && pending.Queue() == old(pending.Queue()) && Contents() == old(Contents())
      ensures msg == null ==> FirstMatch(src, tag, pending.Queue()) == |pending.Queue()|
      ensures msg != null ==> (
                && msg !in old(held) && held == old(held) + {msg} && size == |msg.buffer|
                && Removes(src, tag, old(Contents()), Envelope(addr, found, msg.buffer), Contents()))
    {
      var p, prev;
      ghost var q, f, i := pending.Queue(), InFlight(), 0;
      p, prev, i := pending.Find(src, tag);
      msg, size, addr, found := null, 0, 0, 0;
      if p != null {
        msg, size, addr, found := p.cachedMsg, p.recvSize, p.recvAddr, p.recvTag;
        assert q[i] == Envelope(addr, found, msg.buffer);
        Extract(p, prev, i);
        assert Contents() == Without(q, i) + f + wire && wire == old(wire);
        RemovesQueued(src, tag, q, f, wire);
      }
    }

    // The same search without remove.
    method SearchKeep(src: nat, tag: nat) returns (msg: CachedMsg?, size: nat, addr: nat, found: nat)
      requires Valid()
      ensures msg != null <==> FirstMatch(src, tag, pending.Queue()) < |pending.Queue()|
      ensures msg != null ==> (
                && size == |msg.buffer|
                && pending.Queue()[FirstMatch(src, tag, pending.Queue())] == Envelope(addr, found, msg.buffer))
    {
      ghost var i;
      var p, prev;
      p, prev, i := pending.Find(src, tag);
      msg, size, addr, found := null, 0, 0, 0;
      if p != null {
        msg, size, addr, found := p.cachedMsg, p.recvSize, p.recvAddr, p.recvTag;
      }
    }

    // check_for_matching_unexpected_message when probing, with no other call running.
    method CheckProbe(progress: bool, src: nat, tag: nat)
      returns (msg: CachedMsg?, size: nat, addr: nat, found: nat)
      requires Valid() && !queueActive
      modifies Footprint()
      ensures Valid() && old(all) <= all && (forall m | m in all :: m in old(all) || fresh(m))
      ensures !queueActive && held == old(held) && Contents() == old(Contents())
      ensures msg != null <==> FirstMatch(src, tag, old(pending.Queue())) < |old(pending.Queue())|
      ensures msg != null ==> (
                && pending.Queue() == old(pending.Queue()) && size == |msg.buffer|
                && pending.Queue()[FirstMatch(src, tag, pending.Queue())] == Envelope(addr, found, msg.buffer))
      ensures msg == null ==>
                |pending.Queue()| == |old(pending.Queue())|
                  + if old(probDone) || (progress && old(wire) != []) then 1 else 0
    {
      msg, size, addr, found := SearchKeep(src, tag);
      if msg == null {
        SetToken(true);
        ProbeNew(progress, src, tag);
      }
    }

    // The same when receiving: from the queue, or else from the transport.
    method CheckReceive(src: nat, tag: nat)
      returns (blocked: bool, msg: CachedMsg?, size: nat, addr: nat, found: nat)
      requires Valid() && !queueActive
      modifies Footprint()
      ensures Valid() && old(all) <= all && (forall m | m in all :: m in old(all) || fresh(m))
      ensures queueActive == blocked == (msg == null)
      ensures blocked ==> (
                && held == old(held) && pending.Queue() == Contents() == old(Contents())
                && FirstMatch(src, tag, Contents()) == |Contents()|)
      ensures !blocked ==> (
                && msg !in old(held) && held == old(held) + {msg} && size == |msg.buffer|
                && Removes(src, tag, old(Contents()), Envelope(addr, found, msg.buffer), Contents()))
    {
      blocked := false;
      msg, size, addr, found := SearchRemove(src, tag);
      if msg == null {
        SetToken(true);
        blocked, msg, size, addr, found := ReceiveNew(src, tag);
      }
    }

    // ---------------------------------------------------------------------
    // The calls users make.

    lemma ArraysApart(bufs: seq<array<byte>>)
      ensures forall b: object | b in bufs :: b !in Footprint()
    {
    }

    // The mailbox operation of a receive: the buffer of the earliest match. A call
    // that found the transport empty goes on, with `waiting` set, where it blocked.
    method Obtain(waiting: bool, src: nat, tag: nat)
      returns (blocked: bool, msg: CachedMsg?, size: nat, addr: nat, found: nat)
      requires Valid() && queueActive == waiting
      requires waiting ==> FirstMatch(src, tag, pending.Queue()) == |pending.Queue()|
      modifies Footprint()
      ensures Valid() && old(all) <= all && (forall m | m in all :: m in old(all) || fresh(m))
      ensures queueActive == blocked == (msg == null)
      ensures blocked ==> (
                && held == old(held) && pending.Queue() == Contents() == old(Contents())
                && FirstMatch(src, tag, Contents()) == |Contents()|)
      ensures !blocked ==> (
                && msg !in old(held) && held == old(held) + {msg} && size == |msg.buffer|
                && Removes(src, tag, old(Contents()), Envelope(addr, found, msg.buffer), Contents()))
    {
      if waiting {
        blocked, msg, size, addr, found := ReceiveNew(src, tag);
      } else {
        blocked, msg, size, addr, found := CheckReceive(src, tag);
      }
    }

    // The data of the earliest match goes to the user's buffers and its message buffer
    // back to the cache; ok unless NA reports an error.
    method ReceiveInto(waiting: bool, headerSize: nat, memory: Memory, src: nat, tag: nat, bufs: seq<array<byte>>)
      returns (blocked: bool, ok: bool, size: nat, addr: nat, found: nat, ghost e: Envelope)
      requires Valid() && queueActive == waiting && DistinctArrays(bufs)
      requires waiting ==> FirstMatch(src, tag, pending.Queue()) == |pending.Queue()|
      requires FirstIntact(headerSize, src, tag, Contents())
      modifies Footprint(), set b | b in bufs
      ensures Valid() && old(all) <= all && (forall m | m in all :: m in old(all) || fresh(m))
      ensures held == old(held) && queueActive == blocked
      ensures blocked ==> (
                && pending.Queue() == Contents() == old(Contents())
                && FirstMatch(src, tag, Contents()) == |Contents()|)
      ensures !blocked ==> (
                && Removes(src, tag, old(Contents()), e, Contents()) && (ok ==> addr == e.src && found == e.tag)
                && Delivered(headerSize, memory, e, old(Values(bufs)), Values(bufs), ok, size))
    {
      ghost var box := Contents();
      var msg;
      e := Envelope(0, 0, []);
      ok := true;
      ArraysApart(bufs);
      blocked, msg, size, addr, found := Obtain(waiting, src, tag);
      assert Values(bufs) == old(Values(bufs));
      if blocked {
        return;
      }
      e := Envelope(addr, found, msg.buffer);
      ok, size := Finish(headerSize, memory, msg, bufs, src, tag, box, e);
    }

    // mona_urecv_nc. It takes message e from place at of the mailbox: the first one with
    // the tag and source asked for, or blocks if there is none.
    method Urecv(waiting: bool, headerSize: nat, memory: Memory, src: nat, tag: nat, bufs: seq<array<byte>>)
      returns (blocked: bool, ok: bool, size: nat, addr: nat, found: nat, ghost e: Envelope, ghost at: nat)
      requires Valid() && queueActive == waiting && DistinctArrays(bufs)
      requires waiting ==> FirstMatch(src, tag, pending.Queue()) == |pending.Queue()|
      requires FirstIntact(headerSize, src, tag, Contents())
      modifies Footprint(), set b | b in bufs
      ensures Valid() && old(all) <= all && (forall m | m in all :: m in old(all) || fresh(m))
      ensures held == old(held) && queueActive == blocked
      ensures blocked ==> (
                && pending.Queue() == Contents() == old(Contents())
                && FirstMatch(src, tag, Contents()) == |Contents()|)
      ensures blocked ==>
                forall m | m in old(Contents()) :: (tag != 0xFFFF_FFFF && m.tag != tag) || (src != 0 && m.src != src)
      ensures !blocked ==> (
                && Removes(src, tag, old(Contents()), e, Contents()) && (ok ==> addr == e.src && found == e.tag)
                && Delivered(headerSize, memory, e, old(Values(bufs)), Values(bufs), ok, size))
      ensures !blocked ==> (
                && at < |old(Contents())| && e == old(Contents())[at]
                && Contents() == old(Contents())[..at] + old(Contents())[at + 1..]
                && (tag != 0xFFFF_FFFF ==> e.tag == tag) && (src != 0 ==> e.src == src)
                && (src == 0 && tag == 0xFFFF_FFFF ==> at == 0)
                && forall m | m in old(Contents())[..at] ::
                     (tag != 0xFFFF_FFFF && m.tag != tag) || (src != 0 && m.src != src))
    {
      ghost var box := Contents();
      at := FirstMatch(src, tag, box);
      blocked, ok, size, addr, found, e := ReceiveInto(waiting, headerSize, memory, src, tag, bufs);
      FirstMatchFields(src, tag, box);
    }

    // The user's buffers are not part of the engine.
    method CopyData(headerSize: nat, memory: Memory, buffer: Bytes, bufs: seq<array<byte>>, ghost e: Envelope)
      returns (ok: bool, size: nat)
      requires Valid() && buffer == e.bytes && DistinctArrays(bufs) && !ParseUnexpected(headerSize, buffer).Truncated?
      modifies set b | b in bufs
      ensures Valid() && Contents() == old(Contents())
      ensures Delivered(headerSize, memory, e, old(Values(bufs)), Values(bufs), ok, size)
    {
      ArraysApart(bufs);
      ok, size := ReceiveUnexpected(headerSize, buffer, memory, bufs);
    }

    // The rest of the call, once it has the earliest match e of the mailbox.
    method Finish(headerSize: nat, memory: Memory, msg: CachedMsg, bufs: seq<array<byte>>,
                  ghost src: nat, ghost tag: nat, ghost box: seq<Envelope>, ghost e: Envelope)
      returns (ok: bool, size: nat)
      requires Valid() && msg in held && msg.buffer == e.bytes && DistinctArrays(bufs)
      requires Removes(src, tag, box, e, Contents()) && FirstIntact(headerSize, src, tag, box)
      modifies `held, cache, msg`next, set b | b in bufs
      ensures Valid() && held == old(held) - {msg} && Contents() == old(Contents())
      ensures Delivered(headerSize, memory, e, old(Values(bufs)), Values(bufs), ok, size)
    {
      RemovedIntact(headerSize, src, tag, box, e, Contents());
      ok, size := CopyData(headerSize, memory, msg.buffer, bufs, e);
      ghost var news := Values(bufs);
      Release(msg);
      assert Values(bufs) == news;
    }

    // The size of a large message is read from its body.
    method Probe(progress: bool, headerSize: nat, src: nat, tag: nat)
      returns (flag: bool, size: nat, addr: nat, found: nat)
      requires Valid() && !queueActive && FirstIntact(headerSize, src, tag, Contents())
      modifies Footprint()
      ensures Valid() && old(all) <= all && (forall m | m in all :: m in old(all) || fresh(m))
      ensures !queueActive && held == old(held) && Contents() == old(Contents())
      ensures flag <==> FirstMatch(src, tag, old(pending.Queue())) < |old(pending.Queue())|
      ensures flag ==>
                pending.Queue() == old(pending.Queue()) && Reports(headerSize, src, tag, Contents(), size, addr, found)
      ensures !flag ==>
                |pending.Queue()| == |old(pending.Queue())|
                  + if old(probDone) || (progress && old(wire) != []) then 1 else 0
    {
      var msg;
      RemovesQueued(src, tag, pending.Queue(), InFlight(), wire);
      msg, size, addr, found := CheckProbe(progress, src, tag);
      flag := msg != null;
      if flag {
        size := SizeOf(headerSize, msg.buffer, size);
      }
    }

    // mona_uiprobe. It reports the message at place at of the mailbox: the first one with
    // the tag and source asked for, and nothing only if none of these is queued.
    method Uiprobe(progress: bool, headerSize: nat, src: nat, tag: nat)
      returns (flag: bool, size: nat, addr: nat, found: nat, ghost at: nat)
      requires Valid() && !queueActive && FirstIntact(headerSize, src, tag, Contents())
      modifies Footprint()
      ensures Valid() && old(all) <= all && (forall m | m in all :: m in old(all) || fresh(m))
      ensures !queueActive && held == old(held) && Contents() == old(Contents())
      ensures flag <==> FirstMatch(src, tag, old(pending.Queue())) < |old(pending.Queue())|
      ensures flag ==>
                pending.Queue() == old(pending.Queue()) && Reports(headerSize, src, tag, Contents(), size, addr, found)
      ensures !flag ==>
                |pending.Queue()| == |old(pending.Queue())|
                  + if old(probDone) || (progress && old(wire) != []) then 1 else 0
      ensures !flag <==>
                forall m | m in old(pending.Queue()) ::
                  (tag != 0xFFFF_FFFF && m.tag != tag) || (src != 0 && m.src != src)
      ensures flag ==> (
                && at < |Contents()| && addr == Contents()[at].src && found == Contents()[at].tag
                && (tag != 0xFFFF_FFFF ==> found == tag) && (src != 0 ==> addr == src)
                && (src == 0 && tag == 0xFFFF_FFFF ==> at == 0)
                && forall m | m in Contents()[..at] ::
                     (tag != 0xFFFF_FFFF && m.tag != tag) || (src != 0 && m.src != src))
    {
      FirstMatchFields(src, tag, pending.Queue());
      FirstMatchFields(src, tag, Contents());
      at := FirstMatch(src, tag, Contents());
      flag, size, addr, found := Probe(progress, headerSize, src, tag);
    }

    // A probe that makes progress: if it finds nothing it queues a message, unless none
    // is on its way.
    method ProbeOnce(headerSize: nat, src: nat, tag: nat) returns (flag: bool, size: nat, addr: nat, found: nat)
      requires Valid() && !queueActive && FirstIntact(headerSize, src, tag, Contents())
      modifies Footprint()
      ensures Valid() && old(all) <= all && (forall m | m in all :: m in old(all) || fresh(m))
      ensures !queueActive && held == old(held) && Contents() == old(Contents())
      ensures flag ==> Reports(headerSize, src, tag, Contents(), size, addr, found)
      ensures |old(pending.Queue())| <= |pending.Queue()| <= |Contents()|
      ensures !flag && FirstMatch(src, tag, Contents()) < |Contents()| ==> |old(pending.Queue())| < |pending.Queue()|
    {
      NoMoreToCome(src, tag, pending.Queue(), InFlight(), wire);
      flag, size, addr, found := Probe(true, headerSize, src, tag);
    }

    // One turn of the probe loop: messages arrive after a probe that found nothing.
    method ProbeTurn(headerSize: nat, src: nat, tag: nat, batch: seq<Envelope>)
      returns (flag: bool, size: nat, addr: nat, found: nat)
      requires Valid() && !queueActive && FirstIntact(headerSize, src, tag, Contents())
      modifies Footprint()
      ensures Valid() && old(all) <= all && (forall m | m in all :: m in old(all) || fresh(m))
      ensures !queueActive && held == old(held)
      ensures flag ==> Contents() == old(Contents()) && Reports(headerSize, src, tag, Contents(), size, addr, found)
      ensures !flag ==> Contents() == old(Contents()) + batch
      ensures !flag && batch == [] ==> Contents() == old(Contents())
      ensures !flag && batch == [] && FirstMatch(src, tag, old(Contents())) < |old(Contents())| ==>
                |old(pending.Queue())| < |pending.Queue()| <= |Contents()|
    {
      flag, size, addr, found := ProbeOnce(headerSize, src, tag);
      if !flag {
        ghost var box := Contents();
        ArriveAll(batch);
        assert box + [] == box;
      }
    }

    // mona_uprobe. While it has found nothing, batches of messages arrive between its
    // probes; used says how many of them had by the time it returned.
    method Uprobe(headerSize: nat, src: nat, tag: nat, batches: seq<seq<Envelope>>)
      returns (size: nat, addr: nat, found: nat, ghost used: nat, ghost at: nat)
      requires Valid() && !queueActive
      requires FirstMatch(src, tag, Contents() + Flatten(batches)) < |Contents() + Flatten(batches)|
      requires FirstIntact(headerSize, src, tag, Contents() + Flatten(batches))
      modifies Footprint()
      ensures Valid() && old(all) <= all && (forall m | m in all :: m in old(all) || fresh(m))
      ensures !queueActive && held == old(held)
      ensures used <= |batches| && Contents() == old(Contents()) + Flatten(batches[..used])
      ensures Reports(headerSize, src, tag, Contents(), size, addr, found)
      ensures at < |Contents()| && addr == Contents()[at].src && found == Contents()[at].tag
      ensures (tag != 0xFFFF_FFFF ==> found == tag) && (src != 0 ==> addr == src)
      ensures src == 0 && tag == 0xFFFF_FFFF ==> at == 0
      ensures forall m | m in Contents()[..at] :: (tag != 0xFFFF_FFFF && m.tag != tag) || (src != 0 && m.src != src)
    {
      var flag, i := false, 0;
      used, size, addr, found := 0, 0, 0, 0;
      ghost var box := Contents();
      assert box + Flatten(batches[..0]) == box;
      while !flag
        invariant Valid() && !queueActive && held == old(held)
        invariant 0 <= i <= |batches| && Contents() == box + Flatten(batches[..i])
        invariant old(all) <= all && (forall m | m in all :: m in old(all) || fresh(m))
        invariant flag ==> Reports(headerSize, src, tag, Contents(), size, addr, found)
        decreases !flag, |batches| - i, |Contents()| - |pending.Queue()|
      {
        BatchesLeft(headerSize, src, tag, box, batches, i);
        var batch := if i < |batches| then batches[i] else [];
        flag, size, addr, found := ProbeTurn(headerSize, src, tag, batch);
        if !flag && i < |batches| {
          FlattenNext(box, batches, i);
          i := i + 1;
        }
      }
      used := i;
      FirstMatchFields(src, tag, Contents());
      at := FirstMatch(src, tag, Contents());
    }

    method Filled(bytes: Bytes) returns (msg: CachedMsg)
      requires Valid()
      modifies Footprint()
      ensures Valid() && old(all) <= all && (forall m | m in all :: m in old(all) || fresh(m))
      ensures msg !in old(held) && held == old(held) + {msg} && msg.buffer == bytes
      ensures Contents() == old(Contents())
    {
      msg := Acquire();
      Fill(msg, bytes);
    }

    // mona_usend_mem: the buffer it fills goes back to the cache, the one for the
    // ACK stays out.
    method UsendMem(header: Bytes, handle: Bytes, size: nat, offset: nat) returns (sent: Bytes, ghost ack: CachedMsg)
      requires Valid()
      modifies Footprint()
      ensures Valid() && old(all) <= all && (forall m | m in all :: m in old(all) || fresh(m))
      ensures sent == LargeMessage(header, handle, size, offset) && Contents() == old(Contents())
      ensures ack !in old(held) && held == old(held) + {ack}
    {
      ghost var box, mine := Contents(), held;
      var msg := Filled(LargeMessage(header, handle, size, offset));
      sent := msg.buffer;
      ack := Acquire();
      assert Contents() == box && held == mine + {msg} + {ack} && ack != msg;
      Release(msg);
    }

    // The message of either path, with the caller's buffer at hand for a small one.
    method Transmit(t: Transport, msg: CachedMsg, bufs: seq<Bytes>, handle: Bytes)
      returns (sent: Bytes, ghost ack: CachedMsg?)
      requires Valid() && msg in held
      modifies Footprint()
      ensures Valid() && old(all) <= all && (forall m | m in all :: m in old(all) || fresh(m))
      ensures sent == UnexpectedMessage(t, bufs, handle) && Contents() == old(Contents())
      ensures ack == null <==> UnexpectedIsSmall(t, |Concat(bufs)|)
      ensures if ack == null then held == old(held) else ack !in old(held) && held == old(held) + {ack}
    {
      var data := Concat(bufs);
      ack := null;
      if UnexpectedIsSmall(t, |data|) {
        Fill(msg, UnexpectedSmall(t.header, data));
        sent := msg.buffer;
      } else {
        sent, ack := UsendMem(t.header, handle, |data|, 0);
      }
    }

    // mona_usend_nc.
    method Usend(t: Transport, bufs: seq<Bytes>, handle: Bytes) returns (sent: Bytes, ghost ack: CachedMsg?)
      requires Valid()
      modifies Footprint()
      ensures Valid() && old(all) <= all && (forall m | m in all :: m in old(all) || fresh(m))
      ensures sent == UnexpectedMessage(t, bufs, handle) && Contents() == old(Contents())
      ensures ack == null <==> UnexpectedIsSmall(t, |Concat(bufs)|)
      ensures if ack == null then held == old(held) else ack !in old(held) && held == old(held) + {ack}
      ensures |t.header| < |sent| && sent[|t.header|] == if ack == null then 0 else 1
      ensures ack == null <==>
                && |t.header| + 1 + Total(Lengths(bufs)) <= t.maxSize
                && |t.header| + 1 + Total(Lengths(bufs)) <= t.threshold
    {
      UnexpectedPath(t, bufs, handle);
      var msg := Acquire();
      sent, ack := Transmit(t, msg, bufs, handle);
      Release(msg);
    }
  }

  // The earliest match, if there is one, is as long as its fields say.
  predicate FirstIntact(headerSize: nat, src: nat, tag: nat, box: seq<Envelope>) {
    var i := FirstMatch(src, tag, box);
    i < |box| ==> !ParseUnexpected(headerSize, box[i].bytes).Truncated?
  }

  lemma RemovedIntact(headerSize: nat, src: nat, tag: nat, box: seq<Envelope>, e: Envelope, left: seq<Envelope>)
    requires Removes(src, tag, box, e, left) && FirstIntact(headerSize, src, tag, box)
    ensures !ParseUnexpected(headerSize, e.bytes).Truncated?
  {
  }

  // What a receive of e does to the user's buffers, whether it succeeds, and the size
  // it reports if it does.
  predicate Delivered(headerSize: nat, memory: Memory, e: Envelope, olds: seq<Bytes>, news: seq<Bytes>,
                      ok: bool, size: nat)
  {
    var content := ParseUnexpected(headerSize, e.bytes);
    && !content.Truncated?
    && (ok <==> Readable(content, memory, Total(Lengths(olds))))
    && (ok ==> Received(news, size) == Receive(content, memory, olds, |e.bytes|))
  }

  // What a probe says about the earliest match.
  predicate Reports(headerSize: nat, src: nat, tag: nat, box: seq<Envelope>, size: nat, addr: nat, found: nat) {
    var i := FirstMatch(src, tag, box);
    i < |box| && addr == box[i].src && found == box[i].tag && size == ReportedSize(headerSize, box[i])
  }

  method SizeOf(headerSize: nat, buffer: Bytes, recvSize: nat) returns (size: nat)
    requires recvSize == |buffer| && !ParseUnexpected(headerSize, buffer).Truncated?
    ensures forall addr, found :: size == ReportedSize(headerSize, Envelope(addr, found, buffer))
  {
    var p := headerSize;
    size := recvSize;
    if buffer[p] == HL_MSG_SMALL {
      size := recvSize - (headerSize + 1);
    } else if buffer[p] == HL_MSG_LARGE {
      p := p + 1 + SIZE_BYTES;
      size := Decode(buffer[p..p + SIZE_BYTES]);
      assert buffer[headerSize + 1..][8..16] == buffer[p..p + 8];
    }
  }

  // All messages of some batches, in order.
  function Flatten(batches: seq<seq<Envelope>>): seq<Envelope> {
    if batches == [] then [] else Flatten(batches[..|batches| - 1]) + batches[|batches| - 1]
  }

  lemma FlattenNext(box: seq<Envelope>, batches: seq<seq<Envelope>>, i: nat)
    requires i < |batches|
    ensures box + Flatten(batches[..i]) + batches[i] == box + Flatten(batches[..i + 1])
  {
    assert batches[..i + 1][..i] == batches[..i];
  }

  // Flatten(batches) continues Flatten(batches[..i]).
  lemma {:induction false} FlattenPrefix(batches: seq<seq<Envelope>>, i: nat) returns (rest: seq<Envelope>)
    requires i <= |batches|
    ensures Flatten(batches) == Flatten(batches[..i]) + rest
    ensures i == |batches| ==> rest == []
    decreases |batches| - i
  {
    if i == |batches| {
      rest := [];
      assert batches[..i] == batches;
    } else {
      FlattenNext([], batches, i);
      rest := FlattenPrefix(batches, i + 1);
      assert [] + Flatten(batches[..i]) + batches[i] == Flatten(batches[..i]) + batches[i];
      assert (Flatten(batches[..i]) + batches[i]) + rest == Flatten(batches[..i]) + (batches[i] + rest);
      rest := batches[i] + rest;
    }
  }

  // What is known about all batches, for the first i of them.
  lemma BatchesLeft(headerSize: nat, src: nat, tag: nat, box: seq<Envelope>, batches: seq<seq<Envelope>>, i: nat)
    requires i <= |batches| && FirstIntact(headerSize, src, tag, box + Flatten(batches))
    requires FirstMatch(src, tag, box + Flatten(batches)) < |box + Flatten(batches)|
    ensures var now := box + Flatten(batches[..i]);
            FirstIntact(headerSize, src, tag, now) && (i == |batches| ==> FirstMatch(src, tag, now) < |now|)
  {
    var rest := FlattenPrefix(batches, i);
    var now := box + Flatten(batches[..i]);
    assert box + Flatten(batches) == now + rest;
    FirstMatchConcat(src, tag, now, rest);
  }

  lemma FirstMoves(q: seq<Envelope>, w: seq<Envelope>)
    requires w != []
    ensures q + [w[0]] + w[1..] == q + [] + w
  {
  }

  // While the queue has no match, a later message is on its way.
  lemma NoMoreToCome(src: nat, tag: nat, q: seq<Envelope>, f: seq<Envelope>, w: seq<Envelope>)
    ensures FirstMatch(src, tag, q + f + w) < |q + f + w| && FirstMatch(src, tag, q) == |q| ==> f != [] || w != []
  {
    DropEmpty(q, []);
  }

  lemma DropEmpty(a: seq<Envelope>, b: seq<Envelope>)
    ensures a + [] + b == a + b
  {
    assert a + [] == a;
  }

  lemma RemovesQueued(src: nat, tag: nat, q: seq<Envelope>, f: seq<Envelope>, w: seq<Envelope>)
    ensures var i := FirstMatch(src, tag, q);
            i < |q| ==> Removes(src, tag, q + f + w, q[i], Without(q, i) + f + w)
  {
    FirstMatchConcat(src, tag, q, f + w);
    assert q + f + w == q + (f + w);
  }

  // e was the earliest match in box, and left is what remains.
  predicate Removes(src: nat, tag: nat, box: seq<Envelope>, e: Envelope, left: seq<Envelope>) {
    var i := FirstMatch(src, tag, box);
    i < |box| && box[i] == e && left == Without(box, i)
  }

  lemma TakeOrQueue(src: nat, tag: nat, q: seq<Envelope>, e: Envelope, w: seq<Envelope>)
    requires FirstMatch(src, tag, q) == |q|
    ensures Matches(src, tag, e) ==> Removes(src, tag, q + [e] + w, e, q + [] + w)
    ensures !Matches(src, tag, e) ==> FirstMatch(src, tag, q + [e]) == |q + [e]|
    ensures (q + [e]) + [] + w == q + [e] + w
  {
    assert (q + [e]) + [] == q + [e];
    if Matches(src, tag, e) {
      FirstMatchUnique(src, tag, q + [e] + w, |q|);
    } else {
      FirstMatchUnique(src, tag, q + [e], |q| + 1);
    }
  }

  // ---------------------------------------------------------------------
  // Probe and receive agree.

  // If a probe reported the first match and more messages arrived since, a receive
  // with the same filter takes that very message, and if it succeeds with one buffer it
  // delivers as much of the reported size as fits. Of a message with another type byte
  // both report the size of the whole message.
  lemma ProbeAgrees(headerSize: nat, memory: Memory, src: nat, tag: nat, box: seq<Envelope>, later: seq<Envelope>,
                    size: nat, addr: nat, found: nat, e: Envelope, left: seq<Envelope>,
                    room: Bytes, news: seq<Bytes>, ok: bool, got: nat)
    requires Reports(headerSize, src, tag, box, size, addr, found)
    requires Removes(src, tag, box + later, e, left)
    requires Delivered(headerSize, memory, e, [room], news, ok, got)
    ensures e == box[FirstMatch(src, tag, box)] && e.src == addr && e.tag == found
    ensures left == Without(box, FirstMatch(src, tag, box)) + later
    ensures ok ==> got == if ParseUnexpected(headerSize, e.bytes).Other? then size else Min(size, |room|)
  {
    FirstMatchConcat(src, tag, box, later);
    assert Lengths([room]) == [|room|] && [|room|][..0] == [];
    assert Total([|room|]) == |room|;
  }

  // A receive into one buffer after more arrivals, when a match was there already.
  method ReceiveLater(inst: Instance, headerSize: nat, memory: Memory, src: nat, tag: nat, later: seq<Envelope>,
                      room: array<byte>)
    returns (ok: bool, got: nat, from: nat, with: nat, ghost e: Envelope)
    requires inst.Valid() && !inst.queueActive && FirstIntact(headerSize, src, tag, inst.Contents())
    requires FirstMatch(src, tag, inst.Contents()) < |inst.Contents()|
    modifies inst.Footprint(), room
    ensures Removes(src, tag, old(inst.Contents()) + later, e, inst.Contents())
    ensures ok ==> from == e.src && with == e.tag
    ensures Delivered(headerSize, memory, e, [old(room[..])], [room[..]], ok, got)
  {
    FirstMatchConcat(src, tag, inst.Contents(), later);
    inst.ArriveAll(later);
    assert Values([room]) == [room[..]];
    var blocked;
    ghost var at;
    blocked, ok, got, from, with, e, at := inst.Urecv(false, headerSize, memory, src, tag, [room]);
    assert Values([room]) == [room[..]];
  }

  method ProbeThenReceive(inst: Instance, progress: bool, headerSize: nat, memory: Memory, src: nat, tag: nat,
                          later: seq<Envelope>, room: array<byte>)
    returns (flag: bool, size: nat, addr: nat, found: nat, ok: bool, got: nat, from: nat, with: nat, ghost e: Envelope)
    requires inst.Valid() && !inst.queueActive && FirstIntact(headerSize, src, tag, inst.Contents())
    modifies inst.Footprint(), room
    ensures flag ==> addr == e.src && found == e.tag
    ensures flag ==> Removes(src, tag, old(inst.Contents()) + later, e, inst.Contents())
    ensures flag && ok ==> from == addr && with == found
    ensures flag && ok ==> got == if ParseUnexpected(headerSize, e.bytes).Other? then size else Min(size, room.Length)
  {
    ghost var box := inst.Contents();
    ghost var at;
    flag, size, addr, found, at := inst.Uiprobe(progress, headerSize, src, tag);
    ok, got, from, with, e := true, 0, 0, 0, Envelope(0, 0, []);
    if flag {
      ghost var olds := room[..];
      ok, got, from, with, e := ReceiveLater(inst, headerSize, memory, src, tag, later, room);
      ProbeAgrees(headerSize, memory, src, tag, box, later, size, addr, found, e, inst.Contents(),
                  olds, [room[..]], ok, got);
    }
  }
}
