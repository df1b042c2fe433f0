// Large messages between two processes: the sender exposes its memory, sends the
// handle and waits for an ACK; the receiver pulls the data and sends the ACK. Sends
// run in their own threads, and so do receives. Expected messages the other way share
// the tags of the ACKs.
module Rendezvous {
  import opened Basics

  // ---------------------------------------------------------------------
  // Tags.

  const TAG_SPAN: int := 0x1_0000_0000

  // na_tag_t
  type Tag = x: int | 0 <= x < 0x1_0000_0000

  // mona_send and mona_usend.
  datatype Kind = Expected | Unexpected

  datatype Large = Large(kind: Kind, tag: Tag)

  // An expected message with user tag t travels as 2t and its ACK as 2t + 1, both in
  // 32 bits; unexpected messages and their ACKs use t itself. ACKs are always expected
  // messages.
  function DataTag(m: Large): Tag { if m.kind.Expected? then (2 * m.tag) % TAG_SPAN else m.tag }

  function AckTag(m: Large): Tag { if m.kind.Expected? then (2 * m.tag + 1) % TAG_SPAN else m.tag }

  // What the tags are, up to a multiple of 2^32.
  lemma TagValues(t: Tag)
    ensures DataTag(Large(Unexpected, t)) == t == AckTag(Large(Unexpected, t))
    ensures var data, ack := DataTag(Large(Expected, t)), AckTag(Large(Expected, t));
            && (data == 2 * t || data == 2 * t - 0x1_0000_0000) && ack == data + 1
  {
    OddInSpan(t, t);
    DivModUnique(2 * t, TAG_SPAN, t / 0x8000_0000, 2 * (t % 0x8000_0000));
    DivModUnique(2 * t + 1, TAG_SPAN, t / 0x8000_0000, 2 * (t % 0x8000_0000) + 1);
  }

  lemma OddInSpan(t: Tag, u: Tag)
    ensures (2 * t + 1) % TAG_SPAN == (2 * u + 1) % TAG_SPAN <==> t % 0x8000_0000 == u % 0x8000_0000
  {
    DivModUnique(2 * t + 1, TAG_SPAN, t / 0x8000_0000, 2 * (t % 0x8000_0000) + 1);
    DivModUnique(2 * u + 1, TAG_SPAN, u / 0x8000_0000, 2 * (u % 0x8000_0000) + 1);
  }

  // When two large messages wait for an ACK under the same NA tag.
  lemma SameAckTagIff(a: Large, b: Large)
    ensures AckTag(a) == AckTag(b) <==>
              if a.kind == b.kind
              then (if a.kind.Expected? then a.tag % 0x8000_0000 == b.tag % 0x8000_0000 else a.tag == b.tag)
              else var (e, u) := if a.kind.Expected? then (a, b) else (b, a);
                   u.tag == (2 * e.tag + 1) % TAG_SPAN
  {
    OddInSpan(a.tag, b.tag);
  }

  // The largest tag users may pass, from the largest one NA takes.
  function MaxTag(naMax: Tag): nat
    requires naMax >= 2
  {
    naMax / 2 - 1
  }

  // A tag is within the bound exactly if twice the next one is a tag NA takes.
  lemma MaxTagIff(naMax: Tag, t: nat)
    requires naMax >= 2
    ensures t <= MaxTag(naMax) <==> 2 * (t + 1) <= naMax
  {
  }

  // Up to that bound nothing wraps, both tags are in NA's range, and no two of all the
  // data and ACK tags of expected messages are equal.
  lemma TagsSeparate(naMax: Tag, a: Large, b: Large)
    requires 2 <= naMax && a.kind.Expected? && b.kind.Expected? && a.tag <= MaxTag(naMax) && b.tag <= MaxTag(naMax)
    ensures DataTag(a) == 2 * a.tag && AckTag(a) == 2 * a.tag + 1 <= naMax
    ensures DataTag(a) != AckTag(b)
    ensures a.tag != b.tag ==> DataTag(a) != DataTag(b) && AckTag(a) != AckTag(b)
  {
  }

  // ---------------------------------------------------------------------
  // The machine.

  // Registered: memory exposed. Listening: the receive for the ACK is posted. Sent:
  // the handle is on its way. Acked: an ACK completed the receive. Done: memory
  // deregistered, the send has returned.
  datatype Send = Fresh | Registered | Listening | Sent | Acked | Done

  // Popped: a receive has the handle and is about to pull. Pulled: it has the data.
  datatype Recv = Unseen | Popped | Pulled | AckSent

  datatype Item = Eager | Handle(send: nat)

  datatype Channel = Channel(kind: Kind, tag: Tag)

  // An expected message to the sender: the ACK of a send, or one of the user's.
  datatype Back = Ack(send: nat) | User

  // send[i] and recv[i] are the two ends of the i-th large message. data holds the
  // messages on their way to the receiver. acks and posted hold, by NA tag, the expected
  // messages on their way back and the sends waiting for an ACK, in the order in which
  // they posted their receives. Which send an ACK is for is not in the message: NA gives
  // whatever arrives to the receive posted first. The model remembers it to state what
  // goes wrong. back holds the NA tags of the user's messages the other way.
  datatype State = State(send: seq<Send>, recv: seq<Recv>, data: map<Channel, seq<Item>>,
                         acks: map<Tag, seq<Back>>, posted: map<Tag, seq<nat>>, back: set<Tag>)

  function ChannelOf(m: Large): Channel { Channel(m.kind, DataTag(m)) }

  function InFlight(s: State, c: Channel): seq<Item> { if c in s.data then s.data[c] else [] }

  function At<T>(m: map<Tag, seq<T>>, x: Tag): seq<T> { if x in m then m[x] else [] }

  // A receive may take any message of a channel: threads that receive at the same
  // time may overtake each other. SendBack and TakeBack are the two ends of a message
  // of the user the other way; its receive takes whatever comes first with its tag.
  datatype Step =
    | Register(i: nat)
    | PostAck(i: nat)
    | SendHandle(i: nat)
    | Deregister(i: nat)
    | SendEager(c: Channel)
    | Receive(c: Channel, k: nat)
    | Pull(i: nat)
    | SendAck(i: nat)
    | AckArrives(x: Tag)
    | SendBack(x: Tag)
    | TakeBack(x: Tag)

  predicate Shape(ms: seq<Large>, s: State) { |s.send| == |s.recv| == |ms| }

  predicate Enabled(ms: seq<Large>, s: State, step: Step)
    requires Shape(ms, s)
  {
    match step
    case Register(i) => i < |ms| && s.send[i].Fresh?
    case PostAck(i) => i < |ms| && s.send[i].Registered?
    case SendHandle(i) => i < |ms| && s.send[i].Listening?
    case Deregister(i) => i < |ms| && s.send[i].Acked?
    case SendEager(_) => true
    case Receive(c, k) => k < |InFlight(s, c)|
    case Pull(i) => i < |ms| && s.recv[i].Popped?
    case SendAck(i) => i < |ms| && s.recv[i].Pulled?
    case AckArrives(x) => At(s.acks, x) != [] && At(s.posted, x) != [] && At(s.posted, x)[0] < |ms|
    case SendBack(x) => x in s.back
    case TakeBack(x) => x in s.back && At(s.acks, x) != []
  }

  function Drop(q: seq<Item>, k: nat): seq<Item>
    requires k < |q|
  {
    q[..k] + q[k + 1..]
  }

  function Next(ms: seq<Large>, s: State, step: Step): (s': State)
    requires Shape(ms, s) && Enabled(ms, s, step)
    ensures Shape(ms, s')
  {
    match step
    case Register(i) => s.(send := s.send[i := Registered])
    case PostAck(i) =>
      var x := AckTag(ms[i]);
      s.(send := s.send[i := Listening], posted := s.posted[x := At(s.posted, x) + [i]])
    case SendHandle(i) =>
      var c := ChannelOf(ms[i]);
      s.(send := s.send[i := Sent], data := s.data[c := InFlight(s, c) + [Handle(i)]])
    case Deregister(i) => s.(send := s.send[i := Done])
    case SendEager(c) => s.(data := s.data[c := InFlight(s, c) + [Eager]])
    case Receive(c, k) =>
      var q := InFlight(s, c);
      s.(data := s.data[c := Drop(q, k)],
         recv := if q[k].Handle? && q[k].send < |ms| then s.recv[q[k].send := Popped] else s.recv)
    case Pull(i) => s.(recv := s.recv[i := Pulled])
    case SendAck(i) =>
      var x := AckTag(ms[i]);
      s.(recv := s.recv[i := AckSent], acks := s.acks[x := At(s.acks, x) + [Ack(i)]])
    case AckArrives(x) =>
      var a, w := At(s.acks, x), At(s.posted, x);
      s.(send := s.send[w[0] := Acked], acks := s.acks[x := a[1..]], posted := s.posted[x := w[1..]])
    case SendBack(x) => s.(acks := s.acks[x := At(s.acks, x) + [User]])
    case TakeBack(x) => s.(acks := s.acks[x := At(s.acks, x)[1..]])
  }

  function Initial(ms: seq<Large>, back: set<Tag>): State {
    State(seq(|ms|, _ => Fresh), seq(|ms|, _ => Unseen), map[], map[], map[], back)
  }

  function Run(ms: seq<Large>, back: set<Tag>, steps: seq<Step>): (end: Option<State>)
    ensures end.Some? ==> Shape(ms, end.value) && end.value.back == back
  {
    if steps == [] then Some(Initial(ms, back))
    else
      match Run(ms, back, steps[..|steps| - 1])
      case None => None
      case Some(s) =>
        if Enabled(ms, s, steps[|steps| - 1]) then Some(Next(ms, s, steps[|steps| - 1])) else None
  }

  // ---------------------------------------------------------------------
  // Safety.

  predicate IsRegistered(p: Send) { p.Registered? || p.Listening? || p.Sent? || p.Acked? }

  // Data is pulled only from registered memory, and no send completes before that.
  ghost predicate Safe(ms: seq<Large>, s: State)
    requires Shape(ms, s)
  {
    forall i | 0 <= i < |ms| ::
      && (s.recv[i].Popped? ==> IsRegistered(s.send[i]))
      && (s.send[i].Acked? || s.send[i].Done? ==> s.recv[i].Pulled? || s.recv[i].AckSent?)
  }

  // Another large send whose ACK has the same NA tag has not returned yet.
  ghost predicate Overlaps(ms: seq<Large>, s: State, i: nat)
    requires Shape(ms, s) && i < |ms|
  {
    exists j :: 0 <= j < |ms| && j != i && AckTag(ms[j]) == AckTag(ms[i]) && IsRegistered(s.send[j])
  }

  // At most one large message per ACK tag at any time.
  ghost predicate OnePerTag(ms: seq<Large>, back: set<Tag>, steps: seq<Step>)
    requires Run(ms, back, steps).Some?
  {
    steps == [] ||
    var before, last := steps[..|steps| - 1], steps[|steps| - 1];
    OnePerTag(ms, back, before) && (last.Register? ==> !Overlaps(ms, Run(ms, back, before).value, last.i))
  }

  // No message of the user the other way has the tag of an ACK.
  ghost predicate AcksApart(ms: seq<Large>, back: set<Tag>) {
    forall i | 0 <= i < |ms| :: AckTag(ms[i]) !in back
  }

  // Handles appear once, and those of sends whose handle nobody has received.
  ghost predicate DataOk(ms: seq<Large>, s: State)
    requires Shape(ms, s)
  {
    && (forall c | c in s.data :: Once(s.data[c]))
    && (forall c, item | c in s.data && item in s.data[c] :: ItemOk(ms, s.send, s.recv, c, item))
  }

  ghost predicate Once(q: seq<Item>) {
    forall j, k | 0 <= j < k < |q| :: q[j] != q[k] || q[j].Eager?
  }

  ghost predicate ItemOk(ms: seq<Large>, send: seq<Send>, recv: seq<Recv>, c: Channel, item: Item)
    requires |send| == |recv| == |ms|
  {
    item.Handle? ==>
      item.send < |ms| && c == ChannelOf(ms[item.send]) && send[item.send].Sent? && recv[item.send].Unseen?
  }

  ghost predicate NoRepeats(xs: seq<nat>) { forall j, k | 0 <= j < k < |xs| :: xs[j] != xs[k] }

  // What travels back under NA tag x: each ACK once, and only ACKs under their tags.
  ghost predicate AcksOk(ms: seq<Large>, send: seq<Send>, recv: seq<Recv>, back: set<Tag>, x: Tag, a: seq<Back>)
    requires |send| == |recv| == |ms|
  {
    && (x !in back ==> User !in a)
    && (forall j, k | 0 <= j < k < |a| :: a[j] != a[k] || a[j].User?)
    && (forall item | item in a :: AckOk(ms, send, recv, x, item))
  }

  ghost predicate AckOk(ms: seq<Large>, send: seq<Send>, recv: seq<Recv>, x: Tag, item: Back)
    requires |send| == |recv| == |ms|
  {
    item.Ack? ==>
      item.send < |ms| && AckTag(ms[item.send]) == x && send[item.send].Sent? && recv[item.send].AckSent?
  }

  // The sends waiting for an ACK under NA tag x.
  ghost predicate WaitersOk(ms: seq<Large>, send: seq<Send>, x: Tag, w: seq<nat>)
    requires |send| == |ms|
  {
    && NoRepeats(w)
    && (forall k | 0 <= k < |w| :: w[k] < |ms| && AckTag(ms[w[k]]) == x && (send[w[k]].Listening? || send[w[k]].Sent?))
  }

  ghost predicate BackOk(ms: seq<Large>, s: State)
    requires Shape(ms, s)
  {
    && (forall x | x in s.acks :: AcksOk(ms, s.send, s.recv, s.back, x, s.acks[x]))
    && (forall x | x in s.posted :: WaitersOk(ms, s.send, x, s.posted[x]))
    && (forall i | 0 <= i < |ms| && (s.send[i].Listening? || s.send[i].Sent?) :: i in At(s.posted, AckTag(ms[i])))
  }

  ghost predicate EndsOk(ms: seq<Large>, s: State)
    requires Shape(ms, s)
  {
    && (forall i | 0 <= i < |ms| && !s.recv[i].Unseen? :: s.send[i].Sent? || s.send[i].Acked? || s.send[i].Done?)
    && (forall i | 0 <= i < |ms| && (s.send[i].Acked? || s.send[i].Done?) :: s.recv[i].AckSent?)
    && (forall i, j | 0 <= i < j < |ms| && IsRegistered(s.send[i]) && IsRegistered(s.send[j]) ::
          AckTag(ms[i]) != AckTag(ms[j]))
  }

  ghost predicate Inv(ms: seq<Large>, s: State) {
    Shape(ms, s) && AcksApart(ms, s.back) && DataOk(ms, s) && BackOk(ms, s) && EndsOk(ms, s)
  }

  // ---------------------------------------------------------------------
  // Each part of the invariant under the change of one send or channel.

  lemma OnceAppend(q: seq<Item>, item: Item)
    requires Once(q) && (item.Eager? || item !in q)
    ensures Once(q + [item])
    ensures forall x | x in q + [item] :: x in q || x == item
  {
  }

  lemma OnceDrop(q: seq<Item>, k: nat)
    requires Once(q) && k < |q|
    ensures Once(Drop(q, k)) && forall x | x in Drop(q, k) :: x in q && (x.Eager? || x != q[k])
  {
  }

  // Nothing in flight speaks of a send that has not sent.
  lemma DataUntouched(ms: seq<Large>, s: State, i: nat, p: Send)
    requires Shape(ms, s) && DataOk(ms, s) && i < |ms| && !s.send[i].Sent?
    ensures forall c, item | c in s.data && item in s.data[c] ::
              ItemOk(ms, s.send[i := p], s.recv, c, item) && item != Handle(i)
  {
  }

  lemma AcksUntouched(ms: seq<Large>, s: State, i: nat, p: Send)
    requires Shape(ms, s) && BackOk(ms, s) && i < |ms| && !s.send[i].Sent?
    ensures forall x | x in s.acks :: AcksOk(ms, s.send[i := p], s.recv, s.back, x, s.acks[x])
  {
  }

  // A change of one send does not concern what waits under other tags.
  lemma WaitersOther(ms: seq<Large>, send: seq<Send>, x: Tag, w: seq<nat>, i: nat, p: Send)
    requires |send| == |ms| && i < |ms| && WaitersOk(ms, send, x, w)
    requires AckTag(ms[i]) != x || (!send[i].Listening? && !send[i].Sent?)
    ensures WaitersOk(ms, send[i := p], x, w)
  {
  }

  lemma WaitersAppend(ms: seq<Large>, send: seq<Send>, w: seq<nat>, i: nat)
    requires |send| == |ms| && i < |ms| && WaitersOk(ms, send, AckTag(ms[i]), w) && send[i].Registered?
    ensures WaitersOk(ms, send[i := Listening], AckTag(ms[i]), w + [i])
    ensures i in w + [i] && forall j | j in w :: j in w + [i]
  {
    assert (w + [i])[|w|] == i;
  }

  lemma OneRegistered(ms: seq<Large>, s: State, i: nat, j: nat)
    requires Shape(ms, s) && EndsOk(ms, s) && i < |ms| && j < |ms| && AckTag(ms[i]) == AckTag(ms[j])
    requires IsRegistered(s.send[i]) && IsRegistered(s.send[j])
    ensures i == j
  {
  }

  // ---------------------------------------------------------------------
  // Every step keeps the invariant.

  lemma InvRegister(ms: seq<Large>, s: State, step: Step)
    requires Inv(ms, s) && Enabled(ms, s, step) && step.Register? && !Overlaps(ms, s, step.i)
    ensures Inv(ms, Next(ms, s, step))
  {
    DataUntouched(ms, s, step.i, Registered);
    AcksUntouched(ms, s, step.i, Registered);
    forall x | x in s.posted ensures WaitersOk(ms, Next(ms, s, step).send, x, s.posted[x]) {
      WaitersOther(ms, s.send, x, s.posted[x], step.i, Registered);
    }
  }

  lemma InvPostAck(ms: seq<Large>, s: State, step: Step)
    requires Inv(ms, s) && Enabled(ms, s, step) && step.PostAck?
    ensures Inv(ms, Next(ms, s, step))
  {
    var s', x := Next(ms, s, step), AckTag(ms[step.i]);
    DataUntouched(ms, s, step.i, Listening);
    AcksUntouched(ms, s, step.i, Listening);
    WaitersAppend(ms, s.send, At(s.posted, x), step.i);
    forall y | y in s'.posted ensures WaitersOk(ms, s'.send, y, s'.posted[y]) {
      if y != x {
        WaitersOther(ms, s.send, y, s.posted[y], step.i, Listening);
      }
    }
  }

  lemma WaitersSent(ms: seq<Large>, send: seq<Send>, x: Tag, w: seq<nat>, i: nat)
    requires |send| == |ms| && i < |ms| && WaitersOk(ms, send, x, w)
    ensures WaitersOk(ms, send[i := Sent], x, w)
  {
  }

  lemma InvSendHandle(ms: seq<Large>, s: State, step: Step)
    requires Inv(ms, s) && Enabled(ms, s, step) && step.SendHandle?
    ensures Inv(ms, Next(ms, s, step))
  {
    var c := ChannelOf(ms[step.i]);
    DataUntouched(ms, s, step.i, Sent);
    AcksUntouched(ms, s, step.i, Sent);
    OnceAppend(InFlight(s, c), Handle(step.i));
    forall x | x in s.posted ensures WaitersOk(ms, Next(ms, s, step).send, x, s.posted[x]) {
      WaitersSent(ms, s.send, x, s.posted[x], step.i);
    }
  }

  lemma InvDeregister(ms: seq<Large>, s: State, step: Step)
    requires Inv(ms, s) && Enabled(ms, s, step) && step.Deregister?
    ensures Inv(ms, Next(ms, s, step))
  {
    DataUntouched(ms, s, step.i, Done);
    AcksUntouched(ms, s, step.i, Done);
    forall x | x in s.posted ensures WaitersOk(ms, Next(ms, s, step).send, x, s.posted[x]) {
      WaitersOther(ms, s.send, x, s.posted[x], step.i, Done);
    }
  }

  lemma InvSendEager(ms: seq<Large>, s: State, step: Step)
    requires Inv(ms, s) && Enabled(ms, s, step) && step.SendEager?
    ensures Inv(ms, Next(ms, s, step))
  {
    OnceAppend(InFlight(s, step.c), Eager);
  }

  // A receive of handle i changes nothing for what is left.
  lemma DataAfterReceive(ms: seq<Large>, s: State, c: Channel, k: nat, recv: seq<Recv>)
    requires Shape(ms, s) && DataOk(ms, s) && k < |InFlight(s, c)| && |recv| == |ms|
    requires forall i | 0 <= i < |ms| && InFlight(s, c)[k] != Handle(i) :: recv[i] == s.recv[i]
    ensures var data := s.data[c := Drop(InFlight(s, c), k)];
            && (forall d | d in data :: Once(data[d]))
            && (forall d, item | d in data && item in data[d] :: ItemOk(ms, s.send, recv, d, item))
  {
    var q := InFlight(s, c);
    var data := s.data[c := Drop(q, k)];
    OnceDrop(q, k);
    assert q[k] in s.data[c] && ItemOk(ms, s.send, s.recv, c, q[k]);
    forall d, item | d in data && item in data[d] ensures ItemOk(ms, s.send, recv, d, item) {
      assert item in s.data[d] && ItemOk(ms, s.send, s.recv, d, item);
    }
  }

  lemma InvReceive(ms: seq<Large>, s: State, step: Step)
    requires Inv(ms, s) && Enabled(ms, s, step) && step.Receive?
    ensures Inv(ms, Next(ms, s, step))
  {
    var q := InFlight(s, step.c);
    assert q[step.k] in s.data[step.c] && ItemOk(ms, s.send, s.recv, step.c, q[step.k]);
    DataAfterReceive(ms, s, step.c, step.k, Next(ms, s, step).recv);
  }

  lemma InvPull(ms: seq<Large>, s: State, step: Step)
    requires Inv(ms, s) && Enabled(ms, s, step) && step.Pull?
    ensures Inv(ms, Next(ms, s, step))
  {
  }

  lemma InvSendAck(ms: seq<Large>, s: State, step: Step)
    requires Inv(ms, s) && Enabled(ms, s, step) && step.SendAck?
    ensures Inv(ms, Next(ms, s, step))
  {
    var x := AckTag(ms[step.i]);
    assert Ack(step.i) !in At(s.acks, x);
    assert s.send[step.i].Sent?;
  }

  lemma InvBack(ms: seq<Large>, s: State, step: Step)
    requires Inv(ms, s) && Enabled(ms, s, step) && (step.SendBack? || step.TakeBack?)
    ensures Inv(ms, Next(ms, s, step))
  {
  }

  // The receive posted first is the one the ACK is for.
  lemma AckFindsItsSend(ms: seq<Large>, s: State, x: Tag)
    requires Inv(ms, s) && Enabled(ms, s, AckArrives(x))
    ensures At(s.acks, x)[0] == Ack(At(s.posted, x)[0])
    ensures At(s.posted, x)[0] < |ms| && s.send[At(s.posted, x)[0]].Sent? && s.recv[At(s.posted, x)[0]].AckSent?
    ensures At(s.acks, x)[1..] == [] && At(s.posted, x)[1..] == []
  {
    var a, w := s.acks[x], s.posted[x];
    assert AcksOk(ms, s.send, s.recv, s.back, x, a) && WaitersOk(ms, s.send, x, w);
    assert x !in s.back && a[0] in a && AckOk(ms, s.send, s.recv, x, a[0]);
    OneRegistered(ms, s, a[0].send, w[0]);
    if |w| > 1 {
      OneRegistered(ms, s, w[0], w[1]);
    }
    if |a| > 1 {
      assert a[1] in a && AckOk(ms, s.send, s.recv, x, a[1]);
      OneRegistered(ms, s, a[0].send, a[1].send);
    }
  }

  lemma AcksOther(ms: seq<Large>, s: State, x: Tag, i: nat, p: Send)
    requires Shape(ms, s) && BackOk(ms, s) && i < |ms| && AckTag(ms[i]) != x && x in s.acks
    ensures AcksOk(ms, s.send[i := p], s.recv, s.back, x, s.acks[x])
  {
  }

  lemma PostedOther(ms: seq<Large>, s: State, x: Tag, j: nat)
    requires Inv(ms, s) && Enabled(ms, s, AckArrives(x)) && j < |ms|
    requires j != At(s.posted, x)[0] && (s.send[j].Listening? || s.send[j].Sent?)
    ensures AckTag(ms[j]) != x && j in At(s.posted, AckTag(ms[j]))
  {
    AckFindsItsSend(ms, s, x);
    if AckTag(ms[j]) == x {
      OneRegistered(ms, s, j, At(s.posted, x)[0]);
    }
  }

  lemma InvAckArrives(ms: seq<Large>, s: State, step: Step)
    requires Inv(ms, s) && Enabled(ms, s, step) && step.AckArrives?
    ensures Inv(ms, Next(ms, s, step))
  {
    var s', i := Next(ms, s, step), At(s.posted, step.x)[0];
    AckFindsItsSend(ms, s, step.x);
    assert AckTag(ms[i]) == step.x;
    forall y | y in s'.posted ensures WaitersOk(ms, s'.send, y, s'.posted[y]) {
      if y != step.x {
        WaitersOther(ms, s.send, y, s.posted[y], i, Acked);
      }
    }
    forall y | y in s'.acks ensures AcksOk(ms, s'.send, s'.recv, s'.back, y, s'.acks[y]) {
      if y != step.x {
        AcksOther(ms, s, y, i, Acked);
      }
    }
    forall j | 0 <= j < |ms| && (s'.send[j].Listening? || s'.send[j].Sent?) ensures j in At(s'.posted, AckTag(ms[j])) {
      PostedOther(ms, s, step.x, j);
    }
  }

  lemma InvStep(ms: seq<Large>, s: State, step: Step)
    requires Inv(ms, s) && Enabled(ms, s, step)
    requires step.Register? ==> !Overlaps(ms, s, step.i)
    ensures Inv(ms, Next(ms, s, step))
  {
    match step
    case Register(_) => InvRegister(ms, s, step);
    case PostAck(_) => InvPostAck(ms, s, step);
    case SendHandle(_) => InvSendHandle(ms, s, step);
    case Deregister(_) => InvDeregister(ms, s, step);
    case SendEager(_) => InvSendEager(ms, s, step);
    case Receive(_, _) => InvReceive(ms, s, step);
    case Pull(_) => InvPull(ms, s, step);
    case SendAck(_) => InvSendAck(ms, s, step);
    case AckArrives(_) => InvAckArrives(ms, s, step);
    case SendBack(_) => InvBack(ms, s, step);
    case TakeBack(_) => InvBack(ms, s, step);
  }

  lemma {:induction false} InvRun(ms: seq<Large>, back: set<Tag>, steps: seq<Step>)
    requires Run(ms, back, steps).Some? && OnePerTag(ms, back, steps) && AcksApart(ms, back)
    ensures Inv(ms, Run(ms, back, steps).value)
  {
    if steps != [] {
      var before := steps[..|steps| - 1];
      InvRun(ms, back, before);
      InvStep(ms, Run(ms, back, before).value, steps[|steps| - 1]);
    }
  }

  // With at most one large message per ACK tag at a time, and no other message the other
  // way under an ACK tag, whatever else travels and in whatever order it is received,
  // memory is registered whenever it is pulled and a send returns only after.
  lemma OnePerTagIsSafe(ms: seq<Large>, back: set<Tag>, steps: seq<Step>)
    requires Run(ms, back, steps).Some? && OnePerTag(ms, back, steps) && AcksApart(ms, back)
    ensures Safe(ms, Run(ms, back, steps).value)
    ensures var s := Run(ms, back, steps).value;
            forall i | 0 <= i < |ms| ::
              && (s.recv[i].Popped? ==> !s.send[i].Fresh? && !s.send[i].Done?)
              && (s.send[i].Acked? || s.send[i].Done? ==> s.recv[i].Pulled? || s.recv[i].AckSent?)
  {
    InvRun(ms, back, steps);
  }

  // ---------------------------------------------------------------------
  // Large messages left to overlap freely.

  lemma Then(ms: seq<Large>, back: set<Tag>, steps: seq<Step>, step: Step, s: State)
    returns (longer: seq<Step>, s': State)
    requires Run(ms, back, steps) == Some(s) && Enabled(ms, s, step)
    ensures s' == Next(ms, s, step) && Run(ms, back, longer) == Some(s')
  {
    longer, s' := steps + [step], Next(ms, s, step);
    assert longer[..|longer| - 1] == steps;
  }

  // Two sends post their ACK receives in one order ...
  lemma BothListening(ms: seq<Large>, back: set<Tag>, i: nat, j: nat) returns (steps: seq<Step>, s: State)
    requires i < |ms| && j < |ms| && i != j && AckTag(ms[i]) == AckTag(ms[j])
    ensures Run(ms, back, steps) == Some(s) && |s.send| == |s.recv| == |ms|
    ensures s.send[i].Listening? && s.send[j].Listening? && s.recv[i].Unseen? && s.recv[j].Unseen?
    ensures s.data == map[] && s.acks == map[] && At(s.posted, AckTag(ms[i])) == [i, j]
  {
    steps, s := [], Initial(ms, back);
    steps, s := Then(ms, back, steps, Register(i), s);
    steps, s := Then(ms, back, steps, Register(j), s);
    steps, s := Then(ms, back, steps, PostAck(i), s);
    steps, s := Then(ms, back, steps, PostAck(j), s);
  }

  // ... and send in the other.
  lemma SentInOtherOrder(ms: seq<Large>, back: set<Tag>, i: nat, j: nat) returns (steps: seq<Step>, s: State)
    requires i < |ms| && j < |ms| && i != j && AckTag(ms[i]) == AckTag(ms[j])
    ensures Run(ms, back, steps) == Some(s) && |s.send| == |s.recv| == |ms|
    ensures s.send[i].Sent? && s.send[j].Sent? && s.recv[i].Unseen? && s.recv[j].Popped?
    ensures InFlight(s, ChannelOf(ms[i])) == [Handle(i)] && s.acks == map[] && At(s.posted, AckTag(ms[i])) == [i, j]
  {
    steps, s := BothListening(ms, back, i, j);
    steps, s := Then(ms, back, steps, SendHandle(j), s);
    steps, s := Then(ms, back, steps, Receive(ChannelOf(ms[j]), 0), s);
    assert InFlight(s, ChannelOf(ms[j])) == [] && InFlight(s, ChannelOf(ms[i])) == [];
    steps, s := Then(ms, back, steps, SendHandle(i), s);
  }

  // The ACK of the second then completes the first, which returns; the receiver goes
  // on to pull from memory that is no longer registered.
  lemma PulledAfterReturn(ms: seq<Large>, back: set<Tag>, i: nat, j: nat) returns (steps: seq<Step>, s: State)
    requires i < |ms| && j < |ms| && i != j && AckTag(ms[i]) == AckTag(ms[j])
    ensures Run(ms, back, steps) == Some(s) && |s.send| == |s.recv| == |ms|
    ensures s.send[i].Done? && s.recv[i].Popped? && s.send[j].Sent? && s.recv[j].AckSent?
  {
    steps, s := SentInOtherOrder(ms, back, i, j);
    steps, s := Then(ms, back, steps, Pull(j), s);
    steps, s := Then(ms, back, steps, SendAck(j), s);
    steps, s := Then(ms, back, steps, AckArrives(AckTag(ms[i])), s);
    steps, s := Then(ms, back, steps, Deregister(i), s);
    steps, s := Then(ms, back, steps, Receive(ChannelOf(ms[i]), 0), s);
  }

  // A message of the user the other way with the tag of an ACK does the same to a single
  // large send.
  lemma TakenForAck(ms: seq<Large>, back: set<Tag>, i: nat) returns (steps: seq<Step>, s: State)
    requires i < |ms| && AckTag(ms[i]) in back
    ensures Run(ms, back, steps) == Some(s) && |s.send| == |s.recv| == |ms|
    ensures s.send[i].Done? && s.recv[i].Popped?
  {
    var x := AckTag(ms[i]);
    steps, s := [], Initial(ms, back);
    steps, s := Then(ms, back, steps, Register(i), s);
    steps, s := Then(ms, back, steps, PostAck(i), s);
    steps, s := Then(ms, back, steps, SendBack(x), s);
    steps, s := Then(ms, back, steps, SendHandle(i), s);
    steps, s := Then(ms, back, steps, AckArrives(x), s);
    steps, s := Then(ms, back, steps, Deregister(i), s);
    steps, s := Then(ms, back, steps, Receive(ChannelOf(ms[i]), 0), s);
  }

  ghost predicate AlwaysSafe(ms: seq<Large>, back: set<Tag>) {
    forall steps | Run(ms, back, steps).Some? :: Safe(ms, Run(ms, back, steps).value)
  }

  ghost predicate AckTagsDiffer(ms: seq<Large>) {
    forall i, j | 0 <= i < j < |ms| :: AckTag(ms[i]) != AckTag(ms[j])
  }

  // Large messages to one peer, expected and unexpected, may overlap freely exactly
  // when no two of their ACK tags are equal (see SameAckTagIff) and none is the tag of an
  // expected message the other way.
  lemma SafeIffAckTagsDiffer(ms: seq<Large>, back: set<Tag>)
    ensures AlwaysSafe(ms, back) <==> AckTagsDiffer(ms) && AcksApart(ms, back)
    ensures AckTagsDiffer(ms) && AcksApart(ms, back) ==>
              forall steps, i: nat | Run(ms, back, steps).Some? && i < |ms| ::
                var s := Run(ms, back, steps).value;
                && (s.recv[i].Popped? ==> !s.send[i].Fresh? && !s.send[i].Done?)
                && (s.send[i].Acked? || s.send[i].Done? ==> s.recv[i].Pulled? || s.recv[i].AckSent?)
  {
    if i, j :| 0 <= i < j < |ms| && AckTag(ms[i]) == AckTag(ms[j]) {
      var steps, s := PulledAfterReturn(ms, back, i, j);
      assert !Safe(ms, Run(ms, back, steps).value);
    } else if i :| 0 <= i < |ms| && AckTag(ms[i]) in back {
      var steps, s := TakenForAck(ms, back, i);
      assert !Safe(ms, Run(ms, back, steps).value);
    } else {
      forall steps | Run(ms, back, steps).Some?
        ensures var s := Run(ms, back, steps).value;
                Safe(ms, s) && forall i: nat | i < |ms| ::
                  && (s.recv[i].Popped? ==> !s.send[i].Fresh? && !s.send[i].Done?)
                  && (s.send[i].Acked? || s.send[i].Done? ==> s.recv[i].Pulled? || s.recv[i].AckSent?)
      {
        DistinctIsOnePerTag(ms, back, steps);
        OnePerTagIsSafe(ms, back, steps);
      }
    }
  }

  lemma {:induction false} DistinctIsOnePerTag(ms: seq<Large>, back: set<Tag>, steps: seq<Step>)
    requires Run(ms, back, steps).Some? && AckTagsDiffer(ms)
    ensures OnePerTag(ms, back, steps)
  {
    if steps != [] {
      DistinctIsOnePerTag(ms, back, steps[..|steps| - 1]);
    }
  }

  // Expected messages in both directions whose tags are within the announced bound may
  // overlap freely exactly when the tags of the large ones differ.
  lemma SafeIffTagsDiffer(naMax: Tag, ms: seq<Large>, back: set<Tag>)
    requires 2 <= naMax && forall i | 0 <= i < |ms| :: ms[i].kind.Expected? && ms[i].tag <= MaxTag(naMax)
    requires forall x | x in back :: exists t: Tag :: t <= MaxTag(naMax) && x == DataTag(Large(Expected, t))
    ensures AlwaysSafe(ms, back) <==> forall i, j | 0 <= i < j < |ms| :: ms[i].tag != ms[j].tag
  {
    SafeIffAckTagsDiffer(ms, back);
    forall i, j | 0 <= i < j < |ms| ensures AckTag(ms[i]) == AckTag(ms[j]) <==> ms[i].tag == ms[j].tag {
      TagsSeparate(naMax, ms[i], ms[j]);
    }
    forall i | 0 <= i < |ms| ensures AckTag(ms[i]) !in back {
      if AckTag(ms[i]) in back {
        var t: Tag :| t <= MaxTag(naMax) && AckTag(ms[i]) == DataTag(Large(Expected, t));
        TagsSeparate(naMax, Large(Expected, t), ms[i]);
      }
    }
  }

  // Beyond it different tags may collide: 0 and 2^31 have the same tags in 32 bits.
  lemma TagsWrap()
    ensures var ms := [Large(Expected, 0), Large(Expected, 0x8000_0000)];
            DataTag(ms[0]) == DataTag(ms[1]) && AckTag(ms[0]) == AckTag(ms[1]) && !AlwaysSafe(ms, {})
  {
    SafeIffAckTagsDiffer([Large(Expected, 0), Large(Expected, 0x8000_0000)], {});
  }

  // An unexpected send with an even tag is not safe beside an expected message the other
  // way with half that tag.
  lemma HalfTagCollides(t: Tag)
    requires 2 * t < TAG_SPAN
    ensures !AlwaysSafe([Large(Unexpected, 2 * t)], {DataTag(Large(Expected, t))})
  {
    var ms := [Large(Unexpected, 2 * t)];
    SafeIffAckTagsDiffer(ms, {DataTag(Large(Expected, t))});
    assert AckTag(ms[0]) in {DataTag(Large(Expected, t))};
  }
}
