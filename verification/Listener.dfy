// Any number of threads receiving and probing at once. One step is one critical
// section of pending_msg_mtx, or one action outside it.
module Listener {
  import opened Basics
  import opened Mailbox

  // A message with its place in the order of arrival.
  datatype Msg = Msg(id: nat, env: Envelope)

  datatype Call = Call(probe: bool, src: nat, tag: nat)

  // Start: about to lock and search. Waiting: on the condition variable. Woken:
  // signalled, about to lock again. Listen: owns the outstanding receive. Hold: has
  // taken a message out of it. Notify: has unlocked and is about to broadcast.
  datatype Thread =
    | Idle
    | Start(call: Call)
    | Waiting(call: Call)
    | Woken(call: Call)
    | Listen(call: Call)
    | Hold(call: Call, msg: Msg)
    | Notify(call: Call, listening: bool)

  datatype Prob = NoRecv | Posted | Filled(msg: Msg)

  // taken says which thread received each message that was received.
  datatype State = State(threads: seq<Thread>, token: bool, queue: seq<Msg>, prob: Prob, wire: seq<Msg>,
                         arrived: seq<Envelope>, taken: map<nat, nat>)

  datatype Step =
    | Begin(t: nat, call: Call)
    | Enter(t: nat)
    | Wake(t: nat)
    | Post(t: nat)
    | EmptyProbe(t: nat)
    | Take(t: nat)
    | Settle(t: nat)
    | Broadcast(t: nat)
    | Arrive(env: Envelope)
    | Complete

  predicate HasToken(th: Thread) { th.Listen? || th.Hold? || (th.Notify? && th.listening) }

  predicate Wanted(call: Call, m: Msg) { Matches(call.src, call.tag, m.env) }

  function Envs(ms: seq<Msg>): (es: seq<Envelope>)
    ensures |es| == |ms|
  {
    seq(|ms|, i requires 0 <= i < |ms| => ms[i].env)
  }

  function Hit(call: Call, queue: seq<Msg>): (i: nat)
    ensures i <= |queue| && (i < |queue| ==> Wanted(call, queue[i]))
    ensures forall j | 0 <= j < i :: !Wanted(call, queue[j])
  {
    var i := FirstMatch(call.src, call.tag, Envs(queue));
    assert forall j | 0 <= j < |queue| :: Envs(queue)[j] == queue[j].env;
    i
  }

  function Drop(ms: seq<Msg>, i: nat): seq<Msg>
    requires i < |ms|
  {
    ms[..i] + ms[i + 1..]
  }

  // ---------------------------------------------------------------------
  // Steps.

  predicate Enabled(s: State, step: Step) {
    match step
    case Begin(t, _) => t < |s.threads| && s.threads[t].Idle?
    case Enter(t) => t < |s.threads| && s.threads[t].Start?
    case Wake(t) => t < |s.threads| && s.threads[t].Woken?
    case Post(t) => t < |s.threads| && s.threads[t].Listen? && s.prob.NoRecv?
    case EmptyProbe(t) => t < |s.threads| && s.threads[t].Listen? && s.threads[t].call.probe && s.prob.Posted?
    case Take(t) => t < |s.threads| && s.threads[t].Listen? && s.prob.Filled?
    case Settle(t) => t < |s.threads| && s.threads[t].Hold?
    case Broadcast(t) => t < |s.threads| && s.threads[t].Notify?
    case Arrive(_) => true
    case Complete => s.prob.Posted? && s.wire != []
  }

  // The critical section of check_for_matching_unexpected_message from the search on.
  function Search(s: State, t: nat, call: Call): State
    requires t < |s.threads|
  {
    var i := Hit(call, s.queue);
    if i < |s.queue| then
      if call.probe then s.(threads := s.threads[t := Idle])
      else s.(threads := s.threads[t := Idle], queue := Drop(s.queue, i), taken := s.taken[s.queue[i].id := t])
    else if s.token then s.(threads := s.threads[t := Waiting(call)])
    else s.(threads := s.threads[t := Listen(call)], token := true)
  }

  function WakeAll(threads: seq<Thread>): (ts: seq<Thread>)
    ensures |ts| == |threads|
    ensures forall t | 0 <= t < |ts| ::
              ts[t] == if threads[t].Waiting? then Woken(threads[t].call) else threads[t]
  {
    seq(|threads|, t requires 0 <= t < |threads| =>
      if threads[t].Waiting? then Woken(threads[t].call) else threads[t])
  }

  function Next(s: State, step: Step): State
    requires Enabled(s, step)
  {
    match step
    case Begin(t, call) => s.(threads := s.threads[t := Start(call)])
    case Enter(t) => Search(s, t, s.threads[t].call)
    // A woken thread that finds the token free takes it without searching again.
    case Wake(t) =>
      if s.token then Search(s, t, s.threads[t].call)
      else s.(threads := s.threads[t := Listen(s.threads[t].call)], token := true)
    case Post(t) => s.(prob := Posted)
    // The token is freed without the lock and without a broadcast.
    case EmptyProbe(t) => s.(threads := s.threads[t := Idle], token := false)
    case Take(t) => s.(threads := s.threads[t := Hold(s.threads[t].call, s.prob.msg)], prob := NoRecv)
    case Settle(t) =>
      var call, m := s.threads[t].call, s.threads[t].msg;
      if !call.probe && Wanted(call, m) then
        s.(threads := s.threads[t := Notify(call, false)], token := false, taken := s.taken[m.id := t])
      else
        s.(threads := s.threads[t := Notify(call, !call.probe)], queue := s.queue + [m],
           token := s.token && !call.probe)
    case Broadcast(t) =>
      var th := s.threads[t];
      s.(threads := WakeAll(s.threads)[t := if th.listening then Listen(th.call) else Idle])
    case Arrive(e) => s.(wire := s.wire + [Msg(|s.arrived|, e)], arrived := s.arrived + [e])
    case Complete => s.(prob := Filled(s.wire[0]), wire := s.wire[1..])
  }

  function Initial(n: nat): State {
    State(seq(n, _ => Idle), false, [], NoRecv, [], [], map[])
  }

  function Run(n: nat, steps: seq<Step>): Option<State> {
    if steps == [] then Some(Initial(n))
    else
      match Run(n, steps[..|steps| - 1])
      case None => None
      case Some(s) => if Enabled(s, steps[|steps| - 1]) then Some(Next(s, steps[|steps| - 1])) else None
  }

  lemma Then(n: nat, steps: seq<Step>, step: Step, s: State) returns (longer: seq<Step>, s': State)
    requires Run(n, steps) == Some(s) && Enabled(s, step)
    ensures longer == steps + [step] && s' == Next(s, step) && Run(n, longer) == Some(s')
  {
    longer, s' := steps + [step], Next(s, step);
    assert longer[..|longer| - 1] == steps;
  }

  // ---------------------------------------------------------------------
  // Exclusivity and conservation.

  function InHand(s: State, l: Option<nat>): seq<Msg> {
    if l.Some? && l.value < |s.threads| && s.threads[l.value].Hold? then [s.threads[l.value].msg] else []
  }

  function Flight(s: State): seq<Msg> { if s.prob.Filled? then [s.prob.msg] else [] }

  // All messages not yet received: the queue, the listener's hands, the outstanding
  // receive and the transport.
  function Line(s: State, l: Option<nat>): seq<Msg> { s.queue + InHand(s, l) + Flight(s) + s.wire }

  ghost predicate Increasing(ms: seq<Msg>) { forall i, j | 0 <= i < j < |ms| :: ms[i].id < ms[j].id }

  // l is the only thread with the token.
  ghost predicate Exclusive(s: State, l: Option<nat>) {
    && (s.token <==> l.Some?)
    && (l.Some? ==> l.value < |s.threads|)
    && (forall t: nat | t < |s.threads| :: HasToken(s.threads[t]) <==> l == Some(t))
  }

  // Line is in the order of arrival, and every arrived message is either at one
  // place in it or received by one thread.
  ghost predicate Conserved(line: seq<Msg>, arrived: seq<Envelope>, taken: map<nat, nat>) {
    && Increasing(line)
    && (forall m | m in line :: m.id < |arrived| && m.env == arrived[m.id] && m.id !in taken)
    && (forall id | id in taken :: id < |arrived|)
    && (forall id: nat | id < |arrived| && id !in taken :: Msg(id, arrived[id]) in line)
  }

  ghost predicate Inv(s: State, l: Option<nat>) {
    Exclusive(s, l) && Conserved(Line(s, l), s.arrived, s.taken)
  }

  // Who has the token after a step.
  function Successor(s: State, l: Option<nat>, step: Step): Option<nat>
    requires Enabled(s, step)
  {
    match step
    case Enter(t) => if !s.token && Next(s, step).token then Some(t) else l
    case Wake(t) => if !s.token then Some(t) else l
    case EmptyProbe(_) => None
    case Settle(_) => if Next(s, step).token then l else None
    case _ => l
  }

  lemma ExclusiveStep(s: State, l: Option<nat>, step: Step)
    requires Exclusive(s, l) && Enabled(s, step)
    ensures Exclusive(Next(s, step), Successor(s, l, step))
  {
  }

  // The message a step hands to a receiver, as its position in the line.
  function TakenAt(s: State, step: Step): Option<nat>
    requires Enabled(s, step)
  {
    match step
    case Enter(t) =>
      var i := Hit(s.threads[t].call, s.queue);
      if i < |s.queue| && !s.threads[t].call.probe then Some(i) else None
    case Wake(t) =>
      var i := Hit(s.threads[t].call, s.queue);
      if s.token && i < |s.queue| && !s.threads[t].call.probe then Some(i) else None
    case Settle(t) =>
      if !s.threads[t].call.probe && Wanted(s.threads[t].call, s.threads[t].msg) then Some(|s.queue|) else None
    case _ => None
  }

  // The line after a step: one message out of it, one more at its end, or the same.
  ghost predicate LineAfter(s: State, l: Option<nat>, step: Step)
    requires Enabled(s, step)
  {
    var s', line, line' := Next(s, step), Line(s, l), Line(Next(s, step), Successor(s, l, step));
    match TakenAt(s, step)
    case Some(i) =>
      i < |line| && line' == Drop(line, i) && s'.taken == s.taken[line[i].id := step.t] && s'.arrived == s.arrived
    case None =>
      && s'.taken == s.taken
      && if step.Arrive?
         then line' == line + [Msg(|s.arrived|, step.env)] && s'.arrived == s.arrived + [step.env]
         else line' == line && s'.arrived == s.arrived
  }

  lemma DropQueued(q: seq<Msg>, i: nat, h: seq<Msg>, f: seq<Msg>, w: seq<Msg>)
    requires i < |q|
    ensures Drop(q + h + f + w, i) == Drop(q, i) + h + f + w
    ensures (q + h + f + w)[i] == q[i]
  {
  }

  lemma MoveAlong(q: seq<Msg>, m: Msg, f: seq<Msg>, w: seq<Msg>)
    ensures (q + [m]) + [] + f + w == q + [m] + f + w
    ensures Drop(q + [m] + f + w, |q|) == q + [] + f + w && (q + [m] + f + w)[|q|] == m
    ensures q + [] + [m] + w == q + [m] + [] + w
  {
  }

  lemma MoveIn(q: seq<Msg>, h: seq<Msg>, w: seq<Msg>)
    requires w != []
    ensures q + h + [] + w == q + h + [w[0]] + w[1..]
  {
  }

  // Nobody is holding a message who was not before.
  lemma SearchHands(s: State, l: Option<nat>, step: Step)
    requires Exclusive(s, l) && Enabled(s, step) && (step.Enter? || step.Wake?)
    ensures InHand(Next(s, step), Successor(s, l, step)) == InHand(s, l)
  {
  }

  lemma SearchLine(s: State, l: Option<nat>, step: Step)
    requires Exclusive(s, l) && Enabled(s, step) && (step.Enter? || step.Wake?)
    ensures LineAfter(s, l, step)
  {
    SearchHands(s, l, step);
    var i := Hit(s.threads[step.t].call, s.queue);
    if i < |s.queue| {
      DropQueued(s.queue, i, InHand(s, l), Flight(s), s.wire);
    }
  }

  lemma TakeLine(s: State, l: Option<nat>, step: Step)
    requires Exclusive(s, l) && Enabled(s, step) && step.Take?
    ensures LineAfter(s, l, step)
  {
    assert l == Some(step.t);
    MoveAlong(s.queue, s.prob.msg, [], s.wire);
  }

  lemma SettleLine(s: State, l: Option<nat>, step: Step)
    requires Exclusive(s, l) && Enabled(s, step) && step.Settle?
    ensures LineAfter(s, l, step)
  {
    assert l == Some(step.t);
    MoveAlong(s.queue, s.threads[step.t].msg, Flight(s), s.wire);
  }

  lemma TransportLine(s: State, l: Option<nat>, step: Step)
    requires Exclusive(s, l) && Enabled(s, step) && (step.Arrive? || step.Complete?)
    ensures LineAfter(s, l, step)
  {
    if step.Complete? {
      MoveIn(s.queue, InHand(s, l), s.wire);
    } else {
      var m := [Msg(|s.arrived|, step.env)];
      assert Line(s, l) + m == s.queue + InHand(s, l) + Flight(s) + (s.wire + m);
    }
  }

  lemma LineStep(s: State, l: Option<nat>, step: Step)
    requires Exclusive(s, l) && Enabled(s, step)
    ensures LineAfter(s, l, step)
  {
    if step.Enter? || step.Wake? {
      SearchLine(s, l, step);
    } else if step.Take? {
      TakeLine(s, l, step);
    } else if step.Settle? {
      SettleLine(s, l, step);
    } else if step.Arrive? || step.Complete? {
      TransportLine(s, l, step);
    }
  }

  lemma DropMembers(line: seq<Msg>, i: nat)
    requires Increasing(line) && i < |line|
    ensures Increasing(Drop(line, i))
    ensures forall m | m in Drop(line, i) :: m in line && m.id != line[i].id
    ensures forall m | m in line && m.id != line[i].id :: m in Drop(line, i)
  {
    forall m | m in line && m.id != line[i].id ensures m in Drop(line, i) {
      var j :| 0 <= j < |line| && line[j] == m;
      assert Drop(line, i)[if j < i then j else j - 1] == m;
    }
  }

  lemma ConservedDrop(line: seq<Msg>, arrived: seq<Envelope>, taken: map<nat, nat>, i: nat, t: nat)
    requires Conserved(line, arrived, taken) && i < |line|
    ensures Conserved(Drop(line, i), arrived, taken[line[i].id := t])
  {
    DropMembers(line, i);
  }

  lemma ConservedArrive(line: seq<Msg>, arrived: seq<Envelope>, taken: map<nat, nat>, e: Envelope)
    requires Conserved(line, arrived, taken)
    ensures Conserved(line + [Msg(|arrived|, e)], arrived + [e], taken)
  {
    forall id: nat | id < |arrived| + 1 && id !in taken
      ensures Msg(id, (arrived + [e])[id]) in line + [Msg(|arrived|, e)]
    {
      if id < |arrived| {
        assert Msg(id, arrived[id]) in line;
      } else {
        assert (line + [Msg(|arrived|, e)])[|line|] == Msg(id, e);
      }
    }
  }

  lemma InvStep(s: State, l: Option<nat>, step: Step)
    requires Inv(s, l) && Enabled(s, step)
    ensures Inv(Next(s, step), Successor(s, l, step))
  {
    ExclusiveStep(s, l, step);
    LineStep(s, l, step);
    match TakenAt(s, step)
    case Some(i) => ConservedDrop(Line(s, l), s.arrived, s.taken, i, step.t);
    case None =>
      if step.Arrive? {
        ConservedArrive(Line(s, l), s.arrived, s.taken, step.env);
      }
  }

  // In every run of any number of threads at most one has the token, and each
  // message that arrived is at exactly one place.
  lemma {:induction false} InvRun(n: nat, steps: seq<Step>) returns (l: Option<nat>)
    requires Run(n, steps).Some?
    ensures Inv(Run(n, steps).value, l)
  {
    if steps == [] {
      l := None;
    } else {
      var before := steps[..|steps| - 1];
      l := InvRun(n, before);
      InvStep(Run(n, before).value, l, steps[|steps| - 1]);
      l := Successor(Run(n, before).value, l, steps[|steps| - 1]);
    }
  }

  // Only NA and the one thread with the token touch the outstanding receive.
  lemma ReceiveIsExclusive(n: nat, steps: seq<Step>, step: Step)
    requires Run(n, steps).Some? && Enabled(Run(n, steps).value, step)
    ensures var s := Run(n, steps).value;
            Next(s, step).prob != s.prob ==>
              step.Complete? ||
              (s.token && HasToken(s.threads[step.t]) &&
               forall u: nat | u < |s.threads| && HasToken(s.threads[u]) :: u == step.t)
  {
    var l := InvRun(n, steps);
  }

  // ---------------------------------------------------------------------
  // Order of arrival.

  // No receive that listens has a match in the queue.
  ghost predicate ListenersSearched(s: State) {
    forall t | 0 <= t < |s.threads| && HasToken(s.threads[t]) && !s.threads[t].call.probe ::
      Hit(s.threads[t].call, s.queue) == |s.queue|
  }

  // A receive is woken to a free token while a match for it is queued.
  ghost predicate WakesPastMatch(s: State, step: Step)
    requires Enabled(s, step)
  {
    step.Wake? && !s.token && !s.threads[step.t].call.probe && Hit(s.threads[step.t].call, s.queue) < |s.queue|
  }

  lemma HitAll(call: Call, queue: seq<Msg>)
    ensures Hit(call, queue) == |queue| <==> forall m | m in queue :: !Wanted(call, m)
  {
  }

  // The queue gains only what a listener enqueues.
  lemma QueueAfter(s: State, step: Step)
    requires Enabled(s, step)
    ensures forall m | m in Next(s, step).queue ::
              m in s.queue || (step.Settle? && m == s.threads[step.t].msg &&
                               (s.threads[step.t].call.probe || !Wanted(s.threads[step.t].call, m)))
  {
  }

  lemma SearchedStep(s: State, l: Option<nat>, step: Step)
    requires Exclusive(s, l) && ListenersSearched(s) && Enabled(s, step)
    ensures ListenersSearched(Next(s, step)) <==> !WakesPastMatch(s, step)
  {
    var s' := Next(s, step);
    if WakesPastMatch(s, step) {
      assert HasToken(s'.threads[step.t]) && s'.threads[step.t].call == s.threads[step.t].call;
    } else {
      forall t: nat | t < |s'.threads| && HasToken(s'.threads[t]) && !s'.threads[t].call.probe
        ensures Hit(s'.threads[t].call, s'.queue) == |s'.queue|
      {
        ListenerKeepsSearch(s, l, step, t);
      }
    }
  }

  lemma ListenerKeepsSearch(s: State, l: Option<nat>, step: Step, t: nat)
    requires Exclusive(s, l) && ListenersSearched(s) && Enabled(s, step) && !WakesPastMatch(s, step)
    requires t < |s.threads| == |Next(s, step).threads|
    requires HasToken(Next(s, step).threads[t]) && !Next(s, step).threads[t].call.probe
    ensures Hit(Next(s, step).threads[t].call, Next(s, step).queue) == |Next(s, step).queue|
  {
    var s' := Next(s, step);
    var call := s'.threads[t].call;
    assert s.threads[t].call == call;
    assert Hit(call, s.queue) == |s.queue|;
    HitAll(call, s.queue);
    QueueAfter(s, step);
    assert step.Settle? ==> l == Some(step.t);
    HitAll(call, s'.queue);
  }

  // m is the earliest arrival the call could be given: every earlier one is already
  // received or does not match.
  ghost predicate EarliestFor(s: State, call: Call, m: Msg) {
    && Wanted(call, m)
    && forall x: nat | x < m.id && x < |s.arrived| && x !in s.taken :: !Wanted(call, Msg(x, s.arrived[x]))
  }

  lemma EarliestInLine(s: State, l: Option<nat>, call: Call, i: nat)
    requires Conserved(Line(s, l), s.arrived, s.taken) && i < |Line(s, l)|
    ensures EarliestFor(s, call, Line(s, l)[i])
       <==> Wanted(call, Line(s, l)[i]) && forall j | 0 <= j < i :: !Wanted(call, Line(s, l)[j])
  {
    var line := Line(s, l);
    if forall j | 0 <= j < i :: !Wanted(call, line[j]) {
      forall x: nat | x < line[i].id && x < |s.arrived| && x !in s.taken
        ensures !Wanted(call, Msg(x, s.arrived[x]))
      {
        var j :| 0 <= j < |line| && line[j] == Msg(x, s.arrived[x]);
      }
    } else {
      var j :| 0 <= j < i && Wanted(call, line[j]);
      assert line[j] in line;
    }
  }

  // A receive is given the earliest arrival that matches it exactly when it found it
  // in the queue or, taking it from the transport, had no match left in the queue.
  lemma EarliestIff(s: State, l: Option<nat>, step: Step)
    requires Inv(s, l) && Enabled(s, step) && TakenAt(s, step).Some?
    ensures TakenAt(s, step).value < |Line(s, l)|
    ensures var call := s.threads[step.t].call;
            EarliestFor(s, call, Line(s, l)[TakenAt(s, step).value])
            <==> (step.Settle? ==> Hit(call, s.queue) == |s.queue|)
  {
    LineStep(s, l, step);
    var call, i := s.threads[step.t].call, TakenAt(s, step).value;
    EarliestInLine(s, l, call, i);
    QueueLeads(s, l, step.t, step.Settle?);
  }

  lemma QueueLeads(s: State, l: Option<nat>, t: nat, holding: bool)
    requires Exclusive(s, l) && t < |s.threads| && (holding ==> s.threads[t].Hold?)
    ensures |s.queue| <= |Line(s, l)| && forall j | 0 <= j < |s.queue| :: Line(s, l)[j] == s.queue[j]
    ensures holding ==> |s.queue| < |Line(s, l)| && Line(s, l)[|s.queue|] == s.threads[t].msg
  {
  }

  // The runs in which no receive is woken to a free token past a queued match.
  ghost predicate SearchesBeforeListening(n: nat, steps: seq<Step>)
    requires Run(n, steps).Some?
  {
    steps == [] ||
    var before := steps[..|steps| - 1];
    SearchesBeforeListening(n, before) && !WakesPastMatch(Run(n, before).value, steps[|steps| - 1])
  }

  lemma {:induction false} SearchedRun(n: nat, steps: seq<Step>)
    requires Run(n, steps).Some? && SearchesBeforeListening(n, steps)
    ensures ListenersSearched(Run(n, steps).value)
  {
    if steps != [] {
      var before := steps[..|steps| - 1];
      SearchedRun(n, before);
      var l := InvRun(n, before);
      SearchedStep(Run(n, before).value, l, steps[|steps| - 1]);
    }
  }

  // In those runs messages do not overtake, whichever threads receive them.
  lemma NoOvertaking(n: nat, steps: seq<Step>, step: Step) returns (m: Msg)
    requires Run(n, steps).Some? && SearchesBeforeListening(n, steps)
    requires Enabled(Run(n, steps).value, step) && TakenAt(Run(n, steps).value, step).Some?
    ensures var s := Run(n, steps).value;
            EarliestFor(s, s.threads[step.t].call, m) && Next(s, step).taken == s.taken[m.id := step.t]
    ensures var s := Run(n, steps).value; var call := s.threads[step.t].call;
            && m.id < |s.arrived| && m.id !in s.taken && m.env == s.arrived[m.id] && !call.probe
            && (call.tag != 0xFFFF_FFFF ==> m.env.tag == call.tag) && (call.src != 0 ==> m.env.src == call.src)
            && forall x: nat | x < m.id && x !in s.taken ::
                 (call.tag != 0xFFFF_FFFF && s.arrived[x].tag != call.tag)
                 || (call.src != 0 && s.arrived[x].src != call.src)
  {
    var l := InvRun(n, steps);
    var s := Run(n, steps).value;
    SearchedRun(n, steps);
    LineStep(s, l, step);
    EarliestIff(s, l, step);
    m := Line(s, l)[TakenAt(s, step).value];
  }

  // ---------------------------------------------------------------------
  // Wake-ups.

  ghost predicate Notifying(s: State) { exists t :: 0 <= t < |s.threads| && s.threads[t].Notify? }

  ghost predicate SomeoneWaits(s: State) { exists t :: 0 <= t < |s.threads| && s.threads[t].Waiting? }

  // Whoever waits, some thread still has to broadcast.
  ghost predicate WakerExists(s: State) { SomeoneWaits(s) ==> s.token || Notifying(s) }

  // An empty probe gives up the token while others wait and no broadcast is due.
  ghost predicate LosesWakeUp(s: State, step: Step) { step.EmptyProbe? && SomeoneWaits(s) && !Notifying(s) }

  lemma WakerStep(s: State, l: Option<nat>, step: Step)
    requires Exclusive(s, l) && WakerExists(s) && Enabled(s, step)
    ensures WakerExists(Next(s, step)) <==> !LosesWakeUp(s, step)
  {
    if step.EmptyProbe? {
      OthersStay(s, step);
    } else if !step.Broadcast? && (step.Settle? || Notifying(s)) {
      NotifyPersists(s, step);
    }
  }

  lemma NotifyPersists(s: State, step: Step)
    requires Enabled(s, step) && !step.Broadcast? && (step.Settle? || Notifying(s))
    ensures Notifying(Next(s, step))
  {
    var t := if step.Settle? then step.t else var u :| 0 <= u < |s.threads| && s.threads[u].Notify?; u;
    assert Next(s, step).threads[t].Notify?;
  }

  lemma OthersStay(s: State, step: Step)
    requires Enabled(s, step) && step.EmptyProbe?
    ensures SomeoneWaits(Next(s, step)) <==> SomeoneWaits(s)
    ensures Notifying(Next(s, step)) <==> Notifying(s)
  {
    var s' := Next(s, step);
    forall t | 0 <= t < |s.threads| && (s.threads[t].Waiting? || s.threads[t].Notify?)
      ensures s'.threads[t] == s.threads[t]
    {
    }
  }

  // Nobody waits for a message that is queued, unless a broadcast is due.
  ghost predicate WaitersSearched(s: State) {
    Notifying(s) ||
    forall t | 0 <= t < |s.threads| && s.threads[t].Waiting? :: Hit(s.threads[t].call, s.queue) == |s.queue|
  }

  lemma WaiterStep(s: State, step: Step, t: nat)
    requires WaitersSearched(s) && Enabled(s, step) && !step.Settle? && !step.Broadcast? && !Notifying(s)
    requires t < |Next(s, step).threads| && Next(s, step).threads[t].Waiting?
    ensures Hit(Next(s, step).threads[t].call, Next(s, step).queue) == |Next(s, step).queue|
  {
    var s' := Next(s, step);
    HitAll(s'.threads[t].call, s.queue);
    QueueAfter(s, step);
    HitAll(s'.threads[t].call, s'.queue);
  }

  lemma WaitersStep(s: State, step: Step)
    requires WaitersSearched(s) && Enabled(s, step)
    ensures WaitersSearched(Next(s, step))
  {
    var s' := Next(s, step);
    if step.Settle? || (Notifying(s) && !step.Broadcast?) {
      NotifyPersists(s, step);
    } else if !step.Broadcast? {
      forall t | 0 <= t < |s'.threads| && s'.threads[t].Waiting?
        ensures Hit(s'.threads[t].call, s'.queue) == |s'.queue|
      {
        WaiterStep(s, step, t);
      }
    }
  }

  // The runs in which no step loses a wake-up and no receive skips its search.
  ghost predicate Careful(n: nat, steps: seq<Step>)
    requires Run(n, steps).Some?
  {
    steps == [] ||
    var before, last := steps[..|steps| - 1], steps[|steps| - 1];
    Careful(n, before) && !WakesPastMatch(Run(n, before).value, last) && !LosesWakeUp(Run(n, before).value, last)
  }

  lemma {:induction false} WaitersRun(n: nat, steps: seq<Step>)
    requires Run(n, steps).Some?
    ensures WaitersSearched(Run(n, steps).value)
  {
    if steps != [] {
      var before := steps[..|steps| - 1];
      WaitersRun(n, before);
      WaitersStep(Run(n, before).value, steps[|steps| - 1]);
    }
  }

  lemma {:induction false} CarefulRun(n: nat, steps: seq<Step>)
    requires Run(n, steps).Some? && Careful(n, steps)
    ensures SearchesBeforeListening(n, steps) && WakerExists(Run(n, steps).value)
  {
    if steps != [] {
      var before := steps[..|steps| - 1];
      CarefulRun(n, before);
      var l := InvRun(n, before);
      WakerStep(Run(n, before).value, l, steps[|steps| - 1]);
    }
  }

  // Nothing happens any more without a new call or a new arrival.
  ghost predicate Quiet(s: State) {
    forall step | Enabled(s, step) :: step.Begin? || step.Arrive?
  }

  // In such runs a receive or probe sleeps only while no message for it is anywhere:
  // not in the queue, not in the outstanding receive, not in the transport.
  lemma NobodySleepsOnAMatch(n: nat, steps: seq<Step>, t: nat) returns (l: Option<nat>)
    requires Run(n, steps).Some? && Careful(n, steps) && Quiet(Run(n, steps).value)
    requires t < n == |Run(n, steps).value.threads| && !Run(n, steps).value.threads[t].Idle?
    ensures var s := Run(n, steps).value;
            Inv(s, l) && forall m | m in Line(s, l) :: !Wanted(s.threads[t].call, m)
    ensures var s := Run(n, steps).value; var call := s.threads[t].call;
            forall x: nat | x < |s.arrived| && x !in s.taken ::
              (call.tag != 0xFFFF_FFFF && s.arrived[x].tag != call.tag)
              || (call.src != 0 && s.arrived[x].src != call.src)
  {
    l := InvRun(n, steps);
    var s := Run(n, steps).value;
    CarefulRun(n, steps);
    SearchedRun(n, steps);
    WaitersRun(n, steps);
    QuietShape(s, l, t);
    HitAll(s.threads[t].call, s.queue);
    assert Line(s, l) == s.queue;
  }

  lemma QuietThread(s: State, t: nat)
    requires Quiet(s) && t < |s.threads|
    ensures !s.threads[t].Start? && !s.threads[t].Woken? && !s.threads[t].Hold? && !s.threads[t].Notify?
    ensures s.threads[t].Listen? ==> s.prob.Posted? && s.wire == [] && !s.threads[t].call.probe
  {
    assert Enabled(s, Enter(t)) || !s.threads[t].Start?;
    assert Enabled(s, Wake(t)) || !s.threads[t].Woken?;
    assert Enabled(s, Settle(t)) || !s.threads[t].Hold?;
    assert Enabled(s, Broadcast(t)) || !s.threads[t].Notify?;
    if s.threads[t].Listen? {
      assert Enabled(s, Post(t)) || !s.prob.NoRecv?;
      assert Enabled(s, Take(t)) || !s.prob.Filled?;
      assert Enabled(s, EmptyProbe(t)) || !s.threads[t].call.probe;
      assert Enabled(s, Complete) || s.wire == [];
    }
  }

  lemma QuietShape(s: State, l: Option<nat>, t: nat)
    requires Exclusive(s, l) && WakerExists(s) && ListenersSearched(s) && WaitersSearched(s) && Quiet(s)
    requires t < |s.threads| && !s.threads[t].Idle?
    ensures InHand(s, l) == [] && Flight(s) == [] && s.wire == []
    ensures Hit(s.threads[t].call, s.queue) == |s.queue|
  {
    QuietThread(s, t);
    forall u: nat | u < |s.threads| ensures !s.threads[u].Notify? {
      QuietThread(s, u);
    }
    if s.threads[t].Waiting? {
      assert SomeoneWaits(s);
    }
    QuietThread(s, l.value);
  }
}
