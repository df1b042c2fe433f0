// The receives of a collective on the unexpected-message engine: each posted receive
// is a thread of the rank's engine, and a rank posts the receives of a round only
// when those of earlier rounds have returned. A rank hangs if the engine is quiet
// although a message for a posted receive has arrived.
module RankReceives {
  import opened Basics
  import opened Mailbox
  import opened Network
  import L = Listener
  import opened Scenarios
  import opened Callers
  import opened Settling

  datatype Receive = Receive(round: nat, src: nat)

  // Ranks as addresses; 0 is the null address.
  function CallOf(r: Receive, tag: nat): L.Call { L.Call(false, r.src + 1, tag) }

  function MessageOf(r: Receive, tag: nat): Envelope { Envelope(r.src + 1, tag, []) }

  // ---------------------------------------------------------------------
  // One call at a time.

  ghost predicate AllIdle(s: L.State) { forall t | 0 <= t < |s.threads| :: s.threads[t].Idle? }

  ghost predicate OneActive(s: L.State) {
    && (forall t, u | 0 <= t < u < |s.threads| :: s.threads[t].Idle? || s.threads[u].Idle?)
    && (forall t | 0 <= t < |s.threads| :: !s.threads[t].Waiting? && !s.threads[t].Woken?)
  }

  // The runs in which a call begins only when no other is running.
  ghost predicate Alone(n: nat, steps: seq<L.Step>)
    requires L.Run(n, steps).Some?
  {
    steps == [] ||
    var before, last := steps[..|steps| - 1], steps[|steps| - 1];
    Alone(n, before) && (last.Begin? ==> AllIdle(L.Run(n, before).value))
  }

  lemma OneActiveStep(s: L.State, l: Option<nat>, step: L.Step)
    requires L.Exclusive(s, l) && OneActive(s) && L.Enabled(s, step) && (step.Begin? ==> AllIdle(s))
    ensures OneActive(L.Next(s, step)) && !L.WakesPastMatch(s, step) && !L.LosesWakeUp(s, step)
  {
  }

  lemma {:induction false} AloneIsCareful(n: nat, steps: seq<L.Step>)
    requires L.Run(n, steps).Some? && Alone(n, steps)
    ensures L.Careful(n, steps) && OneActive(L.Run(n, steps).value)
  {
    if steps != [] {
      var before := steps[..|steps| - 1];
      AloneIsCareful(n, before);
      var l := L.InvRun(n, before);
      OneActiveStep(L.Run(n, before).value, l, steps[|steps| - 1]);
    }
  }

  // ---------------------------------------------------------------------
  // The receives of one rank.

  // In the order of rounds, and from different ranks within a round.
  ghost predicate Ordered(posts: seq<Receive>) {
    forall u, v | 0 <= u < v < |posts| ::
      posts[u].round <= posts[v].round && (posts[u].round == posts[v].round ==> posts[u].src != posts[v].src)
  }

  ghost predicate OnePerRound(posts: seq<Receive>) {
    forall u, v | 0 <= u < v < |posts| :: posts[u].round != posts[v].round
  }

  ghost predicate Begun(steps: seq<L.Step>, t: nat) {
    exists i :: 0 <= i < |steps| && steps[i].Begin? && steps[i].t == t
  }

  ghost predicate MayBegin(posts: seq<Receive>, tag: nat, before: seq<L.Step>, s: L.State, t: nat, call: L.Call)
    requires |s.threads| == |posts|
  {
    && t < |posts| && call == CallOf(posts[t], tag) && !Begun(before, t)
    && (forall u | 0 <= u < |posts| && posts[u].round < posts[t].round :: Begun(before, u) && s.threads[u].Idle?)
  }

  // Thread t makes the t-th receive, once, after those of earlier rounds.
  ghost predicate Follows(posts: seq<Receive>, tag: nat, steps: seq<L.Step>)
    requires L.Run(|posts|, steps).Some?
  {
    steps == [] ||
    var before, last := steps[..|steps| - 1], steps[|steps| - 1];
    ThreadCount(|posts|, before);
    Follows(posts, tag, before) &&
    (last.Begin? ==> MayBegin(posts, tag, before, L.Run(|posts|, before).value, last.t, last.call))
  }

  // A receive that is running or has returned was begun, and so were those of
  // earlier rounds.
  ghost predicate BegunOk(posts: seq<Receive>, steps: seq<L.Step>, s: L.State)
    requires |s.threads| == |posts|
  {
    && (forall t: nat | t < |posts| && !s.threads[t].Idle? :: Begun(steps, t))
    && (forall t: nat, u: nat | t < |posts| && u < |posts| && Begun(steps, t) && posts[u].round < posts[t].round ::
          Begun(steps, u))
  }

  lemma BegunMore(before: seq<L.Step>, step: L.Step, t: nat)
    ensures Begun(before + [step], t) <==> Begun(before, t) || (step.Begin? && step.t == t)
  {
    if Begun(before, t) {
      var i :| 0 <= i < |before| && before[i].Begin? && before[i].t == t;
      assert (before + [step])[i] == before[i];
    }
    if step.Begin? && step.t == t {
      assert (before + [step])[|before|] == step;
    }
  }

  lemma WokenUp(s: L.State, step: L.Step, t: nat)
    requires L.Enabled(s, step) && t < |s.threads| == |L.Next(s, step).threads|
    requires s.threads[t].Idle? && !L.Next(s, step).threads[t].Idle?
    ensures step.Begin? && step.t == t
  {
  }

  lemma {:induction false} FollowsBegun(posts: seq<Receive>, tag: nat, steps: seq<L.Step>)
    requires L.Run(|posts|, steps).Some? && Follows(posts, tag, steps)
    ensures |L.Run(|posts|, steps).value.threads| == |posts|
    ensures BegunOk(posts, steps, L.Run(|posts|, steps).value)
  {
    ThreadCount(|posts|, steps);
    if steps != [] {
      var before, last := steps[..|steps| - 1], steps[|steps| - 1];
      FollowsBegun(posts, tag, before);
      var s, s' := L.Run(|posts|, before).value, L.Run(|posts|, steps).value;
      assert steps == before + [last];
      forall t: nat | t < |posts| ensures Begun(steps, t) <==> Begun(before, t) || (last.Begin? && last.t == t) {
        BegunMore(before, last, t);
      }
      forall t: nat | t < |posts| && !s'.threads[t].Idle? ensures Begun(steps, t) {
        if s.threads[t].Idle? {
          WokenUp(s, last, t);
        }
      }
    }
  }

  lemma {:induction false} OnePerRoundIsAlone(posts: seq<Receive>, tag: nat, steps: seq<L.Step>)
    requires L.Run(|posts|, steps).Some? && Follows(posts, tag, steps) && OnePerRound(posts)
    ensures Alone(|posts|, steps)
  {
    if steps != [] {
      var before, last := steps[..|steps| - 1], steps[|steps| - 1];
      OnePerRoundIsAlone(posts, tag, before);
      FollowsBegun(posts, tag, before);
      var s := L.Run(|posts|, before).value;
      if last.Begin? {
        forall u: nat | u < |posts| ensures s.threads[u].Idle? {
          assert u != last.t ==> posts[u].round != posts[last.t].round;
        }
      }
    }
  }

  lemma {:induction false} RunPrefix(n: nat, steps: seq<L.Step>, more: seq<L.Step>)
    requires L.Run(n, steps + more).Some?
    ensures L.Run(n, steps).Some?
    decreases |more|
  {
    if more == [] {
      assert steps + more == steps;
    } else {
      assert (steps + more)[..|steps + more| - 1] == steps + more[..|more| - 1];
      RunPrefix(n, steps, more[..|more| - 1]);
    }
  }

  lemma AloneNext(n: nat, steps: seq<L.Step>, step: L.Step)
    requires L.Run(n, steps).Some? && Alone(n, steps) && Internal(step) && L.Run(n, steps + [step]).Some?
    ensures Alone(n, steps + [step])
  {
    assert (steps + [step])[..|steps|] == steps;
  }

  lemma {:induction false} AloneContinues(n: nat, steps: seq<L.Step>, more: seq<L.Step>)
    requires L.Run(n, steps).Some? && Alone(n, steps) && AllInternal(more) && L.Run(n, steps + more).Some?
    ensures Alone(n, steps + more)
  {
    if more == [] {
      assert steps + more == steps;
    } else {
      var less, last := more[..|more| - 1], more[|more| - 1];
      assert steps + more == (steps + less) + [last];
      RunPrefix(n, steps + less, [last]);
      AloneContinues(n, steps, less);
      AloneNext(n, steps + less, last);
    }
  }

  // With one receive a round a receive whose message has arrived returns: whatever
  // the engine does on its own, it comes to rest only with no such receive left.
  lemma OnePerRoundCompletes(posts: seq<Receive>, tag: nat, steps: seq<L.Step>, more: seq<L.Step>, t: nat)
    requires L.Run(|posts|, steps).Some? && Follows(posts, tag, steps) && OnePerRound(posts)
    requires AllInternal(more) && Continue(L.Run(|posts|, steps).value, more).Some?
    requires L.Quiet(Continue(L.Run(|posts|, steps).value, more).value)
    ensures |more| <= Left(L.Run(|posts|, steps).value)
    ensures t < |Continue(L.Run(|posts|, steps).value, more).value.threads| ==>
              !HasMessage(Continue(L.Run(|posts|, steps).value, more).value, t)
  {
    Bounded(L.Run(|posts|, steps).value, more);
    RunContinues(|posts|, steps, more);
    OnePerRoundIsAlone(posts, tag, steps);
    AloneContinues(|posts|, steps, more);
    AloneIsCareful(|posts|, steps + more);
    if t < |Continue(L.Run(|posts|, steps).value, more).value.threads| {
      CarefulSleepless(|posts|, steps + more, t);
    }
  }

  // ---------------------------------------------------------------------
  // Two receives in one round.

  ghost predicate NoBegin(more: seq<L.Step>) { forall i | 0 <= i < |more| :: !more[i].Begin? }

  lemma {:induction false} FollowsOn(posts: seq<Receive>, tag: nat, steps: seq<L.Step>, more: seq<L.Step>)
    requires L.Run(|posts|, steps).Some? && Follows(posts, tag, steps)
    requires NoBegin(more) && L.Run(|posts|, steps + more).Some?
    ensures Follows(posts, tag, steps + more)
    decreases |more|
  {
    if more == [] {
      assert steps + more == steps;
    } else {
      var all, less := steps + more, more[..|more| - 1];
      assert all[..|all| - 1] == steps + less && all[|all| - 1] == more[|more| - 1];
      RunPrefix(|posts|, steps + less, [more[|more| - 1]]);
      assert steps + less + [more[|more| - 1]] == all;
      FollowsOn(posts, tag, steps, less);
    }
  }

  lemma FollowsBegin(posts: seq<Receive>, tag: nat, steps: seq<L.Step>, s: L.State, t: nat)
    requires L.Run(|posts|, steps) == Some(s) && Follows(posts, tag, steps) && t < |posts| == |s.threads|
    requires MayBegin(posts, tag, steps, s, t, CallOf(posts[t], tag)) && s.threads[t].Idle?
    ensures L.Run(|posts|, steps + [L.Begin(t, CallOf(posts[t], tag))]).Some?
    ensures Follows(posts, tag, steps + [L.Begin(t, CallOf(posts[t], tag))])
  {
    var all := steps + [L.Begin(t, CallOf(posts[t], tag))];
    assert all[..|all| - 1] == steps;
  }

  // The messages of receives 0 .. k - 1 arrived in this order, each was received by
  // its thread, and nothing else happened.
  ghost predicate ServedFirst(posts: seq<Receive>, tag: nat, steps: seq<L.Step>, s: L.State, k: nat)
    requires k <= |posts|
  {
    && L.Run(|posts|, steps) == Some(s) && Clean(s, |posts|) && Follows(posts, tag, steps)
    && (forall t: nat | t < |posts| :: Begun(steps, t) <==> t < k)
    && |s.arrived| == k && (forall i | 0 <= i < k :: s.arrived[i] == MessageOf(posts[i], tag))
  }

  lemma {:induction false} ServeFirst(posts: seq<Receive>, tag: nat, k: nat) returns (steps: seq<L.Step>, s: L.State)
    requires k <= |posts| && Ordered(posts)
    requires forall u, v | 0 <= u < v < k :: posts[u].round != posts[v].round
    ensures ServedFirst(posts, tag, steps, s, k)
  {
    if k == 0 {
      steps, s := [], L.Initial(|posts|);
    } else {
      var before, s0 := ServeFirst(posts, tag, k - 1);
      steps, s := ServeNext(posts, tag, before, s0, k - 1);
    }
  }

  lemma ServeNext(posts: seq<Receive>, tag: nat, before: seq<L.Step>, s0: L.State, k: nat)
    returns (steps: seq<L.Step>, s: L.State)
    requires k < |posts| && Ordered(posts) && ServedFirst(posts, tag, before, s0, k)
    requires forall u | 0 <= u < k :: posts[u].round != posts[k].round
    ensures ServedFirst(posts, tag, steps, s, k + 1)
  {
    var n, call, e := |posts|, CallOf(posts[k], tag), MessageOf(posts[k], tag);
    steps, s := Serve(n, before, s0, k, call, e);
    var begin := before + [L.Begin(k, call)];
    var rest := [L.Enter(k), L.Post(k), L.Arrive(e), L.Complete, L.Take(k), L.Settle(k), L.Broadcast(k)];
    assert steps == begin + rest;
    FollowsBegin(posts, tag, before, s0, k);
    FollowsOn(posts, tag, begin, rest);
    forall t: nat | t < n ensures Begun(steps, t) <==> t < k + 1 {
      BegunMore(before, L.Begin(k, call), t);
      BegunOn(begin, rest, t);
    }
  }

  lemma BegunOn(steps: seq<L.Step>, more: seq<L.Step>, t: nat)
    requires NoBegin(more)
    ensures Begun(steps + more, t) <==> Begun(steps, t)
  {
    if Begun(steps, t) {
      var i :| 0 <= i < |steps| && steps[i].Begin? && steps[i].t == t;
      assert (steps + more)[i] == steps[i];
    }
  }

  lemma SecondMayBegin(posts: seq<Receive>, tag: nat, before: seq<L.Step>, s0: L.State, u: nat, v: nat)
    returns (s1: L.State)
    requires u < v < |posts| && Ordered(posts) && posts[u].round == posts[v].round
    requires ServedFirst(posts, tag, before, s0, u)
    ensures var first := before + [L.Begin(u, CallOf(posts[u], tag))] + [L.Enter(u)];
            && L.Run(|posts|, first) == Some(s1) && |s1.threads| == |posts| && s1.threads[v].Idle?
            && MayBegin(posts, tag, first, s1, v, CallOf(posts[v], tag))
  {
    var begin := L.Begin(u, CallOf(posts[u], tag));
    var steps;
    steps, s1 := L.Then(|posts|, before, begin, s0);
    steps, s1 := L.Then(|posts|, steps, L.Enter(u), s1);
    forall t: nat | t < |posts| ensures Begun(steps, t) <==> t <= u {
      BegunMore(before, begin, t);
      BegunOn(before + [begin], [L.Enter(u)], t);
    }
  }

  lemma BothFollow(posts: seq<Receive>, tag: nat, before: seq<L.Step>, s0: L.State, u: nat, v: nat, rest: seq<L.Step>)
    requires u < v < |posts| && Ordered(posts) && posts[u].round == posts[v].round
    requires ServedFirst(posts, tag, before, s0, u) && NoBegin(rest)
    requires var a, b := CallOf(posts[u], tag), CallOf(posts[v], tag);
             L.Run(|posts|, before + [L.Begin(u, a)] + [L.Enter(u)] + [L.Begin(v, b)] + rest).Some?
    ensures var a, b := CallOf(posts[u], tag), CallOf(posts[v], tag);
            Follows(posts, tag, before + [L.Begin(u, a)] + [L.Enter(u)] + [L.Begin(v, b)] + rest)
  {
    var begin := before + [L.Begin(u, CallOf(posts[u], tag))];
    FollowsBegin(posts, tag, before, s0, u);
    var s1 := SecondMayBegin(posts, tag, before, s0, u, v);
    FollowsOn(posts, tag, begin, [L.Enter(u)]);
    FollowsBegin(posts, tag, begin + [L.Enter(u)], s1, v);
    FollowsOn(posts, tag, begin + [L.Enter(u)] + [L.Begin(v, CallOf(posts[v], tag))], rest);
  }

  // ---------------------------------------------------------------------
  // A receive that sleeps on.

  // Thread v holds the token and nothing that can still reach it is for it.
  ghost predicate Deaf(s: L.State, v: nat, call: L.Call) {
    && v < |s.threads| && L.HasToken(s.threads[v]) && s.threads[v].call == call && !call.probe
    && (forall m | m in L.Flight(s) + s.wire :: !L.Wanted(call, m))
    && (s.threads[v].Hold? ==> !L.Wanted(call, s.threads[v].msg))
  }

  lemma DeafStep(s: L.State, l: Option<nat>, step: L.Step, v: nat, call: L.Call)
    requires L.Exclusive(s, l) && Deaf(s, v, call) && L.Enabled(s, step)
    requires step.Arrive? ==> !Wants(call, step.env)
    ensures Deaf(L.Next(s, step), v, call)
  {
    assert l == Some(v);
    if step.Complete? {
      assert s.wire[0] in L.Flight(s) + s.wire;
    }
  }

  // However the run goes on, with other calls and other messages, the receive does
  // not return until another message for it arrives.
  lemma {:induction false} SleepsOn(n: nat, steps: seq<L.Step>, more: seq<L.Step>, v: nat, call: L.Call)
    requires L.Run(n, steps).Some? && Deaf(L.Run(n, steps).value, v, call)
    requires forall i | 0 <= i < |more| && more[i].Arrive? :: !Wants(call, more[i].env)
    requires Continue(L.Run(n, steps).value, more).Some?
    ensures Deaf(Continue(L.Run(n, steps).value, more).value, v, call)
    decreases |more|
  {
    if more != [] {
      var l := L.InvRun(n, steps);
      var s := L.Run(n, steps).value;
      DeafStep(s, l, more[0], v, call);
      assert (steps + [more[0]])[..|steps|] == steps;
      SleepsOn(n, steps + [more[0]], more[1..], v, call);
    }
  }

  // Regrouping the steps of ReceivesPass and AsleepOnAMatch after the two Begin steps.
  lemma AfterBegins(before: seq<L.Step>, u: nat, a: L.Call, ma: Envelope, v: nat, b: L.Call, mb: Envelope)
    returns (rest: seq<L.Step>)
    ensures NoBegin(rest)
    ensures before + [L.Begin(u, a), L.Enter(u), L.Begin(v, b), L.Enter(v), L.Post(u)]
            + [L.Arrive(mb), L.Complete, L.Take(u)] + [L.Settle(u), L.Broadcast(u)]
            + [L.Post(u)] + [L.Arrive(ma), L.Complete, L.Take(u)] + [L.Settle(u), L.Wake(v), L.Broadcast(u)]
            + [L.Post(v)]
         == before + [L.Begin(u, a)] + [L.Enter(u)] + [L.Begin(v, b)] + rest
  {
    rest := [L.Enter(v), L.Post(u)] + [L.Arrive(mb), L.Complete, L.Take(u)] + [L.Settle(u), L.Broadcast(u)]
            + [L.Post(u)] + [L.Arrive(ma), L.Complete, L.Take(u)] + [L.Settle(u), L.Wake(v), L.Broadcast(u)]
            + [L.Post(v)];
  }

  // Two receives of one round, when all receives before them have returned.
  lemma TwoInARound(posts: seq<Receive>, tag: nat, before: seq<L.Step>, s0: L.State, u: nat, v: nat)
    returns (steps: seq<L.Step>, s: L.State)
    requires u < v < |posts| && Ordered(posts) && posts[u].round == posts[v].round
    requires ServedFirst(posts, tag, before, s0, u)
    ensures L.Run(|posts|, steps) == Some(s) && Follows(posts, tag, steps) && L.Quiet(s)
    ensures v < |s.threads| && s.threads[v] == L.Listen(CallOf(posts[v], tag)) && HasMessage(s, v)
    ensures Deaf(s, v, CallOf(posts[v], tag))
    ensures s.arrived == s0.arrived + [MessageOf(posts[v], tag), MessageOf(posts[u], tag)]
  {
    var n, a, b := |posts|, CallOf(posts[u], tag), CallOf(posts[v], tag);
    var ma, mb := MessageOf(posts[u], tag), MessageOf(posts[v], tag);
    steps, s := ReceivesPass(n, before, s0, u, a, ma, v, b, mb);
    steps, s := AsleepOnAMatch(n, steps, s, u, v, b, mb);
    assert s.queue[0] in s.queue + L.Flight(s) + s.wire;
    var rest := AfterBegins(before, u, a, ma, v, b, mb);
    BothFollow(posts, tag, before, s0, u, v, rest);
  }


  // ---------------------------------------------------------------------
  // The exact condition.

  // Messages of the rank's own receives, each once, and in order on each channel.
  ghost predicate OwnMessages(posts: seq<Receive>, tag: nat, arrived: seq<Envelope>, order: seq<nat>) {
    && |order| == |arrived|
    && (forall i | 0 <= i < |order| :: order[i] < |posts| && arrived[i] == MessageOf(posts[order[i]], tag))
    && (forall i, j | 0 <= i < j < |order| ::
          order[i] != order[j] && (posts[order[i]].src == posts[order[j]].src ==> order[i] < order[j]))
  }

  // The rank may come to rest with a posted receive that does not return although its
  // message has arrived, and no message but its own is involved.
  ghost predicate MayHang(posts: seq<Receive>, tag: nat) {
    exists steps, order, t :: Hangs(posts, tag, steps, order, t)
  }

  ghost predicate Hangs(posts: seq<Receive>, tag: nat, steps: seq<L.Step>, order: seq<nat>, t: nat) {
    && L.Run(|posts|, steps).Some? && Follows(posts, tag, steps)
    && var s := L.Run(|posts|, steps).value;
    L.Quiet(s) && OwnMessages(posts, tag, s.arrived, order) && t < |s.threads| && HasMessage(s, t)
  }

  lemma {:induction false} FirstPair(posts: seq<Receive>) returns (u: nat, v: nat)
    requires !OnePerRound(posts)
    ensures u < v < |posts| && posts[u].round == posts[v].round
    ensures forall x, y | 0 <= x < y <= u :: posts[x].round != posts[y].round
  {
    var shorter := posts[..|posts| - 1];
    if OnePerRound(shorter) {
      u, v :| 0 <= u < v < |posts| && posts[u].round == posts[v].round;
      forall x, y | 0 <= x < y <= u ensures posts[x].round != posts[y].round {
        assert shorter[x].round != shorter[y].round;
      }
    } else {
      u, v := FirstPair(shorter);
      forall x, y | 0 <= x < y <= u ensures posts[x].round != posts[y].round {
        assert shorter[x].round != shorter[y].round;
      }
    }
  }

  function UpTo(k: nat): (order: seq<nat>)
    ensures |order| == k && forall i | 0 <= i < k :: order[i] == i
  {
    seq(k, i => i)
  }

  // A rank never hangs this way exactly when it posts at most one receive a round.
  lemma MayHangIff(posts: seq<Receive>, tag: nat)
    requires Ordered(posts)
    ensures !MayHang(posts, tag) <==> OnePerRound(posts)
  {
    if OnePerRound(posts) {
      forall steps, order, t: nat | Hangs(posts, tag, steps, order, t) ensures false {
        OnePerRoundIsAlone(posts, tag, steps);
        AloneIsCareful(|posts|, steps);
        CarefulSleepless(|posts|, steps, t);
      }
    } else {
      var u, v := FirstPair(posts);
      var before, s0 := ServeFirst(posts, tag, u);
      var steps, s := TwoInARound(posts, tag, before, s0, u, v);
      var order := UpTo(u) + [v, u];
      assert OwnMessages(posts, tag, s.arrived, order);
      assert Hangs(posts, tag, steps, order, v);
    }
  }

  // ---------------------------------------------------------------------
  // Collectives.

  function InRound(round: nat, srcs: seq<nat>): (posts: seq<Receive>)
    ensures |posts| == |srcs| && forall j | 0 <= j < |srcs| :: posts[j] == Receive(round, srcs[j])
  {
    seq(|srcs|, j requires 0 <= j < |srcs| => Receive(round, srcs[j]))
  }

  // The receives of rank r in its first i rounds.
  ghost function Receives(n: nat, prog: Program, r: nat, i: nat): (posts: seq<Receive>)
    requires AllMatched(n, prog) && r < n && i <= |prog|
    ensures forall u | 0 <= u < |posts| :: posts[u].round < i && posts[u].src in prog[posts[u].round].parts[r].recvs
  {
    if i == 0 then []
    else
      assert Matched(n, prog[i - 1]);
      var recvs := prog[i - 1].parts[r].recvs;
      Receives(n, prog, r, i - 1) + InRound(i - 1, recvs)
  }

  ghost predicate AtMostOneReceive(prog: Program) {
    forall i, r | 0 <= i < |prog| && 0 <= r < |prog[i].parts| :: |prog[i].parts[r].recvs| <= 1
  }

  lemma AtMostOneConcat(a: Program, b: Program)
    ensures AtMostOneReceive(a + b) <==> AtMostOneReceive(a) && AtMostOneReceive(b)
  {
    if AtMostOneReceive(a + b) {
      forall i, r | 0 <= i < |a| && 0 <= r < |a[i].parts| ensures |a[i].parts[r].recvs| <= 1 {
        assert (a + b)[i] == a[i];
      }
      forall i, r | 0 <= i < |b| && 0 <= r < |b[i].parts| ensures |b[i].parts[r].recvs| <= 1 {
        assert (a + b)[|a| + i] == b[i];
      }
    }
  }
}
