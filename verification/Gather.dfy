// Gather and gatherv to one root, and the gather followed by a broadcast on one
// tag that makes an allgather.
module Gather {
  import opened Basics
  import opened Network
  import opened Runs
  import opened Broadcast

  // The ranks from i up that the root receives from, in the order of its loop.
  function Sources(n: nat, root: nat, counts: seq<nat>, i: nat): seq<nat>
    requires |counts| == n && i <= n
    decreases n - i
  {
    if i == n then []
    else if i == root || counts[i] == 0 then Sources(n, root, counts, i + 1)
    else [i] + Sources(n, root, counts, i + 1)
  }

  // gatherv: the root skips ranks whose receive size is zero, and a rank whose
  // send size is zero skips its send.
  function GathervRound(n: nat, root: nat, recvSizes: seq<nat>, sendSizes: seq<nat>): Round
    requires root < n && |recvSizes| == |sendSizes| == n
  {
    Round(seq(n, r requires 0 <= r < n =>
            if r == root then Part(Sources(n, root, recvSizes, 0), None)
            else Part([], if sendSizes[r] == 0 then None else Some(root))), Fold)
  }

  lemma {:induction false} SourcesMembers(n: nat, root: nat, counts: seq<nat>, i: nat, x: nat)
    requires |counts| == n && i <= n
    ensures x in Sources(n, root, counts, i) <==> i <= x < n && x != root && counts[x] != 0
    decreases n - i
  {
    if i < n {
      SourcesMembers(n, root, counts, i + 1, x);
    }
  }

  lemma DistinctCons(x: nat, xs: seq<nat>)
    requires Distinct(xs) && x !in xs
    ensures Distinct([x] + xs)
  {
  }

  lemma {:induction false} SourcesDistinct(n: nat, root: nat, counts: seq<nat>, i: nat)
    requires |counts| == n && i <= n
    ensures Distinct(Sources(n, root, counts, i)) && InRange(Sources(n, root, counts, i), n)
    decreases n - i
  {
    if i < n {
      SourcesDistinct(n, root, counts, i + 1);
      SourcesMembers(n, root, counts, i + 1, i);
      DistinctCons(i, Sources(n, root, counts, i + 1));
    }
  }

  ghost predicate SizesAgree(root: nat, recvSizes: seq<nat>, sendSizes: seq<nat>)
    requires |recvSizes| == |sendSizes|
  {
    forall r | 0 <= r < |recvSizes| && r != root :: recvSizes[r] == 0 <==> sendSizes[r] == 0
  }

  // The root's receives match the other ranks' sends exactly when the root and
  // each rank agree on whether that rank's block is empty.
  lemma GathervMatchedIff(n: nat, root: nat, recvSizes: seq<nat>, sendSizes: seq<nat>)
    requires root < n && |recvSizes| == |sendSizes| == n
    ensures Matched(n, GathervRound(n, root, recvSizes, sendSizes)) <==> SizesAgree(root, recvSizes, sendSizes)
  {
    var round := GathervRound(n, root, recvSizes, sendSizes);
    SourcesDistinct(n, root, recvSizes, 0);
    forall r: nat ensures r in round.parts[root].recvs <==> r < n && r != root && recvSizes[r] != 0 {
      SourcesMembers(n, root, recvSizes, 0, r);
    }
    if Matched(n, round) {
      forall r: nat | r < n && r != root ensures recvSizes[r] == 0 <==> sendSizes[r] == 0 {
        assert round.parts[r].dst == Some(root) <==> r in round.parts[root].recvs;
      }
    }
  }

  // gather: every block has the same size, and even an empty block is exchanged.
  function GatherRound(n: nat, root: nat): Round
    requires root < n
  {
    var ones := seq(n, _ => 1);
    GathervRound(n, root, ones, ones)
  }

  // ---------------------------------------------------------------------
  // What arrives. A receive buffer is the set of blocks it holds, by rank.

  function Merge<B>(input: map<nat, B>, inout: map<nat, B>): map<nat, B> { inout + input }

  // Rank r starts out with its own block only.
  ghost function OwnBlocks<B>(blocks: seq<B>): seq<map<nat, B>> {
    seq(|blocks|, r requires 0 <= r < |blocks| => map[r := blocks[r]])
  }

  ghost function Collected<B>(blocks: seq<B>, counts: seq<nat>, root: nat, i: nat): map<nat, B>
    requires |counts| == |blocks|
  {
    map r: nat | r < |blocks| && (r == root || (r < i && counts[r] != 0)) :: blocks[r]
  }

  // One more rank: nothing is received from it, or its block is added.
  lemma CollectedNext<B>(blocks: seq<B>, counts: seq<nat>, root: nat, i: nat)
    requires i < |blocks| == |counts|
    ensures i == root || counts[i] == 0 ==>
              Collected(blocks, counts, root, i) == Collected(blocks, counts, root, i + 1)
    ensures i != root && counts[i] != 0 ==>
              Apply(Fold, Merge, Collected(blocks, counts, root, i), OwnBlocks(blocks)[i])
              == Collected(blocks, counts, root, i + 1)
  {
  }

  lemma {:induction false} AbsorbSources<B>(blocks: seq<B>, counts: seq<nat>, root: nat, i: nat)
    requires root < |blocks| == |counts| && i <= |blocks|
    ensures InRange(Sources(|blocks|, root, counts, i), |blocks|)
    ensures Absorb(Fold, Merge, Collected(blocks, counts, root, i), OwnBlocks(blocks),
                   Sources(|blocks|, root, counts, i))
         == Collected(blocks, counts, root, |blocks|)
    decreases |blocks| - i
  {
    var n := |blocks|;
    SourcesDistinct(n, root, counts, i);
    if i < n {
      AbsorbSources(blocks, counts, root, i + 1);
      CollectedNext(blocks, counts, root, i);
      if i != root && counts[i] != 0 {
        AbsorbCons(Fold, Merge, Collected(blocks, counts, root, i), OwnBlocks(blocks), i,
                   Sources(n, root, counts, i + 1));
      }
    }
  }

  // The root ends with its own block and every non-empty block of the others.
  lemma GathervValue<B>(blocks: seq<B>, root: nat, recvSizes: seq<nat>, sendSizes: seq<nat>)
    requires root < |blocks| == |recvSizes| == |sendSizes| && SizesAgree(root, recvSizes, sendSizes)
    ensures Matched(|blocks|, GathervRound(|blocks|, root, recvSizes, sendSizes))
    ensures ExecRound(Merge, GathervRound(|blocks|, root, recvSizes, sendSizes), OwnBlocks(blocks))[root]
         == Collected(blocks, recvSizes, root, |blocks|)
  {
    var n := |blocks|;
    var round := GathervRound(n, root, recvSizes, sendSizes);
    GathervMatchedIff(n, root, recvSizes, sendSizes);
    ExecRoundAt(Merge, round, OwnBlocks(blocks), root, Fold, Sources(n, root, recvSizes, 0));
    assert OwnBlocks(blocks)[root] == Collected(blocks, recvSizes, root, 0);
    AbsorbSources(blocks, recvSizes, root, 0);
  }

  // ---------------------------------------------------------------------
  // Allgather.

  function AllgatherProg(n: nat): Program
    requires 0 < n
  {
    [GatherRound(n, 0)] + BcastProg(n, 0)
  }

  ghost function AllBlocks<B>(blocks: seq<B>): map<nat, B> {
    map r: nat | r < |blocks| :: blocks[r]
  }

  lemma AllgatherValue<B>(blocks: seq<B>)
    requires blocks != []
    ensures AllMatched(|blocks|, AllgatherProg(|blocks|))
    ensures Exec(Merge, AllgatherProg(|blocks|), OwnBlocks(blocks)) == seq(|blocks|, _ => AllBlocks(blocks))
  {
    var n := |blocks|;
    var ones: seq<nat> := seq(n, _ => 1);
    GathervValue(blocks, 0, ones, ones);
    BcastMatched(n, 0, MaskCount(n, 1));
    ExecCons(Merge, GatherRound(n, 0), BcastProg(n, 0), OwnBlocks(blocks));
    BcastValue(Merge, 0, ExecRound(Merge, GatherRound(n, 0), OwnBlocks(blocks)));
    assert Collected(blocks, ones, 0, n) == AllBlocks(blocks);
  }

  // Any rank that has returned from an allgather holds every rank's block,
  // whatever phase the others are in.
  lemma AllgatherRun<B>(blocks: seq<B>, strict: bool, steps: seq<Step>, r: nat)
    requires r < |blocks| && AllMatched(|blocks|, AllgatherProg(|blocks|))
    requires Run(Merge, AllgatherProg(|blocks|), OwnBlocks(blocks), strict, steps).Some?
    ensures var s := Run(Merge, AllgatherProg(|blocks|), OwnBlocks(blocks), strict, steps).value;
            s.pcs[r].round == |AllgatherProg(|blocks|)| ==> s.accs[r] == AllBlocks(blocks)
  {
    var prog := AllgatherProg(|blocks|);
    EveryRunAgrees(Merge, prog, OwnBlocks(blocks), strict, steps, r);
    AllgatherValue(blocks);
    assert prog[..|prog|] == prog;
  }

  // ---------------------------------------------------------------------
  // The loops of mona_comm_gatherv for one rank.

  method SourceLoop(n: nat, rank: nat, counts: seq<nat>) returns (srcs: seq<nat>)
    requires rank < n && |counts| == n
    ensures srcs == Sources(n, rank, counts, 0)
  {
    srcs := [];
    ghost var rest := Sources(n, rank, counts, 0);
    var i := 0;
    while i < n
      invariant 0 <= i <= n && rest == Sources(n, rank, counts, i)
      invariant srcs + rest == Sources(n, rank, counts, 0)
    {
      rest := Sources(n, rank, counts, i + 1);
      if i != rank && counts[i] != 0 {
        ConcatAssociative(srcs, [i], rest);
        srcs := srcs + [i];
      }
      i := i + 1;
    }
  }

  method GathervLoops(n: nat, rank: nat, root: nat, recvSizes: seq<nat>, sendSize: nat, ghost sendSizes: seq<nat>)
    returns (events: seq<Event>)
    requires rank < n && root < n && |recvSizes| == |sendSizes| == n && sendSizes[rank] == sendSize
    ensures events == PartEvents(GathervRound(n, root, recvSizes, sendSizes).parts[rank])
  {
    if rank == root {
      var posted := SourceLoop(n, rank, recvSizes);
      var waited := SourceLoop(n, rank, recvSizes);
      assert Posts(posted) + [] + Waits(waited) == Posts(posted) + Waits(waited);
      events := Posts(posted) + Waits(waited);
    } else if sendSize == 0 {
      events := [];
    } else {
      events := [SendTo(root)];
    }
  }
}
