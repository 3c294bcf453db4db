/**
 Rescans (the driver in src/net/inv.rs with a fixed view of the burn chain): their windows
 tile the chain, and a full rescan of an honest peer learns exactly what it has.
 */
module Rescan {
  import opened Prelude
  import opened Codec
  import opened Messages
  import opened Bitmap
  import opened Inv
  import opened InvSync
  import opened InvRounds

  // ---- windows ----

  /** The rescan height after `k` rounds from the start. */
  function RescanAt(first: nat, burn: nat, k: nat): (h: nat)
    requires first <= burn
  {
    if first + k * MAX_BITLEN < burn then first + k * MAX_BITLEN else burn
  }

  /** How many rounds a full rescan takes: the range divided by the window, rounded up. */
  function Rounds(first: nat, burn: nat): (n: nat)
    requires first <= burn
  {
    (burn - first + MAX_BITLEN - 1) / MAX_BITLEN
  }

  lemma RescanSteps(first: nat, burn: nat, k: nat)
    requires first <= burn
    ensures RescanAt(first, burn, 0) == first
    ensures RescanAt(first, burn, k) < burn <==> k < Rounds(first, burn)
    ensures k < Rounds(first, burn) ==> NextRescan(RescanAt(first, burn, k), burn) == RescanAt(first, burn, k + 1)
    ensures RescanAt(first, burn, Rounds(first, burn)) == burn
  {
  }

  /** Every height below the tip lies in the window of exactly one round. */
  lemma WindowsTile(first: nat, burn: nat, h: nat)
    requires first <= h < burn
    ensures var k := (h - first) / MAX_BITLEN;
      && k < Rounds(first, burn)
      && RescanAt(first, burn, k) <= h < RescanAt(first, burn, k + 1)
      && forall j: nat :: RescanAt(first, burn, j) <= h < RescanAt(first, burn, j + 1) ==> j == k
  {
  }

  // ---- an honest peer ----

  /** What a peer really has, by burn block height. */
  datatype Truth = Truth(blocks: nat -> bool, microblocks: nat -> bool)

  /** The answer of a peer that reports all it has on the range asked about. */
  ghost predicate HonestReply(o: Outcome, target: nat, numBlocks: nat, truth: Truth)
  {
    o.Replied? && o.m.payload.BlocksInv? && Honest(o.m.payload.inv, target, numBlocks, truth)
  }

  ghost predicate Honest(d: BlocksInvData, target: nat, numBlocks: nat, truth: Truth)
  {
    && d.bitlen == numBlocks
    && (forall i: nat :: i < numBlocks ==> (Has(d.blockBitvec, i) <==> truth.blocks(target + i)))
    && (forall i: nat :: i < numBlocks ==> (Has(d.microblocksBitvec, i) <==> truth.microblocks(target + i)))
  }

  /** The reply a peer makes from what it has: one bit per sortition, packed. */
  method AnswerHonestly(target: nat, numBlocks: nat, truth: Truth) returns (d: BlocksInvData)
    requires numBlocks <= MAX_BITLEN
    ensures Honest(d, target, numBlocks, truth) && InBounds(d)
  {
    var blockBits := seq(numBlocks, i requires 0 <= i < numBlocks => truth.blocks(target + i));
    var microblockBits := seq(numBlocks, i requires 0 <= i < numBlocks => truth.microblocks(target + i));
    var blockBitvec := CompressBools(blockBits);
    var microblocksBitvec := CompressBools(microblockBits);
    d := BlocksInvData(numBlocks, blockBitvec, microblocksBitvec);
  }

  /** Nothing we know of the peer or of our own chain cuts a request short. */
  ghost predicate Unhindered(env: Env, nk: NeighborKey)
  {
    && (forall target: nat, highest: nat :: highest <= env.view.burnBlockHeight ==>
          Reach(env, nk, target, highest) == Some(highest))
    && (forall h: nat :: h <= env.view.burnBlockHeight ==> env.consensusAt(h).Some?)
  }

  predicate Answered(outcomes: map<NeighborKey, Outcome>, p: NeighborKey)
  {
    p in outcomes && !outcomes[p].Pending?
  }

  /**
   The polls of a round, as many as it takes: every peer answers or fails in one of them, and
   the answer of `nk`, whenever it comes, is honest about the window of the round.
   */
  ghost predicate GoodRound(first: nat, burn: nat, k: nat, nk: NeighborKey, peers: set<NeighborKey>,
                            polls: seq<map<NeighborKey, Outcome>>, truth: Truth)
    requires first <= burn
  {
    && nk in peers
    && (forall p :: p in peers ==> exists i :: 0 <= i < |polls| && Answered(polls[i], p))
    && HonestIn(polls, nk, RescanAt(first, burn, k), RescanAt(first, burn, k + 1), truth)
  }

  ghost predicate HonestIn(polls: seq<map<NeighborKey, Outcome>>, nk: NeighborKey, from: nat, to: nat, truth: Truth)
  {
    from <= to && forall i :: 0 <= i < |polls| && Answered(polls[i], nk) ==>
      HonestReply(polls[i][nk], from, to - from, truth)
  }

  predicate HasAt(has: nat -> bool, first: nat, i: nat)
  {
    has(first + i)
  }

  /** What there is to know from `first` up to, but not including, `upto`. */
  ghost function Upto(has: nat -> bool, first: nat, upto: nat): (s: set<nat>)
    requires first <= upto
  {
    set i: nat | i < upto - first && HasAt(has, first, i)
  }

  lemma ShiftedIsWindow(bits: bytes, first: nat, from: nat, to: nat, has: nat -> bool)
    requires first <= from <= to
    requires forall i: nat :: i < to - from ==> (Has(bits, i) <==> has(from + i))
    ensures Upto(has, first, from) + Shifted(bits, to - from, from - first) == Upto(has, first, to)
  {
  }

  /** `w` is `v` with what `truth` has below `upto` added, and nothing else. */
  ghost predicate Learned(v: Inventory, truth: Truth, upto: nat, w: Inventory)
    requires v.first <= upto
  {
    && w.first == v.first && w.numSortitions == v.numSortitions
    && Members(w.blocks) == Members(v.blocks) + Upto(truth.blocks, v.first, upto)
    && Members(w.microblocks) == Members(v.microblocks) + Upto(truth.microblocks, v.first, upto)
  }

  lemma LearnMore(v: Inventory, truth: Truth, from: nat, w: Inventory, d: BlocksInvData, to: nat, w': Inventory)
    requires v.first <= from <= to <= v.first + v.numSortitions && Honest(d, from, to - from, truth)
    requires Learned(v, truth, from, w) && MergesTo(w, from, d, w')
    ensures Learned(v, truth, to, w')
  {
    hide Members, Has;
    ShiftedIsWindow(d.blockBitvec, v.first, from, to, truth.blocks);
    ShiftedIsWindow(d.microblocksBitvec, v.first, from, to, truth.microblocks);
    hide Shifted, Upto;
  }

  lemma LearnNothing(v: Inventory, truth: Truth)
    ensures Learned(v, truth, v.first, v)
  {
  }

  lemma LearnedKeeps(v: Inventory, truth: Truth, upto: nat, w: Inventory)
    requires v.first <= upto && Learned(v, truth, upto, w)
    ensures w.numSortitions == v.numSortitions
  {
  }

  /** Knowing only true things before, we know exactly the truth on the range after. */
  lemma LearnedTruth(v: Inventory, truth: Truth, upto: nat, w: Inventory, i: nat)
    requires v.first <= upto && Learned(v, truth, upto, w) && i < upto - v.first
    requires i in Members(v.blocks) ==> truth.blocks(v.first + i)
    requires i in Members(v.microblocks) ==> truth.microblocks(v.first + i)
    ensures i in Members(w.blocks) <==> truth.blocks(v.first + i)
    ensures i in Members(w.microblocks) <==> truth.microblocks(v.first + i)
  {
  }

  // ---- the full rescan ----

  lemma TargetsRescan(env: Env, first: nat, rescan: nat, views: map<NeighborKey, Inventory>, peers: set<NeighborKey>,
                      sends: NeighborKey -> bool, nk: NeighborKey)
    requires Unhindered(env, nk) && nk in peers && nk in views && sends(nk)
    requires rescan < env.view.burnBlockHeight <= first + views[nk].numSortitions
    ensures var t := Targets(env, first, rescan, views, peers, sends);
      t.Keys <= peers && nk in t && t[nk] == rescan
  {
  }

  // ---- the polls of a round ----

  /** A round in progress, after `n` of its polls: who is still awaited has not answered, and `nk` has only honestly. */
  ghost predicate Underway(requests: set<NeighborKey>, invs: map<NeighborKey, BlocksInvData>,
                           polls: seq<map<NeighborKey, Outcome>>, n: nat, nk: NeighborKey,
                           from: nat, to: nat, truth: Truth)
  {
    && from <= to && n <= |polls|
    && (forall p, i :: p in requests && 0 <= i < n ==> !Answered(polls[i], p))
    && (nk in requests || (nk in invs && Honest(invs[nk], from, to - from, truth)))
  }

  lemma UnderwayOn(requests: set<NeighborKey>, invs: map<NeighborKey, BlocksInvData>, view: ChainView,
                   polls: seq<map<NeighborKey, Outcome>>, i: nat, nk: NeighborKey, from: nat, to: nat, truth: Truth)
    requires i < |polls| && HonestIn(polls, nk, from, to, truth)
    requires Underway(requests, invs, polls, i, nk, from, to, truth)
    ensures Those(requests, view, polls[i], StillPending) <= requests
    ensures Underway(Those(requests, view, polls[i], StillPending), invs + Replies(requests, view, polls[i]),
                     polls, i + 1, nk, from, to, truth)
  {
    hide Honest;
    assert nk in requests && Answered(polls[i], nk) ==> HonestReply(polls[i][nk], from, to - from, truth);
  }

  lemma SomeoneAwaited(requests: set<NeighborKey>, invs: map<NeighborKey, BlocksInvData>, first: nat, burn: nat, k: nat,
                       peers: set<NeighborKey>, polls: seq<map<NeighborKey, Outcome>>, i: nat, nk: NeighborKey,
                       from: nat, to: nat, truth: Truth)
    requires first <= burn && GoodRound(first, burn, k, nk, peers, polls, truth) && i <= |polls|
    requires requests <= peers && requests != {} && Underway(requests, invs, polls, i, nk, from, to, truth)
    ensures i < |polls|
  {
    var p :| p in requests;
    var j :| 0 <= j < |polls| && Answered(polls[j], p);
  }

  /** The first half of a round: `nk` is asked about the rescan window. */
  method AskForWindow(s: InvState, env: Env, nk: NeighborKey, peers: set<NeighborKey>, sends: NeighborKey -> bool)
    requires s.Valid() && s.state == Begin && Unhindered(env, nk) && nk in peers && nk in s.blockStats && sends(nk)
    requires s.firstBlockHeight <= s.rescanHeight < env.view.burnBlockHeight
    requires env.view.burnBlockHeight <= s.firstBlockHeight + s.blockStats[nk].numSortitions
    modifies s, s.blockStats.Values
    ensures s.Valid() && s.state == Finish && s.rescanHeight == old(s.rescanHeight)
    ensures nk in s.blockStats && s.blockStats[nk] == old(s.blockStats[nk])
    ensures s.blockStats[nk].View() == old(s.blockStats[nk].View())
    ensures forall p :: p in s.blockStats ==> s.blockStats[p] in old(s.blockStats.Values) || fresh(s.blockStats[p])
    ensures s.requests <= peers && nk in s.requests && nk in s.targetHeights && s.targetHeights[nk] == s.rescanHeight
  {
    hide Unhindered, MergesTo, Members, Targets;
    var r := s.Sync(env, peers, _ => true, sends, map[]);
    TargetsRescan(env, s.firstBlockHeight, s.rescanHeight, s.Views(), peers, sends, nk);
  }

  /** One poll of a round: it goes on with those still awaited, or it closes and the window is learned. */
  method PollOnce(s: InvState, env: Env, nk: NeighborKey, peers: set<NeighborKey>, sends: NeighborKey -> bool,
                  polls: seq<map<NeighborKey, Outcome>>, i: nat, ghost to: nat, ghost truth: Truth,
                  ghost before: Inventory)
    requires s.Valid() && s.state == Finish && before.first == s.firstBlockHeight <= env.view.burnBlockHeight
    requires nk in s.blockStats && nk in s.targetHeights && s.targetHeights[nk] == s.rescanHeight
    requires s.rescanHeight < env.view.burnBlockHeight && to == NextRescan(s.rescanHeight, env.view.burnBlockHeight)
    requires to <= s.firstBlockHeight + before.numSortitions
    requires i < |polls| && HonestIn(polls, nk, s.rescanHeight, to, truth)
    requires Underway(s.requests, s.blockInvs, polls, i, nk, s.rescanHeight, to, truth)
    requires Learned(before, truth, s.rescanHeight, s.blockStats[nk].View())
    modifies s, s.blockStats.Values
    ensures s.Valid() && nk in s.blockStats && s.blockStats[nk] == old(s.blockStats[nk])
    ensures forall p :: p in s.blockStats ==> s.blockStats[p] in old(s.blockStats.Values) || fresh(s.blockStats[p])
    ensures s.state == Begin || s.state == Finish
    ensures s.state == Finish ==>
      && s.requests != {} && s.requests <= old(s.requests) && s.rescanHeight == old(s.rescanHeight)
      && s.blockStats[nk].View() == old(s.blockStats[nk].View())
      && nk in s.targetHeights && s.targetHeights[nk] == s.rescanHeight
      && Underway(s.requests, s.blockInvs, polls, i + 1, nk, s.rescanHeight, to, truth)
    ensures s.state == Begin ==> s.rescanHeight == to && Learned(before, truth, to, s.blockStats[nk].View())
  {
    hide Unhindered, MergesTo, Members, Has, Honest, Those, Replies, Learned, Upto, HonestIn, NextRescan;
    ghost var w, from := s.blockStats[nk].View(), s.rescanHeight;
    ghost var invs := s.blockInvs + Replies(s.requests, env.view, polls[i]);
    UnderwayOn(s.requests, s.blockInvs, env.view, polls, i, nk, from, to, truth);
    var r := s.Sync(env, peers, _ => true, sends, polls[i]);
    if s.state == Begin {
      LearnMore(before, truth, from, w, invs[nk], to, s.blockStats[nk].View());
    }
  }

  /** One round below the tip, in any number of polls: the window is learned, and the rescan moves past it. */
  method RescanRound(s: InvState, env: Env, nk: NeighborKey, peers: set<NeighborKey>, sends: NeighborKey -> bool,
                     polls: seq<map<NeighborKey, Outcome>>, ghost k: nat, ghost truth: Truth, ghost before: Inventory)
    requires s.Valid() && s.state == Begin
    requires s.firstBlockHeight <= env.view.burnBlockHeight && s.firstBlockHeight <= s.rescanHeight
    requires Unhindered(env, nk) && sends(nk) && k < Rounds(s.firstBlockHeight, env.view.burnBlockHeight)
    requires s.rescanHeight == RescanAt(s.firstBlockHeight, env.view.burnBlockHeight, k)
    requires GoodRound(s.firstBlockHeight, env.view.burnBlockHeight, k, nk, peers, polls, truth)
    requires nk in s.blockStats && before.first == s.firstBlockHeight
    requires s.firstBlockHeight + before.numSortitions >= env.view.burnBlockHeight
    requires Learned(before, truth, s.rescanHeight, s.blockStats[nk].View())
    modifies s, s.blockStats.Values
    ensures s.Valid() && s.state == Begin
    ensures nk in s.blockStats && s.blockStats[nk] == old(s.blockStats[nk])
    ensures forall p :: p in s.blockStats ==> s.blockStats[p] in old(s.blockStats.Values) || fresh(s.blockStats[p])
    ensures s.rescanHeight == RescanAt(s.firstBlockHeight, env.view.burnBlockHeight, k + 1)
    ensures Learned(before, truth, s.rescanHeight, s.blockStats[nk].View())
  {
    hide RescanAt, Rounds, Honest, HonestIn, Unhindered, Learned, Answered, InvState.Valid;
    var first, burn := s.firstBlockHeight, env.view.burnBlockHeight;
    RescanSteps(first, burn, k);
    LearnedKeeps(before, truth, s.rescanHeight, s.blockStats[nk].View());
    ghost var from, to := RescanAt(first, burn, k), RescanAt(first, burn, k + 1);
    AskForWindow(s, env, nk, peers, sends);
    var i := 0;
    while s.state == Finish
      invariant s.Valid() && (s.state == Begin || s.state == Finish) && i <= |polls|
      invariant nk in s.blockStats && s.blockStats[nk] == old(s.blockStats[nk])
      invariant forall p :: p in s.blockStats ==> s.blockStats[p] in old(s.blockStats.Values) || fresh(s.blockStats[p])
      invariant s.state == Finish ==>
        && s.requests != {} && s.requests <= peers && s.rescanHeight == from
        && Learned(before, truth, from, s.blockStats[nk].View())
        && nk in s.targetHeights && s.targetHeights[nk] == from
        && Underway(s.requests, s.blockInvs, polls, i, nk, from, to, truth)
      invariant s.state == Begin ==> s.rescanHeight == to && Learned(before, truth, to, s.blockStats[nk].View())
      decreases |polls| - i
    {
      SomeoneAwaited(s.requests, s.blockInvs, first, burn, k, peers, polls, i, nk, from, to, truth);
      PollOnce(s, env, nk, peers, sends, polls, i, to, truth, before);
      i := i + 1;
    }
  }

  /**
   A full rescan with a fixed view: it takes exactly as many rounds as there are windows, ends
   at the tip, and leaves the inventory of an honest peer that answered every round equal to
   what it was before plus all it has on the range, gaps included.
   */
  method FullRescan(s: InvState, env: Env, nk: NeighborKey, peers: set<NeighborKey>, sends: NeighborKey -> bool,
                    rounds: seq<seq<map<NeighborKey, Outcome>>>, ghost truth: Truth)
    requires s.Valid() && s.state == Begin && s.rescanHeight == s.firstBlockHeight <= env.view.burnBlockHeight
    requires nk in s.blockStats && Unhindered(env, nk) && sends(nk)
    requires env.view.burnBlockHeight <= s.firstBlockHeight + s.blockStats[nk].numSortitions
    requires |rounds| == Rounds(s.firstBlockHeight, env.view.burnBlockHeight)
    requires forall k :: 0 <= k < |rounds| ==>
      GoodRound(s.firstBlockHeight, env.view.burnBlockHeight, k, nk, peers, rounds[k], truth)
    modifies s, s.blockStats.Values
    ensures s.Valid() && s.state == Begin && s.rescanHeight == env.view.burnBlockHeight
    ensures nk in s.blockStats && s.blockStats[nk] == old(s.blockStats[nk])
    ensures Learned(old(s.blockStats[nk].View()), truth, env.view.burnBlockHeight, s.blockStats[nk].View())
  {
    hide GoodRound, RescanAt, Rounds, Learned, Unhindered;
    var first, burn := s.firstBlockHeight, env.view.burnBlockHeight;
    ghost var before := s.blockStats[nk].View();
    LearnNothing(before, truth);
    RescanSteps(first, burn, 0);
    for k := 0 to |rounds|
      invariant s.Valid() && s.state == Begin && s.rescanHeight == RescanAt(first, burn, k)
      invariant nk in s.blockStats && s.blockStats[nk] == old(s.blockStats[nk])
      invariant forall p :: p in s.blockStats ==> s.blockStats[p] in old(s.blockStats.Values) || fresh(s.blockStats[p])
      invariant first <= s.rescanHeight && Learned(before, truth, s.rescanHeight, s.blockStats[nk].View())
    {
      RescanRound(s, env, nk, peers, sends, rounds[k], k, truth, before);
    }
    RescanSteps(first, burn, |rounds|);
  }
}
