/** The state of inventory synchronization and its rounds (InvState in src/net/inv.rs). */
module InvRounds {
  import opened Prelude
  import opened Codec
  import opened Messages
  import opened Bitmap
  import opened Inv
  import opened InvSync

  datatype WorkState = Begin | Finish | Done

  /** The shape every inventory keeps: equal bitmaps that cover the sortitions known. */
  predicate Sound(v: Inventory, first: nat) {
    v.first == first && |v.blocks| == |v.microblocks| && v.numSortitions <= 8 * |v.blocks|
  }

  lemma MergeKeepsSound(a: Inventory, height: nat, d: BlocksInvData, b: Inventory, first: nat)
    requires Sound(a, first) && first <= height && MergesTo(a, height, d, b)
    requires d.bitlen > 0 || height <= first + a.numSortitions
    ensures Sound(b, first) && b.numSortitions >= a.numSortitions
  {
  }

  lemma MergeReaches(a: Inventory, height: nat, d: BlocksInvData, b: Inventory)
    requires height >= a.first && MergesTo(a, height, d, b)
    ensures b.first == a.first && b.numSortitions == Max(a.numSortitions, height - a.first + d.bitlen)
  {
  }

  /** What a polled request comes to. */
  datatype Verdict = GotInv(d: BlocksInvData) | StillPending | Dead | Nacked(nack: NackResult)

  function VerdictOf(view: ChainView, outcomes: map<NeighborKey, Outcome>, k: NeighborKey): (v: Verdict)
    ensures v.GotInv? ==> InBounds(v.d)
  {
    if k !in outcomes then StillPending else
    match outcomes[k]
    case Pending => StillPending
    case Failed => Dead
    case Replied(m) =>
      match m.payload
      case BlocksInv(d) => GotInv(d)
      case Nack(code) => Nacked(DiagnoseNack(code, view, m.preamble))
      case _ => Nacked(Broken)
  }

  /** The keys, of those given, whose request came to `v`. */
  ghost function Those(keys: set<NeighborKey>, view: ChainView, outcomes: map<NeighborKey, Outcome>, v: Verdict)
    : (s: set<NeighborKey>)
  {
    set k | k in keys && VerdictOf(view, outcomes, k) == v
  }

  ghost function Replies(keys: set<NeighborKey>, view: ChainView, outcomes: map<NeighborKey, Outcome>)
    : (m: map<NeighborKey, BlocksInvData>)
  {
    map k | k in keys && VerdictOf(view, outcomes, k).GotInv? :: VerdictOf(view, outcomes, k).d
  }

  ghost predicate AllInBounds(invs: map<NeighborKey, BlocksInvData>)
  {
    forall k :: k in invs ==> InBounds(invs[k])
  }

  lemma UnionInBounds(a: map<NeighborKey, BlocksInvData>, b: map<NeighborKey, BlocksInvData>)
    requires AllInBounds(a) && AllInBounds(b)
    ensures AllInBounds(a + b) && (a + b).Keys == a.Keys + b.Keys
  {
  }

  lemma RepliesInBounds(keys: set<NeighborKey>, view: ChainView, outcomes: map<NeighborKey, Outcome>)
    ensures Replies(keys, view, outcomes).Keys <= keys && Those(keys, view, outcomes, StillPending) <= keys
    ensures AllInBounds(Replies(keys, view, outcomes))
  {
  }

  /** The requests of a round, sorted by what became of them. */
  datatype Tally = Tally(
    invs: map<NeighborKey, BlocksInvData>,
    pending: set<NeighborKey>, dead: set<NeighborKey>, broken: set<NeighborKey>,
    stale: set<NeighborKey>, diverged: set<NeighborKey>, unstable: set<NeighborKey>)

  ghost predicate Tallied(t: Tally, keys: set<NeighborKey>, view: ChainView, outcomes: map<NeighborKey, Outcome>)
  {
    && t.invs == Replies(keys, view, outcomes)
    && t.pending == Those(keys, view, outcomes, StillPending)
    && t.dead == Those(keys, view, outcomes, Dead)
    && t.broken == Those(keys, view, outcomes, Nacked(Broken))
    && t.stale == Those(keys, view, outcomes, Nacked(Stale))
    && t.diverged == Those(keys, view, outcomes, Nacked(Diverged))
    && t.unstable == Those(keys, view, outcomes, Nacked(Unstable))
  }

  function Put(t: Tally, k: NeighborKey, v: Verdict): (t': Tally)
  {
    match v
    case GotInv(d) => t.(invs := t.invs[k := d])
    case StillPending => t.(pending := t.pending + {k})
    case Dead => t.(dead := t.dead + {k})
    case Nacked(Stale) => t.(stale := t.stale + {k})
    case Nacked(Unstable) => t.(unstable := t.unstable + {k})
    case Nacked(Diverged) => t.(diverged := t.diverged + {k})
    case Nacked(Broken) => t.(broken := t.broken + {k})
    case Nacked(Noop) => t
  }

  lemma ThoseStep(keys: set<NeighborKey>, k: NeighborKey, view: ChainView, outcomes: map<NeighborKey, Outcome>,
                  v: Verdict)
    ensures Those(keys + {k}, view, outcomes, v) ==
      Those(keys, view, outcomes, v) + if VerdictOf(view, outcomes, k) == v then {k} else {}
  {
  }

  lemma RepliesStep(keys: set<NeighborKey>, k: NeighborKey, view: ChainView, outcomes: map<NeighborKey, Outcome>)
    ensures var v := VerdictOf(view, outcomes, k);
      Replies(keys + {k}, view, outcomes) ==
        if v.GotInv? then Replies(keys, view, outcomes)[k := v.d] else Replies(keys, view, outcomes)
  {
  }

  lemma PutStep(t: Tally, keys: set<NeighborKey>, k: NeighborKey, view: ChainView, outcomes: map<NeighborKey, Outcome>)
    requires Tallied(t, keys, view, outcomes)
    ensures Tallied(Put(t, k, VerdictOf(view, outcomes, k)), keys + {k}, view, outcomes)
  {
    hide VerdictOf, Those, Replies;
    RepliesStep(keys, k, view, outcomes);
    ThoseStep(keys, k, view, outcomes, StillPending);
    ThoseStep(keys, k, view, outcomes, Dead);
    ThoseStep(keys, k, view, outcomes, Nacked(Broken));
    ThoseStep(keys, k, view, outcomes, Nacked(Stale));
    ThoseStep(keys, k, view, outcomes, Nacked(Diverged));
    ThoseStep(keys, k, view, outcomes, Nacked(Unstable));
  }

  function One(b: bool): (n: nat)
  {
    if b then 1 else 0
  }

  /** In how many places a tally has a peer. */
  function Places(t: Tally, k: NeighborKey): (n: nat)
  {
    One(k in t.invs) + One(k in t.pending) + One(k in t.dead) + One(k in t.broken)
    + One(k in t.stale) + One(k in t.diverged) + One(k in t.unstable)
  }

  /** Whatever the replies, no request is lost and none comes to two things. */
  lemma EachSortedOnce(t: Tally, keys: set<NeighborKey>, view: ChainView, outcomes: map<NeighborKey, Outcome>,
                       k: NeighborKey)
    requires Tallied(t, keys, view, outcomes)
    ensures Places(t, k) == One(k in keys)
  {
    hide VerdictOf;
    NoNoop(view, outcomes, k);
    var v := VerdictOf(view, outcomes, k);
    assert k in keys ==> v.GotInv? || v == StillPending || v == Dead || v.nack != Noop;
  }

  lemma NoNoop(view: ChainView, outcomes: map<NeighborKey, Outcome>, k: NeighborKey)
    ensures VerdictOf(view, outcomes, k) != Nacked(Noop)
  {
    if k in outcomes && outcomes[k].Replied? && outcomes[k].m.payload.Nack? {
      NackVerdicts(view, outcomes[k].m.preamble, outcomes[k].m.payload.errorCode);
    }
  }

  lemma NothingTallied(view: ChainView, outcomes: map<NeighborKey, Outcome>)
    ensures Tallied(Tally(map[], {}, {}, {}, {}, {}, {}), {}, view, outcomes)
  {
  }

  /** Poll the requests in any order. */
  method PollAll(requests: set<NeighborKey>, view: ChainView, outcomes: map<NeighborKey, Outcome>) returns (t: Tally)
    ensures Tallied(t, requests, view, outcomes)
  {
    hide VerdictOf, Tallied, Put;
    t := Tally(map[], {}, {}, {}, {}, {}, {});
    NothingTallied(view, outcomes);
    var todo, polled := requests, {};
    while todo != {}
      invariant polled + todo == requests
      invariant Tallied(t, polled, view, outcomes)
      decreases todo
    {
      var nk :| nk in todo;
      PutStep(t, polled, nk, view, outcomes);
      t := Put(t, nk, VerdictOf(view, outcomes, nk));
      todo, polled := todo - {nk}, polled + {nk};
    }
    assert polled == requests;
  }

  /** The height each peer is asked about: those with a request to make and whose request was sent. */
  ghost function Targets(env: Env, first: nat, rescan: nat, views: map<NeighborKey, Inventory>,
                         peers: set<NeighborKey>, sends: NeighborKey -> bool): (m: map<NeighborKey, nat>)
  {
    map k | k in peers && k in views && sends(k)
            && MakeNext(env, first, rescan, views[k].numSortitions, k).Some?
         :: MakeNext(env, first, rescan, views[k].numSortitions, k).value.0
  }

  /** The sortitions a peer is known to have data for. */
  ghost function Known(v: Inventory, microblocks: bool): (s: set<nat>)
  {
    Members(if microblocks then v.microblocks else v.blocks)
  }

  /** One bit is added to one of the bitmaps, and nothing to the other. */
  ghost predicate AddsBit(v: Inventory, at: nat, microblocks: bool, w: Inventory)
  {
    && Known(w, microblocks) == Known(v, microblocks) + {at} && Known(w, !microblocks) == Known(v, !microblocks)
    && w.first == v.first && w.numSortitions == Max(v.numSortitions, at + 1)
  }

  /** A snapshot of the burn database; heights there count from one past the genesis snapshot. */
  datatype Snapshot = Snapshot(blockHeight: nat, consensusHash: bytes, sortition: bool)

  /** The snapshot stored first, before any block: it lies at the first block height and claims a sortition. */
  function InitialSnapshot(first: nat): (s: Snapshot)
  {
    Snapshot(first, seq(20, _ => 0), true)
  }

  /** What an announcement comes to; a failed assertion is a crash. */
  datatype Announced = Answered(result: Result<Option<nat>>) | Crashed

  /** The announcement is of a sortition we know, under the consensus hash we know for it. */
  predicate Agreed(snapshot: Option<Snapshot>, consensusHash: bytes) {
    snapshot.Some? && snapshot.value.consensusHash == consensusHash && snapshot.value.sortition
  }

  /** Snapshots at or below the first block stand for no bit of an inventory. */
  predicate Fatal(snapshot: Option<Snapshot>, consensusHash: bytes, first: nat) {
    Agreed(snapshot, consensusHash) && snapshot.value.blockHeight <= first
  }

  /** Between two events of a run: where the round stands, and of whom there are statistics. */
  datatype Point = Point(state: WorkState, known: set<NeighborKey>)

  ghost predicate Follows(a: Point, e: Event, b: Point) {
    match e
    case Poll(_, peers, _, _, _) => b.known == if a.state == Begin then a.known + peers else a.known
    case Announce(_, _, _, _) => b == a
    case Disconnect(nk) => b == a.(known := a.known - {nk})
  }

  /** The event is an announcement that crashes: from a peer with statistics, of a snapshot without a bit. */
  predicate FatalAt(e: Event, at: Point, first: nat) {
    e.Announce? && e.nk in at.known && Fatal(e.snapshot, e.consensusHash, first)
  }

  /** A peer's inventory across the merging of a round. */
  ghost predicate MergedView(a: Inventory, k: NeighborKey, targets: map<NeighborKey, nat>,
                             invs: map<NeighborKey, BlocksInvData>, b: Inventory)
  {
    if k in invs && k in targets then a.first <= targets[k] && MergesTo(a, targets[k], invs[k], b) else b == a
  }

  /** The next rescan height after a round below the tip. */
  function NextRescan(rescan: nat, burn: nat): (r: nat)
    requires rescan < burn
    ensures rescan < r <= burn
  {
    if rescan + MAX_BITLEN < burn then rescan + MAX_BITLEN else burn
  }

  class InvState {
    var state: WorkState
    var requests: set<NeighborKey>
    var targetHeights: map<NeighborKey, nat>
    var blockInvs: map<NeighborKey, BlocksInvData>
    var syncPeers: set<NeighborKey>
    var stalePeers: set<NeighborKey>
    var unstablePeers: set<NeighborKey>
    var divergedPeers: set<NeighborKey>
    var brokenPeers: set<NeighborKey>
    var deadPeers: set<NeighborKey>
    var blockStats: map<NeighborKey, PeerBlocksInv>
    const firstBlockHeight: nat
    var rescanHeight: nat
    var numRescans: nat

    constructor (firstBlockHeight: nat, initialPeers: set<NeighborKey>)
      ensures Valid() && state == Begin && blockStats == map[]
      ensures this.firstBlockHeight == firstBlockHeight && rescanHeight == firstBlockHeight
    {
      this.firstBlockHeight := firstBlockHeight;
      state, requests, targetHeights, blockInvs := Begin, {}, map[], map[];
      syncPeers := initialPeers;
      stalePeers, unstablePeers, divergedPeers, brokenPeers, deadPeers := {}, {}, {}, {}, {};
      blockStats := map[];
      rescanHeight, numRescans := firstBlockHeight, 0;
    }

    ghost function Views(): (m: map<NeighborKey, Inventory>)
      reads this`blockStats, blockStats.Values
    {
      map k | k in blockStats :: blockStats[k].View()
    }

    ghost predicate Stats()
      reads this`blockStats, blockStats.Values
    {
      && (forall k :: k in blockStats ==> Sound(blockStats[k].View(), firstBlockHeight))
      && (forall k, l :: k in blockStats && l in blockStats && k != l ==> blockStats[k] != blockStats[l])
    }

    /** Every issued target lies at most at the end of the sortitions known of its peer. */
    ghost predicate Targeted()
      reads this`blockStats, this`targetHeights, blockStats.Values
    {
      forall k :: k in targetHeights && k in blockStats ==>
        firstBlockHeight <= targetHeights[k] <= firstBlockHeight + blockStats[k].numSortitions
    }

    /** The run invariant. */
    ghost predicate Valid()
      reads this, blockStats.Values
    {
      && firstBlockHeight <= rescanHeight && Stats() && Targeted()
      && (state == Begin ==> requests == {} && targetHeights == map[] && blockInvs == map[])
      && requests <= targetHeights.Keys && blockInvs.Keys <= targetHeights.Keys
      && AllInBounds(blockInvs)
    }

    method AddPeer(nk: NeighborKey)
      requires Stats()
      modifies this`blockStats
      ensures Stats() && nk in blockStats && fresh(blockStats[nk])
      ensures blockStats == old(blockStats)[nk := blockStats[nk]]
      ensures blockStats[nk].View() == Inventory([], [], 0, firstBlockHeight)
    {
      var stats := new PeerBlocksInv(firstBlockHeight);
      blockStats := blockStats[nk := stats];
    }

    method DelPeer(nk: NeighborKey)
      requires Valid()
      modifies this`blockStats
      ensures Valid() && blockStats == old(blockStats) - {nk}
    {
      blockStats := blockStats - {nk};
    }

    /** Work out what to ask each peer, adding statistics for new ones. */
    method ChooseTargets(env: Env, peers: set<NeighborKey>) returns (invTargets: map<NeighborKey, (nat, GetInv)>)
      requires Stats()
      modifies this`blockStats
      ensures Stats() && blockStats.Keys == old(blockStats).Keys + peers
      ensures forall k :: k in old(blockStats) ==> blockStats[k] == old(blockStats[k])
      ensures forall k :: k in blockStats && k !in old(blockStats) ==>
        fresh(blockStats[k]) && blockStats[k].View() == Inventory([], [], 0, firstBlockHeight)
      ensures Chosen(env, peers, invTargets)
    {
      hide MakeNext, Sound;
      invTargets := map[];
      var todo := peers;
      while todo != {}
        invariant todo <= peers
        invariant Stats() && blockStats.Keys == old(blockStats).Keys + (peers - todo)
        invariant forall k :: k in old(blockStats) ==> blockStats[k] == old(blockStats[k])
        invariant forall k :: k in blockStats && k !in old(blockStats) ==>
          fresh(blockStats[k]) && blockStats[k].View() == Inventory([], [], 0, firstBlockHeight)
        invariant invTargets.Keys <= peers - todo
        invariant forall k :: k in peers - todo ==>
          var next := MakeNext(env, firstBlockHeight, rescanHeight, blockStats[k].numSortitions, k);
          (k in invTargets <==> next.Some?) && (next.Some? ==> invTargets[k] == next.value)
      {
        var nk :| nk in todo;
        todo := todo - {nk};
        if nk !in blockStats {
          AddPeer(nk);
        }
        var next := MakeNext(env, firstBlockHeight, rescanHeight, blockStats[nk].numSortitions, nk);
        if next.Some? {
          invTargets := invTargets[nk := next.value];
        }
      }
    }

    /** Begin a round: every peer gets at most one request, at a target in range. */
    method BeginRound(env: Env, peers: set<NeighborKey>, signs: NeighborKey -> bool, sends: NeighborKey -> bool)
      returns (r: Result<()>)
      requires Valid() && state == Begin
      modifies this`blockStats, this`requests, this`targetHeights, this`blockInvs, this`state
      ensures Valid() && blockStats.Keys == old(blockStats).Keys + peers
      ensures forall k :: k in old(blockStats) ==> blockStats[k] == old(blockStats[k])
      ensures forall k :: k in blockStats && k !in old(blockStats) ==>
        fresh(blockStats[k]) && blockStats[k].View() == Inventory([], [], 0, firstBlockHeight)
      ensures r.Err? ==> state == Begin
      ensures AllSign(peers, signs) ==> r.Ok?
      ensures r.Ok? ==>
        && state == Finish && blockInvs == map[] && requests == targetHeights.Keys
        && targetHeights == Targets(env, firstBlockHeight, rescanHeight, Views(), peers, sends)
    {
      hide MakeNext, Sound, Targets, Views, Stats, AllSign;
      var invTargets := ChooseTargets(env, peers);
      r := SendRequests(env, peers, invTargets, signs, sends);
    }

    /** The requests and their targets, one for one. */
    ghost predicate Chosen(env: Env, peers: set<NeighborKey>, invTargets: map<NeighborKey, (nat, GetInv)>)
      reads this`blockStats, this`rescanHeight, blockStats.Values
    {
      && peers <= blockStats.Keys && invTargets.Keys <= peers
      && forall k :: k in peers ==>
           var next := MakeNext(env, firstBlockHeight, rescanHeight, blockStats[k].numSortitions, k);
           (k in invTargets <==> next.Some?) && (next.Some? ==> invTargets[k] == next.value)
    }

    method SendRequests(env: Env, peers: set<NeighborKey>, invTargets: map<NeighborKey, (nat, GetInv)>,
                        signs: NeighborKey -> bool, sends: NeighborKey -> bool)
      returns (r: Result<()>)
      requires Valid() && state == Begin && Chosen(env, peers, invTargets)
      modifies this`requests, this`targetHeights, this`blockInvs, this`state
      ensures Valid() && (r.Err? ==> state == Begin)
      ensures AllSign(peers, signs) ==> r.Ok?
      ensures r.Ok? ==>
        && state == Finish && blockInvs == map[] && requests == targetHeights.Keys
        && targetHeights == Targets(env, firstBlockHeight, rescanHeight, Views(), peers, sends)
    {
      hide AllSign, AllInBounds, Chosen, Targets, Views, Stats, SentOf;
      AskedOnly(env, peers, invTargets, signs);
      var sent := SendAll(invTargets, signs, sends);
      if sent.Err? {
        return Err(sent.error);
      }
      var heights := sent.value;
      SentAreTargets(env, peers, sends, invTargets, heights);
      Issue(heights);
      r := Ok(());
    }

    /** getblocksinv_begin */
    method Issue(heights: map<NeighborKey, nat>)
      requires state == Begin
      modifies this`requests, this`targetHeights, this`blockInvs, this`state
      ensures state == Finish && blockInvs == map[] && targetHeights == heights && requests == heights.Keys
    {
      blockInvs, requests, targetHeights, state := map[], heights.Keys, heights, Finish;
    }

    lemma AskedOnly(env: Env, peers: set<NeighborKey>, invTargets: map<NeighborKey, (nat, GetInv)>,
                    signs: NeighborKey -> bool)
      requires Chosen(env, peers, invTargets)
      ensures AllSign(peers, signs) ==> AllSign(invTargets.Keys, signs)
    {
    }

    lemma SentAreTargets(env: Env, peers: set<NeighborKey>, sends: NeighborKey -> bool,
                         invTargets: map<NeighborKey, (nat, GetInv)>, heights: map<NeighborKey, nat>)
      requires firstBlockHeight <= rescanHeight && Chosen(env, peers, invTargets)
      requires heights == SentOf(invTargets, sends)
      ensures heights == Targets(env, firstBlockHeight, rescanHeight, Views(), peers, sends)
      ensures forall k :: k in heights ==>
        k in blockStats && firstBlockHeight <= heights[k] <= firstBlockHeight + blockStats[k].numSortitions
    {
      hide MakeNext;
      var targets := Targets(env, firstBlockHeight, rescanHeight, Views(), peers, sends);
      forall k | k in peers
        ensures k in heights <==> k in targets
        ensures k in heights ==> heights[k] == targets[k]
        ensures k in heights ==> firstBlockHeight <= heights[k] <= firstBlockHeight + blockStats[k].numSortitions
      {
        if k in heights {
          TargetInRange(env, firstBlockHeight, rescanHeight, blockStats[k].numSortitions, k);
        }
      }
    }

    /** Poll every request once and sort its peer by what became of it. */
    method TryFinish(view: ChainView, outcomes: map<NeighborKey, Outcome>) returns (finished: bool)
      requires Valid() && state == Finish
      modifies this`requests, this`blockInvs, this`state, this`stalePeers, this`unstablePeers,
               this`divergedPeers, this`brokenPeers, this`deadPeers
      ensures Valid()
      ensures blockInvs == old(blockInvs) + Replies(old(requests), view, outcomes)
      ensures requests == Those(old(requests), view, outcomes, StillPending)
      ensures finished <==> requests == {}
      ensures state == if finished then Done else Finish
      ensures deadPeers == old(deadPeers) + Those(old(requests), view, outcomes, Dead)
      ensures brokenPeers == old(brokenPeers) + Those(old(requests), view, outcomes, Nacked(Broken))
      ensures stalePeers == old(stalePeers) + Those(old(requests), view, outcomes, Nacked(Stale))
      ensures divergedPeers == old(divergedPeers) + Those(old(requests), view, outcomes, Nacked(Diverged))
      ensures unstablePeers == old(unstablePeers) + Those(old(requests), view, outcomes, Nacked(Unstable))
    {
      hide VerdictOf, Stats, Targeted, Those, Replies, AllInBounds;
      var t := PollAll(requests, view, outcomes);
      RepliesInBounds(requests, view, outcomes);
      UnionInBounds(blockInvs, t.invs);
      finished := t.pending == {};
      Note(t, if finished then Done else Finish);
    }

    method Note(t: Tally, next: WorkState)
      modifies this`requests, this`blockInvs, this`state, this`stalePeers, this`unstablePeers,
               this`divergedPeers, this`brokenPeers, this`deadPeers
      ensures blockInvs == old(blockInvs) + t.invs && requests == t.pending && state == next
      ensures deadPeers == old(deadPeers) + t.dead && brokenPeers == old(brokenPeers) + t.broken
      ensures stalePeers == old(stalePeers) + t.stale && divergedPeers == old(divergedPeers) + t.diverged
      ensures unstablePeers == old(unstablePeers) + t.unstable
    {
      blockInvs, requests, state := blockInvs + t.invs, t.pending, next;
      deadPeers, brokenPeers, stalePeers := deadPeers + t.dead, brokenPeers + t.broken, stalePeers + t.stale;
      divergedPeers, unstablePeers := divergedPeers + t.diverged, unstablePeers + t.unstable;
    }

    /** Merge one reply; by distinctness no other peer's inventory changes. */
    method MergeOne(nk: NeighborKey, target: nat, d: BlocksInvData)
      requires Stats() && nk in blockStats && InBounds(d)
      requires firstBlockHeight <= target
      requires d.bitlen > 0 || target <= firstBlockHeight + blockStats[nk].numSortitions
      modifies blockStats[nk]
      ensures Stats() && MergesTo(old(blockStats[nk].View()), target, d, blockStats[nk].View())
      ensures blockStats[nk].numSortitions >= old(blockStats[nk].numSortitions)
      ensures forall k :: k in blockStats && k != nk ==> blockStats[k].View() == old(blockStats[k].View())
    {
      hide MergesTo;
      var stats := blockStats[nk];
      var _, _ := stats.MergeBlocksInv(target, d);
      MergeKeepsSound(old(stats.View()), target, d, stats.View(), firstBlockHeight);
    }

    /** The end of a round: every reply is merged at its target, and no assertion fires. */
    method MergeReplies()
      requires Valid()
      modifies blockStats.Values
      ensures Stats()
      ensures forall k :: k in blockStats ==>
        MergedView(old(blockStats[k].View()), k, targetHeights, blockInvs, blockStats[k].View())
    {
      hide MergesTo;
      var todo := blockInvs.Keys;
      while todo != {}
        invariant todo <= blockInvs.Keys && Stats()
        invariant forall k :: k in blockStats && (k in todo || k !in blockInvs) ==>
          blockStats[k].View() == old(blockStats[k].View())
        invariant forall k :: k in blockStats && k in blockInvs && k !in todo ==>
          MergedView(old(blockStats[k].View()), k, targetHeights, blockInvs, blockStats[k].View())
        decreases todo
      {
        var nk :| nk in todo;
        if nk in blockStats {
          MergeOne(nk, targetHeights[nk], blockInvs[nk]);
        }
        todo := todo - {nk};
      }
    }

    /**
     A peer announced a block or microblock stream.  Its height may lie past the end of what
     we know of the peer, leaving a gap that only a rescan fills.  It crashes exactly if we
     agree on a snapshot at or below the first block and have statistics of the peer.
     */
    method SetDataAvailable(nk: NeighborKey, snapshot: Option<Snapshot>, consensusHash: bytes, microblocks: bool)
      returns (a: Announced)
      requires Valid()
      modifies blockStats.Values
      ensures Valid()
      ensures a.Crashed? <==> nk in blockStats && Fatal(snapshot, consensusHash, firstBlockHeight)
      ensures a == Answered(Err(InvalidMessage)) <==>
        snapshot.Some? && snapshot.value.consensusHash == consensusHash && !snapshot.value.sortition
      ensures nk !in blockStats && a.result.Ok? ==> a.result.value == None
      ensures forall k :: k in blockStats && k != nk ==> blockStats[k].View() == old(blockStats[k].View())
      ensures nk in blockStats ==>
        var v, w := old(blockStats[nk].View()), blockStats[nk].View();
        if a.Answered? && Agreed(snapshot, consensusHash) then
          var at := snapshot.value.blockHeight - 1 - firstBlockHeight;
          && at >= 0 && AddsBit(v, at, microblocks, w)
          && a.result == Ok(if at in Known(v, microblocks) then None else Some(at))
        else w == v && (a.Answered? && a.result.Ok? ==> a.result.value == None)
    {
      hide Members, MergesTo, AddsBit;
      if snapshot.None? || snapshot.value.consensusHash != consensusHash {
        return Answered(Ok(None));
      }
      if !snapshot.value.sortition {
        return Answered(Err(InvalidMessage));
      }
      if nk !in blockStats {
        return Answered(Ok(None));
      }
      if snapshot.value.blockHeight <= firstBlockHeight {
        return Crashed;
      }
      var height := snapshot.value.blockHeight - 1;
      var flipped := SetOne(nk, height, microblocks);
      a := Answered(Ok(if flipped then Some(height - firstBlockHeight) else None));
    }

    method SetOne(nk: NeighborKey, height: nat, microblocks: bool) returns (flipped: bool)
      requires Stats() && nk in blockStats && firstBlockHeight <= height
      modifies blockStats[nk]
      ensures Stats() && blockStats[nk].numSortitions >= old(blockStats[nk].numSortitions)
      ensures forall k :: k in blockStats && k != nk ==> blockStats[k].View() == old(blockStats[k].View())
      ensures AddsBit(old(blockStats[nk].View()), height - firstBlockHeight, microblocks, blockStats[nk].View())
      ensures flipped <==> height - firstBlockHeight !in old(Known(blockStats[nk].View(), microblocks))
    {
      hide Members, MergesTo;
      var stats := blockStats[nk];
      if microblocks {
        flipped := stats.SetMicroblocksBit(height);
      } else {
        flipped := stats.SetBlockBit(height);
      }
      ghost var d := if microblocks then ONE_STREAM else ONE_BLOCK;
      MergeKeepsSound(old(stats.View()), height, d, stats.View(), firstBlockHeight);
      MergeReaches(old(stats.View()), height, d, stats.View());
    }

    /** Stop synchronizing with the given peers. */
    method Cull(bad: set<NeighborKey>)
      modifies this`syncPeers
      ensures syncPeers == old(syncPeers) - bad
    {
      var todo := bad;
      while todo != {}
        invariant todo <= bad && syncPeers == old(syncPeers) - (bad - todo)
        decreases todo
      {
        var nk :| nk in todo;
        if nk in syncPeers {
          syncPeers := syncPeers - {nk};
        }
        todo := todo - {nk};
      }
    }

    predicate IsInvValid(nk: NeighborKey)
      reads this
    {
      nk !in divergedPeers && nk !in brokenPeers
    }

    predicate IsInvSynced(nk: NeighborKey, minSortitions: nat)
      reads this, blockStats.Values
    {
      nk !in brokenPeers && nk in blockStats && blockStats[nk].numSortitions >= minSortitions
    }

    /** No peer that counts is still behind. */
    ghost predicate AllSynced(minSortitions: nat)
      reads this, blockStats.Values
    {
      forall k :: k in syncPeers ==> !IsInvValid(k) || IsInvSynced(k, minSortitions) || k in stalePeers
    }

    method CheckAllSynced(minSortitions: nat) returns (allSynced: bool)
      ensures allSynced <==> AllSynced(minSortitions)
    {
      allSynced := true;
      var todo := syncPeers;
      while todo != {}
        invariant todo <= syncPeers
        invariant allSynced <==>
          forall k :: k in syncPeers && k !in todo ==>
            !IsInvValid(k) || IsInvSynced(k, minSortitions) || k in stalePeers
        decreases todo
      {
        var nk :| nk in todo;
        if IsInvValid(nk) && !IsInvSynced(nk, minSortitions) && nk !in stalePeers {
          allSynced := false;
        }
        todo := todo - {nk};
      }
    }

    /** Move the rescan on, or back to the start once it reached the tip and everyone is in sync. */
    method AdvanceRescan(burn: nat, curNeighbors: set<NeighborKey>)
      requires firstBlockHeight <= burn
      modifies this`rescanHeight, this`syncPeers, this`numRescans
      ensures rescanHeight ==
        if old(rescanHeight) < burn then NextRescan(old(rescanHeight), burn)
        else if old(AllSynced(burn - firstBlockHeight)) then firstBlockHeight
        else old(rescanHeight)
      ensures old(rescanHeight) < burn ==> syncPeers == old(syncPeers) && numRescans == old(numRescans)
      ensures old(rescanHeight) >= burn && old(AllSynced(burn - firstBlockHeight)) ==>
        syncPeers == curNeighbors && numRescans == old(numRescans) + 1
    {
      var minSortitions := burn - firstBlockHeight;
      if rescanHeight < burn {
        rescanHeight := rescanHeight + if rescanHeight + MAX_BITLEN < burn then MAX_BITLEN else burn - rescanHeight;
      } else {
        var allSynced := CheckAllSynced(minSortitions);
        if allSynced {
          rescanHeight := firstBlockHeight;
          syncPeers := curNeighbors;
          numRescans := numRescans + 1;
        }
      }
    }

    /** Ready for the next round; statistics and rescan height are kept. */
    method Reset()
      modifies this`state, this`requests, this`targetHeights, this`blockInvs, this`stalePeers, this`unstablePeers,
               this`divergedPeers, this`brokenPeers, this`deadPeers
      ensures state == Begin && requests == {} && targetHeights == map[] && blockInvs == map[]
      ensures stalePeers == unstablePeers == divergedPeers == brokenPeers == deadPeers == {}
    {
      state, requests, targetHeights, blockInvs := Begin, {}, map[], map[];
      stalePeers, unstablePeers, divergedPeers, brokenPeers, deadPeers := {}, {}, {}, {}, {};
    }

    /** Close a round: merge, cull, move the rescan, reset. */
    method CloseRound(burn: nat, curNeighbors: set<NeighborKey>)
      returns (disconnect: set<NeighborKey>, broken: set<NeighborKey>)
      requires Valid() && firstBlockHeight <= burn
      modifies this`state, this`requests, this`targetHeights, this`blockInvs, this`syncPeers, this`stalePeers,
               this`unstablePeers, this`divergedPeers, this`brokenPeers, this`deadPeers, this`rescanHeight,
               this`numRescans, blockStats.Values
      ensures Valid() && state == Begin && disconnect == old(deadPeers) && broken == old(brokenPeers)
      ensures forall k :: k in blockStats ==>
        MergedView(old(blockStats[k].View()), k, old(targetHeights), old(blockInvs), blockStats[k].View())
      ensures old(rescanHeight) < burn ==> rescanHeight == NextRescan(old(rescanHeight), burn)
      ensures rescanHeight <= burn || rescanHeight == old(rescanHeight)
    {
      hide MergedView, Sound, Stats;
      MergeReplies();
      Cull(deadPeers);
      Cull(brokenPeers);
      Cull(stalePeers);
      Cull(divergedPeers);
      AdvanceRescan(burn, curNeighbors);
      broken, disconnect := brokenPeers, deadPeers;
      Reset();
    }

    /**
     One call of the driver.  Replies still outstanding keep the round open, with those that came
     kept for its end; at its end every reply is merged, and dead and broken peers are reported.
     */
    method Sync(env: Env, peers: set<NeighborKey>, signs: NeighborKey -> bool, sends: NeighborKey -> bool,
                outcomes: map<NeighborKey, Outcome>)
      returns (r: Result<(bool, set<NeighborKey>, set<NeighborKey>)>)
      requires Valid() && firstBlockHeight <= env.view.burnBlockHeight
      modifies this, blockStats.Values
      ensures Valid()
      ensures r.Ok? ==> (r.value.0 <==> state == Begin)
      ensures forall k :: k in old(blockStats) ==> k in blockStats && blockStats[k] == old(blockStats[k])
      ensures forall k :: k in blockStats && k !in old(blockStats) ==> fresh(blockStats[k])
      ensures blockStats.Keys == if old(state) == Begin then old(blockStats).Keys + peers else old(blockStats).Keys
      ensures old(state) == Begin ==>
        && rescanHeight == old(rescanHeight)
        && (AllSign(peers, signs) ==> r.Ok?)
        && (forall k :: k in old(blockStats) ==> blockStats[k].View() == old(blockStats[k].View()))
        && (r.Ok? ==>
              && state == Finish && blockInvs == map[] && requests == targetHeights.Keys
              && targetHeights == Targets(env, firstBlockHeight, rescanHeight, Views(), peers, sends))
      ensures old(state) == Finish && r.Ok? && r.value.0 ==>
        && (forall k :: k in old(blockStats) ==>
              MergedView(old(blockStats[k].View()), k, old(targetHeights),
                         old(blockInvs) + Replies(old(requests), env.view, outcomes), blockStats[k].View()))
        && (old(rescanHeight) < env.view.burnBlockHeight ==>
              rescanHeight == NextRescan(old(rescanHeight), env.view.burnBlockHeight))
      ensures old(state) == Finish && r.Ok? && r.value.0 ==>
        && r.value.1 == old(deadPeers) + Those(old(requests), env.view, outcomes, Dead)
        && r.value.2 == old(brokenPeers) + Those(old(requests), env.view, outcomes, Nacked(Broken))
      ensures old(state) == Finish && r.Ok? && !r.value.0 ==>
        && state == Finish && rescanHeight == old(rescanHeight) && targetHeights == old(targetHeights)
        && blockStats == old(blockStats)
        && (forall k :: k in blockStats ==> blockStats[k].View() == old(blockStats[k].View()))
        && blockInvs == old(blockInvs) + Replies(old(requests), env.view, outcomes)
        && requests == Those(old(requests), env.view, outcomes, StillPending)
        && deadPeers == old(deadPeers) + Those(old(requests), env.view, outcomes, Dead)
        && brokenPeers == old(brokenPeers) + Those(old(requests), env.view, outcomes, Nacked(Broken))
      ensures old(state) == Finish ==>
        r.Ok? && (r.value.0 <==> Those(old(requests), env.view, outcomes, StillPending) == {})
    {
      hide MergedView, Stats, Targeted, Targets, Those, Replies, AllInBounds, VerdictOf, NextRescan, AllSign;
      var finished := true;
      if state == Begin {
        var begun := BeginRound(env, peers, signs, sends);
        if begun.Err? {
          return Err(begun.error);
        }
        finished := false;
      } else if state == Finish {
        finished := TryFinish(env.view, outcomes);
      }
      if !finished {
        return Ok((false, {}, {}));
      }
      var disconnect, broken := CloseRound(env.view.burnBlockHeight, peers);
      r := Ok((true, disconnect, broken));
    }

    ghost function Here(): (p: Point)
      reads this`state, this`blockStats
    {
      Point(state, blockStats.Keys)
    }

    /**
     Every run keeps the invariant, whatever peers reply, announce or do, up to the first
     announcement that crashes, if there is one.
     */
    method Run(events: seq<Event>) returns (handled: nat, crashed: bool, ghost trace: seq<Point>)
      requires Valid() && forall i :: 0 <= i < |events| && events[i].Poll? ==> InView(events[i].env, firstBlockHeight)
      modifies this, blockStats.Values
      ensures Valid() && handled <= |events| && (crashed <==> handled < |events|)
      ensures |trace| == handled + 1 && trace[0] == old(Here()) && trace[handled] == Here()
      ensures forall i :: 0 <= i < handled ==>
        Follows(trace[i], events[i], trace[i + 1]) && !FatalAt(events[i], trace[i], firstBlockHeight)
      ensures crashed ==> FatalAt(events[handled], trace[handled], firstBlockHeight)
    {
      hide Stats, Targeted, AllInBounds, MergedView, Targets, Those, Replies, Known, AddsBit, Fatal;
      handled, crashed, trace := 0, false, [Here()];
      while handled < |events|
        invariant Valid() && handled <= |events| && !crashed
        invariant forall k :: k in blockStats ==> blockStats[k] in old(blockStats.Values) || fresh(blockStats[k])
        invariant |trace| == handled + 1 && trace[0] == old(Here()) && trace[handled] == Here()
        invariant forall i :: 0 <= i < handled ==>
          Follows(trace[i], events[i], trace[i + 1]) && !FatalAt(events[i], trace[i], firstBlockHeight)
      {
        crashed := Handle(events[handled]);
        if crashed {
          break;
        }
        trace := trace + [Here()];
        handled := handled + 1;
      }
    }

    method Handle(e: Event) returns (crashed: bool)
      requires Valid() && (e.Poll? ==> InView(e.env, firstBlockHeight))
      modifies this, blockStats.Values
      ensures Valid() && (crashed <==> FatalAt(e, old(Here()), firstBlockHeight))
      ensures if crashed then Here() == old(Here()) else Follows(old(Here()), e, Here())
      ensures forall k :: k in blockStats ==> blockStats[k] in old(blockStats.Values) || fresh(blockStats[k])
    {
      hide Stats, Targeted, AllInBounds, MergedView, Targets, Those, Replies, Known, AddsBit, Fatal;
      crashed := false;
      match e {
        case Poll(env, peers, signs, sends, outcomes) =>
          var _ := Sync(env, peers, signs, sends, outcomes);
        case Announce(nk, snapshot, consensusHash, microblocks) =>
          var a := SetDataAvailable(nk, snapshot, consensusHash, microblocks);
          crashed := a.Crashed?;
        case Disconnect(nk) =>
          DelPeer(nk);
      }
    }
  }

  /** A run of two events that crashes: synchronize with a peer, which then announces the initial snapshot. */
  method InitialSnapshotCrashes(env: Env, first: nat, nk: NeighborKey, signs: NeighborKey -> bool,
                                sends: NeighborKey -> bool, microblocks: bool) returns (handled: nat, crashed: bool)
    requires InView(env, first)
    ensures crashed && handled == 1
  {
    var s := new InvState(first, {nk});
    var initial := InitialSnapshot(first);
    var poll := Poll(env, {nk}, signs, sends, map[]);
    var announce := Announce(nk, Some(initial), initial.consensusHash, microblocks);
    var events := [poll, announce];
    assert events[0] == poll && events[1] == announce;
    ghost var trace;
    handled, crashed, trace := s.Run(events);
    if handled > 0 {
      assert Follows(trace[0], poll, trace[1]) && FatalAt(announce, trace[1], first);
    }
  }

  datatype Event =
    | Poll(env: Env, peers: set<NeighborKey>, signs: NeighborKey -> bool, sends: NeighborKey -> bool,
           outcomes: map<NeighborKey, Outcome>)
    | Announce(nk: NeighborKey, snapshot: Option<Snapshot>, consensusHash: bytes, microblocks: bool)
    | Disconnect(nk: NeighborKey)

  /** A view of the burn chain starts at the snapshot stored first. */
  predicate InView(env: Env, first: nat) {
    first <= env.view.burnBlockHeight
  }

  ghost predicate AllSign(keys: set<NeighborKey>, signs: NeighborKey -> bool)
  {
    forall k :: k in keys ==> signs(k)
  }

  ghost function SentOf(invTargets: map<NeighborKey, (nat, GetInv)>, sends: NeighborKey -> bool)
    : (m: map<NeighborKey, nat>)
  {
    map k | k in invTargets && sends(k) :: invTargets[k].0
  }

  /** Sign and send each request; one that cannot be signed aborts, one that cannot be sent is skipped. */
  method SendAll(invTargets: map<NeighborKey, (nat, GetInv)>, signs: NeighborKey -> bool, sends: NeighborKey -> bool)
    returns (r: Result<map<NeighborKey, nat>>)
    ensures r.Ok? <==> AllSign(invTargets.Keys, signs)
    ensures r.Ok? ==> r.value == SentOf(invTargets, sends)
  {
    var heights: map<NeighborKey, nat> := map[];
    var todo := invTargets.Keys;
    while todo != {}
      invariant todo <= invTargets.Keys
      invariant forall k :: k in invTargets && k !in todo ==> signs(k)
      invariant heights == map k | k in invTargets && k !in todo && sends(k) :: invTargets[k].0
    {
      var nk :| nk in todo;
      if !signs(nk) {
        return Err(SigningError);
      }
      if sends(nk) {
        heights := heights[nk := invTargets[nk].0];
      }
      todo := todo - {nk};
    }
    r := Ok(heights);
  }
}
