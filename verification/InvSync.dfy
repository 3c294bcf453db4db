/**
 Synchronizing block inventories with peers in rounds (InvState and the PeerNetwork methods
 that drive it, src/net/inv.rs): make requests, collect replies, merge them, advance the
 rescan height.  Readiness of sockets, replies and the burn database are parameters.
 */
module InvSync {
  import opened Prelude
  import opened Codec
  import opened Messages

  datatype NeighborKey = NeighborKey(peerVersion: nat, networkId: nat, addrbytes: bytes, port: nat)

  datatype ChainView = ChainView(burnBlockHeight: nat, burnConsensusHash: bytes, lastConsensusHashes: map<nat, bytes>)

  /** Our view of the burn chain, the tips learned from walks, and the burn database. */
  datatype Env = Env(
    view: ChainView,
    stableTips: map<NeighborKey, (nat, bytes)>,
    tips: map<NeighborKey, (nat, bytes)>,
    snapshotHeight: bytes -> Option<nat>,
    consensusAt: nat -> Option<bytes>)

  datatype GetInv = GetInv(consensusHash: bytes, numBlocks: nat)

  const MAX_BITLEN: nat := BLOCKS_INV_DATA_MAX_BITLEN

  // ---- making requests ----

  /** The highest block to ask about, lowered to what the peer is known to have processed. */
  function Reach(env: Env, nk: NeighborKey, target: nat, highest: nat): (r: Option<nat>)
  {
    if nk !in env.stableTips || nk !in env.tips then Some(highest) else
    var (stableHeight, stableHash) := env.stableTips[nk];
    var (tipHeight, tipHash) := env.tips[nk];
    match env.snapshotHeight(tipHash)
    case Some(h) => Some(if h < highest then h else highest)
    case None =>
      match env.snapshotHeight(stableHash)
      case Some(h) => Some(if h < highest then h else highest)
      case None => if stableHeight <= target || tipHeight <= target then None else Some(highest)
  }

  function MakeHighest(env: Env, nk: NeighborKey, target: nat): (r: Option<GetInv>)
  {
    var burn := env.view.burnBlockHeight;
    if target > burn then None else
    var highest := if target + MAX_BITLEN < burn then target + MAX_BITLEN else burn;
    match Reach(env, nk, target, highest)
    case None => None
    case Some(h) =>
      var numBlocks := if h >= target then h - target else 0;
      if numBlocks == 0 then None else
      match env.consensusAt(h)
      case None => None
      case Some(ch) => Some(GetInv(ch, numBlocks))
  }

  /** A request asks for a bounded, non-empty run of blocks from the target, all within our view. */
  lemma RequestShape(env: Env, nk: NeighborKey, target: nat)
    requires MakeHighest(env, nk, target).Some?
    ensures var r := MakeHighest(env, nk, target).value;
      && 0 < r.numBlocks <= MAX_BITLEN && target + r.numBlocks <= env.view.burnBlockHeight
      && env.consensusAt(target + r.numBlocks) == Some(r.consensusHash)
  {
  }

  /** A peer whose tip we know is asked about nothing above it, nor one we know only the stable tip of above that. */
  lemma RequestWithinTip(env: Env, nk: NeighborKey, target: nat)
    requires MakeHighest(env, nk, target).Some? && nk in env.stableTips && nk in env.tips
    ensures var top := target + MakeHighest(env, nk, target).value.numBlocks;
      match env.snapshotHeight(env.tips[nk].1)
      case Some(h) => top <= h
      case None =>
        match env.snapshotHeight(env.stableTips[nk].1)
        case Some(h) => top <= h
        case None => target < env.stableTips[nk].0 && target < env.tips[nk].0
  {
  }

  /** Ask for what follows the known sortitions, or rescan once those reach our view. */
  function MakeNext(env: Env, first: nat, rescan: nat, numSortitions: nat, nk: NeighborKey): (r: Option<(nat, GetInv)>)
  {
    var target := first + numSortitions;
    var height := if target < env.view.burnBlockHeight then target else rescan;
    match MakeHighest(env, nk, height)
    case None => None
    case Some(inv) => Some((height, inv))
  }

  /** No request targets a height past the sortitions known of the peer, rescans included. */
  lemma TargetInRange(env: Env, first: nat, rescan: nat, numSortitions: nat, nk: NeighborKey)
    requires first <= rescan && MakeNext(env, first, rescan, numSortitions, nk).Some?
    ensures first <= MakeNext(env, first, rescan, numSortitions, nk).value.0 <= first + numSortitions
  {
  }

  // ---- what replies mean ----

  datatype NackResult = Stale | Unstable | Diverged | Broken | Noop

  const NO_SUCH_BURNCHAIN_BLOCK: nat := 2

  function DiagnoseNack(errorCode: nat, view: ChainView, p: Preamble): (r: NackResult)
  {
    if errorCode != NO_SUCH_BURNCHAIN_BLOCK then Broken
    else if p.burnBlockHeight < view.burnBlockHeight then Stale
    else
      var diverged :=
        if p.burnStableBlockHeight in view.lastConsensusHashes
        then view.lastConsensusHashes[p.burnStableBlockHeight] != p.burnStableConsensusHash
        else true;
      var unstable :=
        if view.burnBlockHeight == p.burnBlockHeight then view.burnConsensusHash != p.burnConsensusHash else true;
      if diverged then Diverged else if unstable then Unstable else Broken
  }

  predicate AgreesOnStable(view: ChainView, p: Preamble) {
    && p.burnStableBlockHeight in view.lastConsensusHashes
    && view.lastConsensusHashes[p.burnStableBlockHeight] == p.burnStableConsensusHash
  }

  /** A peer that agrees with us on every hash has no excuse; only one at our height can be caught out. */
  lemma NackVerdicts(view: ChainView, p: Preamble, errorCode: nat)
    ensures var r := DiagnoseNack(errorCode, view, p);
      && r != Noop
      && (r == Broken <==>
            || errorCode != NO_SUCH_BURNCHAIN_BLOCK
            || (&& p.burnBlockHeight == view.burnBlockHeight && p.burnConsensusHash == view.burnConsensusHash
                && AgreesOnStable(view, p)))
      && (r == Stale <==> errorCode == NO_SUCH_BURNCHAIN_BLOCK && p.burnBlockHeight < view.burnBlockHeight)
      && (r == Diverged <==>
            && errorCode == NO_SUCH_BURNCHAIN_BLOCK && p.burnBlockHeight >= view.burnBlockHeight
            && !AgreesOnStable(view, p))
  {
  }

  /** The limits the decoder puts on inventories. */
  predicate InBounds(d: BlocksInvData) {
    && d.bitlen <= MAX_BITLEN
    && |d.blockBitvec| == |d.microblocksBitvec| == BitvecLen(d.bitlen)
  }

  lemma DecodedInBounds(ch: Chain, x: bytes)
    requires LawfulChain(ch) && PayloadCodec(ch).dec(x).Got? && PayloadCodec(ch).dec(x).value.BlocksInv?
    ensures InBounds(PayloadCodec(ch).dec(x).value.inv)
  {
    var p := PayloadCodec(ch).dec(x).value;
    PayloadLawful(ch);
    assert PayloadCodec(ch).ok(p);
    hide PayloadCodec;
    InvOk(ch, p);
  }

  lemma InvOk(ch: Chain, p: Payload)
    requires p.BlocksInv? && PayloadCodec(ch).ok(p)
    ensures InBounds(p.inv)
  {
    InvBodyOk(ch, p);
    InvDataOk(p.inv);
  }

  /** An acceptable inventory payload is acceptable to the inventory codec. */
  lemma InvBodyOk(ch: Chain, p: Payload)
    requires p.BlocksInv? && PayloadCodec(ch).ok(p)
    ensures BlocksInvCodec().ok(p.inv)
  {
    hide BlocksInvCodec;
    assert BodyCodec(ch, 6).ok(p) by {
      hide BodyCodec;
      var tagged := Then(TagCodec(), (id: nat) => BodyCodec(ch, id));
      assert tagged.ok((6, p));
    }
    assert BodyCodec(ch, 6) == InvBody();
  }

  lemma InvDataOk(d: BlocksInvData)
    requires BlocksInvCodec().ok(d)
    ensures InBounds(d)
  {
    hide UInt;
    var len := Guard(UInt(2), (n: nat) => n <= BLOCKS_INV_DATA_MAX_BITLEN);
    assert len.ok(d.bitlen) && BitvecsCodec(d.bitlen).ok((d.blockBitvec, d.microblocksBitvec)) by {
      hide BitvecsCodec;
      assert Then(len, BitvecsCodec).ok((d.bitlen, (d.blockBitvec, d.microblocksBitvec)));
    }
    BitvecOk(d.bitlen, d.blockBitvec);
    BitvecOk(d.bitlen, d.microblocksBitvec);
  }

  lemma BitvecOk(bitlen: nat, v: bytes)
    ensures Vec(Raw1(), Exactly(BitvecLen(bitlen), 1)).ok(v) ==> |v| == BitvecLen(bitlen)
  {
    hide UInt, Raw1, BitvecLen;
  }

  type Reply = m: StacksMessage | m.payload.BlocksInv? ==> InBounds(m.payload.inv)
    witness StacksMessage(Preamble(0, 0, 0, 0, [], 0, [], 0, [], 0), [], GetNeighbors)

  /** How a request stands when polled. */
  datatype Outcome = Replied(m: Reply) | Pending | Failed
}
