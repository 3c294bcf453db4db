/**
 Finding blocks to download (make_requests and the scan loop of block_dns_lookups_begin in
 src/net/download.rs).  Availability comes from inventories and the chain state and is a
 parameter.
 */
module Scan {
  import opened Prelude

  /** A request for the data of one sortition from one peer; only microblock requests have a child header. */
  datatype RequestKey = RequestKey(
    neighbor: nat, dataUrl: nat, burnBlockHash: nat, anchorBlockHash: nat, indexBlockHash: nat,
    childHeader: Option<nat>, sortitionHeight: nat)

  /** Requests to try, by sortition height. */
  type Queues = map<nat, seq<RequestKey>>

  const SCAN_BATCH_SIZE: nat := 4096

  /** The queue of a height holds requests for that height, of one kind, none twice. */
  predicate QueueOk(h: nat, q: seq<RequestKey>, microblocks: bool) {
    && NoDups(q)
    && forall i :: 0 <= i < |q| ==> q[i].sortitionHeight == h && q[i].childHeader.Some? == microblocks
  }

  ghost predicate QueuesOk(m: Queues, microblocks: bool) {
    forall h :: h in m ==> QueueOk(h, m[h], microblocks)
  }

  ghost predicate NoneEmpty(m: Queues) {
    forall h :: h in m ==> m[h] != []
  }

  // ---- make_requests ----

  /** What to fetch for one sortition, and who has it. */
  datatype Target = Target(burnHash: nat, blockHash: nat, indexHash: nat, child: Option<nat>, neighbors: seq<nat>)

  /** The requests for a target: one per neighbor that has a data URL, in order. */
  function KeysFor(t: Target, neighbors: seq<nat>, urlOf: nat -> Option<nat>, h: nat): (q: seq<RequestKey>)
  {
    if neighbors == [] then [] else
    var nk := neighbors[0];
    (match urlOf(nk)
     case None => []
     case Some(url) => [RequestKey(nk, url, t.burnHash, t.blockHash, t.indexHash, t.child, h)])
    + KeysFor(t, neighbors[1..], urlOf, h)
  }

  lemma {:induction false} KeysForOk(t: Target, neighbors: seq<nat>, urlOf: nat -> Option<nat>, h: nat)
    requires NoDups(neighbors)
    ensures QueueOk(h, KeysFor(t, neighbors, urlOf, h), t.child.Some?)
    ensures forall k :: k in KeysFor(t, neighbors, urlOf, h) <==> k.neighbor in neighbors && Asks(t, urlOf, h, k)
  {
    if neighbors != [] {
      KeysForOk(t, neighbors[1..], urlOf, h);
      assert neighbors == [neighbors[0]] + neighbors[1..];
    }
  }

  /** `k` asks its neighbor, at its own URL, for this target at this height. */
  predicate Asks(t: Target, urlOf: nat -> Option<nat>, h: nat, k: RequestKey) {
    && urlOf(k.neighbor) == Some(k.dataUrl)
    && k.burnBlockHash == t.burnHash && k.anchorBlockHash == t.blockHash && k.indexBlockHash == t.indexHash
    && k.childHeader == t.child && k.sortitionHeight == h
  }

  /** Sortitions with something to fetch get a queue, empty if no one who has it gave a URL. */
  method MakeRequests(start: nat, availability: seq<Option<Target>>, urlOf: nat -> Option<nat>, microblocks: bool)
    returns (toTry: Queues)
    requires forall i :: 0 <= i < |availability| && availability[i].Some? ==>
      NoDups(availability[i].value.neighbors) && availability[i].value.child.Some? == microblocks
    ensures QueuesOk(toTry, microblocks)
    ensures forall h: nat :: h in toTry <==>
      start <= h < start + |availability| && h < start + SCAN_BATCH_SIZE && availability[h - start].Some?
    ensures forall h: nat :: h in toTry ==>
      toTry[h] == KeysFor(availability[h - start].value, availability[h - start].value.neighbors, urlOf, h)
  {
    toTry := map[];
    for i := 0 to |availability|
      invariant forall h: nat :: h in toTry <==>
        start <= h < start + i && h < start + SCAN_BATCH_SIZE && availability[h - start].Some?
      invariant forall h: nat :: h in toTry ==>
        toTry[h] == KeysFor(availability[h - start].value, availability[h - start].value.neighbors, urlOf, h)
    {
      if i >= SCAN_BATCH_SIZE {
        break;
      }
      if availability[i].Some? {
        var t := availability[i].value;
        toTry := toTry[start + i := KeysFor(t, t.neighbors, urlOf, start + i)];
      }
    }
    forall h | h in toTry
      ensures QueueOk(h, toTry[h], microblocks)
    {
      var t := availability[h - start].value;
      KeysForOk(t, t.neighbors, urlOf, h);
    }
  }

  // ---- one look ----

  /** What there is to fetch at each height, which may differ from one look of a scan to the next, and who is where. */
  datatype Supply = Supply(target: (nat, nat, bool) -> Option<Target>, urlOf: nat -> Option<nat>)

  /** Who has a block is read off a map of peers, so no peer is named twice. */
  ghost predicate SupplyOk(s: Supply) {
    forall round: nat, h: nat, microblocks: bool {:trigger s.target(round, h, microblocks)} ::
      s.target(round, h, microblocks).Some? ==>
        var t := s.target(round, h, microblocks).value;
        NoDups(t.neighbors) && t.child.Some? == microblocks
  }

  /** How many sortitions a look from `start` covers: a batch, cut off at the tip of the burn chain. */
  function Covered(first: nat, tip: nat, start: nat): (n: nat)
    ensures n <= SCAN_BATCH_SIZE && (n > 0 ==> first + start + n <= tip)
    ensures n == SCAN_BATCH_SIZE || first + start + n == tip || (n == 0 && tip <= first + start)
  {
    if tip < first + start then 0 else
    var end := if tip < first + start + SCAN_BATCH_SIZE then tip - first else start + SCAN_BATCH_SIZE;
    if end <= start then 0 else end - start
  }

  /** The requests a look finds for a height. */
  function OfferAt(s: Supply, first: nat, tip: nat, round: nat, h: nat, microblocks: bool): (q: seq<RequestKey>)
  {
    if first + h < tip && s.target(round, h, microblocks).Some? then
      var t := s.target(round, h, microblocks).value;
      KeysFor(t, t.neighbors, s.urlOf, h)
    else []
  }

  /** Look from `start`: everything offered within a batch is found, and nothing at or above the tip. */
  method Look(s: Supply, first: nat, tip: nat, round: nat, start: nat, microblocks: bool) returns (offers: Queues)
    requires SupplyOk(s)
    ensures QueuesOk(offers, microblocks)
    ensures forall h :: h in offers ==> start <= h < start + SCAN_BATCH_SIZE && first + h < tip
    ensures forall h :: start <= h < start + SCAN_BATCH_SIZE ==>
      OfferAt(s, first, tip, round, h, microblocks) == if h in offers then offers[h] else []
  {
    hide KeysFor, QueuesOk, NoDups, Covered;
    var n := Covered(first, tip, start);
    var availability := seq(n, i requires 0 <= i < n => s.target(round, start + i, microblocks));
    offers := MakeRequests(start, availability, s.urlOf, microblocks);
  }

  // ---- queueing up what was found ----

  method MaxHeight(m: Queues) returns (max: nat)
    ensures forall h :: h in m ==> h <= max
    ensures max == 0 || max in m
  {
    max := 0;
    var todo := m.Keys;
    while todo != {}
      invariant todo <= m.Keys && (max == 0 || max in m)
      invariant forall h :: h in m && h !in todo ==> h <= max
      decreases todo
    {
      var h :| h in todo;
      if h > max {
        max := h;
      }
      todo := todo - {h};
    }
  }

  /** The queues with the offers added at heights from `from` up to `to`, if not empty and not queued already. */
  ghost function After(toTry: Queues, offers: Queues, from: nat, to: nat): (m: Queues)
  {
    toTry + map h | h in offers && from <= h < to && h !in toTry && offers[h] != [] :: offers[h]
  }

  /**
   Queue offers in order of height until the heights or the room run out.  What is queued is
   exactly what could be, below the height reached, and short of capacity nothing is missed.
   */
  method QueueUp(toTry: Queues, offers: Queues, from: nat, maxHeight: nat, maxInflight: nat)
    returns (toTry': Queues, height: nat)
    requires forall h :: h in offers && offers[h] != [] ==> offers[h][0].sortitionHeight == h
    ensures from <= height && (height <= maxHeight + 1 || height == from)
    ensures toTry' == After(toTry, offers, from, height)
    ensures |toTry'| <= maxInflight || toTry' == toTry
    ensures |toTry'| < maxInflight ==> height > maxHeight
  {
    hide After;
    toTry', height := toTry, from;
    AfterNone(toTry, offers, from);
    while height <= maxHeight && |toTry'| < maxInflight
      invariant from <= height && (height <= maxHeight + 1 || height == from)
      invariant toTry' == After(toTry, offers, from, height)
      invariant |toTry'| <= maxInflight || toTry' == toTry
    {
      AfterStep(toTry, offers, from, height);
      if height !in offers || height in toTry' || |offers[height]| == 0 {
        height := height + 1;
        continue;
      }
      assert offers[height][0].sortitionHeight == height;
      OneMoreQueue(toTry', height, offers[height]);
      toTry' := toTry'[height := offers[height]];
      height := height + 1;
    }
  }

  lemma AfterNone(toTry: Queues, offers: Queues, from: nat)
    ensures After(toTry, offers, from, from) == toTry
  {
  }

  lemma AfterStep(toTry: Queues, offers: Queues, from: nat, h: nat)
    requires from <= h
    ensures var m := After(toTry, offers, from, h);
      After(toTry, offers, from, h + 1) ==
        if h in offers && h !in m && offers[h] != [] then m[h := offers[h]] else m
  {
  }

  lemma OneMoreQueue(m: Queues, h: nat, q: seq<RequestKey>)
    requires h !in m
    ensures |m[h := q]| == |m| + 1
  {
  }

  lemma QueuedOk(toTry: Queues, offers: Queues, from: nat, to: nat, microblocks: bool)
    requires QueuesOk(toTry, microblocks) && NoneEmpty(toTry) && QueuesOk(offers, microblocks)
    ensures var m := After(toTry, offers, from, to);
      QueuesOk(m, microblocks) && NoneEmpty(m)
  {
  }

  // ---- the scan loop ----

  /** A height that is on offer at every look. */
  ghost predicate Throughout(s: Supply, first: nat, tip: nat, h: nat, microblocks: bool) {
    forall round: nat :: OfferAt(s, first, tip, round, h, microblocks) != []
  }

  /** Every height of the range that is on offer throughout is queued. */
  ghost predicate NoneMissed(m: Queues, s: Supply, first: nat, tip: nat, from: nat, to: nat, microblocks: bool) {
    forall h: nat :: from <= h < to && Throughout(s, first, tip, h, microblocks) ==> h in m
  }

  /** The queues keep what they had. */
  ghost predicate Extends(m': Queues, m: Queues) {
    forall h :: h in m ==> h in m' && m'[h] == m[h]
  }

  /** Queues as a scan leaves them: for their heights, none empty, no more than allowed. */
  ghost predicate Filled(m: Queues, microblocks: bool, maxInflight: nat) {
    QueuesOk(m, microblocks) && NoneEmpty(m) && |m| <= maxInflight
  }

  /**
   Scan for blocks and microblocks.  The loop ends because each round that does not leave it
   moves one of two heights that the tip bounds; no more than `maxInflight` heights of a kind
   are queued; every queue is non-empty and holds requests for its height; and no height below
   the one reached that is on offer throughout is missed.
   */
  method ScanForBlocks(blocks: Queues, microblocks: Queues, blockHeight: nat, microblockHeight: nat,
                       maxInflight: nat, first: nat, tip: nat, burnHeight: nat, s: Supply)
    returns (blocks': Queues, microblocks': Queues, nextBlock: nat, nextMicroblock: nat,
             ghost blockReached: nat, ghost microblockReached: nat)
    requires SupplyOk(s) && first <= burnHeight
    requires Filled(blocks, false, maxInflight) && Filled(microblocks, true, maxInflight)
    ensures Filled(blocks', false, maxInflight) && Extends(blocks', blocks)
    ensures Filled(microblocks', true, maxInflight) && Extends(microblocks', microblocks)
    ensures blockHeight <= blockReached && NoneMissed(blocks', s, first, tip, blockHeight, blockReached, false)
    ensures microblockHeight <= microblockReached
    ensures NoneMissed(microblocks', s, first, tip, microblockHeight, microblockReached, true)
    ensures nextBlock == NextStart(blockReached, burnHeight, |blocks'| == |microblocks'| == 0)
    ensures nextMicroblock == NextStart(microblockReached, burnHeight, |blocks'| == |microblocks'| == 0)
  {
    blocks', microblocks', nextBlock, nextMicroblock := blocks, microblocks, blockHeight, microblockHeight;
    ghost var blockTop, microblockTop := Max(blockHeight, tip + 1), Max(microblockHeight, tip + 1);
    var round := 0;
    hide Filled, Extends, NoneMissed;
    Nothing(blocks, s, first, tip, blockHeight, false);
    Nothing(microblocks, s, first, tip, microblockHeight, true);
    while nextBlock <= burnHeight - first || nextMicroblock <= burnHeight - first
      invariant Filled(blocks', false, maxInflight) && Extends(blocks', blocks)
      invariant Filled(microblocks', true, maxInflight) && Extends(microblocks', microblocks)
      invariant NoneMissed(blocks', s, first, tip, blockHeight, nextBlock, false)
      invariant NoneMissed(microblocks', s, first, tip, microblockHeight, nextMicroblock, true)
      invariant blockHeight <= nextBlock <= blockTop && microblockHeight <= nextMicroblock <= microblockTop
      decreases blockTop - nextBlock + microblockTop - nextMicroblock
    {
      var height, maxHeight, mblockHeight, maxMblockHeight;
      blocks', height, maxHeight :=
        ScanKind(blocks', s, first, tip, round, nextBlock, maxInflight, false, blocks, blockHeight);
      microblocks', mblockHeight, maxMblockHeight :=
        ScanKind(microblocks', s, first, tip, round, nextMicroblock, maxInflight, true, microblocks, microblockHeight);
      if maxHeight <= nextBlock && maxMblockHeight <= nextMicroblock {
        break;
      }
      nextBlock, nextMicroblock := height, mblockHeight;
      if |blocks'| >= maxInflight || |microblocks'| >= maxInflight {
        break;
      }
      round := round + 1;
    }
    blockReached, microblockReached := nextBlock, nextMicroblock;
    if |blocks'| == 0 && |microblocks'| == 0 {
      nextBlock, nextMicroblock := nextBlock + SCAN_BATCH_SIZE, nextMicroblock + SCAN_BATCH_SIZE;
      if nextBlock >= burnHeight {
        nextBlock := 0;
      }
      if nextMicroblock >= burnHeight {
        nextMicroblock := 0;
      }
    }
  }

  /** Where the next scan starts: on from here, or a batch further, or at the start again, if nothing was found. */
  function NextStart(reached: nat, burnHeight: nat, nothing: bool): (h: nat)
  {
    if !nothing then reached
    else if reached + SCAN_BATCH_SIZE >= burnHeight then 0
    else reached + SCAN_BATCH_SIZE
  }

  lemma Nothing(m: Queues, s: Supply, first: nat, tip: nat, from: nat, microblocks: bool)
    ensures Extends(m, m) && NoneMissed(m, s, first, tip, from, from, microblocks)
  {
  }

  /** One look at one kind of data. */
  method ScanKind(toTry: Queues, s: Supply, first: nat, tip: nat, round: nat, from: nat, maxInflight: nat,
                  microblocks: bool, ghost had: Queues, ghost start: nat)
    returns (toTry': Queues, height: nat, maxHeight: nat)
    requires SupplyOk(s) && Filled(toTry, microblocks, maxInflight)
    requires Extends(toTry, had) && start <= from && NoneMissed(toTry, s, first, tip, start, from, microblocks)
    ensures Filled(toTry', microblocks, maxInflight) && Extends(toTry', had)
    ensures from <= height && (height <= tip || height == from || height == 1)
    ensures NoneMissed(toTry', s, first, tip, start, height, microblocks)
    ensures NoneMissed(toTry', s, first, tip, start, from, microblocks)
    ensures |toTry'| < maxInflight && maxHeight > from ==> height > from
  {
    var offers := Look(s, first, tip, round, from, microblocks);
    maxHeight := MaxHeight(offers);
    toTry', height := QueueUp(toTry, offers, from, maxHeight, maxInflight);
    QueuedOk(toTry, offers, from, height, microblocks);
    forall h: nat | start <= h < height && Throughout(s, first, tip, h, microblocks)
      ensures h in toTry'
    {
      assert OfferAt(s, first, tip, round, h, microblocks) != [];
    }
  }
}
