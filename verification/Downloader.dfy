/** The states of the block downloader and its passes (download_blocks in src/net/download.rs). */
module Downloader {
  import opened Prelude
  import opened Scan
  import opened Download

  datatype State =
    | DnsLookupBegin
    | DnsLookupFinish
    | GetBlocksBegin
    | GetBlocksFinish
    | GetMicroblocksBegin
    | GetMicroblocksFinish
    | Done

  /**
   What one call meets: the time, the last change of the inventories, the chain, what peers
   offer, which requests can be sent, how they are answered.
   */
  datatype Env = Env(
    now: nat, invUpdatedAt: nat, firstBlockHeight: nat, burnBlockHeight: nat, tip: nat, supply: Supply,
    dnsDone: bool, send: RequestKey -> Option<nat>, respond: Answers,
    validStream: (RequestKey, Response) -> bool)

  ghost predicate EnvOk(env: Env) {
    env.firstBlockHeight <= env.burnBlockHeight && SupplyOk(env.supply)
  }

  /** What one call reports: whether all is done, what was fetched, and whom to disconnect from. */
  datatype Progress = Progress(
    done: bool, blocks: map<RequestKey, Response>, microblocks: map<RequestKey, Response>,
    disconnect: seq<nat>, neighbors: seq<nat>)

  /** A scan starts at the beginning of the chain or somewhere below its tip. */
  predicate StartsBelowTip(env: Env, height: nat) {
    height == 0 || env.firstBlockHeight + height < env.burnBlockHeight
  }

  /** How long, in seconds, to wait after a scan that found nothing. */
  const BLOCK_DOWNLOAD_INTERVAL: nat := 300

  const NOTHING_YET: Progress := Progress(false, map[], map[], [], [])

  /** Reported are exactly the connections that died or answered badly, and the neighbors behind bad answers. */
  ghost predicate Blamed(requests: map<RequestKey, nat>, fates: map<RequestKey, Fate>, p: Progress) {
    && Elements(p.disconnect) == EventsOf(requests, fates, Broken) + EventsOf(requests, fates, Dead)
    && Elements(p.neighbors) == NeighborsOf(requests, fates, Broken)
  }

  lemma BlamedWhenAdded(requests: map<RequestKey, nat>, fate: map<RequestKey, Fate>, fates: map<RequestKey, Fate>,
                        dead: seq<nat>, broken: seq<nat>, neighbors: seq<nat>, p: Progress)
    requires requests.Keys == fates.Keys && Blames(requests, fates, dead, broken, neighbors)
    requires p.disconnect == broken + dead && p.neighbors == neighbors
    ensures Blamed(requests, fate + fates, p)
  {
    assert forall f: Fate :: EventsOf(requests, fate + fates, f) == EventsOf(requests, fates, f);
    assert forall f: Fate :: NeighborsOf(requests, fate + fates, f) == NeighborsOf(requests, fates, f);
    assert Elements(broken + dead) == Elements(broken) + Elements(dead);
  }

  // ---- runs ----

  /** Batches of requests: none holds a request of an earlier batch, or one known before. */
  ghost predicate Once(sent: seq<set<RequestKey>>, before: set<RequestKey>) {
    && (forall i :: 0 <= i < |sent| ==> sent[i] !! before)
    && (forall i, j :: 0 <= i < j < |sent| ==> sent[i] !! sent[j])
  }

  ghost function Union(sent: seq<set<RequestKey>>): (all: set<RequestKey>)
  {
    set i, k | 0 <= i < |sent| && k in sent[i] :: k
  }

  lemma NothingSent()
    ensures Union([]) == {}
  {
  }

  lemma OnceMore(sent: seq<set<RequestKey>>, before: set<RequestKey>, more: set<RequestKey>)
    requires Once(sent, before) && more !! before + Union(sent)
    ensures Once(sent + [more], before) && Union(sent + [more]) == Union(sent) + more
  {
    var sent' := sent + [more];
    forall k | k in Union(sent) + more ensures k in Union(sent') {
      if k in more {
        assert k in sent'[|sent|];
      } else {
        var i :| 0 <= i < |sent| && k in sent[i];
        assert k in sent'[i];
      }
    }
  }

  /**
   What a run has done: passes closed, how many requests there were to try and which could be
   sent or answered, which had been sent before, and what was sent since, batch by batch.
   */
  datatype Run = Run(passes: nat, quota: nat, openBlocks: set<RequestKey>, openMicroblocks: set<RequestKey>,
                     blocksBefore: set<RequestKey>, microblocksBefore: set<RequestKey>,
                     sentBlocks: seq<set<RequestKey>>, sentMicroblocks: seq<set<RequestKey>>)
  {
    ghost predicate SentOpen() {
      Union(sentBlocks) <= openBlocks && Union(sentMicroblocks) <= openMicroblocks
    }

    ghost predicate SentOnce() {
      Once(sentBlocks, blocksBefore) && Once(sentMicroblocks, microblocksBefore)
    }

    ghost predicate Knows(blocks: set<RequestKey>, microblocks: set<RequestKey>) {
      blocks == blocksBefore + Union(sentBlocks) && microblocks == microblocksBefore + Union(sentMicroblocks)
    }
  }

  ghost predicate AnsweredAt(env: Env, judge: Judge, k: RequestKey) {
    !judge(k, env.respond(k)).StillPending?
  }

  ghost predicate AnsweredFrom(envs: nat -> Env, judge: Judge, k: RequestKey, i: nat) {
    exists j: nat :: i <= j && AnsweredAt(envs(j), judge, k)
  }

  /** However long it takes, each request is answered, well or badly, at some later call. */
  ghost predicate Fair(envs: nat -> Env, judge: Judge) {
    forall k, i: nat :: AnsweredFrom(envs, judge, k, i)
  }

  ghost predicate ResolvedFrom(envs: nat -> Env, i: nat) {
    exists j: nat :: i <= j && envs(j).dnsDone
  }

  /** And so are the DNS lookups. */
  ghost predicate DnsFair(envs: nat -> Env) {
    forall i: nat :: ResolvedFrom(envs, i)
  }

  /** One of the requests is answered at call `until`, which is yet to come. */
  ghost predicate Awaits(envs: nat -> Env, judge: Judge, requests: map<RequestKey, nat>, i: nat, until: nat) {
    i <= until && (requests == map[] || exists k :: k in requests && AnsweredAt(envs(until), judge, k))
  }

  lemma NextAnswer(envs: nat -> Env, judge: Judge, requests: map<RequestKey, nat>, i: nat) returns (until: nat)
    requires Fair(envs, judge)
    ensures Awaits(envs, judge, requests, i, until)
  {
    until := i;
    if requests != map[] {
      var k :| k in requests;
      assert AnsweredFrom(envs, judge, k, i);
      until :| i <= until && AnsweredAt(envs(until), judge, k);
    }
  }

  /** With every poll there are fewer requests left, or less time until there are. */
  lemma PollNears(envs: nat -> Env, judge: Judge, requests: map<RequestKey, nat>, i: nat, until: nat)
    returns (until': nat)
    requires Fair(envs, judge) && Awaits(envs, judge, requests, i, until)
    requires PendingIn(requests, envs(i).respond, judge) != map[]
    ensures var pending := PendingIn(requests, envs(i).respond, judge);
      && Awaits(envs, judge, pending, i + 1, until')
      && (|pending| < |requests| || (|pending| == |requests| && until' - (i + 1) < until - i))
  {
    var pending := PendingIn(requests, envs(i).respond, judge);
    SubsetSize(pending.Keys, requests.Keys);
    if |pending| == |requests| {
      assert pending == requests;
      until' := until;
    } else {
      until' := NextAnswer(envs, judge, pending, i + 1);
    }
  }

  // ---- the downloader ----

  /** What each state promises: requests only while they are awaited, and no empty queue before its pass begins. */
  ghost predicate Staged(state: State, blocks: Holding, microblocks: Holding)
  {
    && (state != GetBlocksFinish ==> blocks.requests == map[])
    && (state != GetMicroblocksFinish ==> microblocks.requests == map[])
    && (state.DnsLookupBegin? || state.DnsLookupFinish? || state.GetBlocksBegin? ==>
          NoneEmpty(blocks.toTry) && blocks.got == map[] && microblocks.got == map[])
    && (!state.GetMicroblocksFinish? && !state.Done? ==> NoneEmpty(microblocks.toTry) && microblocks.got == map[])
    && (state.DnsLookupBegin? || state.DnsLookupFinish? ==> blocks.fate == map[] && microblocks.fate == map[])
  }

  class BlockDownloader {
    const maxInflight: nat
    const blocks: Fetcher
    const microblocks: Fetcher
    var state: State
    var blockHeight: nat
    var microblockHeight: nat
    var nextBlock: nat
    var nextMicroblock: nat
    var numBlocks: nat
    var numMicroblocks: nat
    var emptyBlockPasses: nat
    var emptyMicroblockPasses: nat
    var finishedScanAt: nat
    var lastInvUpdateAt: nat

    constructor (maxInflight: nat, indexHash: (nat, nat) -> nat)
      ensures Valid() && state == GetBlocksBegin && fresh(blocks) && fresh(microblocks)
      ensures blocks.judge == JudgeBlock(indexHash) && microblocks.judge == JudgeMicroblocks()
    {
      this.maxInflight := maxInflight;
      blocks := new Fetcher(false, JudgeBlock(indexHash));
      microblocks := new Fetcher(true, JudgeMicroblocks());
      state := GetBlocksBegin;
      blockHeight, microblockHeight, nextBlock, nextMicroblock := 0, 0, 0, 0;
      numBlocks, numMicroblocks, emptyBlockPasses, emptyMicroblockPasses := 0, 0, 0, 0;
      finishedScanAt, lastInvUpdateAt := 0, 0;
    }

    /** Both kinds of data have had a pass up to the tip that brought nothing. */
    predicate Idle()
      reads this`emptyBlockPasses, this`emptyMicroblockPasses
    {
      emptyBlockPasses > 0 && emptyMicroblockPasses > 0
    }

    /** Nothing to do: no news since then, or not long enough ago. */
    predicate Throttled(env: Env)
      reads this
    {
      Idle() && (lastInvUpdateAt == env.invUpdatedAt || finishedScanAt + BLOCK_DOWNLOAD_INTERVAL >= env.now)
    }

    ghost predicate Shape()
      reads this, blocks, microblocks
    {
      && blocks != microblocks && !blocks.microblocks && microblocks.microblocks
      && blocks.Valid() && microblocks.Valid()
      && |blocks.toTry| <= maxInflight && |microblocks.toTry| <= maxInflight
    }

    /** And no run is throttled once it has begun. */
    ghost predicate Valid()
      reads this, blocks, microblocks
    {
      Shape() && Staged(state, blocks.Held(), microblocks.Held()) && (Idle() ==> state.DnsLookupBegin?)
    }

    /** How many requests are left to try. */
    ghost function Left(): (n: nat)
      reads blocks`toTry, microblocks`toTry
    {
      |Queued(blocks.toTry)| + |Queued(microblocks.toTry)|
    }

    /** Data in hand is what was asked for: blocks hash to the index hash requested, and no stream is empty. */
    lemma InHandMatches(indexHash: (nat, nat) -> nat)
      requires Valid() && blocks.judge == JudgeBlock(indexHash) && microblocks.judge == JudgeMicroblocks()
      ensures forall k :: k in blocks.got ==>
        blocks.got[k].Block? && indexHash(k.burnBlockHash, blocks.got[k].blockHash) == k.indexBlockHash
      ensures forall k :: k in microblocks.got ==> microblocks.got[k].Microblocks? && microblocks.got[k].stream != []
      ensures forall k :: k in microblocks.got ==> k.childHeader.Some?
    {
    }

    /** No one is waiting to be blamed. */
    ghost predicate Quiet()
      reads blocks`deadPeers, blocks`brokenPeers, blocks`brokenNeighbors,
            microblocks`deadPeers, microblocks`brokenPeers, microblocks`brokenNeighbors
    {
      && blocks.deadPeers == blocks.brokenPeers == blocks.brokenNeighbors == []
      && microblocks.deadPeers == microblocks.brokenPeers == microblocks.brokenNeighbors == []
    }

    /** Looking for what to fetch, unless blocks are still queued; but not while there is nothing to do. */
    twostate predicate Scanned(new env: Env, new p: Progress)
      reads this, blocks, microblocks
    {
      if old(Throttled(env)) then
        p == NOTHING_YET.(done := true) && unchanged(this) && unchanged(blocks) && unchanged(microblocks)
      else
      && state == DnsLookupFinish && p == NOTHING_YET
      && blocks.fate == old(blocks.fate) && microblocks.fate == old(microblocks.fate)
      && (old(blocks.toTry) == map[] || (unchanged(blocks) && unchanged(microblocks)))
    }

    /** Waiting for the DNS. */
    twostate predicate Resolved(new env: Env, new p: Progress)
      reads this, blocks, microblocks
    {
      && state == (if env.dnsDone then GetBlocksBegin else DnsLookupFinish) && p == NOTHING_YET
      && unchanged(blocks) && unchanged(microblocks)
    }

    /** Sending block requests, none of which was sent before. */
    twostate predicate SentBlocks(new p: Progress)
      reads this, blocks, microblocks
    {
      state == GetBlocksFinish && p == NOTHING_YET && blocks.Sent() && unchanged(microblocks)
    }

    /** Polling block requests, and blaming peers for those that died or went bad. */
    twostate predicate PolledBlocks(new env: Env, new p: Progress)
      reads this, blocks, microblocks
    {
      && state == (if blocks.requests == map[] then GetMicroblocksBegin else GetBlocksFinish) && !p.done
      && blocks.toTry == old(blocks.toTry) && unchanged(microblocks)
      && blocks.requests == PendingIn(old(blocks.requests), env.respond, blocks.judge)
      && blocks.fate.Keys == old(blocks.fate).Keys && blocks.Open() <= old(blocks.Open())
      && Blamed(old(blocks.requests), blocks.fate, p)
    }

    twostate predicate SentMicroblocks(new p: Progress)
      reads this, blocks, microblocks
    {
      state == GetMicroblocksFinish && p == NOTHING_YET && microblocks.Sent() && unchanged(blocks)
    }

    twostate predicate PolledMicroblocks(new env: Env, new p: Progress)
      reads this, blocks, microblocks
    {
      && state == (if microblocks.requests == map[] then Done else GetMicroblocksFinish) && !p.done
      && microblocks.toTry == old(microblocks.toTry) && unchanged(blocks)
      && microblocks.requests == PendingIn(old(microblocks.requests), env.respond, microblocks.judge)
      && microblocks.fate.Keys == old(microblocks.fate).Keys && microblocks.Open() <= old(microblocks.Open())
      && Blamed(old(microblocks.requests), microblocks.fate, p)
    }

    /** Closing a pass: something is left to fetch, or everything is reset. */
    twostate predicate Closed(new p: Progress)
      reads this, blocks, microblocks
    {
      && p.blocks == old(blocks.got) && p.disconnect == p.neighbors == [] && Left() <= old(Left())
      && blocks.Open() <= old(blocks.Open()) && microblocks.Open() <= old(microblocks.Open())
      && (if p.done then state == DnsLookupBegin
          else state == GetBlocksBegin && (blocks.toTry != map[] || microblocks.toTry != map[]))
      && (!p.done ==>
            blocks.fate.Keys == old(blocks.fate).Keys && microblocks.fate.Keys == old(microblocks.fate).Keys)
    }

    /** What one call does, by the state it is made in. */
    twostate predicate Moved(new env: Env, new p: Progress)
      reads this, blocks, microblocks
    {
      match old(state)
      case DnsLookupBegin => Scanned(env, p)
      case DnsLookupFinish => Resolved(env, p)
      case GetBlocksBegin => SentBlocks(p)
      case GetBlocksFinish => PolledBlocks(env, p)
      case GetMicroblocksBegin => SentMicroblocks(p)
      case GetMicroblocksFinish => PolledMicroblocks(env, p)
      case Done => Closed(p)
    }

    /** What a scan leaves: everything on offer throughout from the heights of this scan to where it got is queued. */
    ghost predicate Found(env: Env, blockReached: nat, microblockReached: nat)
      reads this, blocks, microblocks
    {
      && blockHeight <= blockReached && microblockHeight <= microblockReached
      && NoneMissed(blocks.toTry, env.supply, env.firstBlockHeight, env.tip, blockHeight, blockReached, false)
      && NoneMissed(microblocks.toTry, env.supply, env.firstBlockHeight, env.tip,
                    microblockHeight, microblockReached, true)
      && nextBlock == NextStart(blockReached, env.burnBlockHeight, |blocks.toTry| == |microblocks.toTry| == 0)
      && nextMicroblock ==
           NextStart(microblockReached, env.burnBlockHeight, |blocks.toTry| == |microblocks.toTry| == 0)
    }

    method ScanQueues(env: Env) returns (ghost blockReached: nat, ghost microblockReached: nat)
      requires Shape() && EnvOk(env) && NoneEmpty(blocks.toTry) && NoneEmpty(microblocks.toTry)
      requires blocks.fate == map[] && microblocks.fate == map[]
      modifies this`nextBlock, this`nextMicroblock, blocks`toTry, microblocks`toTry
      ensures Shape() && NoneEmpty(blocks.toTry) && NoneEmpty(microblocks.toTry)
      ensures Found(env, blockReached, microblockReached) && Extends(microblocks.toTry, old(microblocks.toTry))
    {
      hide QueuesOk, SupplyOk, NoneEmpty, NoneMissed, NextStart, Fetcher.Valid, Extends;
      blocks.QueuesAreOk();
      microblocks.QueuesAreOk();
      var blocksToTry, microblocksToTry;
      blocksToTry, microblocksToTry, nextBlock, nextMicroblock, blockReached, microblockReached :=
        ScanForBlocks(blocks.toTry, microblocks.toTry, blockHeight, microblockHeight, maxInflight,
                      env.firstBlockHeight, env.tip, env.burnBlockHeight, env.supply);
      blocks.Fill(blocksToTry);
      microblocks.Fill(microblocksToTry);
    }

    /** Scan, unless blocks are still queued. */
    method StartDns(env: Env) returns (ghost blockReached: nat, ghost microblockReached: nat)
      requires Valid() && Quiet() && EnvOk(env) && state == DnsLookupBegin && !Idle()
      modifies this`state, this`nextBlock, this`nextMicroblock, blocks`toTry, microblocks`toTry
      ensures Valid() && Quiet() && Scanned(env, NOTHING_YET) && Extends(microblocks.toTry, old(microblocks.toTry))
      ensures old(blocks.toTry) == map[] ==> Found(env, blockReached, microblockReached)
    {
      hide EnvOk, NoneEmpty, NoneMissed, NextStart, Fetcher.Valid, Extends, BlockDownloader.Quiet;
      ExtendsItself(microblocks.toTry);
      if |blocks.toTry| == 0 {
        blockReached, microblockReached := ScanQueues(env);
      } else {
        blockReached, microblockReached := blockHeight, microblockHeight;
      }
      state := DnsLookupFinish;
    }

    method FinishDns(env: Env)
      requires Valid() && Quiet() && state == DnsLookupFinish
      modifies this`state
      ensures Valid() && Quiet() && Resolved(env, NOTHING_YET)
    {
      if env.dnsDone {
        state := GetBlocksBegin;
      }
    }

    method BeginBlocks(env: Env)
      requires Valid() && Quiet() && state == GetBlocksBegin
      modifies this`state, blocks`toTry, blocks`requests, blocks`fate
      ensures Valid() && Quiet() && SentBlocks(NOTHING_YET)
    {
      hide Begun, NoneEmpty, Fetcher.Valid, Fetcher.Sent, AllPending, BlockDownloader.Quiet;
      blocks.Begin(env.send);
      state := GetBlocksFinish;
    }

    method BeginMicroblocks(env: Env)
      requires Valid() && Quiet() && state == GetMicroblocksBegin
      modifies this`state, microblocks`toTry, microblocks`requests, microblocks`fate
      ensures Valid() && Quiet() && SentMicroblocks(NOTHING_YET)
    {
      hide Begun, NoneEmpty, Fetcher.Valid, Fetcher.Sent, AllPending, BlockDownloader.Quiet;
      microblocks.Begin(env.send);
      state := GetMicroblocksFinish;
    }

    method FinishBlocks(respond: Answers)
      requires Valid() && Quiet() && state == GetBlocksFinish
      modifies this`state, blocks
      ensures Valid() && blocks.toTry == old(blocks.toTry)
      ensures blocks.fate == old(blocks.fate) + FatesIn(old(blocks.requests), respond, blocks.judge)
      ensures blocks.fate.Keys == old(blocks.fate).Keys
      ensures state == if blocks.requests == map[] then GetMicroblocksBegin else GetBlocksFinish
      ensures blocks.requests == PendingIn(old(blocks.requests), respond, blocks.judge)
      ensures Blames(old(blocks.requests), FatesIn(old(blocks.requests), respond, blocks.judge),
                     blocks.deadPeers, blocks.brokenPeers, blocks.brokenNeighbors)
    {
      hide Fetcher.Valid, PendingIn, AcceptedIn, FatesIn, Blames, NoneEmpty;
      var finished := blocks.TryFinish(respond);
      FromStart(blocks.deadPeers);
      FromStart(blocks.brokenPeers);
      FromStart(blocks.brokenNeighbors);
      if finished {
        state := GetMicroblocksBegin;
      }
    }

    method FinishMicroblocks(respond: Answers)
      requires Valid() && Quiet() && state == GetMicroblocksFinish
      modifies this`state, microblocks
      ensures Valid() && microblocks.toTry == old(microblocks.toTry)
      ensures microblocks.fate == old(microblocks.fate) + FatesIn(old(microblocks.requests), respond, microblocks.judge)
      ensures microblocks.fate.Keys == old(microblocks.fate).Keys
      ensures state == if microblocks.requests == map[] then Done else GetMicroblocksFinish
      ensures microblocks.requests == PendingIn(old(microblocks.requests), respond, microblocks.judge)
      ensures Blames(old(microblocks.requests), FatesIn(old(microblocks.requests), respond, microblocks.judge),
                     microblocks.deadPeers, microblocks.brokenPeers, microblocks.brokenNeighbors)
    {
      hide Fetcher.Valid, PendingIn, AcceptedIn, FatesIn, Blames, NoneEmpty;
      var finished := microblocks.TryFinish(respond);
      FromStart(microblocks.deadPeers);
      FromStart(microblocks.brokenPeers);
      FromStart(microblocks.brokenNeighbors);
      if finished {
        state := Done;
      }
    }

    /**
     The end of a pass.  Either everything was fetched or given up on, or there is another
     pass with only non-empty queues, so that the assertions on them hold.
     */
    method FinishDownloads(env: Env) returns (p: Progress)
      requires Valid() && EnvOk(env) && state == Done
      modifies this`state, this`blockHeight, this`microblockHeight, this`nextBlock, this`nextMicroblock,
               this`numBlocks, this`numMicroblocks, this`emptyBlockPasses, this`emptyMicroblockPasses,
               this`finishedScanAt, blocks`toTry, blocks`got, blocks`fate,
               microblocks`toTry, microblocks`got, microblocks`fate
      ensures Shape() && blocks.requests == map[] && microblocks.requests == map[]
      ensures blocks.got == map[] && microblocks.got == map[]
      ensures NoneEmpty(blocks.toTry) && NoneEmpty(microblocks.toTry)
      ensures p.done <==> blocks.toTry == map[] && microblocks.toTry == map[]
      ensures state == if p.done then Done else GetBlocksBegin
      ensures p.blocks == old(blocks.got)
      ensures p.microblocks == ValidStreams(old(microblocks.got), env.validStream)
      ensures p.disconnect == p.neighbors == []
      ensures blocks.toTry == Remaining(old(blocks.toTry), old(blocks.got))
      ensures microblocks.toTry == Remaining(old(microblocks.toTry), old(microblocks.got))
      ensures blocks.Trimmed() && microblocks.Trimmed()
      ensures if p.done then StartsBelowTip(env, blockHeight) && StartsBelowTip(env, microblockHeight)
              else blockHeight == old(blockHeight) && microblockHeight == old(microblockHeight) && Idle() == old(Idle())
      ensures p.done && Idle() ==> finishedScanAt == env.now
    {
      hide EnvOk, NoneEmpty, Remaining, Headed, Fetcher.Valid, Fetcher.Trimmed;
      microblocks.InHandHeaded();
      var gotMicroblocks;
      p, gotMicroblocks := CollectAll();
      p := p.(microblocks := ValidStreams(gotMicroblocks, env.validStream));
      Conclude(env, p);
    }

    /** Count what was fetched, and go on to the next scan or the next pass. */
    method Conclude(env: Env, p: Progress)
      requires state == Done
      modifies this`state, this`blockHeight, this`microblockHeight, this`nextBlock, this`nextMicroblock,
               this`numBlocks, this`numMicroblocks, this`emptyBlockPasses, this`emptyMicroblockPasses,
               this`finishedScanAt
      ensures state == if p.done then Done else GetBlocksBegin
      ensures if p.done then StartsBelowTip(env, blockHeight) && StartsBelowTip(env, microblockHeight)
              else blockHeight == old(blockHeight) && microblockHeight == old(microblockHeight) && Idle() == old(Idle())
      ensures p.done && Idle() ==> finishedScanAt == env.now
    {
      numBlocks, numMicroblocks := numBlocks + |p.blocks|, numMicroblocks + |p.microblocks|;
      if p.done {
        AdvanceHeights(env);
      } else {
        state := GetBlocksBegin;
      }
    }

    /** Take in what was fetched, and forget the heights it was for and the queues that ran out. */
    method CollectAll() returns (p: Progress, gotMicroblocks: map<RequestKey, Response>)
      requires Shape()
      modifies blocks`toTry, blocks`got, blocks`fate, microblocks`toTry, microblocks`got, microblocks`fate
      ensures Shape() && NoneEmpty(blocks.toTry) && NoneEmpty(microblocks.toTry)
      ensures blocks.got == map[] && microblocks.got == map[]
      ensures p.done <==> blocks.toTry == map[] && microblocks.toTry == map[]
      ensures p.blocks == old(blocks.got) && gotMicroblocks == old(microblocks.got)
      ensures p.disconnect == p.neighbors == []
      ensures blocks.toTry == Remaining(old(blocks.toTry), old(blocks.got))
      ensures microblocks.toTry == Remaining(old(microblocks.toTry), old(microblocks.got))
      ensures blocks.Trimmed() && microblocks.Trimmed()
    {
      hide QueuesOk, NoneEmpty, Remaining, Apart, Matches, SubQueues;
      RemainingIs(blocks.toTry, blocks.got);
      RemainingIs(microblocks.toTry, microblocks.got);
      var gotBlocks := blocks.Collect();
      gotMicroblocks := microblocks.Collect();
      p := NOTHING_YET.(done := |blocks.toTry| == 0 && |microblocks.toTry| == 0, blocks := gotBlocks);
    }

    /** Scan on from where the last scan stopped, or from the start once it reached the tip. */
    method AdvanceHeights(env: Env)
      modifies this`blockHeight, this`microblockHeight, this`nextBlock, this`nextMicroblock, this`numBlocks,
               this`numMicroblocks, this`emptyBlockPasses, this`emptyMicroblockPasses, this`finishedScanAt
      ensures blockHeight == nextBlock == if StartsBelowTip(env, old(nextBlock)) then old(nextBlock) else 0
      ensures microblockHeight == nextMicroblock ==
        if StartsBelowTip(env, old(nextMicroblock)) then old(nextMicroblock) else 0
      ensures emptyBlockPasses > old(emptyBlockPasses) ==> blockHeight == 0 && old(numBlocks) == 0
      ensures emptyMicroblockPasses > old(emptyMicroblockPasses) ==> microblockHeight == 0 && old(numMicroblocks) == 0
      ensures Idle() ==> finishedScanAt == env.now
    {
      blockHeight, microblockHeight := nextBlock, nextMicroblock;
      if blockHeight + env.firstBlockHeight >= env.burnBlockHeight {
        blockHeight, nextBlock := 0, 0;
        emptyBlockPasses := if numBlocks == 0 then emptyBlockPasses + 1 else 0;
        numBlocks := 0;
      }
      if microblockHeight + env.firstBlockHeight >= env.burnBlockHeight {
        microblockHeight, nextMicroblock := 0, 0;
        emptyMicroblockPasses := if numMicroblocks == 0 then emptyMicroblockPasses + 1 else 0;
        numMicroblocks := 0;
      }
      if Idle() {
        finishedScanAt := env.now;
      }
    }

    /** Hand over whom to disconnect from. */
    method ClearBrokenPeers() returns (disconnect: seq<nat>, neighbors: seq<nat>)
      modifies blocks`deadPeers, blocks`brokenPeers, blocks`brokenNeighbors,
               microblocks`deadPeers, microblocks`brokenPeers, microblocks`brokenNeighbors
      ensures Quiet()
      ensures disconnect ==
        old(blocks.brokenPeers + microblocks.brokenPeers) + old(blocks.deadPeers + microblocks.deadPeers)
      ensures neighbors == old(blocks.brokenNeighbors + microblocks.brokenNeighbors)
    {
      disconnect := blocks.brokenPeers + microblocks.brokenPeers + (blocks.deadPeers + microblocks.deadPeers);
      neighbors := blocks.brokenNeighbors + microblocks.brokenNeighbors;
      blocks.deadPeers, blocks.brokenPeers, blocks.brokenNeighbors := [], [], [];
      microblocks.deadPeers, microblocks.brokenPeers, microblocks.brokenNeighbors := [], [], [];
    }

    method ClosePass(env: Env) returns (p: Progress)
      requires Valid() && Quiet() && EnvOk(env) && state == Done
      modifies this, blocks, microblocks
      ensures Valid() && Quiet() && Closed(p)
    {
      hide EnvOk, Queued, Remaining, NoneEmpty, ValidStreams, StartsBelowTip, Fetcher.Valid, Fetcher.Open,
        BlockDownloader.Quiet;
      p := FinishDownloads(env);
      if p.done {
        ResetAll();
      }
    }

    method ResetAll()
      requires blocks != microblocks && !blocks.microblocks && microblocks.microblocks
      modifies this`state, blocks, microblocks
      ensures Valid() && Quiet() && state == DnsLookupBegin
      ensures Left() == 0 && blocks.Open() == microblocks.Open() == {}
    {
      hide Queued, Fetcher.Valid;
      NothingQueued();
      NoneQueued();
      blocks.Reset();
      microblocks.Reset();
      state := DnsLookupBegin;
    }

    method PollBlocks(env: Env) returns (p: Progress)
      requires Valid() && Quiet() && state == GetBlocksFinish
      modifies this`state, blocks, microblocks
      ensures Valid() && Quiet() && PolledBlocks(env, p)
    {
      hide PendingIn, FatesIn, Queued, Fetcher.Valid, Fetcher.Held, Staged, Blames, Blamed;
      ghost var requests, fate := blocks.requests, blocks.fate;
      FatesKnown(requests, env.respond, blocks.judge);
      FinishBlocks(env.respond);
      ghost var dead, broken, neighbors := blocks.deadPeers, blocks.brokenPeers, blocks.brokenNeighbors;
      p := NOTHING_YET;
      var disconnect, blamed := ClearBrokenPeers();
      p := p.(disconnect := disconnect, neighbors := blamed);
      BlamedWhenAdded(requests, fate, FatesIn(requests, env.respond, blocks.judge), dead, broken, neighbors, p);
    }

    method PollMicroblocks(env: Env) returns (p: Progress)
      requires Valid() && Quiet() && state == GetMicroblocksFinish
      modifies this`state, blocks, microblocks
      ensures Valid() && Quiet() && PolledMicroblocks(env, p)
    {
      hide PendingIn, FatesIn, Queued, Fetcher.Valid, Fetcher.Held, Staged, Blames, Blamed;
      ghost var requests, fate := microblocks.requests, microblocks.fate;
      FatesKnown(requests, env.respond, microblocks.judge);
      FinishMicroblocks(env.respond);
      ghost var dead, broken, neighbors := microblocks.deadPeers, microblocks.brokenPeers, microblocks.brokenNeighbors;
      p := NOTHING_YET;
      var disconnect, blamed := ClearBrokenPeers();
      p := p.(disconnect := disconnect, neighbors := blamed);
      BlamedWhenAdded(requests, fate, FatesIn(requests, env.respond, microblocks.judge), dead, broken, neighbors, p);
    }

    /** Scan the whole chain again. */
    method RestartScan()
      requires Valid()
      modifies this`blockHeight, this`microblockHeight, this`nextBlock, this`nextMicroblock,
               this`emptyBlockPasses, this`emptyMicroblockPasses
      ensures Valid() && !Idle() && blockHeight == microblockHeight == nextBlock == nextMicroblock == 0
    {
      hide Fetcher.Valid, Fetcher.Held, Staged;
      blockHeight, microblockHeight, nextBlock, nextMicroblock := 0, 0, 0, 0;
      emptyBlockPasses, emptyMicroblockPasses := 0, 0;
    }

    /** Whether there is anything to do; a scan that found nothing is made again after a while, on news. */
    method Wake(env: Env) returns (throttled: bool)
      requires Valid()
      modifies this`blockHeight, this`microblockHeight, this`nextBlock, this`nextMicroblock,
               this`emptyBlockPasses, this`emptyMicroblockPasses, this`lastInvUpdateAt
      ensures Valid() && throttled == old(Throttled(env)) && (throttled ==> unchanged(this))
      ensures !throttled ==> !Idle() && lastInvUpdateAt == env.invUpdatedAt
      ensures !throttled && old(Idle()) ==> blockHeight == microblockHeight == 0
    {
      if Idle() {
        if lastInvUpdateAt == env.invUpdatedAt {
          return true;
        } else if finishedScanAt + BLOCK_DOWNLOAD_INTERVAL >= env.now {
          return true;
        }
        RestartScan();
      }
      lastInvUpdateAt := env.invUpdatedAt;
      throttled := false;
    }

    /**
     One call of the driver.  Requests are sent only from the two beginning states, never one
     that was sent before; no request is opened that was not open, until all is done and
     everything is reset; peers are blamed exactly for requests that died or went bad; and no
     run is ever throttled once it has begun.
     */
    method Step(env: Env) returns (p: Progress)
      requires Valid() && Quiet() && EnvOk(env)
      modifies this, blocks, microblocks
      ensures Valid() && Quiet() && Moved(env, p)
    {
      hide EnvOk, PendingIn, Blamed, Fetcher.Open, BlockDownloader.Valid, BlockDownloader.Quiet, BlockDownloader.Left;
      IdleAtStart();
      var throttled := Wake(env);
      if throttled {
        return NOTHING_YET.(done := true);
      }
      p := Dispatch(env);
    }

    lemma IdleAtStart()
      requires Valid()
      ensures Idle() ==> state == DnsLookupBegin
    {
    }

    method Dispatch(env: Env) returns (p: Progress)
      requires Valid() && Quiet() && EnvOk(env) && !Idle()
      modifies this, blocks, microblocks
      ensures Valid() && Quiet() && Moved(env, p)
    {
      hide EnvOk, BlockDownloader.Valid, BlockDownloader.Quiet, BlockDownloader.Scanned,
        BlockDownloader.Resolved, BlockDownloader.SentBlocks, BlockDownloader.PolledBlocks,
        BlockDownloader.SentMicroblocks, BlockDownloader.PolledMicroblocks, BlockDownloader.Closed;
      p := NOTHING_YET;
      match state {
        case DnsLookupBegin =>
          ghost var blockReached, microblockReached := StartDns(env);
        case DnsLookupFinish => FinishDns(env);
        case GetBlocksBegin => BeginBlocks(env);
        case GetBlocksFinish => p := PollBlocks(env);
        case GetMicroblocksBegin => BeginMicroblocks(env);
        case GetMicroblocksFinish => p := PollMicroblocks(env);
        case Done => p := ClosePass(env);
      }
    }

    /** Passes made and requests left are within the quota, but for one pass that is sure to use up a request. */
    ghost predicate Counted(passes: nat, quota: nat)
      reads this, blocks, microblocks
    {
      match state
      case DnsLookupBegin => passes == 0
      case DnsLookupFinish | GetBlocksBegin =>
        passes + Left() <= quota + if blocks.toTry != map[] || microblocks.toTry != map[] then 1 else 0
      case GetBlocksFinish | GetMicroblocksBegin =>
        passes + Left() <= quota + if microblocks.toTry != map[] then 1 else 0
      case GetMicroblocksFinish | Done => passes + Left() <= quota
    }

    /** One call, and how it counts towards the quota. */
    method StepCounted(env: Env, ghost passes: nat, ghost quota: nat)
      returns (p: Progress, ghost passes': nat, ghost quota': nat)
      requires Valid() && Quiet() && EnvOk(env) && Counted(passes, quota)
      modifies this, blocks, microblocks
      ensures Valid() && Quiet() && Moved(env, p) && passes' <= quota' + 1 && (!p.done ==> Counted(passes', quota'))
      ensures passes' == if old(state) == Done then passes + 1 else passes
      ensures quota' == if old(state) == DnsLookupBegin then Left() else quota
    {
      hide EnvOk, Queued, NoneEmpty, Fetcher.Valid, PendingIn, Blamed, Fetcher.Open, BlockDownloader.Quiet;
      ghost var was := state;
      p := Step(env);
      passes' := if was == Done then passes + 1 else passes;
      quota' := if was == DnsLookupBegin then Left() else quota;
    }

    ghost predicate Records(run: Run)
      reads this, blocks, microblocks
    {
      && Counted(run.passes, run.quota) && run.SentOnce() && run.Knows(blocks.fate.Keys, microblocks.fate.Keys)
      && run.SentOpen() && (state == DnsLookupBegin ==> run.sentBlocks == run.sentMicroblocks == [])
      && (state != DnsLookupBegin ==> blocks.Open() <= run.openBlocks && microblocks.Open() <= run.openMicroblocks)
    }

    /** One call of a run. */
    method StepOn(env: Env, ghost run: Run) returns (p: Progress, ghost run': Run)
      requires Valid() && Quiet() && EnvOk(env) && Records(run)
      modifies this, blocks, microblocks
      ensures Valid() && Quiet() && Moved(env, p)
      ensures run'.SentOnce() && run'.SentOpen() && run'.passes <= run'.quota + 1 && (!p.done ==> Records(run'))
      ensures old(state) != DnsLookupBegin ==>
        run'.openBlocks == run.openBlocks && run'.openMicroblocks == run.openMicroblocks
      ensures run'.blocksBefore == run.blocksBefore && run'.microblocksBefore == run.microblocksBefore
      ensures run'.passes == if old(state) == Done then run.passes + 1 else run.passes
      ensures run'.quota == if old(state) == DnsLookupBegin then Left() else run.quota
    {
      hide EnvOk, Once, Union, PendingIn, Blamed, Fetcher.Open,
        BlockDownloader.Valid, BlockDownloader.Quiet, BlockDownloader.Counted;
      ghost var was, passes, quota := state, 0, 0;
      p, passes, quota := StepCounted(env, run.passes, run.quota);
      run' := run.(passes := passes, quota := quota);
      blocks.RequestsAreOpen();
      microblocks.RequestsAreOpen();
      if was == DnsLookupBegin {
        NothingSent();
        run' := run'.(openBlocks := blocks.Open(), openMicroblocks := microblocks.Open());
      } else if was == GetBlocksBegin {
        OnceMore(run.sentBlocks, run.blocksBefore, blocks.requests.Keys);
        run' := run'.(sentBlocks := run.sentBlocks + [blocks.requests.Keys]);
      } else if was == GetMicroblocksBegin {
        OnceMore(run.sentMicroblocks, run.microblocksBefore, microblocks.requests.Keys);
        run' := run'.(sentMicroblocks := run.sentMicroblocks + [microblocks.requests.Keys]);
      }
    }

    /**
     A run of calls, however they go, until all is done or the calls end.  It closes at most one
     pass more than there were requests left to try (after the scan, if the run starts with one),
     and no request is sent twice, or sent at all if it was before the run or was not open then.
     */
    method RunUntilDone(envs: seq<Env>) returns (passes: nat, done: bool, ghost run: Run)
      requires Valid() && Quiet() && forall i :: 0 <= i < |envs| ==> EnvOk(envs[i])
      modifies this, blocks, microblocks
      ensures Valid() && Quiet() && (done ==> state == DnsLookupBegin)
      ensures passes == run.passes <= run.quota + 1 && (old(state) != DnsLookupBegin ==> run.quota == old(Left()))
      ensures run.SentOnce() && (!done ==> run.Knows(blocks.fate.Keys, microblocks.fate.Keys))
      ensures run.SentOpen() && (old(state) != DnsLookupBegin ==>
        run.openBlocks == old(blocks.Open()) && run.openMicroblocks == old(microblocks.Open()))
      ensures run.blocksBefore == old(blocks.fate).Keys && run.microblocksBefore == old(microblocks.fate).Keys
    {
      hide EnvOk, Once, Union, PendingIn, Blamed, Fetcher.Open, Fetcher.Sent,
        BlockDownloader.Valid, BlockDownloader.Quiet, BlockDownloader.Counted;
      passes, done := 0, false;
      run := NewRun();
      for i := 0 to |envs|
        invariant Valid() && Quiet() && Records(run) && passes == run.passes <= run.quota + 1
        invariant old(state) != DnsLookupBegin ==>
          && state != DnsLookupBegin && run.quota == old(Left())
          && run.openBlocks == old(blocks.Open()) && run.openMicroblocks == old(microblocks.Open())
        invariant run.blocksBefore == old(blocks.fate).Keys && run.microblocksBefore == old(microblocks.fate).Keys
      {
        var p;
        var closing := state == Done;
        p, run := StepOn(envs[i], run);
        passes := if closing then passes + 1 else passes;
        if p.done {
          return passes, true, run;
        }
      }
    }

    lemma NewRun() returns (run: Run)
      ensures Records(run) && run ==
        Run(0, Left(), blocks.Open(), microblocks.Open(), blocks.fate.Keys, microblocks.fate.Keys, [], [])
    {
      run := Run(0, Left(), blocks.Open(), microblocks.Open(), blocks.fate.Keys, microblocks.fate.Keys, [], []);
      NothingSent();
    }

    /** How far the state is from the end of a pass. */
    ghost function Rank(): (n: nat)
      reads this`state
    {
      match state
      case DnsLookupBegin => 6
      case DnsLookupFinish => 5
      case GetBlocksBegin => 4
      case GetBlocksFinish => 3
      case GetMicroblocksBegin => 2
      case GetMicroblocksFinish => 1
      case Done => 0
    }

    /** How many requests are awaited. */
    ghost function Awaited(): (n: nat)
      reads this, blocks, microblocks
    {
      if state == GetBlocksFinish then |blocks.requests|
      else if state == GetMicroblocksFinish then |microblocks.requests|
      else 0
    }

    /** What is waited for happens at call `until`. */
    ghost predicate Waits(envs: nat -> Env, i: nat, until: nat)
      reads this, blocks, microblocks
    {
      && i <= until
      && (state == DnsLookupFinish ==> envs(until).dnsDone)
      && (state == GetBlocksFinish ==> Awaits(envs, blocks.judge, blocks.requests, i, until))
      && (state == GetMicroblocksFinish ==> Awaits(envs, microblocks.judge, microblocks.requests, i, until))
    }

    lemma SomeWait(envs: nat -> Env, i: nat) returns (until: nat)
      requires DnsFair(envs) && Fair(envs, blocks.judge) && Fair(envs, microblocks.judge)
      ensures Waits(envs, i, until)
    {
      until := i;
      if state == DnsLookupFinish {
        assert ResolvedFrom(envs, i);
        until :| i <= until && envs(until).dnsDone;
      } else if state == GetBlocksFinish {
        until := NextAnswer(envs, blocks.judge, blocks.requests, i);
      } else if state == GetMicroblocksFinish {
        until := NextAnswer(envs, microblocks.judge, microblocks.requests, i);
      }
    }

    /** One call of a run whose waits end: it gets on to the next state, or nearer to the end of its wait. */
    method StepNearer(envs: nat -> Env, i: nat, ghost until: nat, ghost run: Run)
      returns (p: Progress, ghost until': nat, ghost run': Run)
      requires Valid() && Quiet() && EnvOk(envs(i)) && Records(run) && Waits(envs, i, until)
      requires DnsFair(envs) && Fair(envs, blocks.judge) && Fair(envs, microblocks.judge)
      modifies this, blocks, microblocks
      ensures Valid() && Quiet() && Moved(envs(i), p) && (!p.done ==> Records(run'))
      ensures run'.SentOnce() && run'.SentOpen()
      ensures old(state) != DnsLookupBegin ==>
        run'.openBlocks == run.openBlocks && run'.openMicroblocks == run.openMicroblocks
      ensures run'.blocksBefore == run.blocksBefore && run'.microblocksBefore == run.microblocksBefore
      ensures run'.passes == if old(state) == Done then run.passes + 1 else run.passes
      ensures run'.passes <= run'.quota + 1
      ensures run'.quota == if old(state) == DnsLookupBegin then Left() else run.quota
      ensures Waits(envs, i + 1, until')
      ensures p.done || Rank() < old(Rank()) || old(state) == Done ||
        (Rank() == old(Rank()) &&
         (Awaited() < old(Awaited()) || (Awaited() == old(Awaited()) && until' - (i + 1) < until - i)))
    {
      hide EnvOk, Fair, DnsFair, Awaits, PendingIn, Blamed, Fetcher.Open, Fetcher.Sent,
        BlockDownloader.Valid, BlockDownloader.Quiet, BlockDownloader.Records;
      ghost var was, blockRequests, microblockRequests := state, blocks.requests, microblocks.requests;
      p, run' := StepOn(envs(i), run);
      if was == DnsLookupFinish && state == DnsLookupFinish {
        until' := until;
      } else if was == GetBlocksFinish && state == GetBlocksFinish {
        until' := PollNears(envs, blocks.judge, blockRequests, i, until);
      } else if was == GetMicroblocksFinish && state == GetMicroblocksFinish {
        until' := PollNears(envs, microblocks.judge, microblockRequests, i, until);
      } else {
        until' := SomeWait(envs, i + 1);
      }
    }

    /**
     If every lookup and every request is answered in the end, however late and whether well or
     badly, the run ends with all done, after at most one pass more than there were requests, or
     at once if it is throttled from the start.
     */
    method RunToDone(envs: nat -> Env) returns (passes: nat, calls: nat, ghost run: Run)
      requires Valid() && Quiet() && forall i: nat :: EnvOk(envs(i))
      requires DnsFair(envs) && Fair(envs, blocks.judge) && Fair(envs, microblocks.judge)
      modifies this, blocks, microblocks
      ensures Valid() && Quiet() && state == DnsLookupBegin && calls > 0
      ensures passes == run.passes <= run.quota + 1 && (old(state) != DnsLookupBegin ==> run.quota == old(Left()))
      ensures run.SentOnce() && run.SentOpen() && (old(state) != DnsLookupBegin ==>
        run.openBlocks == old(blocks.Open()) && run.openMicroblocks == old(microblocks.Open()))
      ensures run.blocksBefore == old(blocks.fate).Keys && run.microblocksBefore == old(microblocks.fate).Keys
    {
      hide EnvOk, Fair, DnsFair, Awaits, PendingIn, Blamed, Fetcher.Open, Fetcher.Sent, BlockDownloader.Valid,
        BlockDownloader.Quiet, BlockDownloader.Records, BlockDownloader.Awaited;
      passes, calls := 0, 0;
      run := NewRun();
      ghost var until := SomeWait(envs, 0);
      while true
        invariant Valid() && Quiet() && Records(run) && passes == run.passes <= run.quota + 1
        invariant calls <= until && Waits(envs, calls, until)
        invariant old(state) != DnsLookupBegin ==>
          && state != DnsLookupBegin && run.quota == old(Left())
          && run.openBlocks == old(blocks.Open()) && run.openMicroblocks == old(microblocks.Open())
        invariant run.blocksBefore == old(blocks.fate).Keys && run.microblocksBefore == old(microblocks.fate).Keys
        decreases state == DnsLookupBegin, run.quota + 1 - passes, Rank(), Awaited(), until - calls
      {
        var p;
        var closing := state == Done;
        p, until, run := StepNearer(envs, calls, until, run);
        passes, calls := if closing then passes + 1 else passes, calls + 1;
        if p.done {
          break;
        }
      }
    }
  }

  /** The streams found valid against the child headers of their requests, which are all there. */
  function ValidStreams(got: map<RequestKey, Response>, valid: (RequestKey, Response) -> bool)
    : (m: map<RequestKey, Response>)
    requires Headed(got.Keys, true)
  {
    map k | k in got && valid(k, got[k]) :: got[k]
  }

  lemma ExtendsItself(m: Queues)
    ensures Extends(m, m)
  {
  }

  lemma FromStart(s: seq<nat>)
    ensures s[0..] == s
  {
  }

  lemma FatesKnown(requests: map<RequestKey, nat>, respond: Answers, judge: Judge)
    ensures FatesIn(requests, respond, judge).Keys == requests.Keys
    ensures PendingIn(requests, respond, judge).Keys <= requests.Keys
  {
  }

  lemma NoneQueued()
    ensures NoneEmpty(map[])
  {
  }

  lemma NothingQueued()
    ensures Queued(map[]) == {}
  {
  }
}
