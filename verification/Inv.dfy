/**
 What we know of a peer's block inventory (PeerBlocksInv in src/net/inv.rs): two growing
 bitmaps, proved to be the set of sortitions the peer has reported.
 */
module Inv {
  import opened Prelude
  import opened Codec
  import opened Messages
  import opened Bitmap

  datatype Inventory = Inventory(blocks: bytes, microblocks: bytes, numSortitions: nat, first: nat)

  predicate Offers(bits: bytes, start: nat, i: nat)
  {
    start <= i && Has(bits, i - start)
  }

  /** The members of `bits` below position `n`, moved up by `start`. */
  ghost function Shifted(bits: bytes, n: nat, start: nat): (s: set<nat>)
  {
    set i: nat | i < start + n && Offers(bits, start, i)
  }

  /** How long a bitmap of `len` bytes gets by merging `n` bits at `start`. */
  function MergedLength(len: nat, start: nat, n: nat): (r: nat)
  {
    if n == 0 then len else Max(len, (start + n - 1) / 8 + 1)
  }

  /** `w` is `v` with the first `n` of `bits` added from position `start` on. */
  ghost predicate Merged(v: bytes, bits: bytes, n: nat, start: nat, w: bytes)
  {
    && |w| == MergedLength(|v|, start, n)
    && Members(w) == Members(v) + Shifted(bits, n, start)
  }

  /** `b` is `a` with the reply `d` for heights from `height` on added. */
  ghost predicate MergesTo(a: Inventory, height: nat, d: BlocksInvData, b: Inventory)
    requires height >= a.first
  {
    var start := height - a.first;
    && b.first == a.first && b.numSortitions == Max(a.numSortitions, start + d.bitlen)
    && Merged(a.blocks, d.blockBitvec, d.bitlen, start, b.blocks)
    && Merged(a.microblocks, d.microblocksBitvec, d.bitlen, start, b.microblocks)
  }

  /** Merging has one outcome, down to the bytes. */
  lemma MergeDeterministic(a: Inventory, height: nat, d: BlocksInvData, b: Inventory, c: Inventory)
    requires height >= a.first && MergesTo(a, height, d, b) && MergesTo(a, height, d, c)
    ensures b == c
  {
    hide Shifted, Members;
    Extensional(b.blocks, c.blocks);
    Extensional(b.microblocks, c.microblocks);
  }

  lemma MergesCommute(a: Inventory, h: nat, d: BlocksInvData, k: nat, e: BlocksInvData,
                      ad: Inventory, ade: Inventory, ae: Inventory, aed: Inventory)
    requires h >= a.first && k >= a.first
    requires MergesTo(a, h, d, ad) && MergesTo(ad, k, e, ade)
    requires MergesTo(a, k, e, ae) && MergesTo(ae, h, d, aed)
    ensures ade == aed
  {
    hide Shifted, Members;
    Extensional(ade.blocks, aed.blocks);
    Extensional(ade.microblocks, aed.microblocks);
  }

  lemma MergeIdempotent(a: Inventory, h: nat, d: BlocksInvData, b: Inventory, c: Inventory)
    requires h >= a.first && MergesTo(a, h, d, b) && MergesTo(b, h, d, c)
    ensures c == b
  {
    hide Shifted, Members;
    Extensional(b.blocks, c.blocks);
    Extensional(b.microblocks, c.microblocks);
  }

  /** The two assertions that end a merge, over the lengths involved. */
  predicate MergeAsserts(len: nat, numSortitions: nat, start: nat, n: nat)
  {
    && (start + n) / 8 <= MergedLength(len, start, n)
    && Max(numSortitions, start + n) / 8 <= MergedLength(len, start, n)
  }

  /** They hold, in a bitmap that met them before, exactly unless an empty reply lies past its end. */
  lemma MergeAssertsHoldIff(len: nat, numSortitions: nat, start: nat, n: nat)
    requires numSortitions / 8 <= len
    ensures MergeAsserts(len, numSortitions, start, n) <==> n > 0 || start / 8 <= len
  {
  }

  /** One more bit of a reply, added to a bitmap grown to hold it. */
  method AddBit(inv: bytes, i: nat, isSet: bool) returns (inv': bytes, isNew: bool)
    ensures |inv'| == Max(|inv|, i / 8 + 1)
    ensures Members(inv') == if isSet then Members(inv) + {i} else Members(inv)
    ensures isNew <==> isSet && i !in Members(inv)
    ensures |Members(inv')| == |Members(inv)| + if isNew then 1 else 0
  {
    hide Members, Has;
    Flipped(Members(inv), i);
    inv' := Grown(inv, i / 8 + 1);
    MembersOfGrown(inv, i / 8 + 1);
    InMembers(inv', i);
    isNew := false;
    if isSet {
      isNew := !Has(inv', i);
      MembersOfInserted(inv', i);
      inv' := Inserted(inv', i);
    }
  }

  lemma MergedStart(v: bytes, bits: bytes, start: nat)
    ensures Merged(v, bits, 0, start, v)
  {
  }

  lemma MergedStep(v: bytes, bits: bytes, n: nat, start: nat, w: bytes, w': bytes)
    requires Merged(v, bits, n, start, w)
    requires |w'| == Max(|w|, (start + n) / 8 + 1)
    requires Members(w') == if Has(bits, n) then Members(w) + {start + n} else Members(w)
    ensures Merged(v, bits, n + 1, start, w')
  {
  }

  /** The loop of a merge: both bitmaps take in one bit of the reply at a time. */
  method MergeBits(blocks: bytes, microblocks: bytes, start: nat, d: BlocksInvData)
    returns (blocks': bytes, microblocks': bytes, newBlocks: nat, newMicroblocks: nat)
    requires |d.blockBitvec| >= BitvecLen(d.bitlen) && |d.microblocksBitvec| >= BitvecLen(d.bitlen)
    ensures Merged(blocks, d.blockBitvec, d.bitlen, start, blocks')
    ensures Merged(microblocks, d.microblocksBitvec, d.bitlen, start, microblocks')
    ensures newBlocks == |Members(blocks')| - |Members(blocks)|
    ensures newMicroblocks == |Members(microblocks')| - |Members(microblocks)|
  {
    hide Members, Has, Merged;
    blocks', microblocks', newBlocks, newMicroblocks := blocks, microblocks, 0, 0;
    MergedStart(blocks, d.blockBitvec, start);
    MergedStart(microblocks, d.microblocksBitvec, start);
    for i := 0 to d.bitlen
      invariant Merged(blocks, d.blockBitvec, i, start, blocks')
      invariant Merged(microblocks, d.microblocksBitvec, i, start, microblocks')
      invariant newBlocks == |Members(blocks')| - |Members(blocks)|
      invariant newMicroblocks == |Members(microblocks')| - |Members(microblocks)|
    {
      var blockSet, microblockSet := Has(d.blockBitvec, i), Has(d.microblocksBitvec, i);
      ghost var b, m := blocks', microblocks';
      var isNew;
      blocks', isNew := AddBit(blocks', start + i, blockSet);
      newBlocks := newBlocks + if isNew then 1 else 0;
      microblocks', isNew := AddBit(microblocks', start + i, microblockSet);
      newMicroblocks := newMicroblocks + if isNew then 1 else 0;
      MergedStep(blocks, d.blockBitvec, i, start, b, blocks');
      MergedStep(microblocks, d.microblocksBitvec, i, start, m, microblocks');
    }
  }

  class PeerBlocksInv {
    var blockInv: bytes
    var microblocksInv: bytes
    var numSortitions: nat
    const firstBlockHeight: nat

    constructor (firstBlockHeight: nat)
      ensures View() == Inventory([], [], 0, firstBlockHeight)
    {
      this.firstBlockHeight := firstBlockHeight;
      blockInv, microblocksInv, numSortitions := [], [], 0;
    }

    ghost function View(): (v: Inventory)
      reads this
    {
      Inventory(blockInv, microblocksInv, numSortitions, firstBlockHeight)
    }

    method HasIthBlock(blockHeight: nat) returns (r: bool)
      ensures r <==> blockHeight >= firstBlockHeight && blockHeight - firstBlockHeight in Members(blockInv)
    {
      if blockHeight < firstBlockHeight {
        return false;
      }
      var sortitionHeight := blockHeight - firstBlockHeight;
      InMembers(blockInv, sortitionHeight);
      var idx, bit := sortitionHeight / 8, sortitionHeight % 8;
      r := if idx >= |blockInv| then false else Bit(blockInv[idx], bit);
    }

    method HasIthMicroblockStream(blockHeight: nat) returns (r: bool)
      ensures r <==> blockHeight >= firstBlockHeight && blockHeight - firstBlockHeight in Members(microblocksInv)
    {
      if blockHeight < firstBlockHeight {
        return false;
      }
      var sortitionHeight := blockHeight - firstBlockHeight;
      InMembers(microblocksInv, sortitionHeight);
      var idx, bit := sortitionHeight / 8, sortitionHeight % 8;
      r := if idx >= |microblocksInv| then false else Bit(microblocksInv[idx], bit);
    }

    /**
     Merge a reply.  It refines set union, and the counts returned are by how much the sets
     grew.  The closing assertions hold under the condition of MergeAssertsHoldIff.
     */
    method MergeBlocksInv(blockHeight: nat, d: BlocksInvData) returns (newBlocks: nat, newMicroblocks: nat)
      requires blockHeight >= firstBlockHeight
      requires |d.blockBitvec| >= BitvecLen(d.bitlen) && |d.microblocksBitvec| >= BitvecLen(d.bitlen)
      requires numSortitions / 8 <= |blockInv|
      requires d.bitlen > 0 || (blockHeight - firstBlockHeight) / 8 <= |blockInv|
      modifies this
      ensures MergesTo(old(View()), blockHeight, d, View())
      ensures newBlocks == |Members(blockInv)| - |Members(old(blockInv))|
      ensures newMicroblocks == |Members(microblocksInv)| - |Members(old(microblocksInv))|
      ensures numSortitions / 8 <= |blockInv|
    {
      hide Members, Shifted;
      var start := blockHeight - firstBlockHeight;
      MergeAssertsHoldIff(|blockInv|, numSortitions, start, d.bitlen);
      numSortitions := if numSortitions < start + d.bitlen then start + d.bitlen else numSortitions;
      blockInv, microblocksInv, newBlocks, newMicroblocks := MergeBits(blockInv, microblocksInv, start, d);
      assert (start + d.bitlen) / 8 <= |blockInv|;
      assert numSortitions / 8 <= |blockInv|;
    }

    /** Counts summed over any sequence of merges are what the sets gained in all. */
    method MergeAll(replies: seq<(nat, BlocksInvData)>) returns (newBlocks: nat, newMicroblocks: nat)
      requires forall i :: 0 <= i < |replies| ==>
        && replies[i].0 >= firstBlockHeight
        && (replies[i].1.bitlen > 0 || (replies[i].0 - firstBlockHeight) / 8 <= |blockInv|)
        && |replies[i].1.blockBitvec| >= BitvecLen(replies[i].1.bitlen)
        && |replies[i].1.microblocksBitvec| >= BitvecLen(replies[i].1.bitlen)
      requires numSortitions / 8 <= |blockInv|
      modifies this
      ensures newBlocks == |Members(blockInv)| - |Members(old(blockInv))|
      ensures newMicroblocks == |Members(microblocksInv)| - |Members(old(microblocksInv))|
    {
      hide Members, Shifted;
      newBlocks, newMicroblocks := 0, 0;
      for i := 0 to |replies|
        invariant numSortitions / 8 <= |blockInv| && |old(blockInv)| <= |blockInv|
        invariant newBlocks == |Members(blockInv)| - |Members(old(blockInv))|
        invariant newMicroblocks == |Members(microblocksInv)| - |Members(old(microblocksInv))|
      {
        var b, m := MergeBlocksInv(replies[i].0, replies[i].1);
        newBlocks, newMicroblocks := newBlocks + b, newMicroblocks + m;
      }
    }

    /** Returns whether the bit was flipped.  The other bitmap grows with it but gains nothing. */
    method SetBlockBit(blockHeight: nat) returns (flipped: bool)
      requires blockHeight >= firstBlockHeight && numSortitions / 8 <= |blockInv|
      modifies this
      ensures MergesTo(old(View()), blockHeight, ONE_BLOCK, View())
      ensures Members(blockInv) == Members(old(blockInv)) + {blockHeight - firstBlockHeight}
      ensures Members(microblocksInv) == Members(old(microblocksInv))
      ensures flipped <==> blockHeight - firstBlockHeight !in Members(old(blockInv))
      ensures numSortitions / 8 <= |blockInv|
    {
      hide Members, Shifted;
      OneBit(blockHeight - firstBlockHeight);
      var newBlocks, _ := MergeBlocksInv(blockHeight, ONE_BLOCK);
      Flipped(Members(old(blockInv)), blockHeight - firstBlockHeight);
      flipped := newBlocks != 0;
    }

    method SetMicroblocksBit(blockHeight: nat) returns (flipped: bool)
      requires blockHeight >= firstBlockHeight && numSortitions / 8 <= |blockInv|
      modifies this
      ensures MergesTo(old(View()), blockHeight, ONE_STREAM, View())
      ensures Members(blockInv) == Members(old(blockInv))
      ensures Members(microblocksInv) == Members(old(microblocksInv)) + {blockHeight - firstBlockHeight}
      ensures flipped <==> blockHeight - firstBlockHeight !in Members(old(microblocksInv))
      ensures numSortitions / 8 <= |blockInv|
    {
      hide Members, Shifted;
      OneBit(blockHeight - firstBlockHeight);
      var _, newMicroblocks := MergeBlocksInv(blockHeight, ONE_STREAM);
      Flipped(Members(old(microblocksInv)), blockHeight - firstBlockHeight);
      flipped := newMicroblocks != 0;
    }
  }

  const ONE_BLOCK: BlocksInvData := BlocksInvData(1, [1], [0])
  const ONE_STREAM: BlocksInvData := BlocksInvData(1, [0], [1])

  lemma OneBit(start: nat)
    ensures Shifted([1], 1, start) == {start} && Shifted([0], 1, start) == {}
  {
  }

  lemma Flipped(s: set<nat>, i: nat)
    ensures |s + {i}| - |s| == if i in s then 0 else 1
    ensures s + {} == s
  {
    if i in s {
      assert s + {i} == s;
    }
  }
}
