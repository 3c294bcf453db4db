/**
 The pipeline of burn-chain operations of one block (src/burnchains/burnchain.rs): sort and
 check, drop duplicate key registrations, and take or reject the rest by the distribution.
 Checking a transaction and making the distribution are parameters.
 */
module BurnOps {
  import opened Prelude

  datatype Op =
    | KeyRegister(txid: nat, vtxindex: nat, blockHeight: nat, publicKey: nat)
    | BlockCommit(txid: nat, vtxindex: nat, blockHeight: nat, keyVtxindex: nat)
    | UserBurn(txid: nat, vtxindex: nat, blockHeight: nat, burnFee: nat)

  // ---- order ----

  predicate StrictlySorted(ops: seq<Op>) {
    forall i, j :: 0 <= i < j < |ops| ==> ops[i].vtxindex < ops[j].vtxindex
  }

  predicate Sorted(ops: seq<Op>) {
    forall i, j :: 0 <= i < j < |ops| ==> ops[i].vtxindex <= ops[j].vtxindex
  }

  ghost predicate DistinctIndexes(ops: seq<Op>) {
    forall i, j :: 0 <= i < j < |ops| ==> ops[i].vtxindex != ops[j].vtxindex
  }

  /** Insert in order, after its equals. */
  function Insert(op: Op, ops: seq<Op>): (r: seq<Op>)
  {
    if ops == [] || op.vtxindex < ops[0].vtxindex then [op] + ops else [ops[0]] + Insert(op, ops[1..])
  }

  lemma {:induction false} InsertPermutes(op: Op, ops: seq<Op>)
    ensures multiset(Insert(op, ops)) == multiset(ops) + multiset{op} && |Insert(op, ops)| == |ops| + 1
  {
    if ops != [] && op.vtxindex >= ops[0].vtxindex {
      InsertPermutes(op, ops[1..]);
      assert ops == [ops[0]] + ops[1..];
    }
  }

  lemma SortedCons(op: Op, ops: seq<Op>)
    requires Sorted(ops) && forall i :: 0 <= i < |ops| ==> op.vtxindex <= ops[i].vtxindex
    ensures Sorted([op] + ops)
  {
  }

  lemma {:induction false} InsertSorted(op: Op, ops: seq<Op>)
    requires Sorted(ops)
    ensures Sorted(Insert(op, ops))
  {
    if ops == [] || op.vtxindex < ops[0].vtxindex {
      SortedCons(op, ops);
    } else {
      var rest := Insert(op, ops[1..]);
      InsertSorted(op, ops[1..]);
      InsertPermutes(op, ops[1..]);
      forall i | 0 <= i < |rest| ensures ops[0].vtxindex <= rest[i].vtxindex {
        assert rest[i] in multiset(rest);
      }
      SortedCons(ops[0], rest);
    }
  }

  /** The stable sort of the standard library, by transaction index. */
  function SortByIndex(ops: seq<Op>): (r: seq<Op>)
  {
    if ops == [] then [] else Insert(ops[|ops| - 1], SortByIndex(ops[..|ops| - 1]))
  }

  lemma {:induction false} SortSorts(ops: seq<Op>)
    ensures Sorted(SortByIndex(ops)) && multiset(SortByIndex(ops)) == multiset(ops) && |SortByIndex(ops)| == |ops|
  {
    if ops != [] {
      var last := |ops| - 1;
      SortSorts(ops[..last]);
      InsertSorted(ops[last], SortByIndex(ops[..last]));
      InsertPermutes(ops[last], SortByIndex(ops[..last]));
      assert ops == ops[..last] + [ops[last]];
    }
  }

  /** Sorting makes indexes strictly increasing exactly when they were distinct. */
  lemma SortDistinct(ops: seq<Op>)
    ensures StrictlySorted(SortByIndex(ops)) <==> DistinctIndexes(ops)
  {
    var s := SortByIndex(ops);
    SortSorts(ops);
    if DistinctIndexes(ops) {
      DistinctPermuted(ops, s);
    } else if StrictlySorted(s) {
      DistinctPermuted(s, ops);
      assert false;
    }
  }

  lemma DistinctPermuted(a: seq<Op>, b: seq<Op>)
    requires DistinctIndexes(a) && multiset(a) == multiset(b)
    ensures DistinctIndexes(b)
  {
    forall i, j | 0 <= i < j < |b|
      ensures b[i].vtxindex != b[j].vtxindex
    {
      if b[i] == b[j] {
        TwiceInMultiset(b, i, j);
        OnceInMultiset(a, b[i]);
      } else {
        assert b[i] in multiset(a) && b[j] in multiset(a);
        var k :| 0 <= k < |a| && a[k] == b[i];
        var l :| 0 <= l < |a| && a[l] == b[j];
        assert a[if k < l then k else l].vtxindex != a[if k < l then l else k].vtxindex;
      }
    }
  }

  lemma TwiceInMultiset<T>(s: seq<T>, i: nat, j: nat)
    requires i < j < |s| && s[i] == s[j]
    ensures multiset(s)[s[i]] >= 2
  {
    assert s == s[..j] + [s[j]] + s[j + 1..];
    assert s[i] in s[..j];
  }

  lemma {:induction false} OnceInMultiset(s: seq<Op>, x: Op)
    requires DistinctIndexes(s)
    ensures multiset(s)[x] <= 1
  {
    if s != [] {
      OnceInMultiset(s[1..], x);
      assert s == [s[0]] + s[1..];
      if s[0] == x {
        assert x !in s[1..];
      }
    }
  }

  /** Neighbours in order means everything is. */
  method OpsAreSorted(ops: seq<Op>) returns (r: bool)
    ensures r <==> StrictlySorted(ops)
  {
    if |ops| > 1 {
      for i := 0 to |ops| - 1
        invariant StrictlySorted(ops[..i + 1])
      {
        if ops[i].vtxindex >= ops[i + 1].vtxindex {
          return false;
        }
      }
      assert ops[..|ops|] == ops;
    }
    r := true;
  }

  /** Put operations in order; None stands for a crash, on a repeated index or a wrong height. */
  method ApplySafetyChecks(blockHeight: nat, txs: seq<Op>) returns (r: Option<seq<Op>>)
    ensures r.Some? <==> DistinctIndexes(txs) && forall i :: 0 <= i < |txs| ==> txs[i].blockHeight == blockHeight
    ensures r.Some? ==> r.value == SortByIndex(txs) && StrictlySorted(r.value) && multiset(r.value) == multiset(txs)
  {
    var sorted := SortByIndex(txs);
    SortSorts(txs);
    SortDistinct(txs);
    hide SortByIndex;
    if |sorted| > 1 {
      for i := 0 to |sorted| - 1
        invariant StrictlySorted(sorted[..i + 1])
      {
        if sorted[i].vtxindex == sorted[i + 1].vtxindex {
          return None;
        }
      }
      assert sorted[..|sorted|] == sorted;
    }
    for i := 0 to |sorted|
      invariant forall j :: 0 <= j < i ==> sorted[j].blockHeight == blockHeight
    {
      if sorted[i].blockHeight != blockHeight {
        assert sorted[i] in multiset(txs);
        return None;
      }
    }
    forall i | 0 <= i < |txs| ensures txs[i].blockHeight == blockHeight {
      assert txs[i] in multiset(sorted);
    }
    r := Some(sorted);
  }

  // ---- subsequences ----

  /** `a` is `b` with some elements left out. */
  predicate Subseq(a: seq<Op>, b: seq<Op>)
  {
    a == [] || (b != [] && ((a[0] == b[0] && Subseq(a[1..], b[1..])) || Subseq(a, b[1..])))
  }

  /** Among strictly sorted lists, containing only elements of another means being a subsequence of it. */
  lemma {:induction false} SortedSubseq(a: seq<Op>, b: seq<Op>)
    requires StrictlySorted(a) && StrictlySorted(b) && forall i :: 0 <= i < |a| ==> a[i] in b
    ensures Subseq(a, b)
  {
    if a != [] {
      assert a[0] in b;
      if a[0] == b[0] {
        forall i | 0 <= i < |a[1..]| ensures a[1..][i] in b[1..] {
          assert a[i + 1] in b && a[i + 1].vtxindex > a[0].vtxindex;
        }
        SortedSubseq(a[1..], b[1..]);
      } else {
        assert a[0] in b[1..];
        forall i | 0 <= i < |a| ensures a[i] in b[1..] {
          assert a[i].vtxindex >= a[0].vtxindex > b[0].vtxindex;
        }
        SortedSubseq(a, b[1..]);
      }
    }
  }

  lemma {:induction false} SubseqSorted(a: seq<Op>, b: seq<Op>)
    requires Subseq(a, b) && StrictlySorted(b)
    ensures StrictlySorted(a) && forall i :: 0 <= i < |a| ==> a[i] in b
  {
    if a != [] {
      if a[0] == b[0] && Subseq(a[1..], b[1..]) {
        SubseqSorted(a[1..], b[1..]);
        assert a == [a[0]] + a[1..];
      } else {
        SubseqSorted(a, b[1..]);
      }
    }
  }

  // ---- selections ----

  /** The operations that satisfy `p`, in order. */
  function Select(ops: seq<Op>, p: Op -> bool): (r: seq<Op>)
  {
    if ops == [] then [] else (if p(ops[0]) then [ops[0]] else []) + Select(ops[1..], p)
  }

  lemma {:induction false} SelectIs(ops: seq<Op>, p: Op -> bool)
    ensures Subseq(Select(ops, p), ops)
    ensures forall op :: op in Select(ops, p) <==> op in ops && p(op)
  {
    if ops != [] {
      var rest := Select(ops[1..], p);
      SelectIs(ops[1..], p);
      Nil(rest);
      assert ([ops[0]] + rest)[1..] == rest;
      assert ops == [ops[0]] + ops[1..];
    }
  }

  predicate IsKey(op: Op) { op.KeyRegister? }
  predicate NotKey(op: Op) { !op.KeyRegister? }
  predicate IsCommit(op: Op) { op.BlockCommit? }
  predicate IsBurn(op: Op) { op.UserBurn? }
  function Registers(key: nat): (p: Op -> bool) { (op: Op) => op.KeyRegister? && op.publicKey == key }

  // ---- checking ----

  /** Drop registrations of keys already seen. */
  function FirstKeys(ops: seq<Op>, seen: set<nat>): (r: seq<Op>)
  {
    if ops == [] then []
    else if !ops[0].KeyRegister? then [ops[0]] + FirstKeys(ops[1..], seen)
    else if ops[0].publicKey in seen then FirstKeys(ops[1..], seen)
    else [ops[0]] + FirstKeys(ops[1..], seen + {ops[0].publicKey})
  }

  /** Each key keeps exactly its first registration; all other operations stay, in order. */
  lemma {:induction false} FirstKeysKeeps(ops: seq<Op>, seen: set<nat>, key: nat)
    ensures Select(FirstKeys(ops, seen), NotKey) == Select(ops, NotKey)
    ensures Select(FirstKeys(ops, seen), Registers(key)) ==
      if key in seen || Select(ops, Registers(key)) == [] then [] else [Select(ops, Registers(key))[0]]
  {
    if ops != [] {
      var op, rest := ops[0], ops[1..];
      var seen' := if op.KeyRegister? then seen + {op.publicKey} else seen;
      FirstKeysKeeps(rest, seen', key);
      var kept := FirstKeys(rest, seen');
      assert ([op] + kept)[1..] == kept;
      if op.KeyRegister? && op.publicKey in seen {
        assert seen' == seen;
      }
    }
  }

  lemma {:induction false} FirstKeysSubseq(ops: seq<Op>, seen: set<nat>)
    ensures Subseq(FirstKeys(ops, seen), ops)
  {
    if ops != [] {
      var op, rest := ops[0], ops[1..];
      if op.KeyRegister? && op.publicKey in seen {
        FirstKeysSubseq(rest, seen);
      } else {
        var seen' := if op.KeyRegister? then seen + {op.publicKey} else seen;
        FirstKeysSubseq(rest, seen');
        assert ([op] + FirstKeys(rest, seen'))[1..] == FirstKeys(rest, seen');
      }
    }
  }

  /** In sorted operations the registration kept of a key is the one with the lowest index. */
  lemma {:induction false} LowestKept(ops: seq<Op>, key: nat, kept: Op, op: Op)
    requires StrictlySorted(ops)
    requires Select(ops, Registers(key)) != [] && kept == Select(ops, Registers(key))[0]
    requires op in ops && op.KeyRegister? && op.publicKey == key
    ensures kept.vtxindex <= op.vtxindex
  {
    SelectIs(ops, Registers(key));
    SubseqSorted(Select(ops, Registers(key)), ops);
    var i :| 0 <= i < |Select(ops, Registers(key))| && Select(ops, Registers(key))[i] == op;
  }

  method FilterVrfDups(checkedOps: seq<Op>) returns (ret: seq<Op>)
    requires StrictlySorted(checkedOps)
    ensures ret == FirstKeys(checkedOps, {}) && StrictlySorted(ret)
  {
    hide StrictlySorted;
    ret := [];
    var allKeys: set<nat> := {};
    Split(checkedOps, 0);
    Nil(FirstKeys(checkedOps, {}));
    for i := 0 to |checkedOps|
      invariant FirstKeys(checkedOps, {}) == ret + FirstKeys(checkedOps[i..], allKeys)
    {
      var op := checkedOps[i];
      TakeSnoc(checkedOps, i);
      Cons(checkedOps[i..], []);
      ghost var rest := checkedOps[i + 1..];
      assert checkedOps[i..][1..] == rest;
      if op.KeyRegister? {
        if op.publicKey !in allKeys {
          Assoc(ret, [op], FirstKeys(rest, allKeys + {op.publicKey}));
          allKeys := allKeys + {op.publicKey};
          ret := ret + [op];
        }
      } else {
        Assoc(ret, [op], FirstKeys(rest, allKeys));
        ret := ret + [op];
      }
    }
    Nil(ret);
    FirstKeysSubseq(checkedOps, {});
    SubseqSorted(ret, checkedOps);
  }

  /** Whatever the checks decide, both sortedness assertions on the way hold. */
  method CheckBlockOps(blockOps: seq<Op>, ok: Op -> bool) returns (ret: seq<Op>)
    requires StrictlySorted(blockOps)
    ensures ret == FirstKeys(Select(blockOps, ok), {}) && StrictlySorted(ret)
  {
    hide StrictlySorted;
    var passed: seq<Op> := [];
    Split(blockOps, 0);
    Nil(Select(blockOps, ok));
    for i := 0 to |blockOps|
      invariant Select(blockOps, ok) == passed + Select(blockOps[i..], ok)
    {
      TakeSnoc(blockOps, i);
      assert blockOps[i..][1..] == blockOps[i + 1..];
      if ok(blockOps[i]) {
        Assoc(passed, [blockOps[i]], Select(blockOps[i + 1..], ok));
        passed := passed + [blockOps[i]];
      } else {
        Nil(Select(blockOps[i + 1..], ok));
      }
    }
    Nil(passed);
    SelectIs(blockOps, ok);
    SubseqSorted(passed, blockOps);
    ret := FilterVrfDups(passed);
  }

  // ---- accepting and rejecting ----

  /** A point of the burn distribution: a block commit and the user burns that support it. */
  datatype SamplePoint = SamplePoint(candidate: Op, userBurns: seq<Op>)

  function Keys(ops: seq<Op>): (r: seq<Op>) { Select(ops, IsKey) }
  function Commits(ops: seq<Op>): (r: seq<Op>) { Select(ops, IsCommit) }
  function Burns(ops: seq<Op>): (r: seq<Op>) { Select(ops, IsBurn) }

  lemma {:induction false} KindsSplit(ops: seq<Op>)
    ensures multiset(ops) == multiset(Keys(ops)) + multiset(Commits(ops)) + multiset(Burns(ops))
  {
    if ops != [] {
      KindsSplit(ops[1..]);
      assert ops == [ops[0]] + ops[1..];
    }
  }

  lemma KindsAre(ops: seq<Op>)
    ensures forall op :: op in Keys(ops) <==> op in ops && op.KeyRegister?
    ensures forall op :: op in Commits(ops) <==> op in ops && op.BlockCommit?
    ensures forall op :: op in Burns(ops) <==> op in ops && op.UserBurn?
    ensures StrictlySorted(ops) ==> StrictlySorted(Commits(ops)) && StrictlySorted(Burns(ops))
  {
    SelectIs(ops, IsKey);
    SelectIs(ops, IsCommit);
    SelectIs(ops, IsBurn);
    hide Select, StrictlySorted, Subseq;
    if StrictlySorted(ops) {
      SubseqSorted(Commits(ops), ops);
      SubseqSorted(Burns(ops), ops);
    }
  }

  /** What a distribution takes, in its order. */
  function Candidates(dist: seq<SamplePoint>): (r: seq<Op>)
  {
    if dist == [] then [] else [dist[0].candidate] + Candidates(dist[1..])
  }

  function Supports(dist: seq<SamplePoint>): (r: seq<Op>)
  {
    if dist == [] then [] else dist[0].userBurns + Supports(dist[1..])
  }

  function Taken(dist: seq<SamplePoint>): (r: seq<Op>)
  {
    if dist == [] then [] else ([dist[0].candidate] + dist[0].userBurns) + Taken(dist[1..])
  }

  lemma {:induction false} TakenIs(dist: seq<SamplePoint>)
    ensures multiset(Taken(dist)) == multiset(Candidates(dist)) + multiset(Supports(dist))
  {
    if dist != [] {
      TakenIs(dist[1..]);
    }
  }

  /** The distribution draws its points from the operations given to it, none twice. */
  ghost predicate Draws(dist: seq<SamplePoint>, commits: seq<Op>, burns: seq<Op>)
  {
    multiset(Candidates(dist)) <= multiset(commits) && multiset(Supports(dist)) <= multiset(burns)
  }

  function Txids(ops: seq<Op>): (s: set<nat>)
  {
    set op | op in ops :: op.txid
  }

  /** Operations by transaction id, a later one replacing an earlier one. */
  function ByTxid(ops: seq<Op>): (m: map<nat, Op>)
  {
    if ops == [] then map[] else
    var last := |ops| - 1;
    ByTxid(ops[..last])[ops[last].txid := ops[last]]
  }

  ghost predicate DistinctTxids(ops: seq<Op>) {
    forall i, j :: 0 <= i < j < |ops| ==> ops[i].txid != ops[j].txid
  }

  datatype Transition = Transition(accepted: seq<Op>, rejectedCommits: map<nat, Op>, rejectedBurns: map<nat, Op>)

  /** The accepted operations and those left over once a distribution is known. */
  function Decide(ops: seq<Op>, dist: seq<SamplePoint>): (t: Transition)
  {
    Transition(
      SortByIndex(Keys(ops) + Taken(dist)),
      ByTxid(Commits(ops)) - Txids(Candidates(dist)),
      ByTxid(Burns(ops)) - Txids(Supports(dist)))
  }

  /** Accepted: all key registrations and exactly what the distribution took, as a subsequence of the block. */
  lemma AcceptedSubseq(ops: seq<Op>, dist: seq<SamplePoint>)
    requires StrictlySorted(ops) && Draws(dist, Commits(ops), Burns(ops))
    ensures var accepted := Decide(ops, dist).accepted;
      && StrictlySorted(accepted) && Subseq(accepted, ops)
      && forall op :: op in ops ==>
           (op in accepted <==> op.KeyRegister? || op in Candidates(dist) || op in Supports(dist))
  {
    hide SortByIndex, Keys, Commits, Burns, Taken, Candidates, Supports;
    var pool := Keys(ops) + Taken(dist);
    var accepted := SortByIndex(pool);
    KindsSplit(ops);
    KindsAre(ops);
    TakenIs(dist);
    SortSorts(pool);
    SortDistinct(pool);
    assert multiset(pool) == multiset(Keys(ops)) + multiset(Taken(dist));
    assert multiset(pool) <= multiset(ops);
    FewerDistinct(pool, ops);
    forall i | 0 <= i < |accepted| ensures accepted[i] in ops {
      assert accepted[i] in multiset(pool);
    }
    SortedSubseq(accepted, ops);
    forall op | op in ops
      ensures op in accepted <==> op.KeyRegister? || op in Candidates(dist) || op in Supports(dist)
    {
      assert op in accepted <==> op in multiset(pool);
      assert op in multiset(pool) <==> op in multiset(Keys(ops)) || op in multiset(Taken(dist));
    }
  }

  lemma FewerDistinct(a: seq<Op>, b: seq<Op>)
    requires StrictlySorted(b) && multiset(a) <= multiset(b)
    ensures DistinctIndexes(a)
  {
    forall i, j | 0 <= i < j < |a|
      ensures a[i].vtxindex != a[j].vtxindex
    {
      if a[i] == a[j] {
        TwiceInMultiset(a, i, j);
        OnceInMultiset(b, a[i]);
      } else {
        assert a[i] in multiset(b) && a[j] in multiset(b);
      }
    }
  }

  ghost predicate RejectedIn(t: Transition, op: Op) {
    || (op.BlockCommit? && op.txid in t.rejectedCommits && t.rejectedCommits[op.txid] == op)
    || (op.UserBurn? && op.txid in t.rejectedBurns && t.rejectedBurns[op.txid] == op)
  }

  /** Every operation that is not a key registration is accounted for, on exactly one side. */
  ghost predicate Accounted(ops: seq<Op>, t: Transition) {
    forall op :: op in ops && !op.KeyRegister? ==> (op in t.accepted <==> !RejectedIn(t, op))
  }

  lemma {:induction false} ByTxidFinds(ops: seq<Op>)
    ensures forall id :: id in ByTxid(ops) ==> ByTxid(ops)[id] in ops && ByTxid(ops)[id].txid == id
    ensures DistinctTxids(ops) ==> forall op :: op in ops ==> op.txid in ByTxid(ops) && ByTxid(ops)[op.txid] == op
  {
    if ops != [] {
      var last := |ops| - 1;
      ByTxidFinds(ops[..last]);
      assert ops == ops[..last] + [ops[last]];
    }
  }

  /** One kind of operation: it is left over exactly when the distribution did not draw it. */
  lemma LeftOver(ops: seq<Op>, drawn: seq<Op>, op: Op)
    requires DistinctTxids(ops) && op in ops && multiset(drawn) <= multiset(ops)
    ensures var left := ByTxid(ops) - Txids(drawn);
      op in drawn <==> !(op.txid in left && left[op.txid] == op)
  {
    ByTxidFinds(ops);
    hide ByTxid;
    forall d | d in drawn ensures d in ops {
      assert d in multiset(ops);
    }
  }

  lemma DistinctAccounted(ops: seq<Op>, dist: seq<SamplePoint>)
    requires StrictlySorted(ops) && Draws(dist, Commits(ops), Burns(ops))
    requires DistinctTxids(Commits(ops)) && DistinctTxids(Burns(ops))
    ensures Accounted(ops, Decide(ops, dist))
  {
    AcceptedSubseq(ops, dist);
    KindsAre(ops);
    hide SortByIndex, Keys, Commits, Burns, Taken, Candidates, Supports, ByTxid, Txids;
    var t := Decide(ops, dist);
    forall op | op in ops && !op.KeyRegister?
      ensures op in t.accepted <==> !RejectedIn(t, op)
    {
      if op.BlockCommit? {
        LeftOver(Commits(ops), Candidates(dist), op);
        assert op in Supports(dist) ==> op in multiset(Burns(ops));
      } else {
        LeftOver(Burns(ops), Supports(dist), op);
        assert op in Candidates(dist) ==> op in multiset(Commits(ops));
      }
    }
  }

  lemma FoundDistinct(ops: seq<Op>, m: map<nat, Op>)
    requires StrictlySorted(ops) && forall op :: op in ops ==> op.txid in m && m[op.txid] == op
    ensures DistinctTxids(ops)
  {
  }

  /** With nothing drawn, two operations under one transaction id cannot both be accounted for. */
  lemma SharedTxidLost(ops: seq<Op>)
    requires StrictlySorted(ops) && Accounted(ops, Decide(ops, []))
    ensures DistinctTxids(Commits(ops)) && DistinctTxids(Burns(ops))
  {
    var t := Decide(ops, []);
    AllRejected(ops, t);
    KindsAre(ops);
    hide Select, SortByIndex, ByTxid, StrictlySorted, DistinctTxids, Decide;
    FoundDistinct(Commits(ops), t.rejectedCommits);
    FoundDistinct(Burns(ops), t.rejectedBurns);
  }

  lemma AllRejected(ops: seq<Op>, t: Transition)
    requires StrictlySorted(ops) && t == Decide(ops, []) && Accounted(ops, t)
    ensures forall op :: op in ops && !op.KeyRegister? ==> RejectedIn(t, op)
  {
    assert Draws([], Commits(ops), Burns(ops));
    AcceptedSubseq(ops, []);
    assert Candidates([]) == [] && Supports([]) == [];
    hide SortByIndex, Commits, Burns, Keys, ByTxid, StrictlySorted, Subseq, Txids, Decide;
  }

  /**
   Every commit and user burn ends up exactly accepted or rejected, whatever the distribution
   draws, if and only if no two of a kind share a transaction id.
   */
  lemma AccountedIff(ops: seq<Op>)
    requires StrictlySorted(ops)
    ensures (forall dist :: Draws(dist, Commits(ops), Burns(ops)) ==> Accounted(ops, Decide(ops, dist)))
       <==> DistinctTxids(Commits(ops)) && DistinctTxids(Burns(ops))
  {
    hide Accounted, Decide, DistinctTxids, StrictlySorted;
    if DistinctTxids(Commits(ops)) && DistinctTxids(Burns(ops)) {
      forall dist | Draws(dist, Commits(ops), Burns(ops))
        ensures Accounted(ops, Decide(ops, dist))
      {
        DistinctAccounted(ops, dist);
      }
    } else if forall dist :: Draws(dist, Commits(ops), Burns(ops)) ==> Accounted(ops, Decide(ops, dist)) {
      assert Draws([], Commits(ops), Burns(ops));
      SharedTxidLost(ops);
    }
  }

  lemma SelectTwo(a: Op, b: Op, p: Op -> bool)
    ensures Select([a, b], p) == (if p(a) then [a] else []) + (if p(b) then [b] else [])
  {
    assert [a, b][1..] == [b] && [b][1..] == [];
    assert Select([b], p) == if p(b) then [b] else [];
  }

  lemma TwoCommits(a: Op, b: Op)
    requires a.BlockCommit? && b.BlockCommit?
    ensures Keys([a, b]) == [] && Commits([a, b]) == [a, b] && Burns([a, b]) == []
    ensures a.txid == b.txid ==> ByTxid([a, b]) == map[a.txid := b]
  {
    SelectTwo(a, b, IsKey);
    SelectTwo(a, b, IsCommit);
    SelectTwo(a, b, IsBurn);
    assert [a, b][..1] == [a] && [a][..0] == [];
    assert ByTxid([a]) == map[a.txid := a];
  }

  /** Of two commits under one transaction id, neither drawn, only the later is reported as rejected. */
  lemma FirstOfTwoIsLost(first: Op, second: Op)
    requires first.BlockCommit? && second.BlockCommit?
    requires first.txid == second.txid && first.vtxindex < second.vtxindex
    ensures var t := Decide([first, second], []);
      && first !in t.accepted && !RejectedIn(t, first) && RejectedIn(t, second)
      && !Accounted([first, second], t)
  {
    TwoCommits(first, second);
    NoPoints();
    hide Keys, Commits, Burns, Txids, Candidates, Supports, Taken;
    assert Decide([first, second], []) == Transition([], map[first.txid := second], map[]);
    assert first in [first, second];
  }

  /** And if the first is drawn, the other is not reported at all. */
  lemma SecondOfTwoIsLost(first: Op, second: Op)
    requires first.BlockCommit? && second.BlockCommit?
    requires first.txid == second.txid && first.vtxindex < second.vtxindex
    ensures var t := Decide([first, second], [SamplePoint(first, [])]);
      && first in t.accepted && second !in t.accepted && !RejectedIn(t, second)
      && !Accounted([first, second], t)
  {
    var ops, dist := [first, second], [SamplePoint(first, [])];
    TwoCommits(first, second);
    assert dist[1..] == [];
    assert Taken(dist) == [first] && Candidates(dist) == [first] && Supports(dist) == [];
    assert [first][..0] == [] && SortByIndex([first]) == [first];
    hide Keys, Commits, Burns, Candidates, Supports, Taken, SortByIndex;
    assert Keys(ops) + Taken(dist) == [first];
    assert Decide(ops, dist) == Transition([first], map[], map[]);
    assert second in ops;
  }

  /** Sort operations by kind, keeping unresolved ones by transaction id. */
  method Classify(blockOps: seq<Op>)
    returns (accepted: seq<Op>, commits: seq<Op>, burns: seq<Op>, allCommits: map<nat, Op>, allBurns: map<nat, Op>)
    ensures accepted == Keys(blockOps) && commits == Commits(blockOps) && burns == Burns(blockOps)
    ensures allCommits == ByTxid(commits) && allBurns == ByTxid(burns)
  {
    accepted, commits, burns, allCommits, allBurns := [], [], [], map[], map[];
    Split(blockOps, 0);
    Nil(Keys(blockOps)); Nil(Commits(blockOps)); Nil(Burns(blockOps));
    for i := 0 to |blockOps|
      invariant Keys(blockOps) == accepted + Keys(blockOps[i..])
      invariant Commits(blockOps) == commits + Commits(blockOps[i..])
      invariant Burns(blockOps) == burns + Burns(blockOps[i..])
      invariant allCommits == ByTxid(commits) && allBurns == ByTxid(burns)
    {
      var op := blockOps[i];
      ghost var rest := blockOps[i + 1..];
      assert blockOps[i..][0] == op && blockOps[i..][1..] == rest;
      Nil(Keys(rest)); Nil(Commits(rest)); Nil(Burns(rest));
      match op {
        case KeyRegister(_, _, _, _) =>
          Assoc(accepted, [op], Keys(rest));
          accepted := accepted + [op];
        case BlockCommit(_, _, _, _) =>
          Assoc(commits, [op], Commits(rest));
          Slice(commits, [op], 0, |commits|);
          Split(commits, |commits|);
          allCommits := allCommits[op.txid := op];
          commits := commits + [op];
        case UserBurn(_, _, _, _) =>
          Assoc(burns, [op], Burns(rest));
          Slice(burns, [op], 0, |burns|);
          Split(burns, |burns|);
          allBurns := allBurns[op.txid := op];
          burns := burns + [op];
      }
    }
    Nil(accepted); Nil(commits); Nil(burns);
  }

  /** Take what the distribution drew, one sample point after another. */
  method TakePoints(dist: seq<SamplePoint>, accepted: seq<Op>, allCommits: map<nat, Op>, allBurns: map<nat, Op>)
    returns (accepted': seq<Op>, leftCommits: map<nat, Op>, leftBurns: map<nat, Op>)
    ensures accepted' == accepted + Taken(dist)
    ensures leftCommits == allCommits - Txids(Candidates(dist)) && leftBurns == allBurns - Txids(Supports(dist))
  {
    accepted', leftCommits, leftBurns := accepted, allCommits, allBurns;
    Split(dist, 0);
    ghost var candidates: set<nat>, supports: set<nat> := {}, {};
    NoPoints();
    MinusNothing(allCommits);
    MinusNothing(allBurns);
    hide Taken, Candidates, Supports, Txids;
    for i := 0 to |dist|
      invariant accepted + Taken(dist) == accepted' + Taken(dist[i..])
      invariant Txids(Candidates(dist)) == candidates + Txids(Candidates(dist[i..]))
      invariant Txids(Supports(dist)) == supports + Txids(Supports(dist[i..]))
      invariant leftCommits == allCommits - candidates && leftBurns == allBurns - supports
    {
      TakeSnoc(dist, i);
      PointTxids(dist[i], dist[i + 1..]);
      PointTaken(accepted', dist[i], dist[i + 1..]);
      MinusMinus(allCommits, candidates, {dist[i].candidate.txid});
      MinusMinus(allBurns, supports, Txids(dist[i].userBurns));
      UnionAssoc(candidates, {dist[i].candidate.txid}, Txids(Candidates(dist[i + 1..])));
      UnionAssoc(supports, Txids(dist[i].userBurns), Txids(Supports(dist[i + 1..])));
      accepted', leftCommits, leftBurns := TakePoint(dist[i], accepted', leftCommits, leftBurns);
      candidates, supports := candidates + {dist[i].candidate.txid}, supports + Txids(dist[i].userBurns);
    }
    Split(dist, |dist|);
    Nil(accepted');
  }

  method TakePoint(point: SamplePoint, accepted: seq<Op>, allCommits: map<nat, Op>, allBurns: map<nat, Op>)
    returns (accepted': seq<Op>, leftCommits: map<nat, Op>, leftBurns: map<nat, Op>)
    ensures accepted' == (accepted + [point.candidate]) + point.userBurns
    ensures leftCommits == allCommits - {point.candidate.txid} && leftBurns == allBurns - Txids(point.userBurns)
  {
    accepted' := accepted + [point.candidate];
    leftCommits := allCommits - {point.candidate.txid};
    accepted', leftBurns := TakeBurns(point.userBurns, accepted', allBurns);
  }

  lemma MinusMinus(m: map<nat, Op>, a: set<nat>, b: set<nat>)
    ensures (m - a) - b == m - (a + b)
  {
  }

  lemma MinusNothing(m: map<nat, Op>)
    ensures m - {} == m
  {
  }

  lemma UnionAssoc(a: set<nat>, b: set<nat>, c: set<nat>)
    ensures a + (b + c) == (a + b) + c
  {
  }

  lemma NoPoints()
    ensures Taken([]) == [] && Txids(Candidates([])) == {} && Txids(Supports([])) == {}
  {
  }

  lemma PointTxids(point: SamplePoint, rest: seq<SamplePoint>)
    ensures var all := [point] + rest;
      && Txids(Candidates(all)) == {point.candidate.txid} + Txids(Candidates(rest))
      && Txids(Supports(all)) == Txids(point.userBurns) + Txids(Supports(rest))
  {
  }

  lemma TxidsUnion(a: seq<Op>, b: seq<Op>)
    ensures Txids(a + b) == Txids(a) + Txids(b)
  {
  }

  lemma PointTaken(before: seq<Op>, point: SamplePoint, rest: seq<SamplePoint>)
    ensures before + Taken([point] + rest) == ((before + [point.candidate]) + point.userBurns) + Taken(rest)
  {
  }

  method TakeBurns(userBurns: seq<Op>, accepted: seq<Op>, allBurns: map<nat, Op>)
    returns (accepted': seq<Op>, leftBurns: map<nat, Op>)
    ensures accepted' == accepted + userBurns && leftBurns == allBurns - Txids(userBurns)
  {
    accepted', leftBurns := accepted, allBurns;
    for j := 0 to |userBurns|
      invariant accepted' == accepted + userBurns[..j] && leftBurns == allBurns - Txids(userBurns[..j])
    {
      TakeSnoc(userBurns, j);
      TxidsUnion(userBurns[..j], [userBurns[j]]);
      Assoc(accepted, userBurns[..j], [userBurns[j]]);
      accepted' := accepted' + [userBurns[j]];
      leftBurns := leftBurns - {userBurns[j].txid};
    }
    Split(userBurns, |userBurns|);
  }

  /**
   What a transition owes its block: accepted operations in block order, every key registration
   among them, and every other operation accepted or rejected if no two of a kind share a transaction id.
   */
  ghost predicate Settled(ops: seq<Op>, t: Transition)
  {
    && StrictlySorted(t.accepted) && Subseq(t.accepted, ops)
    && (forall op :: op in ops && op.KeyRegister? ==> op in t.accepted)
    && (DistinctTxids(Commits(ops)) && DistinctTxids(Burns(ops)) ==> Accounted(ops, t))
  }

  /** Turn a block's checked operations into what the chain state takes from them. */
  method FromBlockOps(blockOps: seq<Op>, makeDistribution: (seq<Op>, seq<Op>) -> seq<SamplePoint>)
    returns (t: Transition)
    requires StrictlySorted(blockOps)
    requires Draws(makeDistribution(Commits(blockOps), Burns(blockOps)), Commits(blockOps), Burns(blockOps))
    ensures t == Decide(blockOps, makeDistribution(Commits(blockOps), Burns(blockOps)))
    ensures Settled(blockOps, t)
  {
    hide StrictlySorted, Draws, SortByIndex, DistinctTxids, Accounted;
    var accepted, commits, burns, allCommits, allBurns := Classify(blockOps);
    var dist := makeDistribution(commits, burns);
    accepted, allCommits, allBurns := TakePoints(dist, accepted, allCommits, allBurns);
    AcceptedSubseq(blockOps, dist);
    if DistinctTxids(Commits(blockOps)) && DistinctTxids(Burns(blockOps)) {
      DistinctAccounted(blockOps, dist);
    }
    t := Transition(SortByIndex(accepted), allCommits, allBurns);
  }

  /** From a block's transactions to its transition; None stands for a crash of the safety checks. */
  method ProcessBlockTxs(blockHeight: nat, txs: seq<Op>, ok: Op -> bool,
                         makeDistribution: (seq<Op>, seq<Op>) -> seq<SamplePoint>)
    returns (r: Option<Transition>)
    requires forall commits, burns :: Draws(makeDistribution(commits, burns), commits, burns)
    ensures r.None? <==> !(DistinctIndexes(txs) && forall i :: 0 <= i < |txs| ==> txs[i].blockHeight == blockHeight)
    ensures r.Some? ==>
      var checked := FirstKeys(Select(SortByIndex(txs), ok), {});
      r.value == Decide(checked, makeDistribution(Commits(checked), Burns(checked))) && Settled(checked, r.value)
  {
    hide StrictlySorted, Draws, SortByIndex, DistinctIndexes, Settled, Decide, Commits, Burns;
    var sorted := ApplySafetyChecks(blockHeight, txs);
    if sorted.None? {
      return None;
    }
    var checked := CheckBlockOps(sorted.value, ok);
    var t := FromBlockOps(checked, makeDistribution);
    r := Some(t);
  }
}
