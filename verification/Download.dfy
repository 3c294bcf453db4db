/**
 Downloading blocks and microblock streams in passes (BlockDownloader in src/net/download.rs).
 DNS, HTTP and the chain state answer as they please.
 */
module Download {
  import opened Prelude
  import opened Scan

  /** How a request stands when its HTTP conversation is polled. */
  datatype Response =
    | NotConnected
    | Waiting
    | Block(blockHash: nat, body: nat)
    | Microblocks(stream: seq<nat>)
    | NotFound
    | OtherReply

  datatype Verdict = DeadPeer | StillPending | Accepted | BrokenPeer

  /** A block is accepted only if it hashes, with its burn block, to the index hash asked for. */
  function JudgeBlock(indexHash: (nat, nat) -> nat): (judge: Judge)
  {
    (k: RequestKey, r: Response) =>
      match r
      case NotConnected => DeadPeer
      case Waiting => StillPending
      case Block(h, _) => if indexHash(k.burnBlockHash, h) != k.indexBlockHash then BrokenPeer else Accepted
      case _ => BrokenPeer
  }

  /** A stream is accepted, tentatively, unless it is empty. */
  function JudgeMicroblocks(): (judge: Judge)
  {
    (k: RequestKey, r: Response) =>
      match r
      case NotConnected => DeadPeer
      case Waiting => StillPending
      case Microblocks(s) => if |s| == 0 then BrokenPeer else Accepted
      case _ => BrokenPeer
  }

  // ---- queues ----

  predicate IsQueued(m: Queues, k: RequestKey) {
    k.sortitionHeight in m && k in m[k.sortitionHeight]
  }

  /** All requests waiting to be tried. */
  ghost function Queued(m: Queues): (s: set<RequestKey>)
  {
    set h, k | h in m && k in m[h] :: k
  }

  lemma QueuedIs(m: Queues, microblocks: bool, k: RequestKey)
    requires QueuesOk(m, microblocks)
    ensures k in Queued(m) <==> IsQueued(m, k)
  {
  }

  // ---- priorities ----

  function InsertByLength(h: nat, order: seq<nat>, m: Queues): (r: seq<nat>)
    requires h in m && forall i :: 0 <= i < |order| ==> order[i] in m
  {
    if order == [] || |m[h]| < |m[order[0]]| then [h] + order else [order[0]] + InsertByLength(h, order[1..], m)
  }

  ghost predicate ByLength(order: seq<nat>, m: Queues) {
    && (forall i :: 0 <= i < |order| ==> order[i] in m)
    && forall i, j :: 0 <= i < j < |order| ==> |m[order[i]]| <= |m[order[j]]|
  }

  lemma {:induction false} InsertAdds(h: nat, order: seq<nat>, m: Queues)
    requires h in m && h !in order && NoDups(order) && forall i :: 0 <= i < |order| ==> order[i] in m
    ensures var r := InsertByLength(h, order, m);
      NoDups(r) && forall x :: x in r <==> x == h || x in order
  {
    if order != [] && |m[h]| >= |m[order[0]]| {
      var rest := InsertByLength(h, order[1..], m);
      InsertAdds(h, order[1..], m);
      assert order == [order[0]] + order[1..] && order[0] !in order[1..];
      forall i | 0 <= i < |rest| ensures rest[i] != order[0] {
        assert rest[i] in rest;
      }
    }
  }

  lemma LengthCons(h: nat, order: seq<nat>, m: Queues)
    requires h in m && ByLength(order, m) && forall i :: 0 <= i < |order| ==> |m[h]| <= |m[order[i]]|
    ensures ByLength([h] + order, m)
  {
  }

  lemma {:induction false} InsertKeepsOrder(h: nat, order: seq<nat>, m: Queues)
    requires h in m && h !in order && ByLength(order, m) && NoDups(order)
    ensures ByLength(InsertByLength(h, order, m), m)
  {
    if order == [] || |m[h]| < |m[order[0]]| {
      LengthCons(h, order, m);
    } else {
      var rest := InsertByLength(h, order[1..], m);
      InsertKeepsOrder(h, order[1..], m);
      InsertAdds(h, order[1..], m);
      forall i | 0 <= i < |rest| ensures rest[i] in m && |m[order[0]]| <= |m[rest[i]]| {
        assert rest[i] in rest;
      }
      LengthCons(order[0], rest, m);
    }
  }

  /** Rarest first: every height once, by the number of peers left to ask. */
  method Prioritize(m: Queues) returns (order: seq<nat>)
    ensures ByLength(order, m) && NoDups(order) && forall h :: h in order <==> h in m
  {
    hide InsertByLength;
    order := [];
    var todo := m.Keys;
    while todo != {}
      invariant todo <= m.Keys && ByLength(order, m) && NoDups(order)
      invariant forall h :: h in order <==> h in m && h !in todo
      decreases todo
    {
      var h :| h in todo;
      InsertKeepsOrder(h, order, m);
      InsertAdds(h, order, m);
      order := InsertByLength(h, order, m);
      todo := todo - {h};
    }
  }

  // ---- beginning a request ----

  /** Pop requests until one can be sent; those passed over are gone. */
  method BeginRequest(keys: seq<RequestKey>, send: RequestKey -> Option<nat>)
    returns (sent: Option<(RequestKey, nat)>, rest: seq<RequestKey>)
    ensures sent.None? ==> rest == [] && forall i :: 0 <= i < |keys| ==> send(keys[i]).None?
    ensures sent.Some? ==>
      var n := |keys| - |rest| - 1;
      && 0 <= n < |keys| && rest == keys[n + 1..]
      && keys[n] == sent.value.0 && send(keys[n]) == Some(sent.value.1)
      && forall i :: 0 <= i < n ==> send(keys[i]).None?
  {
    rest := keys;
    ghost var n := 0;
    while rest != []
      invariant 0 <= n <= |keys| && rest == keys[n..]
      invariant forall i :: 0 <= i < n ==> send(keys[i]).None?
      decreases |rest|
    {
      var key := rest[0];
      rest := rest[1..];
      if send(key).Some? {
        return Some((key, send(key).value)), rest;
      }
      n := n + 1;
    }
    sent := None;
  }

  /** `q'` is what is left of a queue after at least one request was popped, if there was any. */
  ghost predicate Popped(q: seq<RequestKey>, q': seq<RequestKey>) {
    |q'| <= |q| && q' == q[|q| - |q'|..] && (q != [] ==> |q'| < |q|)
  }

  /** The outcome of one round of sending. */
  ghost predicate Begun(m: Queues, m': Queues, heights: set<nat>, requests: map<RequestKey, nat>,
                        send: RequestKey -> Option<nat>)
  {
    && m'.Keys == m.Keys
    && (forall h :: h in m ==> if h in heights then Popped(m[h], m'[h]) else m'[h] == m[h])
    && (forall k :: k in requests ==>
          k.sortitionHeight in heights && IsQueued(m, k) && !IsQueued(m', k) && send(k) == Some(requests[k]))
    && (forall k, l :: k in requests && l in requests && k.sortitionHeight == l.sortitionHeight ==> k == l)
  }

  lemma BegunMore(m: Queues, m': Queues, heights: set<nat>, requests: map<RequestKey, nat>,
                  send: RequestKey -> Option<nat>, h: nat, sent: Option<(RequestKey, nat)>,
                  rest: seq<RequestKey>, microblocks: bool)
    requires QueuesOk(m, microblocks) && Begun(m, m', heights, requests, send) && h in m && h !in heights
    requires Popped(m[h], rest)
    requires sent.Some? ==>
      && sent.value.0 in m[h] && sent.value.0 !in rest && send(sent.value.0) == Some(sent.value.1)
    ensures Begun(m, m'[h := rest], heights + {h},
                  if sent.Some? then requests[sent.value.0 := sent.value.1] else requests, send)
  {
    hide Popped;
    var m'', requests' := m'[h := rest], if sent.Some? then requests[sent.value.0 := sent.value.1] else requests;
    if sent.Some? {
      assert QueueOk(h, m[h], microblocks);
      assert sent.value.0.sortitionHeight == h;
    }
    hide QueuesOk, QueueOk;
    forall k | k in requests'
      ensures k.sortitionHeight in heights + {h} && IsQueued(m, k) && !IsQueued(m'', k) && send(k) == Some(requests'[k])
    {
      if k in requests {
        assert IsQueued(m, k) && !IsQueued(m', k);
      }
    }
  }

  /** Send at most one request per height, rarest heights first. */
  method BeginAll(m: Queues, send: RequestKey -> Option<nat>, ghost microblocks: bool)
    returns (m': Queues, requests: map<RequestKey, nat>)
    requires QueuesOk(m, microblocks)
    ensures QueuesOk(m', microblocks) && Begun(m, m', m.Keys, requests, send)
  {
    hide Begun, Popped;
    var order := Prioritize(m);
    m', requests := m, map[];
    NothingBegun(m, send);
    ghost var heights: set<nat> := {};
    for i := 0 to |order|
      invariant heights == set h | h in order[..i]
      invariant Begun(m, m', heights, requests, send) && m'.Keys == m.Keys
      invariant forall h :: h in m && h !in heights ==> m'[h] == m[h]
    {
      var h := order[i];
      assert h !in heights;
      var sent, rest := BeginRequest(m'[h], send);
      SentLeaves(h, m[h], sent, rest, send, microblocks);
      BegunMore(m, m', heights, requests, send, h, sent, rest, microblocks);
      if sent.Some? {
        requests := requests[sent.value.0 := sent.value.1];
      }
      m' := m'[h := rest];
      heights := heights + {h};
    }
    assert heights == m.Keys;
    BegunOk(m, m', requests, send, microblocks);
  }

  lemma NothingBegun(m: Queues, send: RequestKey -> Option<nat>)
    ensures Begun(m, m, {}, map[], send)
  {
  }

  lemma SentLeaves(h: nat, q: seq<RequestKey>, sent: Option<(RequestKey, nat)>, rest: seq<RequestKey>,
                   send: RequestKey -> Option<nat>, microblocks: bool)
    requires QueueOk(h, q, microblocks)
    requires sent.None? ==> rest == []
    requires sent.Some? ==>
      var n := |q| - |rest| - 1;
      0 <= n < |q| && rest == q[n + 1..] && q[n] == sent.value.0
    ensures Popped(q, rest)
    ensures sent.Some? ==> sent.value.0 in q && sent.value.0 !in rest
  {
  }

  lemma BegunOk(m: Queues, m': Queues, requests: map<RequestKey, nat>, send: RequestKey -> Option<nat>,
                microblocks: bool)
    requires QueuesOk(m, microblocks) && Begun(m, m', m.Keys, requests, send)
    ensures QueuesOk(m', microblocks)
  {
  }

  /** A round of sending uses up at least one request of every queue that has any. */
  lemma BegunShrinks(m: Queues, m': Queues, requests: map<RequestKey, nat>, send: RequestKey -> Option<nat>,
                     microblocks: bool)
    requires QueuesOk(m, microblocks) && Begun(m, m', m.Keys, requests, send)
    ensures Queued(m') <= Queued(m)
    ensures |Queued(m')| <= |Queued(m)|
    ensures NoneEmpty(m) && m != map[] ==> |Queued(m')| < |Queued(m)|
  {
    forall k | k in Queued(m') ensures k in Queued(m) {
      var h :| h in m' && k in m'[h];
      assert k in m[h];
    }
    SubsetSize(Queued(m'), Queued(m));
    if NoneEmpty(m) && m != map[] {
      var h :| h in m;
      var k := m[h][0];
      BegunOk(m, m', requests, send, microblocks);
      QueuedIs(m', microblocks, k);
      QueuedIs(m, microblocks, k);
      assert QueueOk(h, m[h], microblocks);
      assert k in Queued(m) && k !in Queued(m');
    }
  }

  /** Everything sent was queued, so sending opens no request that was not open. */
  lemma BegunOpensNone(m: Queues, m': Queues, requests: map<RequestKey, nat>, send: RequestKey -> Option<nat>,
                       microblocks: bool)
    requires QueuesOk(m, microblocks) && Begun(m, m', m.Keys, requests, send)
    ensures requests.Keys + Queued(m') <= Queued(m)
  {
    BegunShrinks(m, m', requests, send, microblocks);
    forall k | k in requests ensures k in Queued(m) {
      QueuedIs(m, microblocks, k);
    }
  }

  lemma SameSize(m: Queues, m': Queues, requests: map<RequestKey, nat>, send: RequestKey -> Option<nat>)
    requires Begun(m, m', m.Keys, requests, send)
    ensures |m'| == |m|
  {
  }

  // ---- polling requests ----

  /** What became of a request that was sent. */
  datatype Fate = Pending | InHand | Broken | Dead | Delivered

  function FateOf(v: Verdict): (f: Fate)
  {
    match v
    case DeadPeer => Dead
    case StillPending => Pending
    case Accepted => InHand
    case BrokenPeer => Broken
  }

  /** How requests are answered, and how answers are judged. */
  type Judge = (RequestKey, Response) -> Verdict
  type Answers = RequestKey -> Response

  ghost function PendingIn(requests: map<RequestKey, nat>, respond: Answers, judge: Judge): (m: map<RequestKey, nat>)
  {
    map k | k in requests && judge(k, respond(k)).StillPending? :: requests[k]
  }

  ghost function AcceptedIn(requests: map<RequestKey, nat>, respond: Answers, judge: Judge)
    : (m: map<RequestKey, Response>)
  {
    map k | k in requests && judge(k, respond(k)).Accepted? :: respond(k)
  }

  ghost function FatesIn(requests: map<RequestKey, nat>, respond: Answers, judge: Judge): (m: map<RequestKey, Fate>)
  {
    map k | k in requests :: FateOf(judge(k, respond(k)))
  }

  /** The connections, and the neighbors, whose requests met a fate. */
  ghost function EventsOf(requests: map<RequestKey, nat>, fates: map<RequestKey, Fate>, f: Fate): (s: set<nat>)
  {
    set k | k in requests && k in fates && fates[k] == f :: requests[k]
  }

  ghost function NeighborsOf(requests: map<RequestKey, nat>, fates: map<RequestKey, Fate>, f: Fate): (s: set<nat>)
  {
    set k | k in requests && k in fates && fates[k] == f :: k.neighbor
  }

  ghost function Elements(s: seq<nat>): (r: set<nat>)
  {
    set x | x in s
  }

  /** Blamed are exactly the connections that died, those that answered badly, and the neighbors behind the latter. */
  ghost predicate Blames(requests: map<RequestKey, nat>, fates: map<RequestKey, Fate>,
                         dead: seq<nat>, broken: seq<nat>, neighbors: seq<nat>)
  {
    && Elements(dead) == EventsOf(requests, fates, Dead)
    && Elements(broken) == EventsOf(requests, fates, Broken)
    && Elements(neighbors) == NeighborsOf(requests, fates, Broken)
  }

  datatype Polled = Polled(pending: map<RequestKey, nat>, got: map<RequestKey, Response>,
                           deadPeers: seq<nat>, brokenPeers: seq<nat>, brokenNeighbors: seq<nat>)

  /** The requests polled so far are sorted by their verdicts. */
  ghost predicate Tallied(p: Polled, requests: map<RequestKey, nat>, respond: Answers, judge: Judge)
  {
    && p.pending == PendingIn(requests, respond, judge) && p.got == AcceptedIn(requests, respond, judge)
    && Blames(requests, FatesIn(requests, respond, judge), p.deadPeers, p.brokenPeers, p.brokenNeighbors)
  }

  function Put(p: Polled, k: RequestKey, event: nat, r: Response, v: Verdict): (p': Polled)
  {
    match v
    case DeadPeer => p.(deadPeers := p.deadPeers + [event])
    case StillPending => p.(pending := p.pending[k := event])
    case Accepted => p.(got := p.got[k := r])
    case BrokenPeer => p.(brokenPeers := p.brokenPeers + [event], brokenNeighbors := p.brokenNeighbors + [k.neighbor])
  }

  lemma FateMore(requests: map<RequestKey, nat>, respond: Answers, judge: Judge, k: RequestKey, event: nat, f: Fate)
    requires k !in requests
    ensures var fates, fates' := FatesIn(requests, respond, judge), FatesIn(requests[k := event], respond, judge);
      var hit := FateOf(judge(k, respond(k))) == f;
      && EventsOf(requests[k := event], fates', f) == EventsOf(requests, fates, f) + (if hit then {event} else {})
      && NeighborsOf(requests[k := event], fates', f) ==
           NeighborsOf(requests, fates, f) + (if hit then {k.neighbor} else {})
  {
    var requests' := requests[k := event];
    var fates, fates' := FatesIn(requests, respond, judge), FatesIn(requests', respond, judge);
    forall l | l in requests ensures l in requests' && requests'[l] == requests[l] && fates'[l] == fates[l] {
    }
    assert fates'[k] == FateOf(judge(k, respond(k)));
  }

  lemma ElementsMore(s: seq<nat>, x: nat)
    ensures Elements(s + [x]) == Elements(s) + {x}
  {
  }

  lemma PendingMore(requests: map<RequestKey, nat>, respond: Answers, judge: Judge, k: RequestKey, event: nat)
    requires k !in requests
    ensures var v, requests' := judge(k, respond(k)), requests[k := event];
      var pending, got := PendingIn(requests, respond, judge), AcceptedIn(requests, respond, judge);
      && PendingIn(requests', respond, judge) == (if v.StillPending? then pending[k := event] else pending)
      && AcceptedIn(requests', respond, judge) == (if v.Accepted? then got[k := respond(k)] else got)
  {
  }

  lemma PutSorts(p: Polled, requests: map<RequestKey, nat>, respond: Answers, judge: Judge, k: RequestKey, event: nat)
    requires Tallied(p, requests, respond, judge) && k !in requests
    ensures Tallied(Put(p, k, event, respond(k), judge(k, respond(k))), requests[k := event], respond, judge)
  {
    FateMore(requests, respond, judge, k, event, Dead);
    FateMore(requests, respond, judge, k, event, Broken);
    PendingMore(requests, respond, judge, k, event);
    hide EventsOf, NeighborsOf, FatesIn, Elements, PendingIn, AcceptedIn;
    ElementsMore(p.deadPeers, event);
    ElementsMore(p.brokenPeers, event);
    ElementsMore(p.brokenNeighbors, k.neighbor);
  }

  /** Poll every request once, in any order. */
  method PollRequests(requests: map<RequestKey, nat>, respond: Answers, judge: Judge) returns (p: Polled)
    ensures Tallied(p, requests, respond, judge)
  {
    p := Polled(map[], map[], [], [], []);
    var todo := requests.Keys;
    ghost var polled: map<RequestKey, nat> := map[];
    assert Tallied(p, polled, respond, judge);
    hide Tallied, Put;
    while todo != {}
      invariant todo <= requests.Keys && polled == map k | k in requests && k !in todo :: requests[k]
      invariant Tallied(p, polled, respond, judge)
      decreases todo
    {
      var k :| k in todo;
      PutSorts(p, polled, respond, judge, k, requests[k]);
      p := Put(p, k, requests[k], respond(k), judge(k, respond(k)));
      todo := todo - {k};
      polled := polled[k := requests[k]];
    }
    assert polled == requests;
  }

  // ---- one kind of data ----

  ghost function Heights(got: map<RequestKey, Response>): (s: set<nat>)
  {
    set k | k in got :: k.sortitionHeight
  }

  /** The queues to go on with: not for heights already fetched, and not empty. */
  ghost function Remaining(m: Queues, got: map<RequestKey, Response>): (m': Queues)
  {
    map h | h in m && h !in Heights(got) && m[h] != [] :: m[h]
  }

  ghost predicate SubQueues(m': Queues, m: Queues) {
    forall h :: h in m' ==> h in m && m'[h] == m[h]
  }

  lemma RemainingIs(m: Queues, got: map<RequestKey, Response>)
    ensures SubQueues(Remaining(m, got), m) && NoneEmpty(Remaining(m, got))
    ensures |Remaining(m, got)| <= |m|
    ensures Queued(Remaining(m, got)) <= Queued(m) && |Queued(Remaining(m, got))| <= |Queued(m)|
  {
    var m' := Remaining(m, got);
    SubsetSize(m'.Keys, m.Keys);
    SubsetSize(Queued(m'), Queued(m));
  }

  /** No request that was sent is queued. */
  ghost predicate Apart(toTry: Queues, fate: map<RequestKey, Fate>) {
    forall k :: k in fate ==> !IsQueued(toTry, k)
  }

  /** Pending requests and data in hand are exactly the requests so fated, and data in hand was judged acceptable. */
  ghost predicate Matches(requests: map<RequestKey, nat>, got: map<RequestKey, Response>, fate: map<RequestKey, Fate>,
                          judge: Judge)
  {
    && (forall k :: k in requests <==> k in fate && fate[k] == Pending)
    && (forall k :: k in got <==> k in fate && fate[k] == InHand)
    && (forall k :: k in got ==> judge(k, got[k]) == Accepted)
  }

  /** Every request sent carries a child header exactly if it is for microblocks. */
  ghost predicate Headed(keys: set<RequestKey>, microblocks: bool)
  {
    forall k :: k in keys ==> k.childHeader.Some? == microblocks
  }

  lemma BegunHeaded(m: Queues, m': Queues, requests: map<RequestKey, nat>, send: RequestKey -> Option<nat>,
                    keys: set<RequestKey>, microblocks: bool)
    requires QueuesOk(m, microblocks) && Begun(m, m', m.Keys, requests, send) && Headed(keys, microblocks)
    ensures Headed(keys + requests.Keys, microblocks)
  {
    forall k | k in requests ensures k.childHeader.Some? == microblocks {
      assert IsQueued(m, k) && QueueOk(k.sortitionHeight, m[k.sortitionHeight], microblocks);
    }
  }

  lemma MatchesAfterPoll(requests: map<RequestKey, nat>, got: map<RequestKey, Response>, fate: map<RequestKey, Fate>,
                         respond: Answers, judge: Judge)
    requires Matches(requests, got, fate, judge)
    ensures Matches(PendingIn(requests, respond, judge), got + AcceptedIn(requests, respond, judge),
                    fate + FatesIn(requests, respond, judge), judge)
    ensures (fate + FatesIn(requests, respond, judge)).Keys == fate.Keys
  {
  }

  ghost function AllDelivered(got: map<RequestKey, Response>): (m: map<RequestKey, Fate>)
  {
    map k | k in got :: Delivered
  }

  lemma MatchesAfterCollect(got: map<RequestKey, Response>, fate: map<RequestKey, Fate>, judge: Judge,
                            requests: map<RequestKey, nat>)
    requires Matches(requests, got, fate, judge)
    ensures Matches(requests, map[], fate + AllDelivered(got), judge)
    ensures (fate + AllDelivered(got)).Keys == fate.Keys
  {
  }

  lemma FewerQueues(m: Queues, m': Queues, microblocks: bool, fate: map<RequestKey, Fate>, fate': map<RequestKey, Fate>)
    requires QueuesOk(m, microblocks) && Apart(m, fate) && fate'.Keys == fate.Keys
    requires SubQueues(m', m)
    ensures QueuesOk(m', microblocks) && Apart(m', fate')
  {
  }

  ghost function AllPending(requests: map<RequestKey, nat>): (m: map<RequestKey, Fate>)
  {
    map k | k in requests :: Pending
  }

  lemma AfterBegin(m: Queues, m': Queues, requests: map<RequestKey, nat>, send: RequestKey -> Option<nat>,
                   fate: map<RequestKey, Fate>, got: map<RequestKey, Response>, judge: Judge)
    requires Begun(m, m', m.Keys, requests, send) && Apart(m, fate) && Matches(map[], got, fate, judge)
    ensures var fate' := fate + AllPending(requests);
      && requests.Keys !! fate.Keys && fate'.Keys == fate.Keys + requests.Keys
      && Apart(m', fate') && Matches(requests, got, fate', judge)
  {
    var fate' := fate + AllPending(requests);
    forall k | k in fate' ensures !IsQueued(m', k) {
      if k !in requests {
        StaysOut(m, m', requests, send, k);
      }
    }
    hide Begun, IsQueued;
    assert forall k :: k in requests ==> k !in fate by {
      forall k | k in requests ensures k !in fate {
        WasQueued(m, m', requests, send, k);
      }
    }
  }

  lemma WasQueued(m: Queues, m': Queues, requests: map<RequestKey, nat>, send: RequestKey -> Option<nat>, k: RequestKey)
    requires Begun(m, m', m.Keys, requests, send) && k in requests
    ensures IsQueued(m, k)
  {
  }

  /** What a fetcher holds. */
  datatype Holding = Holding(
    toTry: Queues, requests: map<RequestKey, nat>, got: map<RequestKey, Response>, fate: map<RequestKey, Fate>)

  /** Requests for one kind of data; the downloader has one of these for blocks and one for microblock streams. */
  class Fetcher {
    const microblocks: bool
    const judge: Judge
    var toTry: Queues
    var requests: map<RequestKey, nat>
    var got: map<RequestKey, Response>
    var deadPeers: seq<nat>
    var brokenPeers: seq<nat>
    var brokenNeighbors: seq<nat>

    /** Every request sent since the last reset, and the one thing that became of it. */
    ghost var fate: map<RequestKey, Fate>

    constructor (microblocks: bool, judge: Judge)
      ensures Valid() && toTry == map[] && requests == map[] && got == map[] && fate == map[]
      ensures this.microblocks == microblocks && this.judge == judge
      ensures deadPeers == brokenPeers == brokenNeighbors == []
    {
      this.microblocks, this.judge := microblocks, judge;
      toTry, requests, got, fate := map[], map[], map[], map[];
      deadPeers, brokenPeers, brokenNeighbors := [], [], [];
    }

    ghost function Held(): (h: Holding)
      reads this`toTry, this`requests, this`got, this`fate
    {
      Holding(toTry, requests, got, fate)
    }

    /** The requests that may still be sent or answered. */
    ghost function Open(): (s: set<RequestKey>)
      reads this`requests, this`toTry
    {
      requests.Keys + Queued(toTry)
    }

    lemma RequestsAreOpen()
      ensures requests.Keys <= Open()
    {
    }

    ghost predicate Valid()
      reads this`toTry, this`requests, this`got, this`fate
    {
      && QueuesOk(toTry, microblocks) && Apart(toTry, fate) && Matches(requests, got, fate, judge)
      && Headed(fate.Keys, microblocks)
    }

    lemma QueuesAreOk()
      requires Valid()
      ensures QueuesOk(toTry, microblocks)
    {
    }

    /** Take up the queues of a scan, before anything is sent. */
    method Fill(m: Queues)
      requires Valid() && fate == map[] && QueuesOk(m, microblocks)
      modifies this`toTry
      ensures Valid() && toTry == m
    {
      hide QueuesOk, Matches, Headed;
      toTry := m;
    }

    /** So everything pending or in hand does. */
    lemma InHandHeaded()
      requires Valid()
      ensures Headed(requests.Keys, microblocks) && Headed(got.Keys, microblocks)
    {
    }

    /** What sending does: no request is sent twice or opened anew, and the queues get shorter. */
    twostate predicate Sent()
      reads this
    {
      && requests.Keys !! old(fate).Keys && Open() <= old(Open())
      && fate.Keys == old(fate).Keys + requests.Keys
      && |Queued(toTry)| <= |Queued(old(toTry))|
      && (NoneEmpty(old(toTry)) && old(toTry) != map[] ==> |Queued(toTry)| < |Queued(old(toTry))|)
    }

    /** Send the next request of each height; none was sent before. */
    method Begin(send: RequestKey -> Option<nat>)
      requires Valid() && requests == map[]
      modifies this`toTry, this`requests, this`fate
      ensures Valid() && Begun(old(toTry), toTry, old(toTry).Keys, requests, send)
      ensures Sent() && |toTry| == |old(toTry)| && fate == old(fate) + AllPending(requests)
    {
      hide QueuesOk, Begun, Apart, Matches, Queued, NoneEmpty, AllPending, Headed;
      ghost var m := toTry;
      toTry, requests := BeginAll(toTry, send, microblocks);
      AfterBegin(m, toTry, requests, send, fate, got, judge);
      BegunShrinks(m, toTry, requests, send, microblocks);
      BegunOpensNone(m, toTry, requests, send, microblocks);
      SameSize(m, toTry, requests, send);
      BegunHeaded(m, toTry, requests, send, fate.Keys, microblocks);
      fate := fate + AllPending(requests);
    }

    /** Sort the requests sent by their responses; those still waiting stay pending. */
    method TryFinish(respond: Answers) returns (finished: bool)
      requires Valid()
      modifies this`requests, this`got, this`fate, this`deadPeers, this`brokenPeers, this`brokenNeighbors
      ensures Valid()
      ensures fate == old(fate) + FatesIn(old(requests), respond, judge) && fate.Keys == old(fate).Keys
      ensures requests == PendingIn(old(requests), respond, judge)
      ensures got == old(got) + AcceptedIn(old(requests), respond, judge)
      ensures finished <==> requests == map[]
      ensures |old(deadPeers)| <= |deadPeers| && |old(brokenPeers)| <= |brokenPeers|
      ensures |old(brokenNeighbors)| <= |brokenNeighbors|
      ensures Blames(old(requests), FatesIn(old(requests), respond, judge), deadPeers[|old(deadPeers)|..],
                     brokenPeers[|old(brokenPeers)|..], brokenNeighbors[|old(brokenNeighbors)|..])
    {
      hide QueuesOk, Matches, PendingIn, AcceptedIn, FatesIn, Blames, Headed;
      var p := PollRequests(requests, respond, judge);
      MatchesAfterPoll(requests, got, fate, respond, judge);
      fate := fate + FatesIn(requests, respond, judge);
      requests, got := p.pending, got + p.got;
      Appended(deadPeers, p.deadPeers);
      Appended(brokenPeers, p.brokenPeers);
      Appended(brokenNeighbors, p.brokenNeighbors);
      deadPeers, brokenPeers := deadPeers + p.deadPeers, brokenPeers + p.brokenPeers;
      brokenNeighbors := brokenNeighbors + p.brokenNeighbors;
      finished := |p.pending| == 0;
    }

    /** What collecting keeps: nothing opens anew, no queue gets longer or stays empty, and what was sent is known. */
    twostate predicate Trimmed()
      reads this
    {
      && Open() <= old(Open()) && |Queued(toTry)| <= |Queued(old(toTry))| && |toTry| <= |old(toTry)|
      && fate.Keys == old(fate).Keys
    }

    /** Hand over what was fetched, stop trying those heights, and forget queues that ran out. */
    method Collect() returns (delivered: map<RequestKey, Response>)
      requires Valid()
      modifies this`toTry, this`got, this`fate
      ensures Valid() && delivered == old(got) && got == map[]
      ensures toTry == Remaining(old(toTry), old(got))
      ensures fate == old(fate) + AllDelivered(old(got))
      ensures Trimmed() && NoneEmpty(toTry)
    {
      hide QueuesOk, Matches, Apart, Headed, Queued, Remaining, NoneEmpty, AllDelivered;
      delivered := got;
      RemainingIs(toTry, got);
      MatchesAfterCollect(got, fate, judge, requests);
      FewerQueues(toTry, Remaining(toTry, got), microblocks, fate, fate + AllDelivered(got));
      toTry := Trim(toTry, got);
      fate := fate + AllDelivered(got);
      got := map[];
    }

    /** Back to nothing. */
    method Reset()
      modifies this
      ensures Valid() && toTry == map[] && requests == map[] && got == map[] && fate == map[]
      ensures deadPeers == brokenPeers == brokenNeighbors == []
    {
      toTry, requests, got, fate := map[], map[], map[], map[];
      deadPeers, brokenPeers, brokenNeighbors := [], [], [];
    }
  }

  lemma Appended(s: seq<nat>, more: seq<nat>)
    ensures (s + more)[|s|..] == more
  {
  }

  lemma StaysOut(m: Queues, m': Queues, requests: map<RequestKey, nat>, send: RequestKey -> Option<nat>, k: RequestKey)
    requires Begun(m, m', m.Keys, requests, send) && !IsQueued(m, k)
    ensures !IsQueued(m', k)
  {
  }

  method DropHeights(m: Queues, got: map<RequestKey, Response>) returns (m': Queues)
    ensures m' == map h | h in m && h !in Heights(got) :: m[h]
  {
    m' := m;
    var todo := got.Keys;
    ghost var dropped: set<nat> := {};
    while todo != {}
      invariant todo <= got.Keys
      invariant forall h :: h in dropped <==> exists k :: k in got && k !in todo && k.sortitionHeight == h
      invariant m' == map h | h in m && h !in dropped :: m[h]
      decreases todo
    {
      var k :| k in todo;
      todo := todo - {k};
      m' := m' - {k.sortitionHeight};
      dropped := dropped + {k.sortitionHeight};
    }
    assert dropped == Heights(got);
  }

  /** Stop trying the heights of what was fetched, and forget the queues that ran out. */
  method Trim(m: Queues, got: map<RequestKey, Response>) returns (m': Queues)
    ensures m' == Remaining(m, got)
  {
    hide Heights;
    m' := DropHeights(m, got);
    m' := DropEmpty(m');
  }

  method DropEmpty(m: Queues) returns (m': Queues)
    ensures m' == map h | h in m && m[h] != [] :: m[h]
  {
    var empty := set h | h in m && |m[h]| == 0;
    m' := m - empty;
  }
}
