/**
 Pairing replies with requests: sequence numbers (next_seq in src/net/chat.rs) and the
 inflight requests of a connection (NetworkConnection in src/net/connection.rs).
 */
module Requests {
  import opened Prelude
  import opened Inbox
  import opened Outbox

  const U32_MAX: nat := 0xffff_ffff

  // ---- sequence numbers ----

  /** The k-th number drawn, for a counter that restarts at 0 instead of reaching U32_MAX. */
  function SeqAt(start: nat, k: nat): (n: nat)
  {
    (start + k) % U32_MAX
  }

  class Sequencer {
    var seqNo: nat

    constructor ()
      ensures seqNo == 0
    {
      seqNo := 0;
    }

    method NextSeq() returns (ret: nat)
      requires seqNo <= U32_MAX
      modifies this
      ensures seqNo <= U32_MAX && ret < U32_MAX
      ensures ret == SeqAt(old(seqNo), 0) && SeqAt(seqNo, 0) == SeqAt(old(seqNo), 1)
    {
      if seqNo == U32_MAX {
        seqNo := 0;
      }
      ret := seqNo;
      seqNo := seqNo + 1;
    }

    /** Draw `n` numbers in a row. */
    method Draw(n: nat) returns (drawn: seq<nat>)
      requires seqNo <= U32_MAX
      modifies this
      ensures seqNo <= U32_MAX && |drawn| == n
      ensures forall k :: 0 <= k < n ==> drawn[k] == SeqAt(old(seqNo), k)
    {
      hide SeqAt;
      drawn := [];
      for i := 0 to n
        invariant seqNo <= U32_MAX && |drawn| == i && SeqAt(seqNo, 0) == SeqAt(old(seqNo), i)
        invariant forall k :: 0 <= k < i ==> drawn[k] == SeqAt(old(seqNo), k)
      {
        SeqNext(seqNo, old(seqNo), i);
        var ret := NextSeq();
        drawn := drawn + [ret];
      }
    }
  }

  lemma SeqNext(a: nat, b: nat, i: nat)
    requires SeqAt(a, 0) == SeqAt(b, i)
    ensures SeqAt(a, 1) == SeqAt(b, i + 1)
  {
  }

  /** Two draws coincide exactly when they are a multiple of 2^32 - 1 draws apart. */
  lemma SeqPeriod(start: nat, i: nat, j: nat)
    requires i <= j
    ensures SeqAt(start, i) == SeqAt(start, j) <==> (j - i) % U32_MAX == 0
  {
  }

  ghost predicate DistinctSeqs(inflight: seq<Notify>) {
    forall i, j :: 0 <= i < j < |inflight| ==> inflight[i].expectedSeq != inflight[j].expectedSeq
  }

  /** Two different draws, closer than one turn of the counter. */
  predicate Apart(i: nat, j: nat) {
    i != j && i < j + U32_MAX && j < i + U32_MAX
  }

  /** Requests whose numbers were drawn at different draws fewer than 2^32 - 1 apart never share one. */
  lemma WindowDistinct(inflight: seq<Notify>, start: nat, draws: seq<nat>)
    requires |draws| == |inflight|
    requires forall i :: 0 <= i < |inflight| ==> inflight[i].expectedSeq == SeqAt(start, draws[i])
    requires forall i, j :: 0 <= i < j < |draws| ==> Apart(draws[i], draws[j])
    ensures DistinctSeqs(inflight)
  {
    hide SeqAt;
    forall i, j | 0 <= i < j < |inflight| ensures inflight[i].expectedSeq != inflight[j].expectedSeq {
      SeqPeriod(start, if draws[i] < draws[j] then draws[i] else draws[j],
                if draws[i] < draws[j] then draws[j] else draws[i]);
    }
  }

  // ---- matching replies to requests ----

  /** The position of the first waiter for `id`, or past the end. */
  function FirstMatch(inflight: seq<Notify>, id: nat): (i: nat)
    ensures i <= |inflight|
    ensures i < |inflight| ==> inflight[i].expectedSeq == id
    ensures forall j :: 0 <= j < i ==> inflight[j].expectedSeq != id
  {
    if inflight == [] || inflight[0].expectedSeq == id then 0 else 1 + FirstMatch(inflight[1..], id)
  }

  lemma FirstMatchIs(inflight: seq<Notify>, id: nat, i: nat)
    requires i <= |inflight| && (i < |inflight| ==> inflight[i].expectedSeq == id)
    requires forall j :: 0 <= j < i ==> inflight[j].expectedSeq != id
    ensures FirstMatch(inflight, id) == i
  {
  }

  predicate Awaits(inflight: seq<Notify>, id: nat) {
    FirstMatch(inflight, id) < |inflight|
  }

  function Without<T>(s: seq<T>, i: nat): (r: seq<T>)
    requires i < |s|
  {
    s[..i] + s[i + 1..]
  }

  lemma WithoutLeaves<T>(s: seq<T>, i: nat)
    requires i < |s|
    ensures multiset(s) == multiset{s[i]} + multiset(Without(s, i))
  {
    assert s == s[..i] + [s[i]] + s[i + 1..];
  }

  datatype Drained<M> = Drained(inflight: seq<Notify>, delivered: seq<(Notify, M)>, unsolicited: seq<M>)

  /** Offer the messages one by one, oldest first, each to the first request it answers. */
  function Drain<M>(inflight: seq<Notify>, messages: seq<M>, requestId: M -> nat): (d: Drained<M>)
    decreases |messages|
  {
    if messages == [] then Drained(inflight, [], []) else
    var m := messages[0];
    var i := FirstMatch(inflight, requestId(m));
    if i < |inflight| then
      var d := Drain(Without(inflight, i), messages[1..], requestId);
      Drained(d.inflight, [(inflight[i], m)] + d.delivered, d.unsolicited)
    else
      var d := Drain(inflight, messages[1..], requestId);
      Drained(d.inflight, d.delivered, [m] + d.unsolicited)
  }

  /** `s` is the elements of `a` and `b` shuffled together, each in its own order. */
  ghost predicate IsMerge<T>(s: seq<T>, a: seq<T>, b: seq<T>)
  {
    if s == [] then a == [] && b == []
    else
      || (a != [] && s[0] == a[0] && IsMerge(s[1..], a[1..], b))
      || (b != [] && s[0] == b[0] && IsMerge(s[1..], a, b[1..]))
  }

  function Firsts<A, B>(pairs: seq<(A, B)>): (s: seq<A>)
  {
    if pairs == [] then [] else [pairs[0].0] + Firsts(pairs[1..])
  }

  function Seconds<A, B>(pairs: seq<(A, B)>): (s: seq<B>)
  {
    if pairs == [] then [] else [pairs[0].1] + Seconds(pairs[1..])
  }

  lemma Popped<T>(x: T, s: seq<T>)
    ensures ([x] + s)[0] == x && ([x] + s)[1..] == s
  {
  }

  /** Every message goes to exactly one waiter or is returned, and both kinds keep their order. */
  lemma {:induction false} DrainSplitsMessages<M>(inflight: seq<Notify>, messages: seq<M>, requestId: M -> nat)
    ensures var d := Drain(inflight, messages, requestId);
      IsMerge(messages, Seconds(d.delivered), d.unsolicited)
    decreases |messages|
  {
    if messages != [] {
      hide FirstMatch, Without;
      var m := messages[0];
      var i := FirstMatch(inflight, requestId(m));
      var rest := if i < |inflight| then Without(inflight, i) else inflight;
      var d := Drain(rest, messages[1..], requestId);
      DrainSplitsMessages(rest, messages[1..], requestId);
      if i < |inflight| {
        Popped((inflight[i], m), d.delivered);
        Popped(m, Seconds(d.delivered));
      } else {
        Popped(m, d.unsolicited);
      }
    }
  }

  /** Every waiter still waits or got exactly one message, which carries its sequence number. */
  lemma {:induction false} DrainSplitsWaiters<M>(inflight: seq<Notify>, messages: seq<M>, requestId: M -> nat)
    ensures var d := Drain(inflight, messages, requestId);
      && multiset(inflight) == multiset(Firsts(d.delivered)) + multiset(d.inflight)
      && forall i :: 0 <= i < |d.delivered| ==> d.delivered[i].0.expectedSeq == requestId(d.delivered[i].1)
    decreases |messages|
  {
    if messages != [] {
      var m := messages[0];
      var i := FirstMatch(inflight, requestId(m));
      hide FirstMatch, Without;
      if i < |inflight| {
        var rest := Without(inflight, i);
        var d := Drain(rest, messages[1..], requestId);
        DrainSplitsWaiters(rest, messages[1..], requestId);
        WithoutLeaves(inflight, i);
        Popped((inflight[i], m), d.delivered);
      } else {
        DrainSplitsWaiters(inflight, messages[1..], requestId);
      }
    }
  }

  /** The messages that nobody awaits, counting each request as answered once. */
  function Unawaited<M>(inflight: seq<Notify>, answered: set<nat>, messages: seq<M>, requestId: M -> nat): (s: seq<M>)
    decreases |messages|
  {
    if messages == [] then [] else
    var id := requestId(messages[0]);
    if Awaits(inflight, id) && id !in answered
    then Unawaited(inflight, answered + {id}, messages[1..], requestId)
    else [messages[0]] + Unawaited(inflight, answered, messages[1..], requestId)
  }

  /** The first reply to each awaited request, of those not answered yet. */
  function FirstReplies<M>(inflight: seq<Notify>, answered: set<nat>, messages: seq<M>, requestId: M -> nat)
    : (s: seq<M>)
    decreases |messages|
  {
    if messages == [] then [] else
    var id := requestId(messages[0]);
    if Awaits(inflight, id) && id !in answered
    then [messages[0]] + FirstReplies(inflight, answered + {id}, messages[1..], requestId)
    else FirstReplies(inflight, answered, messages[1..], requestId)
  }

  /**
   When outstanding requests have distinct sequence numbers, what is delivered is exactly
   the first reply to each, and everything else, duplicates included, is returned.
   */
  lemma DrainDistinct<M>(inflight: seq<Notify>, messages: seq<M>, requestId: M -> nat)
    requires DistinctSeqs(inflight)
    ensures Drain(inflight, messages, requestId).unsolicited == Unawaited(inflight, {}, messages, requestId)
    ensures Seconds(Drain(inflight, messages, requestId).delivered) == FirstReplies(inflight, {}, messages, requestId)
  {
    DrainAnswered(inflight, inflight, {}, messages, requestId);
  }

  lemma {:induction false} DrainAnswered<M>(
    inflight: seq<Notify>, current: seq<Notify>, answered: set<nat>, messages: seq<M>, requestId: M -> nat)
    requires DistinctSeqs(inflight) && DistinctSeqs(current)
    requires forall id: nat :: Awaits(current, id) <==> Awaits(inflight, id) && id !in answered
    ensures var d := Drain(current, messages, requestId);
      && d.unsolicited == Unawaited(inflight, answered, messages, requestId)
      && Seconds(d.delivered) == FirstReplies(inflight, answered, messages, requestId)
    decreases |messages|
  {
    if messages != [] {
      var id := requestId(messages[0]);
      if Awaits(current, id) {
        var i := FirstMatch(current, id);
        WithoutDistinct(current, i);
        DrainAnswered(inflight, Without(current, i), answered + {id}, messages[1..], requestId);
        Popped((current[i], messages[0]), Drain(Without(current, i), messages[1..], requestId).delivered);
      } else {
        DrainAnswered(inflight, current, answered, messages[1..], requestId);
      }
    }
  }

  lemma WithoutDistinct(s: seq<Notify>, i: nat)
    requires DistinctSeqs(s) && i < |s|
    ensures DistinctSeqs(Without(s, i))
    ensures forall id: nat :: Awaits(Without(s, i), id) <==> Awaits(s, id) && id != s[i].expectedSeq
  {
    var r := Without(s, i);
    assert forall j :: 0 <= j < |r| ==> r[j] == s[if j < i then j else j + 1];
    forall id: nat
      ensures Awaits(r, id) <==> Awaits(s, id) && id != s[i].expectedSeq
    {
      var k := FirstMatch(s, id);
      if k < |s| && k != i {
        assert r[if k < i then k else k - 1] == s[k];
      }
    }
  }

  // ---- timeouts ----

  /** The requests whose stored deadline has not passed, in order. */
  function Unexpired(inflight: seq<Notify>, now: nat): (s: seq<Notify>)
  {
    if inflight == [] then []
    else (if inflight[0].ttl < now then [] else [inflight[0]]) + Unexpired(inflight[1..], now)
  }

  lemma {:induction false} UnexpiredAppend(a: seq<Notify>, b: seq<Notify>, now: nat)
    ensures Unexpired(a + b, now) == Unexpired(a, now) + Unexpired(b, now)
  {
    if a == [] {
      Nil(b);
      Nil(Unexpired(b, now));
    } else {
      Cons(a, b);
      UnexpiredAppend(a[1..], b, now);
      Assoc(if a[0].ttl < now then [] else [a[0]], Unexpired(a[1..], now), Unexpired(b, now));
    }
  }

  lemma {:induction false} NoneExpired(s: seq<Notify>, now: nat)
    requires forall i :: 0 <= i < |s| ==> s[i].ttl >= now
    ensures Unexpired(s, now) == s
  {
    if s != [] {
      NoneExpired(s[1..], now);
      Cons(s, []);
    }
  }

  /** Dropping an expired entry leaves the filtered list unchanged. */
  lemma DropExpired(s: seq<Notify>, i: nat, now: nat)
    requires i < |s| && s[i].ttl < now
    ensures Unexpired(Without(s, i), now) == Unexpired(s, now)
  {
    TakeSnoc(s, i);
    Split(s, i);
    UnexpiredAppend(s[..i], s[i + 1..], now);
    UnexpiredAppend(s[..i], s[i..], now);
    Popped(s[i], s[i + 1..]);
    Nil(Unexpired(s[i + 1..], now));
  }

  // ---- the connection ----

  class NetworkConnection<P(!new), M(!new), K(!new)> {
    const inbox: ConnectionInbox<P, M, K>
    const outbox: ConnectionOutbox
    const requestId: M -> nat
    /** The messages handed to waiters so far. */
    var delivered: seq<(Notify, M)>

    constructor (inbox: ConnectionInbox<P, M, K>, outbox: ConnectionOutbox, requestId: M -> nat)
      ensures this.inbox == inbox && this.outbox == outbox && this.requestId == requestId && delivered == []
    {
      this.inbox, this.outbox, this.requestId := inbox, outbox, requestId;
      delivered := [];
    }

    method IsSolicited(msg: M) returns (solicited: bool)
      ensures solicited <==> exists i :: 0 <= i < |outbox.inflight| && outbox.inflight[i].expectedSeq == requestId(msg)
    {
      solicited := false;
      for i := 0 to |outbox.inflight|
        invariant forall j :: 0 <= j < i ==> outbox.inflight[j].expectedSeq != requestId(msg)
      {
        if outbox.inflight[i].expectedSeq == requestId(msg) {
          return true;
        }
      }
    }

    /** Hand a message to the first request it answers, or give it back. */
    method FulfillRequest(msg: M) returns (r: Option<M>)
      modifies outbox`inflight, this`delivered
      ensures var i := FirstMatch(old(outbox.inflight), requestId(msg));
        if i < |old(outbox.inflight)| then
          && r == None && outbox.inflight == Without(old(outbox.inflight), i)
          && delivered == old(delivered) + [(old(outbox.inflight)[i], msg)]
        else r == Some(msg) && outbox.inflight == old(outbox.inflight) && delivered == old(delivered)
    {
      var outboxIndex, solicited := 0, false;
      var inflight := outbox.inflight;
      for i := 0 to |inflight|
        invariant !solicited && outboxIndex == 0
        invariant forall j :: 0 <= j < i ==> inflight[j].expectedSeq != requestId(msg)
      {
        if inflight[i].expectedSeq == requestId(msg) {
          outboxIndex, solicited := i, true;
          break;
        }
      }
      FirstMatchIs(inflight, requestId(msg), if solicited then outboxIndex else |inflight|);
      if solicited {
        delivered := delivered + [(inflight[outboxIndex], msg)];
        outbox.inflight := Without(inflight, outboxIndex);
        r := None;
      } else {
        r := Some(msg);
      }
    }

    method DrainInbox() returns (unsolicited: seq<M>)
      requires inbox.Valid()
      modifies inbox`inbox, outbox`inflight, this`delivered
      ensures inbox.Valid() && inbox.inbox == []
      ensures var d := Drain(old(outbox.inflight), old(inbox.inbox), requestId);
        unsolicited == d.unsolicited && outbox.inflight == d.inflight && delivered == old(delivered) + d.delivered
    {
      hide Inbox.Read, FirstMatch, Without;
      unsolicited := [];
      ghost var d := Drain(outbox.inflight, inbox.inbox, requestId);
      Nil(delivered);
      Nil(d.delivered);
      Nil(d.unsolicited);
      ghost var given: seq<(Notify, M)> := [];
      while true
        invariant inbox.Valid() && delivered == old(delivered) + given
        invariant var e := Drain(outbox.inflight, inbox.inbox, requestId);
          d == Drained(e.inflight, given + e.delivered, unsolicited + e.unsolicited)
        decreases |inbox.inbox|
      {
        ghost var inflight, messages := outbox.inflight, inbox.inbox;
        var inMsg := inbox.NextMessage();
        if inMsg.None? {
          Nil(given);
          Nil(unsolicited);
          break;
        }
        Popped(inMsg.value, inbox.inbox);
        ghost var e := DrainStep(inflight, messages, given, unsolicited);
        var outMsg := FulfillRequest(inMsg.value);
        if outMsg.Some? {
          unsolicited := unsolicited + [outMsg.value];
        } else {
          ghost var more := [(inflight[FirstMatch(inflight, requestId(inMsg.value))], inMsg.value)];
          Assoc(old(delivered), given, more);
          given := given + more;
        }
      }
    }

    /** One message taken off the front, with what was already given out in front of it. */
    lemma DrainStep(inflight: seq<Notify>, messages: seq<M>, given: seq<(Notify, M)>, unsolicited: seq<M>)
      returns (e: Drained<M>)
      requires messages != []
      ensures var id := requestId(messages[0]);
        var i := FirstMatch(inflight, id);
        var d := Drain(inflight, messages, requestId);
        var rest := if i < |inflight| then Without(inflight, i) else inflight;
        && e == Drain(rest, messages[1..], requestId) && d.inflight == e.inflight
        && (i < |inflight| ==>
              && given + d.delivered == (given + [(inflight[i], messages[0])]) + e.delivered
              && d.unsolicited == e.unsolicited)
        && (i >= |inflight| ==>
              && unsolicited + d.unsolicited == (unsolicited + [messages[0]]) + e.unsolicited
              && d.delivered == e.delivered)
    {
      hide Without;
      var i := FirstMatch(inflight, requestId(messages[0]));
      e := Drain(if i < |inflight| then Without(inflight, i) else inflight, messages[1..], requestId);
      if i < |inflight| {
        Assoc(given, [(inflight[i], messages[0])], e.delivered);
      } else {
        Assoc(unsolicited, [messages[0]], e.unsolicited);
      }
    }

    /** Removing the expired positions from the back is an order-preserving filter. */
    method DrainTimeouts(now: nat) returns (res: nat)
      modifies outbox`inflight
      ensures outbox.inflight == Unexpired(old(outbox.inflight), now)
      ensures res == |old(outbox.inflight)| - |outbox.inflight|
    {
      hide Unexpired, Listed;
      var inflight := outbox.inflight;
      var toRemove := ExpiredPositions(inflight, now);
      AllListed(inflight, toRemove, now);
      res := |toRemove|;
      var n := |toRemove|;
      while n > 0
        invariant 0 <= n <= |toRemove| && |outbox.inflight| == |inflight| - (|toRemove| - n)
        invariant Unexpired(outbox.inflight, now) == Unexpired(inflight, now)
        invariant Listed(outbox.inflight, toRemove, n, now)
      {
        n := n - 1;
        RemoveLast(outbox.inflight, toRemove, n, now);
        DropExpired(outbox.inflight, toRemove[n], now);
        outbox.inflight := Without(outbox.inflight, toRemove[n]);
      }
      NothingListed(outbox.inflight, toRemove, now);
      NoneExpired(outbox.inflight, now);
    }
  }

  /** The expired positions of `s` are the first `n` of those listed. */
  ghost predicate Listed(s: seq<Notify>, toRemove: seq<nat>, n: nat, now: nat)
    requires n <= |toRemove|
  {
    && (forall k :: 0 <= k < n ==> toRemove[k] < |s| && s[toRemove[k]].ttl < now)
    && (forall i :: 0 <= i < |s| && s[i].ttl < now ==> i in toRemove[..n])
  }

  lemma AllListed(s: seq<Notify>, toRemove: seq<nat>, now: nat)
    requires forall i: nat :: i in toRemove <==> i < |s| && s[i].ttl < now
    ensures Listed(s, toRemove, |toRemove|, now)
  {
    Split(toRemove, |toRemove|);
    forall k | 0 <= k < |toRemove|
      ensures toRemove[k] < |s| && s[toRemove[k]].ttl < now
    {
      assert toRemove[k] in toRemove;
    }
  }

  lemma NothingListed(s: seq<Notify>, toRemove: seq<nat>, now: nat)
    requires Listed(s, toRemove, 0, now)
    ensures forall i :: 0 <= i < |s| ==> s[i].ttl >= now
  {
  }

  lemma RemoveLast(s: seq<Notify>, toRemove: seq<nat>, n: nat, now: nat)
    requires n < |toRemove| && Listed(s, toRemove, n + 1, now)
    requires forall j, k :: 0 <= j < k < |toRemove| ==> toRemove[j] < toRemove[k]
    ensures toRemove[n] < |s| && s[toRemove[n]].ttl < now
    ensures Listed(Without(s, toRemove[n]), toRemove, n, now)
  {
    var r := Without(s, toRemove[n]);
    forall i | 0 <= i < |r| && r[i].ttl < now
      ensures i in toRemove[..n]
    {
      var i' := if i < toRemove[n] then i else i + 1;
      assert r[i] == s[i'];
      var k :| 0 <= k < n + 1 && toRemove[..n + 1][k] == i';
      assert toRemove[..n][k] == i;
    }
  }

  method ExpiredPositions(inflight: seq<Notify>, now: nat) returns (toRemove: seq<nat>)
    ensures forall j, k :: 0 <= j < k < |toRemove| ==> toRemove[j] < toRemove[k]
    ensures forall i: nat :: i in toRemove <==> i < |inflight| && inflight[i].ttl < now
  {
    toRemove := [];
    for i := 0 to |inflight|
      invariant forall j, k :: 0 <= j < k < |toRemove| ==> toRemove[j] < toRemove[k]
      invariant forall k: nat :: k in toRemove <==> k < i && inflight[k].ttl < now
      invariant forall k :: 0 <= k < |toRemove| ==> toRemove[k] < i
    {
      if inflight[i].ttl < now {
        toRemove := toRemove + [i];
      }
    }
  }
}
