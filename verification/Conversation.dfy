/**
 A conversation with a peer (ConversationP2P in src/net/chat.rs): sequence numbers are drawn
 when messages are signed, and signed messages go out as requests in whatever order their
 callers send them.  While the numbers have not gone around since the oldest request that is
 still unanswered was signed, no two unanswered requests share one.
 */
module Conversation {
  import opened Prelude
  import opened Codec
  import opened Inbox
  import opened Outbox
  import opened Requests

  // ---- requests and the draws of their numbers ----

  /** Each request carries the number drawn at its stamp, and no two have the same stamp. */
  ghost predicate Stamped(requests: seq<Notify>, stamps: seq<nat>) {
    && |requests| == |stamps| && NoDups(stamps)
    && forall i :: 0 <= i < |requests| ==> requests[i].expectedSeq == SeqAt(0, stamps[i])
  }

  /** Unanswered requests share a number exactly if some two were signed a multiple of 2^32 - 1 draws apart. */
  lemma DistinctIff(requests: seq<Notify>, stamps: seq<nat>)
    requires Stamped(requests, stamps)
    ensures DistinctSeqs(requests) <==>
      forall i, j :: 0 <= i < j < |stamps| ==> (stamps[i] - stamps[j]) % U32_MAX != 0
  {
    hide SeqAt;
    forall i, j | 0 <= i < j < |stamps|
      ensures requests[i].expectedSeq == requests[j].expectedSeq <==> (stamps[i] - stamps[j]) % U32_MAX == 0
    {
      SameSeq(stamps[i], stamps[j]);
    }
  }

  lemma SameSeq(i: nat, j: nat)
    ensures SeqAt(0, i) == SeqAt(0, j) <==> (i - j) % U32_MAX == 0
  {
    SeqPeriod(0, if i <= j then i else j, if i <= j then j else i);
  }

  /** Stamps within one turn of the counter are no multiple of a turn apart. */
  lemma RecentDistinct(requests: seq<Notify>, stamps: seq<nat>, draws: nat)
    requires Stamped(requests, stamps)
    requires forall i :: 0 <= i < |stamps| ==> stamps[i] < draws <= stamps[i] + U32_MAX
    ensures DistinctSeqs(requests)
  {
    hide SeqAt;
    WindowDistinct(requests, 0, stamps);
  }

  lemma StampedSplit(a: seq<Notify>, b: seq<Notify>, stamps: seq<nat>)
    requires Stamped(a + b, stamps)
    ensures Stamped(a, stamps[..|a|])
  {
    hide SeqAt;
    forall i | 0 <= i < |a| ensures a[i].expectedSeq == SeqAt(0, stamps[..|a|][i]) {
      assert (a + b)[i] == a[i];
    }
  }

  lemma StampedMore(requests: seq<Notify>, stamps: seq<nat>, r: Notify, stamp: nat)
    requires Stamped(requests, stamps) && stamp !in stamps && r.expectedSeq == SeqAt(0, stamp)
    ensures Stamped(requests + [r], stamps + [stamp])
  {
  }

  /** Dropping a request and its stamp. */
  lemma StampedWithout(requests: seq<Notify>, stamps: seq<nat>, i: nat)
    requires Stamped(requests, stamps) && i < |requests|
    ensures Stamped(Without(requests, i), Without(stamps, i))
    ensures forall x :: x in Without(stamps, i) ==> x in stamps
  {
    hide SeqAt;
    var r, t := Without(requests, i), Without(stamps, i);
    forall j | 0 <= j < |r| ensures r[j].expectedSeq == SeqAt(0, t[j]) {
      var j' := if j < i then j else j + 1;
      assert r[j] == requests[j'] && t[j] == stamps[j'];
    }
    forall j, k | 0 <= j < k < |t| ensures t[j] != t[k] {
      assert t[j] == stamps[if j < i then j else j + 1] && t[k] == stamps[if k < i then k else k + 1];
    }
  }

  lemma WithoutFront<T>(a: seq<T>, b: seq<T>, i: nat)
    requires i < |a|
    ensures Without(a + b, i) == Without(a, i) + b
  {
    Slice(a, b, 0, i);
    Slice(a, b, i + 1, |a|);
    assert (a + b)[i + 1..] == a[i + 1..] + b;
  }

  lemma {:induction false} DrainStamped<M>(inflight: seq<Notify>, waiting: seq<Notify>, stamps: seq<nat>,
                                           messages: seq<M>, requestId: M -> nat) returns (stamps': seq<nat>)
    requires Stamped(inflight + waiting, stamps)
    ensures Stamped(Drain(inflight, messages, requestId).inflight + waiting, stamps')
    ensures forall x :: x in stamps' ==> x in stamps
    decreases |messages|
  {
    hide Stamped, Without;
    stamps' := stamps;
    if messages != [] {
      var i := FirstMatch(inflight, requestId(messages[0]));
      if i < |inflight| {
        Long(inflight + waiting, stamps);
        StampedWithout(inflight + waiting, stamps, i);
        WithoutFront(inflight, waiting, i);
        stamps' := DrainStamped(Without(inflight, i), waiting, Without(stamps, i), messages[1..], requestId);
      } else {
        stamps' := DrainStamped(inflight, waiting, stamps, messages[1..], requestId);
      }
    }
  }

  lemma Long(requests: seq<Notify>, stamps: seq<nat>)
    requires Stamped(requests, stamps)
    ensures |stamps| == |requests|
  {
  }

  lemma {:induction false} UnexpiredStamped(inflight: seq<Notify>, waiting: seq<Notify>, stamps: seq<nat>, now: nat)
    returns (stamps': seq<nat>)
    requires Stamped(inflight + waiting, stamps)
    ensures Stamped(Unexpired(inflight, now) + waiting, stamps')
    ensures forall x :: x in stamps' ==> x in stamps
    decreases |inflight|
  {
    hide Stamped, Unexpired;
    if i :| 0 <= i < |inflight| && inflight[i].ttl < now {
      Long(inflight + waiting, stamps);
      StampedWithout(inflight + waiting, stamps, i);
      WithoutFront(inflight, waiting, i);
      DropExpired(inflight, i, now);
      stamps' := UnexpiredStamped(Without(inflight, i), waiting, Without(stamps, i), now);
    } else {
      NoneExpired(inflight, now);
      stamps' := stamps;
    }
  }

  // ---- the conversation ----

  datatype Event =
    | Sign(ok: bool)
    | SendRequest(stamp: nat, ttl: nat, waiter: nat, data: bytes)
    | Relay(data: bytes)
    | Flush
    | Receive(attempts: seq<SocketRead>)
    | TakeReplies
    | Expire(now: nat)

  function Signings(events: seq<Event>): (n: nat)
  {
    if events == [] then 0 else
    var last := |events| - 1;
    Signings(events[..last]) + if events[last].Sign? then 1 else 0
  }

  class ConversationP2P<P(!new), M(!new), K(!new)> {
    const sequencer: Sequencer
    const connection: NetworkConnection<P, M, K>
    const socket: Socket

    /** How many numbers were drawn, and the draws of signed messages that callers hold and have not sent yet. */
    var draws: nat
    var signed: set<nat>

    /** The draws of the requests that are on their way or unanswered. */
    ghost var stamps: seq<nat>

    constructor (connection: NetworkConnection<P, M, K>)
      requires connection.inbox.Valid() && connection.inbox.Bounded()
      requires connection.outbox.Valid() && connection.outbox.queued == [] && connection.outbox.inflight == []
      ensures Valid() && this.connection == connection && draws == 0
      ensures fresh(sequencer) && fresh(socket)
    {
      this.connection := connection;
      sequencer := new Sequencer();
      socket := new Socket();
      draws, signed, stamps := 0, {}, [];
    }

    /** The requests on their way, after those sent and unanswered. */
    ghost function Pending(): (s: seq<Notify>)
      requires connection.outbox.done <= |connection.outbox.queued|
      reads connection.outbox
    {
      connection.outbox.inflight + NotifiesOf(connection.outbox.queued[connection.outbox.done..])
    }

    ghost predicate Valid()
      reads this, sequencer, connection.inbox, connection.outbox
    {
      && connection.inbox.Valid() && connection.inbox.Bounded() && connection.outbox.Valid()
      && sequencer.seqNo <= U32_MAX && SeqAt(sequencer.seqNo, 0) == SeqAt(0, draws)
      && Stamped(Pending(), stamps)
      && (forall x :: x in stamps ==> x < draws && x !in signed) && (forall x :: x in signed ==> x < draws)
    }

    /** The counter has not gone around since the oldest unanswered request was signed. */
    ghost predicate Recent()
      requires Valid()
      reads this, sequencer, connection.inbox, connection.outbox
    {
      forall i :: 0 <= i < |connection.outbox.inflight| ==> draws <= stamps[i] + U32_MAX
    }

    /** Then no two unanswered requests share a number. */
    lemma RecentIsDistinct()
      requires Valid() && Recent()
      ensures DistinctSeqs(connection.outbox.inflight)
    {
      var outbox := connection.outbox;
      var n := |outbox.inflight|;
      StampedSplit(outbox.inflight, NotifiesOf(outbox.queued[outbox.done..]), stamps);
      forall i | 0 <= i < n ensures stamps[..n][i] < draws <= stamps[..n][i] + U32_MAX {
        assert stamps[i] in stamps;
      }
      RecentDistinct(outbox.inflight, stamps[..n], draws);
    }

    /** Sign a message; the number is drawn even if signing fails. */
    method SignMessage(ok: bool) returns (r: Result<nat>)
      requires Valid()
      modifies this`draws, this`signed, sequencer
      ensures Valid() && draws == old(draws) + 1 && r.Ok? == ok
      ensures ok ==> r.value == SeqAt(0, old(draws)) && signed == old(signed) + {old(draws)}
      ensures !ok ==> r == Err(SigningError) && signed == old(signed)
    {
      hide SeqAt, Stamped, NotifiesOf;
      SeqNext(sequencer.seqNo, 0, draws);
      var seqNo := sequencer.NextSeq();
      r := if ok then Ok(seqNo) else Err(SigningError);
      if ok {
        signed := signed + {draws};
      }
      draws := draws + 1;
    }

    /** Queue a signed message that expects a reply. */
    method SendSignedRequest(stamp: nat, seqNo: nat, ttl: nat, waiter: nat, data: bytes) returns (r: Result<()>)
      requires Valid() && stamp in signed && seqNo == SeqAt(0, stamp)
      modifies this`signed, this`stamps, connection.outbox`outbox, connection.outbox`queued
      ensures Valid() && signed == old(signed) - {stamp}
      ensures stamps == if r.Ok? then old(stamps) + [stamp] else old(stamps)
      ensures Pending() == if r.Ok? then old(Pending()) + [Notify(seqNo, ttl, waiter)] else old(Pending())
    {
      hide SeqAt, Stamped;
      var outbox := connection.outbox;
      var notify := Notify(seqNo, ttl, waiter);
      ghost var queued := outbox.queued;
      r := outbox.QueueMessage(Pipe(data), Some(notify));
      if r.Ok? {
        QueuedMore(outbox.inflight, queued, outbox.done, Queued(data, Some(notify)));
        StampedMore(outbox.inflight + NotifiesOf(queued[outbox.done..]), stamps, notify, stamp);
        stamps := stamps + [stamp];
      }
      signed := signed - {stamp};
    }

    /** Queue a message that expects no reply. */
    method RelaySignedMessage(data: bytes) returns (r: Result<()>)
      requires Valid()
      modifies connection.outbox`outbox, connection.outbox`queued
      ensures Valid() && Pending() == old(Pending())
    {
      hide SeqAt, Stamped;
      var outbox := connection.outbox;
      ghost var queued := outbox.queued;
      r := outbox.QueueMessage(Pipe(data), None);
      if r.Ok? {
        QueuedMore(outbox.inflight, queued, outbox.done, Queued(data, None));
        Nil(outbox.inflight + NotifiesOf(queued[outbox.done..]));
      }
    }

    /** Send what can be sent: requests become unanswered ones in the order they were queued. */
    method SendData() returns (r: Result<nat>)
      requires Valid()
      modifies socket, connection.outbox
      ensures Valid() && Pending() == old(Pending())
    {
      hide SeqAt, Stamped, NotifiesOf, DataOf;
      var outbox := connection.outbox;
      ghost var inflight, done := outbox.inflight, outbox.done;
      r := outbox.SendBytes(socket);
      MovedOn(inflight, outbox.queued, done, outbox.done);
    }

    /** After a protocol error or an overflow the conversation is over. */
    method ReceiveData(attempts: seq<SocketRead>) returns (r: Result<nat>)
      requires Valid()
      modifies connection.inbox
      ensures StreamFailure(r).None? ==> Valid()
    {
      hide SeqAt, Stamped, NotifiesOf, Decode, Inbox.Read;
      r := connection.inbox.RecvBytes(attempts);
    }

    /**
     Pair the replies received with the unanswered requests.  If the counter has not gone around,
     exactly the first reply to each is delivered, and everything else is returned.
     */
    method TakeReplies() returns (unsolicited: seq<M>)
      requires Valid()
      modifies connection, connection.inbox`inbox, connection.outbox`inflight, this`stamps
      ensures Valid() && connection.inbox.inbox == [] && forall x :: x in stamps ==> x in old(stamps)
      ensures var d := Drain(old(connection.outbox.inflight), old(connection.inbox.inbox), connection.requestId);
        && unsolicited == d.unsolicited && connection.outbox.inflight == d.inflight
        && connection.delivered == old(connection.delivered) + d.delivered
      ensures old(Recent()) ==>
        var inflight, messages := old(connection.outbox.inflight), old(connection.inbox.inbox);
        && unsolicited == Unawaited(inflight, {}, messages, connection.requestId)
        && Seconds(connection.delivered[|old(connection.delivered)|..]) ==
             FirstReplies(inflight, {}, messages, connection.requestId)
    {
      hide SeqAt, Stamped, NotifiesOf, Inbox.Read;
      var outbox := connection.outbox;
      ghost var inflight, messages := outbox.inflight, connection.inbox.inbox;
      ghost var stamps' := DrainStamped(inflight, NotifiesOf(outbox.queued[outbox.done..]), stamps, messages,
                                        connection.requestId);
      if Recent() {
        RecentIsDistinct();
        DrainDistinct(inflight, messages, connection.requestId);
      }
      unsolicited := connection.DrainInbox();
      EmptyBounded();
      stamps := stamps';
    }

    lemma EmptyBounded()
      requires connection.inbox.inbox == [] && |connection.inbox.buf| <
        connection.inbox.pr.preambleSize + connection.inbox.pr.maxMessageLen
      ensures connection.inbox.Bounded()
    {
    }

    method ExpireRequests(now: nat) returns (res: nat)
      requires Valid()
      modifies connection.outbox`inflight, this`stamps
      ensures Valid() && connection.outbox.inflight == Unexpired(old(connection.outbox.inflight), now)
    {
      hide SeqAt, Stamped, NotifiesOf, Unexpired;
      var outbox := connection.outbox;
      ghost var stamps' := UnexpiredStamped(outbox.inflight, NotifiesOf(outbox.queued[outbox.done..]), stamps, now);
      res := connection.DrainTimeouts(now);
      stamps := stamps';
    }

    method Handle(e: Event) returns (failure: Option<NetError>)
      requires Valid()
      modifies this, sequencer, socket, connection, connection.inbox, connection.outbox
      ensures failure.None? ==> Valid() && draws == old(draws) + if e.Sign? then 1 else 0
    {
      hide ConversationP2P<P, M, K>.Valid, Decode, Drain, FirstReplies, Unawaited, Unexpired, SeqAt;
      failure := None;
      match e {
        case Sign(ok) =>
          var _ := SignMessage(ok);
        case SendRequest(stamp, ttl, waiter, data) =>
          if stamp in signed {
            var _ := SendSignedRequest(stamp, SeqAt(0, stamp), ttl, waiter, data);
          }
        case Relay(data) =>
          var _ := RelaySignedMessage(data);
        case Flush =>
          var _ := SendData();
        case Receive(attempts) =>
          var r := ReceiveData(attempts);
          failure := StreamFailure(r);
        case TakeReplies =>
          var _ := TakeReplies();
        case Expire(now) =>
          var _ := ExpireRequests(now);
      }
    }

    /**
     In every run, whatever is signed, sent, received or timed out in whatever order, unanswered
     requests have distinct numbers while the counter has not gone around since the oldest of
     them was signed; in particular for the first 2^32 - 1 messages signed.
     */
    method Run(events: seq<Event>) returns (handled: nat, failure: Option<NetError>)
      requires Valid()
      modifies this, sequencer, socket, connection, connection.inbox, connection.outbox
      ensures handled <= |events| && (failure.None? ==> Valid() && handled == |events|)
      ensures failure.None? ==> draws == old(draws) + Signings(events)
      ensures failure.None? && (Recent() || draws <= U32_MAX) ==> DistinctSeqs(connection.outbox.inflight)
    {
      hide SeqAt;
      handled, failure := 0, None;
      while handled < |events|
        invariant handled <= |events| && failure.None? && Valid()
        invariant draws == old(draws) + Signings(events[..handled])
      {
        failure := Handle(events[handled]);
        if failure.Some? {
          return;
        }
        assert events[..handled + 1][..handled] == events[..handled];
        handled := handled + 1;
      }
      Split(events, |events|);
      if Recent() || draws <= U32_MAX {
        RecentIsDistinct();
      }
    }
  }

  lemma QueuedMore(inflight: seq<Notify>, queued: seq<Queued>, done: nat, q: Queued)
    requires done <= |queued|
    ensures inflight + NotifiesOf((queued + [q])[done..]) ==
      inflight + NotifiesOf(queued[done..]) + if q.notify.Some? then [q.notify.value] else []
  {
    Slice(queued, [q], done, |queued|);
    assert (queued + [q])[done..] == queued[done..] + [q];
    DataAppend(queued[done..], [q]);
    assert [q][1..] == [];
  }

  /** Sending moves requests from the queue to the unanswered ones. */
  lemma MovedOn(inflight: seq<Notify>, queued: seq<Queued>, from: nat, to: nat)
    requires from <= to <= |queued|
    ensures inflight + NotifiesOf(queued[from..]) ==
      (inflight + NotifiesOf(queued[from..to])) + NotifiesOf(queued[to..])
  {
    assert queued[from..] == queued[from..to] + queued[to..];
    DataAppend(queued[from..to], queued[to..]);
    Assoc(inflight, NotifiesOf(queued[from..to]), NotifiesOf(queued[to..]));
  }
}
