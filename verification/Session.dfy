/**
 Two ends of a connection joined by a byte stream: the outbox of one peer writes to a socket
 that the inbox of the other reads.  Writes are cut by the socket and the pipes, reads by
 the schedule, and neither side knows the other's cuts.
 */
module Session {
  import opened Prelude
  import opened Codec
  import opened Messages
  import opened Inbox
  import opened Outbox
  import opened P2P

  /** A read that ends a round of reading. */
  type LastRead = a: SocketRead | !Yields(a) witness WouldBlock

  /** The bytes available, read in pieces of the sizes asked for. */
  function Cut(available: bytes, sizes: seq<nat>, last: LastRead): (attempts: seq<SocketRead>)
  {
    if sizes == [] || sizes[0] == 0 || available == [] then [last] else
    var n := if sizes[0] <= |available| then sizes[0] else |available|;
    [Data(available[..n])] + Cut(available[n..], sizes[1..], last)
  }

  lemma {:induction false} CutReads(available: bytes, sizes: seq<nat>, last: LastRead)
    ensures Arrived(Cut(available, sizes, last)) <= available
  {
    if sizes != [] && sizes[0] != 0 && available != [] {
      var n := if sizes[0] <= |available| then sizes[0] else |available|;
      var rest := Cut(available[n..], sizes[1..], last);
      CutReads(available[n..], sizes[1..], last);
      Split(available, n);
      assert ([Data(available[..n])] + rest)[1..] == rest;
      PrefixMore(available[..n], Arrived(rest), available[n..]);
    }
  }

  datatype Event =
    | Submit(m: StacksMessage, notify: Option<Notify>)
    | Flush
    | Deliver(sizes: seq<nat>, last: LastRead)
    | Take

  class Link {
    const ch: Chain
    const cr: Crypto
    const key: Option<bytes>
    const sender: ConnectionOutbox
    const socket: Socket
    const receiver: ConnectionInbox<Preamble, StacksMessage, bytes>

    /** Every message accepted for sending; the bytes read so far; the messages handed on. */
    ghost var messages: seq<StacksMessage>
    var received: nat
    var taken: seq<StacksMessage>

    constructor (ch: Chain, cr: Crypto, key: Option<bytes>, outboxMaxlen: nat, inboxMaxlen: nat)
      requires LawfulChain(ch)
      ensures this.ch == ch && this.cr == cr && this.key == key
      ensures Valid() && messages == [] && taken == [] && fresh(sender) && fresh(socket) && fresh(receiver)
    {
      hide StacksP2P, Decode, WellBehaved, LawfulChain, Acceptable, Frame, Inbox.Read;
      this.ch, this.cr, this.key := ch, cr, key;
      P2PWellBehaved(ch, cr);
      sender := new ConnectionOutbox(outboxMaxlen);
      socket := new Socket();
      receiver := new ConnectionInbox(StacksP2P(ch, cr), inboxMaxlen, key);
      messages, taken, received := [], [], 0;
      new;
      DecodeFrames(ch, cr, key, []);
    }

    ghost predicate Sending()
      reads this, sender, socket
    {
      && sender.Valid() && socket.wire == sender.Sent()
      && AllAcceptable(ch, cr, key, messages)
      && |sender.queued| == |messages|
      && forall i :: 0 <= i < |messages| ==> sender.queued[i].data == Frame(ch, messages[i])
    }

    /** The receiver is where the one-shot decoder is after the bytes read so far. */
    ghost predicate Receiving()
      reads this, socket, receiver
    {
      && receiver.pr == StacksP2P(ch, cr) && receiver.publicKey == key
      && receiver.Valid() && receiver.Bounded() && received <= |socket.wire|
      && Decode(receiver.pr, key, socket.wire[..received])
           == Decoding(taken + receiver.inbox, Waiting(receiver.preamble, receiver.buf))
    }

    ghost predicate Valid()
      reads this, sender, socket, receiver
    {
      LawfulChain(ch) && Sending() && Receiving()
    }

    /** What holds even after the receiving side gave up on the connection. */
    ghost predicate InOrder()
      reads this, sender, socket, receiver
    {
      Sending() && taken + receiver.inbox <= messages
    }

    lemma WireIsFrames()
      requires Sending()
      ensures socket.wire <= Frames(ch, messages)
      ensures sender.outbox == [] ==> socket.wire == Frames(ch, messages)
    {
      sender.SentIsPrefix();
      QueuedFrames(sender.queued, messages);
    }

    lemma {:induction false} QueuedFrames(queued: seq<Queued>, messages: seq<StacksMessage>)
      requires |queued| == |messages|
      requires forall i :: 0 <= i < |messages| ==> queued[i].data == Frame(ch, messages[i])
      ensures DataOf(queued) == Frames(ch, messages)
    {
      hide Frame, Acceptable, LawfulChain;
      if queued != [] {
        assert forall i :: 0 <= i < |messages[1..]| ==>
          queued[1..][i] == queued[i + 1] && messages[1..][i] == messages[i + 1];
        QueuedFrames(queued[1..], messages[1..]);
      }
    }

    /** First in, first out, with nothing lost once all bytes are through. */
    lemma Fifo()
      requires Valid()
      ensures InOrder()
      ensures sender.outbox == [] && received == |socket.wire| ==> taken + receiver.inbox == messages
    {
      hide StacksP2P, Decode, Frames, Frame, Acceptable, LawfulChain, Inbox.Read, DataOf;
      WireIsFrames();
      var read := socket.wire[..received];
      assert read <= Frames(ch, messages);
      Split(socket.wire, |socket.wire|);
      DecodePrefixOfFrames(ch, cr, key, messages, read);
    }

    method SubmitMessage(m: StacksMessage, notify: Option<Notify>) returns (r: Result<()>)
      requires Valid() && Acceptable(ch, cr, key, m)
      modifies this`messages, sender
      ensures Valid()
      ensures messages == if r.Ok? then old(messages) + [m] else old(messages)
    {
      hide StacksP2P, Decode, Acceptable, Frame, LawfulChain, WellBehaved;
      ghost var queued := sender.queued;
      r := sender.QueueMessage(Pipe(Frame(ch, m)), notify);
      if r.Ok? {
        messages := messages + [m];
        Slice(queued, [Queued(Frame(ch, m), notify)], 0, sender.done);
      }
    }

    method FlushSender() returns (r: Result<nat>)
      requires Valid()
      modifies sender, socket
      ensures Valid() && old(socket.wire) <= socket.wire
    {
      hide StacksP2P, Decode, Acceptable, Frame, LawfulChain, WellBehaved;
      ghost var wire := socket.wire;
      r := sender.SendBytes(socket);
      assert wire[..received] == socket.wire[..received];
      assert wire + socket.wire[|wire|..] == socket.wire;
    }

    /**
     Read some of what is on the wire.  The receiver never sees a protocol error, and even
     when it gives up with a full inbox what it holds is in order.
     */
    method DeliverBytes(sizes: seq<nat>, last: LastRead) returns (r: Result<nat>)
      requires Valid()
      modifies this`received, receiver
      ensures InOrder()
      ensures StreamFailure(r).None? ==> Valid()
      ensures r.Ok? ==> received == old(received) + r.value
      ensures r.Err? ==> !IsProtocolError(r.error)
    {
      hide StacksP2P, Decode, Acceptable, Frame, LawfulChain, Inbox.Read, DataOf,
        ConnectionInbox<Preamble, StacksMessage, bytes>.Reflects;
      var attempts := Cut(socket.wire[received..], sizes, last);
      CutReads(socket.wire[received..], sizes, last);
      var read := Arrived(attempts);
      ghost var had := receiver.inbox;
      ghost var total := Decode(receiver.pr, key, receiver.buf + read);
      WireIsFrames();
      Arrives(socket.wire, received, taken + had, receiver.preamble, receiver.buf, read);
      r := receiver.RecvBytes(attempts);
      Delivered(had, total, received + |read|, StreamFailure(r));
      if StreamFailure(r).None? {
        received := received + |read|;
      }
    }

    lemma Delivered(had: seq<StacksMessage>, total: Decoding<Preamble, StacksMessage>, upto: nat, err: Option<NetError>)
      requires receiver.Reflects(had, total, err) && receiver.pr == StacksP2P(ch, cr) && WellBehaved(receiver.pr)
      requires total.end.Waiting? && (taken + had) + total.messages <= messages && upto <= |socket.wire|
      requires Decode(receiver.pr, key, socket.wire[..upto]) == Decoding((taken + had) + total.messages, total.end)
      ensures taken + receiver.inbox <= messages
      ensures err.Some? ==> !IsProtocolError(err.value)
      ensures err.None? ==>
        && receiver.Valid()
        && Decode(receiver.pr, key, socket.wire[..upto])
             == Decoding(taken + receiver.inbox, Waiting(receiver.preamble, receiver.buf))
    {
      hide StacksP2P, Decode, WellBehaved, Inbox.Read;
      if err.None? {
        Assoc(taken, had, total.messages);
      } else if err.value == InboxOverflow {
        Overflowed(taken, had, receiver.inbox, total.messages);
      }
    }

    /** The bytes read continue the stream where the receiver left off. */
    lemma Arrives(wire: bytes, from: nat, got: seq<StacksMessage>, preamble: Option<Preamble>, held: bytes, read: bytes)
      requires LawfulChain(ch) && WellBehaved(StacksP2P(ch, cr)) && AllAcceptable(ch, cr, key, messages)
      requires from <= |wire| && read <= wire[from..] && wire <= Frames(ch, messages)
      requires Decode(StacksP2P(ch, cr), key, wire[..from]) == Decoding(got, Waiting(preamble, held))
      ensures var total := Decode(StacksP2P(ch, cr), key, held + read);
        && total.end.Waiting? && got + total.messages <= messages
        && Decode(StacksP2P(ch, cr), key, wire[..from + |read|]) == Decoding(got + total.messages, total.end)
    {
      hide StacksP2P, Decode, Frames, AllAcceptable, WellBehaved, LawfulChain;
      assert wire[..from + |read|] == wire[..from] + read;
      assert wire[..from + |read|] <= Frames(ch, messages);
      DecodeAppend(StacksP2P(ch, cr), key, wire[..from], read);
      DecodePrefixOfFrames(ch, cr, key, messages, wire[..from + |read|]);
    }

    lemma Overflowed(taken: seq<StacksMessage>, had: seq<StacksMessage>, inbox: seq<StacksMessage>,
                     more: seq<StacksMessage>)
      requires had <= inbox && inbox[|had|..] <= more && (taken + had) + more <= messages
      ensures taken + inbox <= messages
    {
    }

    method TakeMessage() returns (m: Option<StacksMessage>)
      requires Valid()
      modifies this`taken, receiver`inbox
      ensures Valid() && taken + receiver.inbox == old(taken + receiver.inbox)
      ensures old(receiver.inbox) != [] ==> m.Some? && taken == old(taken) + [m.value]
    {
      hide StacksP2P, Decode, Acceptable, Frame, WellBehaved, LawfulChain, Inbox.Read, DataOf;
      m := receiver.NextMessage();
      if m.Some? {
        Assoc(taken, [m.value], receiver.inbox);
        taken := taken + [m.value];
      }
    }

    /**
     Every run: whatever is submitted, however writes and reads are cut and interleaved, the
     messages received are at all times an initial part of those submitted, and all of them
     once the outbox is empty and every byte written has been read.
     */
    method Run(schedule: seq<Event>) returns (r: Option<NetError>)
      requires Valid()
      requires forall i :: 0 <= i < |schedule| && schedule[i].Submit? ==> Acceptable(ch, cr, key, schedule[i].m)
      modifies this, sender, socket, receiver
      ensures InOrder() && (r.Some? ==> !IsProtocolError(r.value))
      ensures r.None? && sender.outbox == [] && received == |socket.wire| ==> taken + receiver.inbox == messages
    {
      hide StacksP2P, Decode, Acceptable, Sending, Receiving;
      r := None;
      for i := 0 to |schedule|
        invariant Valid()
      {
        match schedule[i]
        case Submit(m, notify) =>
          var _ := SubmitMessage(m, notify);
        case Flush =>
          var _ := FlushSender();
        case Deliver(sizes, last) =>
          var delivered := DeliverBytes(sizes, last);
          if delivered.Err? {
            return Some(delivered.error);
          }
        case Take =>
          var _ := TakeMessage();
      }
      Fifo();
    }
  }
}
