/**
 The sending half of a connection (ConnectionOutbox in src/net/connection.rs).

 Each queued message owns the read end of a pipe; sending drains the head message's pipe
 into an output buffer and the buffer into the socket, with partial reads and partial
 writes on both sides.
 */
module Outbox {
  import opened Prelude
  import opened Codec

  /** Someone waiting for the reply to a request. */
  datatype Notify = Notify(expectedSeq: nat, ttl: nat, waiter: nat)

  /** The read end of a pipe: the bytes its writer has put in, or will, that were not read yet. */
  datatype Pipe = Pipe(rest: bytes)

  datatype InflightMessage = InflightMessage(pipeRead: Option<Pipe>, notify: Option<Notify>)

  /** A message as it was queued. */
  datatype Queued = Queued(data: bytes, notify: Option<Notify>)

  /** The entry of a message that has not been started. */
  function Fresh(q: Queued): (e: InflightMessage)
  {
    InflightMessage(Some(Pipe(q.data)), q.notify)
  }

  function DataOf(q: seq<Queued>): (s: bytes)
  {
    if q == [] then [] else q[0].data + DataOf(q[1..])
  }

  function NotifiesOf(q: seq<Queued>): (s: seq<Notify>)
  {
    if q == [] then [] else (if q[0].notify.Some? then [q[0].notify.value] else []) + NotifiesOf(q[1..])
  }

  lemma {:induction false} DataAppend(a: seq<Queued>, b: seq<Queued>)
    ensures DataOf(a + b) == DataOf(a) + DataOf(b)
    ensures NotifiesOf(a + b) == NotifiesOf(a) + NotifiesOf(b)
  {
    if a == [] {
      Nil(b);
      Nil(DataOf(b));
      Nil(NotifiesOf(b));
    } else {
      DataAppend(a[1..], b);
      Cons(a, b);
      Assoc(a[0].data, DataOf(a[1..]), DataOf(b));
      Assoc(if a[0].notify.Some? then [a[0].notify.value] else [], NotifiesOf(a[1..]), NotifiesOf(b));
    }
  }

  /** Retiring the head moves all of its bytes to the finished side. */
  lemma RetireHead(q: seq<Queued>, done: nat, buf: bytes)
    requires done < |q| && q[done].data == buf
    ensures DataOf(q[..done + 1]) == DataOf(q[..done]) + buf && buf[..|buf|] == buf
    ensures DataOf(q[done..]) == buf + DataOf(q[done + 1..])
    ensures NotifiesOf(q[done..done + 1]) == (if q[done].notify.Some? then [q[done].notify.value] else [])
  {
    var head := q[done];
    TakeSnoc(q, done);
    assert q[done..done + 1] == [head];
    assert [head][1..] == [];
    Nil(head.data);
    Nil(NotifiesOf([head]));
    Split(buf, |buf|);
    DataAppend(q[..done], [head]);
    DataAppend([head], q[done + 1..]);
  }

  // ---- the environment: pipes and the socket answer as they please ----

  const PIPE_READ_LEN: nat := 8192

  datatype PipeResult = Chunk(data: bytes) | Eof | NotReady | PipeError | PipeTimeout

  /** Reading a pipe yields some of its bytes, or none yet; end of file only once all were read. */
  method ReadPipe(p: Pipe) returns (r: PipeResult, p': Pipe)
    ensures r.Chunk? ==> 0 < |r.data| <= PIPE_READ_LEN && p.rest == r.data + p'.rest
    ensures r.Eof? ==> p.rest == []
    ensures !r.Chunk? ==> p' == p
  {
    p' := p;
    if * {
      r := NotReady;
    } else if * {
      r := PipeError;
    } else if * {
      r := PipeTimeout;
    } else if |p.rest| == 0 {
      r := Eof;
    } else {
      var n: nat :| 0 < n <= |p.rest| && n <= PIPE_READ_LEN;
      r := Chunk(p.rest[..n]);
      p' := Pipe(p.rest[n..]);
      Split(p.rest, n);
    }
  }

  datatype WriteResult = Wrote(n: nat) | WriteWouldBlock | WriteFailed

  class Socket {
    /** Everything written to the connection so far. */
    var wire: bytes

    constructor ()
      ensures wire == []
    {
      wire := [];
    }

    method Write(data: bytes) returns (r: WriteResult)
      modifies this
      ensures r.Wrote? ==> r.n <= |data| && wire == old(wire) + data[..r.n]
      ensures !r.Wrote? ==> wire == old(wire)
    {
      if * {
        r := WriteWouldBlock;
      } else if * {
        r := WriteFailed;
      } else {
        var n: nat :| n <= |data|;
        wire := wire + data[..n];
        r := Wrote(n);
      }
    }
  }

  // ---- the outbox ----

  class ConnectionOutbox {
    var outbox: seq<InflightMessage>
    const outboxMaxlen: nat
    var pendingMessageFd: Option<Pipe>
    var socketOutBuf: bytes
    var socketOutPtr: nat
    var inflight: seq<Notify>

    /** Every message ever queued, and how many of them have been sent completely. */
    ghost var queued: seq<Queued>
    ghost var done: nat

    constructor (outboxMaxlen: nat)
      ensures Valid() && queued == [] && inflight == [] && done == 0
    {
      this.outboxMaxlen := outboxMaxlen;
      outbox, inflight, queued := [], [], [];
      pendingMessageFd := None;
      socketOutBuf := [];
      socketOutPtr := 0;
      done := 0;
    }

    /**
     The pending pipe, when there is one, was taken from the head of a non-empty outbox, and
     with the output buffer it accounts for all of the head's bytes; every other entry still
     owns its pipe.
     */
    ghost predicate Valid()
      reads this
    {
      && |outbox| + done == |queued|
      && socketOutPtr <= |socketOutBuf|
      && (forall i :: 0 < i < |outbox| ==> outbox[i] == Fresh(queued[done + i]))
      && match pendingMessageFd
         case None => socketOutBuf == [] && (|outbox| > 0 ==> outbox[0] == Fresh(queued[done]))
         case Some(p) =>
           && |outbox| > 0 && outbox[0] == InflightMessage(None, queued[done].notify)
           && queued[done].data == socketOutBuf + p.rest
    }

    /** The bytes handed to the socket: finished messages, then the sent part of the head. */
    ghost function Sent(): (s: bytes)
      requires done <= |queued| && socketOutPtr <= |socketOutBuf|
      reads this
    {
      DataOf(queued[..done]) + socketOutBuf[..socketOutPtr]
    }

    /** Bytes go out in queue order, and a message counts as done only once all its bytes are out. */
    lemma SentIsPrefix()
      requires Valid()
      ensures Sent() <= DataOf(queued)
      ensures outbox == [] ==> Sent() == DataOf(queued)
    {
      Split(queued, done);
      DataAppend(queued[..done], queued[done..]);
      var rest := queued[done..];
      if rest == [] {
        assert pendingMessageFd.None?;
        Nil(DataOf(queued[..done]));
      } else if pendingMessageFd.Some? {
        var sent := socketOutBuf[..socketOutPtr];
        assert sent <= rest[0].data <= DataOf(rest);
        PrefixMore(DataOf(queued[..done]), sent, DataOf(rest));
      } else {
        PrefixMore(DataOf(queued[..done]), [], DataOf(rest));
      }
    }

    method QueueMessage(pipeRead: Pipe, notify: Option<Notify>) returns (r: Result<()>)
      requires Valid()
      modifies this`outbox, this`queued
      ensures Valid()
      ensures r == if |old(outbox)| > outboxMaxlen then Err(OutboxOverflow) else Ok(())
      ensures r.Err? ==> outbox == old(outbox) && queued == old(queued)
      ensures r.Ok? ==> queued == old(queued) + [Queued(pipeRead.rest, notify)]
    {
      if |outbox| > outboxMaxlen {
        return Err(OutboxOverflow);
      }
      outbox := outbox + [InflightMessage(Some(pipeRead), notify)];
      queued := queued + [Queued(pipeRead.rest, notify)];
      r := Ok(());
    }

    /** Take the head's pipe.  The panic for a head without a pipe is unreachable. */
    method BeginNextMessage() returns (fd: Option<Pipe>)
      requires Valid() && pendingMessageFd.None?
      modifies this`outbox
      ensures |old(outbox)| == 0 ==> fd.None? && outbox == old(outbox)
      ensures |old(outbox)| > 0 ==>
        && done < |queued|
        && fd == Some(Pipe(queued[done].data))
        && outbox == old(outbox)[0 := InflightMessage(None, queued[done].notify)]
    {
      if |outbox| == 0 {
        return None;
      }
      fd := outbox[0].pipeRead;
      outbox := outbox[0 := outbox[0].(pipeRead := None)];
    }

    /** Retire the head.  The assertion that there is one always holds. */
    method FinishMessage()
      requires Valid() && pendingMessageFd.Some? && pendingMessageFd.value.rest == []
      requires socketOutPtr == |socketOutBuf|
      modifies this`outbox, this`inflight, this`pendingMessageFd, this`socketOutBuf, this`socketOutPtr, this`done
      ensures Valid() && done == old(done) + 1 && Sent() == old(Sent()) && pendingMessageFd.None?
      ensures inflight == old(inflight) + NotifiesOf(queued[old(done)..done])
      ensures Work() < old(Work())
    {
      assert |outbox| > 0;
      hide DataOf, NotifiesOf, Fresh;
      RetireHead(queued, done, socketOutBuf);
      Nil(socketOutBuf);
      var message := outbox[0];
      outbox := outbox[1..];
      if message.notify.Some? {
        inflight := inflight + [message.notify.value];
      } else {
        Nil(inflight);
      }
      pendingMessageFd := None;
      socketOutBuf := [];
      socketOutPtr := 0;
      done := done + 1;
      Nil(DataOf(queued[..done]));
    }

    /** What is left to do: bytes still in pipes count twice, once to buffer and once to send. */
    ghost function Work(): (w: nat)
      requires Valid()
      reads this
    {
      HeadFits();
      2 * (|DataOf(queued[done..])| - |socketOutBuf|) + (|socketOutBuf| - socketOutPtr) + |outbox|
    }

    lemma HeadFits()
      requires Valid()
      ensures |socketOutBuf| <= |DataOf(queued[done..])|
    {
    }

    /** Buffer what the head's pipe has to offer, taking up the next message first if none is pending. */
    method FillFromPipe() returns (r: PipeResult, idle: bool)
      requires Valid()
      modifies this`outbox, this`pendingMessageFd, this`socketOutBuf
      ensures Valid() && Sent() == old(Sent())
      ensures idle <==> outbox == []
      ensures idle ==> pendingMessageFd.None? && socketOutBuf == old(socketOutBuf)
      ensures !idle ==> pendingMessageFd.Some?
      ensures Work() <= old(Work()) && (!idle && r.Chunk? ==> Work() < old(Work()))
      ensures !idle && r.Eof? ==> pendingMessageFd.value.rest == []
    {
      if pendingMessageFd.None? {
        pendingMessageFd := BeginNextMessage();
      }
      r, idle := NotReady, true;
      match pendingMessageFd
      case None =>
      case Some(p) =>
        idle := false;
        var p';
        r, p' := ReadPipe(p);
        if r.Chunk? {
          Assoc(socketOutBuf, r.data, p'.rest);
          Slice(socketOutBuf, r.data, 0, socketOutPtr);
          socketOutBuf := socketOutBuf + r.data;
        }
        pendingMessageFd := Some(p');
    }

    /** Offer the unsent part of the buffer to the socket. */
    method PushToSocket(fd: Socket) returns (r: WriteResult)
      requires Valid()
      modifies fd, this`socketOutPtr
      ensures Valid() && old(fd.wire) <= fd.wire && Sent() == old(Sent()) + fd.wire[|old(fd.wire)|..]
      ensures r.Wrote? ==> socketOutPtr == old(socketOutPtr) + r.n && |fd.wire| == |old(fd.wire)| + r.n
      ensures !r.Wrote? ==> socketOutPtr == old(socketOutPtr) && |fd.wire| == |old(fd.wire)|
      ensures Work() == old(Work()) - (socketOutPtr - old(socketOutPtr))
    {
      hide DataOf;
      var unsent := socketOutBuf[socketOutPtr..];
      r := fd.Write(unsent);
      var n := if r.Wrote? then r.n else 0;
      Pushed(DataOf(queued[..done]), socketOutBuf, socketOutPtr, n, old(fd.wire));
      socketOutPtr := socketOutPtr + n;
    }

    lemma Pushed(finished: bytes, buf: bytes, ptr: nat, n: nat, wire: bytes)
      requires ptr + n <= |buf|
      ensures finished + buf[..ptr + n] == (finished + buf[..ptr]) + buf[ptr..][..n]
      ensures wire + buf[ptr..][..0] == wire
      ensures (wire + buf[ptr..][..n])[|wire|..] == buf[ptr..][..n]
    {
    }

    /**
     Write queued messages to the socket until something would block.  Whatever the pipes and
     the socket do, including when an error is returned, the bytes written continue those
     written before in queue order, and a request becomes inflight once its last byte is out.
     */
    method SendBytes(fd: Socket) returns (r: Result<nat>)
      requires Valid()
      modifies fd, this`outbox, this`inflight, this`pendingMessageFd, this`socketOutBuf, this`socketOutPtr, this`done
      ensures Valid() && old(done) <= done
      ensures old(fd.wire) <= fd.wire && Sent() == old(Sent()) + fd.wire[|old(fd.wire)|..]
      ensures inflight == old(inflight) + NotifiesOf(queued[old(done)..done])
      ensures r.Ok? ==> r.value == |fd.wire| - |old(fd.wire)|
    {
      hide DataOf, NotifiesOf, Work;
      var totalSent, blocked, disconnected := 0, false, false;
      Start(fd.wire);
      while !blocked && !disconnected
        invariant Valid() && old(done) <= done
        invariant old(fd.wire) <= fd.wire && Sent() == old(Sent()) + fd.wire[|old(fd.wire)|..]
        invariant inflight == old(inflight) + NotifiesOf(queued[old(done)..done])
        invariant totalSent == |fd.wire| - |old(fd.wire)|
        decreases !blocked && !disconnected, Work()
      {
        var messageEof := false;
        var input, idle := FillFromPipe();
        if idle {
          break;
        }
        match input {
          case Eof => messageEof := true;
          case Chunk(_) =>
          case NotReady => blocked := true;
          case PipeTimeout => return Err(WriteError);
          case PipeError => return Err(ReadError);
        }
        if socketOutPtr < |socketOutBuf| {
          ghost var wire := fd.wire;
          var written := PushToSocket(fd);
          Extend(old(Sent()), old(fd.wire), wire, fd.wire);
          match written {
            case Wrote(n) =>
              if n == 0 {
                disconnected := true;
              }
              totalSent := totalSent + n;
            case WriteWouldBlock => blocked := true;
            case WriteFailed => return Err(SendError);
          }
        }
        if messageEof && socketOutPtr >= |socketOutBuf| {
          ghost var finished := done;
          FinishMessage();
          Grow(old(inflight), old(done), finished);
        }
      }
      if totalSent == 0 && disconnected && !blocked {
        return Err(PeerNotConnected);
      }
      r := Ok(totalSent);
    }

    lemma Start(wire: bytes)
      requires Valid()
      ensures Sent() + wire[|wire|..] == Sent()
      ensures inflight + NotifiesOf(queued[done..done]) == inflight
    {
    }

    lemma Extend(sent: bytes, wire0: bytes, wire: bytes, wire': bytes)
      requires wire0 <= wire <= wire'
      ensures sent + wire'[|wire0|..] == (sent + wire[|wire0|..]) + wire'[|wire|..]
    {
    }

    lemma Grow(notified: seq<Notify>, from: nat, finished: nat)
      requires from <= finished < done == finished + 1 <= |queued|
      ensures notified + NotifiesOf(queued[from..done])
           == (notified + NotifiesOf(queued[from..finished])) + NotifiesOf(queued[finished..done])
    {
      assert queued[from..done] == queued[from..finished] + queued[finished..done];
      DataAppend(queued[from..finished], queued[finished..done]);
      Assoc(notified, NotifiesOf(queued[from..finished]), NotifiesOf(queued[finished..done]));
    }
  }
}
