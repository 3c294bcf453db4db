/**
 The receiving half of a connection (ConnectionInbox in src/net/connection.rs).

 `Decode` is the reference: a one-shot recursive reading of a whole byte stream.  The class
 re-frames the same stream from arbitrary chunks, with a preamble buffer, two cursors, a
 leftover trailer and a second draining loop, and is proved to agree with `Decode` on the
 concatenation of everything it was given.
 */
module Inbox {
  import opened Prelude
  import opened Codec
  import Positional

  /**
   The parts of a protocol family whose preamble has a fixed size and announces the length
   of its payload.  `K` is the type of public keys.
   */
  datatype Protocol<!P, !M, !K> = Protocol(
    preambleSize: nat,
    maxMessageLen: nat,
    decodePreamble: bytes -> Option<P>,
    payloadLen: P -> nat,
    verify: (K, P, bytes) -> bool,
    readBody: (P, bytes) -> Option<(M, nat)>)

  /** Payloads are read from the bytes given and take at least `minBody` of them. */
  ghost predicate WellBehaved<P(!new), M(!new), K(!new)>(pr: Protocol<P, M, K>) {
    && 0 < pr.preambleSize < pr.maxMessageLen
    && forall p, x: bytes {:trigger pr.readBody(p, x)} ::
         pr.readBody(p, x).Some? ==> MIN_BODY <= pr.readBody(p, x).value.1 <= |x|
  }

  const MIN_BODY: nat := 5

  // ---- the one-shot decoder ----

  /** What the front of a stream holds. */
  datatype Front<+P, +M> = Message(m: M, used: nat) | Incomplete(preamble: Option<P>) | Bad(error: NetError)

  ghost function Read<P, M, K>(pr: Protocol<P, M, K>, key: Option<K>, s: bytes): (f: Front<P, M>)
  {
    var n := pr.preambleSize;
    if |s| < n then Incomplete(None) else
    match pr.decodePreamble(s[..n])
    case None => Bad(InvalidMessage)
    case Some(p) =>
      var len := pr.payloadLen(p);
      if len >= pr.maxMessageLen then Bad(DeserializeError)
      else if |s| < n + len then Incomplete(Some(p))
      else ReadPayload(pr, key, p, s[n..n + len])
  }

  /** The payload is exactly `body`, but only the bytes its parser uses are consumed. */
  ghost function ReadPayload<P, M, K>(pr: Protocol<P, M, K>, key: Option<K>, p: P, body: bytes): (f: Front<P, M>)
  {
    if key.Some? && !pr.verify(key.value, p, body) then Bad(VerifyingError) else
    match pr.readBody(p, body)
    case None => Bad(InvalidMessage)
    case Some((m, used)) => Message(m, pr.preambleSize + used)
  }

  predicate IsProtocolError(e: NetError) {
    e == InvalidMessage || e == DeserializeError || e == VerifyingError
  }

  datatype End<+P> = Waiting(preamble: Option<P>, buf: bytes) | Failed(error: NetError)
  datatype Decoding<+P, +M> = Decoding(messages: seq<M>, end: End<P>)

  ghost function Decode<P(!new), M(!new), K(!new)>(pr: Protocol<P, M, K>, key: Option<K>, s: bytes): (d: Decoding<P, M>)
    requires WellBehaved(pr)
    decreases |s|
  {
    match Read(pr, key, s)
    case Incomplete(p) => Decoding([], Waiting(p, s))
    case Bad(e) => Decoding([], Failed(e))
    case Message(m, used) =>
      ReadUses(pr, key, s);
      Prepend([m], Decode(pr, key, s[used..]))
  }

  ghost function Prepend<P, M>(ms: seq<M>, d: Decoding<P, M>): (r: Decoding<P, M>)
  {
    Decoding(ms + d.messages, d.end)
  }

  /** Bytes moved from the chunk into the buffer stay in their place on the stream. */
  lemma Rejoin(held: bytes, bytes: bytes, offset: nat, consumed: nat, used: nat)
    requires offset + consumed <= |bytes| && used <= |held| + consumed
    ensures (held + bytes[offset..])[used..] ==
      (held + bytes[offset..][..consumed])[used..] + bytes[offset + consumed..]
  {
  }

  lemma PrependNothing<P, M>(d: Decoding<P, M>)
    ensures Prepend([], d) == d
  {
  }

  lemma GotSome<P, M>(got: seq<M>, d: Decoding<P, M>)
    ensures got <= Prepend(got, d).messages
  {
  }

  lemma ReadUses<P(!new), M(!new), K(!new)>(pr: Protocol<P, M, K>, key: Option<K>, s: bytes)
    requires WellBehaved(pr) && Read(pr, key, s).Message?
    ensures pr.preambleSize + MIN_BODY <= Read(pr, key, s).used <= |s|
  {
  }

  /** Enough bytes decide the front of the stream once and for all. */
  lemma ReadStable<P, M, K>(pr: Protocol<P, M, K>, key: Option<K>, s: bytes, more: bytes)
    requires !Read(pr, key, s).Incomplete?
    ensures Read(pr, key, s + more) == Read(pr, key, s)
  {
    var n := pr.preambleSize;
    Slice(s, more, 0, n);
    var p := pr.decodePreamble(s[..n]);
    if p.Some? && pr.payloadLen(p.value) < pr.maxMessageLen {
      Slice(s, more, n, n + pr.payloadLen(p.value));
    }
  }

  /**
   Reading a longer stream is reading the shorter one and then carrying on from what it
   left over; an error in the shorter one is final.
   */
  lemma {:induction false} DecodeAppend<P(!new), M(!new), K(!new)>(
    pr: Protocol<P, M, K>, key: Option<K>, s: bytes, more: bytes)
    requires WellBehaved(pr)
    ensures var d := Decode(pr, key, s);
      Decode(pr, key, s + more) ==
        if d.end.Waiting? then Prepend(d.messages, Decode(pr, key, d.end.buf + more)) else d
    decreases |s|
  {
    Unfold(pr, key, s);
    Unfold(pr, key, s + more);
    hide Read, Decode;
    var f := Read(pr, key, s);
    if f.Message? {
      ReadStable(pr, key, s, more);
      var rest := s[f.used..];
      DecodeAppend(pr, key, rest, more);
      Slice(s, more, 0, f.used);
      var d' := Decode(pr, key, rest);
      if d'.end.Waiting? {
        Assoc([f.m], d'.messages, Decode(pr, key, d'.end.buf + more).messages);
      }
    } else if f.Bad? {
      ReadStable(pr, key, s, more);
    } else {
      Nil(Decode(pr, key, s + more).messages);
    }
  }

  lemma Unfold<P(!new), M(!new), K(!new)>(pr: Protocol<P, M, K>, key: Option<K>, s: bytes)
    requires WellBehaved(pr)
    ensures var f := Read(pr, key, s);
      && (f.Incomplete? ==> Decode(pr, key, s) == Decoding([], Waiting(f.preamble, s)))
      && (f.Bad? ==> Decode(pr, key, s) == Decoding([], Failed(f.error)))
      && (f.Message? ==>
            && 0 < f.used <= |s|
            && Decode(pr, key, s) == Prepend([f.m], Decode(pr, key, s[f.used..])))
  {
  }

  /** What is left over holds no complete message. */
  lemma {:induction false} DecodeLeftover<P(!new), M(!new), K(!new)>(pr: Protocol<P, M, K>, key: Option<K>, s: bytes)
    requires WellBehaved(pr) && Decode(pr, key, s).end.Waiting?
    ensures var e := Decode(pr, key, s).end;
      && Read(pr, key, e.buf) == Incomplete(e.preamble) && |e.buf| <= |s|
      && |e.buf| < pr.preambleSize + pr.maxMessageLen
    decreases |s|
  {
    if Read(pr, key, s).Message? {
      ReadUses(pr, key, s);
      DecodeLeftover(pr, key, s[Read(pr, key, s).used..]);
    }
  }

  lemma NotPositive(a: int, unit: nat)
    requires a <= 0
    ensures a * unit <= 0
  {
  }

  lemma OneMore(k: nat, unit: nat)
    ensures (k + 1) * unit == k * unit + unit
  {
  }

  /** Each message takes up at least a preamble and a minimal body of the stream. */
  lemma {:induction false} DecodeCount<P(!new), M(!new), K(!new)>(pr: Protocol<P, M, K>, key: Option<K>, s: bytes)
    requires WellBehaved(pr)
    ensures |Decode(pr, key, s).messages| * (pr.preambleSize + MIN_BODY) <= |s|
    decreases |s|
  {
    if Read(pr, key, s).Message? {
      ReadUses(pr, key, s);
      var used := Read(pr, key, s).used;
      assert Decode(pr, key, s) == Prepend([Read(pr, key, s).m], Decode(pr, key, s[used..]));
      DecodeCount(pr, key, s[used..]);
      hide Read, Decode;
      OneMore(|Decode(pr, key, s[used..]).messages|, pr.preambleSize + MIN_BODY);
    }
  }

  /** One message off the front, as the loops of the streaming decoder see it. */
  lemma DecodeStep<P(!new), M(!new), K(!new)>(
    pr: Protocol<P, M, K>, key: Option<K>, got: seq<M>, s: bytes, total: Decoding<P, M>)
    requires WellBehaved(pr) && total == Prepend(got, Decode(pr, key, s))
    ensures var f := Read(pr, key, s);
      && (f.Message? ==>
            && pr.preambleSize + MIN_BODY <= f.used <= |s|
            && total == Prepend(got + [f.m], Decode(pr, key, s[f.used..])))
      && (f.Bad? ==> total == Decoding(got, Failed(f.error)) && IsProtocolError(f.error))
      && (f.Incomplete? ==> total == Decoding(got, Waiting(f.preamble, s)))
  {
  }

  // ---- the streaming decoder ----

  class ConnectionInbox<P(!new), M(!new), K(!new)> {
    const pr: Protocol<P, M, K>
    const inboxMaxlen: nat
    var publicKey: Option<K>
    var inbox: seq<M>
    var preamble: Option<P>
    var buf: bytes
    var messagePtr: nat
    var payloadPtr: nat

    constructor (pr: Protocol<P, M, K>, inboxMaxlen: nat, publicKey: Option<K>)
      requires WellBehaved(pr)
      ensures Valid() && Bounded() && inbox == [] && buf == [] && preamble == None
      ensures this.pr == pr && this.inboxMaxlen == inboxMaxlen && this.publicKey == publicKey
    {
      this.pr := pr;
      this.inboxMaxlen := inboxMaxlen;
      this.publicKey := publicKey;
      inbox := [];
      preamble := None;
      buf := [];
      messagePtr, payloadPtr := 0, 0;
    }

    /** A remembered preamble is the one at the front of the buffer, and the cursors point past it. */
    ghost predicate Cached()
      reads this
    {
      match preamble
      case None => messagePtr == payloadPtr == 0
      case Some(p) =>
        && messagePtr == payloadPtr == pr.preambleSize <= |buf|
        && pr.decodePreamble(buf[..pr.preambleSize]) == preamble
        && pr.payloadLen(p) < pr.maxMessageLen
    }

    /** Between calls nothing complete is left in the buffer. */
    ghost predicate Valid()
      reads this
    {
      WellBehaved(pr) && Cached() && Read(pr, publicKey, buf) == Incomplete(preamble)
    }

    /** The memory a peer can make this connection hold. */
    ghost predicate Bounded()
      reads this
    {
      && |buf| < pr.preambleSize + pr.maxMessageLen
      && (|inbox| - inboxMaxlen - 1) * (pr.preambleSize + MIN_BODY) < pr.preambleSize + pr.maxMessageLen
    }

    /**
     How a call that received a stretch of stream reflects the one-shot decoding of it:
     - no error: the same messages were appended and the same leftover is held;
     - a protocol error: the decoding fails with it, after the same messages;
     - a full inbox: an initial part of the messages was appended.
     */
    ghost predicate Reflects(before: seq<M>, total: Decoding<P, M>, err: Option<NetError>)
      reads this
    {
      if err.None? then
        Valid() && inbox == before + total.messages && total.end == Waiting(preamble, buf)
      else if err.value == InboxOverflow then
        |inbox| > inboxMaxlen && before <= inbox && inbox[|before|..] <= total.messages
      else
        inbox == before + total.messages && total.end == Failed(err.value)
    }

    /** Fill the buffer up to the size of a preamble. */
    method BufferPreambleBytes(bytes: bytes) returns (consumed: nat)
      modifies this`buf
      ensures consumed <= |bytes| && buf == old(buf) + bytes[..consumed]
      ensures consumed < |bytes| ==> |buf| >= pr.preambleSize
      ensures |buf| <= |old(buf)| || |buf| <= pr.preambleSize
    {
      var max := pr.preambleSize;
      if |buf| >= max {
        return 0;
      }
      consumed := if |buf| + |bytes| <= max then |bytes| else max - |buf|;
      buf := buf + bytes[..consumed];
    }

    method ConsumePreamble(bytes: bytes) returns (r: Result<(Option<P>, nat)>)
      requires WellBehaved(pr) && messagePtr == payloadPtr == 0
      modifies this`buf, this`messagePtr, this`payloadPtr
      ensures |buf| <= |old(buf)| || |buf| <= pr.preambleSize
      ensures r.Err? ==> Read(pr, publicKey, old(buf) + bytes) == Bad(r.error)
      ensures r.Ok? ==>
        var (p, consumed) := r.value;
        && consumed <= |bytes| && buf == old(buf) + bytes[..consumed]
        && (p.None? ==>
              consumed == |bytes| && messagePtr == payloadPtr == 0 && Read(pr, publicKey, buf) == Incomplete(None))
        && (p.Some? ==>
              && messagePtr == payloadPtr == pr.preambleSize <= |buf|
              && pr.decodePreamble(buf[..pr.preambleSize]) == p
              && pr.payloadLen(p.value) < pr.maxMessageLen)
    {
      var consumed := BufferPreambleBytes(bytes);
      Split(bytes, consumed);
      Assoc(old(buf), bytes[..consumed], bytes[consumed..]);
      if |buf| < pr.preambleSize {
        // underflow; the "preamble is too long" error needs consumed == 0 with bytes left
        assert !(consumed == 0 && |bytes| > 0);
        return Ok((None, consumed));
      }
      Slice(buf, bytes[consumed..], 0, pr.preambleSize);
      var p := pr.decodePreamble(buf[..pr.preambleSize]);
      if p.None? {
        return Err(InvalidMessage);
      }
      if pr.payloadLen(p.value) >= pr.maxMessageLen {
        return Err(DeserializeError);
      }
      messagePtr, payloadPtr := pr.preambleSize, pr.preambleSize;
      r := Ok((p, consumed));
    }

    /** Buffer bytes of a payload of known length, and no more than it needs. */
    method BufferMessageBytes(bytes: bytes, messageLen: nat) returns (consumed: nat)
      requires messagePtr <= |buf|
      modifies this`buf
      ensures consumed <= |bytes| && buf == old(buf) + bytes[..consumed]
      ensures consumed < |bytes| ==> |buf| >= messagePtr + messageLen
      ensures |buf| <= |old(buf)| || |buf| <= messagePtr + messageLen
    {
      var bufferredSoFar := |buf| - messagePtr;
      consumed := |bytes|;
      if bufferredSoFar + consumed > messageLen {
        consumed := if messageLen > bufferredSoFar then messageLen - bufferredSoFar else 0;
      }
      buf := buf + bytes[..consumed];
    }

    /** Parse a message off the front of the buffer, keeping the bytes its parser did not use. */
    method ConsumePayloadKnownLength(p: P) returns (r: Result<Option<M>>)
      requires WellBehaved(pr) && preamble == Some(p) && Cached()
      modifies this`buf, this`messagePtr, this`payloadPtr
      ensures match Read(pr, publicKey, old(buf))
        case Incomplete(_) =>
          r == Ok(None) && buf == old(buf) && messagePtr == old(messagePtr) && payloadPtr == old(payloadPtr)
        case Bad(e) => r == Err(e) && buf == old(buf)
        case Message(m, used) =>
          && r == Ok(Some(m)) && used <= |old(buf)| && buf == old(buf)[used..]
          && messagePtr == payloadPtr == 0
    {
      var len := pr.payloadLen(p);
      if |buf| - messagePtr < len {
        return Ok(None);
      }
      var body := buf[messagePtr..messagePtr + len];
      if publicKey.Some? && !pr.verify(publicKey.value, p, body) {
        return Err(VerifyingError);
      }
      match pr.readBody(p, body)
      case None =>
        r := Err(InvalidMessage);
      case Some(parsed) =>
        var (m, messageLen) := parsed;
        var nextMessagePtr := messagePtr + messageLen;
        var trailer := buf[nextMessagePtr..];
        messagePtr, payloadPtr := 0, 0;
        buf := trailer;
        r := Ok(Some(m));
    }

    method ConsumePayload(p: P, bytes: bytes) returns (r: Result<(Option<M>, nat)>)
      requires WellBehaved(pr) && preamble == Some(p) && Cached()
      modifies this`buf, this`messagePtr, this`payloadPtr
      ensures |buf| <= |old(buf)| || |buf| < pr.preambleSize + pr.maxMessageLen
      ensures r.Err? ==> Read(pr, publicKey, old(buf) + bytes) == Bad(r.error)
      ensures r.Ok? ==>
        var (m, consumed) := r.value;
        && consumed <= |bytes|
        && (m.None? ==>
              && consumed == |bytes| && buf == old(buf) + bytes && Cached()
              && Read(pr, publicKey, buf) == Incomplete(Some(p)))
        && (m.Some? ==>
              && messagePtr == payloadPtr == 0
              && Read(pr, publicKey, old(buf) + bytes).Message?
              && var f := Read(pr, publicKey, old(buf) + bytes);
              && f.m == m.value && f.used <= |old(buf)| + consumed
              && buf == (old(buf) + bytes[..consumed])[f.used..])
    {
      var consumed := BufferMessageBytes(bytes, pr.payloadLen(p));
      Slice(old(buf), bytes[..consumed], 0, pr.preambleSize);
      Split(bytes, consumed);
      Assoc(old(buf), bytes[..consumed], bytes[consumed..]);
      if consumed < |bytes| || !Read(pr, publicKey, buf).Incomplete? {
        ReadStable(pr, publicKey, buf, bytes[consumed..]);
      }
      var message := ConsumePayloadKnownLength(p);
      if message.Err? {
        return Err(message.error);
      }
      r := Ok((message.value, consumed));
    }

    /**
     Feed one chunk.  On success the messages appended and the state left behind are those
     of the one-shot decoder on the leftover followed by the chunk, and a protocol error is
     returned exactly when the one-shot decoder fails, after the same messages.
     */
    method ConsumeMessages(chunk: bytes) returns (r: Result<()>)
      requires Valid() && Bounded()
      modifies this`inbox, this`preamble, this`buf, this`messagePtr, this`payloadPtr
      ensures Bounded() && old(inbox) <= inbox
      ensures r.Err? ==> r.error == InboxOverflow || IsProtocolError(r.error)
      ensures Reflects(old(inbox), Decode(pr, publicKey, old(buf) + chunk), Failure(r))
    {
      hide Read, Decode, Bounded;
      ghost var total := Decode(pr, publicKey, buf + chunk);
      ghost var got: seq<M>;
      r, got := FeedChunk(chunk, total);
      if r.Err? {
        return;
      }
      if |buf| > 0 {
        r, got := DrainBuffer(old(inbox), got, total);
        if r.Err? {
          return;
        }
      } else {
        NothingHeld(got, total);
      }
      r := Ok(());
    }

    lemma NothingHeld(got: seq<M>, total: Decoding<P, M>)
      requires WellBehaved(pr) && Cached() && buf == [] && total == Prepend(got, Decode(pr, publicKey, buf))
      ensures Valid() && total == Decoding(got, Waiting(preamble, buf))
    {
    }

    /** The first loop: take bytes from the chunk until it is used up. */
    method FeedChunk(chunk: bytes, ghost total: Decoding<P, M>) returns (r: Result<()>, ghost got: seq<M>)
      requires Valid() && Bounded()
      requires total == Decode(pr, publicKey, buf + chunk)
      modifies this`inbox, this`preamble, this`buf, this`messagePtr, this`payloadPtr
      ensures Bounded() && inbox == old(inbox) + got
      ensures r.Ok? ==> Cached() && |inbox| <= inboxMaxlen + 1 && total == Prepend(got, Decode(pr, publicKey, buf))
      ensures r.Err? && r.error != InboxOverflow ==> IsProtocolError(r.error) && total == Decoding(got, Failed(r.error))
      ensures r == Err(InboxOverflow) ==> |inbox| > inboxMaxlen && got <= total.messages
    {
      hide Read, Decode, Prepend;
      got := [];
      var offset: nat := 0;
      Split(chunk, 0);
      Nil(inbox);
      PrependNothing(total);
      while true
        invariant offset <= |chunk| && Cached() && Bounded() && inbox == old(inbox) + got
        invariant total == Prepend(got, Decode(pr, publicKey, buf + chunk[offset..]))
        decreases |buf| + |chunk| - offset
      {
        if |inbox| > inboxMaxlen {
          GotSome(got, Decode(pr, publicKey, buf + chunk[offset..]));
          return Err(InboxOverflow), got;
        }
        var step;
        ghost var more;
        step, more := FeedOnce(chunk[offset..], got, total);
        Assoc(old(inbox), got, more);
        got := got + more;
        if step.Err? {
          return Err(step.error), got;
        }
        DropDrop(chunk, offset, step.value);
        offset := offset + step.value;
        if offset == |chunk| {
          Split(chunk, offset);
          Nil(buf);
          break;
        }
      }
      r := Ok(());
    }

    /** One round of the first loop: a preamble if none is held, then at most one payload. */
    method FeedOnce(bytes: bytes, ghost got: seq<M>, ghost total: Decoding<P, M>)
      returns (r: Result<nat>, ghost more: seq<M>)
      requires WellBehaved(pr) && Cached() && Bounded() && |inbox| <= inboxMaxlen
      requires total == Prepend(got, Decode(pr, publicKey, buf + bytes))
      modifies this`inbox, this`preamble, this`buf, this`messagePtr, this`payloadPtr
      ensures Bounded() && inbox == old(inbox) + more && |more| <= 1
      ensures r.Err? ==> IsProtocolError(r.error) && total == Decoding(got + more, Failed(r.error))
      ensures r.Ok? ==>
        && Cached() && r.value <= |bytes|
        && total == Prepend(got + more, Decode(pr, publicKey, buf + bytes[r.value..]))
        && (r.value < |bytes| ==> |buf| + |bytes| - r.value < |old(buf)| + |bytes|)
    {
      hide Read, Decode, Prepend, Bounded;
      more := [];
      Nil(got);
      Nil(inbox);
      ghost var stream := buf + bytes;
      BoundedWhenRoom();
      DecodeStep(pr, publicKey, got, stream, total);
      var step := TakePreamble(bytes);
      BoundedWhenRoom();
      if step.Err? {
        return step, more;
      }
      var offset := step.value;
      Split(bytes, offset);
      Assoc(old(buf), bytes[..offset], bytes[offset..]);
      if offset == |bytes| {
        return Ok(offset), more;
      }
      ghost var held := buf;
      step, more := TakePayload(bytes[offset..]);
      BoundedWhenRoom();
      if step.Err? {
        return step, more;
      }
      var consumed := step.value;
      if more != [] {
        Rejoin(held, bytes, offset, consumed, Read(pr, publicKey, stream).used);
      } else {
        Split(bytes, |bytes|);
        Nil(buf);
      }
      r := Ok(offset + consumed);
    }

    /** Read a preamble unless one is already held. */
    method TakePreamble(bytes: bytes) returns (r: Result<nat>)
      requires WellBehaved(pr) && Cached()
      modifies this`preamble, this`buf, this`messagePtr, this`payloadPtr
      ensures |buf| <= |old(buf)| || |buf| <= pr.preambleSize
      ensures r.Err? ==> Read(pr, publicKey, old(buf) + bytes) == Bad(r.error)
      ensures r.Ok? ==>
        && Cached() && r.value <= |bytes| && buf == old(buf) + bytes[..r.value]
        && (preamble.None? ==> r.value == |bytes| && Read(pr, publicKey, buf) == Incomplete(None))
    {
      hide Read;
      if preamble.Some? {
        Split(bytes, 0);
        Nil(buf);
        return Ok(0);
      }
      var step := ConsumePreamble(bytes);
      if step.Err? {
        return Err(step.error);
      }
      preamble := step.value.0;
      r := Ok(step.value.1);
    }

    /** Read a payload for the preamble held, and queue the message it completes, if any. */
    method TakePayload(bytes: bytes) returns (r: Result<nat>, ghost more: seq<M>)
      requires WellBehaved(pr) && Cached() && preamble.Some?
      modifies this`inbox, this`preamble, this`buf, this`messagePtr, this`payloadPtr
      ensures |buf| <= |old(buf)| || |buf| < pr.preambleSize + pr.maxMessageLen
      ensures inbox == old(inbox) + more
      ensures r.Err? ==> more == [] && Read(pr, publicKey, old(buf) + bytes) == Bad(r.error)
      ensures r.Ok? ==>
        var f := Read(pr, publicKey, old(buf) + bytes);
        && Cached() && r.value <= |bytes|
        && (f.Message? ==>
              && more == [f.m] && f.used <= |old(buf)| + r.value
              && preamble.None? && buf == (old(buf) + bytes[..r.value])[f.used..])
        && (!f.Message? ==>
              && more == [] && r.value == |bytes| && buf == old(buf) + bytes
              && preamble == old(preamble) && f == Incomplete(preamble))
    {
      hide Read;
      more := [];
      Nil(inbox);
      var step := ConsumePayload(preamble.value, bytes);
      if step.Err? {
        preamble := None;
        return Err(step.error), more;
      }
      var (message, consumed) := step.value;
      if message.Some? {
        more := [message.value];
        inbox := inbox + [message.value];
        preamble := None;
      }
      r := Ok(consumed);
    }

    lemma BoundedWhenRoom()
      ensures |inbox| <= inboxMaxlen + 1 && |buf| < pr.preambleSize + pr.maxMessageLen ==> Bounded()
      ensures Bounded() ==> |buf| < pr.preambleSize + pr.maxMessageLen
    {
      if |inbox| <= inboxMaxlen + 1 {
        NotPositive(|inbox| - inboxMaxlen - 1, pr.preambleSize + MIN_BODY);
      }
    }

    /** The second loop: bytes can be buffered faster than messages are parsed, so drain what is held. */
    method DrainBuffer(ghost before: seq<M>, ghost got: seq<M>, ghost total: Decoding<P, M>)
      returns (r: Result<()>, ghost got': seq<M>)
      requires WellBehaved(pr) && Cached() && Bounded() && inbox == before + got && |inbox| <= inboxMaxlen + 1
      requires total == Prepend(got, Decode(pr, publicKey, buf))
      modifies this`inbox, this`preamble, this`buf, this`messagePtr, this`payloadPtr
      ensures Bounded() && inbox == before + got'
      ensures r.Ok? ==> Valid() && total == Decoding(got', Waiting(preamble, buf))
      ensures r.Err? ==> IsProtocolError(r.error) && total == Decoding(got', Failed(r.error))
    {
      hide Read, Decode;
      got' := got;
      ghost var start, held := |inbox|, |buf|;
      while true
        invariant Cached() && inbox == before + got' && |inbox| >= start && |buf| <= held
        invariant (|inbox| - start) * (pr.preambleSize + MIN_BODY) <= held - |buf|
        invariant total == Prepend(got', Decode(pr, publicKey, buf))
        decreases |buf|
      {
        StillBounded(start, held);
        DecodeStep(pr, publicKey, got', buf, total);
        Nil(buf);
        var step := TakePreamble([]);
        if step.Err? {
          return Err(step.error), got';
        }
        if preamble.None? {
          break;
        }
        ghost var more;
        OneMore(|inbox| - start, pr.preambleSize + MIN_BODY);
        step, more := TakePayload([]);
        if step.Err? {
          return Err(step.error), got';
        }
        if preamble.Some? {
          break;
        }
        Assoc(before, got', more);
        got' := got' + more;
      }
      r := Ok(());
    }

    lemma StillBounded(start: nat, held: nat)
      requires start <= inboxMaxlen + 1 && held < pr.preambleSize + pr.maxMessageLen
      requires start <= |inbox| && |buf| <= held
      requires (|inbox| - start) * (pr.preambleSize + MIN_BODY) <= held - |buf|
      ensures Bounded()
    {
      BoundedWhenRoom();
      if |inbox| > inboxMaxlen + 1 {
        Positional.MulMono(|inbox| - inboxMaxlen - 1, |inbox| - start, pr.preambleSize + MIN_BODY);
      }
    }

    /**
     Read the socket until it would block, feeding each chunk.  However the bytes were cut
     into reads, the outcome is that of the one-shot decoder on all of them.
     */
    method RecvBytes(attempts: seq<SocketRead>) returns (r: Result<nat>)
      requires Valid() && Bounded()
      modifies this`inbox, this`preamble, this`buf, this`messagePtr, this`payloadPtr
      ensures Bounded() && old(inbox) <= inbox
      ensures r.Ok? ==> r.value == |Arrived(attempts)|
      ensures Reflects(old(inbox), Decode(pr, publicKey, old(buf) + Arrived(attempts)), StreamFailure(r))
    {
      assert WellBehaved(pr);
      hide Read, Decode, Arrived, Bounded, Prepend, Valid, Reflects, Cached, Yields;
      if |inbox| > inboxMaxlen {
        OverflowAtOnce(Decode(pr, publicKey, buf + Arrived(attempts)));
        return Err(InboxOverflow);
      }
      var i;
      r, i := ReadAttempts(attempts);
      if r.Err? {
        return;
      }
      if i < |attempts| && attempts[i].ReadFailed? {
        return Err(RecvError);
      }
      var socketClosed := i < |attempts| && (attempts[i].Data? || attempts[i].Reset?);
      if socketClosed && r.value == 0 {
        return Err(PermanentlyDrained);
      }
    }

    /** Feed what each attempt yields, up to the first that yields nothing. */
    method ReadAttempts(attempts: seq<SocketRead>) returns (r: Result<nat>, i: nat)
      requires Valid() && Bounded()
      modifies this`inbox, this`preamble, this`buf, this`messagePtr, this`payloadPtr
      ensures Bounded() && old(inbox) <= inbox
      ensures r.Ok? ==> r.value == |Arrived(attempts)| && (i < |attempts| ==> !Yields(attempts[i]))
      ensures r.Err? ==> r.error == InboxOverflow || IsProtocolError(r.error)
      ensures Reflects(old(inbox), Decode(pr, publicKey, old(buf) + Arrived(attempts)), Failure(r))
    {
      assert WellBehaved(pr);
      hide Read, Decode, Arrived, Bounded, Prepend, Valid, Reflects, Cached, IsProtocolError;
      ghost var total := Decode(pr, publicKey, buf + Arrived(attempts));
      ghost var got: seq<M> := [];
      var totalRead := 0;
      i := 0;
      Split(attempts, 0);
      Nil(inbox);
      PrependNothing(total);
      while i < |attempts| && Yields(attempts[i])
        invariant i <= |attempts| && Valid() && Bounded() && inbox == old(inbox) + got
        invariant total == Prepend(got, Decode(pr, publicKey, buf + Arrived(attempts[i..])))
        invariant totalRead + |Arrived(attempts[i..])| == |Arrived(attempts)|
      {
        ArrivedStep(attempts, i);
        var bytes := attempts[i].bytes;
        totalRead := totalRead + |bytes|;
        var step;
        step, got := ReadOne(bytes, old(inbox), got, Arrived(attempts[i + 1..]), total);
        if step.Err? {
          return Err(step.error), i;
        }
        i := i + 1;
      }
      ArrivedDone(attempts, i);
      Nil(buf);
      PrefixMore(old(inbox), got, got);
      SettledDecode(old(inbox), total, got);
      r := Ok(totalRead);
    }

    method ReadOne(bytes: bytes, ghost before: seq<M>, ghost got: seq<M>, ghost rest: bytes,
                   ghost total: Decoding<P, M>)
      returns (r: Result<()>, ghost got': seq<M>)
      requires Valid() && Bounded() && WellBehaved(pr) && inbox == before + got
      requires total == Prepend(got, Decode(pr, publicKey, buf + (bytes + rest)))
      modifies this`inbox, this`preamble, this`buf, this`messagePtr, this`payloadPtr
      ensures Bounded() && before <= inbox
      ensures r.Ok? ==>
        Valid() && inbox == before + got' && total == Prepend(got', Decode(pr, publicKey, buf + rest))
      ensures r.Err? ==>
        (r.error == InboxOverflow || IsProtocolError(r.error)) && Reflects(before, total, Some(r.error))
    {
      hide Read, Decode, Bounded, Prepend, Valid, Reflects, Cached, IsProtocolError;
      ghost var d := Decode(pr, publicKey, buf + bytes);
      RecvStep(pr, publicKey, got, buf, bytes, rest, total);
      r := ConsumeMessages(bytes);
      ReflectsStep(before, got, d, total, Failure(r));
      got' := got + d.messages;
      PrefixMore(before, got', []);
    }

    lemma OverflowAtOnce(total: Decoding<P, M>)
      requires |inbox| > inboxMaxlen
      ensures Reflects(inbox, total, Some(InboxOverflow))
    {
    }

    lemma ReflectsStep(before: seq<M>, got: seq<M>, d: Decoding<P, M>, total: Decoding<P, M>, err: Option<NetError>)
      requires Reflects(before + got, d, err) && got + d.messages <= total.messages
      requires d.end.Failed? ==> total == Decoding(got + d.messages, d.end)
      ensures err.Some? ==> Reflects(before, total, err) && before <= inbox
      ensures err.None? ==>
        Valid() && inbox == before + (got + d.messages) && d.end == Waiting(preamble, buf)
    {
    }

    lemma SettledDecode(before: seq<M>, total: Decoding<P, M>, got: seq<M>)
      requires Valid() && total == Prepend(got, Decode(pr, publicKey, buf)) && inbox == before + got
      ensures Reflects(before, total, None)
    {
    }

    /** Take the oldest message received. */
    method NextMessage() returns (m: Option<M>)
      requires Valid()
      modifies this`inbox
      ensures Valid()
      ensures old(inbox) == [] ==> m == None && inbox == []
      ensures old(inbox) != [] ==> m.Some? && old(inbox) == [m.value] + inbox
    {
      if |inbox| == 0 {
        return None;
      }
      m := Some(inbox[0]);
      inbox := inbox[1..];
    }

    /** A new key applies to payloads not yet read; what is held stays as it is. */
    method SetPublicKey(key: Option<K>)
      requires Valid()
      modifies this`publicKey
      ensures Valid() && publicKey == key
    {
      publicKey := key;
    }
  }

  /** One attempt to read the socket; reading nothing means the other end closed it. */
  datatype SocketRead = Data(bytes: bytes) | WouldBlock | Reset | ReadFailed

  predicate Yields(a: SocketRead) {
    a.Data? && a.bytes != []
  }

  /** The bytes read before the first attempt that yields none. */
  function Arrived(attempts: seq<SocketRead>): (s: bytes)
  {
    if attempts == [] || !Yields(attempts[0]) then [] else attempts[0].bytes + Arrived(attempts[1..])
  }

  /** Trouble with the socket, as opposed to the bytes read from it, leaves their decoding complete. */
  function StreamFailure(r: Result<nat>): (e: Option<NetError>)
  {
    if r.Ok? || r.error.RecvError? || r.error.PermanentlyDrained? then None else Some(r.error)
  }

  lemma ArrivedStep(attempts: seq<SocketRead>, i: nat)
    requires i < |attempts|
    ensures Arrived(attempts[i..]) == if Yields(attempts[i]) then attempts[i].bytes + Arrived(attempts[i + 1..]) else []
  {
  }

  lemma ArrivedDone(attempts: seq<SocketRead>, i: nat)
    requires i <= |attempts| && (i < |attempts| ==> !Yields(attempts[i]))
    ensures Arrived(attempts[i..]) == []
  {
  }

  /** One more read: the one-shot decoder on the rest of the stream carries on from the leftover. */
  lemma RecvStep<P(!new), M(!new), K(!new)>(
    pr: Protocol<P, M, K>, key: Option<K>, got: seq<M>, held: bytes, bytes: bytes, rest: bytes, total: Decoding<P, M>)
    requires WellBehaved(pr) && total == Prepend(got, Decode(pr, key, held + (bytes + rest)))
    ensures var d := Decode(pr, key, held + bytes);
      && got + d.messages <= total.messages
      && (d.end.Waiting? ==> total == Prepend(got + d.messages, Decode(pr, key, d.end.buf + rest)))
      && (d.end.Failed? ==> total == Decoding(got + d.messages, d.end))
  {
    hide Decode;
    Assoc(held, bytes, rest);
    DecodeAppend(pr, key, held + bytes, rest);
    var d := Decode(pr, key, held + bytes);
    if d.end.Waiting? {
      var e := Decode(pr, key, d.end.buf + rest);
      Assoc(got, d.messages, e.messages);
      PrefixMore(got + d.messages, e.messages, []);
    }
  }
}
