/**
 The StacksP2P protocol (src/net/codec.rs): how a message is signed and framed, and how the
 framed stream reads back.  Signing and verification are parameters.
 */
module P2P {
  import opened Prelude
  import opened Codec
  import opened Messages
  import opened Inbox

  const U32_RANGE: nat := 0x1_0000_0000
  const U64_RANGE: nat := 0x1_0000_0000_0000_0000

  /** Signatures as an uninterpreted scheme over a preamble and the bytes of a body. */
  datatype Crypto = Crypto(
    sign: (bytes, Preamble, bytes) -> Option<bytes>,
    verify: (bytes, Preamble, bytes) -> bool)

  // ---- framing ----

  function BodyBytes(ch: Chain, m: StacksMessage): (x: bytes)
  {
    MessageBodyCodec(ch).enc((m.relayers, m.payload))
  }

  /** A message on the wire: preamble, then relayers and payload. */
  function Frame(ch: Chain, m: StacksMessage): (x: bytes)
  {
    PreambleCodec().enc(m.preamble) + BodyBytes(ch, m)
  }

  ghost predicate BodyOk(ch: Chain, m: StacksMessage) {
    MessageBodyCodec(ch).ok((m.relayers, m.payload))
  }

  /** Within the limits of the decoder, and announcing its own length. */
  ghost predicate Decodable(ch: Chain, m: StacksMessage) {
    PreambleCodec().ok(m.preamble) && BodyOk(ch, m) && m.preamble.payloadLen == |BodyBytes(ch, m)|
  }

  // ---- signing ----

  /** do_sign: measure the body, then sign preamble and body. */
  function DoSign(ch: Chain, cr: Crypto, privateKey: bytes, m: StacksMessage): (r: Result<StacksMessage>)
  {
    var body := BodyBytes(ch, m);
    var p := m.preamble.(payloadLen := |body| % U32_RANGE);
    match cr.sign(privateKey, p, body)
    case None => Err(SigningError)
    case Some(sig) => Ok(m.(preamble := p.(signature := sig)))
  }

  lemma DoSignKeeps(ch: Chain, cr: Crypto, privateKey: bytes, m: StacksMessage)
    ensures match DoSign(ch, cr, privateKey, m)
      case Err(e) => e == SigningError
      case Ok(s) => s.payload == m.payload && s.relayers == m.relayers && s.preamble.seqNo == m.preamble.seqNo
  {
  }

  /** The fields of a preamble other than its payload length have their types and order. */
  predicate HeaderOk(p: Preamble) {
    && p.peerVersion < U32_RANGE && p.networkId < U32_RANGE && p.seqNo < U32_RANGE
    && p.burnStableBlockHeight < p.burnBlockHeight < U64_RANGE
    && |p.burnConsensusHash| == |p.burnStableConsensusHash| == 20
    && p.additionalData < U32_RANGE && |p.signature| == 65
  }

  lemma TailFieldsOk(f: (nat, (bytes, (nat, (bytes, nat)))))
    ensures TailFieldsCodec().ok(f) <==>
      f.0 < U64_RANGE && |f.1.0| == 20 && f.1.1.0 < U32_RANGE && |f.1.1.1.0| == 65 && f.1.1.1.1 < U32_RANGE
  {
  }

  lemma FieldsOk(f: PreambleFields)
    ensures FieldsCodec().ok(f) <==>
      && f.0 < U32_RANGE && f.1.0 < U32_RANGE && f.1.1.0 < U32_RANGE && f.1.1.1.0 < U64_RANGE
      && |f.1.1.1.1.0| == 20 && TailFieldsCodec().ok(f.1.1.1.1.1)
  {
  }

  /** What the preamble decoder accepts, field by field. */
  lemma PreambleLimits(p: Preamble)
    ensures PreambleCodec().ok(p) <==> HeaderOk(p) && 5 <= p.payloadLen < MAX_MESSAGE_LEN
  {
    hide FieldsCodec, TailFieldsCodec;
    FieldsOk(FromPreamble(p));
    TailFieldsOk(FromPreamble(p).1.1.1.1.1);
    assert ToPreamble(FromPreamble(p)) == p;
    var fields := Map(FieldsCodec(), ToPreamble, FromPreamble);
    assert fields.ok(p) <==> FieldsCodec().ok(FromPreamble(p));
    assert PreambleCodec().ok(p) <==> fields.ok(p) && PreambleOk(p);
  }

  /**
   A signed message whose other parts are in order is decodable exactly when its body is
   below the message limit, so cutting the length to 32 bits is harmless below that limit.
   */
  lemma SignedIsDecodable(ch: Chain, cr: Crypto, privateKey: bytes, m: StacksMessage)
    requires LawfulChain(ch) && BodyOk(ch, m) && DoSign(ch, cr, privateKey, m).Ok?
    requires HeaderOk(DoSign(ch, cr, privateKey, m).value.preamble)
    ensures Decodable(ch, DoSign(ch, cr, privateKey, m).value) <==> |BodyBytes(ch, m)| < MAX_MESSAGE_LEN
  {
    hide PreambleCodec, MessageBodyCodec, LawfulChain;
    var signed := DoSign(ch, cr, privateKey, m).value;
    BodyReadsBack(ch, m);
    PreambleLimits(signed.preamble);
  }

  lemma BodyReadsBack(ch: Chain, m: StacksMessage)
    requires LawfulChain(ch) && BodyOk(ch, m)
    ensures var body := BodyBytes(ch, m);
      |body| >= 5 && MessageBodyCodec(ch).dec(body) == Got((m.relayers, m.payload), |body|)
  {
    hide MessageBodyCodec;
    var body := BodyBytes(ch, m);
    Nil(body);
    MessageBodyLawful(ch);
    assert MessageBodyCodec(ch).dec(body + []).Got?;
    MessageBodyAtLeastFive(ch, body);
  }

  // ---- relaying ----

  /** No relayer appears twice, by public key hash. */
  predicate NoCycle(relayers: seq<RelayData>) {
    forall i, j :: 0 <= i < j < |relayers| ==> relayers[i].peer.publicKeyHash != relayers[j].peer.publicKeyHash
  }

  method CheckRelayerCycles(relayers: seq<RelayData>) returns (r: bool)
    ensures r <==> NoCycle(relayers)
  {
    var addrs: set<bytes> := {};
    for k := 0 to |relayers|
      invariant forall h: bytes :: h in addrs <==> exists i :: 0 <= i < k && relayers[i].peer.publicKeyHash == h
      invariant NoCycle(relayers[..k])
    {
      if relayers[k].peer.publicKeyHash in addrs {
        return false;
      }
      addrs := addrs + {relayers[k].peer.publicKeyHash};
    }
    assert relayers[..|relayers|] == relayers;
    r := true;
  }

  /** The relayers kept when a new one is added: the latest, leaving room for one. */
  function Latest(relayers: seq<RelayData>): (s: seq<RelayData>)
    ensures |s| < MAX_RELAYERS_LEN
  {
    if |relayers| < MAX_RELAYERS_LEN then relayers else relayers[|relayers| - MAX_RELAYERS_LEN + 1..]
  }

  /**
   Relay a message: the list of relayers never outgrows what a receiver accepts, ends with
   us, and a list without cycles is only ever extended without making one.
   */
  method SignRelay(ch: Chain, cr: Crypto, privateKey: bytes, m: StacksMessage, ourSeq: nat, ourAddr: NeighborAddress)
    returns (r: Result<StacksMessage>)
    ensures r == Err(InvalidMessage) <==>
      exists i :: 0 <= i < |Latest(m.relayers)| && Latest(m.relayers)[i].peer.publicKeyHash == ourAddr.publicKeyHash
    ensures r.Ok? ==>
      && r.value.payload == m.payload && r.value.preamble.seqNo == ourSeq
      && r.value.relayers == Latest(m.relayers) + [RelayData(ourAddr, m.preamble.seqNo)]
      && |r.value.relayers| <= MAX_RELAYERS_LEN
      && (NoCycle(m.relayers) ==> NoCycle(r.value.relayers))
  {
    hide DoSign;
    var relayers := m.relayers;
    while |relayers| >= MAX_RELAYERS_LEN
      invariant Latest(relayers) == Latest(m.relayers)
      invariant NoCycle(m.relayers) ==> NoCycle(relayers)
    {
      relayers := relayers[1..];
    }
    for i := 0 to |relayers|
      invariant forall j :: 0 <= j < i ==> relayers[j].peer.publicKeyHash != ourAddr.publicKeyHash
    {
      if relayers[i].peer.publicKeyHash == ourAddr.publicKeyHash {
        return Err(InvalidMessage);
      }
    }
    var relayed := m.(relayers := relayers + [RelayData(ourAddr, m.preamble.seqNo)],
                      preamble := m.preamble.(seqNo := ourSeq));
    DoSignKeeps(ch, cr, privateKey, relayed);
    r := DoSign(ch, cr, privateKey, relayed);
  }

  // ---- the protocol family ----

  function ReadPreamble(s: bytes): (p: Option<Preamble>)
  {
    match PreambleCodec().dec(s)
    case Got(p, _) => Some(p)
    case _ => None
  }

  /** The parser stops at the end of the body it finds, which may be short of the announced length. */
  function ReadBody(ch: Chain, p: Preamble, x: bytes): (r: Option<(StacksMessage, nat)>)
  {
    match MessageBodyCodec(ch).dec(x)
    case Got(b, used) => Some((StacksMessage(p, b.0, b.1), used))
    case _ => None
  }

  function StacksP2P(ch: Chain, cr: Crypto): (pr: Protocol<Preamble, StacksMessage, bytes>)
  {
    Protocol(PREAMBLE_ENCODED_SIZE, MAX_MESSAGE_LEN, ReadPreamble, (p: Preamble) => p.payloadLen, cr.verify,
             (p: Preamble, x: bytes) => ReadBody(ch, p, x))
  }

  lemma P2PWellBehaved(ch: Chain, cr: Crypto)
    requires LawfulChain(ch)
    ensures WellBehaved(StacksP2P(ch, cr))
  {
    hide MessageBodyCodec, PreambleCodec;
    var pr := StacksP2P(ch, cr);
    forall p, x: bytes | pr.readBody(p, x).Some?
      ensures MIN_BODY <= pr.readBody(p, x).value.1 <= |x|
    {
      MessageBodyAtLeastFive(ch, x);
    }
  }

  // ---- the framed stream reads back ----

  /** Decodable, and carrying a signature the receiver accepts, if it checks at all. */
  ghost predicate Acceptable(ch: Chain, cr: Crypto, key: Option<bytes>, m: StacksMessage) {
    Decodable(ch, m) && (key.Some? ==> cr.verify(key.value, m.preamble, BodyBytes(ch, m)))
  }

  /** Signatures made with one key are accepted with the other, over the preamble they were made for. */
  ghost predicate KeyPair(cr: Crypto, privateKey: bytes, publicKey: bytes) {
    forall p: Preamble, body: bytes {:trigger cr.sign(privateKey, p, body)} ::
      cr.sign(privateKey, p, body).Some? ==>
        cr.verify(publicKey, p.(signature := cr.sign(privateKey, p, body).value), body)
  }

  /** What we sign, a receiver that knows our key accepts, exactly below the message limit. */
  lemma SignedIsAcceptable(ch: Chain, cr: Crypto, privateKey: bytes, publicKey: bytes, m: StacksMessage)
    requires LawfulChain(ch) && KeyPair(cr, privateKey, publicKey) && BodyOk(ch, m)
    requires DoSign(ch, cr, privateKey, m).Ok? && HeaderOk(DoSign(ch, cr, privateKey, m).value.preamble)
    ensures Acceptable(ch, cr, Some(publicKey), DoSign(ch, cr, privateKey, m).value)
       <==> |BodyBytes(ch, m)| < MAX_MESSAGE_LEN
  {
    SignedIsDecodable(ch, cr, privateKey, m);
    hide PreambleCodec, MessageBodyCodec, LawfulChain, Decodable, HeaderOk;
  }

  lemma ReadFrame(ch: Chain, cr: Crypto, key: Option<bytes>, m: StacksMessage, rest: bytes)
    requires LawfulChain(ch) && Acceptable(ch, cr, key, m)
    ensures Read(StacksP2P(ch, cr), key, Frame(ch, m) + rest) == Message(m, |Frame(ch, m)|)
  {
    hide PreambleCodec, MessageBodyCodec;
    var pre, body := PreambleCodec().enc(m.preamble), BodyBytes(ch, m);
    var s := Frame(ch, m) + rest;
    PreambleLimitsKnown(m.preamble);
    BodyReadsBack(ch, m);
    Assoc(pre, body, rest);
    FramePieces(pre, body, rest);
  }

  lemma FramePieces(pre: bytes, body: bytes, rest: bytes)
    ensures var s := pre + (body + rest);
      s[..|pre|] == pre && s[|pre|..|pre| + |body|] == body
  {
  }

  lemma PreambleLimitsKnown(p: Preamble)
    requires PreambleCodec().ok(p)
    ensures |PreambleCodec().enc(p)| == PREAMBLE_ENCODED_SIZE && p.payloadLen < MAX_MESSAGE_LEN
    ensures ReadPreamble(PreambleCodec().enc(p)) == Some(p)
  {
    PreambleSize(p);
    PreambleLawful();
    PreambleLimits(p);
    hide PreambleCodec;
    Nil(PreambleCodec().enc(p));
    assert PreambleCodec().dec(PreambleCodec().enc(p) + []).Got?;
  }

  function Frames(ch: Chain, msgs: seq<StacksMessage>): (s: bytes)
  {
    if msgs == [] then [] else Frame(ch, msgs[0]) + Frames(ch, msgs[1..])
  }

  ghost predicate AllAcceptable(ch: Chain, cr: Crypto, key: Option<bytes>, msgs: seq<StacksMessage>) {
    forall i :: 0 <= i < |msgs| ==> Acceptable(ch, cr, key, msgs[i])
  }

  /** A whole stream of frames decodes to its messages and nothing is left over. */
  lemma {:induction false} DecodeFrames(ch: Chain, cr: Crypto, key: Option<bytes>, msgs: seq<StacksMessage>)
    requires LawfulChain(ch) && WellBehaved(StacksP2P(ch, cr)) && AllAcceptable(ch, cr, key, msgs)
    ensures Decode(StacksP2P(ch, cr), key, Frames(ch, msgs)) == Decoding(msgs, Waiting(None, []))
  {
    hide StacksP2P, Frame, Acceptable, Read, Decode;
    var pr := StacksP2P(ch, cr);
    Unfold(pr, key, Frames(ch, msgs));
    if msgs == [] {
      ReadNothing(ch, cr, key);
    } else {
      var f, rest := Frame(ch, msgs[0]), Frames(ch, msgs[1..]);
      ReadFrame(ch, cr, key, msgs[0], rest);
      DecodeFrames(ch, cr, key, msgs[1..]);
      Slice(f, rest, 0, |f|);
      Split(f, |f|);
      Nil(rest);
      Cons(msgs, []);
    }
  }

  lemma ReadNothing(ch: Chain, cr: Crypto, key: Option<bytes>)
    ensures Read(StacksP2P(ch, cr), key, []) == Incomplete(None)
  {
  }

  /**
   However much of a stream of frames has arrived, its decoding has not failed and is an
   initial part of the messages; all of it once everything has arrived.
   */
  lemma DecodePrefixOfFrames(ch: Chain, cr: Crypto, key: Option<bytes>, msgs: seq<StacksMessage>, s: bytes)
    requires LawfulChain(ch) && WellBehaved(StacksP2P(ch, cr)) && AllAcceptable(ch, cr, key, msgs)
    requires s <= Frames(ch, msgs)
    ensures var d := Decode(StacksP2P(ch, cr), key, s);
      && d.end.Waiting? && d.messages <= msgs
      && (s == Frames(ch, msgs) ==> d.messages == msgs)
  {
    hide StacksP2P, Decode, Frames, WellBehaved, AllAcceptable;
    var all := Frames(ch, msgs);
    Split(all, |s|);
    assert s == all[..|s|];
    DecodeFrames(ch, cr, key, msgs);
    DecodeAppend(StacksP2P(ch, cr), key, s, all[|s|..]);
  }
}
