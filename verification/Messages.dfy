/**
 P2P messages (src/net/codec.rs, types in src/net/mod.rs), as codecs built from the
 combinators of module Codec.

 The bodies of Blocks, Microblocks and Transaction messages are chain-state types whose
 own serialization is not modelled: their codecs, and the test of which byte strings are
 data URLs, are parameters.
 */
module Messages {
  import opened Codec

  const PREAMBLE_ENCODED_SIZE: nat := 141
  const RELAY_DATA_ENCODED_SIZE: nat := 42
  const MAX_RELAYERS_LEN: nat := 16
  const MAX_PAYLOAD_LEN: nat := 1 + 16 * 1024 * 1024
  const MAX_MESSAGE_LEN: nat := MAX_PAYLOAD_LEN + PREAMBLE_ENCODED_SIZE + MAX_RELAYERS_LEN * RELAY_DATA_ENCODED_SIZE
  const MAX_NEIGHBORS_DATA_LEN: nat := 128
  const BLOCKS_AVAILABLE_MAX_LEN: nat := 32
  const BLOCKS_INV_DATA_MAX_BITLEN: nat := 4096
  const MAX_URL_LEN: nat := 128

  datatype Preamble = Preamble(
    peerVersion: nat, networkId: nat, seqNo: nat,
    burnBlockHeight: nat, burnConsensusHash: bytes,
    burnStableBlockHeight: nat, burnStableConsensusHash: bytes,
    additionalData: nat, signature: bytes, payloadLen: nat)

  datatype NeighborAddress = NeighborAddress(addrbytes: bytes, port: nat, publicKeyHash: bytes)

  datatype RelayData = RelayData(peer: NeighborAddress, seqNo: nat)

  datatype HandshakeData = HandshakeData(
    addrbytes: bytes, port: nat, services: nat, nodePublicKey: bytes, expireBlockHeight: nat, dataUrl: bytes)

  datatype BlocksInvData = BlocksInvData(bitlen: nat, blockBitvec: bytes, microblocksBitvec: bytes)

  datatype Payload =
    | Handshake(handshake: HandshakeData)
    | HandshakeAccept(accepted: HandshakeData, heartbeatInterval: nat)
    | HandshakeReject
    | GetNeighbors
    | Neighbors(neighbors: seq<NeighborAddress>)
    | GetBlocksInv(consensusHash: bytes, numBlocks: nat)
    | BlocksInv(inv: BlocksInvData)
    | BlocksAvailable(available: seq<(bytes, bytes)>)
    | MicroblocksAvailable(available: seq<(bytes, bytes)>)
    | Blocks(raw: bytes)
    | Microblocks(raw: bytes)
    | Transaction(raw: bytes)
    | Nack(errorCode: nat)
    | Ping(nonce: nat)
    | Pong(nonce: nat)

  datatype StacksMessage = StacksMessage(preamble: Preamble, relayers: seq<RelayData>, payload: Payload)

  /** What this model does not look into: data URLs and the serialization of chain-state bodies. */
  datatype Chain = Chain(
    isUrl: bytes -> bool, blocks: Codec<bytes>, microblocks: Codec<bytes>, transaction: Codec<bytes>)

  ghost predicate LawfulChain(ch: Chain) {
    Lawful(ch.blocks) && Lawful(ch.microblocks) && Lawful(ch.transaction)
  }

  // ---- vector limits (read_next_vec) ----

  /** At most `max` items, and the decoded vector of `size`-byte items must not outgrow a message. */
  function AtMost(max: nat, size: nat): (allowed: nat -> bool)
  {
    n => n <= max && size * n <= MAX_MESSAGE_LEN
  }

  function Exactly(count: nat, size: nat): (allowed: nat -> bool)
  {
    n => n == count && size * n <= MAX_MESSAGE_LEN
  }

  // ---- preamble ----

  type PreambleFields = (nat, (nat, (nat, (nat, (bytes, (nat, (bytes, (nat, (bytes, nat)))))))))

  function ToPreamble(f: PreambleFields): (p: Preamble)
  {
    var t := f.1.1.1.1.1;
    Preamble(f.0, f.1.0, f.1.1.0, f.1.1.1.0, f.1.1.1.1.0, t.0, t.1.0, t.1.1.0, t.1.1.1.0, t.1.1.1.1)
  }

  function FromPreamble(p: Preamble): (f: PreambleFields)
  {
    (p.peerVersion, (p.networkId, (p.seqNo, (p.burnBlockHeight, (p.burnConsensusHash,
      (p.burnStableBlockHeight, (p.burnStableConsensusHash, (p.additionalData, (p.signature, p.payloadLen)))))))))
  }

  /** The checks of Preamble::consensus_deserialize. */
  predicate PreambleOk(p: Preamble) {
    5 <= p.payloadLen < MAX_MESSAGE_LEN && p.burnBlockHeight > p.burnStableBlockHeight
  }

  function TailFieldsCodec(): (c: Codec<(nat, (bytes, (nat, (bytes, nat))))>)
  {
    Both(UInt(8), Both(Raw(20), Both(UInt(4), Both(Raw(65), UInt(4)))))
  }

  function FieldsCodec(): (c: Codec<PreambleFields>)
  {
    Both(UInt(4), Both(UInt(4), Both(UInt(4), Both(UInt(8), Both(Raw(20), TailFieldsCodec())))))
  }

  function PreambleCodec(): (c: Codec<Preamble>)
  {
    Guard(Map(FieldsCodec(), ToPreamble, FromPreamble), PreambleOk)
  }

  /** Lawful, of fixed size, and never malformed: what each preamble field is. */
  ghost predicate Field<T(!new)>(c: Codec<T>, size: nat) {
    Lawful(c) && Sized(c, size) && forall x: bytes :: !c.dec(x).Malformed?
  }

  lemma UIntField(w: nat)
    ensures Field(UInt(w), w)
  {
    UIntLawful(w);
  }

  lemma RawField(w: nat)
    ensures Field(Raw(w), w)
  {
    RawLawful(w);
  }

  lemma BothField<A(!new), B(!new)>(a: Codec<A>, b: Codec<B>, m: nat, n: nat)
    requires Field(a, m) && Field(b, n)
    ensures Field(Both(a, b), m + n)
  {
    BothLawful(a, b);
    BothSized(a, b, m, n);
  }

  lemma FieldsLawful()
    ensures Field(FieldsCodec(), PREAMBLE_ENCODED_SIZE)
  {
    hide Field, UInt, Raw, Both;
    UIntField(4); UIntField(8); RawField(20); RawField(65);
    BothField(Raw(65), UInt(4), 65, 4);
    BothField(UInt(4), Both(Raw(65), UInt(4)), 4, 69);
    BothField(Raw(20), Both(UInt(4), Both(Raw(65), UInt(4))), 20, 73);
    BothField(UInt(8), Both(Raw(20), Both(UInt(4), Both(Raw(65), UInt(4)))), 8, 93);
    var t := TailFieldsCodec();
    BothField(Raw(20), t, 20, 101);
    BothField(UInt(8), Both(Raw(20), t), 8, 121);
    BothField(UInt(4), Both(UInt(8), Both(Raw(20), t)), 4, 129);
    BothField(UInt(4), Both(UInt(4), Both(UInt(8), Both(Raw(20), t))), 4, 133);
    BothField(UInt(4), Both(UInt(4), Both(UInt(4), Both(UInt(8), Both(Raw(20), t)))), 4, 137);
  }

  /** The preamble format: lawful, 141 bytes, and 141 bytes always decide it. */
  lemma PreambleLawful()
    ensures Lawful(PreambleCodec()) && Sized(PreambleCodec(), PREAMBLE_ENCODED_SIZE)
  {
    FieldsLawful();
    hide FieldsCodec;
    MapLawful(FieldsCodec(), ToPreamble, FromPreamble);
    GuardLawful(Map(FieldsCodec(), ToPreamble, FromPreamble), PreambleOk);
  }

  lemma PreambleSize(p: Preamble)
    requires PreambleCodec().ok(p)
    ensures |PreambleCodec().enc(p)| == PREAMBLE_ENCODED_SIZE
  {
    PreambleLawful();
    hide PreambleCodec;
    var e := PreambleCodec().enc(p);
    assert e + [] == e;
    assert PreambleCodec().dec(e + []) == Got(p, |e|);
  }

  // ---- payload parts ----

  function AddressCodec(): (c: Codec<NeighborAddress>)
  {
    Map(Both(Raw(16), Both(UInt(2), Raw(20))),
        (f: (bytes, (nat, bytes))) => NeighborAddress(f.0, f.1.0, f.1.1),
        (a: NeighborAddress) => (a.addrbytes, (a.port, a.publicKeyHash)))
  }

  lemma AddressLawful()
    ensures Lawful(AddressCodec())
  {
    UIntLawful(2); RawLawful(16); RawLawful(20);
    BothLawful(UInt(2), Raw(20));
    BothLawful(Raw(16), Both(UInt(2), Raw(20)));
    hide UInt, Raw, Both, Lawful;
    MapLawful(Both(Raw(16), Both(UInt(2), Raw(20))),
              (f: (bytes, (nat, bytes))) => NeighborAddress(f.0, f.1.0, f.1.1),
              (a: NeighborAddress) => (a.addrbytes, (a.port, a.publicKeyHash)));
  }

  function RelayCodec(): (c: Codec<RelayData>)
  {
    Map(Both(AddressCodec(), UInt(4)),
        (f: (NeighborAddress, nat)) => RelayData(f.0, f.1),
        (r: RelayData) => (r.peer, r.seqNo))
  }

  function RelayersCodec(): (c: Codec<seq<RelayData>>)
  {
    Vec(RelayCodec(), AtMost(MAX_RELAYERS_LEN, 44))
  }

  lemma RelayersLawful()
    ensures Lawful(RelayersCodec())
  {
    hide AddressCodec, UInt, Both, Lawful;
    AddressLawful(); UIntLawful(4);
    BothLawful(AddressCodec(), UInt(4));
    MapLawful(Both(AddressCodec(), UInt(4)),
              (f: (NeighborAddress, nat)) => RelayData(f.0, f.1),
              (r: RelayData) => (r.peer, r.seqNo));
    VecLawful(RelayCodec(), AtMost(MAX_RELAYERS_LEN, 44));
  }

  function UrlCodec(ch: Chain): (c: Codec<bytes>)
  {
    Guard(Map(Then(Guard(UInt(1), (n: nat) => n <= MAX_URL_LEN), (n: nat) => Raw(n)),
              (p: (nat, bytes)) => p.1,
              (s: bytes) => (|s|, s)),
          ch.isUrl)
  }

  lemma UrlLawful(ch: Chain)
    ensures Lawful(UrlCodec(ch))
  {
    var len := Guard(UInt(1), (n: nat) => n <= MAX_URL_LEN);
    UIntLawful(1);
    GuardLawful(UInt(1), (n: nat) => n <= MAX_URL_LEN);
    forall n: nat ensures Lawful(Raw(n)) { RawLawful(n); }
    hide UInt, Lawful, Guard;
    ThenLawful(len, (n: nat) => Raw(n));
    var both := Then(len, (n: nat) => Raw(n));
    MapLawful(both, (p: (nat, bytes)) => p.1, (s: bytes) => (|s|, s));
    GuardLawful(Map(both, (p: (nat, bytes)) => p.1, (s: bytes) => (|s|, s)), ch.isUrl);
  }

  type HandshakeFields = (bytes, (nat, (nat, (bytes, (nat, bytes)))))

  function HandshakeCodec(ch: Chain): (c: Codec<HandshakeData>)
  {
    Map(Both(Raw(16), Both(UInt(2), Both(UInt(2), Both(Raw(33), Both(UInt(8), UrlCodec(ch)))))),
        (f: HandshakeFields) => HandshakeData(f.0, f.1.0, f.1.1.0, f.1.1.1.0, f.1.1.1.1.0, f.1.1.1.1.1),
        (h: HandshakeData) =>
          (h.addrbytes, (h.port, (h.services, (h.nodePublicKey, (h.expireBlockHeight, h.dataUrl))))))
  }

  lemma HandshakeLawful(ch: Chain)
    ensures Lawful(HandshakeCodec(ch))
  {
    hide Lawful, UrlCodec, Raw, UInt, Both;
    UrlLawful(ch); UIntLawful(2); UIntLawful(8); RawLawful(16); RawLawful(33);
    var url := UrlCodec(ch);
    BothLawful(UInt(8), url);
    BothLawful(Raw(33), Both(UInt(8), url));
    BothLawful(UInt(2), Both(Raw(33), Both(UInt(8), url)));
    BothLawful(UInt(2), Both(UInt(2), Both(Raw(33), Both(UInt(8), url))));
    BothLawful(Raw(16), Both(UInt(2), Both(UInt(2), Both(Raw(33), Both(UInt(8), url)))));
    MapLawful(Both(Raw(16), Both(UInt(2), Both(UInt(2), Both(Raw(33), Both(UInt(8), url))))),
      (f: HandshakeFields) => HandshakeData(f.0, f.1.0, f.1.1.0, f.1.1.1.0, f.1.1.1.1.0, f.1.1.1.1.1),
      (h: HandshakeData) => (h.addrbytes, (h.port, (h.services, (h.nodePublicKey, (h.expireBlockHeight, h.dataUrl))))));
  }

  /** How many bytes hold `bits` bits (BITVEC_LEN). */
  function BitvecLen(bits: nat): (n: nat)
    ensures 8 * n - 7 <= bits <= 8 * n || bits == n == 0
  {
    bits / 8 + if bits % 8 > 0 then 1 else 0
  }

  function BitvecsCodec(bitlen: nat): (c: Codec<(bytes, bytes)>)
  {
    Both(Vec(Raw1(), Exactly(BitvecLen(bitlen), 1)), Vec(Raw1(), Exactly(BitvecLen(bitlen), 1)))
  }

  /** A single byte. */
  function Raw1(): (c: Codec<byte>)
  {
    Codec(
      (b: byte) => [b],
      (x: bytes) => if |x| < 1 then Short else Got(x[0], 1),
      (b: byte) => true)
  }

  lemma Raw1Lawful()
    ensures Lawful(Raw1())
  {
  }

  /** The two bit vectors of an inventory must have exactly the length its bit count calls for. */
  function BlocksInvCodec(): (c: Codec<BlocksInvData>)
  {
    Map(Then(Guard(UInt(2), (n: nat) => n <= BLOCKS_INV_DATA_MAX_BITLEN), BitvecsCodec),
        (f: (nat, (bytes, bytes))) => BlocksInvData(f.0, f.1.0, f.1.1),
        (i: BlocksInvData) => (i.bitlen, (i.blockBitvec, i.microblocksBitvec)))
  }

  lemma BlocksInvLawful()
    ensures Lawful(BlocksInvCodec())
  {
    hide Lawful, UInt, Guard, Both, Vec, Raw1;
    UIntLawful(2);
    var len := Guard(UInt(2), (n: nat) => n <= BLOCKS_INV_DATA_MAX_BITLEN);
    GuardLawful(UInt(2), (n: nat) => n <= BLOCKS_INV_DATA_MAX_BITLEN);
    Raw1Lawful();
    forall n: nat ensures Lawful(BitvecsCodec(n)) {
      var v := Vec(Raw1(), Exactly(BitvecLen(n), 1));
      VecLawful(Raw1(), Exactly(BitvecLen(n), 1));
      BothLawful(v, v);
    }
    ThenLawful(len, BitvecsCodec);
    MapLawful(Then(len, BitvecsCodec),
      (f: (nat, (bytes, bytes))) => BlocksInvData(f.0, f.1.0, f.1.1),
      (i: BlocksInvData) => (i.bitlen, (i.blockBitvec, i.microblocksBitvec)));
  }

  /** What a decoded inventory guarantees to the code that indexes its bit vectors. */
  lemma BlocksInvBounds(x: bytes)
    requires BlocksInvCodec().dec(x).Got?
    ensures var i := BlocksInvCodec().dec(x).value;
      && i.bitlen <= BLOCKS_INV_DATA_MAX_BITLEN
      && |i.blockBitvec| == |i.microblocksBitvec| == BitvecLen(i.bitlen)
  {
    BlocksInvLawful();
  }

  // ---- payloads: a one-byte type tag, then the body it calls for ----

  function IdOf(m: Payload): (id: nat)
    ensures id <= 14
  {
    match m
    case Handshake(_) => 0
    case HandshakeAccept(_, _) => 1
    case HandshakeReject => 2
    case GetNeighbors => 3
    case Neighbors(_) => 4
    case GetBlocksInv(_, _) => 5
    case BlocksInv(_) => 6
    case BlocksAvailable(_) => 7
    case MicroblocksAvailable(_) => 8
    case Blocks(_) => 9
    case Microblocks(_) => 10
    case Transaction(_) => 11
    case Nack(_) => 12
    case Ping(_) => 13
    case Pong(_) => 14
  }

  /** Present a codec for the contents of one kind of payload as a codec for payloads. */
  function Tagged<A>(c: Codec<A>, to: A -> Payload, from: Payload -> A): (d: Codec<Payload>)
  {
    Map(c, to, from)
  }

  function HandshakeOf(m: Payload): (h: HandshakeData)
  {
    match m
    case Handshake(h) => h
    case HandshakeAccept(h, _) => h
    case _ => HandshakeData([], 0, 0, [], 0, [])
  }

  function AcceptOf(m: Payload): (f: (HandshakeData, nat))
  {
    (HandshakeOf(m), if m.HandshakeAccept? then m.heartbeatInterval else 0)
  }

  function RawOf(m: Payload): (x: bytes)
  {
    match m
    case Blocks(x) => x
    case Microblocks(x) => x
    case Transaction(x) => x
    case _ => []
  }

  function AvailableOf(m: Payload): (a: seq<(bytes, bytes)>)
  {
    if m.BlocksAvailable? || m.MicroblocksAvailable? then m.available else []
  }

  function Nothing(m: Payload): (x: bytes)
  {
    []
  }

  function WordOf(m: Payload): (n: nat)
  {
    match m
    case Nack(n) => n
    case Ping(n) => n
    case Pong(n) => n
    case _ => 0
  }

  function NeighborsOf(m: Payload): (a: seq<NeighborAddress>)
  {
    if m.Neighbors? then m.neighbors else []
  }

  function GetInvOf(m: Payload): (f: (bytes, nat))
  {
    if m.GetBlocksInv? then (m.consensusHash, m.numBlocks) else ([], 0)
  }

  function InvOf(m: Payload): (i: BlocksInvData)
  {
    if m.BlocksInv? then m.inv else BlocksInvData(0, [], [])
  }

  function AvailableCodec(): (c: Codec<seq<(bytes, bytes)>>)
  {
    Vec(Both(Raw(20), Raw(32)), AtMost(BLOCKS_AVAILABLE_MAX_LEN, 52))
  }

  function NeighborsCodec(): (c: Codec<seq<NeighborAddress>>)
  {
    Vec(AddressCodec(), AtMost(MAX_NEIGHBORS_DATA_LEN, 38))
  }

  function GetInvCodec(): (c: Codec<(bytes, nat)>)
  {
    Guard(Both(Raw(20), UInt(2)), (f: (bytes, nat)) => f.1 <= BLOCKS_INV_DATA_MAX_BITLEN)
  }

  lemma PartsLawful(ch: Chain)
    requires LawfulChain(ch)
    ensures Lawful(HandshakeCodec(ch)) && Lawful(Both(HandshakeCodec(ch), UInt(4)))
    ensures Lawful(AvailableCodec()) && Lawful(NeighborsCodec()) && Lawful(GetInvCodec())
    ensures Lawful(BlocksInvCodec()) && Lawful(UInt(4)) && Lawful(Raw(0))
  {
    hide Lawful, HandshakeCodec, UInt, Raw, Both, Vec, AddressCodec, Guard, BlocksInvCodec;
    HandshakeLawful(ch); UIntLawful(4); UIntLawful(2); RawLawful(0); RawLawful(20); RawLawful(32);
    BothLawful(HandshakeCodec(ch), UInt(4));
    BothLawful(Raw(20), Raw(32));
    VecLawful(Both(Raw(20), Raw(32)), AtMost(BLOCKS_AVAILABLE_MAX_LEN, 52));
    AddressLawful();
    VecLawful(AddressCodec(), AtMost(MAX_NEIGHBORS_DATA_LEN, 38));
    BothLawful(Raw(20), UInt(2));
    GuardLawful(Both(Raw(20), UInt(2)), (f: (bytes, nat)) => f.1 <= BLOCKS_INV_DATA_MAX_BITLEN);
    BlocksInvLawful();
  }

  function HandshakeBody(ch: Chain): (c: Codec<Payload>)
  {
    Tagged(HandshakeCodec(ch), (h: HandshakeData) => Handshake(h), HandshakeOf)
  }

  function AcceptBody(ch: Chain): (c: Codec<Payload>)
  {
    Tagged(Both(HandshakeCodec(ch), UInt(4)),
           (f: (HandshakeData, nat)) => HandshakeAccept(f.0, f.1), AcceptOf)
  }

  function RejectBody(): (c: Codec<Payload>)
  {
    Tagged(Raw(0), (x: bytes) => HandshakeReject, Nothing)
  }

  function GetNeighborsBody(): (c: Codec<Payload>)
  {
    Tagged(Raw(0), (x: bytes) => GetNeighbors, Nothing)
  }

  function NeighborsBody(): (c: Codec<Payload>)
  {
    Tagged(NeighborsCodec(), (a: seq<NeighborAddress>) => Neighbors(a), NeighborsOf)
  }

  function GetInvBody(): (c: Codec<Payload>)
  {
    Tagged(GetInvCodec(), (f: (bytes, nat)) => GetBlocksInv(f.0, f.1), GetInvOf)
  }

  function InvBody(): (c: Codec<Payload>)
  {
    Tagged(BlocksInvCodec(), (i: BlocksInvData) => BlocksInv(i), InvOf)
  }

  function BlocksAvailableBody(): (c: Codec<Payload>)
  {
    Tagged(AvailableCodec(), (a: seq<(bytes, bytes)>) => BlocksAvailable(a), AvailableOf)
  }

  function MicroblocksAvailableBody(): (c: Codec<Payload>)
  {
    Tagged(AvailableCodec(), (a: seq<(bytes, bytes)>) => MicroblocksAvailable(a), AvailableOf)
  }

  function BlocksBody(ch: Chain): (c: Codec<Payload>)
  {
    Tagged(ch.blocks, (x: bytes) => Blocks(x), RawOf)
  }

  function MicroblocksBody(ch: Chain): (c: Codec<Payload>)
  {
    Tagged(ch.microblocks, (x: bytes) => Microblocks(x), RawOf)
  }

  function TransactionBody(ch: Chain): (c: Codec<Payload>)
  {
    Tagged(ch.transaction, (x: bytes) => Transaction(x), RawOf)
  }

  function NackBody(): (c: Codec<Payload>)
  {
    Tagged(UInt(4), (n: nat) => Nack(n), WordOf)
  }

  function PingBody(): (c: Codec<Payload>)
  {
    Tagged(UInt(4), (n: nat) => Ping(n), WordOf)
  }

  function PongBody(): (c: Codec<Payload>)
  {
    Tagged(UInt(4), (n: nat) => Pong(n), WordOf)
  }

  function BodyCodec(ch: Chain, id: nat): (c: Codec<Payload>)
  {
    match id
    case 0 => HandshakeBody(ch)
    case 1 => AcceptBody(ch)
    case 2 => RejectBody()
    case 3 => GetNeighborsBody()
    case 4 => NeighborsBody()
    case 5 => GetInvBody()
    case 6 => InvBody()
    case 7 => BlocksAvailableBody()
    case 8 => MicroblocksAvailableBody()
    case 9 => BlocksBody(ch)
    case 10 => MicroblocksBody(ch)
    case 11 => TransactionBody(ch)
    case 12 => NackBody()
    case 13 => PingBody()
    case _ => PongBody()
  }

  ghost predicate CarriesTag(c: Codec<Payload>, id: nat) {
    Lawful(c) && forall m :: c.ok(m) ==> IdOf(m) == id
  }

  lemma TaggedLawful<A(!new)>(c: Codec<A>, to: A -> Payload, from: Payload -> A, id: nat)
    requires Lawful(c) && forall v :: c.ok(v) ==> from(to(v)) == v && IdOf(to(v)) == id
    ensures CarriesTag(Tagged(c, to, from), id)
  {
  }

  /** Each case of the dispatch below: what it decodes to carries its own type tag. */
  lemma HandshakeTags(ch: Chain)
    requires Lawful(HandshakeCodec(ch)) && Lawful(Both(HandshakeCodec(ch), UInt(4)))
    ensures CarriesTag(HandshakeBody(ch), 0) && CarriesTag(AcceptBody(ch), 1)
  {
    hide CarriesTag, Tagged, Lawful, HandshakeCodec, Both;
    TaggedLawful(HandshakeCodec(ch), (h: HandshakeData) => Handshake(h), HandshakeOf, 0);
    TaggedLawful(Both(HandshakeCodec(ch), UInt(4)),
                 (f: (HandshakeData, nat)) => HandshakeAccept(f.0, f.1), AcceptOf, 1);
  }

  lemma NeighborTags()
    requires Lawful(NeighborsCodec()) && Lawful(Raw(0))
    ensures CarriesTag(RejectBody(), 2) && CarriesTag(GetNeighborsBody(), 3) && CarriesTag(NeighborsBody(), 4)
  {
    hide CarriesTag, Tagged, Lawful, NeighborsCodec;
    TaggedLawful(Raw(0), (x: bytes) => HandshakeReject, Nothing, 2);
    TaggedLawful(Raw(0), (x: bytes) => GetNeighbors, Nothing, 3);
    TaggedLawful(NeighborsCodec(), (a: seq<NeighborAddress>) => Neighbors(a), NeighborsOf, 4);
  }

  lemma InvTags()
    requires Lawful(GetInvCodec()) && Lawful(BlocksInvCodec())
    ensures CarriesTag(GetInvBody(), 5) && CarriesTag(InvBody(), 6)
  {
    hide CarriesTag, Tagged, Lawful, GetInvCodec, BlocksInvCodec;
    TaggedLawful(GetInvCodec(), (f: (bytes, nat)) => GetBlocksInv(f.0, f.1), GetInvOf, 5);
    TaggedLawful(BlocksInvCodec(), (i: BlocksInvData) => BlocksInv(i), InvOf, 6);
  }

  lemma AvailableTags()
    requires Lawful(AvailableCodec())
    ensures CarriesTag(BlocksAvailableBody(), 7) && CarriesTag(MicroblocksAvailableBody(), 8)
  {
    hide CarriesTag, Tagged, Lawful, AvailableCodec;
    TaggedLawful(AvailableCodec(), (a: seq<(bytes, bytes)>) => BlocksAvailable(a), AvailableOf, 7);
    TaggedLawful(AvailableCodec(), (a: seq<(bytes, bytes)>) => MicroblocksAvailable(a), AvailableOf, 8);
  }

  lemma ChainTags(ch: Chain)
    requires LawfulChain(ch)
    ensures CarriesTag(BlocksBody(ch), 9) && CarriesTag(MicroblocksBody(ch), 10) && CarriesTag(TransactionBody(ch), 11)
  {
    hide CarriesTag, Tagged, Lawful;
    TaggedLawful(ch.blocks, (x: bytes) => Blocks(x), RawOf, 9);
    TaggedLawful(ch.microblocks, (x: bytes) => Microblocks(x), RawOf, 10);
    TaggedLawful(ch.transaction, (x: bytes) => Transaction(x), RawOf, 11);
  }

  lemma NackTag()
    requires Lawful(UInt(4))
    ensures CarriesTag(NackBody(), 12)
  {
    hide CarriesTag, Tagged, Lawful, UInt;
    TaggedLawful(UInt(4), (n: nat) => Nack(n), WordOf, 12);
  }

  lemma PingTags()
    requires Lawful(UInt(4))
    ensures CarriesTag(PingBody(), 13) && CarriesTag(PongBody(), 14)
  {
    hide CarriesTag, Tagged, Lawful, UInt;
    TaggedLawful(UInt(4), (n: nat) => Ping(n), WordOf, 13);
    TaggedLawful(UInt(4), (n: nat) => Pong(n), WordOf, 14);
  }

  lemma BodyLawful(ch: Chain, id: nat)
    requires LawfulChain(ch) && id <= 14
    ensures CarriesTag(BodyCodec(ch, id), id)
  {
    hide CarriesTag, LawfulChain, Lawful, HandshakeBody, AcceptBody, RejectBody, GetNeighborsBody, NeighborsBody,
         GetInvBody, InvBody, BlocksAvailableBody, MicroblocksAvailableBody, BlocksBody, MicroblocksBody,
         TransactionBody, NackBody, PingBody, PongBody;
    PartsLawful(ch);
    HandshakeTags(ch);
    NeighborTags();
    InvTags();
    AvailableTags();
    ChainTags(ch);
    NackTag();
    PingTags();
  }

  function TagCodec(): (c: Codec<nat>)
  {
    Guard(UInt(1), (id: nat) => id <= 14)
  }

  function PayloadCodec(ch: Chain): (c: Codec<Payload>)
  {
    Map(Then(TagCodec(), (id: nat) => BodyCodec(ch, id)),
        (p: (nat, Payload)) => p.1,
        (m: Payload) => (IdOf(m), m))
  }

  lemma PayloadLawful(ch: Chain)
    requires LawfulChain(ch)
    ensures Lawful(PayloadCodec(ch))
  {
    hide Lawful, BodyCodec, UInt, LawfulChain;
    UIntLawful(1);
    GuardLawful(UInt(1), (id: nat) => id <= 14);
    forall id: nat | id <= 14
      ensures CarriesTag(BodyCodec(ch, id), id)
    {
      BodyLawful(ch, id);
    }
    ThenLawful(TagCodec(), (id: nat) => BodyCodec(ch, id));
    MapLawful(Then(TagCodec(), (id: nat) => BodyCodec(ch, id)),
              (p: (nat, Payload)) => p.1,
              (m: Payload) => (IdOf(m), m));
  }

  /** The signed part of a message: relayers, then payload (deserialize_body). */
  function MessageBodyCodec(ch: Chain): (c: Codec<(seq<RelayData>, Payload)>)
  {
    Both(RelayersCodec(), PayloadCodec(ch))
  }

  /**
   The wire grammar is invertible and prefix-free, for every message body within the
   decoder's limits and whatever follows it on the stream.
   */
  lemma MessageBodyLawful(ch: Chain)
    requires LawfulChain(ch)
    ensures Lawful(MessageBodyCodec(ch))
  {
    hide Lawful, RelayersCodec, PayloadCodec;
    RelayersLawful();
    PayloadLawful(ch);
    BothLawful(RelayersCodec(), PayloadCodec(ch));
  }

  /** A body is never shorter than an empty relayer vector and a type tag. */
  lemma MessageBodyAtLeastFive(ch: Chain, x: bytes)
    requires LawfulChain(ch) && MessageBodyCodec(ch).dec(x).Got?
    ensures 5 <= MessageBodyCodec(ch).dec(x).used <= |x|
  {
    RelayersLawful();
    PayloadLawful(ch);
    hide BodyCodec, RelayCodec;
    var n := RelayersCodec().dec(x).used;
    VecAtLeastFour(RelayCodec(), AtMost(MAX_RELAYERS_LEN, 44), x);
    assert PayloadCodec(ch).dec(x[n..]).Got?;
    TagAtLeastOne(ch, x[n..]);
  }

  lemma VecAtLeastFour<T(!new)>(item: Codec<T>, allowed: nat -> bool, x: bytes)
    requires Vec(item, allowed).dec(x).Got?
    ensures Vec(item, allowed).dec(x).used >= 4
  {
  }

  lemma TagAtLeastOne(ch: Chain, x: bytes)
    requires PayloadCodec(ch).dec(x).Got?
    ensures PayloadCodec(ch).dec(x).used >= 1
  {
    hide BodyCodec;
  }
}
