# Verified models of the Stacks peer network

Dafny models of the parts of this node where a mistake is easiest to make and hardest to see,
with proofs that hold for every input, every schedule and every reachable state.

* **The framed P2P stream.** `Codec` and `Messages` give the wire grammar as lawful codecs;
  `Inbox` re-frames a stream from arbitrary chunks and agrees with a one-shot decoder;
  `Outbox` writes queued messages through partial reads and writes; `P2P` signs and frames;
  `Session` joins the two ends and proves them a FIFO; `Requests` pairs replies with requests;
  `Conversation` numbers them.
* **Block inventories.** `Bitmap` reads packed bits as sets; `Inv` merges replies; `InvSync`
  makes requests and reads replies; `InvRounds` is the round-based state machine with its run
  invariant; `Rescan` proves that rescans tile the chain and learn the truth.
* **Downloads.** `Scan` finds what to fetch; `Download` sends and polls requests;
  `Downloader` is the state machine, whose runs send no request twice and come to an end.
* **Addresses.** `Positional` is the arithmetic of digit strings; `Base58` and `C32` are the
  two in-place base conversions, proved bijections.
* **Burn operations.** `BurnOps` sorts, filters and partitions the operations of a block.
* **Event ids.** `Poll` is the circular allocator and the event map.

Code that updates things in place is modelled by classes, arrays and loops, each proved
against a specification function; the laws are lemmas about those functions. `Prelude` holds
shared types and a few facts about sequences.

`dafny verify dfyconfig.toml` checks everything.

## Where the code departs from what it says

* `c32_decode` counts leading zeros before it normalizes, so a leading `O` loses a zero byte
  (`C32.LeadingOIsLost`). `C32.DecodeUpToNormalization` gives the exact condition. A comment
  there says the carry holds up to 5 bits; between rounds it holds up to 7.
* The base58 decoder's guard lets byte 128 through to a table of 128 entries. A Rust string
  never presents one first (`Base58.NotContinuation`).
* An address with empty data encodes but does not decode (`C32.AddressRoundTrip`).
* `read_payload` stops where the body ends, which may be short of the announced length; the
  one-shot decoder does the same.
* The assertions that end a merge fail for an empty reply past the end of a bitmap
  (`Inv.MergeAssertsHoldIff`). Only the choice of targets rules that out
  (`InvSync.TargetInRange`), and the run invariant carries it (`InvRounds.InvState.Run`).
* The snapshot stored first claims a sortition at the first block height, but announcements are
  turned into bits one below their height. Announcing it makes the lower bound asserted on
  merges fail (`InvRounds.InitialSnapshotCrashes`); `InvRounds.InvState.SetDataAvailable` and
  `InvRounds.InvState.Run` say exactly when.
* A peer that refuses an inventory request is never judged harmless: the no-operation verdict
  is unreachable (`InvSync.NackVerdicts`).
* Rejected burn operations are kept by transaction id, so two of a kind that share one cannot
  both be accounted for (`BurnOps.AccountedIff`, `BurnOps.SecondOfTwoIsLost`).
  `classify_transaction` makes at most one operation of a transaction, under its own id, so only
  a block that lists two transactions under one id can bring this about.
* Address decoding never looks at the first character, so any other in place of the S is
  accepted as well (`C32.AddressAccepts`).
* Registration takes any event mapped to 0 for a server, but ids start over at 0, so a server
  can be numbered 0 and its sockets then pass for servers (`Poll.HandleZeroMisleads`). This
  does not happen exactly as long as no socket is registered on handle 0
  (`Poll.MarkedIffNoHandleZero`). The id probe never ends once every id is taken
  (`Poll.ProbeEndsIff`).
* The set meant to keep one data URL from being asked twice is never filled, so nothing is
  claimed about repeated URLs.

## Model

| member | source | states |
|---|---|---|
| Base58.From | src/address/b58.rs:45-73 | decoding in a fixed scratch buffer gives the first bad byte or the same number in base 256 with leading ones kept as zero bytes, and no carry is ever left over |
| Base58.MulAdd | src/address/b58.rs:50-64 | one round in place: the buffer holds x * 58 + digit afterwards and the final carry is 0 |
| Base58.ScratchSuffices | src/address/b58.rs:46-47 | 1 + 11n/15 bytes hold every n-digit base58 number, for every n |
| Base58.ReserveSuffices | src/address/b58.rs:98-99 | 1 + 7n/5 base58 digits hold every n-byte number, for every n |
| Base58.EncodedLength | src/address/b58.rs:98-126 | an encoding, leading ones included, never exceeds the reserved capacity |
| Base58.EncodeSlice | src/address/b58.rs:92-132 | encoding digit by digit with carries equals the shortest base58 numeral with one leading one per leading zero byte |
| Base58.NotContinuation | src/address/b58.rs:51-58 | the table index is in range even for the byte value the guard lets through |
| Base58.DecodeEncoded | src/address/b58.rs:92-132 | decoding the encoding of any byte string gives it back, leading zeros included |
| Base58.EncodeDecoded | src/address/b58.rs:45-73 | encoding the decoding of any string over the alphabet gives it back |
| Base58.FromCheck | src/address/b58.rs:76-90 | base58check decoding: bad byte, too short, bad checksum with both checksum words, or the data without its checksum |
| Base58.CheckEncodeSlice | src/address/b58.rs:158-165 | base58check encoding is the encoding of the data followed by four checksum bytes |
| Base58.CheckBijection | src/address/b58.rs:76-165 | base58check accepts a text as given data if and only if the text is the encoding of that data |
| Positional.TranscodeRoundTrip | src/address/b58.rs:45-132 | re-basing a digit string with its leading zeros kept is undone by re-basing back, for any two bases |
| C32.EncodeBits | src/address/c32.rs:29-51 | the bit-carrying loop emits exactly the base-32 digits of the bytes, lowest first, with the carry always within its bit count |
| C32.Encode | src/address/c32.rs:26-72 | encoding is the shortest base-32 numeral with one leading zero per leading zero byte |
| C32.DecodeBits | src/address/c32.rs:106-119 | the loop emits exactly the bytes of the base-32 number, and its carry stays within twelve bits |
| C32.Decode | src/address/c32.rs:84-140 | decoding is an error on a foreign character and otherwise the number in base 256 with leading '0' characters kept as zero bytes |
| C32.DecodeEncoded | src/address/c32.rs:26-140 | decoding the encoding of any byte string gives it back |
| C32.EncodeDecoded | src/address/c32.rs:26-140 | encoding the decoding of any normalized c32 string gives it back |
| C32.DecodeUpToNormalization | src/address/c32.rs:74-140 | decoding agrees with decoding the normalized text if and only if the first character that is not '0' is not an O |
| C32.LeadingOIsLost | src/address/c32.rs:129-136 | a concrete text whose leading O contributes no zero byte |
| C32.CheckEncode | src/address/c32.rs:157-175 | c32check encoding: an error for versions of 32 and more, otherwise version character, data and checksum |
| C32.CheckDecode | src/address/c32.rs:177-215 | c32check decoding with its length, alphabet and checksum errors, the last with both checksum words |
| C32.VersionDecodes | src/address/c32.rs:192-193 | a version character decodes to exactly one byte, so taking the first byte cannot fail |
| C32.CheckBijection | src/address/c32.rs:157-215 | c32check accepts a text as (version, data) if and only if the normalized text is the encoding of them and the data is not empty |
| C32.AddressDecode | src/address/c32.rs:217-223 | address decoding rejects up to five characters and otherwise decodes what follows the first |
| C32.AddressAccepts | src/address/c32.rs:217-223 | a text is accepted as an address of given version and data if and only if, behind any first character at all, it is their encoding up to normalization and the data is not empty |
| C32.Address | src/address/c32.rs:225-228 | an address is S followed by the c32check encoding, and fails exactly for versions of 32 and more |
| C32.AddressRoundTrip | src/address/c32.rs:217-228 | decoding an address gives its version and data back if and only if the data is not empty |
| Codec.PrefixFree | src/net/codec.rs:73-170 | every strict prefix of the encoding of an acceptable value is short, never a value and never malformed |
| Codec.UniqueReading | src/net/codec.rs:73-170 | concatenated encodings can be read in only one way |
| Codec.UIntLawful | src/net/codec.rs:119-138 | big-endian integers invert, are canonical, and need exactly their width |
| Codec.ThenLawful | src/net/codec.rs:73-80 | reading one field and then what it calls for keeps the law: inverts, stable under more input, canonical |
| Codec.VecLawful | src/net/codec.rs:82-117 | a length-prefixed vector within its limits keeps the law |
| Messages.PreambleLawful | src/net/codec.rs:246-303 | the preamble is lawful and of fixed size 141: short below it and decided at it |
| Messages.RelayersLawful | src/net/codec.rs:720-734 | relayer vectors of at most 16 entries are lawful |
| Messages.HandshakeLawful | src/net/codec.rs:597-623 | handshake data, with its length-prefixed URL, is lawful |
| Messages.BlocksInvBounds | src/net/codec.rs:336-350 | a decoded inventory has at most the maximum bit length and bit vectors of exactly the length it calls for |
| Messages.BodyLawful | src/net/codec.rs:808-852 | the body read for each of the fifteen type tags is lawful and carries that tag |
| Messages.PayloadLawful | src/net/codec.rs:779-852 | tag and body together are lawful, so an unknown tag is malformed and no payload is a prefix of another |
| Messages.MessageBodyLawful | src/net/codec.rs:952-956 | relayers followed by payload are invertible and prefix-free within the decoder's limits, for every suffix |
| Messages.MessageBodyAtLeastFive | src/net/codec.rs:275-284 | every body takes at least five bytes and no more than there are |
| Inbox.ReadStable | src/net/connection.rs:416-535 | once the front of a stream is decided, more bytes do not change the decision |
| Inbox.DecodeAppend | src/net/connection.rs:604-710 | decoding a longer stream is decoding the shorter one and carrying on from what it left over; an error is final |
| Inbox.DecodeLeftover | src/net/connection.rs:464-535 | what is left over holds no complete message and is shorter than a preamble and the longest message |
| Inbox.DecodeCount | src/net/connection.rs:604-710 | every message uses up at least a preamble and a minimal body |
| Inbox.ConnectionInbox.constructor | src/net/connection.rs:379-389 | a new inbox is valid, bounded and empty |
| Inbox.ConnectionInbox.BufferPreambleBytes | src/net/connection.rs:393-412 | fills the buffer up to the size of a preamble and reports what it took |
| Inbox.ConnectionInbox.ConsumePreamble | src/net/connection.rs:416-461 | reads the preamble the one-shot decoder reads at the front, or fails as it does, and otherwise has taken every byte |
| Inbox.ConnectionInbox.BufferMessageBytes | src/net/connection.rs:464-487 | buffers no more of a payload than it still needs |
| Inbox.ConnectionInbox.ConsumePayloadKnownLength | src/net/connection.rs:491-535 | parses, refuses or waits exactly as the one-shot decoder does, and keeps the bytes the parser did not use |
| Inbox.ConnectionInbox.ConsumePayload | src/net/connection.rs:581-593 | the same for a payload continued by new bytes |
| Inbox.ConnectionInbox.ConsumeMessages | src/net/connection.rs:604-710 | for every chunk: the messages appended, the error, and the preamble, buffer and cursors left behind are those of the one-shot decoder on leftover plus chunk; buffer and inbox stay bounded; it ends on every input |
| Inbox.ConnectionInbox.RecvBytes | src/net/connection.rs:715-773 | for every way reads are cut, the outcome is that of the one-shot decoder on all bytes read, also when the socket then fails |
| Inbox.ConnectionInbox.NextMessage | src/net/connection.rs:776-778 | takes the oldest message and nothing else |
| Inbox.ConnectionInbox.SetPublicKey | src/net/connection.rs:1132-1134 | a new key leaves the state valid |
| Outbox.ConnectionOutbox.constructor | src/net/connection.rs:787-796 | a new outbox is valid and has sent nothing |
| Outbox.ConnectionOutbox.QueueMessage | src/net/connection.rs:832-844 | queues at the end, or refuses when over length and changes nothing |
| Outbox.ConnectionOutbox.BeginNextMessage | src/net/connection.rs:798-813 | takes the pipe of the head, which always has one, so the panic is unreachable |
| Outbox.ConnectionOutbox.FinishMessage | src/net/connection.rs:815-830 | retires the head, which always exists, keeps what was sent, and makes its request inflight |
| Outbox.ConnectionOutbox.SendBytes | src/net/connection.rs:848-963 | whatever pipes and socket do, bytes written continue those written before in queue order, requests become inflight in queue order once their last byte is out, and the loop ends |
| Outbox.ConnectionOutbox.SentIsPrefix | src/net/connection.rs:848-963 | the bytes sent are always a prefix of the queued messages, and all of them when the outbox is empty |
| P2P.PreambleLimits | src/net/codec.rs:261-303 | what the preamble decoder accepts, field by field |
| P2P.SignedIsDecodable | src/net/codec.rs:908-915 | a signed message whose other parts are in order can be decoded if and only if its body is below the message limit, so cutting its length to 32 bits is harmless |
| P2P.SignedIsAcceptable | src/net/codec.rs:191-243 | with a matching key pair, a receiver that verifies accepts what was signed, exactly below the message limit |
| P2P.CheckRelayerCycles | src/net/chat.rs:885-894 | true if and only if no relayer appears twice |
| P2P.SignRelay | src/net/codec.rs:928-950 | refuses exactly when we are among the latest relayers; otherwise keeps the latest, ends with us, stays within the limit, and makes no cycle where there was none |
| P2P.P2PWellBehaved | src/net/codec.rs:990-1034 | the protocol meets what the inbox asks of a protocol family |
| P2P.ReadFrame | src/net/codec.rs:1005-1034 | a framed message at the front of any stream reads back and uses exactly its frame |
| P2P.DecodeFrames | src/net/codec.rs:1005-1034 | a stream of frames decodes to its messages and leaves nothing over |
| P2P.DecodePrefixOfFrames | src/net/codec.rs:1005-1034 | any prefix of a stream of frames decodes without error to an initial part of the messages |
| Session.Link.Fifo | src/net/connection.rs:604-963 | in every valid state the messages received are an initial part of those submitted, and all of them once the outbox is empty and every byte was read |
| Session.Link.SubmitMessage | src/net/connection.rs:832-844 | submitting keeps the link valid and appends the message unless the outbox is full |
| Session.Link.FlushSender | src/net/connection.rs:848-963 | sending keeps the link valid, whatever the pipes and the socket do |
| Session.Link.DeliverBytes | src/net/connection.rs:715-773 | reading any part of the wire in any pieces keeps the link valid or, with a full inbox, in order; a protocol error never arises |
| Session.Link.TakeMessage | src/net/connection.rs:776-778 | taking a message keeps what was received in order |
| Session.Link.Run | src/net/connection.rs:604-963 | the same over every schedule of submitting, sending, reading and taking |
| Requests.Sequencer.NextSeq | src/net/chat.rs:569-576 | draws the next number of a cycle that skips 2^32 - 1 |
| Requests.Sequencer.Draw | src/net/chat.rs:569-576 | numbers drawn in a row are consecutive on the cycle, across the wrap-around |
| Requests.SeqPeriod | src/net/chat.rs:569-576 | two draws coincide if and only if they are a multiple of 2^32 - 1 apart |
| Conversation.DistinctIff | src/net/chat.rs:569-576 | unanswered requests have distinct numbers if and only if no two were signed a multiple of 2^32 - 1 draws apart |
| Conversation.ConversationP2P.SignMessage | src/net/chat.rs:579-583 | signing draws the next number, even if it fails |
| Conversation.ConversationP2P.SendSignedRequest | src/net/chat.rs:652-662 | a signed message is queued once, with its own number expected in the reply, or dropped if the outbox is full |
| Conversation.ConversationP2P.SendData | src/net/connection.rs:1107-1109 | sending neither adds, drops nor reorders requests, it only moves them from the queue to the unanswered ones |
| Conversation.ConversationP2P.RecentIsDistinct | src/net/chat.rs:569-576 | no two unanswered requests share a number while the counter has not gone around since the oldest of them was signed |
| Conversation.ConversationP2P.TakeReplies | src/net/connection.rs:1025-1046 | in that case exactly the first reply to each unanswered request is delivered, and everything else returned |
| Conversation.ConversationP2P.Run | src/net/chat.rs:569-662 | in every run of signing, sending, relaying, flushing, receiving, pairing and timing out, in whatever order, that case gives distinct numbers, and so do the first 2^32 - 1 signings |
| Requests.NetworkConnection.IsSolicited | src/net/connection.rs:983-995 | true if and only if some inflight request awaits the message |
| Requests.NetworkConnection.FulfillRequest | src/net/connection.rs:999-1021 | gives the message to the first request it answers and removes that one, or gives it back |
| Requests.NetworkConnection.DrainInbox | src/net/connection.rs:1025-1046 | empties the inbox into waiters and a list of unsolicited messages as the reference does |
| Requests.DrainSplitsMessages | src/net/connection.rs:1025-1046 | every message goes to exactly one waiter or is returned, and both kinds keep their order |
| Requests.DrainSplitsWaiters | src/net/connection.rs:1025-1046 | every waiter still waits or got exactly one message, with its sequence number |
| Requests.DrainDistinct | src/net/connection.rs:1025-1046 | with distinct numbers, exactly the first reply to each request is delivered and everything else returned |
| Requests.NetworkConnection.DrainTimeouts | src/net/connection.rs:1050-1078 | removing expired positions from the back is an order-preserving filter, and the count returned is what was removed |
| Bitmap.CompressBools | src/net/codec.rs:362-384 | packed bits read back exactly, in the least number of bytes, with zero padding |
| Bitmap.Extensional | src/net/inv.rs:116-131 | a bitmap is determined by its length and its members |
| Bitmap.MembersOfInserted | src/net/inv.rs:188-203 | setting a bit adds one member and no other |
| Inv.PeerBlocksInv.HasIthBlock | src/net/inv.rs:116-131 | true if and only if the height is a member, also outside the bitmap |
| Inv.PeerBlocksInv.HasIthMicroblockStream | src/net/inv.rs:135-150 | the same for microblock streams |
| Inv.PeerBlocksInv.MergeBlocksInv | src/net/inv.rs:156-213 | the sets become their union with the shifted reply bits below the bit length, the counts are by how much they grew, the closing assertions hold |
| Inv.PeerBlocksInv.MergeAll | src/net/inv.rs:156-213 | counts summed over any sequence of merges are final minus initial set size |
| Inv.PeerBlocksInv.SetBlockBit | src/net/inv.rs:217-220 | adds exactly one block and reports whether it was new |
| Inv.PeerBlocksInv.SetMicroblocksBit | src/net/inv.rs:224-227 | adds exactly one stream and reports whether it was new |
| Inv.MergeDeterministic | src/net/inv.rs:156-213 | a merge has one outcome, down to the bytes |
| Inv.MergesCommute | src/net/inv.rs:156-213 | two merges in either order give the same bytes |
| Inv.MergeIdempotent | src/net/inv.rs:156-213 | merging the same reply again changes nothing |
| Inv.MergeAssertsHoldIff | src/net/inv.rs:209-210 | the closing assertions hold if and only if the reply is not empty or lies within the bitmap |
| InvSync.RequestShape | src/net/inv.rs:743-821 | a request asks for between 1 and the maximum number of blocks from the target, all within our view, by the consensus hash at its top |
| InvSync.RequestWithinTip | src/net/inv.rs:757-801 | a peer is asked about nothing above the tip, or stable tip, we know of it |
| InvSync.TargetInRange | src/net/inv.rs:824-852 | no request targets a height past the sortitions known of the peer, rescans included |
| InvSync.NackVerdicts | src/net/inv.rs:576-640 | when exactly a refusal is judged broken, stale or diverged: broken if and only if its code is another one or the peer agrees with us on every hash at our height; never harmless |
| InvSync.DecodedInBounds | src/net/codec.rs:336-350 | every decoded inventory message indexes within its bit vectors |
| InvRounds.InvState.constructor | src/net/inv.rs:343-368 | a new state is valid and about to begin |
| InvRounds.InvState.AddPeer | src/net/inv.rs:487-489 | adds an empty inventory of its own for the peer |
| InvRounds.InvState.DelPeer | src/net/inv.rs:491-493 | forgets a peer and keeps the invariant in every state |
| InvRounds.InvState.BeginRound | src/net/inv.rs:871-930 | issues at most one request per peer, each at the target its inventory calls for, and adds peers without touching known ones |
| InvRounds.EachSortedOnce | src/net/inv.rs:645-737 | whatever the replies, each request of a round ends up in exactly one of the seven places, so none is lost and none is judged twice |
| InvRounds.InvState.TryFinish | src/net/inv.rs:645-737 | sorts every request by its reply: inventory, pending, dead, broken, stale, diverged or unstable, and is done exactly when none is pending |
| InvRounds.InvState.MergeReplies | src/net/inv.rs:1000-1017 | every reply is merged at its own target, other inventories are untouched, and no merge assertion fires |
| InvRounds.InvState.SetDataAvailable | src/net/inv.rs:499-554 | an announcement crashes if and only if it agrees with us on a snapshot with a sortition at or below the first block and we have statistics of the peer; otherwise it is refused exactly for lack of a sortition, adds exactly the announced bit to exactly one bitmap of exactly that peer, or changes nothing, for an unknown snapshot, hash or peer |
| InvRounds.InvState.Cull | src/net/inv.rs:426-463 | removes exactly the given peers from those synchronized with |
| InvRounds.InvState.AdvanceRescan | src/net/inv.rs:1026-1069 | below the tip the rescan moves one window; at the tip it restarts exactly when every peer that counts is in sync |
| InvRounds.InvState.CloseRound | src/net/inv.rs:1000-1076 | merges, culls, moves the rescan and resets, keeping the invariant |
| InvRounds.InvState.Sync | src/net/inv.rs:969-1084 | one driver call keeps the invariant; a first call asks at the targets; a poll with replies outstanding keeps those that came and changes no inventory, target or rescan height; the last poll merges every reply of the round, moves the rescan and reports the dead and the broken |
| InvRounds.InvState.Run | src/net/inv.rs:969-1084 | every run of rounds, announcements and disconnections keeps the invariant (equal bitmaps covering their sortitions, targets in range, replies in bounds), and crashes exactly at the first announcement of a snapshot without a bit by a peer known at that point |
| InvRounds.InitialSnapshotCrashes | src/net/inv.rs:499-554 | a run of two events that crashes: a round with a peer, which then announces the initial snapshot |
| InvRounds.MergeKeepsSound | src/net/inv.rs:156-213 | a merge at a target in range keeps equal bitmaps that cover the sortitions, empty replies included |
| Rescan.RescanSteps | src/net/inv.rs:1031-1046 | the rescan height after k rounds, and that it reaches the tip after the range divided by the window, rounded up |
| Rescan.WindowsTile | src/net/inv.rs:1031-1046 | every height below the tip lies in the window of exactly one round |
| Rescan.AnswerHonestly | src/chainstate/stacks/db/blocks.rs:1304-1374 | a reply packed from what a peer has is honest and within the decoder's bounds |
| Rescan.RescanRound | src/net/inv.rs:969-1084 | a round below the tip closes once every peer has answered or failed, in any number of polls, and adds exactly what the honest peer has in the window |
| Rescan.FullRescan | src/net/inv.rs:969-1084 | with a fixed view, a full rescan of an honest peer that answers each round at any of its polls ends at the tip after all windows and leaves its inventory as before plus all it has on the range, gaps included |
| Rescan.LearnedTruth | src/net/inv.rs:969-1084 | if only true things were known before, exactly the truth is known on the range after |
| Scan.MakeRequests | src/net/download.rs:655-802 | exactly the sortitions of a batch with something to fetch get a queue, made of one request per neighbor with a URL that carry their height |
| Scan.Look | src/net/download.rs:486-548 | a look finds exactly what is on offer within a batch, cut off at the tip |
| Scan.QueueUp | src/net/download.rs:886-912 | queues exactly the non-empty new offers below the height reached, within the limit, and misses nothing short of it |
| Scan.ScanForBlocks | src/net/download.rs:848-961 | the scan ends, queues at most the allowed number of heights of each kind, keeps what was queued, leaves every queue non-empty with requests for its height, misses nothing that is on offer throughout below the height reached, and starts next time from there |
| Scan.KeysForOk | src/net/download.rs:773-799 | the requests of a sortition are exactly those of neighbors with a URL, for its target at its height, none twice |
| Download.Prioritize | src/net/download.rs:815-822 | every height once, by the number of requests left |
| Download.BeginRequest | src/net/download.rs:1050-1094 | pops requests up to the first that can be sent, or all of them |
| Download.BegunShrinks | src/net/download.rs:1098-1122 | sending uses up at least one request of every queue that has any, so fewer are left |
| Download.PollRequests | src/net/download.rs:345-392 | each request is judged dead, pending, accepted or broken; blamed are exactly the connections of the dead and the broken, and the neighbors of the broken |
| Download.Fetcher.Begin | src/net/download.rs:1098-1122 | at most one request per height is sent, each from its queue and never one sent before; no request opens anew and the queues get shorter |
| Download.Fetcher.TryFinish | src/net/download.rs:342-405 | every request sent has exactly one fate, the peers added to the dead and broken lists are exactly those of the requests so fated, and finishing means none is pending |
| Download.Fetcher.InHandHeaded | src/net/download.rs:1186-1190 | every request pending or in hand carries a child header exactly if it is for microblocks, so the assertion on streams in hand holds |
| Download.Fetcher.Collect | src/net/download.rs:1176-1227 | hands over what was accepted, drops its heights and the queues that ran out, and nothing else |
| Downloader.BlockDownloader.InHandMatches | src/net/download.rs:361-372 | blocks in hand hash to the index hash asked for, and no stream in hand is empty |
| Downloader.BlockDownloader.StartDns | src/net/download.rs:825-1013 | unless blocks are still queued, everything on offer throughout from the heights of the scan to where it gets is queued, within the limits, and the next heights follow from where it got |
| Downloader.BlockDownloader.FinishBlocks | src/net/download.rs:342-405 | waits while a block request is pending and then goes on to microblocks |
| Downloader.BlockDownloader.FinishMicroblocks | src/net/download.rs:415-481 | waits while a microblock request is pending and then is done with the pass |
| Downloader.BlockDownloader.FinishDownloads | src/net/download.rs:1170-1293 | done if and only if no queue is left, and then the next scan starts at the beginning or below the tip; otherwise every queue is non-empty and the scan stays where it is; the assertions on queues and on child headers hold |
| Downloader.BlockDownloader.Step | src/net/download.rs:1304-1399 | one driver call keeps the state valid and does what its state calls for: requests are sent only from the beginning states and never twice between resets, none opens anew, exactly the peers of dead and broken requests are reported, and a throttled call changes nothing and never falls within a run |
| Downloader.BlockDownloader.Wake | src/net/download.rs:1316-1342 | throttled exactly while both kinds of data came up empty and there is no news or not enough time has passed; otherwise idle no more, and if it was, the whole chain is scanned again |
| Downloader.BlockDownloader.RunUntilDone | src/net/download.rs:1304-1399 | over any run of calls, however long replies stay outstanding, at most one pass more is closed than there were requests to try, and no request is sent twice across the whole run, or after having been sent before it, or without having been open when it began |
| Downloader.BlockDownloader.RunToDone | src/net/download.rs:1304-1399 | if each lookup and each request is answered, well or badly, at some later call, the run comes to its end from every state, within that number of passes |
| BurnOps.OpsAreSorted | src/burnchains/burnchain.rs:493-502 | comparing neighbours decides strict order of the whole list |
| BurnOps.SortDistinct | src/burnchains/burnchain.rs:656-668 | sorting gives strictly increasing indexes if and only if they were distinct |
| BurnOps.ApplySafetyChecks | src/burnchains/burnchain.rs:656-675 | crashes if and only if an index repeats or a height differs, and otherwise returns a strictly sorted permutation |
| BurnOps.FilterVrfDups | src/burnchains/burnchain.rs:508-536 | keeps first registrations, in strict order |
| BurnOps.FirstKeysKeeps | src/burnchains/burnchain.rs:508-536 | each key keeps exactly its first registration, and all other operations stay in order |
| BurnOps.LowestKept | src/burnchains/burnchain.rs:508-536 | the registration kept of a key has the lowest index |
| BurnOps.CheckBlockOps | src/burnchains/burnchain.rs:541-563 | whatever the checks decide, the sortedness assertions hold |
| BurnOps.AcceptedSubseq | src/burnchains/burnchain.rs:93-169 | accepted operations are a strictly increasing subsequence of the block with all key registrations and exactly what the distribution drew |
| BurnOps.AccountedIff | src/burnchains/burnchain.rs:103-158 | every commit and user burn is exactly accepted or rejected, for every distribution, if and only if no two of a kind share a transaction id |
| BurnOps.FirstOfTwoIsLost | src/burnchains/burnchain.rs:103-158 | of two commits under one transaction id, neither drawn, the first is neither accepted nor rejected |
| BurnOps.SecondOfTwoIsLost | src/burnchains/burnchain.rs:103-158 | if the first of them is drawn, the second is neither accepted nor rejected |
| BurnOps.FromBlockOps | src/burnchains/burnchain.rs:93-169 | the loops over operations and sample points compute that decision, with all key registrations accepted and everything accounted for when no two of a kind share a transaction id |
| BurnOps.ProcessBlockTxs | src/burnchains/burnchain.rs:680-687 | from raw transactions to a transition: crashes exactly as the safety checks do, and otherwise is the decision on the checked, deduplicated operations, accepting a strictly increasing subsequence with every key registration kept, and accounting for everything else when no two of a kind share a transaction id |
| Poll.ProbeReaches | src/net/poll.rs:206-212 | the probe examines every id below the capacity within capacity steps |
| Poll.ProbeEndsIff | src/net/poll.rs:206-212 | the probe finds a free id if and only if its start or some id below the capacity is free |
| Poll.Pigeonhole | src/net/poll.rs:206-212 | at least capacity minus the ids in use are free |
| Poll.NetworkState.MakeNextEventId | src/net/poll.rs:206-212 | the first free id on the circle, within capacity steps, in neither set |
| Poll.NetworkState.NextEventId | src/net/poll.rs:215-219 | the first unregistered id on the circle from the counter, which moves just past it |
| Poll.NetworkState.Bind | src/net/poll.rs:146-168 | registers a new server at the first free id from the counter, which moves just past it; its assertion holds |
| Poll.NetworkState.Register | src/net/poll.rs:171-188 | what passes the assertions maps an unused event to the handle given and changes nothing else |
| Poll.NetworkState.Deregister | src/net/poll.rs:191-204 | removes exactly one socket's event and keeps every server registered |
| Poll.MarkedIffNoHandleZero | src/net/poll.rs:146-204 | over every run from the start, the assertion on a server handle accepts exactly servers throughout if and only if no call registers a socket on handle 0, and then every socket belongs to a server throughout |
| Poll.HandleZeroMisleads | src/net/poll.rs:171-188 | a run of passing operations after which a socket passes for a server and another belongs to none, so that its next event makes a poll panic |
| Poll.NetworkState.PollOnce | src/net/poll.rs:260-339 | a call goes through if and only if no event stops it, and otherwise fails or panics as its first stopping event says; ids issued are distinct and unregistered, one per accepted connection; readable sockets are reported in order to their servers; no registered socket makes it panic while every socket belongs to a server |

## Left out

- HTTP: streaming payloads of unknown length (`consume_payload_unknown_length`) and the HTTP protocol family.
- Cryptography: signatures, hashes and checksums are parameters; nothing is claimed about them beyond a checksum's length.
- Databases and chain state: BurnDB, StacksChainState, `make_distribution`, `get_consumed_leader_keys` and their error returns are parameters or absent.
- Environment: sockets, pipes, DNS, the poller, threads and clocks are arbitrary answers or parameters; time stamps are kept only where downloads are throttled by them.
- Integer widths: block heights, lengths and counters are unbounded, except the 32-bit payload length and the sequence number, which are modelled as they wrap.
- Text: strings are restricted to ASCII in c32 normalization and to UTF-8 byte sequences in base58.
- Conversations: handshake policy, health scores, bandwidth and message dispatch of `chat.rs`.
- Downloads: the hints from announced blocks.
- Downloader.BlockDownloader.StartDns: the look-ups themselves are not modelled; whether they are over is an answer of the environment.
- Rescan.AnswerHonestly: what a peer has is a parameter, because it is looked up in the chain state.
- Messages.BodyLawful: the bodies of Blocks, Microblocks and Transaction messages are parameters assumed lawful, because their formats belong to the chain state.
- Scan.MakeRequests: whether a sortition's data is wanted and who has it is a parameter, because it is decided by the chain state and the inventories; nothing is claimed about repeated data URLs.
- Requests.NetworkConnection.DrainTimeouts: compares the stored deadline with the time given and assigns no meaning to it, because the comment on the field and the code that fills it disagree.
- InvRounds.InvState.TryFinish: polls into a tally that is then added to the peer sets, so the order in which one call visits its requests is not captured.
- Download.Fetcher.Begin: blocks and microblocks are two objects of one class here, where the source has two sets of fields and two copies of the code.
- InvRounds.InvState.SetDataAvailable: counts an announcement at height 0 among the crashes, because the subtraction of one underflows; what an unchecked build would go on to do is not modelled.
- InvRounds.InvState.Run: takes every view of the burn chain to reach at least the first block, which `get_burnchain_view` checks.
- BurnOps.FromBlockOps: assumes that the distribution draws its points from its inputs, none twice, because `make_distribution` is not modelled.
- Poll.NetworkState.PollOnce: asks for as many free ids as there are connections to accept; with fewer the source does not return.
- Poll.NetworkState.Deregister: is given sockets only, as its stream argument says; what would follow from removing a server's event is not modelled.
- Session.Link.Run: the receiver's key is fixed for the life of a link, because a change of key in mid-stream makes earlier signatures fail.
