# Shardus network library: verified model

A Dafny model of the Shardus peer-to-peer network library: the Rust side that sends
and receives signed messages over TCP (`shardus_net/`), and the TypeScript side that
correlates responses with requests (`src/`). `dafny verify dfyconfig.toml` checks
everything.

Parts of the source that change something step by step are classes and methods here,
each proved against a specification function; the theorems are about those functions
and about step systems in which the tasks, the network and the clock interleave.

| part | modules |
|---|---|
| Wire formats, both directions | `Bytes`, `Utf8`, `Compression`, `Crypto`, `Messages`, `Headers`, `Framing` |
| The receive loop | `Listener` |
| What a caller sends, and what of it gets through | `Outbound`, `Delivery` |
| Connection caches | `ConnectionCache`, `CacheRecency` |
| The sending tasks as a step system | `SenderProtocol`, `SenderInvariant`, `SenderSteps`, `SenderTheorems`, `SenderRouting`, `SenderProgress`, `SenderPremise` |
| `Connection::send` itself, running under that interference | `ConnectionSend` |
| Sender and receiver composed | `EndToEnd` |
| Requests, timeouts, late responses | `TtlMap`, `Requests`, `RequestTheorems`, `RequestObject` |
| Statistics | `RingBuffer`, `Counters`, `Histogram` |
| Counters and sender composed | `Completions` |

## The sender

A state holds the queue, the evictions asked for, the cache, one task per send, the
connections with their mutex holder and reference count, and one byte stream per socket.
`SenderProtocol.Event` lists the steps: a job is queued or dispatched to a new task, an
eviction is requested or carried out, a task gets its connection's mutex, connects (or is refused),
has some more bytes accepted, fails to write, or ends; and the network breaks a stream. Any
step may follow any other that allows it, so a run is any interleaving. A write is
accepted in portions of any size that never span the length and the body, which are two writes. `sent` and `stream` are history
that the program does not have: the steps never look at them.

`ConnectionSend` writes out `Connection::send` as the program has it, one method per
Rust function, over a `Runtime` object whose state every other task, the evictor and the
dispatcher may change at each point where the method waits. `OthersUndisturb` is the
rely condition that makes this work: it is proved, not assumed.

## The receiver

`Listener.Receive` is the loop over a cursor that holds the peer's bytes. `Delivered` and
`EndingOf` say what it does without a loop: split the stream into frames, stop at the first fatal one, and
keep what the others deliver. A panic (`expect`) and a returned error both end the loop for
that stream, and are told apart in `Ending`.

## Premises

They appear as preconditions, or as the way a state can move:

- A stream that returned a write error keeps failing, and so never accepts the rest of the
  frame. `send` needs this: after a failed retry it leaves the broken stream in its
  connection (shardus_net/src/shardus_net_sender.rs:164-170). `RecoveringStreamWouldCorrupt` reaches such a state and shows
  what a recovering stream would do there. That a failed write leaves only a strict prefix of the
  frame is derived: a write that got all its bytes accepted returned Ok.
- Hashing, signing and verifying are arbitrary functions with one law, that a signature just made verifies (`Crypto.Signs`).
- The codecs are arbitrary functions; decompressing what was compressed gives it back (`Compression.Lossless`). The law is
  needed only when compression is enabled, and the source has it disabled.
- Ids a node sends under come from a UUID generator, so they are fresh and never a name that every JavaScript object inherits. Ids that arrive are arbitrary. The requests of one node and its timers share one clock. A timer runs when it is due or later. Node
  runs a timer after one millisecond when its delay is outside 1 to 2147483647, and the model does too.
- Text is a sequence of bytes that is valid UTF-8, section 4 of RFC 3629.

Lengths below 2^32 and a first byte other than 0x01 are no premises of the codec: the
round-trip lemmas prove that these are exactly the cases in which the formats work.

## Where code and comments differ

- `HEADER_SIZE_LIMIT_IN_BYTES` is commented as 2KB and is 4096 (shardus_net/src/lib.rs:41). The model follows the code.
- Comments in `HeaderV1::serialize` put a string before its length and name the third string `sender_id`
  (shardus_net/src/header/header_v1.rs:35-51). The code writes the length first, and the third string is `verification_data`.
- The deadline gate of `respond` (src/index.ts:383) lets a reply through at the very millisecond of the deadline, at which the
  requester's timer may already have run, and for a timeout longer than Node can keep all through the weeks after that timer
  has run. `GateMeetsDeadlineIff` gives the exact condition, and `OpenAtTheDeadline` and `LongDelayIsOverAtOnce` the runs.
- A message is meant to go to the waiting callback or else to `handleData` (src/index.ts:417-418). The pending map is a plain
  object (src/index.ts:67) and the id comes unchecked from the peer, so for a name that every object inherits, such as "constructor",
  the lookup finds something that has no callback; the call throws, and src/index.ts:470 logs it. Neither callback
  runs. `OneCallIff` says exactly when, and `ConstructorReachesNobody` is the smallest case.
- The ranges of a histogram are read back from text split at hyphens (src/util/Histogram.ts:25), and a printed number holds
  a hyphen when it is negative or positive and below 0.000001. `RangesReadBackIffPlain` gives the exact condition over all
  numbers, and `NegativeBoundIsMisread` and `TinyBoundIsMisread` an input of each kind.
- A set of the expiring map stores a value for a time (src/util/TTLMap.ts:12-21), but the value goes early when an earlier timer for
  the key runs first or when Node cannot keep the delay. `AnswersAlikeIffSafe` gives the exact condition.

## Model

| member | source | states |
|---|---|---|
| Bytes.U32RoundTrip | shardus_net/src/message.rs:59-61 | every 32-bit length survives being written and read, in either byte order |
| Bytes.U32BytesRoundTrip | shardus_net/src/message.rs:93-95 | any four bytes are the encoding of the length they are read as, so no length has two encodings |
| Bytes.ByteOrder | shardus_net/src/message.rs:59-61 | in the formats the first byte is the lowest 8 bits of a length, in the frame the highest |
| Bytes.BlockRoundTripIff | shardus_net/src/message.rs:58-62 | a length-prefixed block is read back, stopping exactly at its end, if and only if the cast to 32 bits kept its length |
| Bytes.BlockInverse | shardus_net/src/message.rs:92-98 | a block that is accepted is the encoding of what was read, followed by what is left |
| Bytes.Cursor.ReadExact | shardus_net/src/message.rs:88-89 | takes n bytes and advances by n, or fails when fewer are left |
| Bytes.Cursor.ReadBlock | shardus_net/src/message.rs:92-98 | the cursor reads exactly what the block parser reads, and leaves what it leaves |
| Compression.FromU32 | shardus_net/src/compression.rs:16-31 | every code above 2 is rejected, and an accepted code is that of the result |
| Compression.WireCodes | shardus_net/src/compression.rs:16-31 | the codes on the wire are 0, 1 and 2, for no compression, gzip and Brotli |
| Compression.Codecs.DecompressUndoesCompress | shardus_net/src/header/header_types.rs:34-51 | with compression on or off, decompressing what was compressed gives the data back |
| Compression.Codecs.CodeNamesDecoder | shardus_net/src/compression.rs:33-73 | what is compressed under a code is for the decoder of that name; with the switch off data pass as they are |
| Utf8.ValidIffEncoded | shardus_net/src/header/header_v1.rs:72-78 | bytes are valid UTF-8 if and only if they are the encoding of some Unicode scalar values |
| Messages.MessageLayout | shardus_net/src/message.rs:52-136 | where each field of an encoded message stands, of whatever lengths, and that the signed part is all up to the owner |
| Messages.ContentRoundTrip | shardus_net/src/message.rs:52-71 | the unsigned part of a message followed by any bytes parses to that part and stops at its end |
| Messages.ContentInverse | shardus_net/src/message.rs:86-106 | the unsigned part of an accepted input re-serialises to the bytes consumed |
| Messages.SignatureRoundTrip | shardus_net/src/message.rs:120-156 | a signature followed by any bytes parses to that signature and stops at its end |
| Messages.SignatureInverse | shardus_net/src/message.rs:138-156 | an accepted signature re-serialises to the bytes consumed |
| Messages.MessageRoundTripIff | shardus_net/src/message.rs:73-112 | deserialising a serialised message followed by any bytes gives that message and stops at its end, if and only if every part's length fits in 32 bits |
| Messages.MessageInverse | shardus_net/src/message.rs:86-112 | every accepted input re-serialises to exactly the bytes consumed |
| Messages.StrictPrefixRejected | shardus_net/src/message.rs:86-112 | no strict prefix of a message's encoding is accepted |
| Messages.UnsignedBytesPrefixFree | shardus_net/src/message.rs:34-71 | the signed bytes determine version, header and data, and none are a prefix of another message's |
| Messages.SerializeSignature | shardus_net/src/message.rs:120-136 | builds the signature encoding of which the round trips speak |
| Messages.DeserializeSignature | shardus_net/src/message.rs:138-156 | accepts, returns and consumes what the signature parser does, failing on the first missing byte |
| Messages.DeserializeMessage | shardus_net/src/message.rs:86-112 | accepts, returns and consumes what the message parser does, failing on the first missing byte |
| Messages.Message.SerializeUnsigned | shardus_net/src/message.rs:52-71 | builds the prefix-free encoding that is signed, and changes nothing |
| Messages.Message.Serialize | shardus_net/src/message.rs:73-84 | builds the encoding of which the message round trip speaks, and changes nothing |
| Messages.Message.SignWith | shardus_net/src/message.rs:34-43 | replaces only the signature, by one over the hash of the unsigned bytes |
| Messages.SignedSurvivesTheWire | shardus_net/src/message.rs:34-50 | a signed message that is serialised, followed by other bytes and deserialised comes back with its content, verifies, and carries a signature that opens to the hash of its own bytes |
| Messages.VerifyIff | shardus_net/src/message.rs:45-50 | a message verifies if and only if its signature opens, under its owner's key, to the hash of its own unsigned bytes, and panics exactly on an owner that is no key |
| Messages.SignatureFitsIff | shardus_net/src/message.rs:34-50 | the signature made for one message verifies another if and only if both have the same hash |
| Messages.SignatureFitsOnlyItsMessage | shardus_net/src/message.rs:34-50 | with a hash that separates the two encodings, that is: if and only if the two messages are the same in version, header and data |
| Headers.HeaderRoundTripIff | shardus_net/src/header/header_v1.rs:26-111 | deserialising a serialised header followed by any bytes gives that header and stops at its end, if and only if its id has 16 bytes and its three strings are UTF-8 with 32-bit lengths |
| Headers.HeaderInverse | shardus_net/src/header/header_v1.rs:60-111 | every accepted input holds three valid strings and a known compression, and re-serialises to exactly the bytes consumed |
| Headers.StrictPrefixRejected | shardus_net/src/header/header_v1.rs:60-111 | no strict prefix of a header's encoding is accepted |
| Headers.HeaderLength | shardus_net/src/header/header_v1.rs:26-57 | the encoding is 36 bytes longer than the three strings together, for a 16-byte id |
| Headers.HeaderLayout | shardus_net/src/header/header_v1.rs:26-57 | where each field of an encoded header stands, and what its compression code is |
| Headers.SetMessageLength | shardus_net/src/header/header_types.rs:22-26 | the length is set and every other field stays |
| Headers.SerializeHeader | shardus_net/src/header/header_v1.rs:26-57 | builds the encoding of which the header round trip speaks |
| Headers.SerializeByVersion | shardus_net/src/header_factory.rs:23-30 | version 1 gives that encoding, and every other version none |
| Headers.ReadUtf8 | shardus_net/src/header/header_v1.rs:72-78 | reads a block that is valid UTF-8, or fails |
| Headers.DeserializeHeader | shardus_net/src/header/header_v1.rs:60-111 | accepts, returns and consumes what the header parser does |
| Framing.ReadLength | shardus_net/src/shardus_net_listener.rs:94-106 | after a length, that many bytes are the payload, and fewer are an unfinished frame |
| Framing.FrameRoundTripIff | shardus_net/src/shardus_net_sender.rs:193-197 | a frame followed by any bytes is read as its payload and those bytes, if and only if the length fits in 32 bits |
| Framing.FrameOfAnyLength | shardus_net/src/shardus_net_sender.rs:193-197 | a frame of a payload of any length at all is read as its first bytes, as many as the low 32 bits of the length, and the others stay on the stream |
| Framing.FrameInverse | shardus_net/src/shardus_net_listener.rs:94-106 | a frame that was read is the frame of its payload |
| Framing.FramePrefixIncomplete | shardus_net/src/shardus_net_listener.rs:94-106 | a strict prefix of a frame is never taken for a frame |
| Framing.SplitRoundTrip | shardus_net/src/shardus_net_listener.rs:94-106 | a stream of frames and an unfinished rest splits into exactly those payloads and that rest |
| Framing.SplitInverse | shardus_net/src/shardus_net_listener.rs:94-106 | any bytes whatever are the frames of the payloads found in them and an unfinished rest |
| Framing.PayloadsMonotone | shardus_net/src/shardus_net_listener.rs:94-106 | more bytes leave the payloads already found as they are, and continue from the unfinished rest |
| Framing.CompleteByIsLongest | shardus_net/src/shardus_net_sender.rs:193-197 | `CompleteBy` counts the longest run of frames that fit in the first k bytes |
| Framing.CutAnywhere | shardus_net/src/shardus_net_listener.rs:94-106 | a stream of frames cut at any byte yields exactly the payloads whose frames end by then |
| Listener.LiveCountIsFirstFatal | shardus_net/src/shardus_net_listener.rs:94-153 | the loop outlives exactly the payloads before the first fatal one |
| Listener.FirstFrame | shardus_net/src/shardus_net_listener.rs:94-153 | after a delivered or skipped frame, the rest is handled as if it were alone; after a fatal one, not at all |
| Listener.SkippedFrameNeverDesynchronises | shardus_net/src/shardus_net_listener.rs:115-134 | a skipped frame anywhere in any stream changes neither what is delivered nor how the loop ends |
| Listener.DeliveredMonotone | shardus_net/src/shardus_net_listener.rs:94-153 | what is delivered from a prefix of any stream is a prefix of what is delivered from the whole, and after a fatal frame nothing more is |
| Listener.EndingIs | shardus_net/src/shardus_net_listener.rs:92-156 | the loop ends with the first fatal frame, or else by what is behind the last whole frame: less than a length, or a length without all of its body |
| Listener.MessageOutcome | shardus_net/src/shardus_net_listener.rs:115-147 | a message is skipped, ends the loop for a reason, or is delivered, each if and only if an explicit condition on its size, version, header bytes, text and opened signature holds |
| Listener.SkippedIff | shardus_net/src/shardus_net_listener.rs:108-134 | for arbitrary bytes, a frame is skipped if and only if it holds a message that is oversize, or whose signature does not open to the hash of its bytes, or whose data are not as long as its header says |
| Listener.FatalIff | shardus_net/src/shardus_net_listener.rs:108-147 | for arbitrary bytes, for which reason a frame ends the loop, if and only if what holds of it |
| Listener.DeliveredIff | shardus_net/src/shardus_net_listener.rs:108-152 | for arbitrary bytes, a frame is delivered as something if and only if it is text without the mark and delivered as itself, or holds a message that is in order and says just that |
| Listener.AlteredIsSkipped | shardus_net/src/shardus_net_listener.rs:115-123 | a message altered after it was signed is skipped, whatever follows it, unless its hash is the same |
| Listener.DeliveryHasOrigin | shardus_net/src/shardus_net_listener.rs:108-152 | a frame is delivered with a header only if it holds a message whose signature opens to the hash of its version, header and data, and that header, the text those data decompress to and that signature are what is delivered; and without one only if the text is the whole unmarked frame |
| Listener.EveryHeaderWasSigned | shardus_net/src/shardus_net_listener.rs:94-153 | so it is for every delivery from arbitrary bytes of a peer, with a frame of the stream for each |
| Listener.ReceiveOne | shardus_net/src/shardus_net_listener.rs:108-152 | the body of the loop, in its order of checks, comes out as specified for every buffer |
| Listener.Receive | shardus_net/src/shardus_net_listener.rs:92-156 | for arbitrary bytes, the loop pushes exactly the deliveries of the frames before the first fatal one, in order, and reports whether it ended with no whole length left, inside a body, or by failing |
| Outbound.FanOutIsOneSendEach | shardus_net/src/shardus_net_sender.rs:64-90 | signing once and fanning out queues the same addresses, bytes and completions, in the same order, as one send per destination |
| Outbound.EveryCompletionQueuedIff | shardus_net/src/shardus_net_sender.rs:85-89 | each completion is queued once and in order, if and only if there are at least as many addresses as completions |
| Outbound.WrapSerializedMessage | shardus_net/src/header_factory.rs:6-11 | the wrapped message is recognised as headered, and unwrapping gives it back |
| Outbound.NetSender.BuildPayload | shardus_net/src/shardus_net_sender.rs:64-70 | builds the payload of which `HeaderedOutcome` and `HeaderArrives` speak, and panics exactly on an unknown version |
| Outbound.NetSender.SendWithHeader | shardus_net/src/shardus_net_sender.rs:64-74 | queues exactly that payload behind all others, or nothing on an unknown version |
| Outbound.NetSender.MultiSendWithHeader | shardus_net/src/shardus_net_sender.rs:77-90 | leaves the queue as one send per pair of address and completion, one after the other, would |
| Delivery.PlainGetsThroughIff | shardus_net/src/shardus_net_listener.rs:108-152 | headerless text is delivered as itself if and only if its first byte is not the header mark |
| Delivery.HeaderedOutcome | shardus_net/src/shardus_net_listener.rs:108-147 | a headered message is delivered with its text, the caller's header field by field with the length of the data on the wire, and the sender's signature when its three strings total at most 4060 bytes, is skipped otherwise, and never ends the loop |
| Delivery.HeaderArrives | shardus_net/src/shardus_net_sender.rs:64-70 | field by field, the header delivered is the caller's, with the length of the data on the wire, and the signature delivered opens under the sender's key to the hash of just that header and those data |
| Delivery.CutStreamDelivers | shardus_net/src/shardus_net_listener.rs:92-156 | of any sequence of messages on one stream cut at any byte, exactly those completely received and getting through are delivered, in order |
| ConnectionCache.HoldsOneConnection | shardus_net/src/shardus_net_sender.rs:210-243 | a cache holds at most one connection for an address |
| ConnectionCache.GetOrInsertEffect | shardus_net/src/shardus_net_sender.rs:210-243 | in either cache, a held connection is handed out and the contents stay; a missing one is added, and only another address's entry may have to go; which one, and that a use makes an entry the newest, is `HoldsTheMostRecent` |
| ConnectionCache.RemoveEffect | shardus_net/src/shardus_net_sender.rs:220-242 | removing takes away the entry for that address, tells whether there was one, and leaves all others |
| ConnectionCache.RunKeepsInv | shardus_net/src/shardus_net_sender.rs:210-243 | over every sequence of uses, an LRU cache stays within its capacity, and every connection handed out is to the address asked for |
| ConnectionCache.LruSharesLikeHashMap | shardus_net/src/shardus_net_sender.rs:215-243 | from like states, with capacity for every address used, both caches hand out the same connections |
| ConnectionCache.FreshLruSharesLikeHashMap | shardus_net/src/shardus_net_sender.rs:215-243 | from empty caches, a capacity of the number of distinct addresses used is enough for that |
| ConnectionCache.SmallLruSharesLess | shardus_net/src/shardus_net_sender.rs:225-238 | at every capacity smaller than the number of distinct addresses: asking for each once and for the first again makes one connection more than the hash map does |
| ConnectionCache.ShareAlikeIffRoom | shardus_net/src/shardus_net_sender.rs:215-243 | from empty, the two caches hand out the same connections over every use of a set of addresses, if and only if the LRU cache has room for all of them |
| CacheRecency.RecencyIsWanted | shardus_net/src/shardus_net_sender.rs:225-242 | the recency list of a history of gets and removes holds just the addresses whose last mention is a get, each once |
| CacheRecency.RecencyIsOrdered | shardus_net/src/shardus_net_sender.rs:225-242 | and holds them by their last use, the latest first |
| CacheRecency.HoldsTheMostRecent | shardus_net/src/shardus_net_sender.rs:225-242 | over every run from empty, the entries of an LRU cache are a beginning of that list, in that order, and without removals as much of it as the capacity holds |
| CacheRecency.HeldIff | shardus_net/src/shardus_net_sender.rs:225-242 | over every run, an address is held if and only if it was asked for, not removed since, and at no moment since that use were capacity others wanted more recently |
| CacheRecency.RecentUseIsShared | shardus_net/src/shardus_net_sender.rs:225-238 | an address asked for again, with fewer than capacity distinct ones asked for since its last use, itself included, gets its connection from the cache, and none is made |
| ConnectionCache.HashMapCache.GetOrInsertConnection | shardus_net/src/shardus_net_sender.rs:215-218 | changes the table as the cache specification says, creating a connection only for a missing address |
| ConnectionCache.HashMapCache.RemoveConnection | shardus_net/src/shardus_net_sender.rs:220-222 | changes the table and returns as the cache specification says |
| ConnectionCache.LruConnectionCache.GetOrInsertConnection | shardus_net/src/shardus_net_sender.rs:225-238 | looking up, which makes an entry the newest, and then putting keeps the cache valid and changes it as the cache specification says |
| ConnectionCache.LruConnectionCache.RemoveConnection | shardus_net/src/shardus_net_sender.rs:240-242 | keeps the cache valid, changes it and returns as the cache specification says |
| SenderSteps.StepKeepsInv | shardus_net/src/shardus_net_sender.rs:98-208 | every step of every task keeps the invariant: references counted, mutexes held by one task, sockets owned by one connection, streams of whole frames and a part, each success on the streams once |
| SenderSteps.RunKeepsInv | shardus_net/src/shardus_net_sender.rs:98-208 | every run keeps that invariant |
| SenderTheorems.OkExactlyOnceErrNever | shardus_net/src/shardus_net_sender.rs:114-197 | in every interleaving, a send that returned Ok has its whole frame on the streams exactly once, and one that failed or is still under way not at all, despite the retry |
| SenderTheorems.OneCopyOneStream | shardus_net/src/shardus_net_sender.rs:148-174 | exactly once means: on one stream once, and on no other |
| SenderTheorems.StreamIsWholeFramesThenOnePart | shardus_net/src/shardus_net_sender.rs:148-208 | in every reachable state, the raw bytes of each stream split into exactly the payloads sent on it, in order, and at most one unfinished frame; on a stream that has not failed, that is the mutex holder's |
| SenderTheorems.OneWriterPerStream | shardus_net/src/shardus_net_sender.rs:148-154 | at most one task at a time is writing to a stream, it holds the connection's mutex, and the stream is open |
| SenderTheorems.StepOnlyAppends | shardus_net/src/shardus_net_sender.rs:193-197 | no step takes back a byte from a stream, or adds one to a stream that has failed |
| SenderTheorems.RunOnlyAppends | shardus_net/src/shardus_net_sender.rs:193-197 | nor does any run |
| SenderTheorems.ShutDownIffUnreferenced | shardus_net/src/shardus_net_sender.rs:200-208 | a stream is shut down only when neither the cache nor any unfinished task holds its connection, and none stays open then |
| SenderTheorems.HealthyStreamTakesByte | shardus_net/src/shardus_net_sender.rs:193-197 | a task that writes to a stream that has not failed can write the next byte of its frame |
| SenderTheorems.WorkCanGoOn | shardus_net/src/shardus_net_sender.rs:98-174 | while any work is left, some task can take a step that is no failure unless its stream has failed already: the mutexes never deadlock, and nothing waits for the network to go wrong |
| SenderTheorems.FramesAreSuccesses | shardus_net/src/shardus_net_sender.rs:114-197 | for any property of sends, the completed frames with it over all streams are as many as the successful sends with it |
| SenderTheorems.PayloadsConserved | shardus_net/src/shardus_net_sender.rs:114-197 | a payload is found in the raw bytes of all streams together exactly as often as a send of it returned Ok |
| SenderRouting.EvictionRemoves | shardus_net/src/shardus_net_sender.rs:98-112 | in every reachable state, carrying out an eviction takes the entry for its address out of the cache, and no other entry |
| SenderRouting.DispatchUsesCache | shardus_net/src/shardus_net_sender.rs:114-133 | a dispatched send gets the connection that the cache holds for its address, or else a new one with that address and no socket, which the cache then holds |
| SenderRouting.EvictedIsReplaced | shardus_net/src/shardus_net_sender.rs:98-133 | a send to an address just evicted gets a new connection |
| SenderRouting.EverySendIsTakenUp | shardus_net/src/shardus_net_sender.rs:114-133 | in every reachable state, the sends queued so far are those that have a task and then those still in the queue, each once and in order |
| SenderRouting.EvictionsKeepOrder | shardus_net/src/shardus_net_sender.rs:98-112 | evictions are carried out in the order asked for, each once |
| SenderRouting.EverySendHasItsAddress | shardus_net/src/shardus_net_sender.rs:114-133 | in every reachable state, every send has a connection to its own address |
| SenderRouting.FramesReachTheirAddress | shardus_net/src/shardus_net_sender.rs:148-197 | every whole frame on a stream was sent, with Ok, by a send to the address of that stream's connection |
| SenderRouting.EverySendKeepsToItsCourse | shardus_net/src/shardus_net_sender.rs:148-197 | over the events of every run: a send takes the mutex once, connects when there is no stream and again after its first failed write, never writes a third time, and reports one result once, which is the one its failures call for |
| SenderRouting.NetworkDecides | shardus_net/src/shardus_net_sender.rs:176-197 | at any time the network may refuse or accept a connection, fail a write, break a stream, and accept any portion of the length or of the body |
| SenderRouting.BrokenTakesNothing | shardus_net/src/shardus_net_sender.rs:193-197 | a stream that the network breaks takes no more bytes, and nothing else changes with it |
| SenderProgress.ProgressDoesWork | shardus_net/src/shardus_net_sender.rs:114-174 | every step of the program lowers a measure of the work left, retries and partial writes included |
| SenderProgress.EverySendSettles | shardus_net/src/shardus_net_sender.rs:114-174 | without new requests, every run holds a bounded number of steps of the program, however often the network breaks streams between them, and the program can go on until the queues are empty and every task has ended |
| SenderPremise.RecoveringStreamWouldCorrupt | shardus_net/src/shardus_net_sender.rs:160-171 | a reachable state from which, if the failed stream recovered, a send would return Ok and its payload would not be found |
| ConnectionSend.OthersUndisturb | shardus_net/src/shardus_net_sender.rs:98-149 | while a task holds its mutex, no step of any other task, the evictor or the dispatcher changes its phase, mutex or socket, or touches its stream's bytes |
| ConnectionSend.ConnectAndSetSocketIfNone | shardus_net/src/shardus_net_sender.rs:176-191 | under interference: leaves the task ready to write to an open socket, or returned with a connection failure and no socket set |
| ConnectionSend.WriteAll | shardus_net/src/shardus_net_sender.rs:193-197 | under interference, for any partial writes: the whole buffer is accepted, or the attempt has failed |
| ConnectionSend.WriteDataToStream | shardus_net/src/shardus_net_sender.rs:193-197 | the length and the body are accepted and the task succeeds, or the first attempt moves to the retry and the second to failure |
| ConnectionSend.Send | shardus_net/src/shardus_net_sender.rs:148-174 | under any interference and any network, its result is the one the step system gives the task, and the frame is on the streams once for Ok and not at all for an error |
| EndToEnd.StreamDelivers | shardus_net/src/shardus_net_listener.rs:92-156 | for any stream of any run of the sender, cut at any byte, the receiver delivers exactly the completely received messages that get through, in stream order, and its loop is alive |
| EndToEnd.DeliveredExactlyOnce | shardus_net/src/shardus_net_sender.rs:114-197 | once every stream of a run has been received whole, something has been delivered over all of them exactly as often as a send of it returned Ok and gets through |
| TtlMap.SetKeeps | src/util/TTLMap.ts:12-21 | setting a key with no earlier timer keeps one pending timer for each stored entry, and for a delay that Node can keep one due no earlier than the entry expires |
| TtlMap.GetKeeps | src/util/TTLMap.ts:23-30 | so does reading |
| TtlMap.DeleteKeeps | src/util/TTLMap.ts:32-38 | so does deleting |
| TtlMap.FireKeeps | src/util/TTLMap.ts:12-21 | so does the expiry callback, which runs at most once per set and never for a cleared timer |
| TtlMap.PossibleKeepsInv | src/util/TTLMap.ts:12-38 | whatever happens, every stored entry has its own timer pending, and no timer runs twice or after it was cleared |
| TtlMap.StepAgrees | src/util/TTLMap.ts:12-38 | every event but an unsafe set keeps the timed map and a plain map with expiry times in agreement |
| TtlMap.TimedMapIsPlainMap | src/util/TTLMap.ts:12-38 | over any run of safe sets, `get` answers with the value if and only if it was set, not deleted since, and now is before its expiry; a set is safe when its delay is at most 2147483647 and no earlier timer for its key is due before its expiry |
| TtlMap.FreshTimedMapIsPlainMap | src/util/TTLMap.ts:10-38 | so it does over any run of safe sets on a new map |
| TtlMap.FiredIsExpired | src/util/TTLMap.ts:12-21 | what a due timer removes had already expired |
| TtlMap.AnswersAlikeIffSafe | src/util/TTLMap.ts:12-30 | after a set, the map answers as the plain one over every run of safe sets if and only if that set was safe |
| TtlMap.FoundIffSafe | src/util/TTLMap.ts:12-30 | in any map, a value set is found at every time before its expiry, whatever happens to other keys, if and only if Node can keep its delay and no earlier timer for its key is due before |
| TtlMap.DeletedNeverFires | src/util/TTLMap.ts:32-38 | in no run afterwards, safe sets or not, does the timer of an entry that was deleted while stored fire |
| TtlMap.NoTimerFiresTwice | src/util/TTLMap.ts:12-21 | over the events of any run, no timer fires twice |
| TtlMap.GetEffect | src/util/TTLMap.ts:23-30 | reading drops the key unless it is live, and touches no other key and no timer |
| TtlMap.DeleteEffect | src/util/TTLMap.ts:32-38 | deleting drops the key and the timer of its entry, and touches no other key or timer |
| TtlMap.TTLMap.Put | src/util/TTLMap.ts:12-21 | the object stores the entry with its expiry and a new timer, as specified |
| TtlMap.TTLMap.Get | src/util/TTLMap.ts:23-30 | the object answers as specified, and drops an expired entry but not its timer |
| TtlMap.TTLMap.Remove | src/util/TTLMap.ts:32-38 | the object drops the entry and clears its timer, as specified |
| TtlMap.TTLMap.Expire | src/util/TTLMap.ts:12-21 | the callback gets the key and value that were set, and drops the entry as specified |
| Requests.StepKeepsInv | src/index.ts:131-233 | every event keeps the invariant, also when callbacks send again or the native send throws: a timer is pending if and only if its id is in the pending map |
| Requests.RunKeepsInv | src/index.ts:131-233 | every run keeps it |
| RequestTheorems.SettledExactlyOnce | src/index.ts:159-231 | over the events of every run, onResponse and onTimeout together run once for a request that was sent with a timeout other than 0, did not throw and has no timer pending any more, and for any other id not at all |
| RequestTheorems.SendTakesEffect | src/index.ts:186-231 | in any state, a send with a timeout other than 0 that does not throw adds its pending entry and a timer due after its delay, and any other send adds neither |
| RequestTheorems.NoReplyNoTimer | src/index.ts:186-231 | a send of a run, made in a callback or not, that has timeout 0 or throws is never pending, never has a timer and is never settled |
| RequestTheorems.ReplyExpectedIsPending | src/index.ts:194-231 | every other one is pending with its timer right after the event in which it was made |
| RequestTheorems.OverdueCanTimeOut | src/index.ts:195-219 | in every reachable state a request that awaits its reply has a timer pending, due when its delay is over, and once due it can run, calls onTimeout and settles the request |
| RequestTheorems.NeverInBothMaps | src/index.ts:196-218 | an id is never pending and known as timed out at once |
| RequestTheorems.OneCallIff | src/index.ts:417-439 | for every state and id, a message causes exactly one call if and only if its id is pending or is not an inherited name; otherwise it throws and changes nothing |
| RequestTheorems.ConstructorReachesNobody | src/index.ts:417-427 | a message with the id "constructor" reaches neither a callback nor handleData of a node that has just started |
| RequestTheorems.EveryMessageGoesOneWay | src/index.ts:417-439 | in every reachable state, a message whose id is not an inherited name causes one call: of the waiting callback exactly when its request was neither answered nor timed out, and of handleData otherwise, as late exactly when the request timed out less than a minute ago and was not recognised as late before |
| RequestTheorems.AtMostOneReplyReachesCallback | src/index.ts:419-427 | of all the replies to one request at most one reaches its callback |
| RequestTheorems.MessageLeavesNothing | src/index.ts:417-439 | after a message for an id nothing is known of a timeout of that id any more |
| RequestTheorems.EventIsRecorded | src/index.ts:159-231 | in any state, what an event adds to the history of sends, timeouts and callbacks is what happened and when |
| RequestTheorems.LateIffTimedOutRecently | src/index.ts:430-436 | a message is recognised as late if and only if its id timed out less than a minute ago and none was recognised before |
| RequestTheorems.EveryTimeoutEndsOnce | src/index.ts:202-217 | for an id that timed out, exactly one of these: it was recognised as late once, onExpiry ran once, or its expiry timer is pending; and for any other id none |
| RequestTheorems.NoEarlyTimeout | src/index.ts:196-219 | before its delay is over, a request is waiting or answered |
| RequestTheorems.GateMeetsDeadlineIff | src/index.ts:380-386 | with one clock and any timeout but 0, a reply that the deadline gate lets through is sure to be sent while the request waits or is answered, if and only if it is sent before the delay that Node applies is over: before the deadline for a timeout up to 2147483647, at the moment of the request for a longer one |
| RequestTheorems.AlwaysInTimeIff | src/index.ts:194-230 | so it is for any reply, whether the gate is open or not |
| RequestTheorems.GateIsRightButAtTheDeadline | src/index.ts:380-386 | for a timeout that Node can keep, the gate is open if and only if a reply is sure to be in time, and besides at the very deadline |
| RequestTheorems.OpenAtTheDeadline | src/index.ts:383-386 | at the very deadline the gate is open in a reachable state in which the request has timed out |
| RequestTheorems.LongDelayIsOverAtOnce | src/index.ts:195-219 | a timeout above 2147483647 ms is reached after one millisecond, with the gate still open for at least 2147483646 more |
| RequestTheorems.EveryStepFollowsLifecycle | src/index.ts:196-230 | every event moves every id only along: unsent, waiting, answered or timed out, and then late-answered or lapsed |
| RequestObject.Sn.SendAug | src/index.ts:194-231 | the object sets the timer and the pending entry after the native send, and neither when it throws or no response is expected |
| RequestObject.Sn.TimeoutTimer | src/index.ts:196-219 | the timer's callback, with what the caller sends from it, is one step of the system |
| RequestObject.Sn.ExtractUUIDHandleData | src/index.ts:417-439 | an incoming message, with what its callback sends, is one step of the system, and throws exactly when its id is an inherited name that is not pending |
| RequestObject.Sn.ExpiryTimer | src/index.ts:205-209 | an expiry timer is one step of the system |
| RingBuffer.PutAbbreviates | shardus_net/src/ring_buffer.rs:24-45 | every write is in range, and the buffer remains the last values put, rotated, with the extremes of all |
| RingBuffer.ContentsAreLast | shardus_net/src/ring_buffer.rs:24-45 | the contents are, with multiplicity, the last values put, as many as fit |
| RingBuffer.StatsAgreeWithHistory | shardus_net/src/ring_buffer.rs:47-65 | total, min, max and count are those of the last values, the long-term extremes those of all values: each extreme is one of its values and bounds the others, and with no values all are 0 |
| RingBuffer.SumIsTotal | shardus_net/src/ring_buffer.rs:47-65 | the total starts at zero and each value adds itself |
| RingBuffer.RingBuffer.Put | shardus_net/src/ring_buffer.rs:24-45 | the object abbreviates its history with the new value added |
| RingBuffer.RingBuffer.GetStats | shardus_net/src/ring_buffer.rs:47-65 | returns the statistics of the history, and changes nothing |
| Counters.NoLeakIff | shardus_net/src/lib.rs:311-387 | a call leaves nothing in the counter for good if and only if all parsed, every port got a host that resolved, and completion is awaited, or there are no ports |
| Counters.LeakIs | shardus_net/src/lib.rs:168-390 | how much a call of each kind leaves in the counter for good |
| Counters.StepKeepsInv | shardus_net/src/lib.rs:108-125 | every call, completion, report and message keeps both counters in balance, modulo their width |
| Counters.RunKeepsInv | shardus_net/src/lib.rs:108-125 | so does every run |
| Counters.CountersConserve | shardus_net/src/lib.rs:168-387 | over every run, outstanding sends are the awaited ones not yet reported plus those that never will be, and outstanding receives the messages taken and not yet handed on |
| Counters.BalanceOfEvents | shardus_net/src/lib.rs:108-390 | over the events of every run, the counter of sends is what the calls added less one for each report, and that of receives the messages taken less those handed on |
| Counters.ReportsNeverUnderflow | shardus_net/src/stats.rs:40-43 | when a completion is reported the counter is positive, goes down by one, and that value is what is recorded |
| Counters.HandsNeverUnderflow | shardus_net/src/stats.rs:45-48 | when a message is handed to JavaScript the counter is positive and goes down by one |
| Counters.QuiescentCounterIsLeak | shardus_net/src/lib.rs:311-387 | once everything awaited is reported, what is left in the counter is what the calls left behind for good |
| SenderRouting.SendingKeepsJobs | shardus_net/src/shardus_net_sender.rs:98-133 | a step of the sending side neither loses nor reorders a queued send, adds one only when it is queued, and ends one exactly when it reports it |
| Completions.StepKeepsJointInv | shardus_net/src/lib.rs:168-390 | every step keeps queued sends and completion receivers matched one to one, a receiver waiting exactly while its send has not ended |
| Completions.MultiSendIsOneCall | shardus_net/src/lib.rs:279-390 | a multi-send in which all parses queues, awaited or not, one job for each pair of address and completion, in order |
| Completions.ThrowsQueueNothing | shardus_net/src/lib.rs:168-390 | a call that throws queues nothing |
| Completions.EveryResultIsAwaited | shardus_net/src/shardus_net_sender.rs:124-127 | in every run, a send's result goes to a receiver that waits and has had no result: each completion is reported at most once |
| Completions.NoWorkNoneInFlight | shardus_net/src/shardus_net_sender.rs:114-133 | when the sender has no work left, every queued send has been reported |
| Completions.EveryCallIsAccountedFor | shardus_net/src/lib.rs:168-390 | after the last call every run holds a bounded number of steps of the program and can go on while a send or a report is left; then the counter of outstanding sends is exactly what the calls left behind for good |
| Counters.Stats.DecrementOutstandingSends | shardus_net/src/stats.rs:40-43 | the atomic goes down by one, wrapping, and its new value is put into the ring buffer |
| Counters.Stats.DecrementOutstandingReceives | shardus_net/src/stats.rs:45-48 | likewise for receives |
| Counters.Native.SendCall | shardus_net/src/lib.rs:168-215 | counts first, and throws on a bad address; as a whole one step of the counter system |
| Counters.Native.SendWithHeaderCall | shardus_net/src/lib.rs:217-277 | counts first, and throws on a header that does not parse or a bad address; as a whole one step |
| Counters.Native.MultiSendCall | shardus_net/src/lib.rs:279-390 | counts every port before it can throw, sets up a receiver for every host, and queues all pairs or none; as a whole one step |
| Counters.Native.ReportCompletion | shardus_net/src/lib.rs:187-190 | a completion that reaches JavaScript is one step |
| Counters.Native.TakeMessage | shardus_net/src/lib.rs:108-113 | a message taken from the channel is one step |
| Counters.Native.HandMessage | shardus_net/src/lib.rs:117-125 | a message that reaches JavaScript is one step |
| Histogram.FirstMatch | src/util/Histogram.ts:24-31 | the bucket that takes a value is the first, in order of insertion, whose parsed range does |
| Histogram.SetCountOnMap | src/util/Histogram.ts:28 | setting a key of the ordered map changes that entry in place, or adds one at the end, and keeps keys distinct |
| Histogram.RangesReadBackIffPlain | src/util/Histogram.ts:15-31 | for ascending bounds, every value whatever goes to the bucket whose half-open range holds it and no other, if and only if no bound is printed with a hyphen: none is negative, and none but zero is below 0.000001 |
| Histogram.ExponentIs | src/util/Histogram.ts:15-21 | the exponent of a printed small number is the one that leaves a single digit other than 0 before the point |
| Histogram.ZeroLeavesRangeOpen | src/util/Histogram.ts:15-21 | with the bounds 5 and 0, every finite value from 5 on goes to the first bucket, whose range a next bound of 0 leaves open |
| Histogram.NegativeBoundIsMisread | src/util/Histogram.ts:24-31 | with the bounds -5 and 3, some value misses its range |
| Histogram.TinyBoundIsMisread | src/util/Histogram.ts:24-31 | with the bounds 0, 1e-7 and 1, the values 0 and 0.5 find no bucket |
| Histogram.CountsMatchTheLog | src/util/Histogram.ts:15-37 | for ascending bounds printed without a hyphen, over any sequence of logs and clears, each bucket counts the values since the last clear in its range, and all together those that are at or above the first bound and not infinite |
| Histogram.Histogram.InitializeBuckets | src/util/Histogram.ts:15-21 | one zero bucket per key, a repeated key keeping its place |
| Histogram.Histogram.LogData | src/util/Histogram.ts:23-31 | the loop raises the first bucket that takes the value, by one, and nothing else |
| Histogram.Histogram.ClearHistogram | src/util/Histogram.ts:33-37 | the loop sets every count to zero and keeps every key |

## Left out

- Order of sends to one address: each send is its own task, so only the order on a stream, after the mutex is taken, means anything; that order is what the theorems speak of.
- The tokio runtime, binding and accepting, resolving host names, and the argument handling of the JavaScript bindings: only the order in which counters, channels and queues change is kept.
- A panic of the dispatcher, the evictor or an unwinding send task, and shutting the process down: the two loops run for good.
- libsodium, gzip and Brotli: arbitrary functions with the laws under Premises. A public key of the wrong size, on which the original panics, is one outcome of the abstract `verify`.
- `shardeum_utils`: transaction recovery from foreign cryptography, with nothing of its own to prove here.
- Replies sent by `respond` (src/index.ts:411): they reuse the id of the message answered, with timeout 0, so they touch neither map and no timer; `Requests` has no event for them.
- Messages whose id is not a string: an id that converts to a property name stands for that name. One that converts to none, as {"toString": 1}, and a message that parses to null make the listen callback throw, and one that does not parse does too; all are caught where `Throws` is, change nothing and reach no callback.
- JSON: header fields and request fields come already parsed, and a delivery carries the header and signature as values where the original prints them. `to_json_string` does not escape its strings and drops the compression, so no round trip is claimed.
- The error of pushing to a channel whose receiver is gone: the receiving end lives as long as the listener.
- `TtlMap.TTLMap.Put`: does not model the key "__proto__", which a JavaScript object does not store like any other; the runs of `TtlMap` exclude setting it, and `Requests` sets only ids that its node sent under.
- `TtlMap.TimedMapIsPlainMap`: covers safe sets only, because an unsafe one breaks the agreement, as `TtlMap.AnswersAlikeIffSafe` proves; `src/index.ts` times each fresh id out at most once and keeps it for a minute, and `Requests` proves that its sets find no earlier timer.
- `RingBuffer.RingBuffer.constructor`: requires a positive size, because the original builds only buffers of size 100.
- `RingBuffer.StatsAgreeWithHistory`: does not model overflow of the summed total, because values are unbounded here; they are natural numbers, where the original is generic.
- `Counters.CountersConserve`: is stated for fewer than 2^64 increments in all; beyond that the counters hold the same sums modulo 2^64, which is what `Counters.StepKeepsInv` keeps.
- The promise returned by a send: a multi-send with `awaitProcessing` false never runs its completion, so nothing is claimed about it settling.
- `RequestTheorems.GateMeetsDeadlineIff`: assumes the requester's clock; two nodes have two, and no bound between them is known.
- Rounding in a histogram: a number stands for the decimal that it is printed as, and its infinities and NaN are there. That reading back the printed text gives the number again is taken from the language.
- Printing histograms, logging, verbose branches, elapsed-time buffers, scripts and manual drivers.
