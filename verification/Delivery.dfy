/** Sender and listener together, over one stream: what is sent is what is delivered. */
module Delivery {
  import opened Bytes
  import opened Utf8
  import opened Crypto
  import opened Messages
  import opened Headers
  import opened Framing
  import opened Listener
  import opened Outbound

  /** One message a caller hands to the library. */
  datatype Payload = Plain(text: bytes) | Headered(header: Header, text: bytes)

  function Wire(env: Env, keys: KeyPair, p: Payload): bytes {
    match p
    case Plain(text) => text
    case Headered(header, text) => HeaderedPayload(env, keys, header, text)
  }

  /** Room for the three strings of a header: 4096 bytes less the 36 of the fixed fields. */
  const STRING_ROOM := 4060

  /** A string from the caller, a header the program can hold, and a whole that fits a frame's length. */
  predicate Sendable(env: Env, keys: KeyPair, p: Payload) {
    && ValidUtf8(p.text)
    && |Wire(env, keys, p)| < U32_LIMIT
    && (p.Headered? ==> WellFormed(p.header.h))
  }

  /** A headered message gets through when its strings fit; a headerless one when it does not begin with
      the mark of a headered one. */
  predicate GetsThrough(p: Payload) {
    match p
    case Plain(text) => text == [] || text[0] != 1
    case Headered(header, _) =>
      |header.h.senderId| + |header.h.trackerId| + |header.h.verificationData| <= STRING_ROOM
  }

  /** The header that goes out with a text: every field as the caller gave it but the message length, which is
      the length of the data on the wire. */
  function HeaderOut(env: Env, h: HeaderV1, text: bytes): HeaderV1 {
    HeaderV1(h.uuid, |env.codecs.Compress(h.compression, text)| % 0x1_0000_0000,
             h.senderId, h.trackerId, h.verificationData, h.compression)
  }

  /** What the receiver should be handed: the original text, that header, and the sender's signature over
      the version, the header and the data on the wire. */
  function AsDelivered(env: Env, keys: KeyPair, p: Payload): Listener.Delivery {
    match p
    case Plain(text) => Listener.Delivery(text, None)
    case Headered(header, text) =>
      var h := HeaderOut(env, header.h, text);
      var signed := Content(1, HeaderBytes(h), env.codecs.Compress(header.h.compression, text));
      Listener.Delivery(text, Some(Metadata(1, V1(h), Signature(
        keys.publicKey, env.crypto.seal(env.crypto.hash(UnsignedBytes(signed)), keys.secretKey)))))
  }

  /** The header is stamped as it should go out, and signed as it should be. */
  lemma MessageIs(env: Env, keys: KeyPair, header: Header, text: bytes)
    ensures Stamped(env, header, text) == V1(HeaderOut(env, header.h, text))
    ensures MessageFor(env, keys, header, text).content
         == Content(1, HeaderBytes(HeaderOut(env, header.h, text)), env.codecs.Compress(header.h.compression, text))
    ensures Some(Metadata(1, Stamped(env, header, text), MessageFor(env, keys, header, text).sign))
         == AsDelivered(env, keys, Headered(header, text)).metadata
  {
    hide HeaderBytes, UnsignedBytes;
  }

  ghost predicate Premises(env: Env, keys: KeyPair) {
    env.crypto.Signs(keys) && (env.codecs.enabled ==> env.codecs.Lossless())
  }

  /** Headerless: delivered as itself exactly when the first byte is not the header mark. */
  lemma PlainGetsThroughIff(env: Env, keys: KeyPair, text: bytes)
    requires Sendable(env, keys, Plain(text))
    ensures Handle(env, text) == Deliver(AsDelivered(env, keys, Plain(text))) <==> GetsThrough(Plain(text))
  {
    hide ParseMessage, ValidUtf8;
  }

  lemma ShortParts(env: Env, keys: KeyPair, header: Header, text: bytes)
    requires |HeaderedPayload(env, keys, header, text)| < U32_LIMIT
    ensures ShortMessage(MessageFor(env, keys, header, text))
  {
    hide HeaderBytes, Le32, Compressed, Stamped;
  }

  /** Headered: delivered with its text and the caller's header when its strings fit, and otherwise skipped;
      never fatal. */
  lemma HeaderedOutcome(env: Env, keys: KeyPair, header: Header, text: bytes)
    requires Premises(env, keys) && Sendable(env, keys, Headered(header, text))
    ensures Handle(env, Wire(env, keys, Headered(header, text)))
         == if GetsThrough(Headered(header, text)) then Deliver(AsDelivered(env, keys, Headered(header, text)))
            else Skip
  {
    MessageIs(env, keys, header, text);
    hide HeaderBytes, ParseMessage, MessageBytes, ParseHeader, ValidUtf8, UnsignedBytes;
    var m := MessageFor(env, keys, header, text);
    var stamped := Stamped(env, header, text);
    var payload := Wire(env, keys, Headered(header, text));
    ShortParts(env, keys, header, text);
    assert payload[1..] == MessageBytes(m);
    assert MessageBytes(m) + [] == MessageBytes(m);
    MessageRoundTripIff(m, []);
    HeaderLength(stamped.h);
    HeaderRoundTripIff(stamped.h, []);
    assert HeaderBytes(stamped.h) + [] == HeaderBytes(stamped.h);
    assert Handle(env, payload) == HandleMessage(env, m);
    if GetsThrough(Headered(header, text)) {
      ShortLength(|Compressed(env, header, text)|);
      env.codecs.DecompressUndoesCompress(header.h.compression, text);
    }
  }

  /** Field by field: the receiver has the header that the caller gave, the length of the data that travelled,
      and a signature of the sender that opens to the hash of exactly those. */
  lemma HeaderArrives(env: Env, keys: KeyPair, header: Header, text: bytes)
    requires Premises(env, keys) && Sendable(env, keys, Headered(header, text)) && GetsThrough(Headered(header, text))
    ensures Handle(env, Wire(env, keys, Headered(header, text))).Deliver?
    ensures var d := Handle(env, Wire(env, keys, Headered(header, text))).delivery;
            && d.text == text && d.metadata.Some?
            && var wire := env.codecs.Compress(header.h.compression, text);
               var m := d.metadata.value;
               var h := m.header.h;
               && h.uuid == header.h.uuid && h.messageLength == |wire|
               && h.senderId == header.h.senderId && h.trackerId == header.h.trackerId
               && h.verificationData == header.h.verificationData && h.compression == header.h.compression
               && m.version == 1 && m.sign.owner == keys.publicKey
               && env.crypto.open(m.sign.sig, keys.publicKey)
                  == Some(env.crypto.hash(UnsignedBytes(Content(1, HeaderBytes(h), wire))))
  {
    hide Handle, Wire, Sendable, GetsThrough, HeaderBytes, UnsignedBytes;
    HeaderedOutcome(env, keys, header, text);
    WireIsShort(env, keys, header, text);
    var h := HeaderOut(env, header.h, text);
    var content := Content(1, HeaderBytes(h), env.codecs.Compress(h.compression, text));
    SealOpens(env, keys, env.crypto.hash(UnsignedBytes(content)));
    hide Premises;
  }

  lemma SealOpens(env: Env, keys: KeyPair, hash: bytes)
    requires Premises(env, keys)
    ensures env.crypto.open(env.crypto.seal(hash, keys.secretKey), keys.publicKey) == Some(hash)
  {
  }

  lemma WireIsShort(env: Env, keys: KeyPair, header: Header, text: bytes)
    requires Sendable(env, keys, Headered(header, text))
    ensures |env.codecs.Compress(header.h.compression, text)| < 0x1_0000_0000
  {
    MessageIs(env, keys, header, text);
    ShortParts(env, keys, header, text);
    hide HeaderedPayload, MessageFor, ValidUtf8;
  }

  /** The messages of a stream that must be delivered, in order. */
  function Expected(env: Env, keys: KeyPair, ps: seq<Payload>): seq<Listener.Delivery> {
    if ps == [] then []
    else (if GetsThrough(ps[0]) then [AsDelivered(env, keys, ps[0])] else []) + Expected(env, keys, ps[1..])
  }

  function Wires(env: Env, keys: KeyPair, ps: seq<Payload>): (ws: seq<bytes>)
    ensures |ws| == |ps|
    ensures forall i :: 0 <= i < |ws| ==> ws[i] == Wire(env, keys, ps[i])
  {
    seq(|ps|, i requires 0 <= i < |ps| => Wire(env, keys, ps[i]))
  }

  /** Every message is sendable, and no headerless one looks headered. */
  ghost predicate AllSendable(env: Env, keys: KeyPair, ps: seq<Payload>) {
    forall p :: p in ps ==> Sendable(env, keys, p) && (p.Plain? ==> GetsThrough(p))
  }

  lemma {:induction false} WiresDeliverExpected(env: Env, keys: KeyPair, ps: seq<Payload>)
    requires Premises(env, keys) && AllSendable(env, keys, ps)
    ensures LiveCount(env, Wires(env, keys, ps)) == |ps|
    ensures FilterMap(env, Wires(env, keys, ps)) == Expected(env, keys, ps)
  {
    hide Handle, Wire, AsDelivered, GetsThrough, Sendable, Premises;
    if ps != [] {
      WiresDeliverExpected(env, keys, ps[1..]);
      var ws := Wires(env, keys, ps);
      assert ws[1..] == Wires(env, keys, ps[1..]);
      OneWire(env, keys, ps[0]);
    }
  }

  lemma OneWire(env: Env, keys: KeyPair, p: Payload)
    requires Premises(env, keys) && Sendable(env, keys, p) && (p.Plain? ==> GetsThrough(p))
    ensures Handle(env, Wire(env, keys, p))
         == if GetsThrough(p) then Deliver(AsDelivered(env, keys, p)) else Skip
  {
    hide Handle, AsDelivered, Premises;
    match p
    case Plain(text) => PlainGetsThroughIff(env, keys, text);
    case Headered(header, text) => HeaderedOutcome(env, keys, header, text);
  }

  /** End to end over one stream cut at any byte: exactly the completely received messages that get
      through are delivered, in order, each with its original text and header. */
  lemma CutStreamDelivers(env: Env, keys: KeyPair, ps: seq<Payload>, k: nat)
    requires Premises(env, keys) && AllSendable(env, keys, ps)
    requires k <= |FramesOf(Wires(env, keys, ps))|
    ensures var received := FramesOf(Wires(env, keys, ps))[..k];
            && Delivered(env, received) == Expected(env, keys, ps[..CompleteBy(Wires(env, keys, ps), k)])
            && !EndingOf(env, received).Failed?
  {
    hide Handle, Wire, Frame, ReadFrame, Premises, FilterMap, LiveCount, Expected;
    var ws := Wires(env, keys, ps);
    var n := CompleteBy(ws, k);
    forall i | 0 <= i < |ws|
      ensures |ws[i]| < U32_LIMIT
    {
      assert ps[i] in ps;
    }
    CutAnywhere(ws, k);
    assert ws[..n] == Wires(env, keys, ps[..n]);
    WiresDeliverExpected(env, keys, ps[..n]);
    assert ws[..n][..n] == ws[..n];
  }
}
