/** The receive loop: frames in, deliveries out, with frames that are skipped and frames that end the loop. */
module Listener {
  import opened Bytes
  import opened Utf8
  import opened Compression
  import opened Crypto
  import opened Messages
  import opened Headers
  import opened Framing

  const HEADER_SIZE_LIMIT_IN_BYTES := 2 * 2048

  const HEADER_MARK: byte := 1

  /** The foreign code a node runs with. */
  datatype Env = Env(crypto: Crypto, codecs: Codecs)

  datatype Metadata = Metadata(version: byte, header: Header, sign: Signature)

  datatype Delivery = Delivery(text: bytes, metadata: Option<Metadata>)

  /** Why the loop can stop inside a frame: the first four are panics, the last is a returned error. */
  datatype Reason = MalformedMessage | BadPublicKey | MalformedHeader | CorruptData | NotUtf8

  datatype Outcome = Deliver(delivery: Delivery) | Skip | Die(reason: Reason)

  /** The stream ends before a whole length, or before the whole of a body, or a frame is fatal. */
  datatype Ending = Closed | Truncated | Failed(reason: Reason)

  // ---- One frame -----------------------------------------------------------

  function DeliverText(text: bytes, metadata: Option<Metadata>): Outcome {
    if ValidUtf8(text) then Deliver(Delivery(text, metadata)) else Die(NotUtf8)
  }

  function HandleVerified(env: Env, m: Msg): Outcome {
    var header := DeserializeByVersion(m.content.version, m.content.header);
    if header.None? then Die(MalformedHeader)
    else if !Validate(header.value, m.content.data) then Skip
    else
      var text := env.codecs.Decompress(header.value.h.compression, m.content.data);
      if text.None? then Die(CorruptData)
      else DeliverText(text.value, Some(Metadata(m.content.version, header.value, m.sign)))
  }

  function HandleMessage(env: Env, m: Msg): Outcome {
    if |m.content.header| > HEADER_SIZE_LIMIT_IN_BYTES then Skip
    else
      match Verify(env.crypto, m)
      case None => Die(BadPublicKey)
      case Some(false) => Skip
      case Some(true) => HandleVerified(env, m)
  }

  predicate HasHeader(payload: bytes) {
    payload != [] && payload[0] == HEADER_MARK
  }

  function Handle(env: Env, payload: bytes): Outcome {
    if HasHeader(payload) then
      match ParseMessage(payload[1..])
      case Rejected => Die(MalformedMessage)
      case Parsed(m, _) => HandleMessage(env, m)
    else DeliverText(payload, None)
  }

  // ---- Whole streams, declaratively ---------------------------------------

  /** How many payloads come before the first fatal one. */
  function LiveCount(env: Env, payloads: seq<bytes>): (n: nat)
    ensures n <= |payloads|
  {
    if payloads == [] || Handle(env, payloads[0]).Die? then 0 else 1 + LiveCount(env, payloads[1..])
  }

  lemma {:induction false} LiveCountIsFirstFatal(env: Env, payloads: seq<bytes>)
    ensures var n := LiveCount(env, payloads);
            && (n < |payloads| ==> Handle(env, payloads[n]).Die?)
            && (forall i :: 0 <= i < n ==> !Handle(env, payloads[i]).Die?)
  {
    hide Handle;
    if payloads != [] && !Handle(env, payloads[0]).Die? {
      LiveCountIsFirstFatal(env, payloads[1..]);
      forall i | 0 <= i < LiveCount(env, payloads)
        ensures !Handle(env, payloads[i]).Die?
      {
        assert i > 0 ==> payloads[i] == payloads[1..][i - 1];
      }
    }
  }

  /** The payloads that are delivered, in order; the others leave no trace. */
  function FilterMap(env: Env, payloads: seq<bytes>): seq<Delivery> {
    if payloads == [] then []
    else
      match Handle(env, payloads[0])
      case Deliver(d) => [d] + FilterMap(env, payloads[1..])
      case _ => FilterMap(env, payloads[1..])
  }

  function Delivered(env: Env, stream: bytes): seq<Delivery> {
    FilterMap(env, Payloads(stream)[..LiveCount(env, Payloads(stream))])
  }

  function EndingOf(env: Env, stream: bytes): Ending {
    var payloads := Payloads(stream);
    var n := LiveCount(env, payloads);
    LiveCountIsFirstFatal(env, payloads);
    if n < |payloads| then Failed(Handle(env, payloads[n]).reason)
    else if ReadFrame(Unfinished(stream)) == NoLength then Closed
    else Truncated
  }

  lemma {:induction false} FilterMapAppend(env: Env, p: seq<bytes>, q: seq<bytes>)
    ensures FilterMap(env, p + q) == FilterMap(env, p) + FilterMap(env, q)
  {
    hide Handle;
    if p == [] {
      assert p + q == q;
    } else {
      assert (p + q)[1..] == p[1..] + q;
      FilterMapAppend(env, p[1..], q);
    }
  }

  /** What the first frame of a stream contributes, and that a delivered or skipped frame leaves the
      rest of the stream exactly as it would be read alone. */
  lemma FirstFrame(env: Env, stream: bytes)
    requires ReadFrame(stream).Got?
    ensures var Got(d, rest) := ReadFrame(stream);
            match Handle(env, d)
            case Deliver(x) => Delivered(env, stream) == [x] + Delivered(env, rest)
                               && EndingOf(env, stream) == EndingOf(env, rest)
            case Skip => Delivered(env, stream) == Delivered(env, rest) && EndingOf(env, stream) == EndingOf(env, rest)
            case Die(why) => Delivered(env, stream) == [] && EndingOf(env, stream) == Failed(why)
  {
    hide Handle, ReadFrame;
    var Got(d, rest) := ReadFrame(stream);
    var ps := Payloads(rest);
    assert Payloads(stream) == [d] + ps && Payloads(stream)[1..] == ps;
    if !Handle(env, d).Die? {
      assert ([d] + ps)[..1 + LiveCount(env, ps)][1..] == ps[..LiveCount(env, ps)];
    }
  }

  lemma NoFrame(env: Env, stream: bytes)
    requires !ReadFrame(stream).Got?
    ensures Delivered(env, stream) == []
    ensures EndingOf(env, stream) == if ReadFrame(stream) == NoLength then Closed else Truncated
  {
  }

  /** A skipped frame anywhere in a stream is as if it had never been sent. */
  lemma SkippedFrameNeverDesynchronises(env: Env, before: seq<bytes>, d: bytes, after: bytes)
    requires AllShort(before) && |d| < U32_LIMIT && Handle(env, d) == Skip
    ensures Delivered(env, FramesOf(before) + Frame(d) + after) == Delivered(env, FramesOf(before) + after)
    ensures EndingOf(env, FramesOf(before) + Frame(d) + after) == EndingOf(env, FramesOf(before) + after)
  {
    hide Handle, Frame, ReadFrame, Delivered, EndingOf;
    if before == [] {
      assert FramesOf(before) + Frame(d) + after == Frame(d) + after;
      assert FramesOf(before) + after == after;
      FrameRoundTripIff(d, after);
      FirstFrame(env, Frame(d) + after);
    } else {
      var f, more := Frame(before[0]), FramesOf(before[1..]);
      SkippedFrameNeverDesynchronises(env, before[1..], d, after);
      assert FramesOf(before) + Frame(d) + after == f + (more + Frame(d) + after);
      assert FramesOf(before) + after == f + (more + after);
      FrameRoundTripIff(before[0], more + Frame(d) + after);
      FrameRoundTripIff(before[0], more + after);
      FirstFrame(env, f + (more + Frame(d) + after));
      FirstFrame(env, f + (more + after));
    }
  }

  /** What is delivered from a prefix of a stream is a prefix of what is delivered from the whole. */
  lemma {:induction false} DeliveredMonotone(env: Env, stream: bytes, more: bytes)
    ensures Delivered(env, stream) <= Delivered(env, stream + more)
    ensures EndingOf(env, stream).Failed? ==>
              Delivered(env, stream + more) == Delivered(env, stream)
              && EndingOf(env, stream + more) == EndingOf(env, stream)
    decreases |stream|
  {
    hide Handle, Frame, ReadFrame, Delivered, EndingOf;
    if ReadFrame(stream).Got? {
      var Got(d, rest) := ReadFrame(stream);
      FrameInverse(stream);
      Regroup(Frame(d), rest, more);
      FrameRoundTripIff(d, rest + more);
      DeliveredMonotone(env, rest, more);
      FirstFrame(env, stream);
      FirstFrame(env, stream + more);
    } else {
      NoFrame(env, stream);
    }
  }

  // ---- What becomes of a frame, told from its bytes ------------------------

  predicate Marked(payload: bytes) {
    payload != [] && payload[0] == 1
  }

  /** The payload is the mark, message m, and something after it. */
  ghost predicate Carries(payload: bytes, m: Msg, rest: bytes) {
    payload == [1] + (MessageBytes(m) + rest) && ShortMessage(m)
  }

  lemma CarriesIff(payload: bytes, m: Msg, rest: bytes)
    ensures Carries(payload, m, rest) <==> Marked(payload) && ParseMessage(payload[1..]) == Parsed(m, rest)
  {
    hide MessageBytes, ParseMessage, ShortMessage;
    MessageRoundTripIff(m, rest);
    if Marked(payload) {
      assert payload == [1] + payload[1..];
      if ParseMessage(payload[1..]) == Parsed(m, rest) {
        MessageInverse(payload[1..]);
      }
    }
    if Carries(payload, m, rest) {
      assert payload[1..] == MessageBytes(m) + rest;
    }
  }

  /** The header bytes begin with header h. */
  ghost predicate HeaderIs(header: bytes, h: HeaderV1) {
    WellFormed(h) && HeaderBytes(h) <= header
  }

  lemma HeaderIsIff(header: bytes, h: HeaderV1)
    ensures HeaderIs(header, h) <==> ParseHeader(header).Parsed? && ParseHeader(header).value == h
  {
    hide HeaderBytes, ParseHeader, WellFormed;
    if HeaderIs(header, h) {
      var rest := header[|HeaderBytes(h)|..];
      HeaderRoundTripIff(h, rest);
      assert header == HeaderBytes(h) + rest;
    }
    if ParseHeader(header).Parsed? && ParseHeader(header).value == h {
      HeaderInverse(header);
    }
  }

  /** Within the size limit, and signed by its owner. */
  predicate Accepted(env: Env, m: Msg) {
    |m.content.header| <= 4096 && Genuine(env.crypto, m)
  }

  /** Accepted, with header h of the only known version, and as long as h says. */
  ghost predicate InOrder(env: Env, m: Msg, h: HeaderV1) {
    Accepted(env, m) && m.content.version == 1 && HeaderIs(m.content.header, h) && |m.content.data| == h.messageLength
  }

  /** Oversize, or signed by its owner but for other contents, or not as long as its header says. */
  ghost predicate MustSkip(env: Env, m: Msg) {
    || |m.content.header| > 4096
    || (env.crypto.acceptsKey(m.sign.owner) && !Genuine(env.crypto, m))
    || (Genuine(env.crypto, m) && m.content.version == 1
        && exists h :: HeaderIs(m.content.header, h) && |m.content.data| != h.messageLength)
  }

  ghost predicate MustDie(env: Env, m: Msg, why: Reason) {
    match why
    case MalformedMessage => false
    case BadPublicKey => |m.content.header| <= 4096 && !env.crypto.acceptsKey(m.sign.owner)
    case MalformedHeader =>
      Accepted(env, m) && (m.content.version != 1 || forall h :: !HeaderIs(m.content.header, h))
    case CorruptData =>
      exists h :: InOrder(env, m, h) && env.codecs.Decompress(h.compression, m.content.data) == None
    case NotUtf8 =>
      exists h :: InOrder(env, m, h)
        && env.codecs.Decompress(h.compression, m.content.data).Some?
        && !ValidUtf8(env.codecs.Decompress(h.compression, m.content.data).value)
  }

  /** The delivery is what m says: its signature, its header, and its data decompressed. */
  ghost predicate Vouches(env: Env, m: Msg, d: Delivery) {
    && d.metadata.Some?
    && var metadata := d.metadata.value;
       && metadata.sign == m.sign && metadata.version == 1
       && InOrder(env, m, metadata.header.h)
       && env.codecs.Decompress(metadata.header.h.compression, m.content.data) == Some(d.text)
       && ValidUtf8(d.text)
  }

  /** h is the header of an accepted message. */
  ghost predicate Heads(env: Env, m: Msg, h: HeaderV1) {
    && Accepted(env, m) && m.content.version == 1 && HeaderIs(m.content.header, h)
    && forall h' :: HeaderIs(m.content.header, h') ==> h' == h
  }

  function HeadedOutcome(env: Env, m: Msg, h: HeaderV1): Outcome {
    if |m.content.data| != h.messageLength then Skip
    else
      match env.codecs.Decompress(h.compression, m.content.data)
      case None => Die(CorruptData)
      case Some(text) => DeliverText(text, Some(Metadata(1, V1(h), m.sign)))
  }

  lemma OutcomeOfHeader(env: Env, m: Msg, h: HeaderV1)
    requires Accepted(env, m) && m.content.version == 1 && HeaderIs(m.content.header, h)
    ensures HandleMessage(env, m) == HeadedOutcome(env, m, h)
    ensures forall h' :: HeaderIs(m.content.header, h') ==> h' == h
  {
    VerifyIff(env.crypto, m);
    hide HeaderIs, ParseHeader, ValidUtf8, Verify, Genuine, DeliverText;
    HeaderIsIff(m.content.header, h);
    forall h' | HeaderIs(m.content.header, h')
      ensures h' == h
    {
      HeaderIsIff(m.content.header, h');
    }
  }

  lemma OutcomeWithoutHeader(env: Env, m: Msg)
    requires !(Accepted(env, m) && m.content.version == 1 && exists h :: HeaderIs(m.content.header, h))
    ensures HandleMessage(env, m)
         == if |m.content.header| > 4096 then Skip
            else if !env.crypto.acceptsKey(m.sign.owner) then Die(BadPublicKey)
            else if !Genuine(env.crypto, m) then Skip
            else Die(MalformedHeader)
  {
    VerifyIff(env.crypto, m);
    hide HeaderIs, ParseHeader, ValidUtf8, Verify, Genuine;
    if ParseHeader(m.content.header).Parsed? {
      HeaderIsIff(m.content.header, ParseHeader(m.content.header).value);
    }
  }

  lemma HeadedSkip(env: Env, m: Msg, h: HeaderV1)
    requires Heads(env, m, h)
    ensures HeadedOutcome(env, m, h) == Skip <==> MustSkip(env, m)
  {
    hide HeaderIs, Genuine, ValidUtf8;
    assert MustSkip(env, m) <==> |m.content.data| != h.messageLength;
  }

  lemma HeadedDie(env: Env, m: Msg, h: HeaderV1, why: Reason)
    requires Heads(env, m, h)
    ensures HeadedOutcome(env, m, h) == Die(why) <==> MustDie(env, m, why)
  {
    assert env.crypto.acceptsKey(m.sign.owner);
    hide HeaderIs, Genuine, ValidUtf8;
    assert InOrder(env, m, h) <==> |m.content.data| == h.messageLength;
    if h' :| InOrder(env, m, h') {
      assert h' == h;
    }
  }

  lemma HeadedDeliver(env: Env, m: Msg, h: HeaderV1, d: Delivery)
    requires Heads(env, m, h)
    ensures HeadedOutcome(env, m, h) == Deliver(d) <==> Vouches(env, m, d)
  {
    hide HeaderIs, Genuine, ValidUtf8;
    if Vouches(env, m, d) {
      assert d.metadata.value.header.h == h;
    }
  }

  lemma MessageOutcome(env: Env, m: Msg)
    ensures HandleMessage(env, m) == Skip <==> MustSkip(env, m)
    ensures forall why :: HandleMessage(env, m) == Die(why) <==> MustDie(env, m, why)
    ensures forall d :: HandleMessage(env, m) == Deliver(d) <==> Vouches(env, m, d)
  {
    hide HandleMessage, HeaderIs, ValidUtf8;
    if Accepted(env, m) && m.content.version == 1 && exists h :: HeaderIs(m.content.header, h) {
      var h :| HeaderIs(m.content.header, h);
      OutcomeOfHeader(env, m, h);
      assert Heads(env, m, h) && HandleMessage(env, m) == HeadedOutcome(env, m, h);
      hide HeadedOutcome, Heads, MustSkip, MustDie, Vouches;
      HeadedSkip(env, m, h);
      forall why
        ensures HandleMessage(env, m) == Die(why) <==> MustDie(env, m, why)
      {
        HeadedDie(env, m, h, why);
      }
      forall d
        ensures HandleMessage(env, m) == Deliver(d) <==> Vouches(env, m, d)
      {
        HeadedDeliver(env, m, h, d);
      }
    } else {
      assert Genuine(env.crypto, m) ==> env.crypto.acceptsKey(m.sign.owner);
      hide Genuine;
      OutcomeWithoutHeader(env, m);
    }
  }

  /** Which frames are skipped, for arbitrary bytes: exactly those that hold a message that is oversize, or has
      a signature that does not fit, or data of another length than its header says. */
  lemma SkippedIff(env: Env, payload: bytes)
    ensures Handle(env, payload) == Skip <==> exists m, rest :: Carries(payload, m, rest) && MustSkip(env, m)
  {
    hide HandleMessage, MustSkip, ParseMessage, Carries, ValidUtf8;
    Reading(env, payload);
    if m, rest :| Carries(payload, m, rest) {
      MessageOutcome(env, m);
    }
    if m, rest :| Carries(payload, m, rest) && MustSkip(env, m) {
      Reading(env, payload);
      MessageOutcome(env, m);
    }
  }

  /** A marked payload is read as at most one message, and its fate is that message's. */
  lemma Reading(env: Env, payload: bytes)
    ensures forall m, rest :: Carries(payload, m, rest) ==>
              Marked(payload) && Handle(env, payload) == HandleMessage(env, m)
    ensures !Marked(payload) ==> Handle(env, payload) == DeliverText(payload, None)
    ensures Marked(payload) && Handle(env, payload) != Die(MalformedMessage) ==>
              exists m, rest :: Carries(payload, m, rest)
    ensures Marked(payload) && Handle(env, payload) == Die(MalformedMessage) ==>
              !exists m, rest :: Carries(payload, m, rest)
  {
    hide Carries, ParseMessage;
    forall m, rest
      ensures Carries(payload, m, rest) <==> Marked(payload) && ParseMessage(payload[1..]) == Parsed(m, rest)
    {
      CarriesIff(payload, m, rest);
    }
    if Marked(payload) && ParseMessage(payload[1..]).Parsed? {
      assert Carries(payload, ParseMessage(payload[1..]).value, ParseMessage(payload[1..]).rest);
    }
    MessageNeverMalformed(env);
    hide HandleMessage;
  }

  lemma MessageNeverMalformed(env: Env)
    ensures forall m :: HandleMessage(env, m) != Die(MalformedMessage)
  {
  }

  /** Which frames end the loop, and why. */
  lemma FatalIff(env: Env, payload: bytes, why: Reason)
    ensures Handle(env, payload) == Die(why) <==>
              || (why == MalformedMessage && Marked(payload) && !exists m, rest :: Carries(payload, m, rest))
              || (why == NotUtf8 && !Marked(payload) && !ValidUtf8(payload))
              || exists m, rest :: Carries(payload, m, rest) && MustDie(env, m, why)
  {
    Reading(env, payload);
    forall m
      ensures HandleMessage(env, m) == Die(why) <==> MustDie(env, m, why)
    {
      MessageOutcome(env, m);
    }
    MessageNeverMalformed(env);
    hide Handle, HandleMessage, MustDie, ParseMessage, Carries, ValidUtf8;
  }

  /** Which frames are delivered, and as what: without the mark, all text as itself; with it, exactly what a
      message that is in order says. */
  lemma DeliveredIff(env: Env, payload: bytes, d: Delivery)
    ensures Handle(env, payload) == Deliver(d) <==>
              || (!Marked(payload) && ValidUtf8(payload) && d == Delivery(payload, None))
              || exists m, rest :: Carries(payload, m, rest) && Vouches(env, m, d)
  {
    Reading(env, payload);
    forall m
      ensures HandleMessage(env, m) == Deliver(d) <==> Vouches(env, m, d)
    {
      MessageOutcome(env, m);
    }
    hide Handle, HandleMessage, Vouches, ParseMessage, Carries, ValidUtf8;
  }

  /** A message altered after it was signed is not delivered: unless the hash is the same, it is skipped. */
  lemma AlteredIsSkipped(env: Env, keys: KeyPair, c: Content, c': Content, rest: bytes)
    requires env.crypto.Signs(keys) && env.crypto.hash(UnsignedBytes(c')) != env.crypto.hash(UnsignedBytes(c))
    requires ShortMessage(Msg(c', Signed(env.crypto, keys, c).sign))
    ensures Handle(env, [1] + (MessageBytes(Msg(c', Signed(env.crypto, keys, c).sign)) + rest)) == Skip
  {
    var m := Msg(c', Signed(env.crypto, keys, c).sign);
    SignatureFitsIff(env.crypto, keys, c, c');
    VerifyIff(env.crypto, m);
    assert MustSkip(env, m);
    var payload := [1] + (MessageBytes(m) + rest);
    assert Carries(payload, m, rest);
    hide Handle, MustSkip, Carries, MessageBytes;
    SkippedIff(env, payload);
  }

  /** So nothing is delivered with a header unless a message in the payload was signed to say just that, and
      nothing without one unless it is all of its payload. */
  lemma DeliveryHasOrigin(env: Env, payload: bytes)
    requires Handle(env, payload).Deliver?
    ensures var d := Handle(env, payload).delivery;
            && ValidUtf8(d.text)
            && (d.metadata.None? ==> d.text == payload && !Marked(payload))
            && (d.metadata.Some? ==> exists m, rest :: Carries(payload, m, rest) && Vouches(env, m, d))
  {
    DeliveredIff(env, payload, Handle(env, payload).delivery);
    hide Handle, InOrder, Carries;
  }

  lemma {:induction false} FilterMapHasOrigin(env: Env, payloads: seq<bytes>, i: nat) returns (k: nat)
    requires i < |FilterMap(env, payloads)|
    ensures k < |payloads| && Handle(env, payloads[k]) == Deliver(FilterMap(env, payloads)[i])
  {
    hide Handle;
    if Handle(env, payloads[0]).Deliver? {
      if i == 0 {
        k := 0;
      } else {
        k := FilterMapHasOrigin(env, payloads[1..], i - 1);
        k := k + 1;
      }
    } else {
      k := FilterMapHasOrigin(env, payloads[1..], i);
      k := k + 1;
    }
  }

  /** For arbitrary bytes from a peer: whatever is delivered with a header comes from a frame that holds a
      message with a valid signature over exactly that header and those data. */
  lemma EveryHeaderWasSigned(env: Env, stream: bytes, i: nat) returns (k: nat)
    requires i < |Delivered(env, stream)|
    ensures k < |Payloads(stream)|
    ensures var payload, d := Payloads(stream)[k], Delivered(env, stream)[i];
            && Handle(env, payload) == Deliver(d)
            && (d.metadata.None? ==> d.text == payload && !Marked(payload))
            && (d.metadata.Some? ==> exists m, rest :: Carries(payload, m, rest) && Vouches(env, m, d))
  {
    hide Handle, Carries, Vouches;
    k := FilterMapHasOrigin(env, Payloads(stream)[..LiveCount(env, Payloads(stream))], i);
    DeliveryHasOrigin(env, Payloads(stream)[k]);
  }

  lemma UnfinishedFrame(tail: bytes)
    requires |tail| < 4 || |tail| - 4 < FromBe32(tail[..4])
    ensures ReadFrame(tail) == if |tail| < 4 then NoLength else ShortBody
  {
    hide FromBe32;
  }

  /** How the loop ends, told from the parts of a stream: with its first fatal frame, or else by what is left
      behind the last whole frame, which is less than a length, or a length without all of its body. */
  lemma EndingIs(env: Env, payloads: seq<bytes>, tail: bytes)
    requires AllShort(payloads) && (|tail| < 4 || |tail| - 4 < FromBe32(tail[..4]))
    ensures (forall i :: 0 <= i < |payloads| ==> !Handle(env, payloads[i]).Die?) ==>
              EndingOf(env, FramesOf(payloads) + tail) == if |tail| < 4 then Closed else Truncated
    ensures forall i :: 0 <= i < |payloads| && Handle(env, payloads[i]).Die?
                        && (forall j :: 0 <= j < i ==> !Handle(env, payloads[j]).Die?) ==>
              EndingOf(env, FramesOf(payloads) + tail) == Failed(Handle(env, payloads[i]).reason)
  {
    hide Handle, FramesOf, FromBe32, Payloads, Unfinished, LiveCount, ReadFrame;
    UnfinishedFrame(tail);
    SplitRoundTrip(payloads, tail);
    LiveCountIsFirstFatal(env, payloads);
  }

  // ---- The loop ------------------------------------------------------------

  /** The sending half of an unbounded channel. */
  class Channel<T> {
    var items: seq<T>

    constructor ()
      ensures items == []
    {
      items := [];
    }

    method Send(x: T)
      modifies this
      ensures items == old(items) + [x]
    {
      items := items + [x];
    }
  }

  /** The body of the loop, for one buffer: what it sends, or that it goes on without, or why it stops. */
  method ReceiveOne(env: Env, buffer: bytes) returns (outcome: Outcome)
    ensures outcome == Handle(env, buffer)
  {
    hide ParseMessage, ParseHeader, ValidUtf8, Verify;
    if HasHeader(buffer) {
      var cursor := new Cursor(buffer[1..]);
      var message := DeserializeMessage(cursor);
      if message.None? {
        return Die(MalformedMessage);
      }
      var m := message.value;
      if |m.content.header| > HEADER_SIZE_LIMIT_IN_BYTES {
        return Skip;
      }
      var verified := Verify(env.crypto, m);
      if verified.None? {
        return Die(BadPublicKey);
      }
      if !verified.value {
        return Skip;
      }
      var headerCursor := new Cursor(m.content.header);
      var header := DeserializeHeader(headerCursor);
      if m.content.version != 1 || header.None? {
        return Die(MalformedHeader);
      }
      if !Validate(V1(header.value), m.content.data) {
        return Skip;
      }
      var metadata := Metadata(m.content.version, V1(header.value), m.sign);
      var text := env.codecs.Decompress(header.value.compression, m.content.data);
      if text.None? {
        return Die(CorruptData);
      }
      if !ValidUtf8(text.value) {
        return Die(NotUtf8);
      }
      outcome := Deliver(Delivery(text.value, Some(metadata)));
    } else {
      if !ValidUtf8(buffer) {
        return Die(NotUtf8);
      }
      outcome := Deliver(Delivery(buffer, None));
    }
  }

  /** Reads frames until the stream ends or a frame is fatal. `stream` holds every byte the peer sent
      before it closed. */
  method Receive(env: Env, stream: Cursor, channel: Channel<Delivery>) returns (ending: Ending)
    requires stream.Valid()
    modifies stream, channel
    ensures channel.items == old(channel.items) + Delivered(env, old(stream.Remaining()))
    ensures ending == EndingOf(env, old(stream.Remaining()))
  {
    hide Delivered, EndingOf, FromBe32, Handle;
    ghost var all := stream.Remaining();
    while true
      invariant stream.Valid()
      invariant channel.items + Delivered(env, stream.Remaining()) == old(channel.items) + Delivered(env, all)
      invariant EndingOf(env, stream.Remaining()) == EndingOf(env, all)
      decreases |stream.data| - stream.pos
    {
      ghost var here, sent := stream.Remaining(), channel.items;
      var raw := stream.ReadExact(4);
      if raw.None? {
        NoFrame(env, here);
        return Closed;
      }
      var buffer := stream.ReadExact(FromBe32(raw.value));
      if buffer.None? {
        NoFrame(env, here);
        return Truncated;
      }
      ghost var rest := stream.Remaining();
      assert ReadFrame(here) == Got(buffer.value, rest) by {
        assert here[4..][FromBe32(raw.value)..] == here[4 + FromBe32(raw.value)..];
      }
      FirstFrame(env, here);
      Regroup2(sent, Handle(env, buffer.value), Delivered(env, rest));

      var outcome := ReceiveOne(env, buffer.value);
      match outcome {
        case Skip => continue;
        case Die(why) => return Failed(why);
        case Deliver(delivery) => channel.Send(delivery);
      }
    }
  }

  lemma Regroup2(sent: seq<Delivery>, outcome: Outcome, more: seq<Delivery>)
    ensures outcome.Deliver? ==> sent + ([outcome.delivery] + more) == sent + [outcome.delivery] + more
    ensures sent + [] == sent
  {
  }
}
