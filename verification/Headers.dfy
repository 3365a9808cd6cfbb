/** The version 1 header: its byte format, both ways, and the version dispatch. */
module Headers {
  import opened Bytes
  import opened Utf8
  import opened Compression

  const UUID_BYTES := 16

  datatype HeaderV1 = HeaderV1(
    uuid: bytes, messageLength: u32,
    senderId: bytes, trackerId: bytes, verificationData: bytes,
    compression: Compression)

  datatype Header = V1(h: HeaderV1)

  predicate IsString(b: bytes) {
    ValidUtf8(b) && |b| < U32_LIMIT
  }

  /** A header as the program can hold one: a 16-byte id and three strings, each short enough for its
      32-bit length. */
  predicate WellFormed(h: HeaderV1) {
    && |h.uuid| == UUID_BYTES
    && IsString(h.senderId) && IsString(h.trackerId) && IsString(h.verificationData)
  }

  // ---- Specification of the format ----------------------------------------

  function HeaderBytes(h: HeaderV1): bytes {
    h.uuid + Le32(h.messageLength) + Block(h.senderId) + Block(h.trackerId) + Block(h.verificationData)
    + Le32(ToU32(h.compression))
  }

  function TakeUtf8(b: bytes): Parsed<bytes> {
    var (s, rest) :- TakeBlock(b);
    if ValidUtf8(s) then Parsed(s, rest) else Rejected
  }

  function TakeCompression(b: bytes): Parsed<Compression> {
    var (n, rest) :- TakeLe32(b);
    match FromU32(n)
    case None => Rejected
    case Some(c) => Parsed(c, rest)
  }

  function ParseHeader(b: bytes): Parsed<HeaderV1> {
    var (uuid, b1) :- TakeBytes(b, UUID_BYTES);
    var (messageLength, b2) :- TakeLe32(b1);
    var (senderId, b3) :- TakeUtf8(b2);
    var (trackerId, b4) :- TakeUtf8(b3);
    var (verificationData, b5) :- TakeUtf8(b4);
    var (compression, b6) :- TakeCompression(b5);
    Parsed(HeaderV1(uuid, messageLength, senderId, trackerId, verificationData, compression), b6)
  }

  // ---- Round trips ---------------------------------------------------------

  /** Where each field of a header stands. */
  lemma HeaderLayout(h: HeaderV1)
    requires |h.uuid| == 16
    ensures var b := HeaderBytes(h);
            var tracker := 24 + |h.senderId|;
            var verification := tracker + 4 + |h.trackerId|;
            var compression := verification + 4 + |h.verificationData|;
            && |b| == compression + 4
            && b[..16] == h.uuid && b[16..20] == Le32(h.messageLength)
            && b[20..24] == Le32(|h.senderId| % 0x1_0000_0000) && b[24..tracker] == h.senderId
            && b[tracker..tracker + 4] == Le32(|h.trackerId| % 0x1_0000_0000)
            && b[tracker + 4..verification] == h.trackerId
            && b[verification..verification + 4] == Le32(|h.verificationData| % 0x1_0000_0000)
            && b[verification + 4..compression] == h.verificationData
            && b[compression..] == Le32(match h.compression case Uncompressed => 0 case Gzip => 1 case Brotli => 2)
  {
    hide Le32;
    var b := h.uuid + Le32(h.messageLength) + (Le32(AsU32(|h.senderId|)) + h.senderId)
           + (Le32(AsU32(|h.trackerId|)) + h.trackerId) + (Le32(AsU32(|h.verificationData|)) + h.verificationData)
           + Le32(ToU32(h.compression));
    assert HeaderBytes(h) == b;
  }

  lemma Utf8BlockRoundTrip(s: bytes, rest: bytes)
    requires IsString(s)
    ensures TakeUtf8(Block(s) + rest) == Parsed(s, rest)
  {
    hide Block, TakeBlock;
    BlockRoundTripIff(s, rest);
  }

  lemma Utf8BlockInverse(b: bytes)
    requires TakeUtf8(b).Parsed?
    ensures IsString(TakeUtf8(b).value)
    ensures b == Block(TakeUtf8(b).value) + TakeUtf8(b).rest
  {
    hide Block, TakeBlock;
    BlockInverse(b);
  }

  lemma CompressionRoundTrip(c: Compression, rest: bytes)
    ensures TakeCompression(Le32(ToU32(c)) + rest) == Parsed(c, rest)
  {
    hide Le32, TakeLe32;
    TakeLe32Back(ToU32(c), rest);
  }

  /** Deserialising an encoding followed by any bytes gives the header back and stops exactly at its
      end; it does so exactly for the headers with a 16-byte id and three short UTF-8 strings. */
  lemma HeaderRoundTripIff(h: HeaderV1, rest: bytes)
    ensures ParseHeader(HeaderBytes(h) + rest) == Parsed(h, rest) <==> WellFormed(h)
  {
    hide Block, TakeUtf8, TakeLe32, TakeCompression, Le32;
    var b := HeaderBytes(h) + rest;
    if WellFormed(h) {
      var b5 := Le32(ToU32(h.compression)) + rest;
      var b4 := Block(h.verificationData) + b5;
      var b3 := Block(h.trackerId) + b4;
      var b2 := Block(h.senderId) + b3;
      var b1 := Le32(h.messageLength) + b2;
      assert b == h.uuid + b1;
      TakeBytesBack(h.uuid, b1);
      TakeLe32Back(h.messageLength, b2);
      Utf8BlockRoundTrip(h.senderId, b3);
      Utf8BlockRoundTrip(h.trackerId, b4);
      Utf8BlockRoundTrip(h.verificationData, b5);
      CompressionRoundTrip(h.compression, rest);
    }
    if ParseHeader(b) == Parsed(h, rest) {
      HeaderInverse(b);
    }
  }

  /** Whatever is accepted re-serialises to exactly the bytes consumed. */
  lemma HeaderInverse(b: bytes)
    requires ParseHeader(b).Parsed?
    ensures WellFormed(ParseHeader(b).value)
    ensures b == HeaderBytes(ParseHeader(b).value) + ParseHeader(b).rest
  {
    hide Block, TakeUtf8, TakeLe32, Le32;
    var Parsed(h, rest) := ParseHeader(b);
    var b1 := b[UUID_BYTES..];
    var b2 := TakeLe32(b1).rest;
    var b3 := TakeUtf8(b2).rest;
    var b4 := TakeUtf8(b3).rest;
    var b5 := TakeUtf8(b4).rest;
    TakeLe32Inverse(b1);
    Utf8BlockInverse(b2);
    Utf8BlockInverse(b3);
    Utf8BlockInverse(b4);
    TakeLe32Inverse(b5);
    assert b == h.uuid + b1;
    assert b == HeaderBytes(h) + rest;
  }

  /** No strict prefix of an encoding is accepted. */
  lemma StrictPrefixRejected(h: HeaderV1, k: nat)
    requires WellFormed(h) && k < |HeaderBytes(h)|
    ensures ParseHeader(HeaderBytes(h)[..k]).Rejected?
  {
    hide HeaderBytes, ParseHeader;
    var whole := HeaderBytes(h);
    var p, q := whole[..k], whole[k..];
    if ParseHeader(p).Parsed? {
      var Parsed(h', r) := ParseHeader(p);
      HeaderInverse(p);
      assert whole == p + q && whole == whole + [];
      Regroup(HeaderBytes(h'), r, q);
      HeaderRoundTripIff(h', r + q);
      HeaderRoundTripIff(h, []);
    }
  }

  lemma HeaderLength(h: HeaderV1)
    ensures |HeaderBytes(h)| == |h.uuid| + |h.senderId| + |h.trackerId| + |h.verificationData| + 20
  {
    hide Le32;
  }

  // ---- Operations ----------------------------------------------------------

  method SerializeHeader(h: HeaderV1) returns (buffer: bytes)
    ensures buffer == HeaderBytes(h)
  {
    hide Le32;
    buffer := [];
    buffer := buffer + h.uuid;
    buffer := buffer + Le32(h.messageLength);
    ghost var start := buffer;
    buffer := buffer + Le32(AsU32(|h.senderId|));
    buffer := buffer + h.senderId;
    buffer := buffer + Le32(AsU32(|h.trackerId|));
    buffer := buffer + h.trackerId;
    buffer := buffer + Le32(AsU32(|h.verificationData|));
    buffer := buffer + h.verificationData;
    assert buffer == start + Block(h.senderId) + Block(h.trackerId) + Block(h.verificationData);
    buffer := buffer + Le32(ToU32(h.compression));
  }

  method ReadUtf8(cursor: Cursor) returns (r: Option<bytes>)
    requires cursor.Valid()
    modifies cursor
    ensures cursor.Valid()
    ensures match TakeUtf8(old(cursor.Remaining()))
            case Rejected => r.None?
            case Parsed(s, rest) => r == Some(s) && cursor.Remaining() == rest
  {
    hide TakeBlock;
    r := cursor.ReadBlock();
    if r.Some? && !ValidUtf8(r.value) {
      r := None;
    }
  }

  method DeserializeHeader(cursor: Cursor) returns (r: Option<HeaderV1>)
    requires cursor.Valid()
    modifies cursor
    ensures cursor.Valid()
    ensures match ParseHeader(old(cursor.Remaining()))
            case Rejected => r.None?
            case Parsed(h, rest) => r == Some(h) && cursor.Remaining() == rest
  {
    hide TakeUtf8, TakeLe32;
    var uuid := cursor.ReadExact(UUID_BYTES);
    if uuid.None? {
      return None;
    }
    var messageLength := cursor.ReadLe32();
    if messageLength.None? {
      return None;
    }
    var senderId := ReadUtf8(cursor);
    if senderId.None? {
      return None;
    }
    var trackerId := ReadUtf8(cursor);
    if trackerId.None? {
      return None;
    }
    var verificationData := ReadUtf8(cursor);
    if verificationData.None? {
      return None;
    }
    var code := cursor.ReadLe32();
    if code.None? || FromU32(code.value).None? {
      return None;
    }
    r := Some(HeaderV1(uuid.value, messageLength.value, senderId.value, trackerId.value, verificationData.value,
                       FromU32(code.value).value));
  }

  /** `header_serialize_factory`: only version 1 exists. */
  method SerializeByVersion(version: byte, header: Header) returns (r: Option<bytes>)
    ensures r == if version == 1 then Some(HeaderBytes(header.h)) else None
  {
    if version != 1 {
      return None;
    }
    var serialized := SerializeHeader(header.h);
    r := Some(serialized);
  }

  /** `header_deserialize_factory`: bytes after the header are ignored. */
  function DeserializeByVersion(version: byte, b: bytes): Option<Header> {
    if version != 1 then None else
    match ParseHeader(b)
    case Rejected => None
    case Parsed(h, _) => Some(V1(h))
  }

  predicate Validate(header: Header, data: bytes) {
    |data| == header.h.messageLength
  }

  function SetMessageLength(header: Header, n: u32): (r: Header)
    ensures r.h.messageLength == n
    ensures r.h.uuid == header.h.uuid && r.h.compression == header.h.compression
    ensures r.h.senderId == header.h.senderId && r.h.trackerId == header.h.trackerId
    ensures r.h.verificationData == header.h.verificationData
  {
    V1(header.h.(messageLength := n))
  }
}
