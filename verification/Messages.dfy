/** The signed message inside a headered frame: its byte format, both ways. */
module Messages {
  import opened Bytes
  import opened Crypto

  datatype Signature = Signature(owner: bytes, sig: bytes)

  const UNSIGNED := Signature([], [])

  datatype Content = Content(version: byte, header: bytes, data: bytes)

  datatype Msg = Msg(content: Content, sign: Signature)

  /** Every field is short enough for its 32-bit length. */
  predicate Short(c: Content) {
    |c.header| < U32_LIMIT && |c.data| < U32_LIMIT
  }

  predicate ShortSignature(s: Signature) {
    |s.owner| < U32_LIMIT && |s.sig| < U32_LIMIT
  }

  predicate ShortMessage(m: Msg) {
    Short(m.content) && ShortSignature(m.sign)
  }

  // ---- Specification of the format ----------------------------------------

  function UnsignedBytes(c: Content): bytes {
    [c.version] + Block(c.header) + Block(c.data)
  }

  function SignatureBytes(s: Signature): bytes {
    Block(s.owner) + Block(s.sig)
  }

  function MessageBytes(m: Msg): bytes {
    UnsignedBytes(m.content) + SignatureBytes(m.sign)
  }

  function ParseContent(b: bytes): Parsed<Content> {
    var (v, b1) :- TakeBytes(b, 1);
    var (header, b2) :- TakeBlock(b1);
    var (data, b3) :- TakeBlock(b2);
    Parsed(Content(v[0], header, data), b3)
  }

  function ParseSignature(b: bytes): Parsed<Signature> {
    var (owner, b1) :- TakeBlock(b);
    var (sig, b2) :- TakeBlock(b1);
    Parsed(Signature(owner, sig), b2)
  }

  function ParseMessage(b: bytes): Parsed<Msg> {
    var (content, b1) :- ParseContent(b);
    var (sign, b2) :- ParseSignature(b1);
    Parsed(Msg(content, sign), b2)
  }

  // ---- Round trips ---------------------------------------------------------

  /** Where each part of a message stands. */
  lemma MessageLayout(m: Msg)
    ensures var c, s, b := m.content, m.sign, MessageBytes(m);
            var data := 5 + |c.header|;
            var owner := data + 4 + |c.data|;
            var sig := owner + 4 + |s.owner|;
            && |b| == sig + 4 + |s.sig|
            && b[0] == c.version
            && b[1..5] == Le32(|c.header| % 0x1_0000_0000) && b[5..data] == c.header
            && b[data..data + 4] == Le32(|c.data| % 0x1_0000_0000) && b[data + 4..owner] == c.data
            && b[owner..owner + 4] == Le32(|s.owner| % 0x1_0000_0000) && b[owner + 4..sig] == s.owner
            && b[sig..sig + 4] == Le32(|s.sig| % 0x1_0000_0000) && b[sig + 4..] == s.sig
            && UnsignedBytes(c) == b[..owner]
  {
    hide Le32;
    var c, s := m.content, m.sign;
    var b := [c.version] + (Le32(AsU32(|c.header|)) + c.header) + (Le32(AsU32(|c.data|)) + c.data)
           + ((Le32(AsU32(|s.owner|)) + s.owner) + (Le32(AsU32(|s.sig|)) + s.sig));
    assert MessageBytes(m) == b;
  }

  lemma ContentRoundTrip(c: Content, rest: bytes)
    requires Short(c)
    ensures ParseContent(UnsignedBytes(c) + rest) == Parsed(c, rest)
  {
    hide Block, TakeBlock;
    var b2 := Block(c.data) + rest;
    var b1 := Block(c.header) + b2;
    assert UnsignedBytes(c) + rest == [c.version] + b1;
    TakeBytesBack([c.version], b1);
    BlockRoundTripIff(c.header, b2);
    BlockRoundTripIff(c.data, rest);
  }

  lemma SignatureRoundTrip(s: Signature, rest: bytes)
    requires ShortSignature(s)
    ensures ParseSignature(SignatureBytes(s) + rest) == Parsed(s, rest)
  {
    hide Block, TakeBlock;
    var b1 := Block(s.sig) + rest;
    assert SignatureBytes(s) + rest == Block(s.owner) + b1;
    BlockRoundTripIff(s.owner, b1);
    BlockRoundTripIff(s.sig, rest);
  }

  lemma ContentInverse(b: bytes)
    requires ParseContent(b).Parsed?
    ensures Short(ParseContent(b).value)
    ensures b == UnsignedBytes(ParseContent(b).value) + ParseContent(b).rest
  {
    hide Block, TakeBlock;
    var Parsed(v, b1) := TakeBytes(b, 1);
    var Parsed(header, b2) := TakeBlock(b1);
    var Parsed(data, b3) := TakeBlock(b2);
    BlockInverse(b1);
    BlockInverse(b2);
    assert b == v + b1 && v == [v[0]];
    assert v + (Block(header) + (Block(data) + b3)) == v + Block(header) + Block(data) + b3;
  }

  lemma SignatureInverse(b: bytes)
    requires ParseSignature(b).Parsed?
    ensures ShortSignature(ParseSignature(b).value)
    ensures b == SignatureBytes(ParseSignature(b).value) + ParseSignature(b).rest
  {
    hide Block, TakeBlock;
    var Parsed(owner, b1) := TakeBlock(b);
    var Parsed(sig, b2) := TakeBlock(b1);
    BlockInverse(b);
    BlockInverse(b1);
    Regroup(Block(owner), Block(sig), b2);
  }

  /** Deserialising an encoding followed by any bytes gives the message back and stops exactly at its
      end; it does so exactly when every length fits in 32 bits. */
  lemma MessageRoundTripIff(m: Msg, rest: bytes)
    ensures ParseMessage(MessageBytes(m) + rest) == Parsed(m, rest) <==> ShortMessage(m)
  {
    var b := MessageBytes(m) + rest;
    if ShortMessage(m) {
      assert b == UnsignedBytes(m.content) + (SignatureBytes(m.sign) + rest);
      ContentRoundTrip(m.content, SignatureBytes(m.sign) + rest);
      SignatureRoundTrip(m.sign, rest);
    }
    if ParseMessage(b) == Parsed(m, rest) {
      ContentInverse(b);
      SignatureInverse(ParseContent(b).rest);
    }
  }

  /** Whatever is accepted re-serialises to exactly the bytes consumed. */
  lemma MessageInverse(b: bytes)
    requires ParseMessage(b).Parsed?
    ensures ShortMessage(ParseMessage(b).value)
    ensures b == MessageBytes(ParseMessage(b).value) + ParseMessage(b).rest
  {
    ContentInverse(b);
    SignatureInverse(ParseContent(b).rest);
    var Parsed(m, rest) := ParseMessage(b);
    Regroup(UnsignedBytes(m.content), SignatureBytes(m.sign), rest);
  }

  /** No strict prefix of an encoding is accepted. */
  lemma StrictPrefixRejected(m: Msg, k: nat)
    requires ShortMessage(m) && k < |MessageBytes(m)|
    ensures ParseMessage(MessageBytes(m)[..k]).Rejected?
  {
    hide MessageBytes, ParseMessage;
    var whole := MessageBytes(m);
    var p, q := whole[..k], whole[k..];
    if ParseMessage(p).Parsed? {
      var Parsed(m', r) := ParseMessage(p);
      MessageInverse(p);
      assert whole == p + q && whole == whole + [];
      Regroup(MessageBytes(m'), r, q);
      MessageRoundTripIff(m', r + q);
      MessageRoundTripIff(m, []);
    }
  }

  /** What is signed determines the message: the unsigned bytes are injective and prefix-free. */
  lemma UnsignedBytesPrefixFree(c1: Content, c2: Content, rest1: bytes, rest2: bytes)
    requires Short(c1) && Short(c2)
    requires UnsignedBytes(c1) + rest1 == UnsignedBytes(c2) + rest2
    ensures c1 == c2 && rest1 == rest2
  {
    ContentRoundTrip(c1, rest1);
    ContentRoundTrip(c2, rest2);
  }

  // ---- The message object --------------------------------------------------

  method SerializeSignature(s: Signature) returns (buffer: bytes)
    ensures buffer == SignatureBytes(s)
  {
    buffer := [];
    buffer := buffer + Le32(AsU32(|s.owner|));
    buffer := buffer + s.owner;
    buffer := buffer + Le32(AsU32(|s.sig|));
    buffer := buffer + s.sig;
    Regroup(Block(s.owner), Le32(AsU32(|s.sig|)), s.sig);
  }

  method DeserializeSignature(cursor: Cursor) returns (r: Option<Signature>)
    requires cursor.Valid()
    modifies cursor
    ensures cursor.Valid()
    ensures match ParseSignature(old(cursor.Remaining()))
            case Rejected => r.None?
            case Parsed(s, rest) => r == Some(s) && cursor.Remaining() == rest
  {
    hide TakeBlock;
    var owner := cursor.ReadBlock();
    if owner.None? {
      return None;
    }
    var sig := cursor.ReadBlock();
    if sig.None? {
      return None;
    }
    r := Some(Signature(owner.value, sig.value));
  }

  method DeserializeMessage(cursor: Cursor) returns (r: Option<Msg>)
    requires cursor.Valid()
    modifies cursor
    ensures cursor.Valid()
    ensures match ParseMessage(old(cursor.Remaining()))
            case Rejected => r.None?
            case Parsed(m, rest) => r == Some(m) && cursor.Remaining() == rest
  {
    hide TakeBlock;
    var version := cursor.ReadExact(1);
    if version.None? {
      return None;
    }
    var header := cursor.ReadBlock();
    if header.None? {
      return None;
    }
    var data := cursor.ReadBlock();
    if data.None? {
      return None;
    }
    var sign := DeserializeSignature(cursor);
    if sign.None? {
      return None;
    }
    r := Some(Msg(Content(version.value[0], header.value, data.value), sign.value));
  }

  class Message {
    const content: Content
    var sign: Signature

    function View(): Msg
      reads this
    {
      Msg(content, sign)
    }

    constructor NewUnsigned(content: Content)
      ensures View() == Msg(content, UNSIGNED)
    {
      this.content := content;
      sign := UNSIGNED;
    }

    method SerializeUnsigned() returns (buffer: bytes)
      ensures buffer == UnsignedBytes(content)
    {
      buffer := [];
      buffer := buffer + [content.version];
      buffer := buffer + Le32(AsU32(|content.header|));
      buffer := buffer + content.header;
      Regroup([content.version], Le32(AsU32(|content.header|)), content.header);
      ghost var front := buffer;
      buffer := buffer + Le32(AsU32(|content.data|));
      buffer := buffer + content.data;
      Regroup(front, Le32(AsU32(|content.data|)), content.data);
    }

    method Serialize() returns (buffer: bytes)
      ensures buffer == MessageBytes(View())
    {
      buffer := SerializeUnsigned();
      var signBytes := SerializeSignature(sign);
      buffer := buffer + signBytes;
    }

    method SignWith(crypto: Crypto, keys: KeyPair)
      modifies this
      ensures sign == Signature(keys.publicKey, crypto.Sign(crypto.hash(UnsignedBytes(content)), keys))
    {
      var unsigned := SerializeUnsigned();
      var hash := crypto.hash(unsigned);
      var signature := crypto.Sign(hash, keys);
      sign := Signature(keys.publicKey, signature);
    }
  }

  /** `Message::verify`: None is the panic on an owner that is not a public key. */
  function Verify(crypto: Crypto, m: Msg): Option<bool> {
    if !crypto.acceptsKey(m.sign.owner) then None
    else Some(crypto.Verify(crypto.hash(UnsignedBytes(m.content)), m.sign.sig, m.sign.owner))
  }

  function Signed(crypto: Crypto, keys: KeyPair, c: Content): Msg {
    Msg(c, Signature(keys.publicKey, crypto.Sign(crypto.hash(UnsignedBytes(c)), keys)))
  }

  /** The owner is a public key, and its key opens the signature to the hash of exactly these contents. */
  predicate Genuine(crypto: Crypto, m: Msg) {
    && crypto.acceptsKey(m.sign.owner)
    && crypto.open(m.sign.sig, m.sign.owner) == Some(crypto.hash(UnsignedBytes(m.content)))
  }

  /** A message verifies exactly when it is genuine, and panics exactly when its owner is no public key. */
  lemma VerifyIff(crypto: Crypto, m: Msg)
    ensures Verify(crypto, m) == Some(true) <==> Genuine(crypto, m)
    ensures Verify(crypto, m) == None <==> !crypto.acceptsKey(m.sign.owner)
  {
  }

  /** A signature made for one message verifies another exactly when both have the same hash. */
  lemma SignatureFitsIff(crypto: Crypto, keys: KeyPair, c: Content, c': Content)
    requires crypto.Signs(keys)
    ensures Verify(crypto, Msg(c', Signed(crypto, keys, c).sign))
         == Some(crypto.hash(UnsignedBytes(c')) == crypto.hash(UnsignedBytes(c)))
  {
    var h := crypto.hash(UnsignedBytes(c));
    assert crypto.open(crypto.seal(h, keys.secretKey), keys.publicKey) == Some(h);
  }

  /** So with a hash that tells the two encodings apart, it verifies no message but its own. */
  lemma SignatureFitsOnlyItsMessage(crypto: Crypto, keys: KeyPair, c: Content, c': Content)
    requires crypto.Signs(keys) && Short(c) && Short(c')
    requires crypto.hash(UnsignedBytes(c')) == crypto.hash(UnsignedBytes(c)) ==> UnsignedBytes(c') == UnsignedBytes(c)
    ensures Verify(crypto, Msg(c', Signed(crypto, keys, c).sign)) == Some(c' == c)
  {
    SignatureFitsIff(crypto, keys, c, c');
    hide Signed, Verify;
    if UnsignedBytes(c') == UnsignedBytes(c) {
      UnsignedBytesPrefixFree(c', c, [], []);
    }
  }

  /** A signed message that travels as bytes still verifies on arrival. */
  lemma SignedSurvivesTheWire(crypto: Crypto, keys: KeyPair, c: Content, rest: bytes)
    requires crypto.Signs(keys) && ShortMessage(Signed(crypto, keys, c))
    ensures var r := ParseMessage(MessageBytes(Signed(crypto, keys, c)) + rest);
            && r == Parsed(Signed(crypto, keys, c), rest) && r.value.content == c
            && Verify(crypto, r.value) == Some(true) && Genuine(crypto, r.value)
  {
    MessageRoundTripIff(Signed(crypto, keys, c), rest);
    SignatureFitsIff(crypto, keys, c, c);
    hide ParseMessage, MessageBytes, UnsignedBytes;
  }
}
