/** The sending interface: what one send, with or without a header, puts on the send channel. */
module Outbound {
  import opened Bytes
  import opened Crypto
  import opened Messages
  import opened Headers
  import opened Listener

  type SocketAddr = nat

  /** One entry of the send channel. `completion` identifies the oneshot that will carry the result. */
  datatype Job = Job(address: SocketAddr, data: bytes, completion: nat)

  // ---- Specification -------------------------------------------------------

  function Compressed(env: Env, header: Header, data: bytes): bytes {
    env.codecs.Compress(header.h.compression, data)
  }

  function Stamped(env: Env, header: Header, data: bytes): Header {
    SetMessageLength(header, AsU32(|Compressed(env, header, data)|))
  }

  /** The signed message of a headered send. */
  function MessageFor(env: Env, keys: KeyPair, header: Header, data: bytes): Msg {
    Signed(env.crypto, keys, Content(1, HeaderBytes(Stamped(env, header, data).h), Compressed(env, header, data)))
  }

  function HeaderedPayload(env: Env, keys: KeyPair, header: Header, data: bytes): bytes {
    [HEADER_MARK] + MessageBytes(MessageFor(env, keys, header, data))
  }

  /** The channel after one headered send; an unknown header version panics before anything is queued. */
  function AfterSend(env: Env, keys: KeyPair, queue: seq<Job>, address: SocketAddr, version: byte, header: Header,
                     data: bytes, completion: nat): seq<Job>
  {
    if version == 1 then queue + [Job(address, HeaderedPayload(env, keys, header, data), completion)] else queue
  }

  /** One headered send per destination, for as many as both lists have. */
  function AfterSends(env: Env, keys: KeyPair, queue: seq<Job>, addresses: seq<SocketAddr>, version: byte,
                      header: Header, data: bytes, completions: seq<nat>): seq<Job>
    decreases |addresses|
  {
    if addresses == [] || completions == [] then queue
    else
      AfterSends(env, keys, AfterSend(env, keys, queue, addresses[0], version, header, data, completions[0]),
                 addresses[1..], version, header, data, completions[1..])
  }

  function Zip(addresses: seq<SocketAddr>, data: bytes, completions: seq<nat>): (jobs: seq<Job>)
    ensures |jobs| == if |addresses| <= |completions| then |addresses| else |completions|
    ensures forall i :: 0 <= i < |jobs| ==> jobs[i] == Job(addresses[i], data, completions[i])
  {
    if addresses == [] || completions == [] then []
    else [Job(addresses[0], data, completions[0])] + Zip(addresses[1..], data, completions[1..])
  }

  /** Signing once and fanning out queues what one send per destination would queue. */
  lemma {:induction false} FanOutIsOneSendEach(
    env: Env, keys: KeyPair, queue: seq<Job>, addresses: seq<SocketAddr>, version: byte, header: Header, data: bytes,
    completions: seq<nat>)
    ensures AfterSends(env, keys, queue, addresses, version, header, data, completions)
         == queue + if version == 1 then Zip(addresses, HeaderedPayload(env, keys, header, data), completions) else []
    decreases |addresses|
  {
    hide HeaderedPayload;
    var payload := HeaderedPayload(env, keys, header, data);
    if addresses == [] || completions == [] {
      assert Zip(addresses, payload, completions) == [];
    } else {
      var first, rest := Job(addresses[0], payload, completions[0]), Zip(addresses[1..], payload, completions[1..]);
      var next := if version == 1 then queue + [first] else queue;
      assert Zip(addresses, payload, completions) == [first] + rest;
      assert AfterSends(env, keys, queue, addresses, version, header, data, completions)
          == AfterSends(env, keys, next, addresses[1..], version, header, data, completions[1..]);
      hide AfterSends, Zip;
      FanOutIsOneSendEach(env, keys, next, addresses[1..], version, header, data, completions[1..]);
      RegroupJobs(queue, first, rest);
    }
  }

  lemma RegroupJobs(queue: seq<Job>, first: Job, rest: seq<Job>)
    ensures queue + [first] + rest == queue + ([first] + rest)
  {
  }

  /** Every completion is queued, once and in order, exactly when there are enough addresses. */
  lemma EveryCompletionQueuedIff(addresses: seq<SocketAddr>, data: bytes, completions: seq<nat>)
    ensures var jobs := Zip(addresses, data, completions);
            |completions| <= |addresses| <==>
              (|jobs| == |completions| && forall i :: 0 <= i < |jobs| ==> jobs[i].completion == completions[i])
  {
  }

  // ---- The sender object ---------------------------------------------------

  method WrapSerializedMessage(serialized: bytes) returns (buffer: bytes)
    ensures HasHeader(buffer) && buffer[1..] == serialized
    ensures buffer == [HEADER_MARK] + serialized
  {
    buffer := [];
    buffer := buffer + [HEADER_MARK];
    buffer := buffer + serialized;
  }

  class NetSender {
    const env: Env
    const keys: KeyPair
    var queue: seq<Job>

    constructor (env: Env, keys: KeyPair)
      ensures this.env == env && this.keys == keys && queue == []
    {
      this.env := env;
      this.keys := keys;
      queue := [];
    }

    method Send(address: SocketAddr, data: bytes, completion: nat)
      modifies this
      ensures queue == old(queue) + [Job(address, data, completion)]
    {
      queue := queue + [Job(address, data, completion)];
    }

    /** Builds, signs and wraps the message; None is the panic on an unknown header version. */
    method BuildPayload(version: byte, header: Header, data: bytes) returns (payload: Option<bytes>)
      ensures payload == if version == 1 then Some(HeaderedPayload(env, keys, header, data)) else None
    {
      var header := header;
      var compressed := env.codecs.Compress(header.h.compression, data);
      header := SetMessageLength(header, AsU32(|compressed|));
      var serializedHeader := SerializeByVersion(version, header);
      if serializedHeader.None? {
        return None;
      }
      var message := new Message.NewUnsigned(Content(version, serializedHeader.value, compressed));
      message.SignWith(env.crypto, keys);
      var serialized := message.Serialize();
      var wrapped := WrapSerializedMessage(serialized);
      payload := Some(wrapped);
    }

    method SendWithHeader(address: SocketAddr, version: byte, header: Header, data: bytes, completion: nat)
      returns (ok: bool)
      modifies this
      ensures ok == (version == 1)
      ensures queue == AfterSend(env, keys, old(queue), address, version, header, data, completion)
    {
      hide HeaderedPayload;
      var payload := BuildPayload(version, header, data);
      ok := payload.Some?;
      if ok {
        queue := queue + [Job(address, payload.value, completion)];
      }
    }

    method MultiSendWithHeader(addresses: seq<SocketAddr>, version: byte, header: Header, data: bytes,
                               completions: seq<nat>)
      returns (ok: bool)
      modifies this
      ensures ok == (version == 1)
      ensures queue == AfterSends(env, keys, old(queue), addresses, version, header, data, completions)
    {
      FanOutIsOneSendEach(env, keys, queue, addresses, version, header, data, completions);
      hide HeaderedPayload, AfterSends, Zip;
      var payload := BuildPayload(version, header, data);
      ok := payload.Some?;
      if !ok {
        return;
      }
      ghost var jobs := Zip(addresses, payload.value, completions);
      var i := 0;
      while i < |addresses| && i < |completions|
        invariant i <= |jobs|
        invariant queue == old(queue) + jobs[..i]
      {
        assert jobs[..i + 1] == jobs[..i] + [Job(addresses[i], payload.value, completions[i])];
        queue := queue + [Job(addresses[i], payload.value, completions[i])];
        i := i + 1;
      }
    }
  }
}
