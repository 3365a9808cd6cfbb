/** Compression codes on the wire, and the codecs as abstract functions. */
module Compression {
  import opened Bytes

  datatype Compression = Uncompressed | Gzip | Brotli

  function ToU32(c: Compression): u32 {
    match c
    case Uncompressed => 0
    case Gzip => 1
    case Brotli => 2
  }

  function FromU32(n: u32): (r: Option<Compression>)
    ensures r.None? <==> n > 2
    ensures r.Some? ==> ToU32(r.value) == n
  {
    if n == 0 then Some(Uncompressed)
    else if n == 1 then Some(Gzip)
    else if n == 2 then Some(Brotli)
    else None
  }

  /** The codes on the wire. */
  lemma WireCodes()
    ensures FromU32(0) == Some(Uncompressed) && FromU32(1) == Some(Gzip) && FromU32(2) == Some(Brotli)
    ensures ToU32(Uncompressed) == 0 && ToU32(Gzip) == 1 && ToU32(Brotli) == 2
  {
  }

  /** The foreign codecs, with the build switch that turns them all off. */
  datatype Codecs = Codecs(
    enabled: bool,
    gzip: bytes -> bytes, gunzip: bytes -> Option<bytes>,
    brotli: bytes -> bytes, unbrotli: bytes -> Option<bytes>)
  {
    function Compress(c: Compression, data: bytes): bytes {
      if !enabled then data else
      match c
      case Uncompressed => data
      case Gzip => gzip(data)
      case Brotli => brotli(data)
    }

    function Decompress(c: Compression, data: bytes): Option<bytes> {
      if !enabled then Some(data) else
      match c
      case Uncompressed => Some(data)
      case Gzip => gunzip(data)
      case Brotli => unbrotli(data)
    }

    /** Premise about the foreign code: each decoder undoes its encoder. */
    ghost predicate Lossless() {
      && (forall d :: gunzip(gzip(d)) == Some(d))
      && (forall d :: unbrotli(brotli(d)) == Some(d))
    }

    /** The decoder that a code names is the one that reads what is compressed under it; with the switch off,
        data pass as they are. */
    lemma CodeNamesDecoder(data: bytes)
      requires enabled ==> Lossless()
      ensures enabled ==>
                && gunzip(Compress(Gzip, data)) == Some(data) && Decompress(Gzip, gzip(data)) == Some(data)
                && unbrotli(Compress(Brotli, data)) == Some(data) && Decompress(Brotli, brotli(data)) == Some(data)
                && Compress(Uncompressed, data) == data
      ensures !enabled ==> forall c :: Compress(c, data) == data && Decompress(c, data) == Some(data)
    {
    }

    lemma DecompressUndoesCompress(c: Compression, data: bytes)
      requires enabled ==> Lossless()
      ensures Decompress(c, Compress(c, data)) == Some(data)
    {
    }
  }
}
