/** The signing library, as abstract functions with the one fact the protocol relies on. */
module Crypto {
  import opened Bytes

  datatype KeyPair = KeyPair(publicKey: bytes, secretKey: bytes)

  /** A signature is a sealed copy of the signed hash; opening it gives that hash back.
      `acceptsKey` is the length check on a public key, whose failure is a panic. */
  datatype Crypto = Crypto(
    hash: bytes -> bytes,
    seal: (bytes, bytes) -> bytes,
    open: (bytes, bytes) -> Option<bytes>,
    acceptsKey: bytes -> bool)
  {
    function Sign(hash: bytes, keys: KeyPair): bytes {
      seal(hash, keys.secretKey)
    }

    predicate Verify(hash: bytes, signature: bytes, publicKey: bytes) {
      open(signature, publicKey) == Some(hash)
    }

    /** Premise about the foreign code: what this key pair signs, it verifies. */
    ghost predicate Signs(keys: KeyPair) {
      && acceptsKey(keys.publicKey)
      && forall h :: open(seal(h, keys.secretKey), keys.publicKey) == Some(h)
    }
  }
}
