/** Bytes and their digests. SHA-256 is an injective constructor: two byte
    strings share a digest only when they are the same string. */
module Blobs {
  newtype byte = x: int | 0 <= x < 256

  type Bytes = seq<byte>

  datatype Digest = Sha256(preimage: Bytes)

  /** A storage key is derived from the digest alone
      (`original/sha256/<2 hex>/<64 hex>.blob`), so the digest stands for it. */
  type Key = Digest
}
