/** Symbolic SHA-256.

A digest is a free term: two digests are equal exactly when they were made from
the same preimage, and no digest of anything is the 32 zero bytes.  This is the
collision-freedom that the audit chain relies on; the bit-level function is not
modelled.  A preimage is a sequence of chunks, so that the one-byte prefixes of
the Merkle tree and the concatenations of the chain stay visible.
*/
module Digests {
  datatype Option<+T> = None | Some(value: T)

  datatype Result<+T> = Ok(value: T) | Err(error: string)

  datatype Digest = Zero32 | Sha256(preimage: seq<Chunk>)

  /** One piece of a hash preimage: a raw byte, a UTF-8 text, or 32 digest bytes. */
  datatype Chunk = Octet(byte: nat) | Utf8(text: string) | Bytes32(digest: Digest)

  /** A stored hash column: `sha256:<hex>` of a digest as the program writes it, another
      spelling that parses to the digest, such as upper-case hex, or any other text. */
  datatype HashText = Hex(digest: Digest) | Respelt(digest: Digest, text: string) | Garbled(text: string)

  function ParseHexPrefixed(t: HashText): Result<Digest> {
    match t
    case Hex(d) => Ok(d)
    case Respelt(d, _) => Ok(d)
    case Garbled(_) => Err("ValueError")
  }

  lemma Assoc<T>(a: seq<T>, b: seq<T>, c: seq<T>)
    ensures a + (b + c) == (a + b) + c
  {
  }

  lemma SliceOfPrefix<T>(s: seq<T>, k: nat, a: nat, b: nat)
    requires a <= b <= k <= |s|
    ensures s[..k][a..b] == s[a..b]
  {
  }

  lemma SliceEnd<T>(s: seq<T>, a: nat, b: nat)
    requires a <= b < |s|
    ensures s[a..b + 1] == s[a..b] + [s[b]]
  {
  }

  lemma UpdateTwice<K, V>(m: map<K, V>, k: K, v: V, w: V)
    ensures m[k := v][k := w] == m[k := w]
  {
  }
}
