/** Hashes, addresses and the texts that are hashed.  SHA-256 is a parameter, never an axiom. */
module Crypto {
  import opened Words
  import Hex

  function Zeros(n: nat): (s: seq<byte>)
    ensures |s| == n && forall i :: 0 <= i < n ==> s[i] == 0
  {
    if n == 0 then [] else Zeros(n - 1) + [0]
  }

  datatype RawHash = RawHash(bytes: seq<byte>)
  type Hash = h: RawHash | |h.bytes| == 32 witness RawHash(Zeros(32))
  const ZERO_HASH: Hash := RawHash(Zeros(32))

  datatype RawAddress = RawAddress(bytes: seq<byte>)
  type Address = a: RawAddress | |a.bytes| == 20 witness RawAddress(Zeros(20))
  const ZERO_ADDRESS: Address := RawAddress(Zeros(20))

  /** Everything the node hashes.  JSON encoding of the two payload records is taken as injective,
      so a record stands for its text; Merkle nodes are hashed as raw bytes. */
  datatype Preimage =
    | Raw(bytes: seq<byte>)
    | TxText(from: Address, to: Address, amount: u64, fee: u64, nonce: u64)
    | BlockText(height: u64, timestamp: i64, previousHash: Hash, merkleRoot: Hash,
                validator: Address, txHashes: seq<Hash>)

  type Sha = Preimage -> Hash

  /** Two different texts with one hash: what a broken commitment must exhibit. */
  predicate Collides(sha: Sha, p: Preimage, q: Preimage) {
    p != q && sha(p) == sha(q)
  }

  function AddressHex(a: Address): string {
    Hex.Encode(a.bytes)
  }

  /** An address given as text: 40 hexadecimal digits in any letter case, otherwise rejected. */
  function ParseAddress(s: string): Option<Address> {
    var b := Hex.Decode(s);
    if b.Some? && |b.value| == 20 then Some(RawAddress(b.value)) else None
  }

  lemma ParseAddressHex(a: Address)
    ensures ParseAddress(AddressHex(a)) == Some(a)
  {
    Hex.DecodeEncode(a.bytes);
  }
}
