/** Transactions, blocks and their identity (core/types.go, core/genesis.go). */
module Blocks {
  import opened Words
  import opened Crypto
  import Merkle

  datatype Transaction = Transaction(
    from: Address, to: Address, amount: u64, fee: u64, nonce: u64,
    senderPubkey: seq<byte>, signature: seq<byte>)

  datatype Block = Block(
    height: u64, timestamp: i64, previousHash: Hash, merkleRoot: Hash, validator: Address,
    txs: seq<Transaction>, signature: seq<byte>, hash: Hash)

  function TxPayload(t: Transaction): Preimage {
    TxText(t.from, t.to, t.amount, t.fee, t.nonce)
  }

  function TxHash(sha: Sha, t: Transaction): Hash {
    sha(TxPayload(t))
  }

  function TxHashes(sha: Sha, txs: seq<Transaction>): (r: seq<Hash>)
    ensures |r| == |txs|
  {
    seq<Hash>(|txs|, i requires 0 <= i < |txs| => TxHash(sha, txs[i]))
  }

  function Payload(sha: Sha, b: Block): Preimage {
    BlockText(b.height, b.timestamp, b.previousHash, b.merkleRoot, b.validator, TxHashes(sha, b.txs))
  }

  function BlockHash(sha: Sha, b: Block): Hash {
    sha(Payload(sha, b))
  }

  /** ValidateBlock: the Merkle root and the hash are those of the block's own fields. */
  predicate Validates(sha: Sha, b: Block) {
    Merkle.Root(sha, TxHashes(sha, b.txs)) == b.merkleRoot && BlockHash(sha, b) == b.hash
  }

  method ComputeTxHashes(sha: Sha, txs: seq<Transaction>) returns (out: seq<Hash>)
    ensures out == TxHashes(sha, txs)
  {
    out := [];
    for i := 0 to |txs|
      invariant out == TxHashes(sha, txs)[..i]
    {
      out := out + [TxHash(sha, txs[i])];
    }
  }

  /** Every transaction hash covers sender, receiver, amount, fee and nonce. */
  lemma TxHashAt(sha: Sha, txs: seq<Transaction>, i: nat)
    requires i < |txs|
    ensures TxHashes(sha, txs)[i] == sha(TxText(txs[i].from, txs[i].to, txs[i].amount, txs[i].fee, txs[i].nonce))
  {
  }

  /** A block fails validation exactly when its Merkle root is not that of its transactions or its hash is
      not that of its height, time, parent, root, producer and transaction hashes. */
  method ValidateBlock(sha: Sha, b: Block) returns (ok: bool)
    ensures ok == Validates(sha, b)
    ensures ok <==> b.merkleRoot == Merkle.Root(sha, TxHashes(sha, b.txs))
                    && b.hash == sha(BlockText(b.height, b.timestamp, b.previousHash, b.merkleRoot, b.validator,
                                               TxHashes(sha, b.txs)))
  {
    var hashes := ComputeTxHashes(sha, b.txs);
    var root := Merkle.ComputeRoot(sha, hashes);
    if root != b.merkleRoot {
      return false;
    }
    return sha(BlockText(b.height, b.timestamp, b.previousHash, b.merkleRoot, b.validator, hashes)) == b.hash;
  }

  /** SetHash: a block whose hash is that of its other fields. */
  function Sealed(sha: Sha, height: u64, timestamp: i64, prev: Hash, root: Hash, validator: Address,
                  txs: seq<Transaction>): (b: Block)
  {
    Block(height, timestamp, prev, root, validator, txs, [],
          sha(BlockText(height, timestamp, prev, root, validator, TxHashes(sha, txs))))
  }

  /** The block NewBlock builds; it passes ValidateBlock before it is signed. */
  function NewBlock(sha: Sha, height: u64, now: i64, prev: Hash, validator: Address, txs: seq<Transaction>): (b: Block)
    ensures Validates(sha, b) && b.height == height && b.previousHash == prev && b.validator == validator
    ensures b.txs == txs
  {
    Sealed(sha, height, now, prev, Merkle.Root(sha, TxHashes(sha, txs)), validator, txs)
  }

  function Signed(b: Block, sig: seq<byte>): (r: Block)
    ensures r.signature == sig && r.hash == b.hash
  {
    b.(signature := sig)
  }

  /** Signing does not touch a hashed field: a block keeps its content and its validity. */
  lemma SigningKeepsValidity(sha: Sha, b: Block, sig: seq<byte>)
    ensures Validates(sha, Signed(b, sig)) == Validates(sha, b)
    ensures SameContent(b, Signed(b, sig))
  {
  }

  method BuildBlock(sha: Sha, height: u64, now: i64, prev: Hash, validator: Address, txs: seq<Transaction>)
    returns (b: Block)
    ensures b == NewBlock(sha, height, now, prev, validator, txs)
  {
    b := Block(height, now, prev, ZERO_HASH, validator, txs, [], ZERO_HASH);
    var hashes := ComputeTxHashes(sha, txs);
    var root := Merkle.ComputeRoot(sha, hashes);
    b := b.(merkleRoot := root);
    b := b.(hash := BlockHash(sha, b));
  }

  /** The genesis block carries no transactions and also passes ValidateBlock. */
  function GenesisBlock(sha: Sha, validator: Address): (b: Block)
    ensures Validates(sha, b) && b.height == 0 && b.previousHash == ZERO_HASH && b.txs == [] && b.validator == validator
  {
    Sealed(sha, 0, 0, ZERO_HASH, ZERO_HASH, validator, [])
  }

  /** Equal in every field of a transaction that its hash covers. */
  predicate SameTx(t: Transaction, u: Transaction) {
    t.from == u.from && t.to == u.to && t.amount == u.amount && t.fee == u.fee && t.nonce == u.nonce
  }

  predicate SameTxPayloads(a: seq<Transaction>, b: seq<Transaction>) {
    |a| == |b| && forall i :: 0 <= i < |a| ==> SameTx(a[i], b[i])
  }

  /** A transaction's hash identifies it up to its key and signature: two transactions with one hash that
      differ in another field give two colliding texts. */
  function TxCollision(sha: Sha, t: Transaction, u: Transaction): (r: (Preimage, Preimage))
    requires TxHash(sha, t) == TxHash(sha, u) && !SameTx(t, u)
    ensures Collides(sha, r.0, r.1)
  {
    (TxPayload(t), TxPayload(u))
  }

  /** Where two transaction lists of one length first differ in a hashed field; the length if nowhere. */
  function FirstPayloadDifference(a: seq<Transaction>, b: seq<Transaction>): (i: nat)
    requires |a| == |b|
    ensures i <= |a| && SameTxPayloads(a[..i], b[..i])
    ensures i < |a| ==> !SameTx(a[i], b[i])
  {
    if a == [] then 0
    else if !SameTx(a[0], b[0]) then 0
    else
      assert forall k :: 0 <= k < FirstPayloadDifference(a[1..], b[1..]) ==>
        a[1..][k] == a[k + 1] && b[1..][k] == b[k + 1];
      1 + FirstPayloadDifference(a[1..], b[1..])
  }

  /** Equal in every field that a hash covers. */
  predicate SameContent(a: Block, b: Block) {
    && a.height == b.height && a.timestamp == b.timestamp && a.previousHash == b.previousHash
    && a.merkleRoot == b.merkleRoot && a.validator == b.validator && a.hash == b.hash
    && SameTxPayloads(a.txs, b.txs)
  }

  /** A block's hash identifies its content: two valid blocks with one hash and different content
      give two colliding texts. */
  function IdentityCollision(sha: Sha, a: Block, b: Block): (r: (Preimage, Preimage))
    requires Validates(sha, a) && Validates(sha, b) && a.hash == b.hash && !SameContent(a, b)
    ensures Collides(sha, r.0, r.1)
  {
    if Payload(sha, a) != Payload(sha, b) then
      (Payload(sha, a), Payload(sha, b))
    else
      assert |a.txs| == |TxHashes(sha, a.txs)| == |TxHashes(sha, b.txs)| == |b.txs|;
      assert a.txs[..|a.txs|] == a.txs && b.txs[..|b.txs|] == b.txs;
      assert forall i :: 0 <= i < |a.txs| ==> TxHash(sha, a.txs[i]) == TxHashes(sha, b.txs)[i] == TxHash(sha, b.txs[i]);
      (TxPayload(a.txs[FirstPayloadDifference(a.txs, b.txs)]), TxPayload(b.txs[FirstPayloadDifference(a.txs, b.txs)]))
  }
}
