/** The block store and the chain that ends at its tip (core/chain.go).  Blocks are kept by hash;
    locks and files are not modelled. */
module ChainStore {
  import opened Words
  import opened Crypto
  import opened Blocks

  type Store = map<Hash, Block>

  ghost predicate Stored(store: Store, b: Block) {
    b.hash != ZERO_HASH && b.hash in store && store[b.hash] == b
  }

  /** Block i names block i - 1 as its parent. */
  predicate LinkAt(c: seq<Block>, i: nat)
    requires 0 < i < |c|
  {
    c[i].previousHash == c[i - 1].hash
  }

  ghost predicate LinkedFromZero(c: seq<Block>) {
    && c != []
    && c[0].previousHash == ZERO_HASH
    && (forall i :: 0 < i < |c| ==> LinkAt(c, i))
  }

  /** Following parent links from the tip visits c from its end to its start, where the link is zero. */
  ghost predicate IsChain(store: Store, tip: Hash, c: seq<Block>) {
    && LinkedFromZero(c)
    && c[|c| - 1].hash == tip
    && (forall i {:trigger Stored(store, c[i])} :: 0 <= i < |c| ==> Stored(store, c[i]))
  }

  predicate Contiguous(c: seq<Block>) {
    forall i :: 0 <= i < |c| ==> c[i].height == i
  }

  lemma OneBlockPerHash(store: Store, a: Block, b: Block)
    requires Stored(store, a) && Stored(store, b)
    ensures a.hash == b.hash ==> a == b
  {
  }

  /** No block occurs twice on a chain, whatever the hash function. */
  lemma {:induction false} NoRepeats(store: Store, tip: Hash, c: seq<Block>, i: nat, j: nat)
    requires IsChain(store, tip, c) && i < j < |c|
    ensures c[i].hash != c[j].hash
  {
    OneBlockPerHash(store, c[i], c[j]);
    assert Stored(store, c[j - 1]) && LinkAt(c, j);
    if i > 0 {
      NoRepeats(store, tip, c, i - 1, j - 1);
      assert LinkAt(c, i);
    }
  }

  lemma LinkedPrefix(c: seq<Block>, n: nat)
    requires LinkedFromZero(c) && 0 < n <= |c|
    ensures LinkedFromZero(c[..n])
  {
    forall i | 0 < i < n
      ensures LinkAt(c[..n], i)
    {
      assert LinkAt(c, i);
    }
  }

  lemma LinkedSnoc(c: seq<Block>, b: Block)
    requires LinkedFromZero(c) && b.previousHash == c[|c| - 1].hash
    ensures LinkedFromZero(c + [b])
  {
    var d := c + [b];
    forall i | 0 < i < |d|
      ensures LinkAt(d, i)
    {
      if i < |c| {
        assert LinkAt(c, i);
      }
    }
  }

  lemma ChainPrefix(store: Store, tip: Hash, c: seq<Block>, n: nat)
    requires IsChain(store, tip, c) && 0 < n <= |c|
    ensures IsChain(store, c[n - 1].hash, c[..n])
  {
    LinkedPrefix(c, n);
    forall i | 0 <= i < n
      ensures Stored(store, c[..n][i])
    {
      assert Stored(store, c[i]);
    }
  }

  /** One step of the walk back from the tip. */
  lemma ChainStep(store: Store, tip: Hash, c: seq<Block>)
    requires IsChain(store, tip, c)
    ensures tip in store && c[|c| - 1] == store[tip] && c == c[..|c| - 1] + [store[tip]]
    ensures |c| == 1 <==> store[tip].previousHash == ZERO_HASH
    ensures |c| > 1 ==> IsChain(store, store[tip].previousHash, c[..|c| - 1])
  {
    var m := |c| - 1;
    assert Stored(store, c[m]);
    if m > 0 {
      assert Stored(store, c[m - 1]) && LinkAt(c, m);
      ChainPrefix(store, tip, c, m);
    }
  }

  /** The tip determines the chain. */
  lemma {:induction false} ChainUnique(store: Store, tip: Hash, c: seq<Block>, d: seq<Block>)
    requires IsChain(store, tip, c) && IsChain(store, tip, d)
    ensures c == d
    decreases |c|
  {
    ChainStep(store, tip, c);
    ChainStep(store, tip, d);
    if |c| > 1 {
      ChainUnique(store, store[tip].previousHash, c[..|c| - 1], d[..|d| - 1]);
    }
  }

  /** Storing a block under a hash that is not on the chain leaves the chain alone. */
  lemma ChainFramed(store: Store, tip: Hash, c: seq<Block>, b: Block)
    requires IsChain(store, tip, c)
    requires forall i :: 0 <= i < |c| ==> c[i].hash != b.hash
    ensures IsChain(store[b.hash := b], tip, c)
  {
    forall i | 0 <= i < |c|
      ensures Stored(store[b.hash := b], c[i])
    {
      assert Stored(store, c[i]);
    }
  }

  lemma ChainExtended(store: Store, tip: Hash, c: seq<Block>, b: Block)
    requires IsChain(store, tip, c) && b.previousHash == tip && b.hash != ZERO_HASH
    requires forall i :: 0 <= i < |c| ==> c[i].hash != b.hash
    ensures IsChain(store[b.hash := b], b.hash, c + [b])
  {
    ChainFramed(store, tip, c, b);
    var d := c + [b];
    LinkedSnoc(c, b);
    forall i | 0 <= i < |d|
      ensures Stored(store[b.hash := b], d[i])
    {
      assert i < |c| ==> Stored(store[b.hash := b], c[i]);
    }
  }

  // ---------------------------------------------------------------- serving blocks

  function Limit(max: int): nat {
    if max <= 0 then 10000 else max
  }

  function Lowest(found: seq<Block>, max: int): seq<Block> {
    if |found| <= Limit(max) then found else found[..Limit(max)]
  }

  /** The walk back goes no further than this block. */
  predicate AtEnd(b: Block, from: u64) {
    b.height <= from || b.previousHash == ZERO_HASH
  }

  /** The walk back from h ends within n rounds: it needs more only where parent links form a cycle above `from`. */
  ghost predicate Ends(store: Store, h: Hash, from: u64, n: nat)
    decreases n
  {
    n > 0 && (h !in store || AtEnd(store[h], from) || Ends(store, store[h].previousHash, from, n - 1))
  }

  /** The blocks the walk back from h finds, ascending; None when it meets a hash that is not stored. */
  ghost function Found(store: Store, h: Hash, from: u64, n: nat): Option<seq<Block>>
    requires Ends(store, h, from, n)
    decreases n
  {
    if h !in store then None
    else if store[h].height < from then Some([])
    else if AtEnd(store[h], from) then Some([store[h]])
    else Followed(Found(store, store[h].previousHash, from, n - 1), [store[h]])
  }

  function Followed(found: Option<seq<Block>>, higher: seq<Block>): Option<seq<Block>> {
    if found.None? then None else Some(found.value + higher)
  }

  /** What GetBlocksFrom answers: an error, or the lowest `max` of the blocks found. */
  ghost function Answer(store: Store, h: Hash, from: u64, n: nat, max: int): Option<seq<Block>>
    requires Ends(store, h, from, n)
  {
    var found := Found(store, h, from, n);
    if found.None? then None else Some(Lowest(found.value, max))
  }

  /** Consecutive blocks of an answer: each is stored under the parent link of the next. */
  ghost predicate Ascends(store: Store, found: seq<Block>) {
    forall i :: 0 < i < |found| ==> found[i].previousHash in store && store[found[i].previousHash] == found[i - 1]
  }

  /** What the walk finds: the blocks from the one at h down parent links, ascending, none below `from`, and
      none that it should still have found below the first. */
  lemma {:induction false} FoundIsRun(store: Store, h: Hash, from: u64, n: nat)
    requires Ends(store, h, from, n) && Found(store, h, from, n).Some?
    ensures var found := Found(store, h, from, n).value;
      && h in store && (found == [] <==> store[h].height < from)
      && (found != [] ==> found[|found| - 1] == store[h] && Complete(store, found[0], from))
      && Ascends(store, found) && (forall i :: 0 <= i < |found| ==> found[i].height >= from)
    decreases n
  {
    if !AtEnd(store[h], from) {
      FoundIsRun(store, store[h].previousHash, from, n - 1);
    }
  }

  /** Nothing at or above `from` is left below b. */
  ghost predicate Complete(store: Store, b: Block, from: u64) {
    || b.height == from || b.previousHash == ZERO_HASH
    || (b.previousHash in store && store[b.previousHash].height < from)
  }

  /** An error means a parent link that leads out of the store. */
  lemma {:induction false} NotFoundIsGap(store: Store, h: Hash, from: u64, n: nat) returns (gap: Hash)
    requires Ends(store, h, from, n) && Found(store, h, from, n).None?
    ensures gap !in store && (gap == h || exists k :: k in store && store[k].previousHash == gap && gap != ZERO_HASH)
    decreases n
  {
    if h !in store {
      gap := h;
    } else {
      gap := NotFoundIsGap(store, store[h].previousHash, from, n - 1);
    }
  }

  lemma {:induction false} FoundAnyBound(store: Store, h: Hash, from: u64, n: nat, k: nat)
    requires Ends(store, h, from, n) && Ends(store, h, from, k)
    ensures Found(store, h, from, n) == Found(store, h, from, k)
    decreases n
  {
    if h in store && !AtEnd(store[h], from) {
      FoundAnyBound(store, store[h].previousHash, from, n - 1, k - 1);
    }
  }

  /** Where on a chain the walk back stops. */
  function WalkStart(c: seq<Block>, from: u64): (k: nat)
    ensures k <= |c|
  {
    if c == [] then 0
    else if c[|c| - 1].height < from then |c|
    else if c[|c| - 1].height == from || |c| == 1 then |c| - 1
    else WalkStart(c[..|c| - 1], from)
  }

  /** What a node on the chain c answers. */
  function Served(c: seq<Block>, from: u64, max: int): seq<Block> {
    Lowest(c[WalkStart(c, from)..], max)
  }

  /** On a chain the walk back ends and answers with the blocks served. */
  lemma {:induction false} ChainAnswers(store: Store, tip: Hash, c: seq<Block>, from: u64)
    requires IsChain(store, tip, c)
    ensures Ends(store, tip, from, |c|) && Found(store, tip, from, |c|) == Some(c[WalkStart(c, from)..])
    decreases |c|
  {
    ChainStep(store, tip, c);
    assert c[|c| - 1..] == [store[tip]] && c[|c|..] == [];
    if !AtEnd(store[tip], from) {
      var init := c[..|c| - 1];
      ChainAnswers(store, store[tip].previousHash, init, from);
      assert init[WalkStart(init, from)..] + [store[tip]] == c[WalkStart(init, from)..];
    }
  }

  lemma {:induction false} WalkStartContiguous(c: seq<Block>, from: u64)
    requires Contiguous(c) && from < |c|
    ensures WalkStart(c, from) == from
  {
    if from < |c| - 1 {
      WalkStartContiguous(c[..|c| - 1], from);
    }
  }

  /** With contiguous heights the answer is exactly the blocks from `from` on, min(max, Height-from+1) many. */
  lemma ServedContiguous(c: seq<Block>, from: u64, max: int)
    requires Contiguous(c) && from < |c|
    ensures Served(c, from, max) ==
            c[from..if |c| - from <= Limit(max) then |c| else from + Limit(max)]
  {
    WalkStartContiguous(c, from);
    assert c[from..] == c[from..|c|];
  }

  /** BlocksFromGenesisToTip is the whole chain exactly when its height is below 10000. */
  lemma WholeChainIff(c: seq<Block>)
    requires c != [] && Contiguous(c)
    ensures Served(c, 0, 0) == c <==> c[|c| - 1].height < 10000
  {
    ServedContiguous(c, 0, 0);
    assert |c| > 10000 ==> |Served(c, 0, 0)| == 10000;
    assert c[..|c|] == c;
  }

  class Chain {
    var blocks: Store
    var height: u64
    var lastHash: Hash

    constructor ()
      ensures blocks == map[] && height == 0 && lastHash == ZERO_HASH
    {
      blocks, height, lastHash := map[], 0, ZERO_HASH;
    }

    method AppendBlock(b: Block)
      modifies this
      ensures blocks == old(blocks)[b.hash := b] && height == b.height && lastHash == b.hash
    {
      blocks := blocks[b.hash := b];
      height := b.height;
      lastHash := b.hash;
    }

    method WriteBlock(b: Block)
      modifies this`blocks
      ensures blocks == old(blocks)[b.hash := b]
    {
      blocks := blocks[b.hash := b];
    }

    method SetTip(b: Block)
      modifies this`height, this`lastHash
      ensures height == b.height && lastHash == b.hash
    {
      height := b.height;
      lastHash := b.hash;
    }

    method GetBlock(h: Hash) returns (b: Option<Block>)
      ensures b == if h in blocks then Some(blocks[h]) else None
    {
      b := if h in blocks then Some(blocks[h]) else None;
    }

    method HasBlock(h: Hash) returns (found: bool)
      ensures found <==> h in blocks
    {
      var b := GetBlock(h);
      return b.Some?;
    }

    method LastBlock() returns (b: Option<Block>)
      ensures b == if lastHash != ZERO_HASH && lastHash in blocks then Some(blocks[lastHash]) else None
    {
      if lastHash == ZERO_HASH {
        return None;
      }
      b := GetBlock(lastHash);
    }

    /** The hashes are those of the given blocks, from the last down. */
    ghost predicate HashesOf(hashes: seq<Hash>, found: seq<Block>)
      reads this
    {
      && |hashes| == |found|
      && (forall i :: 0 <= i < |hashes| ==> hashes[i] in blocks && blocks[hashes[i]] == found[|hashes| - 1 - i])
    }

    /** The walk back from the tip. */
    method CollectHashes(from: u64, ghost n: nat) returns (hashes: seq<Hash>, ok: bool)
      requires Ends(blocks, lastHash, from, n)
      ensures ok <==> Found(blocks, lastHash, from, n).Some?
      ensures ok ==> HashesOf(hashes, Found(blocks, lastHash, from, n).value)
    {
      hashes := [];
      var h := lastHash;
      ghost var k, got := n, [];
      ghost var found := Found(blocks, lastHash, from, n);
      assert found.Some? ==> found.value + [] == found.value;
      while true
        invariant Ends(blocks, h, from, k) && HashesOf(hashes, got)
        invariant found == Followed(Found(blocks, h, from, k), got)
        decreases k
      {
        var b := GetBlock(h);
        if b.None? {
          return hashes, false;
        }
        assert [] + got == got;
        if b.value.height < from {
          return hashes, true;
        }
        ghost var more := [b.value] + got;
        Grown(hashes, got, h);
        hashes := hashes + [h];
        if b.value.height == from || b.value.previousHash == ZERO_HASH {
          return hashes, true;
        }
        FollowedTwice(Found(blocks, b.value.previousHash, from, k - 1), b.value, got);
        h, k, got := b.value.previousHash, k - 1, more;
      }
    }

    lemma Grown(hashes: seq<Hash>, got: seq<Block>, h: Hash)
      requires HashesOf(hashes, got) && h in blocks
      ensures HashesOf(hashes + [h], [blocks[h]] + got)
    {
    }

    method LoadReversed(hashes: seq<Hash>, ghost found: seq<Block>) returns (out: seq<Block>)
      requires HashesOf(hashes, found)
      ensures out == found
    {
      out := [];
      var i := |hashes| - 1;
      while i >= 0
        invariant -1 <= i < |hashes| && |out| == |hashes| - 1 - i
        invariant out == found[..|out|]
      {
        out := out + [blocks[hashes[i]]];
        i := i - 1;
      }
    }

    /** Up to `max` blocks from a height on: the walk, the cut and the reversal; None for an error. */
    method GetBlocksFrom(from: u64, max: int, ghost n: nat) returns (out: Option<seq<Block>>)
      requires lastHash != ZERO_HASH && from <= height ==> Ends(blocks, lastHash, from, n)
      ensures out == if lastHash == ZERO_HASH || height < from then Some([]) else Answer(blocks, lastHash, from, n, max)
    {
      var limit := if max <= 0 then 10000 else max;
      if lastHash == ZERO_HASH || height < from {
        return Some([]);
      }
      var hashes, ok := CollectHashes(from, n);
      if !ok {
        return None;
      }
      ghost var found := Found(blocks, lastHash, from, n).value;
      if |hashes| > limit {
        hashes := hashes[|hashes| - limit..];
      }
      var blocks' := LoadReversed(hashes, Lowest(found, max));
      return Some(blocks');
    }

    method BlocksFromGenesisToTip(ghost n: nat) returns (out: Option<seq<Block>>)
      requires lastHash != ZERO_HASH ==> Ends(blocks, lastHash, 0, n)
      ensures out == if lastHash == ZERO_HASH then Some([]) else Answer(blocks, lastHash, 0, n, 0)
    {
      out := GetBlocksFrom(0, 0, n);
    }
  }

  lemma FollowedTwice(found: Option<seq<Block>>, b: Block, higher: seq<Block>)
    ensures Followed(Followed(found, [b]), higher) == Followed(found, [b] + higher)
  {
    if found.Some? {
      assert found.value + [b] + higher == found.value + ([b] + higher);
    }
  }
}
