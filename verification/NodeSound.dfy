/** Invariants of every reachable node state: the tip's chain is linked and stored, and the ledger is
    the replay of that chain. */
module NodeSound {
  import opened Words
  import opened Crypto
  import opened Blocks
  import opened Ledger
  import opened Validators
  import opened ChainStore
  import opened Mempool
  import opened NodeMachine

  /** A configuration as written by initialisation: an allocation with one meaning, and a genesis
      block made by GenesisBlock. */
  ghost predicate WellFormed(cfg: Config) {
    && Consistent(cfg.genesis.allocation)
    && exists v :: cfg.genesisBlock == GenesisBlock(cfg.sha, v)
  }

  /** On the blocks at hand, no block hash is zero and equal hashes mean equal hashed fields. */
  ghost predicate HashSafe(sha: Sha, blocks: set<Block>) {
    && (forall b :: b in blocks ==> BlockHash(sha, b) != ZERO_HASH)
    && (forall b, c {:trigger SamePayload(sha, b, c)} ::
          b in blocks && c in blocks && BlockHash(sha, b) == BlockHash(sha, c) ==> SamePayload(sha, b, c))
  }

  predicate SamePayload(sha: Sha, b: Block, c: Block) {
    Payload(sha, b) == Payload(sha, c)
  }

  ghost predicate AllValid(sha: Sha, c: seq<Block>, known: set<Block>) {
    forall i {:trigger Validates(sha, c[i])} {:trigger c[i] in known} ::
      0 <= i < |c| ==> Validates(sha, c[i]) && c[i] in known
  }

  /** All blocks are known and all but the first are valid: the first block of an adopted batch is never checked. */
  ghost predicate TailValid(sha: Sha, c: seq<Block>, known: set<Block>) {
    && (forall i {:trigger c[i] in known} :: 0 <= i < |c| ==> c[i] in known)
    && (forall i {:trigger Validates(sha, c[i])} :: 1 <= i < |c| ==> Validates(sha, c[i]))
  }

  /** The state agrees with the chain c. */
  ghost predicate Sound(cfg: Config, s: NodeState, c: seq<Block>) {
    && IsChain(s.store, s.tip, c)
    && s.height == c[|c| - 1].height
    && s.view.accounts == Replay(GenesisAccounts(cfg.genesis), c)
    && Tidy(cfg.sha, PoolMax(cfg), s.pool)
  }

  lemma TipIsLast(cfg: Config, s: NodeState, c: seq<Block>)
    requires Sound(cfg, s, c)
    ensures LastBlock(s) == Some(c[|c| - 1]) && s.tip == c[|c| - 1].hash
  {
    assert Stored(s.store, c[|c| - 1]);
  }

  lemma ReplayAppend(acc: Accounts, c: seq<Block>, b: Block)
    ensures Replay(acc, c + [b]) == ApplyBlock(Replay(acc, c), b)
  {
    assert (c + [b])[..|c|] == c;
  }

  lemma AdoptSound(cfg: Config, s: NodeState, c: seq<Block>, b: Block)
    requires Sound(cfg, s, c) && b.previousHash == s.tip && b.hash != ZERO_HASH
    requires forall i :: 0 <= i < |c| ==> c[i].hash != b.hash
    ensures Sound(cfg, Adopted(cfg, s, b), c + [b])
  {
    ChainExtended(s.store, s.tip, c, b);
    ReplayAppend(GenesisAccounts(cfg.genesis), c, b);
    RemoveKeepsTidy(cfg.sha, PoolMax(cfg), s.pool, b.txs);
  }

  /** A block whose hash is not stored is not on the chain. */
  lemma FreshNotOnChain(s: NodeState, c: seq<Block>, b: Block)
    requires IsChain(s.store, s.tip, c) && b.hash !in s.store
    ensures forall i :: 0 <= i < |c| ==> c[i].hash != b.hash
  {
    forall i | 0 <= i < |c|
      ensures c[i].hash != b.hash
    {
      assert Stored(s.store, c[i]);
    }
  }

  /** A block built on the tip is not already on the chain: that would close a cycle of parent links. */
  lemma ChildNotOnChain(sha: Sha, s: NodeState, c: seq<Block>, b: Block, known: set<Block>)
    requires IsChain(s.store, s.tip, c) && TailValid(sha, c, known) && HashSafe(sha, known)
    requires b in known && Validates(sha, b) && b.previousHash == s.tip && b.hash != c[0].hash
    ensures forall i :: 0 <= i < |c| ==> c[i].hash != b.hash
  {
    forall i | 1 <= i < |c|
      ensures c[i].hash != b.hash
    {
      NoChildOnChain(s.store, s.tip, c, i);
      SameHashSameParent(sha, c[i], b, known);
    }
  }

  /** No block of a chain has its tip as parent. */
  lemma NoChildOnChain(store: Store, tip: Hash, c: seq<Block>, i: nat)
    requires IsChain(store, tip, c) && 0 < i < |c|
    ensures c[i].previousHash != tip
  {
    assert LinkAt(c, i);
    NoRepeats(store, tip, c, i - 1, |c| - 1);
  }

  lemma SameHashSameParent(sha: Sha, b: Block, c: Block, known: set<Block>)
    requires HashSafe(sha, known) && b in known && c in known && Validates(sha, b) && Validates(sha, c)
    ensures b.hash == c.hash ==> b.previousHash == c.previousHash
  {
    assert BlockHash(sha, b) == BlockHash(sha, c) ==> SamePayload(sha, b, c);
  }

  // ---------------------------------------------------------------- extension

  lemma SlashSound(cfg: Config, s: NodeState, c: seq<Block>, b: Block)
    requires Sound(cfg, s, c)
    ensures Sound(cfg, Slashed(s, b), c)
  {
    SlashRemovesExactly(s.view, b.validator);
  }

  /** Taking over a received block that extends the tip. */
  lemma TakeSound(cfg: Config, s: NodeState, c: seq<Block>, b: Block)
    requires Sound(cfg, s, c) && b.previousHash == s.tip && b.hash != ZERO_HASH && b.hash !in s.store
    ensures Sound(cfg, After(cfg, s, b, Take), c + [b])
  {
    FreshNotOnChain(s, c, b);
    AdoptSound(cfg, Recorded(s, b), c, b);
  }

  /** The chain after a verdict on a block. */
  function ChainAfter(c: seq<Block>, b: Block, v: Verdict): seq<Block> {
    if v == Take then c + [b] else c
  }

  lemma VerdictSound(cfg: Config, leaders: seq<Validator>, s: NodeState, c: seq<Block>, b: Block, v: Verdict)
    requires Sound(cfg, s, c) && b.hash != ZERO_HASH && Justified(cfg, leaders, s, b, v)
    ensures Sound(cfg, After(cfg, s, b, v), ChainAfter(c, b, v))
  {
    match v
    case Punish => SlashSound(cfg, s, c, b);
    case Take =>
      TipIsLast(cfg, s, c);
      TakeSound(cfg, s, c, b);
    case _ =>
  }

  lemma JudgedSound(cfg: Config, leaders: seq<Validator>, s: NodeState, c: seq<Block>, b: Block, v: Verdict,
                    known: set<Block>)
    requires Sound(cfg, s, c) && HashSafe(cfg.sha, known) && b in known && Justified(cfg, leaders, s, b, v)
    ensures Sound(cfg, After(cfg, s, b, v), ChainAfter(c, b, v))
  {
    if v != Pass {
      assert BlockHash(cfg.sha, b) == b.hash;
      VerdictSound(cfg, leaders, s, c, b, v);
    }
  }

  /** The chain after the extension loop: the blocks it took over, added to the end. */
  ghost function ChainAfterAll(cfg: Config, leaders: seq<Validator>, s: NodeState, c: seq<Block>,
                               blocks: seq<Block>): (d: seq<Block>)
    ensures c <= d
    decreases |blocks|
  {
    if blocks == [] then c
    else
      var v := Judge(cfg, leaders, s, blocks[0]);
      if v == Stop then c
      else ChainAfterAll(cfg, leaders, After(cfg, s, blocks[0], v), ChainAfter(c, blocks[0], v), blocks[1..])
  }

  lemma {:induction false} ExtendSound(cfg: Config, leaders: seq<Validator>, s: NodeState, c: seq<Block>,
                                      blocks: seq<Block>, known: set<Block>)
    requires Sound(cfg, s, c) && HashSafe(cfg.sha, known) && forall b :: b in blocks ==> b in known
    ensures Sound(cfg, Extend(cfg, leaders, s, blocks).state, ChainAfterAll(cfg, leaders, s, c, blocks))
    decreases |blocks|
  {
    if blocks != [] {
      var b := blocks[0];
      var v := Judge(cfg, leaders, s, b);
      JudgedSound(cfg, leaders, s, c, b, v, known);
      if v != Stop {
        ExtendSound(cfg, leaders, After(cfg, s, b, v), ChainAfter(c, b, v), blocks[1..], known);
      }
    }
  }

  lemma JudgedTailValid(cfg: Config, leaders: seq<Validator>, s: NodeState, c: seq<Block>, b: Block, v: Verdict,
                        known: set<Block>)
    requires c != [] && TailValid(cfg.sha, c, known) && b in known && Justified(cfg, leaders, s, b, v)
    ensures TailValid(cfg.sha, ChainAfter(c, b, v), known)
  {
    SnocTailValid(cfg.sha, c, b, known);
  }

  lemma SnocTailValid(sha: Sha, c: seq<Block>, b: Block, known: set<Block>)
    requires c != [] && TailValid(sha, c, known) && b in known
    ensures Validates(sha, b) ==> TailValid(sha, c + [b], known)
  {
  }

  lemma {:induction false} ExtendTailValid(cfg: Config, leaders: seq<Validator>, s: NodeState, c: seq<Block>,
                                          blocks: seq<Block>, known: set<Block>)
    requires c != [] && TailValid(cfg.sha, c, known) && forall b :: b in blocks ==> b in known
    ensures TailValid(cfg.sha, ChainAfterAll(cfg, leaders, s, c, blocks), known)
    decreases |blocks|
  {
    if blocks != [] {
      var b := blocks[0];
      var v := Judge(cfg, leaders, s, b);
      JudgedTailValid(cfg, leaders, s, c, b, v, known);
      if v != Stop {
        ExtendTailValid(cfg, leaders, After(cfg, s, b, v), ChainAfter(c, b, v), blocks[1..], known);
      }
    }
  }

  // ---------------------------------------------------------------- reorganisation

  lemma {:induction false} WriteAllAt(store: Store, blocks: seq<Block>, i: nat)
    requires i < |blocks|
    requires forall j :: i < j < |blocks| ==> blocks[j].hash != blocks[i].hash
    ensures blocks[i].hash in WriteAll(store, blocks) && WriteAll(store, blocks)[blocks[i].hash] == blocks[i]
  {
    if i < |blocks| - 1 {
      WriteAllAt(store, blocks[..|blocks| - 1], i);
    }
  }

  /** In a linked batch, two equal hashes would propagate down to the first block. */
  lemma {:induction false} BatchDistinct(sha: Sha, blocks: seq<Block>, known: set<Block>, i: nat, j: nat)
    requires LinkedBatch(sha, blocks) && HashSafe(sha, known) && i < j < |blocks|
    requires forall k :: 1 <= k < |blocks| ==> blocks[k] in known
    requires forall k :: 1 <= k < |blocks| ==> blocks[k].hash != blocks[0].hash
    ensures blocks[i].hash != blocks[j].hash
  {
    if i > 0 {
      BatchDistinct(sha, blocks, known, i - 1, j - 1);
      assert LinkAt(blocks, i) && LinkAt(blocks, j);
      SameHashSameParent(sha, blocks[i], blocks[j], known);
    }
  }

  lemma BatchRecorded(sha: Sha, store: Store, blocks: seq<Block>, known: set<Block>, i: nat)
    requires LinkedBatch(sha, blocks) && HashSafe(sha, known) && i < |blocks|
    requires forall k :: 1 <= k < |blocks| ==> blocks[k] in known
    requires FirstApart(blocks)
    ensures Stored(WriteAll(store, blocks), blocks[i])
  {
    forall j | i < j < |blocks|
      ensures blocks[j].hash != blocks[i].hash
    {
      BatchDistinct(sha, blocks, known, i, j);
    }
    WriteAllAt(store, blocks, i);
    assert i > 0 ==> Validates(sha, blocks[i]);
  }

  /** The claimed hash of the first block, which is never checked, is neither zero nor that of a later block. */
  predicate FirstApart(blocks: seq<Block>)
    requires blocks != []
  {
    blocks[0].hash != ZERO_HASH && forall k :: 1 <= k < |blocks| ==> blocks[k].hash != blocks[0].hash
  }

  /** What the reorganisation records, exactly: after it, the parent links from the new tip lead back
      through the adopted batch if and only if the first block, whose validity is not checked, claims a
      hash that is neither zero nor that of a later block in the batch. */
  lemma ReorgRecordsBatchIff(sha: Sha, store: Store, blocks: seq<Block>, known: set<Block>)
    requires LinkedBatch(sha, blocks) && FromGenesis(blocks) && HashSafe(sha, known)
    requires forall k :: 1 <= k < |blocks| ==> blocks[k] in known
    ensures IsChain(WriteAll(store, blocks), Top(blocks).hash, blocks) <==> FirstApart(blocks)
  {
    var after := WriteAll(store, blocks);
    if IsChain(after, Top(blocks).hash, blocks) {
      assert Stored(after, blocks[0]);
      forall k | 1 <= k < |blocks|
        ensures blocks[k].hash != blocks[0].hash
      {
        NoRepeats(after, Top(blocks).hash, blocks, 0, k);
      }
    }
    if FirstApart(blocks) {
      forall i | 0 <= i < |blocks|
        ensures Stored(after, blocks[i])
      {
        BatchRecorded(sha, store, blocks, known, i);
      }
    }
  }

  /** A valid first block satisfies the condition. */
  lemma ValidFirstBlockSuffices(sha: Sha, blocks: seq<Block>, known: set<Block>)
    requires LinkedBatch(sha, blocks) && FromGenesis(blocks) && HashSafe(sha, known) && AllValid(sha, blocks, known)
    ensures FirstApart(blocks)
  {
    assert Validates(sha, blocks[0]) && BlockHash(sha, blocks[0]) == blocks[0].hash;
    forall k | 1 <= k < |blocks|
      ensures blocks[k].hash != blocks[0].hash
    {
      assert LinkAt(blocks, k) && Validates(sha, blocks[k - 1]);
      SameHashSameParent(sha, blocks[k], blocks[0], known);
    }
  }

  lemma {:induction false} RemoveAllTidy(sha: Sha, max: nat, pool: seq<Transaction>, blocks: seq<Block>)
    requires Tidy(sha, max, pool)
    ensures Tidy(sha, max, RemoveAll(sha, pool, blocks))
  {
    if blocks != [] {
      RemoveAllTidy(sha, max, pool, blocks[..|blocks| - 1]);
      RemoveKeepsTidy(sha, max, RemoveAll(sha, pool, blocks[..|blocks| - 1]), blocks[|blocks| - 1].txs);
    }
  }

  /** After a reorganisation the state agrees with the adopted batch exactly under that condition. */
  lemma ReorgSoundIff(cfg: Config, s: NodeState, blocks: seq<Block>, known: set<Block>)
    requires Tidy(cfg.sha, PoolMax(cfg), s.pool) && HashSafe(cfg.sha, known)
    requires LinkedBatch(cfg.sha, blocks) && FromGenesis(blocks) && TailValid(cfg.sha, blocks, known)
    ensures Sound(cfg, Reorganised(cfg, s, blocks), blocks) <==> FirstApart(blocks)
  {
    ReorgRecordsBatchIff(cfg.sha, s.store, blocks, known);
    RemoveAllTidy(cfg.sha, PoolMax(cfg), s.pool, blocks);
  }

  // ---------------------------------------------------------------- every step, every run

  lemma EmptyBlockIsNeutral(acc: Accounts, b: Block)
    requires b.txs == []
    ensures ApplyBlock(acc, b) == acc
  {
    assert LoadedNonces(acc.nonces, []) == map[] && NoncesAfter(acc, []) == acc.nonces;
  }

  lemma StartSound(cfg: Config)
    requires WellFormed(cfg) && HashSafe(cfg.sha, {cfg.genesisBlock})
    ensures Sound(cfg, Started(cfg, BLANK), [cfg.genesisBlock])
    ensures AllValid(cfg.sha, [cfg.genesisBlock], {cfg.genesisBlock})
  {
    var g := cfg.genesisBlock;
    var acc := GenesisAccounts(cfg.genesis);
    EmptyBlockIsNeutral(acc, g);
    ReplayAppend(acc, [], g);
    assert [] + [g] == [g];
  }

  /** The chain a node means to be on after a step: what it took over or produced is added, what it
      reorganised to replaces the rest. */
  ghost function HistoryAfter(cfg: Config, s: NodeState, c: seq<Block>, e: Event): (d: seq<Block>)
    requires c != []
    ensures d != []
  {
    if e.ReceiveBlock? then
      ChainAfter(c, e.block, JudgeSingle(cfg, ValidatorSet(s.view), s, e.block))
    else if e.ReceiveBlocks? && BranchOf(cfg, s, e.blocks) == ExtendTip then
      ChainAfterAll(cfg, ValidatorSet(s.view), s, c, e.blocks)
    else if e.ReceiveBlocks? && BranchOf(cfg, s, e.blocks) == Reorg then e.blocks
    else if e.Tick? && Proposal(cfg, s, e.now, e.sig).Some? then c + [Proposal(cfg, s, e.now, e.sig).value]
    else c
  }

  ghost function History(cfg: Config, es: seq<Event>): (c: seq<Block>)
    ensures c != []
  {
    if es == [] then [cfg.genesisBlock]
    else HistoryAfter(cfg, Run(cfg, es[..|es| - 1]), History(cfg, es[..|es| - 1]), es[|es| - 1])
  }

  /** What the code would have to check and does not: the first block of a batch that is about to be
      adopted must not claim the zero hash or the hash of a later block, and a block about to be
      produced must not have the hash that the first block of the chain claims. */
  ghost predicate HashesApart(cfg: Config, s: NodeState, c: seq<Block>, e: Event)
    requires c != []
  {
    && (e.ReceiveBlocks? && BranchOf(cfg, s, e.blocks) == Reorg ==> FirstApart(e.blocks))
    && (e.Tick? && Proposal(cfg, s, e.now, e.sig).Some? ==> Proposal(cfg, s, e.now, e.sig).value.hash != c[0].hash)
  }

  ghost predicate AlwaysApart(cfg: Config, es: seq<Event>) {
    forall n :: 0 <= n < |es| ==> HashesApart(cfg, Run(cfg, es[..n]), History(cfg, es[..n]), es[n])
  }

  ghost predicate AlwaysSound(cfg: Config, es: seq<Event>) {
    forall n :: 0 <= n <= |es| ==> Sound(cfg, Run(cfg, es[..n]), History(cfg, es[..n]))
  }

  lemma ProduceSoundIff(cfg: Config, s: NodeState, c: seq<Block>, b: Block, known: set<Block>)
    requires Sound(cfg, s, c) && TailValid(cfg.sha, c, known) && HashSafe(cfg.sha, known)
    requires b in known && Validates(cfg.sha, b) && b.previousHash == s.tip
    ensures Sound(cfg, Adopted(cfg, s, b), c + [b]) <==> b.hash != c[0].hash
  {
    EndsDiffer(Adopted(cfg, s, b).store, b.hash, c, b);
    if b.hash != c[0].hash {
      assert BlockHash(cfg.sha, b) == b.hash;
      ChildNotOnChain(cfg.sha, s, c, b, known);
      AdoptSound(cfg, s, c, b);
    }
  }

  lemma EndsDiffer(store: Store, tip: Hash, c: seq<Block>, b: Block)
    requires c != []
    ensures IsChain(store, tip, c + [b]) ==> c[0].hash != b.hash
  {
    if IsChain(store, tip, c + [b]) {
      NoRepeats(store, tip, c + [b], 0, |c|);
    }
  }

  lemma TxTidy(cfg: Config, s: NodeState, tx: Transaction)
    requires Tidy(cfg.sha, PoolMax(cfg), s.pool)
    ensures Tidy(cfg.sha, PoolMax(cfg), HandleTx(cfg, s, tx).state.pool)
  {
    if Refusal(cfg.sha, cfg.verify, PoolMax(cfg), Some(s.view.accounts), s.pool, tx).None? {
      AddKeepsTidy(cfg.sha, cfg.verify, PoolMax(cfg), Some(s.view.accounts), s.pool, tx);
    }
  }

  /** One step from a state that agrees with its history: the next state agrees with the new history
      if and only if the hashes are apart. */
  lemma StepSoundIff(cfg: Config, s: NodeState, c: seq<Block>, e: Event, known: set<Block>)
    requires Sound(cfg, s, c) && TailValid(cfg.sha, c, known) && HashSafe(cfg.sha, known) && Brings(cfg, s, e) <= known
    ensures Sound(cfg, Step(cfg, s, e).state, HistoryAfter(cfg, s, c, e)) <==> HashesApart(cfg, s, c, e)
  {
    match e
    case ReceiveTx(tx) => TxTidy(cfg, s, tx);
    case ReceiveBlock(b) =>
      assert b in Brings(cfg, s, e);
      NewBlockSound(cfg, s, c, b, known);
    case ReceiveBlocks(bs) =>
      assert forall b :: b in bs ==> b in Brings(cfg, s, e);
      BlocksSoundIff(cfg, s, c, bs, known);
    case Tick(now, sig) =>
      TickSoundIff(cfg, s, c, now, sig, known);
    case Request(from, max) =>
    case Restart => RestartSound(cfg, s, c);
  }

  lemma RestartSound(cfg: Config, s: NodeState, c: seq<Block>)
    requires Sound(cfg, s, c)
    ensures Sound(cfg, Started(cfg, s), c)
  {
    TipIsLast(cfg, s, c);
    assert Stored(s.store, c[|c| - 1]);
  }

  lemma NewBlockSound(cfg: Config, s: NodeState, c: seq<Block>, b: Block, known: set<Block>)
    requires Sound(cfg, s, c) && HashSafe(cfg.sha, known) && b in known
    ensures Sound(cfg, HandleNewBlock(cfg, s, b).state, HistoryAfter(cfg, s, c, ReceiveBlock(b)))
  {
    JudgedSound(cfg, ValidatorSet(s.view), s, c, b, JudgeSingle(cfg, ValidatorSet(s.view), s, b), known);
  }

  lemma TickSoundIff(cfg: Config, s: NodeState, c: seq<Block>, now: i64, sig: seq<byte>, known: set<Block>)
    requires Sound(cfg, s, c) && TailValid(cfg.sha, c, known) && HashSafe(cfg.sha, known)
    requires Brings(cfg, s, Tick(now, sig)) <= known
    ensures var e := Tick(now, sig);
      Sound(cfg, Produce(cfg, s, now, sig).state, HistoryAfter(cfg, s, c, e)) <==> HashesApart(cfg, s, c, e)
  {
    var p := Proposal(cfg, s, now, sig);
    if p.Some? {
      assert p.value in Brings(cfg, s, Tick(now, sig));
      TipIsLast(cfg, s, c);
      ProposalValid(cfg, s, now, sig);
      ProduceSoundIff(cfg, s, c, p.value, known);
    }
  }

  lemma ProposalValid(cfg: Config, s: NodeState, now: i64, sig: seq<byte>)
    requires Proposal(cfg, s, now, sig).Some?
    ensures var b := Proposal(cfg, s, now, sig).value;
      && Validates(cfg.sha, b) && LastBlock(s).Some? && b.previousHash == LastBlock(s).value.hash
      && b.height == Add64(LastBlock(s).value.height, 1)
  {
    var last := LastBlock(s).value;
    var txs := Prefix(s.pool, 100);
    SigningKeepsValidity(cfg.sha, NewBlock(cfg.sha, Add64(last.height, 1), now, last.hash, cfg.self, txs), sig);
  }

  lemma ReorgOnlyUpwards(cfg: Config, s: NodeState, bs: seq<Block>)
    requires BranchOf(cfg, s, bs) == Reorg
    ensures LastBlock(s).Some? && Top(bs).height > LastBlock(s).value.height
    ensures LinkedBatch(cfg.sha, bs) && FromGenesis(bs) && |bs| > 1
  {
  }

  lemma LinkedBatchTailValid(sha: Sha, bs: seq<Block>, known: set<Block>)
    requires LinkedBatch(sha, bs) && forall b :: b in bs ==> b in known
    ensures TailValid(sha, bs, known)
  {
    assert forall i :: 0 <= i < |bs| ==> bs[i] in bs;
  }

  lemma BlocksSoundIff(cfg: Config, s: NodeState, c: seq<Block>, bs: seq<Block>, known: set<Block>)
    requires Sound(cfg, s, c) && HashSafe(cfg.sha, known) && forall b :: b in bs ==> b in known
    ensures var e := ReceiveBlocks(bs);
      Sound(cfg, HandleBlocks(cfg, s, bs).state, HistoryAfter(cfg, s, c, e)) <==> HashesApart(cfg, s, c, e)
  {
    match BranchOf(cfg, s, bs)
    case ExtendTip =>
      ExtendSound(cfg, ValidatorSet(s.view), s, c, bs, known);
    case Reorg =>
      ReorgOnlyUpwards(cfg, s, bs);
      LinkedBatchTailValid(cfg.sha, bs, known);
      ReorgSoundIff(cfg, s, bs, known);
    case SyncFromEmpty =>
      TipIsLast(cfg, s, c);
    case _ =>
  }

  lemma StepTailValid(cfg: Config, s: NodeState, c: seq<Block>, e: Event, known: set<Block>)
    requires c != [] && TailValid(cfg.sha, c, known) && Brings(cfg, s, e) <= known
    ensures TailValid(cfg.sha, HistoryAfter(cfg, s, c, e), known)
  {
    if e.ReceiveBlock? {
      assert e.block in Brings(cfg, s, e);
      SnocTailValid(cfg.sha, c, e.block, known);
    } else if e.ReceiveBlocks? {
      assert forall b :: b in e.blocks ==> b in Brings(cfg, s, e);
      if BranchOf(cfg, s, e.blocks) == ExtendTip {
        ExtendTailValid(cfg, ValidatorSet(s.view), s, c, e.blocks, known);
      } else if BranchOf(cfg, s, e.blocks) == Reorg {
        LinkedBatchTailValid(cfg.sha, e.blocks, known);
      }
    } else if e.Tick? && Proposal(cfg, s, e.now, e.sig).Some? {
      ProposalValid(cfg, s, e.now, e.sig);
    }
  }

  lemma {:induction false} HistoryTailValid(cfg: Config, es: seq<Event>)
    ensures TailValid(cfg.sha, History(cfg, es), Touched(cfg, es))
  {
    if es != [] {
      var init := es[..|es| - 1];
      HistoryTailValid(cfg, init);
      StepTailValid(cfg, Run(cfg, init), History(cfg, init), es[|es| - 1], Touched(cfg, es));
    }
  }

  lemma {:induction false} TouchedMonotone(cfg: Config, es: seq<Event>, n: nat)
    requires n <= |es|
    ensures Touched(cfg, es[..n]) <= Touched(cfg, es)
  {
    if n < |es| {
      TouchedMonotone(cfg, es[..|es| - 1], n);
      assert es[..|es| - 1][..n] == es[..n];
    } else {
      assert es[..n] == es;
    }
  }

  lemma RunSnoc(cfg: Config, es: seq<Event>, n: nat)
    requires n < |es|
    ensures Run(cfg, es[..n + 1]) == Step(cfg, Run(cfg, es[..n]), es[n]).state
    ensures History(cfg, es[..n + 1]) == HistoryAfter(cfg, Run(cfg, es[..n]), History(cfg, es[..n]), es[n])
    ensures Touched(cfg, es[..n + 1]) == Touched(cfg, es[..n]) + Brings(cfg, Run(cfg, es[..n]), es[n])
  {
    assert es[..n + 1][..n] == es[..n] && es[..n + 1][n] == es[n];
  }

  /** The step from moment n to moment n + 1, in terms of the run. */
  lemma LastStepIff(cfg: Config, es: seq<Event>, n: nat)
    requires HashSafe(cfg.sha, Touched(cfg, es)) && n < |es| && Sound(cfg, Run(cfg, es[..n]), History(cfg, es[..n]))
    ensures Sound(cfg, Run(cfg, es[..n + 1]), History(cfg, es[..n + 1]))
       <==> HashesApart(cfg, Run(cfg, es[..n]), History(cfg, es[..n]), es[n])
  {
    RunSnoc(cfg, es, n);
    TouchedMonotone(cfg, es, n + 1);
    HistoryTailValid(cfg, es[..n]);
    StepSoundIff(cfg, Run(cfg, es[..n]), History(cfg, es[..n]), es[n], Touched(cfg, es[..n + 1]));
  }

  lemma {:induction false} ApartSound(cfg: Config, es: seq<Event>, n: nat)
    requires WellFormed(cfg) && HashSafe(cfg.sha, Touched(cfg, es)) && AlwaysApart(cfg, es) && n <= |es|
    ensures Sound(cfg, Run(cfg, es[..n]), History(cfg, es[..n]))
  {
    if n == 0 {
      TouchedMonotone(cfg, es, 0);
      StartSound(cfg);
    } else {
      ApartSound(cfg, es, n - 1);
      LastStepIff(cfg, es, n - 1);
    }
  }

  /** Exactly when the node stays true to its history.  At every moment of a run the parent links from
      the tip spell out the blocks the node adopted, and the ledger is their replay, if and only if the
      hashes were apart at every step. */
  lemma AlwaysSoundIff(cfg: Config, es: seq<Event>)
    requires WellFormed(cfg) && HashSafe(cfg.sha, Touched(cfg, es))
    ensures AlwaysSound(cfg, es) <==> AlwaysApart(cfg, es)
  {
    if AlwaysApart(cfg, es) {
      forall n | 0 <= n <= |es|
        ensures Sound(cfg, Run(cfg, es[..n]), History(cfg, es[..n]))
      {
        ApartSound(cfg, es, n);
      }
    }
    if AlwaysSound(cfg, es) {
      forall n | 0 <= n < |es|
        ensures HashesApart(cfg, Run(cfg, es[..n]), History(cfg, es[..n]), es[n])
      {
        var m := n + 1;
        assert Sound(cfg, Run(cfg, es[..n]), History(cfg, es[..n]));
        assert Sound(cfg, Run(cfg, es[..m]), History(cfg, es[..m]));
        LastStepIff(cfg, es, n);
      }
    }
  }

  lemma ReachableSound(cfg: Config, es: seq<Event>)
    requires WellFormed(cfg) && HashSafe(cfg.sha, Touched(cfg, es)) && AlwaysApart(cfg, es)
    ensures Sound(cfg, Run(cfg, es), History(cfg, es))
  {
    ApartSound(cfg, es, |es|);
    assert es[..|es|] == es;
  }

  /** The main invariant.  In every state reachable from start-up, by any mix of received transactions,
      single blocks, batches, reorganisations, slashes, produced blocks, requests and restarts: the
      parent links from the tip lead through stored, pairwise different blocks to a zero parent, these
      are the blocks the run adopted and all but the first are valid, the height is the tip's, and all
      balances and nonces equal genesis followed by exactly the blocks on that chain. */
  lemma LedgerIsReplayOfChain(cfg: Config, es: seq<Event>)
    requires WellFormed(cfg) && HashSafe(cfg.sha, Touched(cfg, es)) && AlwaysApart(cfg, es)
    ensures var s := Run(cfg, es);
      var c := ChainOf(s);
      && c == History(cfg, es)
      && IsChain(s.store, s.tip, c)
      && (forall i :: 1 <= i < |c| ==> Validates(cfg.sha, c[i]))
      && (forall i, j :: 0 <= i < j < |c| ==> c[i].hash != c[j].hash)
      && s.height == c[|c| - 1].height
      && s.view.accounts == Replay(GenesisAccounts(cfg.genesis), c)
      && Tidy(cfg.sha, PoolMax(cfg), s.pool)
  {
    var s, c := Run(cfg, es), History(cfg, es);
    ReachableSound(cfg, es);
    HistoryTailValid(cfg, es);
    ChainUnique(s.store, s.tip, c, ChainOf(s));
    AllDifferent(s.store, s.tip, c);
  }

  lemma AllDifferent(store: Store, tip: Hash, c: seq<Block>)
    requires IsChain(store, tip, c)
    ensures forall i, j :: 0 <= i < j < |c| ==> c[i].hash != c[j].hash
  {
    forall i, j | 0 <= i < j < |c|
      ensures c[i].hash != c[j].hash
    {
      NoRepeats(store, tip, c, i, j);
    }
  }

  // ---------------------------------------------------------------- the tip

  ghost predicate NoZeroHash(sha: Sha, blocks: set<Block>) {
    forall b :: b in blocks ==> BlockHash(sha, b) != ZERO_HASH
  }

  /** The tip is stored under its own hash, with the height the node reports. */
  ghost predicate TipStored(s: NodeState) {
    s.tip != ZERO_HASH && s.tip in s.store && s.store[s.tip].hash == s.tip && s.store[s.tip].height == s.height
  }

  lemma ReorgTipStored(cfg: Config, s: NodeState, blocks: seq<Block>)
    requires BranchOf(cfg, s, blocks) == Reorg && BlockHash(cfg.sha, Top(blocks)) != ZERO_HASH
    ensures var s' := Reorganised(cfg, s, blocks);
      TipStored(s') && s'.store[s'.tip] == Top(blocks)
  {
    ReorgOnlyUpwards(cfg, s, blocks);
    assert Validates(cfg.sha, blocks[|blocks| - 1]);
    WriteAllAt(s.store, blocks, |blocks| - 1);
  }

  /** In every reachable state, first blocks checked or not, the tip is stored with matching height. */
  lemma ReachableTipStored(cfg: Config, es: seq<Event>)
    requires WellFormed(cfg) && NoZeroHash(cfg.sha, Touched(cfg, es))
    ensures TipStored(Run(cfg, es))
  {
    LedgerIsReplayOfAdopted(cfg, es);
  }

  /** After start-up the sync-from-empty branch is never taken, and every reorganisation strictly
      raises the height of the tip. */
  lemma ReachableBranches(cfg: Config, es: seq<Event>, bs: seq<Block>)
    requires WellFormed(cfg) && NoZeroHash(cfg.sha, Touched(cfg, es))
    ensures BranchOf(cfg, Run(cfg, es), bs) != SyncFromEmpty
    ensures BranchOf(cfg, Run(cfg, es), bs) == Reorg ==>
              HandleBlocks(cfg, Run(cfg, es), bs).state.height > Run(cfg, es).height
  {
    ReachableTipStored(cfg, es);
  }

  // ---------------------------------------------------------------- the ledger and the adopted blocks

  /** The adopted blocks are linked up to the tip, and the ledger is their replay. */
  ghost predicate Follows(cfg: Config, s: NodeState, c: seq<Block>) {
    && TipStored(s) && LinkedFromZero(c) && s.store[s.tip] == Top(c)
    && s.view.accounts == Replay(GenesisAccounts(cfg.genesis), c)
  }

  lemma AdoptFollows(cfg: Config, s: NodeState, c: seq<Block>, b: Block)
    requires Follows(cfg, s, c) && b.previousHash == s.tip && b.hash != ZERO_HASH
    ensures Follows(cfg, Adopted(cfg, s, b), c + [b])
  {
    LinkedSnoc(c, b);
    ReplayAppend(GenesisAccounts(cfg.genesis), c, b);
  }

  lemma VerdictFollows(cfg: Config, leaders: seq<Validator>, s: NodeState, c: seq<Block>, b: Block, v: Verdict)
    requires Follows(cfg, s, c) && Justified(cfg, leaders, s, b, v) && BlockHash(cfg.sha, b) != ZERO_HASH
    ensures Follows(cfg, After(cfg, s, b, v), ChainAfter(c, b, v))
  {
    match v
    case Punish => SlashRemovesExactly(s.view, b.validator);
    case Take => AdoptFollows(cfg, Recorded(s, b), c, b);
    case _ =>
  }

  lemma {:induction false} ExtendAdopts(cfg: Config, leaders: seq<Validator>, s: NodeState, c: seq<Block>,
                                       blocks: seq<Block>)
    requires Follows(cfg, s, c) && forall b :: b in blocks ==> BlockHash(cfg.sha, b) != ZERO_HASH
    ensures Follows(cfg, Extend(cfg, leaders, s, blocks).state, ChainAfterAll(cfg, leaders, s, c, blocks))
    decreases |blocks|
  {
    if blocks != [] {
      var b := blocks[0];
      var v := Judge(cfg, leaders, s, b);
      VerdictFollows(cfg, leaders, s, c, b, v);
      if v != Stop {
        ExtendAdopts(cfg, leaders, After(cfg, s, b, v), ChainAfter(c, b, v), blocks[1..]);
      }
    }
  }

  lemma BlocksFollow(cfg: Config, s: NodeState, c: seq<Block>, bs: seq<Block>)
    requires Follows(cfg, s, c) && forall b :: b in bs ==> BlockHash(cfg.sha, b) != ZERO_HASH
    ensures Follows(cfg, HandleBlocks(cfg, s, bs).state, HistoryAfter(cfg, s, c, ReceiveBlocks(bs)))
  {
    match BranchOf(cfg, s, bs)
    case ExtendTip => ExtendAdopts(cfg, ValidatorSet(s.view), s, c, bs);
    case Reorg => ReorgTipStored(cfg, s, bs);
    case _ =>
  }

  lemma StepFollows(cfg: Config, s: NodeState, c: seq<Block>, e: Event)
    requires Follows(cfg, s, c) && NoZeroHash(cfg.sha, Brings(cfg, s, e))
    ensures Follows(cfg, Step(cfg, s, e).state, HistoryAfter(cfg, s, c, e))
  {
    match e
    case ReceiveBlock(b) =>
      assert b in Brings(cfg, s, e);
      VerdictFollows(cfg, ValidatorSet(s.view), s, c, b, JudgeSingle(cfg, ValidatorSet(s.view), s, b));
    case ReceiveBlocks(bs) =>
      assert forall b :: b in bs ==> b in Brings(cfg, s, e);
      BlocksFollow(cfg, s, c, bs);
    case Tick(now, sig) =>
      if Proposal(cfg, s, now, sig).Some? {
        var b := Proposal(cfg, s, now, sig).value;
        assert b in Brings(cfg, s, e);
        ProposalValid(cfg, s, now, sig);
        AdoptFollows(cfg, s, c, b);
      }
    case _ =>
  }

  /** In every run in which no touched block hashes to zero, whatever first blocks were adopted and whatever
      the hash function does otherwise: the adopted blocks are linked from a zero parent to the tip, all but
      the first are valid, the tip is stored, and all balances and nonces equal genesis followed by exactly
      the adopted blocks. */
  lemma {:induction false} LedgerIsReplayOfAdopted(cfg: Config, es: seq<Event>)
    requires WellFormed(cfg) && NoZeroHash(cfg.sha, Touched(cfg, es))
    ensures Follows(cfg, Run(cfg, es), History(cfg, es))
    ensures TailValid(cfg.sha, History(cfg, es), Touched(cfg, es))
  {
    HistoryTailValid(cfg, es);
    if es == [] {
      var acc := GenesisAccounts(cfg.genesis);
      EmptyBlockIsNeutral(acc, cfg.genesisBlock);
      ReplayAppend(acc, [], cfg.genesisBlock);
      assert [] + [cfg.genesisBlock] == [cfg.genesisBlock];
    } else {
      var init := es[..|es| - 1];
      LedgerIsReplayOfAdopted(cfg, init);
      StepFollows(cfg, Run(cfg, init), History(cfg, init), es[|es| - 1]);
    }
  }

  /** The supply of every reachable state, exactly: what genesis allocated plus what the adopted blocks
      added. */
  lemma ReachableSupply(cfg: Config, es: seq<Event>)
    requires WellFormed(cfg) && NoZeroHash(cfg.sha, Touched(cfg, es))
    ensures var acc := GenesisAccounts(cfg.genesis);
      Supply(Run(cfg, es).view.accounts.balances) == Supply(acc.balances) + ChainDrift(acc, History(cfg, es))
  {
    LedgerIsReplayOfAdopted(cfg, es);
    ChainSupplyLaw(GenesisAccounts(cfg.genesis), History(cfg, es));
  }

  /** The same over the chain of the tip, where hashes are apart. */
  lemma ReachableChainSupply(cfg: Config, es: seq<Event>)
    requires WellFormed(cfg) && HashSafe(cfg.sha, Touched(cfg, es)) && AlwaysApart(cfg, es)
    ensures var acc := GenesisAccounts(cfg.genesis);
      Supply(Run(cfg, es).view.accounts.balances) == Supply(acc.balances) + ChainDrift(acc, ChainOf(Run(cfg, es)))
  {
    LedgerIsReplayOfChain(cfg, es);
    ReachableSupply(cfg, es);
  }

  // ---------------------------------------------------------------- valid first blocks

  /** The check the code omits: a batch adopted by reorganisation has a valid first block. */
  ghost predicate FirstBlockValid(cfg: Config, s: NodeState, e: Event) {
    e.ReceiveBlocks? && BranchOf(cfg, s, e.blocks) == Reorg ==> Validates(cfg.sha, e.blocks[0])
  }

  ghost predicate FirstBlocksValid(cfg: Config, es: seq<Event>) {
    forall n :: 0 <= n < |es| ==> FirstBlockValid(cfg, Run(cfg, es[..n]), es[n])
  }

  lemma StepAllValid(cfg: Config, s: NodeState, c: seq<Block>, e: Event, known: set<Block>)
    requires c != [] && AllValid(cfg.sha, c, known) && Brings(cfg, s, e) <= known && FirstBlockValid(cfg, s, e)
    ensures AllValid(cfg.sha, HistoryAfter(cfg, s, c, e), known)
  {
    StepTailValid(cfg, s, c, e, known);
    SameFirstBlock(cfg, s, c, e);
    if e.ReceiveBlocks? && BranchOf(cfg, s, e.blocks) == Reorg {
      assert e.blocks[0] in Brings(cfg, s, e);
    }
    HeadAndTailValid(cfg.sha, HistoryAfter(cfg, s, c, e), known);
  }

  lemma SameFirstBlock(cfg: Config, s: NodeState, c: seq<Block>, e: Event)
    requires c != []
    ensures HistoryAfter(cfg, s, c, e)[0] ==
            if e.ReceiveBlocks? && BranchOf(cfg, s, e.blocks) == Reorg then e.blocks[0] else c[0]
  {
  }

  lemma HeadAndTailValid(sha: Sha, c: seq<Block>, known: set<Block>)
    requires c != [] && Validates(sha, c[0]) && c[0] in known && TailValid(sha, c, known)
    ensures AllValid(sha, c, known)
  {
  }

  lemma ValidStepApart(cfg: Config, s: NodeState, c: seq<Block>, e: Event, known: set<Block>)
    requires Sound(cfg, s, c) && AllValid(cfg.sha, c, known) && HashSafe(cfg.sha, known)
    requires Brings(cfg, s, e) <= known && FirstBlockValid(cfg, s, e)
    ensures HashesApart(cfg, s, c, e)
  {
    if e.ReceiveBlocks? && BranchOf(cfg, s, e.blocks) == Reorg {
      ReorgOnlyUpwards(cfg, s, e.blocks);
      StepAllValid(cfg, s, c, e, known);
      ValidFirstBlockSuffices(cfg.sha, e.blocks, known);
    }
    if e.Tick? && Proposal(cfg, s, e.now, e.sig).Some? {
      var b := Proposal(cfg, s, e.now, e.sig).value;
      assert b in Brings(cfg, s, e) && Stored(s.store, c[|c| - 1]);
      ProposalValid(cfg, s, e.now, e.sig);
      TipIsLast(cfg, s, c);
      SameHashSameParent(cfg.sha, b, c[0], known);
    }
  }

  /** The step from moment n to moment n + 1 of a run whose adopted first blocks are valid. */
  lemma ValidStep(cfg: Config, es: seq<Event>, n: nat)
    requires HashSafe(cfg.sha, Touched(cfg, es)) && FirstBlocksValid(cfg, es) && n < |es|
    requires Sound(cfg, Run(cfg, es[..n]), History(cfg, es[..n]))
    requires AllValid(cfg.sha, History(cfg, es[..n]), Touched(cfg, es[..n]))
    ensures HashesApart(cfg, Run(cfg, es[..n]), History(cfg, es[..n]), es[n])
    ensures AllValid(cfg.sha, History(cfg, es[..n + 1]), Touched(cfg, es[..n + 1]))
  {
    var m := n + 1;
    RunSnoc(cfg, es, n);
    TouchedMonotone(cfg, es, m);
    ValidStepApart(cfg, Run(cfg, es[..n]), History(cfg, es[..n]), es[n], Touched(cfg, es[..m]));
    StepAllValid(cfg, Run(cfg, es[..n]), History(cfg, es[..n]), es[n], Touched(cfg, es[..m]));
  }

  lemma {:induction false} ValidHistory(cfg: Config, es: seq<Event>, n: nat)
    requires WellFormed(cfg) && HashSafe(cfg.sha, Touched(cfg, es)) && FirstBlocksValid(cfg, es) && n <= |es|
    ensures Sound(cfg, Run(cfg, es[..n]), History(cfg, es[..n]))
    ensures AllValid(cfg.sha, History(cfg, es[..n]), Touched(cfg, es[..n]))
  {
    if n == 0 {
      TouchedMonotone(cfg, es, 0);
      StartSound(cfg);
    } else {
      ValidHistory(cfg, es, n - 1);
      ValidStep(cfg, es, n - 1);
      LastStepIff(cfg, es, n - 1);
    }
  }

  lemma {:induction false} HistoryAllValid(cfg: Config, es: seq<Event>, n: nat)
    requires WellFormed(cfg) && FirstBlocksValid(cfg, es) && n <= |es|
    ensures AllValid(cfg.sha, History(cfg, es[..n]), Touched(cfg, es[..n]))
  {
    if n > 0 {
      HistoryAllValid(cfg, es, n - 1);
      RunSnoc(cfg, es, n - 1);
      StepAllValid(cfg, Run(cfg, es[..n - 1]), History(cfg, es[..n - 1]), es[n - 1], Touched(cfg, es[..n]));
    }
  }

  /** If every adopted batch has a valid first block, hashes are always apart and the whole chain is valid. */
  lemma ValidFirstBlocksSuffice(cfg: Config, es: seq<Event>)
    requires WellFormed(cfg) && HashSafe(cfg.sha, Touched(cfg, es)) && FirstBlocksValid(cfg, es)
    ensures AlwaysApart(cfg, es) && AllValid(cfg.sha, History(cfg, es), Touched(cfg, es))
  {
    forall n | 0 <= n < |es|
      ensures HashesApart(cfg, Run(cfg, es[..n]), History(cfg, es[..n]), es[n])
    {
      ValidHistory(cfg, es, n);
      ValidStep(cfg, es, n);
    }
    ValidHistory(cfg, es, |es|);
    assert es[..|es|] == es;
  }

  // ---------------------------------------------------------------- the pool

  lemma AfterTidy(cfg: Config, s: NodeState, b: Block, v: Verdict)
    requires Tidy(cfg.sha, PoolMax(cfg), s.pool)
    ensures Tidy(cfg.sha, PoolMax(cfg), After(cfg, s, b, v).pool)
  {
    RemoveKeepsTidy(cfg.sha, PoolMax(cfg), s.pool, b.txs);
  }

  lemma {:induction false} ExtendTidy(cfg: Config, leaders: seq<Validator>, s: NodeState, blocks: seq<Block>)
    requires Tidy(cfg.sha, PoolMax(cfg), s.pool)
    ensures Tidy(cfg.sha, PoolMax(cfg), Extend(cfg, leaders, s, blocks).state.pool)
    decreases |blocks|
  {
    if blocks != [] {
      var v := Judge(cfg, leaders, s, blocks[0]);
      AfterTidy(cfg, s, blocks[0], v);
      if v != Stop {
        ExtendTidy(cfg, leaders, After(cfg, s, blocks[0], v), blocks[1..]);
      }
    }
  }

  lemma {:induction false} SyncTidy(cfg: Config, s: NodeState, blocks: seq<Block>)
    requires Tidy(cfg.sha, PoolMax(cfg), s.pool)
    ensures Tidy(cfg.sha, PoolMax(cfg), SyncEmpty(cfg, s, blocks).pool)
    decreases |blocks|
  {
    if blocks != [] {
      var b := blocks[0];
      if Validates(cfg.sha, b) && !(LastBlock(s).Some? && b.previousHash != LastBlock(s).value.hash) {
        var s1 := if LastBlock(s).None? && b.height == 0 then WithGenesisApplied(cfg, s) else s;
        RemoveKeepsTidy(cfg.sha, PoolMax(cfg), s1.pool, b.txs);
        SyncTidy(cfg, Adopted(cfg, s1, b), blocks[1..]);
      }
    }
  }

  lemma BlocksTidy(cfg: Config, s: NodeState, bs: seq<Block>)
    requires Tidy(cfg.sha, PoolMax(cfg), s.pool)
    ensures Tidy(cfg.sha, PoolMax(cfg), HandleBlocks(cfg, s, bs).state.pool)
  {
    match BranchOf(cfg, s, bs)
    case ExtendTip => ExtendTidy(cfg, ValidatorSet(s.view), s, bs);
    case SyncFromEmpty => SyncTidy(cfg, s, bs);
    case Reorg => RemoveAllTidy(cfg.sha, PoolMax(cfg), s.pool, bs);
    case _ =>
  }

  /** After every run, whatever was received and for any hash function, the pool is within its bound
      and holds no transaction hash twice. */
  lemma {:induction false} PoolAlwaysTidy(cfg: Config, es: seq<Event>)
    ensures Tidy(cfg.sha, PoolMax(cfg), Run(cfg, es).pool)
  {
    if es != [] {
      var s, e := Run(cfg, es[..|es| - 1]), es[|es| - 1];
      PoolAlwaysTidy(cfg, es[..|es| - 1]);
      match e
      case ReceiveTx(tx) => TxTidy(cfg, s, tx);
      case ReceiveBlock(b) => AfterTidy(cfg, s, b, JudgeSingle(cfg, ValidatorSet(s.view), s, b));
      case ReceiveBlocks(bs) => BlocksTidy(cfg, s, bs);
      case Tick(now, sig) =>
        if Proposal(cfg, s, now, sig).Some? {
          RemoveKeepsTidy(cfg.sha, PoolMax(cfg), s.pool, Proposal(cfg, s, now, sig).value.txs);
        }
      case _ =>
    }
  }

  // ---------------------------------------------------------------- slashes between blocks

  datatype LedgerOp = ApplyOp(block: Block) | SlashOp(validator: Address)

  function DoOp(v: View, op: LedgerOp): View {
    if op.ApplyOp? then Applied(v, op.block) else Slash(v, op.validator)
  }

  function DoOps(v: View, ops: seq<LedgerOp>): View {
    if ops == [] then v else DoOp(DoOps(v, ops[..|ops| - 1]), ops[|ops| - 1])
  }

  function BlocksIn(ops: seq<LedgerOp>): seq<Block> {
    if ops == [] then []
    else BlocksIn(ops[..|ops| - 1]) + if ops[|ops| - 1].ApplyOp? then [ops[|ops| - 1].block] else []
  }

  function SlashAll(v: View, ops: seq<LedgerOp>): View {
    if ops == [] then v
    else
      var w := SlashAll(v, ops[..|ops| - 1]);
      if ops[|ops| - 1].SlashOp? then Slash(w, ops[|ops| - 1].validator) else w
  }

  lemma {:induction false} SlashAllAfterBlock(v: View, b: Block, ops: seq<LedgerOp>)
    ensures SlashAll(Applied(v, b), ops) == Applied(SlashAll(v, ops), b)
  {
    if ops != [] {
      SlashAllAfterBlock(v, b, ops[..|ops| - 1]);
    }
  }

  lemma {:induction false} SlashAllKeepsAccounts(v: View, ops: seq<LedgerOp>)
    ensures SlashAll(v, ops).accounts == v.accounts
  {
    if ops != [] {
      SlashAllKeepsAccounts(v, ops[..|ops| - 1]);
    }
  }

  /** Slashes commute with blocks.  Any interleaving of the two on a fresh state ends where the replay
      of its blocks followed by its slashes ends; in particular its accounts are those of the replay. */
  lemma {:induction false} InterleavedSlashes(g: Genesis, ops: seq<LedgerOp>)
    ensures DoOps(GenesisView(g), ops) == SlashAll(Replayed(g, BlocksIn(ops)), ops)
    ensures DoOps(GenesisView(g), ops).accounts == Replayed(g, BlocksIn(ops)).accounts
  {
    if ops != [] {
      var init, op := ops[..|ops| - 1], ops[|ops| - 1];
      InterleavedSlashes(g, init);
      assert BlocksIn(init) + [] == BlocksIn(init);
      if op.ApplyOp? {
        ReplayAppend(GenesisView(g).accounts, BlocksIn(init), op.block);
        SlashAllAfterBlock(Replayed(g, BlocksIn(init)), op.block, init);
      }
    }
    SlashAllKeepsAccounts(Replayed(g, BlocksIn(ops)), ops);
  }

  // ---------------------------------------------------------------- where the documented rules fail

  /** A skipped transaction changes no account of its own, yet its fee reaches the producer. */
  lemma UnfundedFeeIsCredited(acc: Accounts, b: Block)
    requires |b.txs| == 1 && !Applies(acc.balances, b.txs[0]) && b.txs[0].fee > 0
    ensures ApplyBlock(acc, b).balances ==
            acc.balances[b.validator := Add64(Get(acc.balances, b.validator), b.txs[0].fee)]
    ensures Get(ApplyBlock(acc, b).balances, b.validator) != Get(acc.balances, b.validator)
  {
    assert b.txs[..0] == [];
    assert RunTxs(acc.balances, b.txs) == Transfer(RunTxs(acc.balances, []), b.txs[0]);
    assert TotalFees(b.txs) == Add64(TotalFees([]), b.txs[0].fee);
  }

  lemma ReplayPair(acc: Accounts, b0: Block, b1: Block)
    requires b1.txs == []
    ensures Replay(acc, [b0, b1]) == ApplyBlock(acc, b0) && Replay(acc, [b1]) == acc
  {
    assert [b0, b1] == ([] + [b0]) + [b1] && [b1] == [] + [b1];
    ReplayAppend(acc, [], b0);
    ReplayAppend(acc, [] + [b0], b1);
    ReplayAppend(acc, [], b1);
    EmptyBlockIsNeutral(acc, b1);
    EmptyBlockIsNeutral(ApplyBlock(acc, b0), b1);
  }

  lemma FreshNodeReorgs(cfg: Config, b0: Block, b1: Block)
    requires WellFormed(cfg) && HashSafe(cfg.sha, {cfg.genesisBlock})
    requires b0.height == 0 && b0.previousHash == ZERO_HASH
    requires Validates(cfg.sha, b1) && b1.previousHash == b0.hash && b1.height > 0
    ensures BranchOf(cfg, Started(cfg, BLANK), [b0, b1]) == Reorg
  {
    StartSound(cfg);
    TipIsLast(cfg, Started(cfg, BLANK), [cfg.genesisBlock]);
  }

  /** Without the check on the first block the invariant fails.  A batch whose first block claims the
      zero hash and carries one unfunded transaction is adopted by a fresh node: the new tip's chain is
      the second block alone, but the ledger also holds the fee of the first block's transaction. */
  lemma UncheckedFirstBlockBreaksReplay(cfg: Config, poor: Address, v: Address, b0: Block, b1: Block)
    requires WellFormed(cfg) && HashSafe(cfg.sha, {cfg.genesisBlock})
    requires Get(GenesisAccounts(cfg.genesis).balances, poor) == 0
    requires b0 == Block(0, 0, ZERO_HASH, ZERO_HASH, v, [Transaction(poor, v, 0, 1, 0, [], [])], [], ZERO_HASH)
    requires b1 == NewBlock(cfg.sha, 1, 0, ZERO_HASH, v, []) && b1.hash != ZERO_HASH
    ensures var s := HandleBlocks(cfg, Started(cfg, BLANK), [b0, b1]).state;
      && IsChain(s.store, s.tip, [b1])
      && s.view.accounts != Replay(GenesisAccounts(cfg.genesis), [b1])
  {
    FreshNodeReorgs(cfg, b0, b1);
    var s := Reorganised(cfg, Started(cfg, BLANK), [b0, b1]);
    WriteAllAt(Started(cfg, BLANK).store, [b0, b1], 1);
    assert Stored(s.store, b1);
    var acc := GenesisAccounts(cfg.genesis);
    ReplayPair(acc, b0, b1);
    UnfundedFeeIsCredited(acc, b0);
  }
}
