/** What heights say when blocks carry them honestly: contiguous chains, hashes apart, and at most one
    produced block per height. */
module NodeHeights {
  import opened Words
  import opened Crypto
  import opened Blocks
  import opened Ledger
  import opened Validators
  import opened ChainStore
  import opened Mempool
  import opened NodeMachine
  import opened NodeSound

  /** Heights as honest nodes assign them: zero without a parent, one more than the parent otherwise. */
  ghost predicate HonestHeights(known: set<Block>) {
    && (forall b :: b in known && b.previousHash == ZERO_HASH ==> b.height == 0)
    && (forall b, p :: b in known && p in known && b.previousHash == p.hash ==> b.height == p.height + 1)
  }

  lemma {:induction false} HonestChainContiguous(c: seq<Block>, known: set<Block>, i: nat)
    requires LinkedFromZero(c) && (forall k :: 0 <= k < |c| ==> c[k] in known) && HonestHeights(known) && i < |c|
    ensures c[i].height == i
  {
    if i > 0 {
      HonestChainContiguous(c, known, i - 1);
      assert c[i] in known && c[i - 1] in known && LinkAt(c, i);
    }
  }

  /** Honest heights make the adopted blocks contiguous, whatever the hash function. */
  lemma HistoryContiguous(cfg: Config, es: seq<Event>)
    requires WellFormed(cfg) && NoZeroHash(cfg.sha, Touched(cfg, es)) && HonestHeights(Touched(cfg, es))
    ensures Contiguous(History(cfg, es))
  {
    LedgerIsReplayOfAdopted(cfg, es);
    var c := History(cfg, es);
    forall i | 0 <= i < |c|
      ensures c[i].height == i
    {
      HonestChainContiguous(c, Touched(cfg, es), i);
    }
  }

  /** A batch of honest heights has hashes apart: a repeated or zero first hash would give its second block
      two heights. */
  lemma HonestBatchApart(sha: Sha, bs: seq<Block>, known: set<Block>)
    requires LinkedBatch(sha, bs) && FromGenesis(bs) && |bs| > 1 && HonestHeights(known)
    requires forall b :: b in bs ==> b in known
    ensures FirstApart(bs)
  {
    assert forall i :: 0 <= i < |bs| ==> bs[i] in bs;
    assert forall i :: 1 <= i < |bs| ==> LinkAt(bs, i);
    assert LinkAt(bs, 1);
    HonestChainContiguous(bs, known, 1);
    forall k | 1 <= k < |bs|
      ensures bs[k].hash != bs[0].hash
    {
      HonestChainContiguous(bs, known, k);
      assert bs[k] in known && bs[1] in known;
    }
  }

  lemma HonestProposalApart(c: seq<Block>, p: Block, known: set<Block>)
    requires LinkedFromZero(c) && (forall k :: 0 <= k < |c| ==> c[k] in known) && HonestHeights(known)
    requires p in known && p.previousHash == c[|c| - 1].hash
    ensures p.hash != c[0].hash
  {
    HonestChainContiguous(c, known, |c| - 1);
    assert p.height == |c|;
    if |c| > 1 {
      assert LinkAt(c, 1) && c[0] in known && c[1] in known;
      assert c[1].height == 1;
    }
  }

  lemma HonestStepApart(cfg: Config, es: seq<Event>, n: nat)
    requires WellFormed(cfg) && NoZeroHash(cfg.sha, Touched(cfg, es)) && HonestHeights(Touched(cfg, es)) && n < |es|
    ensures HashesApart(cfg, Run(cfg, es[..n]), History(cfg, es[..n]), es[n])
  {
    var s, c, e, known := Run(cfg, es[..n]), History(cfg, es[..n]), es[n], Touched(cfg, es);
    TouchedMonotone(cfg, es, n);
    TouchedMonotone(cfg, es, n + 1);
    RunSnoc(cfg, es, n);
    LedgerIsReplayOfAdopted(cfg, es[..n]);
    if e.ReceiveBlocks? && BranchOf(cfg, s, e.blocks) == Reorg {
      ReorgOnlyUpwards(cfg, s, e.blocks);
      assert forall b :: b in e.blocks ==> b in Brings(cfg, s, e);
      HonestBatchApart(cfg.sha, e.blocks, known);
    }
    if e.Tick? && Proposal(cfg, s, e.now, e.sig).Some? {
      var p := Proposal(cfg, s, e.now, e.sig).value;
      assert p in Brings(cfg, s, e);
      ProposalValid(cfg, s, e.now, e.sig);
      HonestProposalApart(c, p, known);
    }
  }

  /** Honest heights are a second sufficient condition for hashes to be apart at every step. */
  lemma HonestHeightsSuffice(cfg: Config, es: seq<Event>)
    requires WellFormed(cfg) && NoZeroHash(cfg.sha, Touched(cfg, es)) && HonestHeights(Touched(cfg, es))
    ensures AlwaysApart(cfg, es)
  {
    forall n | 0 <= n < |es|
      ensures HashesApart(cfg, Run(cfg, es[..n]), History(cfg, es[..n]), es[n])
    {
      HonestStepApart(cfg, es, n);
    }
  }

  lemma WholeChainServed(c: seq<Block>)
    requires c != [] && Contiguous(c)
    ensures |c| <= 10000 ==> Served(c, 0, 10000) == c
  {
    ServedContiguous(c, 0, 10000);
    assert c[0..|c|] == c;
  }

  /** If the blocks a run touches carry honest heights, the chain of every reached state is contiguous,
      and its whole chain is what a peer is served from height zero when it has at most 10000 blocks. */
  lemma ReachableContiguous(cfg: Config, es: seq<Event>)
    requires WellFormed(cfg) && HashSafe(cfg.sha, Touched(cfg, es)) && HonestHeights(Touched(cfg, es))
    ensures var c := ChainOf(Run(cfg, es));
      && c == History(cfg, es) && Contiguous(c) && Run(cfg, es).height == |c| - 1
      && (|c| <= 10000 ==> Served(c, 0, 10000) == c)
  {
    HonestHeightsSuffice(cfg, es);
    LedgerIsReplayOfChain(cfg, es);
    HistoryContiguous(cfg, es);
    WholeChainServed(History(cfg, es));
  }

  // ---------------------------------------------------------------- production

  /** The blocks the node produced, in order. */
  ghost function Produced(cfg: Config, es: seq<Event>): seq<Block> {
    if es == [] then []
    else Produced(cfg, es[..|es| - 1]) + ProducedAt(cfg, Run(cfg, es[..|es| - 1]), es[|es| - 1])
  }

  function ProducedAt(cfg: Config, s: NodeState, e: Event): seq<Block> {
    if e.Tick? && Proposal(cfg, s, e.now, e.sig).Some? then [Proposal(cfg, s, e.now, e.sig).value] else []
  }

  /** With honest heights the node's height is the length of its history less one. */
  lemma HeightIsLength(cfg: Config, es: seq<Event>)
    requires WellFormed(cfg) && NoZeroHash(cfg.sha, Touched(cfg, es)) && HonestHeights(Touched(cfg, es))
    ensures Run(cfg, es).height == |History(cfg, es)| - 1
  {
    HistoryContiguous(cfg, es);
    LedgerIsReplayOfAdopted(cfg, es);
  }

  /** With honest heights a step never lowers the height, and a produced block is the first of its height. */
  lemma LastStepRises(cfg: Config, es: seq<Event>)
    requires WellFormed(cfg) && NoZeroHash(cfg.sha, Touched(cfg, es)) && HonestHeights(Touched(cfg, es)) && es != []
    ensures var s, e := Run(cfg, es[..|es| - 1]), es[|es| - 1];
      && s.height <= Run(cfg, es).height
      && (ProducedAt(cfg, s, e) != [] ==> ProducedAt(cfg, s, e)[0].height == Run(cfg, es).height == s.height + 1)
  {
    var init, e := es[..|es| - 1], es[|es| - 1];
    HeightIsLength(cfg, init);
    HeightIsLength(cfg, es);
    HistoryContiguous(cfg, es);
    ReachableTipStored(cfg, init);
    HistoryGrows(cfg, Run(cfg, init), History(cfg, init), e);
  }

  /** A history of contiguous blocks never gets shorter, and a produced block becomes its last. */
  lemma HistoryGrows(cfg: Config, s: NodeState, c: seq<Block>, e: Event)
    requires TipStored(s) && c != [] && s.height == |c| - 1 && Contiguous(HistoryAfter(cfg, s, c, e))
    ensures var d := HistoryAfter(cfg, s, c, e);
      && |c| <= |d|
      && (ProducedAt(cfg, s, e) != [] ==> |d| == |c| + 1 && ProducedAt(cfg, s, e)[0] == d[|d| - 1])
  {
    if e.ReceiveBlocks? && BranchOf(cfg, s, e.blocks) == Reorg {
      ReorgOnlyUpwards(cfg, s, e.blocks);
      assert Top(e.blocks).height == |e.blocks| - 1;
    }
  }

  ghost predicate Rising(blocks: seq<Block>, height: u64) {
    && (forall i :: 0 <= i < |blocks| ==> blocks[i].height <= height)
    && (forall i, j :: 0 <= i < j < |blocks| ==> blocks[i].height < blocks[j].height)
  }

  lemma RisingSnoc(blocks: seq<Block>, height: u64, more: seq<Block>, next: u64)
    requires Rising(blocks, height) && height <= next && |more| <= 1
    requires more != [] ==> more[0].height == next && height < next
    ensures Rising(blocks + more, next)
  {
  }

  /** One block per height.  In every run whose blocks carry honest heights, across reorganisations and
      restarts, the heights of the blocks the node produces strictly rise. */
  lemma {:induction false} ProducedHeightsRise(cfg: Config, es: seq<Event>)
    requires WellFormed(cfg) && NoZeroHash(cfg.sha, Touched(cfg, es)) && HonestHeights(Touched(cfg, es))
    ensures Rising(Produced(cfg, es), Run(cfg, es).height)
  {
    if es != [] {
      var init := es[..|es| - 1];
      ProducedHeightsRise(cfg, init);
      LastStepRises(cfg, es);
      RisingSnoc(Produced(cfg, init), Run(cfg, init).height,
                 ProducedAt(cfg, Run(cfg, init), es[|es| - 1]), Run(cfg, es).height);
    }
  }

  // ---------------------------------------------------------------- without honest heights

  /** A fee-only payment of `a` to itself, with the given nonce. */
  function Fee(a: Address, nonce: u64): Transaction {
    Transaction(a, a, 0, MIN_FEE, nonce, [], [])
  }

  predicate Funded(acc: Accounts, a: Address, nonce: u64, fees: u64) {
    Get(acc.nonces, a) == nonce && Get(acc.balances, a) >= fees
  }

  lemma PoolTakes(cfg: Config, s: NodeState, a: Address, nonce: u64)
    requires s.pool == [] && cfg.verify(Fee(a, nonce)) && Funded(s.view.accounts, a, nonce, MIN_FEE)
    ensures HandleTx(cfg, s, Fee(a, nonce)).state ==
            NodeState(s.store, s.height, s.tip, s.view, [Fee(a, nonce)], s.seen)
  {
    assert s.pool + [Fee(a, nonce)] == [Fee(a, nonce)];
  }

  lemma FeePaid(acc: Accounts, b: Block, a: Address)
    requires b.txs == [Fee(a, 0)] && Funded(acc, a, 0, 2 * MIN_FEE)
    ensures Funded(ApplyBlock(acc, b), a, 1, MIN_FEE)
  {
    var t := Fee(a, 0);
    assert [t][..0] == [];
    assert RunTxs(acc.balances, [t]) == Transfer(RunTxs(acc.balances, []), t);
    assert TotalFees([t]) == Add64(TotalFees([]), MIN_FEE);
    assert FirstRole([], a) == Absent && FirstRole([t], a) == Sender;
    assert AppliedBy(acc.balances, [t], a) == 1;
    var n, was, now := NonceByRole(acc, b, a);
  }

  lemma ProducesFee(cfg: Config, s: NodeState, a: Address, nonce: u64, now: i64, sig: seq<byte>)
    requires TipStored(s) && ValidatorSet(s.view) == [] && s.pool == [Fee(a, nonce)]
    ensures Proposal(cfg, s, now, sig) ==
            Some(Signed(NewBlock(cfg.sha, Add64(s.height, 1), now, s.tip, cfg.self, [Fee(a, nonce)]), sig))
  {
  }

  lemma RemovedOwn(sha: Sha, t: Transaction)
    ensures Removed(sha, [t], [t]) == []
  {
    var hashes := HashesOf(sha, [t]);
    assert t in [t] && TxHash(sha, t) in hashes;
    assert [t][..0] == [] && DropHashes(sha, [t][..0], hashes) == [];
  }

  /** A node right after start-up, without validators, on which `a` can pay two fees. */
  ghost predicate Fresh(cfg: Config, s: NodeState, a: Address) {
    && s.store == map[cfg.genesisBlock.hash := cfg.genesisBlock] && s.tip == cfg.genesisBlock.hash && TipStored(s)
    && s.height == 0 && s.pool == [] && s.seen == map[] && ValidatorSet(s.view) == []
    && Funded(s.view.accounts, a, 0, 2 * MIN_FEE)
  }

  lemma StartIsFresh(cfg: Config, a: Address)
    requires WellFormed(cfg) && NoZeroHash(cfg.sha, {cfg.genesisBlock})
    requires ValidatorSet(GenesisView(cfg.genesis)) == [] && Funded(GenesisAccounts(cfg.genesis), a, 0, 2 * MIN_FEE)
    ensures Fresh(cfg, Started(cfg, BLANK), a)
  {
  }

  /** The state after a fresh node has produced its first block p. */
  ghost predicate ProducedFirst(cfg: Config, s: NodeState, a: Address, p: Block) {
    && s.store == map[cfg.genesisBlock.hash := cfg.genesisBlock][p.hash := p] && s.tip == p.hash
    && s.pool == [] && s.seen == map[] && ValidatorSet(s.view) == [] && Funded(s.view.accounts, a, 1, MIN_FEE)
  }

  lemma FirstProduction(cfg: Config, s: NodeState, a: Address, sig: seq<byte>, p: Block)
    returns (s1: NodeState, s2: NodeState)
    requires Fresh(cfg, s, a) && cfg.verify(Fee(a, 0))
    requires p == Signed(NewBlock(cfg.sha, 1, 0, cfg.genesisBlock.hash, cfg.self, [Fee(a, 0)]), sig)
    ensures s1 == HandleTx(cfg, s, Fee(a, 0)).state && s2 == Produce(cfg, s1, 0, sig).state
    ensures ProducedAt(cfg, s1, Tick(0, sig)) == [p] && ProducedFirst(cfg, s2, a, p)
  {
    s1 := HandleTx(cfg, s, Fee(a, 0)).state;
    s2 := Produce(cfg, s1, 0, sig).state;
    PoolTakes(cfg, s, a, 0);
    ProducesFee(cfg, s1, a, 0, 0, sig);
    FeePaid(s.view.accounts, p, a);
    RemovedOwn(cfg.sha, Fee(a, 0));
  }

  /** A valid block of height zero on top of a block of height one is taken over. */
  lemma LowBlockTaken(cfg: Config, s: NodeState, g: Block, p: Block, b: Block, v: Address)
    requires HashSafe(cfg.sha, {g, p, b}) && Validates(cfg.sha, g) && Validates(cfg.sha, p)
    requires g.previousHash == ZERO_HASH && p.previousHash == g.hash
    requires s.store == map[g.hash := g][p.hash := p] && s.tip == p.hash && s.seen == map[]
    requires ValidatorSet(s.view) == [] && b == NewBlock(cfg.sha, 0, 0, p.hash, v, [])
    ensures HandleNewBlock(cfg, s, b).state == Adopted(cfg, Recorded(s, b), b)
    ensures b.hash != g.hash && b.hash != ZERO_HASH
  {
    var known := {g, p, b};
    assert BlockHash(cfg.sha, g) == g.hash && BlockHash(cfg.sha, p) == p.hash && BlockHash(cfg.sha, b) == b.hash;
    SameHashSameParent(cfg.sha, b, g, known);
    SameHashSameParent(cfg.sha, b, p, known);
    SameHashSameParent(cfg.sha, p, g, known);
    assert b.hash !in s.store;
  }

  /** The state after block b of height zero was taken over. */
  ghost predicate Lowered(s: NodeState, a: Address, b: Block) {
    && TipStored(s) && s.tip == b.hash && s.height == 0 && s.pool == [] && ValidatorSet(s.view) == []
    && Funded(s.view.accounts, a, 1, MIN_FEE)
  }

  lemma LowBlockLowers(cfg: Config, s: NodeState, a: Address, v: Address, p: Block, b: Block) returns (s': NodeState)
    requires HashSafe(cfg.sha, {cfg.genesisBlock, p, b})
    requires Validates(cfg.sha, cfg.genesisBlock) && Validates(cfg.sha, p)
    requires cfg.genesisBlock.previousHash == ZERO_HASH && p.previousHash == cfg.genesisBlock.hash
    requires b == NewBlock(cfg.sha, 0, 0, p.hash, v, []) && ProducedFirst(cfg, s, a, p)
    ensures s' == HandleNewBlock(cfg, s, b).state && Lowered(s', a, b) && b.hash != cfg.genesisBlock.hash
  {
    s' := HandleNewBlock(cfg, s, b).state;
    LowBlockTaken(cfg, s, cfg.genesisBlock, p, b, v);
    EmptyBlockIsNeutral(s.view.accounts, b);
  }

  lemma SecondProduction(cfg: Config, s: NodeState, a: Address, sig: seq<byte>, b: Block)
    returns (s': NodeState, q: Block)
    requires Lowered(s, a, b) && cfg.verify(Fee(a, 1))
    ensures s' == HandleTx(cfg, s, Fee(a, 1)).state && ProducedAt(cfg, s', Tick(0, sig)) == [q]
    ensures q.height == 1 && q.previousHash == b.hash
  {
    s' := HandleTx(cfg, s, Fee(a, 1)).state;
    PoolTakes(cfg, s, a, 1);
    ProducesFee(cfg, s', a, 1, 0, sig);
    q := Proposal(cfg, s', 0, sig).value;
  }

  lemma ProposedIsValid(cfg: Config, a: Address, sig: seq<byte>, p: Block)
    requires p == Signed(NewBlock(cfg.sha, 1, 0, cfg.genesisBlock.hash, cfg.self, [Fee(a, 0)]), sig)
    ensures Validates(cfg.sha, p) && p.previousHash == cfg.genesisBlock.hash && p.height == 1
  {
    SigningKeepsValidity(cfg.sha, NewBlock(cfg.sha, 1, 0, cfg.genesisBlock.hash, cfg.self, [Fee(a, 0)]), sig);
  }

  /** Without honest heights it fails.  A node that starts without validators receives a transaction and
      produces block p of height one, receives the valid block b of height zero on top of it, receives
      another transaction, and produces a second block of height one. */
  lemma SecondBlockOfOneHeight(cfg: Config, a: Address, v: Address, sig: seq<byte>, p: Block, b: Block, s: NodeState)
    returns (s1: NodeState, s2: NodeState, s3: NodeState, s4: NodeState, q: Block)
    requires WellFormed(cfg) && HashSafe(cfg.sha, {cfg.genesisBlock, p, b}) && Fresh(cfg, s, a)
    requires cfg.verify(Fee(a, 0)) && cfg.verify(Fee(a, 1)) && b == NewBlock(cfg.sha, 0, 0, p.hash, v, [])
    requires p == Signed(NewBlock(cfg.sha, 1, 0, cfg.genesisBlock.hash, cfg.self, [Fee(a, 0)]), sig)
    ensures s1 == HandleTx(cfg, s, Fee(a, 0)).state && s2 == Produce(cfg, s1, 0, sig).state
    ensures s3 == HandleNewBlock(cfg, s2, b).state && s4 == HandleTx(cfg, s3, Fee(a, 1)).state
    ensures ProducedAt(cfg, s1, Tick(0, sig)) == [p] && ProducedAt(cfg, s4, Tick(0, sig)) == [q]
    ensures p.height == q.height == 1 && p != q
  {
    s1, s2 := FirstProduction(cfg, s, a, sig, p);
    ProposedIsValid(cfg, a, sig, p);
    s3 := LowBlockLowers(cfg, s2, a, v, p, b);
    s4, q := SecondProduction(cfg, s3, a, sig, b);
  }
}
