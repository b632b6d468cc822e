/** What a node does with each message, stated outright from the message and the node's state. */
module NodeRules {
  import opened Words
  import opened Crypto
  import opened Blocks
  import opened Ledger
  import opened Validators
  import opened ChainStore
  import opened Mempool
  import opened NodeMachine
  import opened NodeSound
  import opened NodeEvidence
  import Merkle

  // ---------------------------------------------------------------- transactions

  predicate Admissible(cfg: Config, s: NodeState, tx: Transaction) {
    && |s.pool| < (if cfg.poolSize <= 0 then 10000 else cfg.poolSize)
    && cfg.verify(tx) && tx.fee >= 100
    && tx.nonce == Get(s.view.accounts.nonces, tx.from)
    && Get(s.view.accounts.balances, tx.from) >= (tx.amount + tx.fee) % TWO_64
    && (forall i :: 0 <= i < |s.pool| ==> TxHash(cfg.sha, s.pool[i]) != TxHash(cfg.sha, tx))
  }

  /** A transaction is pooled and relayed if and only if it is admissible; otherwise nothing happens. */
  lemma TxRule(cfg: Config, s: NodeState, tx: Transaction)
    ensures HandleTx(cfg, s, tx) ==
            if Admissible(cfg, s, tx) then
              Outcome(NodeState(s.store, s.height, s.tip, s.view, s.pool + [tx], s.seen), [NewTxMsg(tx)])
            else Outcome(s, [])
  {
    AdmittedIff(cfg.sha, cfg.verify, PoolMax(cfg), Some(s.view.accounts), s.pool, tx);
  }

  /** At step n of the run the transaction was received and admissible. */
  ghost predicate AdmittedAtStep(cfg: Config, es: seq<Event>, n: nat, t: Transaction) {
    n < |es| && es[n] == ReceiveTx(t) && Admissible(cfg, Run(cfg, es[..n]), t)
  }

  /** Every pooled transaction of a reachable state was received at some earlier step, when it was signed,
      paid the minimum fee, carried its sender's stored nonce and was covered by its balance. */
  lemma {:induction false} PoolProvenance(cfg: Config, es: seq<Event>, t: Transaction) returns (n: nat)
    requires t in Run(cfg, es).pool
    ensures AdmittedAtStep(cfg, es, n, t)
  {
    var m := |es| - 1;
    var init := es[..m];
    if t in Run(cfg, init).pool {
      n := PoolProvenance(cfg, init, t);
      assert init[..n] == es[..n];
    } else {
      n := m;
      NewlyPooled(cfg, Run(cfg, init), es[m], t);
    }
  }

  lemma NewlyPooled(cfg: Config, s: NodeState, e: Event, t: Transaction)
    requires t in Step(cfg, s, e).state.pool && t !in s.pool
    ensures e == ReceiveTx(t) && Admissible(cfg, s, t)
  {
    match e
    case ReceiveTx(tx) => TxRule(cfg, s, tx);
    case ReceiveBlock(b) => AfterPool(cfg, s, b, JudgeSingle(cfg, ValidatorSet(s.view), s, b), t);
    case ReceiveBlocks(bs) => BlocksPool(cfg, s, bs, t);
    case Tick(now, sig) =>
      if Proposal(cfg, s, now, sig).Some? {
        RemovedMembers(cfg.sha, s.pool, Proposal(cfg, s, now, sig).value.txs, t);
      }
    case _ =>
  }

  lemma AfterPool(cfg: Config, s: NodeState, b: Block, v: Verdict, t: Transaction)
    requires t in After(cfg, s, b, v).pool
    ensures t in s.pool
  {
    if v == Take {
      RemovedMembers(cfg.sha, s.pool, b.txs, t);
    }
  }

  lemma {:induction false} ExtendPool(cfg: Config, leaders: seq<Validator>, s: NodeState, bs: seq<Block>,
                                     t: Transaction)
    requires t in Extend(cfg, leaders, s, bs).state.pool
    ensures t in s.pool
    decreases |bs|
  {
    if bs != [] {
      var v := Judge(cfg, leaders, s, bs[0]);
      if v != Stop {
        ExtendPool(cfg, leaders, After(cfg, s, bs[0], v), bs[1..], t);
      }
      AfterPool(cfg, s, bs[0], v, t);
    }
  }

  lemma {:induction false} SyncPool(cfg: Config, s: NodeState, bs: seq<Block>, t: Transaction)
    requires t in SyncEmpty(cfg, s, bs).pool
    ensures t in s.pool
    decreases |bs|
  {
    if bs != [] {
      var b := bs[0];
      if Validates(cfg.sha, b) && !(LastBlock(s).Some? && b.previousHash != LastBlock(s).value.hash) {
        var s1 := if LastBlock(s).None? && b.height == 0 then WithGenesisApplied(cfg, s) else s;
        SyncPool(cfg, Adopted(cfg, s1, b), bs[1..], t);
        RemovedMembers(cfg.sha, s1.pool, b.txs, t);
      }
    }
  }

  lemma {:induction false} RemoveAllPool(sha: Sha, pool: seq<Transaction>, bs: seq<Block>, t: Transaction)
    requires t in RemoveAll(sha, pool, bs)
    ensures t in pool
  {
    if bs != [] {
      var init := bs[..|bs| - 1];
      RemovedMembers(sha, RemoveAll(sha, pool, init), bs[|bs| - 1].txs, t);
      RemoveAllPool(sha, pool, init, t);
    }
  }

  lemma BlocksPool(cfg: Config, s: NodeState, bs: seq<Block>, t: Transaction)
    requires t in HandleBlocks(cfg, s, bs).state.pool
    ensures t in s.pool
  {
    match BranchOf(cfg, s, bs)
    case ExtendTip => ExtendPool(cfg, ValidatorSet(s.view), s, bs, t);
    case SyncFromEmpty => SyncPool(cfg, s, bs, t);
    case Reorg => RemoveAllPool(cfg.sha, s.pool, bs, t);
    case _ =>
  }

  // ---------------------------------------------------------------- what adopted blocks do to the pool

  /** One of the blocks includes a transaction with the hash of t. */
  ghost predicate InBlocks(sha: Sha, bs: seq<Block>, t: Transaction) {
    exists i :: 0 <= i < |bs| && Included(sha, bs[i].txs, t)
  }

  lemma InBlocksLast(sha: Sha, bs: seq<Block>, t: Transaction)
    requires bs != []
    ensures InBlocks(sha, bs, t) <==> InBlocks(sha, bs[..|bs| - 1], t) || Included(sha, bs[|bs| - 1].txs, t)
  {
    var init := bs[..|bs| - 1];
    if InBlocks(sha, init, t) {
      var i :| 0 <= i < |init| && Included(sha, init[i].txs, t);
      assert bs[i] == init[i];
    }
    if InBlocks(sha, bs, t) && !Included(sha, bs[|bs| - 1].txs, t) {
      var i :| 0 <= i < |bs| && Included(sha, bs[i].txs, t);
      assert init[i] == bs[i];
    }
  }

  lemma RemovedCount(sha: Sha, pool: seq<Transaction>, included: seq<Transaction>, t: Transaction)
    ensures multiset(Removed(sha, pool, included))[t] == if Included(sha, included, t) then 0 else multiset(pool)[t]
  {
    RemovedIsFilter(sha, pool, included);
  }

  lemma {:induction false} RemoveAllIsFilter(sha: Sha, pool: seq<Transaction>, bs: seq<Block>, t: Transaction)
    ensures multiset(RemoveAll(sha, pool, bs))[t] == if InBlocks(sha, bs, t) then 0 else multiset(pool)[t]
  {
    if bs != [] {
      var init := bs[..|bs| - 1];
      RemoveAllIsFilter(sha, pool, init, t);
      RemovedCount(sha, RemoveAll(sha, pool, init), bs[|bs| - 1].txs, t);
      InBlocksLast(sha, bs, t);
    }
  }

  lemma {:induction false} RemoveAllCons(sha: Sha, pool: seq<Transaction>, b: Block, bs: seq<Block>)
    ensures RemoveAll(sha, pool, [b] + bs) == RemoveAll(sha, Removed(sha, pool, b.txs), bs)
  {
    if bs == [] {
      assert [b] + bs == [b] && [b][..0] == [];
    } else {
      var init := bs[..|bs| - 1];
      RemoveAllCons(sha, pool, b, init);
      assert ([b] + bs)[..|bs|] == [b] + init && ([b] + bs)[|bs|] == bs[|bs| - 1];
    }
  }

  lemma {:induction false} ExtendRemoves(cfg: Config, leaders: seq<Validator>, s: NodeState, bs: seq<Block>)
    ensures Extend(cfg, leaders, s, bs).state.pool
         == RemoveAll(cfg.sha, s.pool, Announced(Extend(cfg, leaders, s, bs).sent))
    decreases |bs|
  {
    if bs != [] {
      var b := bs[0];
      var v := Judge(cfg, leaders, s, b);
      if v != Stop {
        var s' := After(cfg, s, b, v);
        ExtendRemoves(cfg, leaders, s', bs[1..]);
        var sent := Extend(cfg, leaders, s', bs[1..]).sent;
        AnnouncedCons(b, sent);
        RemoveAllCons(cfg.sha, s.pool, b, Announced(sent));
      }
    }
  }

  /** The blocks a step makes part of the node's history. */
  ghost function Added(cfg: Config, s: NodeState, c: seq<Block>, e: Event): seq<Block>
    requires c != []
  {
    if e.ReceiveBlocks? && BranchOf(cfg, s, e.blocks) == Reorg then e.blocks
    else if e.Tick? then HistoryAfter(cfg, s, c, e)[|c|..]
    else Announced(Step(cfg, s, e).sent)
  }

  lemma OneBlockRemoved(sha: Sha, pool: seq<Transaction>, b: Block)
    ensures RemoveAll(sha, pool, [b]) == Removed(sha, pool, b.txs)
  {
    assert [b] + [] == [b];
    RemoveAllCons(sha, pool, b, []);
  }

  lemma NewBlockRemoves(cfg: Config, s: NodeState, b: Block)
    ensures HandleNewBlock(cfg, s, b).state.pool
         == RemoveAll(cfg.sha, s.pool, Announced(HandleNewBlock(cfg, s, b).sent))
  {
    AnnouncedCons(b, []);
    OneBlockRemoved(cfg.sha, s.pool, b);
  }

  lemma BlocksRemoves(cfg: Config, s: NodeState, bs: seq<Block>)
    requires BranchOf(cfg, s, bs) != SyncFromEmpty && BranchOf(cfg, s, bs) != Reorg
    ensures HandleBlocks(cfg, s, bs).state.pool
         == RemoveAll(cfg.sha, s.pool, Announced(HandleBlocks(cfg, s, bs).sent))
  {
    if BranchOf(cfg, s, bs) == ExtendTip {
      ExtendRemoves(cfg, ValidatorSet(s.view), s, bs);
    } else {
      assert Announced([GetBlocksMsg(0, 10000)]) == [];
    }
  }

  lemma ProduceRemoves(cfg: Config, s: NodeState, c: seq<Block>, now: i64, sig: seq<byte>)
    requires c != []
    ensures Produce(cfg, s, now, sig).state.pool
         == RemoveAll(cfg.sha, s.pool, HistoryAfter(cfg, s, c, Tick(now, sig))[|c|..])
  {
    if Proposal(cfg, s, now, sig).Some? {
      var b := Proposal(cfg, s, now, sig).value;
      OneBlockRemoved(cfg.sha, s.pool, b);
      assert (c + [b])[|c|..] == [b];
    }
  }

  lemma StepRemoves(cfg: Config, s: NodeState, c: seq<Block>, e: Event)
    requires c != [] && (e.ReceiveBlock? || e.ReceiveBlocks? || e.Tick?)
    requires e.ReceiveBlocks? ==> BranchOf(cfg, s, e.blocks) != SyncFromEmpty
    ensures Step(cfg, s, e).state.pool == RemoveAll(cfg.sha, s.pool, Added(cfg, s, c, e))
  {
    if e.ReceiveBlock? {
      NewBlockRemoves(cfg, s, e.block);
    } else if e.Tick? {
      ProduceRemoves(cfg, s, c, e.now, e.sig);
    } else if BranchOf(cfg, s, e.blocks) != Reorg {
      BlocksRemoves(cfg, s, e.blocks);
    }
  }

  /** Adopting blocks, by whichever way, takes from the pool exactly the transactions they include. */
  lemma PoolCleanedExactly(cfg: Config, s: NodeState, c: seq<Block>, e: Event, t: Transaction)
    requires c != [] && (e.ReceiveBlock? || e.ReceiveBlocks? || e.Tick?)
    requires e.ReceiveBlocks? ==> BranchOf(cfg, s, e.blocks) != SyncFromEmpty
    ensures multiset(Step(cfg, s, e).state.pool)[t] ==
            if InBlocks(cfg.sha, Added(cfg, s, c, e), t) then 0 else multiset(s.pool)[t]
  {
    StepRemoves(cfg, s, c, e);
    RemoveAllIsFilter(cfg.sha, s.pool, Added(cfg, s, c, e), t);
  }

  // ---------------------------------------------------------------- blocks

  /** Both equations that validation checks. */
  ghost predicate Checked(sha: Sha, b: Block) {
    && b.merkleRoot == Merkle.Root(sha, TxHashes(sha, b.txs))
    && b.hash == sha(BlockText(b.height, b.timestamp, b.previousHash, b.merkleRoot, b.validator, TxHashes(sha, b.txs)))
  }

  /** Every block of a run's history but the first carries the Merkle root of its transactions and the hash
      of its own fields. */
  lemma HistoryChecked(cfg: Config, es: seq<Event>, i: nat)
    requires 1 <= i < |History(cfg, es)|
    ensures Checked(cfg.sha, History(cfg, es)[i])
  {
    HistoryTailValid(cfg, es);
    assert Validates(cfg.sha, History(cfg, es)[i]);
  }

  predicate WellTimed(leaders: seq<Validator>, b: Block) {
    leaders == [] || leaders[b.height % |leaders|].address == b.validator
  }

  /** Passed both equations, new, and by the validator whose turn it is. */
  ghost predicate Passes(cfg: Config, leaders: seq<Validator>, s: NodeState, b: Block) {
    Checked(cfg.sha, b) && b.hash !in s.store && WellTimed(leaders, b)
  }

  ghost predicate Clashes(s: NodeState, b: Block) {
    (b.height, b.validator) in s.seen && s.seen[(b.height, b.validator)] != b.hash
  }

  /** The fate of an announced block.  Refused, it changes nothing.  Clashing with an earlier block of its
      height and validator, it costs the validator its place and nothing else.  Otherwise it is recorded,
      and if its parent is the tip it becomes the tip, is applied, and is passed on. */
  lemma NewBlockRule(cfg: Config, s: NodeState, b: Block) returns (o: Outcome)
    requires TipStored(s)
    ensures o == HandleNewBlock(cfg, s, b)
    ensures !Passes(cfg, ValidatorSet(s.view), s, b) ==> o == Outcome(s, [])
    ensures Passes(cfg, ValidatorSet(s.view), s, b) && Clashes(s, b) ==>
      && o.sent == [] && o.state == NodeState(s.store, s.height, s.tip, o.state.view, s.pool, s.seen)
      && o.state.view.accounts == s.view.accounts
      && ValidatorSet(o.state.view) == Without(ValidatorSet(s.view), b.validator)
    ensures Passes(cfg, ValidatorSet(s.view), s, b) && !Clashes(s, b) ==>
      && o.state.seen == s.seen[(b.height, b.validator) := b.hash]
      && (b.previousHash != s.tip ==>
            o == Outcome(NodeState(s.store, s.height, s.tip, s.view, s.pool, o.state.seen), []))
      && (b.previousHash == s.tip ==>
            && o.sent == [NewBlockMsg(b)] && o.state.store == s.store[b.hash := b]
            && o.state.tip == b.hash && o.state.height == b.height
            && o.state.view == View(ApplyBlock(s.view.accounts, b), s.view.stakes, s.view.list))
  {
    o := HandleNewBlock(cfg, s, b);
    CheckedIsValid(cfg.sha, b);
    SlashRemovesExactly(s.view, b.validator);
  }

  lemma CheckedIsValid(sha: Sha, b: Block)
    ensures Checked(sha, b) <==> Validates(sha, b)
  {
  }

  /** A block that fails either equation is ignored when announced and passed over in a batch. */
  lemma BadBlockIgnored(cfg: Config, leaders: seq<Validator>, s: NodeState, b: Block, rest: seq<Block>)
    requires !Checked(cfg.sha, b)
    ensures HandleNewBlock(cfg, s, b) == Outcome(s, [])
    ensures Extend(cfg, leaders, s, [b] + rest) == Extend(cfg, leaders, s, rest)
  {
    CheckedIsValid(cfg.sha, b);
    assert ([b] + rest)[1..] == rest;
  }

  /** One round of the extension loop: a block that does not pass is passed over, a clash slashes and goes
      on, a block off the tip is recorded and ends the loop, a block on the tip is taken over and passed
      on. */
  lemma ExtendRule(cfg: Config, leaders: seq<Validator>, s: NodeState, b: Block, rest: seq<Block>)
    requires TipStored(s)
    ensures var o := Extend(cfg, leaders, s, [b] + rest);
      && (!Passes(cfg, leaders, s, b) ==> o == Extend(cfg, leaders, s, rest))
      && (Passes(cfg, leaders, s, b) && Clashes(s, b) ==> o == Extend(cfg, leaders, Slashed(s, b), rest))
      && (Passes(cfg, leaders, s, b) && !Clashes(s, b) && b.previousHash != s.tip ==>
            o == Outcome(NodeState(s.store, s.height, s.tip, s.view, s.pool,
                                   s.seen[(b.height, b.validator) := b.hash]), []))
      && (Passes(cfg, leaders, s, b) && !Clashes(s, b) && b.previousHash == s.tip ==>
            var more := Extend(cfg, leaders, Adopted(cfg, Recorded(s, b), b), rest);
            o == Outcome(more.state, [NewBlockMsg(b)] + more.sent))
  {
    CheckedIsValid(cfg.sha, b);
    assert ([b] + rest)[1..] == rest;
  }

  /** A batch that does not extend the tip and is empty, unlinked or invalid somewhere behind its first block
      is ignored. */
  lemma BadBatchIgnored(cfg: Config, s: NodeState, bs: seq<Block>, i: nat)
    requires TipStored(s)
    requires bs == [] || (1 <= i < |bs| && bs[0].previousHash != s.tip
                          && (bs[i].previousHash != bs[i - 1].hash || !Checked(cfg.sha, bs[i])))
    ensures HandleBlocks(cfg, s, bs) == Outcome(s, [])
  {
    if bs != [] {
      CheckedIsValid(cfg.sha, bs[i]);
      assert !(LinkAt(bs, i) && Validates(cfg.sha, bs[i]));
    }
  }

  /** A batch from a block without parent at height zero, linked and valid from its second block on: it replaces
      the chain exactly when it ends above the tip, and then ledger and validators are rebuilt from genesis and
      nothing is sent; otherwise it is ignored. */
  lemma ReorgRule(cfg: Config, s: NodeState, bs: seq<Block>) returns (o: Outcome)
    requires TipStored(s) && bs != [] && bs[0].height == 0 && bs[0].previousHash == ZERO_HASH
    requires forall i :: 1 <= i < |bs| ==> LinkAt(bs, i)
    requires forall i :: 1 <= i < |bs| ==> Checked(cfg.sha, bs[i])
    ensures o == HandleBlocks(cfg, s, bs) && o.sent == []
    ensures bs[|bs| - 1].height <= s.height ==> o.state == s
    ensures bs[|bs| - 1].height > s.height ==>
      && o.state.tip == bs[|bs| - 1].hash && o.state.height == bs[|bs| - 1].height && o.state.seen == s.seen
      && o.state.view.accounts == Replay(GenesisAccounts(cfg.genesis), bs)
      && ValidatorSet(o.state.view) == ValidatorSet(GenesisView(cfg.genesis))
  {
    forall i | 1 <= i < |bs|
      ensures Validates(cfg.sha, bs[i])
    {
      CheckedIsValid(cfg.sha, bs[i]);
    }
    o := ReorgOutcome(cfg, s, bs);
  }

  lemma ReorgOutcome(cfg: Config, s: NodeState, bs: seq<Block>) returns (o: Outcome)
    requires TipStored(s) && FromGenesis(bs) && LinkedBatch(cfg.sha, bs)
    ensures o == HandleBlocks(cfg, s, bs)
    ensures o == Outcome(if Top(bs).height > s.height then Reorganised(cfg, s, bs) else s, [])
  {
    o := HandleBlocks(cfg, s, bs);
  }

  // ---------------------------------------------------------------- production and restart

  /** What a tick does, for a node whose tip is stored: it produces exactly if it has a pending transaction
      and it is its turn at the next height, or there are no validators; the block carries the oldest pending
      transactions, at most 100, and is announced. */
  lemma ProduceRule(cfg: Config, s: NodeState, now: i64, sig: seq<byte>)
    returns (next: u64, vs: seq<Validator>, p: Option<Block>)
    requires TipStored(s)
    ensures next == (s.height + 1) % TWO_64 && vs == ValidatorSet(s.view) && p == Proposal(cfg, s, now, sig)
    ensures p.Some? <==> s.pool != [] && (vs == [] || vs[next % |vs|].address == cfg.self)
    ensures p.None? ==> Produce(cfg, s, now, sig) == Outcome(s, [])
    ensures p.Some? ==> Produce(cfg, s, now, sig).sent == [NewBlockMsg(p.value)] && Checked(cfg.sha, p.value)
    ensures p.Some? ==> p.value.height == next && p.value.previousHash == s.tip && p.value.validator == cfg.self
    ensures p.Some? ==> p.value.timestamp == now && p.value.signature == sig
    ensures p.Some? ==> p.value.txs == s.pool[..if |s.pool| > 100 then 100 else |s.pool|]
  {
    next, vs, p := Add64(s.height, 1), ValidatorSet(s.view), Proposal(cfg, s, now, sig);
    ProposalIff(cfg, s, now, sig);
    if p.Some? {
      ProposalIs(cfg, s, now, sig);
      assert Prefix(s.pool, 100) == s.pool[..if |s.pool| > 100 then 100 else |s.pool|];
    }
  }

  lemma ProposalIff(cfg: Config, s: NodeState, now: i64, sig: seq<byte>)
    requires TipStored(s)
    ensures var next, vs := Add64(s.height, 1), ValidatorSet(s.view);
      Proposal(cfg, s, now, sig).Some? <==> s.pool != [] && (vs == [] || vs[next % |vs|].address == cfg.self)
  {
  }

  lemma ProposalIs(cfg: Config, s: NodeState, now: i64, sig: seq<byte>)
    requires TipStored(s) && Proposal(cfg, s, now, sig).Some?
    ensures var b := Proposal(cfg, s, now, sig).value;
      && Checked(cfg.sha, b) && b.height == Add64(s.height, 1) && b.previousHash == s.tip && b.validator == cfg.self
      && b.timestamp == now && b.signature == sig && b.txs == Prefix(s.pool, 100)
  {
    ProposalValid(cfg, s, now, sig);
    CheckedIsValid(cfg.sha, Proposal(cfg, s, now, sig).value);
  }

  /** A restart keeps chain and state and forgets the pool and the double-sign table. */
  lemma RestartRule(cfg: Config, s: NodeState)
    requires s.tip != ZERO_HASH
    ensures Step(cfg, s, Restart) == Outcome(NodeState(s.store, s.height, s.tip, s.view, [], map[]), [])
  {
  }

  /** A produced block spreads.  What a producer announces, a node on the same chain with the same validator
      set, which has neither the block nor another one of its height and validator, takes over and passes
      on, and then both have the same tip, height, balances and nonces. */
  lemma ProducedBlockSpreads(cfg: Config, s: NodeState, cfg': Config, s': NodeState, c: seq<Block>,
                             now: i64, sig: seq<byte>)
    returns (b: Block, t: NodeState, t': NodeState)
    requires Sound(cfg, s, c) && Sound(cfg', s', c) && TipStored(s) && TipStored(s')
    requires cfg.sha == cfg'.sha && cfg.genesis == cfg'.genesis && ValidatorSet(s.view) == ValidatorSet(s'.view)
    requires Proposal(cfg, s, now, sig).Some?
    requires Proposal(cfg, s, now, sig).value.hash !in s'.store && !Clashes(s', Proposal(cfg, s, now, sig).value)
    ensures Produce(cfg, s, now, sig) == Outcome(t, [NewBlockMsg(b)])
    ensures HandleNewBlock(cfg', s', b) == Outcome(t', [NewBlockMsg(b)])
    ensures t.tip == t'.tip && t.height == t'.height && t.view.accounts == t'.view.accounts
  {
    var next, vs, p := ProduceRule(cfg, s, now, sig);
    b, t := p.value, Produce(cfg, s, now, sig).state;
    var o := NewBlockRule(cfg', s', b);
    t' := o.state;
  }

  // ---------------------------------------------------------------- sync from empty

  /** The first k blocks are valid and linked to the tip, and the next one, if any, is not. */
  ghost predicate GoodUpTo(sha: Sha, tip: Hash, bs: seq<Block>, k: nat, known: set<Block>)
    decreases k
  {
    if k == 0 then bs == [] || !Validates(sha, bs[0]) || bs[0].previousHash != tip
    else
      && bs != [] && Validates(sha, bs[0]) && bs[0] in known && bs[0].previousHash == tip
      && GoodUpTo(sha, bs[0].hash, bs[1..], k - 1, known)
  }

  lemma {:induction false} GoodLength(sha: Sha, tip: Hash, bs: seq<Block>, k: nat, known: set<Block>)
    requires GoodUpTo(sha, tip, bs, k, known)
    ensures k <= |bs|
    decreases k
  {
    if k > 0 {
      GoodLength(sha, bs[0].hash, bs[1..], k - 1, known);
    }
  }

  /** Blocks taken over one after the other. */
  function AdoptAll(cfg: Config, s: NodeState, bs: seq<Block>): NodeState
    decreases |bs|
  {
    if bs == [] then s else AdoptAll(cfg, Adopted(cfg, s, bs[0]), bs[1..])
  }

  /** The loop takes over exactly the good blocks. */
  lemma {:induction false} SyncIsAdoptAll(cfg: Config, s: NodeState, bs: seq<Block>, k: nat, known: set<Block>)
    requires TipStored(s) && HashSafe(cfg.sha, known) && GoodUpTo(cfg.sha, s.tip, bs, k, known) && k <= |bs|
    ensures SyncEmpty(cfg, s, bs) == AdoptAll(cfg, s, bs[..k])
    decreases |bs|
  {
    if k > 0 {
      var b := bs[0];
      assert BlockHash(cfg.sha, b) == b.hash;
      assert bs[..k][0] == b && bs[..k][1..] == bs[1..][..k - 1];
      SyncIsAdoptAll(cfg, Adopted(cfg, s, b), bs[1..], k - 1, known);
    }
  }

  /** One good block taken over; d is the chain to be reached. */
  lemma AdoptOne(cfg: Config, s: NodeState, c: seq<Block>, bs: seq<Block>, known: set<Block>, d: seq<Block>)
    returns (s': NodeState, c': seq<Block>, rest: seq<Block>)
    requires Sound(cfg, s, c) && AllValid(cfg.sha, c, known) && HashSafe(cfg.sha, known) && bs != []
    requires GoodUpTo(cfg.sha, s.tip, bs, |bs|, known) && d == c + bs
    ensures Sound(cfg, s', c') && AllValid(cfg.sha, c', known) && |rest| == |bs| - 1 && d == c' + rest
    ensures GoodUpTo(cfg.sha, s'.tip, rest, |rest|, known) && AdoptAll(cfg, s, bs) == AdoptAll(cfg, s', rest)
    ensures s'.view.stakes == s.view.stakes && s'.view.list == s.view.list
  {
    var b := bs[0];
    rest := GoodRest(cfg.sha, s.tip, bs, c, known);
    s', c' := GoodBlockSound(cfg, s, c, b, known);
  }

  lemma GoodRest(sha: Sha, tip: Hash, bs: seq<Block>, c: seq<Block>, known: set<Block>) returns (rest: seq<Block>)
    requires GoodUpTo(sha, tip, bs, |bs|, known) && bs != []
    ensures rest == bs[1..] && (c + [bs[0]]) + rest == c + bs && GoodUpTo(sha, bs[0].hash, rest, |rest|, known)
    ensures Validates(sha, bs[0]) && bs[0] in known && bs[0].previousHash == tip
  {
    rest := bs[1..];
  }

  lemma GoodBlockSound(cfg: Config, s: NodeState, c: seq<Block>, b: Block, known: set<Block>)
    returns (s': NodeState, c': seq<Block>)
    requires Sound(cfg, s, c) && AllValid(cfg.sha, c, known) && HashSafe(cfg.sha, known)
    requires Validates(cfg.sha, b) && b in known && b.previousHash == s.tip
    ensures s' == Adopted(cfg, s, b) && c' == c + [b] && Sound(cfg, s', c') && AllValid(cfg.sha, c', known)
    ensures s'.tip == b.hash && s'.view.stakes == s.view.stakes && s'.view.list == s.view.list
  {
    s', c' := Adopted(cfg, s, b), c + [b];
    assert Stored(s.store, c[|c| - 1]) && BlockHash(cfg.sha, b) == b.hash;
    SameHashSameParent(cfg.sha, c[0], b, known);
    ChildNotOnChain(cfg.sha, s, c, b, known);
    AdoptSound(cfg, s, c, b);
  }

  lemma {:induction false} AdoptAllSound(cfg: Config, s: NodeState, c: seq<Block>, bs: seq<Block>, known: set<Block>,
                                        d: seq<Block>) returns (s': NodeState)
    requires Sound(cfg, s, c) && AllValid(cfg.sha, c, known) && HashSafe(cfg.sha, known)
    requires GoodUpTo(cfg.sha, s.tip, bs, |bs|, known) && d == c + bs
    ensures s' == AdoptAll(cfg, s, bs) && Sound(cfg, s', d)
    ensures s'.view.stakes == s.view.stakes && s'.view.list == s.view.list
    decreases |bs|
  {
    if bs == [] {
      s' := s;
      assert d == c;
    } else {
      var c': seq<Block>, rest: seq<Block>;
      s', c', rest := AdoptOne(cfg, s, c, bs, known, d);
      s' := AdoptAllSound(cfg, s', c', rest, known, d);
    }
  }

  lemma {:induction false} GoodPrefix(sha: Sha, tip: Hash, bs: seq<Block>, k: nat, known: set<Block>)
    requires GoodUpTo(sha, tip, bs, k, known) && k <= |bs|
    ensures GoodUpTo(sha, tip, bs[..k], k, known)
    decreases k
  {
    if k > 0 {
      GoodPrefix(sha, bs[0].hash, bs[1..], k - 1, known);
      assert bs[..k][0] == bs[0] && bs[..k][1..] == bs[1..][..k - 1];
    }
  }

  /** Sync from empty: a node with nothing yet that receives a batch from a valid genesis block b is, afterwards,
      on the longest prefix of valid, linked blocks, with their replay as ledger and the genesis validators. */
  lemma SyncFromScratch(cfg: Config, s: NodeState, b: Block, rest: seq<Block>, k: nat, known: set<Block>)
    returns (s': NodeState, d: seq<Block>)
    requires s.tip == ZERO_HASH && s.view == EMPTY_VIEW && Tidy(cfg.sha, PoolMax(cfg), s.pool)
    requires b.height == 0 && b.previousHash == ZERO_HASH && Validates(cfg.sha, b) && b in known
    requires GoodUpTo(cfg.sha, b.hash, rest, k, known) && HashSafe(cfg.sha, known)
    ensures HandleBlocks(cfg, s, [b] + rest) == Outcome(s', []) && k <= |rest| && d == [b] + rest[..k]
    ensures Sound(cfg, s', d) && ValidatorSet(s'.view) == ValidatorSet(GenesisView(cfg.genesis))
  {
    GoodLength(cfg.sha, b.hash, rest, k, known);
    d := [b] + rest[..k];
    s' := FirstSynced(cfg, s, b, rest, known);
    s' := RestSynced(cfg, s', b, rest, k, known, d);
  }

  lemma RestSynced(cfg: Config, s: NodeState, b: Block, rest: seq<Block>, k: nat, known: set<Block>, d: seq<Block>)
    returns (s': NodeState)
    requires Sound(cfg, s, [b]) && AllValid(cfg.sha, [b], known) && HashSafe(cfg.sha, known) && TipStored(s)
    requires GoodUpTo(cfg.sha, s.tip, rest, k, known) && k <= |rest| && d == [b] + rest[..k]
    ensures s' == SyncEmpty(cfg, s, rest) && Sound(cfg, s', d) && ValidatorSet(s'.view) == ValidatorSet(s.view)
  {
    SyncIsAdoptAll(cfg, s, rest, k, known);
    GoodPrefix(cfg.sha, s.tip, rest, k, known);
    s' := AdoptAllSound(cfg, s, [b], rest[..k], known, d);
  }

  /** A batch whose first block does not validate leaves an empty node empty. */
  lemma BadGenesisIgnored(cfg: Config, s: NodeState, b: Block, rest: seq<Block>)
    requires s.tip == ZERO_HASH && b.height == 0 && b.previousHash == ZERO_HASH && !Checked(cfg.sha, b)
    ensures HandleBlocks(cfg, s, [b] + rest) == Outcome(s, [])
  {
    CheckedIsValid(cfg.sha, b);
  }

  lemma StartsSync(cfg: Config, s: NodeState, b: Block, rest: seq<Block>)
    requires s.tip == ZERO_HASH && b.height == 0 && b.previousHash == ZERO_HASH && Validates(cfg.sha, b)
    ensures HandleBlocks(cfg, s, [b] + rest) ==
            Outcome(SyncEmpty(cfg, Adopted(cfg, WithGenesisApplied(cfg, s), b), rest), [])
  {
    assert ([b] + rest)[1..] == rest;
  }

  lemma FirstSynced(cfg: Config, s: NodeState, b: Block, rest: seq<Block>, known: set<Block>) returns (s1: NodeState)
    requires s.tip == ZERO_HASH && s.view == EMPTY_VIEW && Tidy(cfg.sha, PoolMax(cfg), s.pool)
    requires b.height == 0 && b.previousHash == ZERO_HASH && Validates(cfg.sha, b) && b in known
    requires HashSafe(cfg.sha, known)
    ensures HandleBlocks(cfg, s, [b] + rest) == Outcome(SyncEmpty(cfg, s1, rest), [])
    ensures Sound(cfg, s1, [b]) && AllValid(cfg.sha, [b], known) && TipStored(s1) && s1.tip == b.hash
    ensures ValidatorSet(s1.view) == ValidatorSet(GenesisView(cfg.genesis))
  {
    s1 := Adopted(cfg, WithGenesisApplied(cfg, s), b);
    StartsSync(cfg, s, b, rest);
    assert BlockHash(cfg.sha, b) == b.hash;
    ReplayAppend(GenesisAccounts(cfg.genesis), [], b);
    assert [] + [b] == [b];
    RemoveKeepsTidy(cfg.sha, PoolMax(cfg), s.pool, b.txs);
  }
}
