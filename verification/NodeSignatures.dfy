/** No step reads the signature of a block: signatures are stored and passed on, and nothing else. */
module NodeSignatures {
  import opened Words
  import opened Crypto
  import opened Blocks
  import opened Ledger
  import opened Validators
  import opened ChainStore
  import opened Mempool
  import opened NodeMachine
  import opened NodeSound

  // ---------------------------------------------------------------- the same thing without signatures

  function Bare(b: Block): Block {
    Block(b.height, b.timestamp, b.previousHash, b.merkleRoot, b.validator, b.txs, [], b.hash)
  }

  function BareAll(bs: seq<Block>): (r: seq<Block>)
    ensures |r| == |bs| && forall i :: 0 <= i < |bs| ==> r[i] == Bare(bs[i])
  {
    seq(|bs|, i requires 0 <= i < |bs| => Bare(bs[i]))
  }

  function BareStore(store: Store): Store {
    map h | h in store :: Bare(store[h])
  }

  function BareState(s: NodeState): NodeState {
    NodeState(BareStore(s.store), s.height, s.tip, s.view, s.pool, s.seen)
  }

  function BareMessage(m: Message): Message {
    match m
    case NewBlockMsg(b) => NewBlockMsg(Bare(b))
    case BlocksMsg(bs) => BlocksMsg(BareAll(bs))
    case _ => m
  }

  function BareSent(sent: seq<Message>): (r: seq<Message>)
    ensures |r| == |sent| && forall i :: 0 <= i < |sent| ==> r[i] == BareMessage(sent[i])
  {
    seq(|sent|, i requires 0 <= i < |sent| => BareMessage(sent[i]))
  }

  function BareOutcome(o: Outcome): Outcome {
    Outcome(BareState(o.state), BareSent(o.sent))
  }

  function BareEvent(e: Event): Event {
    match e
    case ReceiveBlock(b) => ReceiveBlock(Bare(b))
    case ReceiveBlocks(bs) => ReceiveBlocks(BareAll(bs))
    case Tick(now, sig) => Tick(now, [])
    case _ => e
  }

  function BareEvents(es: seq<Event>): (r: seq<Event>)
    ensures |r| == |es| && forall i :: 0 <= i < |es| ==> r[i] == BareEvent(es[i])
  {
    seq(|es|, i requires 0 <= i < |es| => BareEvent(es[i]))
  }

  // ---------------------------------------------------------------- pieces of a step

  lemma BareValidates(sha: Sha, b: Block)
    ensures Validates(sha, Bare(b)) == Validates(sha, b)
  {
  }

  lemma BareWrite(store: Store, b: Block)
    ensures BareStore(store[b.hash := b]) == BareStore(store)[b.hash := Bare(b)]
  {
  }

  lemma BareLast(s: NodeState)
    ensures LastBlock(BareState(s)) == if LastBlock(s).Some? then Some(Bare(LastBlock(s).value)) else None
  {
  }

  lemma BareAdopted(cfg: Config, s: NodeState, b: Block)
    ensures Adopted(cfg, BareState(s), Bare(b)) == BareState(Adopted(cfg, s, b))
  {
    BareWrite(s.store, b);
  }

  lemma BareAfter(cfg: Config, s: NodeState, b: Block, v: Verdict)
    ensures After(cfg, BareState(s), Bare(b), v) == BareState(After(cfg, s, b, v))
  {
    BareAdopted(cfg, Recorded(s, b), b);
  }

  lemma BareJudge(cfg: Config, leaders: seq<Validator>, s: NodeState, b: Block)
    ensures Judge(cfg, leaders, BareState(s), Bare(b)) == Judge(cfg, leaders, s, b)
    ensures JudgeSingle(cfg, leaders, BareState(s), Bare(b)) == JudgeSingle(cfg, leaders, s, b)
  {
    BareValidates(cfg.sha, b);
    BareLast(s);
  }

  lemma BareTail(bs: seq<Block>)
    requires bs != []
    ensures BareAll(bs)[0] == Bare(bs[0]) && BareAll(bs)[1..] == BareAll(bs[1..])
  {
  }

  lemma BareInit(bs: seq<Block>)
    requires bs != []
    ensures BareAll(bs)[|bs| - 1] == Bare(bs[|bs| - 1]) && BareAll(bs)[..|bs| - 1] == BareAll(bs[..|bs| - 1])
  {
  }

  lemma BareCons(b: Block, sent: seq<Message>)
    ensures BareSent([NewBlockMsg(b)] + sent) == [NewBlockMsg(Bare(b))] + BareSent(sent)
  {
  }

  lemma {:induction false} BareExtend(cfg: Config, leaders: seq<Validator>, s: NodeState, bs: seq<Block>)
    ensures Extend(cfg, leaders, BareState(s), BareAll(bs)) == BareOutcome(Extend(cfg, leaders, s, bs))
    decreases |bs|
  {
    if bs != [] {
      var b := bs[0];
      var v := Judge(cfg, leaders, s, b);
      BareTail(bs);
      BareJudge(cfg, leaders, s, b);
      BareAfter(cfg, s, b, v);
      if v != Stop {
        BareExtend(cfg, leaders, After(cfg, s, b, v), bs[1..]);
        BareCons(b, Extend(cfg, leaders, After(cfg, s, b, v), bs[1..]).sent);
      }
    }
  }

  lemma {:induction false} BareSync(cfg: Config, s: NodeState, bs: seq<Block>)
    ensures SyncEmpty(cfg, BareState(s), BareAll(bs)) == BareState(SyncEmpty(cfg, s, bs))
    decreases |bs|
  {
    if bs != [] {
      var b := bs[0];
      BareTail(bs);
      BareValidates(cfg.sha, b);
      BareLast(s);
      if Validates(cfg.sha, b) && !(LastBlock(s).Some? && b.previousHash != LastBlock(s).value.hash) {
        var s1 := if LastBlock(s).None? && b.height == 0 then WithGenesisApplied(cfg, s) else s;
        BareAdopted(cfg, s1, b);
        BareSync(cfg, Adopted(cfg, s1, b), bs[1..]);
      }
    }
  }

  lemma {:induction false} BareWriteAll(store: Store, bs: seq<Block>)
    ensures WriteAll(BareStore(store), BareAll(bs)) == BareStore(WriteAll(store, bs))
  {
    if bs != [] {
      BareInit(bs);
      BareWriteAll(store, bs[..|bs| - 1]);
      BareWrite(WriteAll(store, bs[..|bs| - 1]), bs[|bs| - 1]);
    }
  }

  lemma {:induction false} BareRemoveAll(sha: Sha, pool: seq<Transaction>, bs: seq<Block>)
    ensures RemoveAll(sha, pool, BareAll(bs)) == RemoveAll(sha, pool, bs)
  {
    if bs != [] {
      BareInit(bs);
      BareRemoveAll(sha, pool, bs[..|bs| - 1]);
    }
  }

  lemma {:induction false} BareReplay(acc: Accounts, bs: seq<Block>)
    ensures Replay(acc, BareAll(bs)) == Replay(acc, bs)
  {
    if bs != [] {
      BareInit(bs);
      BareReplay(acc, bs[..|bs| - 1]);
      NonceFieldIgnored(Replay(acc, bs[..|bs| - 1]), Bare(bs[|bs| - 1]), bs[|bs| - 1]);
    }
  }

  lemma BareReorganised(cfg: Config, s: NodeState, bs: seq<Block>)
    requires bs != []
    ensures Reorganised(cfg, BareState(s), BareAll(bs)) == BareState(Reorganised(cfg, s, bs))
  {
    BareInit(bs);
    BareWriteAll(s.store, bs);
    BareRemoveAll(cfg.sha, s.pool, bs);
    BareReplay(GenesisView(cfg.genesis).accounts, bs);
  }

  lemma BareLinked(sha: Sha, bs: seq<Block>)
    ensures LinkedBatch(sha, BareAll(bs)) == LinkedBatch(sha, bs)
  {
    forall i | 1 <= i < |bs|
      ensures LinkAt(BareAll(bs), i) == LinkAt(bs, i)
      ensures Validates(sha, BareAll(bs)[i]) == Validates(sha, bs[i])
    {
      BareValidates(sha, bs[i]);
    }
  }

  lemma BareBranch(cfg: Config, s: NodeState, bs: seq<Block>)
    ensures BranchOf(cfg, BareState(s), BareAll(bs)) == BranchOf(cfg, s, bs)
  {
    BareLast(s);
    BareLinked(cfg.sha, bs);
    if bs != [] {
      BareFirstAndTop(bs);
    }
  }

  lemma BareFirstAndTop(bs: seq<Block>)
    requires bs != []
    ensures FromGenesis(BareAll(bs)) == FromGenesis(bs) && Top(BareAll(bs)).height == Top(bs).height
    ensures BareAll(bs)[0].previousHash == bs[0].previousHash
  {
  }

  lemma BareBlocks(cfg: Config, s: NodeState, bs: seq<Block>)
    ensures HandleBlocks(cfg, BareState(s), BareAll(bs)) == BareOutcome(HandleBlocks(cfg, s, bs))
  {
    BareBranch(cfg, s, bs);
    match BranchOf(cfg, s, bs)
    case ExtendTip => BareExtend(cfg, ValidatorSet(s.view), s, bs);
    case SyncFromEmpty => BareSync(cfg, s, bs);
    case Reorg => BareReorganised(cfg, s, bs);
    case _ =>
  }

  lemma BareNewBlock(cfg: Config, s: NodeState, b: Block)
    ensures HandleNewBlock(cfg, BareState(s), Bare(b)) == BareOutcome(HandleNewBlock(cfg, s, b))
  {
    BareJudge(cfg, ValidatorSet(s.view), s, b);
    BareAfter(cfg, s, b, JudgeSingle(cfg, ValidatorSet(s.view), s, b));
  }

  lemma BareProduce(cfg: Config, s: NodeState, now: i64, sig: seq<byte>)
    ensures Produce(cfg, BareState(s), now, []) == BareOutcome(Produce(cfg, s, now, sig))
  {
    BareLast(s);
    if Proposal(cfg, s, now, sig).Some? {
      BareAdopted(cfg, s, Proposal(cfg, s, now, sig).value);
    }
  }

  lemma {:induction false} BareEnds(store: Store, h: Hash, from: u64, n: nat)
    ensures Ends(BareStore(store), h, from, n) == Ends(store, h, from, n)
    decreases n
  {
    if n > 0 && h in store {
      BareEnds(store, store[h].previousHash, from, n - 1);
    }
  }

  function BareFind(found: Option<seq<Block>>): Option<seq<Block>> {
    if found.None? then None else Some(BareAll(found.value))
  }

  lemma {:induction false} BareFound(store: Store, h: Hash, from: u64, n: nat)
    requires Ends(store, h, from, n)
    ensures Ends(BareStore(store), h, from, n)
    ensures Found(BareStore(store), h, from, n) == BareFind(Found(store, h, from, n))
    decreases n
  {
    BareEnds(store, h, from, n);
    if h in store {
      var b := store[h];
      assert BareAll([]) == [] && BareAll([b]) == [Bare(b)];
      if !AtEnd(b, from) {
        BareFound(store, b.previousHash, from, n - 1);
        var lower := Found(store, b.previousHash, from, n - 1);
        if lower.Some? {
          BareFollowed(lower.value, b);
        }
      }
    }
  }

  lemma BareFollowed(found: seq<Block>, b: Block)
    ensures BareAll(found + [b]) == BareAll(found) + [Bare(b)]
  {
  }

  lemma BareLowest(found: seq<Block>, max: int)
    ensures BareAll(Lowest(found, max)) == Lowest(BareAll(found), max)
    ensures BareSent([BlocksMsg(Lowest(found, max))]) == [BlocksMsg(Lowest(BareAll(found), max))]
  {
    assert BareAll(Lowest(found, max)) == Lowest(BareAll(found), max);
  }

  lemma BareServe(s: NodeState, from: u64, max: int)
    ensures Serve(BareState(s), from, max) == BareOutcome(Serve(s, from, max))
  {
    forall n: nat
      ensures Ends(BareStore(s.store), s.tip, from, n) == Ends(s.store, s.tip, from, n)
    {
      BareEnds(s.store, s.tip, from, n);
    }
    if s.tip != ZERO_HASH && from <= s.height && exists n :: Ends(s.store, s.tip, from, n) {
      var n :| Ends(s.store, s.tip, from, n);
      BareFound(s.store, s.tip, from, n);
      ServeIs(s, from, max, n);
      ServeIs(BareState(s), from, max, n);
      if Found(s.store, s.tip, from, n).Some? {
        BareLowest(Found(s.store, s.tip, from, n).value, Asked(max));
      }
    }
  }

  // ---------------------------------------------------------------- steps and runs

  /** Every step commutes with forgetting block signatures: it neither accepts, refuses, orders nor answers
      anything because of one. */
  lemma StepIgnoresSignatures(cfg: Config, s: NodeState, e: Event)
    requires Bare(cfg.genesisBlock) == cfg.genesisBlock
    ensures Step(cfg, BareState(s), BareEvent(e)) == BareOutcome(Step(cfg, s, e))
  {
    match e
    case ReceiveTx(tx) =>
    case ReceiveBlock(b) => BareNewBlock(cfg, s, b);
    case ReceiveBlocks(bs) => BareBlocks(cfg, s, bs);
    case Tick(now, sig) => BareProduce(cfg, s, now, sig);
    case Request(from, max) => BareServe(s, from, max);
    case Restart => BareWrite(s.store, cfg.genesisBlock);
  }

  /** Over every run: without the block signatures the node would be in the same state, but for the
      signatures of the blocks it stores. */
  lemma {:induction false} RunIgnoresSignatures(cfg: Config, es: seq<Event>)
    requires WellFormed(cfg)
    ensures Run(cfg, BareEvents(es)) == BareState(Run(cfg, es))
  {
    if es == [] {
      BareWrite(map[], cfg.genesisBlock);
    } else {
      var init := es[..|es| - 1];
      RunIgnoresSignatures(cfg, init);
      assert BareEvents(es)[..|es| - 1] == BareEvents(init);
      StepIgnoresSignatures(cfg, Run(cfg, init), es[|es| - 1]);
    }
  }

  // ---------------------------------------------------------------- slashing on unsigned evidence

  lemma {:induction false} WithoutMember(vs: seq<Validator>, a: Address, x: Validator)
    requires x in Without(vs, a)
    ensures x.address != a
  {
    var init := vs[..|vs| - 1];
    if x in Without(init, a) {
      WithoutMember(init, a, x);
    }
  }

  /** The documents have a block signed by its producer.  Two unsigned blocks of one height, which anyone can
      make, remove the leader of that height from the validator set of a fresh node. */
  lemma UnsignedBlocksSlash(cfg: Config, s: NodeState, v: Address, b: Block, b': Block)
    returns (s1: NodeState, s2: NodeState)
    requires WellFormed(cfg) && HashSafe(cfg.sha, {cfg.genesisBlock, b, b'}) && s == Started(cfg, BLANK)
    requires Leader(ValidatorSet(s.view), 1) == v && ValidatorSet(s.view) != []
    requires b == NewBlock(cfg.sha, 1, 0, cfg.genesisBlock.hash, v, [])
    requires b' == NewBlock(cfg.sha, 1, 1, cfg.genesisBlock.hash, v, [])
    ensures s1 == HandleNewBlock(cfg, s, b).state && s2 == HandleNewBlock(cfg, s1, b').state
    ensures b.signature == b'.signature == []
    ensures ValidatorSet(s2.view) == Without(ValidatorSet(s.view), v)
    ensures forall x :: x in ValidatorSet(s2.view) ==> x.address != v
  {
    DifferentHashes(cfg, v, b, b');
    s1 := FirstTaken(cfg, s, b);
    s2 := SecondPunished(cfg, s1, b, b');
    forall x | x in Without(ValidatorSet(s.view), v)
      ensures x.address != v
    {
      WithoutMember(ValidatorSet(s.view), v, x);
    }
  }

  lemma DifferentHashes(cfg: Config, v: Address, b: Block, b': Block)
    requires WellFormed(cfg) && HashSafe(cfg.sha, {cfg.genesisBlock, b, b'})
    requires b == NewBlock(cfg.sha, 1, 0, cfg.genesisBlock.hash, v, [])
    requires b' == NewBlock(cfg.sha, 1, 1, cfg.genesisBlock.hash, v, [])
    ensures cfg.genesisBlock.hash != ZERO_HASH && b.hash != ZERO_HASH
    ensures b.hash != cfg.genesisBlock.hash && b'.hash != cfg.genesisBlock.hash && b.hash != b'.hash
  {
    var g, known := cfg.genesisBlock, {cfg.genesisBlock, b, b'};
    assert BlockHash(cfg.sha, g) == g.hash && BlockHash(cfg.sha, b) == b.hash && BlockHash(cfg.sha, b') == b'.hash;
    SameHashSameParent(cfg.sha, b, g, known);
    SameHashSameParent(cfg.sha, b', g, known);
    assert b.hash == b'.hash ==> SamePayload(cfg.sha, b, b');
  }

  lemma FirstTaken(cfg: Config, s: NodeState, b: Block) returns (s': NodeState)
    requires s == Started(cfg, BLANK) && cfg.genesisBlock.hash != ZERO_HASH && Validates(cfg.sha, b)
    requires b.hash != cfg.genesisBlock.hash && b.previousHash == cfg.genesisBlock.hash
    requires Leader(ValidatorSet(s.view), b.height) == b.validator
    ensures s' == HandleNewBlock(cfg, s, b).state && ValidatorSet(s'.view) == ValidatorSet(s.view)
    ensures s'.store == map[cfg.genesisBlock.hash := cfg.genesisBlock][b.hash := b]
    ensures s'.seen == map[SeenKey(b) := b.hash]
  {
    s' := HandleNewBlock(cfg, s, b).state;
  }

  lemma SecondPunished(cfg: Config, s: NodeState, b: Block, b': Block) returns (s': NodeState)
    requires Validates(cfg.sha, b') && SeenKey(b') == SeenKey(b) && b.hash != b'.hash
    requires s.store == map[cfg.genesisBlock.hash := cfg.genesisBlock][b.hash := b]
    requires s.seen == map[SeenKey(b) := b.hash]
    requires b'.hash != cfg.genesisBlock.hash && Leader(ValidatorSet(s.view), b'.height) == b'.validator
    ensures s' == HandleNewBlock(cfg, s, b').state
    ensures ValidatorSet(s'.view) == Without(ValidatorSet(s.view), b'.validator)
  {
    s' := HandleNewBlock(cfg, s, b').state;
    SlashRemovesExactly(s.view, b'.validator);
  }
}
