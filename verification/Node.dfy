/** The running node (cmd/node/main.go): handlers and producer over mutable chain, state, pool and
    double-sign table, each proved to take the step of the state machine. */
module Node {
  import opened Words
  import opened Crypto
  import opened Blocks
  import opened Validators
  import opened ChainStore
  import opened Mempool
  import opened NodeMachine
  import StateStore
  import Hex

  function HashHex(h: Hash): string {
    Hex.Encode(h.bytes)
  }

  /** The nested table of hexadecimal text stands for the map by height and address. */
  ghost predicate TableStands(t: map<u64, map<string, string>>, seen: SeenTable) {
    forall h: u64, a: Address ::
      && ((h, a) in seen <==> h in t && AddressHex(a) in t[h])
      && ((h, a) in seen ==> t[h][AddressHex(a)] == HashHex(seen[(h, a)]))
  }

  function Prepended(sent: seq<Message>, o: Outcome): Outcome {
    Outcome(o.state, sent + o.sent)
  }

  /** One round of the extension loop, seen from the whole batch. */
  lemma ExtendStep(cfg: Config, leaders: seq<Validator>, s: NodeState, blocks: seq<Block>, i: nat, sent: seq<Message>)
    requires i < |blocks|
    ensures var v := Judge(cfg, leaders, s, blocks[i]);
      var next := After(cfg, s, blocks[i], v);
      var sent' := if v == Take then sent + [NewBlockMsg(blocks[i])] else sent;
      Prepended(sent, Extend(cfg, leaders, s, blocks[i..])) ==
      if v == Stop then Outcome(next, sent) else Prepended(sent', Extend(cfg, leaders, next, blocks[i + 1..]))
  {
    assert blocks[i..][0] == blocks[i] && blocks[i..][1..] == blocks[i + 1..];
    var more := Extend(cfg, leaders, After(cfg, s, blocks[i], Take), blocks[i + 1..]).sent;
    assert sent + ([NewBlockMsg(blocks[i])] + more) == (sent + [NewBlockMsg(blocks[i])]) + more;
  }

  /** One round of the sync-from-empty loop. */
  lemma SyncStep(cfg: Config, s: NodeState, blocks: seq<Block>, i: nat)
    requires i < |blocks|
    ensures SyncEmpty(cfg, s, blocks[i..]) ==
            if !Validates(cfg.sha, blocks[i]) then s
            else if LastBlock(s).Some? && blocks[i].previousHash != LastBlock(s).value.hash then s
            else if LastBlock(s).None? && blocks[i].height == 0 then
              SyncEmpty(cfg, Adopted(cfg, WithGenesisApplied(cfg, s), blocks[i]), blocks[i + 1..])
            else SyncEmpty(cfg, Adopted(cfg, s, blocks[i]), blocks[i + 1..])
  {
    assert blocks[i..][0] == blocks[i] && blocks[i..][1..] == blocks[i + 1..];
  }

  class Node {
    const cfg: Config
    const chain: Chain
    const state: StateStore.State
    const pool: Pool
    var doubleSign: map<u64, map<string, string>>
    ghost var seen: SeenTable

    /** The parts fit together. */
    ghost predicate Ready()
      reads this, chain, state, pool, pool.slots
    {
      && pool.state == state && state.Valid() && pool.Valid()
      && pool.sha == cfg.sha && pool.verify == cfg.verify && pool.max == PoolMax(cfg)
      && state.minStake == cfg.genesis.minStake
      && TableStands(doubleSign, seen)
    }

    ghost predicate Valid()
      reads this, chain, state, pool, pool.slots
    {
      Ready() && Consistent(cfg.genesis.allocation)
    }

    ghost function Abs(): NodeState
      reads this, chain, state, pool, pool.slots
      requires Valid()
    {
      NodeState(chain.blocks, chain.height, chain.lastHash, state.view, pool.Contents(), seen)
    }

    /** The double-sign check: the first hash per height and validator is kept, another one is a conflict. */
    method CheckDoubleSign(b: Block) returns (conflict: bool)
      requires Valid()
      modifies this
      ensures Valid() && conflict == Conflicts(old(Abs()), b)
      ensures Abs() == if conflict then old(Abs()) else Recorded(old(Abs()), b)
    {
      var key := AddressHex(b.validator);
      if b.height !in doubleSign {
        doubleSign := doubleSign[b.height := map[]];
      }
      assert (b.height, b.validator) in seen <==> key in doubleSign[b.height];
      if key in doubleSign[b.height] && doubleSign[b.height][key] != HashHex(b.hash) {
        return true;
      }
      if SeenKey(b) in seen {
        Hex.EncodeInjective(seen[SeenKey(b)].bytes, b.hash.bytes);
      }
      doubleSign := doubleSign[b.height := doubleSign[b.height][key := HashHex(b.hash)]];
      seen := seen[SeenKey(b) := b.hash];
      forall h: u64, a: Address
        ensures (h, a) in seen <==> h in doubleSign && AddressHex(a) in doubleSign[h]
        ensures (h, a) in seen ==> doubleSign[h][AddressHex(a)] == HashHex(seen[(h, a)])
      {
        Hex.EncodeInjective(a.bytes, b.validator.bytes);
      }
      return false;
    }

    method Leaders() returns (leaders: seq<Validator>)
      requires Valid()
      ensures leaders == ValidatorSet(state.view)
    {
      leaders := state.GetValidatorSet();
    }

    method IsAcceptable(leaders: seq<Validator>, b: Block) returns (ok: bool)
      requires Valid()
      ensures ok == Acceptable(cfg, leaders, Abs(), b)
    {
      var valid := ValidateBlock(cfg.sha, b);
      var known := chain.HasBlock(b.hash);
      ok := valid && !known && (leaders == [] || Leader(leaders, b.height) == b.validator);
    }

    /** WriteBlock, ApplyBlock, SetTip, and removal of the block's transactions from the pool. */
    method Adopt(b: Block)
      requires Valid()
      modifies chain, state, pool`len, pool.slots
      ensures Valid() && Abs() == Adopted(cfg, old(Abs()), b)
    {
      chain.WriteBlock(b);
      state.ApplyBlock(b);
      chain.SetTip(b);
      pool.Remove(b.txs);
    }

    /** What both handlers do first: drop an unacceptable block, slash on a conflict, otherwise record it. */
    method Weigh(leaders: seq<Validator>, b: Block) returns (v: Verdict)
      requires Valid()
      modifies this, state
      ensures Valid()
      ensures v == if !Acceptable(cfg, leaders, old(Abs()), b) then Pass
                   else if Conflicts(old(Abs()), b) then Punish
                   else Stop
      ensures Abs() == After(cfg, old(Abs()), b, v)
    {
      var ok := IsAcceptable(leaders, b);
      if !ok {
        return Pass;
      }
      var conflict := CheckDoubleSign(b);
      if conflict {
        state.SlashValidator(b.validator);
        return Punish;
      }
      return Stop;
    }

    /** One round of the extension loop. */
    method ExtendOne(leaders: seq<Validator>, b: Block) returns (v: Verdict)
      requires Valid()
      modifies this, chain, state, pool`len, pool.slots
      ensures Valid() && v == Judge(cfg, leaders, old(Abs()), b)
      ensures Abs() == After(cfg, old(Abs()), b, v)
    {
      v := Weigh(leaders, b);
      if v != Stop {
        return;
      }
      var cur := chain.LastBlock();
      if cur.Some? && b.previousHash != cur.value.hash {
        return;
      }
      Adopt(b);
      return Take;
    }

    method ExtendTipBy(blocks: seq<Block>) returns (sent: seq<Message>)
      requires Valid()
      modifies this, chain, state, pool`len, pool.slots
      ensures Valid()
      ensures Outcome(Abs(), sent) == Extend(cfg, ValidatorSet(old(Abs()).view), old(Abs()), blocks)
    {
      var leaders := Leaders();
      ghost var start := Abs();
      sent := [];
      assert blocks[0..] == blocks;
      for i := 0 to |blocks|
        invariant Valid()
        invariant Extend(cfg, leaders, start, blocks) == Prepended(sent, Extend(cfg, leaders, Abs(), blocks[i..]))
      {
        ExtendStep(cfg, leaders, Abs(), blocks, i, sent);
        var v := ExtendOne(leaders, blocks[i]);
        if v == Stop {
          return;
        }
        if v == Take {
          sent := sent + [NewBlockMsg(blocks[i])];
        }
      }
    }

    method ApplyGenesis()
      requires Valid()
      modifies state
      ensures Valid() && Abs() == WithGenesisApplied(cfg, old(Abs()))
    {
      ghost var order := state.ApplyGenesis(cfg.genesis.allocation, cfg.genesis.validators);
      OrderIrrelevant(old(state.view).accounts, cfg.genesis.allocation, order);
    }

    method SyncFromNothing(blocks: seq<Block>)
      requires Valid()
      modifies this, chain, state, pool`len, pool.slots
      ensures Valid() && Abs() == SyncEmpty(cfg, old(Abs()), blocks)
    {
      assert blocks[0..] == blocks;
      for i := 0 to |blocks|
        invariant Valid()
        invariant SyncEmpty(cfg, old(Abs()), blocks) == SyncEmpty(cfg, Abs(), blocks[i..])
      {
        var b := blocks[i];
        SyncStep(cfg, Abs(), blocks, i);
        var valid := ValidateBlock(cfg.sha, b);
        if !valid {
          return;
        }
        var cur := chain.LastBlock();
        if cur.Some? && b.previousHash != cur.value.hash {
          return;
        }
        if cur.None? && b.height == 0 {
          ApplyGenesis();
        }
        Adopt(b);
      }
    }

    method IsLinkedBatch(blocks: seq<Block>) returns (ok: bool)
      ensures ok == LinkedBatch(cfg.sha, blocks)
    {
      var i := 1;
      while i < |blocks|
        invariant 1 <= i
        invariant forall k :: 1 <= k < i && k < |blocks| ==> LinkAt(blocks, k) && Validates(cfg.sha, blocks[k])
      {
        var valid := ValidateBlock(cfg.sha, blocks[i]);
        if blocks[i].previousHash != blocks[i - 1].hash || !valid {
          assert !(LinkAt(blocks, i) && Validates(cfg.sha, blocks[i]));
          return false;
        }
        i := i + 1;
      }
      return true;
    }

    /** Write every block, rebuild the state from genesis, move the tip, clean the pool. */
    method Reorganise(blocks: seq<Block>)
      requires Valid() && blocks != []
      modifies chain, state, pool`len, pool.slots
      ensures Valid() && Abs() == Reorganised(cfg, old(Abs()), blocks)
    {
      WriteBlocks(blocks);
      ghost var order := state.ResetAndReplay(cfg.genesis.allocation, cfg.genesis.validators, blocks);
      OrderIrrelevant(EMPTY_VIEW.accounts, cfg.genesis.allocation, order);
      chain.SetTip(blocks[|blocks| - 1]);
      RemoveBlocks(blocks);
    }

    method WriteBlocks(blocks: seq<Block>)
      modifies chain`blocks
      ensures chain.blocks == WriteAll(old(chain.blocks), blocks)
    {
      for i := 0 to |blocks|
        invariant chain.blocks == WriteAll(old(chain.blocks), blocks[..i])
      {
        assert blocks[..i + 1][..i] == blocks[..i] && blocks[..i + 1][i] == blocks[i];
        chain.WriteBlock(blocks[i]);
      }
      assert blocks[..|blocks|] == blocks;
    }

    method RemoveBlocks(blocks: seq<Block>)
      requires pool.Valid() && pool.sha == cfg.sha
      modifies pool`len, pool.slots
      ensures pool.Valid() && pool.Contents() == RemoveAll(cfg.sha, old(pool.Contents()), blocks)
    {
      for i := 0 to |blocks|
        invariant pool.Valid() && pool.Contents() == RemoveAll(cfg.sha, old(pool.Contents()), blocks[..i])
      {
        assert blocks[..i + 1][..i] == blocks[..i] && blocks[..i + 1][i] == blocks[i];
        pool.Remove(blocks[i].txs);
      }
      assert blocks[..|blocks|] == blocks;
    }

    /** Which way a Blocks message goes. */
    method Classify(blocks: seq<Block>) returns (branch: Branch)
      requires Valid()
      ensures branch == BranchOf(cfg, Abs(), blocks)
    {
      if |blocks| == 0 {
        return Ignore;
      }
      var last := chain.LastBlock();
      var first, top := blocks[0], blocks[|blocks| - 1];
      if last.Some? && first.previousHash == last.value.hash {
        return ExtendTip;
      }
      if last.None? && first.height == 0 && first.previousHash == ZERO_HASH {
        return SyncFromEmpty;
      }
      var linked := IsLinkedBatch(blocks);
      if linked && first.height == 0 && first.previousHash == ZERO_HASH {
        return if last.Some? && top.height > last.value.height then Reorg else Ignore;
      }
      return if linked && last.Some? && top.height > last.value.height then AskForChain else Ignore;
    }

    /** A Blocks message: extend the tip, sync from empty, reorganise, or ask for the whole chain. */
    method HandleBlocks(blocks: seq<Block>) returns (sent: seq<Message>)
      requires Valid()
      modifies this, chain, state, pool`len, pool.slots
      ensures Valid() && Outcome(Abs(), sent) == NodeMachine.HandleBlocks(cfg, old(Abs()), blocks)
    {
      sent := [];
      var branch := Classify(blocks);
      match branch
      case ExtendTip => sent := ExtendTipBy(blocks);
      case SyncFromEmpty => SyncFromNothing(blocks);
      case Reorg => Reorganise(blocks);
      case AskForChain => sent := [GetBlocksMsg(0, 10000)];
      case Ignore =>
    }

    method HandleNewBlock(b: Block) returns (sent: seq<Message>)
      requires Valid()
      modifies this, chain, state, pool`len, pool.slots
      ensures Valid() && Outcome(Abs(), sent) == NodeMachine.HandleNewBlock(cfg, old(Abs()), b)
    {
      sent := [];
      var leaders := Leaders();
      var v := Weigh(leaders, b);
      if v != Stop {
        return;
      }
      var last := chain.LastBlock();
      if last.Some? && b.previousHash == last.value.hash {
        Adopt(b);
        sent := [NewBlockMsg(b)];
      }
    }

    method HandleTx(tx: Transaction) returns (sent: seq<Message>)
      requires Valid()
      modifies pool, pool.slots
      ensures Valid() && Outcome(Abs(), sent) == NodeMachine.HandleTx(cfg, old(Abs()), tx)
    {
      var e := pool.Add(tx);
      sent := if e.None? then [NewTxMsg(tx)] else [];
    }

    /** The leader packs up to 100 pending transactions into a signed block on the tip. */
    method BuildProposal(now: i64, sig: seq<byte>) returns (p: Option<Block>)
      requires Valid()
      ensures p == Proposal(cfg, Abs(), now, sig)
    {
      var last := chain.LastBlock();
      if last.None? {
        return None;
      }
      var leaders := Leaders();
      if leaders != [] && Leader(leaders, Add64(last.value.height, 1)) != cfg.self {
        return None;
      }
      var pending := pool.Pending(100);
      var txs := pending[..];
      if |txs| == 0 {
        return None;
      }
      var b := BuildBlock(cfg.sha, Add64(last.value.height, 1), now, last.value.hash, cfg.self, txs);
      return Some(Signed(b, sig));
    }

    /** One tick of the producer loop: apply the own block, append it, clean the pool, announce it. */
    method Produce(now: i64, sig: seq<byte>) returns (sent: seq<Message>)
      requires Valid()
      modifies this, chain, state, pool`len, pool.slots
      ensures Valid() && Outcome(Abs(), sent) == NodeMachine.Produce(cfg, old(Abs()), now, sig)
    {
      var p := BuildProposal(now, sig);
      if p.None? {
        return [];
      }
      state.ApplyBlock(p.value);
      chain.AppendBlock(p.value);
      pool.Remove(p.value.txs);
      sent := [NewBlockMsg(p.value)];
    }

    /** A GetBlocks message is answered by walking back from the tip. */
    method Serve(from: u64, max: int, ghost n: nat) returns (sent: seq<Message>)
      requires Valid()
      requires chain.lastHash != ZERO_HASH && from <= chain.height ==> Ends(chain.blocks, chain.lastHash, from, n)
      ensures Outcome(Abs(), sent) == NodeMachine.Serve(Abs(), from, max)
    {
      var found := chain.GetBlocksFrom(from, if max <= 0 then 50 else max, n);
      sent := if found.Some? && |found.value| > 0 then [BlocksMsg(found.value)] else [];
      ServeIs(Abs(), from, max, n);
    }

    /** Start-up on an empty data directory.  Genesis is written in some order of the allocation, which
        does not matter when the allocation has one meaning. */
    constructor (cfg: Config)
      ensures this.cfg == cfg && Ready()
      ensures chain.blocks == map[cfg.genesisBlock.hash := cfg.genesisBlock] && chain.lastHash == cfg.genesisBlock.hash
      ensures exists order :: IsOrderOf(order, cfg.genesis.allocation.Keys) && state.view ==
                WithGenesis(EMPTY_VIEW, Allocate(EMPTY_VIEW.accounts, cfg.genesis.allocation, order), cfg.genesis)
      ensures Consistent(cfg.genesis.allocation) ==> Valid() && Abs() == Started(cfg, BLANK)
    {
      this.cfg := cfg;
      var ch := new Chain();
      var st := new StateStore.State(cfg.genesis.minStake);
      ghost var order := st.ApplyGenesis(cfg.genesis.allocation, cfg.genesis.validators);
      if Consistent(cfg.genesis.allocation) {
        OrderIrrelevant(EMPTY_VIEW.accounts, cfg.genesis.allocation, order);
      }
      ch.AppendBlock(cfg.genesisBlock);
      var p := new Pool(cfg.poolSize, cfg.sha, cfg.verify, st);
      chain, state, pool := ch, st, p;
      doubleSign, seen := map[], map[];
    }
  }
}
