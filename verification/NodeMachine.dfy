/** The node as a state machine (cmd/node/main.go).  blockMu serialises block handling and block
    production, so each message and each tick is one step. */
module NodeMachine {
  import opened Words
  import opened Crypto
  import opened Blocks
  import opened Ledger
  import opened Validators
  import opened ChainStore
  import opened Mempool

  datatype Config = Config(sha: Sha, verify: Transaction -> bool, genesis: Genesis, genesisBlock: Block,
                           self: Address, poolSize: int)

  /** The bound of the pool; a configured size of zero or less means 10000. */
  function PoolMax(cfg: Config): nat {
    if cfg.poolSize <= 0 then 10000 else cfg.poolSize
  }

  /** For each height and validator, the hash of the first block seen. */
  type SeenTable = map<(u64, Address), Hash>

  datatype NodeState = NodeState(store: Store, height: u64, tip: Hash, view: View,
                                 pool: seq<Transaction>, seen: SeenTable)

  datatype Message =
    | NewTxMsg(tx: Transaction)
    | NewBlockMsg(block: Block)
    | BlocksMsg(blocks: seq<Block>)
    | GetBlocksMsg(from: u64, max: int)

  datatype Outcome = Outcome(state: NodeState, sent: seq<Message>)

  // ---------------------------------------------------------------- pieces of a step

  function LastBlock(s: NodeState): Option<Block> {
    if s.tip != ZERO_HASH && s.tip in s.store then Some(s.store[s.tip]) else None
  }

  /** Valid, not yet stored, and by the leader of its height; an empty validator set disables the last check. */
  predicate Acceptable(cfg: Config, leaders: seq<Validator>, s: NodeState, b: Block) {
    && Validates(cfg.sha, b)
    && b.hash !in s.store
    && (leaders == [] || Leader(leaders, b.height) == b.validator)
  }

  function SeenKey(b: Block): (u64, Address) {
    (b.height, b.validator)
  }

  /** Another block of the same height and validator was seen before. */
  predicate Conflicts(s: NodeState, b: Block) {
    SeenKey(b) in s.seen && s.seen[SeenKey(b)] != b.hash
  }

  function Slashed(s: NodeState, b: Block): NodeState {
    NodeState(s.store, s.height, s.tip, Slash(s.view, b.validator), s.pool, s.seen)
  }

  function Recorded(s: NodeState, b: Block): NodeState {
    NodeState(s.store, s.height, s.tip, s.view, s.pool, s.seen[SeenKey(b) := b.hash])
  }

  function Applied(v: View, b: Block): View {
    View(ApplyBlock(v.accounts, b), v.stakes, v.list)
  }

  /** Write the block, apply it, move the tip to it, drop its transactions from the pool. */
  function Adopted(cfg: Config, s: NodeState, b: Block): NodeState {
    NodeState(s.store[b.hash := b], b.height, b.hash, Applied(s.view, b), Removed(cfg.sha, s.pool, b.txs), s.seen)
  }

  // ---------------------------------------------------------------- receiving blocks

  /** What the extension loop does with one block: pass over it, slash its validator, give up the
      rest of the batch, or take it over as the new tip. */
  datatype Verdict = Pass | Punish | Stop | Take

  function Judge(cfg: Config, leaders: seq<Validator>, s: NodeState, b: Block): (v: Verdict)
    ensures Justified(cfg, leaders, s, b, v)
  {
    if !Acceptable(cfg, leaders, s, b) then Pass
    else if Conflicts(s, b) then Punish
    else if LastBlock(s).Some? && b.previousHash != LastBlock(s).value.hash then Stop
    else Take
  }

  /** The verdict on a single announced block, which is taken over only on an existing tip. */
  function JudgeSingle(cfg: Config, leaders: seq<Validator>, s: NodeState, b: Block): (v: Verdict)
    ensures Justified(cfg, leaders, s, b, v)
  {
    if !Acceptable(cfg, leaders, s, b) then Pass
    else if Conflicts(s, b) then Punish
    else if LastBlock(s).Some? && b.previousHash == LastBlock(s).value.hash then Take
    else Stop
  }

  /** What every verdict rests on: only valid, new blocks by the right leader are recorded or punished,
      punishment needs a conflicting earlier block, and a block is taken over only on top of the tip. */
  predicate Justified(cfg: Config, leaders: seq<Validator>, s: NodeState, b: Block, v: Verdict) {
    && (v != Pass ==> Acceptable(cfg, leaders, s, b) && (v == Punish <==> Conflicts(s, b)))
    && (v == Take && LastBlock(s).Some? ==> b.previousHash == LastBlock(s).value.hash)
  }

  function After(cfg: Config, s: NodeState, b: Block, v: Verdict): NodeState {
    match v
    case Pass => s
    case Punish => Slashed(s, b)
    case Stop => Recorded(s, b)
    case Take => Adopted(cfg, Recorded(s, b), b)
  }

  /** The extension loop: `leaders` was read once, before the loop. */
  function Extend(cfg: Config, leaders: seq<Validator>, s: NodeState, blocks: seq<Block>): Outcome
    decreases |blocks|
  {
    if blocks == [] then Outcome(s, [])
    else
      var v := Judge(cfg, leaders, s, blocks[0]);
      if v == Stop then Outcome(After(cfg, s, blocks[0], v), [])
      else
        var o := Extend(cfg, leaders, After(cfg, s, blocks[0], v), blocks[1..]);
        if v == Take then Outcome(o.state, [NewBlockMsg(blocks[0])] + o.sent) else o
  }

  ghost function WithGenesisApplied(cfg: Config, s: NodeState): NodeState {
    var accounts := AllocateAll(s.view.accounts, cfg.genesis.allocation);
    NodeState(s.store, s.height, s.tip, WithGenesis(s.view, accounts, cfg.genesis), s.pool, s.seen)
  }

  /** Sync from an empty chain. */
  ghost function SyncEmpty(cfg: Config, s: NodeState, blocks: seq<Block>): NodeState
    decreases |blocks|
  {
    if blocks == [] then s
    else
      var b := blocks[0];
      if !Validates(cfg.sha, b) then s
      else if LastBlock(s).Some? && b.previousHash != LastBlock(s).value.hash then s
      else
        var s1 := if LastBlock(s).None? && b.height == 0 then WithGenesisApplied(cfg, s) else s;
        SyncEmpty(cfg, Adopted(cfg, s1, b), blocks[1..])
  }

  /** What is checked of a batch that does not extend the tip: links and validity from the second block on. */
  predicate LinkedBatch(sha: Sha, blocks: seq<Block>) {
    && (forall i :: 1 <= i < |blocks| ==> LinkAt(blocks, i))
    && (forall i :: 1 <= i < |blocks| ==> Validates(sha, blocks[i]))
  }

  predicate FromGenesis(blocks: seq<Block>) {
    blocks != [] && blocks[0].height == 0 && blocks[0].previousHash == ZERO_HASH
  }

  function WriteAll(store: Store, blocks: seq<Block>): Store {
    if blocks == [] then store
    else WriteAll(store, blocks[..|blocks| - 1])[blocks[|blocks| - 1].hash := blocks[|blocks| - 1]]
  }

  function RemoveAll(sha: Sha, pool: seq<Transaction>, blocks: seq<Block>): seq<Transaction> {
    if blocks == [] then pool
    else Removed(sha, RemoveAll(sha, pool, blocks[..|blocks| - 1]), blocks[|blocks| - 1].txs)
  }

  function Top(blocks: seq<Block>): Block
    requires blocks != []
  {
    blocks[|blocks| - 1]
  }

  /** ResetAndReplay. */
  ghost function Replayed(g: Genesis, blocks: seq<Block>): View {
    View(Replay(GenesisView(g).accounts, blocks), GenesisView(g).stakes, GenesisView(g).list)
  }

  ghost function Reorganised(cfg: Config, s: NodeState, blocks: seq<Block>): NodeState
    requires blocks != []
  {
    NodeState(WriteAll(s.store, blocks), Top(blocks).height, Top(blocks).hash, Replayed(cfg.genesis, blocks),
              RemoveAll(cfg.sha, s.pool, blocks), s.seen)
  }

  datatype Branch = ExtendTip | SyncFromEmpty | Reorg | AskForChain | Ignore

  /** Which branch a Blocks message takes. */
  function BranchOf(cfg: Config, s: NodeState, blocks: seq<Block>): Branch {
    var last := LastBlock(s);
    if blocks == [] then Ignore
    else if last.Some? && blocks[0].previousHash == last.value.hash then ExtendTip
    else if last.None? && FromGenesis(blocks) then SyncFromEmpty
    else if !LinkedBatch(cfg.sha, blocks) || last.None? || Top(blocks).height <= last.value.height then Ignore
    else if FromGenesis(blocks) then Reorg
    else AskForChain
  }

  ghost function HandleBlocks(cfg: Config, s: NodeState, blocks: seq<Block>): Outcome {
    match BranchOf(cfg, s, blocks)
    case ExtendTip => Extend(cfg, ValidatorSet(s.view), s, blocks)
    case SyncFromEmpty => Outcome(SyncEmpty(cfg, s, blocks), [])
    case Reorg => Outcome(Reorganised(cfg, s, blocks), [])
    case AskForChain => Outcome(s, [GetBlocksMsg(0, 10000)])
    case Ignore => Outcome(s, [])
  }

  function HandleNewBlock(cfg: Config, s: NodeState, b: Block): Outcome {
    var v := JudgeSingle(cfg, ValidatorSet(s.view), s, b);
    Outcome(After(cfg, s, b, v), if v == Take then [NewBlockMsg(b)] else [])
  }

  // ---------------------------------------------------------------- producing, serving, start-up

  /** The block the node would build on its tip now, if it may and has transactions. */
  function Proposal(cfg: Config, s: NodeState, now: i64, sig: seq<byte>): Option<Block> {
    if LastBlock(s).None? then None
    else
      var last := LastBlock(s).value;
      var leaders := ValidatorSet(s.view);
      var txs := Prefix(s.pool, 100);
      if leaders != [] && Leader(leaders, Add64(last.height, 1)) != cfg.self then None
      else if txs == [] then None
      else Some(Signed(NewBlock(cfg.sha, Add64(last.height, 1), now, last.hash, cfg.self, txs), sig))
  }

  function Produce(cfg: Config, s: NodeState, now: i64, sig: seq<byte>): Outcome {
    var p := Proposal(cfg, s, now, sig);
    if p.None? then Outcome(s, []) else Outcome(Adopted(cfg, s, p.value), [NewBlockMsg(p.value)])
  }

  function HandleTx(cfg: Config, s: NodeState, tx: Transaction): Outcome {
    if Refusal(cfg.sha, cfg.verify, PoolMax(cfg), Some(s.view.accounts), s.pool, tx).None? then
      Outcome(NodeState(s.store, s.height, s.tip, s.view, s.pool + [tx], s.seen), [NewTxMsg(tx)])
    else Outcome(s, [])
  }

  /** The chain that ends at the tip, if the links lead to a zero parent. */
  ghost function ChainOf(s: NodeState): seq<Block> {
    if exists c :: IsChain(s.store, s.tip, c) then
      var c :| IsChain(s.store, s.tip, c); c
    else []
  }

  /** A request asks for 50 blocks unless it says otherwise; an error or nothing found is not answered.
      On a cycle of parent links the walk never ends and there is no answer either. */
  ghost function Serve(s: NodeState, from: u64, max: int): Outcome {
    if s.tip != ZERO_HASH && from <= s.height && exists n :: Ends(s.store, s.tip, from, n) then
      var n :| Ends(s.store, s.tip, from, n);
      var found := Answer(s.store, s.tip, from, n, Asked(max));
      Outcome(s, if found == None || found == Some([]) then [] else [BlocksMsg(found.value)])
    else Outcome(s, [])
  }

  function Asked(max: int): int {
    if max <= 0 then 50 else max
  }

  lemma ServeIs(s: NodeState, from: u64, max: int, n: nat)
    requires s.tip != ZERO_HASH && from <= s.height ==> Ends(s.store, s.tip, from, n)
    ensures Serve(s, from, max) ==
            if s.tip != ZERO_HASH && from <= s.height then
              var found := Answer(s.store, s.tip, from, n, Asked(max));
              Outcome(s, if found == None || found == Some([]) then [] else [BlocksMsg(found.value)])
            else Outcome(s, [])
  {
    forall k | Ends(s.store, s.tip, from, n) && Ends(s.store, s.tip, from, k)
      ensures Found(s.store, s.tip, from, n) == Found(s.store, s.tip, from, k)
    {
      FoundAnyBound(s.store, s.tip, from, n, k);
    }
  }

  /** Start-up: memory is empty; an empty chain gets genesis and the genesis block. */
  ghost function Started(cfg: Config, s: NodeState): NodeState {
    if s.tip == ZERO_HASH then
      NodeState(s.store[cfg.genesisBlock.hash := cfg.genesisBlock], cfg.genesisBlock.height, cfg.genesisBlock.hash,
                WithGenesisApplied(cfg, s).view, [], map[])
    else NodeState(s.store, s.height, s.tip, s.view, [], map[])
  }

  const BLANK: NodeState := NodeState(map[], 0, ZERO_HASH, EMPTY_VIEW, [], map[])

  // ---------------------------------------------------------------- runs

  datatype Event =
    | ReceiveTx(tx: Transaction)
    | ReceiveBlock(block: Block)
    | ReceiveBlocks(blocks: seq<Block>)
    | Tick(now: i64, sig: seq<byte>)
    | Request(from: u64, max: int)
    | Restart

  ghost function Step(cfg: Config, s: NodeState, e: Event): Outcome {
    match e
    case ReceiveTx(tx) => HandleTx(cfg, s, tx)
    case ReceiveBlock(b) => HandleNewBlock(cfg, s, b)
    case ReceiveBlocks(bs) => HandleBlocks(cfg, s, bs)
    case Tick(now, sig) => Produce(cfg, s, now, sig)
    case Request(from, max) => Serve(s, from, max)
    case Restart => Outcome(Started(cfg, s), [])
  }

  /** The state after start-up and then the events in order. */
  ghost function Run(cfg: Config, es: seq<Event>): NodeState {
    if es == [] then Started(cfg, BLANK) else Step(cfg, Run(cfg, es[..|es| - 1]), es[|es| - 1]).state
  }

  /** The blocks an event brings to the node, received or made by itself. */
  function Brings(cfg: Config, s: NodeState, e: Event): set<Block> {
    match e
    case ReceiveBlock(b) => {b}
    case ReceiveBlocks(bs) => set b | b in bs
    case Tick(now, sig) => if Proposal(cfg, s, now, sig).Some? then {Proposal(cfg, s, now, sig).value} else {}
    case _ => {}
  }

  ghost function Touched(cfg: Config, es: seq<Event>): set<Block> {
    if es == [] then {cfg.genesisBlock}
    else Touched(cfg, es[..|es| - 1]) + Brings(cfg, Run(cfg, es[..|es| - 1]), es[|es| - 1])
  }
}
