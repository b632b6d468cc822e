/** Which adopted blocks are by the leader of their height. */
module NodeLeaders {
  import opened Crypto
  import opened Blocks
  import opened Validators
  import opened NodeMachine
  import opened NodeSound

  /** By the leader of its height, where there is one. */
  predicate Led(leaders: seq<Validator>, b: Block) {
    leaders == [] || Leader(leaders, b.height) == b.validator
  }

  predicate AllLed(leaders: seq<Validator>, blocks: seq<Block>) {
    forall i :: 0 <= i < |blocks| ==> Led(leaders, blocks[i])
  }

  predicate Reorganises(cfg: Config, s: NodeState, e: Event) {
    e.ReceiveBlocks? && BranchOf(cfg, s, e.blocks) == Reorg
  }

  /** The blocks a step adds to the history; the first block of an adopted batch stands for genesis, which
      has no leader. */
  ghost function Entering(cfg: Config, s: NodeState, c: seq<Block>, e: Event): seq<Block>
    requires c != []
  {
    if Reorganises(cfg, s, e) then e.blocks[1..] else HistoryAfter(cfg, s, c, e)[|c|..]
  }

  lemma {:induction false} ExtendLed(cfg: Config, leaders: seq<Validator>, s: NodeState, c: seq<Block>,
                                     blocks: seq<Block>)
    ensures AllLed(leaders, ChainAfterAll(cfg, leaders, s, c, blocks)[|c|..])
    decreases |blocks|
  {
    if blocks != [] {
      var v := Judge(cfg, leaders, s, blocks[0]);
      if v != Stop {
        var c' := ChainAfter(c, blocks[0], v);
        ExtendLed(cfg, leaders, After(cfg, s, blocks[0], v), c', blocks[1..]);
        var d := ChainAfterAll(cfg, leaders, After(cfg, s, blocks[0], v), c', blocks[1..]);
        AddedLed(leaders, c, c', d, blocks[0]);
      }
    }
  }

  lemma AddedLed(leaders: seq<Validator>, c: seq<Block>, c': seq<Block>, d: seq<Block>, b: Block)
    requires c' == c || (c' == c + [b] && Led(leaders, b))
    requires c' <= d && AllLed(leaders, d[|c'|..])
    ensures AllLed(leaders, d[|c|..])
  {
    if c' != c {
      assert d[|c|..] == [b] + d[|c'|..];
    }
  }

  /** Extension, announcement and production only add blocks by the leader of the set read at that step. */
  lemma EnteringLed(cfg: Config, s: NodeState, c: seq<Block>, e: Event)
    requires c != [] && !Reorganises(cfg, s, e)
    ensures AllLed(ValidatorSet(s.view), Entering(cfg, s, c, e))
  {
    var leaders := ValidatorSet(s.view);
    if e.ReceiveBlock? {
      AddedLed(leaders, c, HistoryAfter(cfg, s, c, e), HistoryAfter(cfg, s, c, e), e.block);
    } else if e.ReceiveBlocks? && BranchOf(cfg, s, e.blocks) == ExtendTip {
      ExtendLed(cfg, leaders, s, c, e.blocks);
    } else if e.Tick? && Proposal(cfg, s, e.now, e.sig).Some? {
      var d := HistoryAfter(cfg, s, c, e);
      AddedLed(leaders, c, d, d, Proposal(cfg, s, e.now, e.sig).value);
    }
  }

  ghost predicate LedAt(cfg: Config, es: seq<Event>, n: nat)
    requires n < |es|
  {
    AllLed(ValidatorSet(Run(cfg, es[..n]).view), Entering(cfg, Run(cfg, es[..n]), History(cfg, es[..n]), es[n]))
  }

  /** A batch about to be adopted keeps the leader rule from its second block on. */
  ghost predicate BatchLedAt(cfg: Config, es: seq<Event>, n: nat)
    requires n < |es|
  {
    var s := Run(cfg, es[..n]);
    Reorganises(cfg, s, es[n]) ==> forall k :: 1 <= k < |es[n].blocks| ==> Led(ValidatorSet(s.view), es[n].blocks[k])
  }

  /** The leader rule over runs.  Every block that enters the history of a run is by the leader of the set
      read at that step, if there is one, exactly when every batch adopted by reorganisation keeps the rule
      from its second block on, which the code does not check. */
  lemma LeaderRuleIff(cfg: Config, es: seq<Event>)
    ensures (forall n :: 0 <= n < |es| ==> LedAt(cfg, es, n))
       <==> (forall n :: 0 <= n < |es| ==> BatchLedAt(cfg, es, n))
  {
    forall n | 0 <= n < |es|
      ensures LedAt(cfg, es, n) <==> BatchLedAt(cfg, es, n)
    {
      LeaderRuleAtIff(cfg, es, n);
    }
  }

  /** It is the producer's turn: height q * k + i belongs to index i of the k validators. */
  ghost predicate ByTurn(vs: seq<Validator>, b: Block) {
    vs == [] || exists q: nat, i: nat :: TurnAt(vs, b, q, i)
  }

  predicate TurnAt(vs: seq<Validator>, b: Block, q: nat, i: nat) {
    i < |vs| && b.height == q * |vs| + i && vs[i].address == b.validator
  }

  lemma LedIsByTurn(vs: seq<Validator>, b: Block)
    ensures Led(vs, b) <==> ByTurn(vs, b)
  {
    if vs != [] {
      var q, i := b.height / |vs|, b.height % |vs|;
      assert b.height == q * |vs| + i;
      LeaderAt(vs, b.height, q, i);
      assert Led(vs, b) ==> TurnAt(vs, b, q, i);
      forall q: nat, i: nat | TurnAt(vs, b, q, i)
        ensures Leader(vs, b.height) == vs[i].address
      {
        LeaderAt(vs, b.height, q, i);
      }
    }
  }

  ghost predicate TurnsKeptAt(cfg: Config, es: seq<Event>, n: nat)
    requires n < |es|
  {
    var s := Run(cfg, es[..n]);
    forall b :: b in Entering(cfg, s, History(cfg, es[..n]), es[n]) ==> ByTurn(ValidatorSet(s.view), b)
  }

  /** The leader rule in terms of turns: every block that enters the history of a run is produced in its
      validator's turn, exactly when every batch adopted by reorganisation keeps the rule. */
  lemma TurnRuleIff(cfg: Config, es: seq<Event>)
    ensures (forall n :: 0 <= n < |es| ==> TurnsKeptAt(cfg, es, n))
       <==> (forall n :: 0 <= n < |es| ==> BatchLedAt(cfg, es, n))
  {
    forall n | 0 <= n < |es|
      ensures TurnsKeptAt(cfg, es, n) <==> BatchLedAt(cfg, es, n)
    {
      LeaderRuleAtIff(cfg, es, n);
      var s := Run(cfg, es[..n]);
      AllLedIsByTurn(ValidatorSet(s.view), Entering(cfg, s, History(cfg, es[..n]), es[n]));
    }
  }

  lemma AllLedIsByTurn(vs: seq<Validator>, blocks: seq<Block>)
    ensures AllLed(vs, blocks) <==> forall b :: b in blocks ==> ByTurn(vs, b)
  {
    forall b | b in blocks
      ensures Led(vs, b) <==> ByTurn(vs, b)
    {
      LedIsByTurn(vs, b);
    }
    assert forall i :: 0 <= i < |blocks| ==> blocks[i] in blocks;
  }

  lemma LeaderRuleAtIff(cfg: Config, es: seq<Event>, n: nat)
    requires n < |es|
    ensures LedAt(cfg, es, n) <==> BatchLedAt(cfg, es, n)
  {
    var s, e := Run(cfg, es[..n]), es[n];
    if Reorganises(cfg, s, e) {
      TailLed(ValidatorSet(s.view), e.blocks);
    } else {
      EnteringLed(cfg, s, History(cfg, es[..n]), e);
    }
  }

  lemma TailLed(leaders: seq<Validator>, blocks: seq<Block>)
    requires blocks != []
    ensures AllLed(leaders, blocks[1..]) <==> forall k :: 1 <= k < |blocks| ==> Led(leaders, blocks[k])
  {
    if AllLed(leaders, blocks[1..]) {
      forall k | 1 <= k < |blocks|
        ensures Led(leaders, blocks[k])
      {
        assert blocks[k] == blocks[1..][k - 1];
      }
    }
  }

  /** A block that is not by its leader: announced alone to a fresh node it is ignored; in a batch behind
      the genesis block it becomes the tip. */
  lemma WrongLeaderAdopted(cfg: Config, v: Address, b1: Block)
    requires WellFormed(cfg) && HashSafe(cfg.sha, {cfg.genesisBlock})
    requires b1 == NewBlock(cfg.sha, 1, 0, cfg.genesisBlock.hash, v, [])
    requires !Led(ValidatorSet(Started(cfg, BLANK).view), b1)
    ensures HandleNewBlock(cfg, Started(cfg, BLANK), b1).state == Started(cfg, BLANK)
    ensures HandleBlocks(cfg, Started(cfg, BLANK), [cfg.genesisBlock, b1]).state.tip == b1.hash
  {
    FreshNodeReorgs(cfg, cfg.genesisBlock, b1);
  }
}
