/** Chains of any length are reachable, so the limit on a fetched chain is felt. */
module NodeGrowth {
  import opened Words
  import opened Crypto
  import opened Blocks
  import opened Validators
  import opened ChainStore
  import opened NodeMachine
  import opened NodeSound
  import opened NodeSync

  /** The genesis block and n empty blocks of one validator on top of it. */
  function Grown(cfg: Config, v: Address, n: nat): (c: seq<Block>)
    requires n < TWO_64
    ensures |c| == n + 1
  {
    if n == 0 then [cfg.genesisBlock]
    else
      var c := Grown(cfg, v, n - 1);
      c + [Next(cfg, v, c)]
  }

  function Next(cfg: Config, v: Address, c: seq<Block>): (b: Block)
    requires 0 < |c| < TWO_64
    ensures Validates(cfg.sha, b) && b.height == |c| && b.previousHash == Top(c).hash && b.validator == v && b.txs == []
  {
    NewBlock(cfg.sha, |c|, 0, Top(c).hash, v, [])
  }

  /** Those blocks announced one by one. */
  function Announcements(cfg: Config, v: Address, n: nat): seq<Event>
    requires n < TWO_64
  {
    if n == 0 then [] else Announcements(cfg, v, n - 1) + [ReceiveBlock(Next(cfg, v, Grown(cfg, v, n - 1)))]
  }

  ghost function StateAfter(cfg: Config, v: Address, n: nat): NodeState
    requires n < TWO_64
  {
    if n == 0 then Started(cfg, BLANK)
    else HandleNewBlock(cfg, StateAfter(cfg, v, n - 1), Next(cfg, v, Grown(cfg, v, n - 1))).state
  }

  lemma {:induction false} RunOfAnnouncements(cfg: Config, v: Address, n: nat)
    requires n < TWO_64
    ensures Run(cfg, Announcements(cfg, v, n)) == StateAfter(cfg, v, n)
  {
    if n > 0 {
      RunOfAnnouncements(cfg, v, n - 1);
      RunOneBlock(cfg, Announcements(cfg, v, n - 1), Next(cfg, v, Grown(cfg, v, n - 1)));
    }
  }

  lemma RunOneBlock(cfg: Config, es: seq<Event>, b: Block)
    ensures Run(cfg, es + [ReceiveBlock(b)]) == HandleNewBlock(cfg, Run(cfg, es), b).state
  {
    assert (es + [ReceiveBlock(b)])[..|es|] == es;
  }

  function Members(c: seq<Block>): set<Block> {
    set b | b in c
  }

  /** Some block of c has hash h. */
  predicate Hashed(c: seq<Block>, h: Hash) {
    exists i :: 0 <= i < |c| && c[i].hash == h
  }

  /** A node without validators that knows exactly the blocks of c and has seen no height above them. */
  ghost predicate OnlyKnows(cfg: Config, s: NodeState, c: seq<Block>) {
    && Sound(cfg, s, c) && ValidatorSet(s.view) == []
    && (forall h {:trigger Hashed(c, h)} :: h in s.store ==> Hashed(c, h))
    && (forall k :: k in s.seen ==> k.0 < |c|)
  }

  lemma NextIsNew(cfg: Config, s: NodeState, v: Address, c: seq<Block>, b: Block, known: set<Block>)
    requires Sound(cfg, s, c) && 0 < |c| < TWO_64 && b == Next(cfg, v, c) && HashSafe(cfg.sha, known)
    requires AllValid(cfg.sha, c, known) && b in known
    ensures b.hash != ZERO_HASH && forall i :: 0 <= i < |c| ==> c[i].hash != b.hash
  {
    assert BlockHash(cfg.sha, b) == b.hash;
    assert Stored(s.store, c[|c| - 1]);
    SameHashSameParent(cfg.sha, c[0], b, known);
    ChildNotOnChain(cfg.sha, s, c, b, known);
  }

  /** The next block is taken over. */
  lemma GrowStep(cfg: Config, s: NodeState, v: Address, c: seq<Block>, b: Block, known: set<Block>)
    returns (s': NodeState)
    requires OnlyKnows(cfg, s, c) && 0 < |c| < TWO_64 && b == Next(cfg, v, c) && HashSafe(cfg.sha, known)
    requires AllValid(cfg.sha, c, known) && b in known
    ensures s' == HandleNewBlock(cfg, s, b).state && OnlyKnows(cfg, s', c + [b])
  {
    NextIsNew(cfg, s, v, c, b, known);
    TipIsLast(cfg, s, c);
    assert !Hashed(c, b.hash);
    assert JudgeSingle(cfg, ValidatorSet(s.view), s, b) == Take;
    s' := After(cfg, s, b, Take);
    TakeSound(cfg, s, c, b);
    forall h | h in s'.store
      ensures Hashed(c + [b], h)
    {
      assert h != b.hash ==> Hashed(c, h);
      KnowsMore(c, b, h);
    }
  }

  lemma KnowsMore(c: seq<Block>, b: Block, h: Hash)
    requires Hashed(c, h) || h == b.hash
    ensures Hashed(c + [b], h)
  {
    if h == b.hash {
      assert (c + [b])[|c|].hash == h;
    } else {
      var i :| 0 <= i < |c| && c[i].hash == h;
      assert (c + [b])[i].hash == h;
    }
  }

  lemma {:induction false} GrownValid(cfg: Config, v: Address, n: nat, known: set<Block>)
    requires WellFormed(cfg) && n < TWO_64 && Members(Grown(cfg, v, n)) <= known
    ensures AllValid(cfg.sha, Grown(cfg, v, n), known) && Contiguous(Grown(cfg, v, n))
  {
    if n == 0 {
      assert cfg.genesisBlock in Grown(cfg, v, 0);
    } else {
      var c := Grown(cfg, v, n - 1);
      var b := Next(cfg, v, c);
      MembersSnoc(c, b);
      GrownValid(cfg, v, n - 1, known);
      ValidSnoc(cfg.sha, c, b, known);
    }
  }

  lemma MembersSnoc(c: seq<Block>, b: Block)
    ensures Members(c + [b]) == Members(c) + {b}
  {
  }

  lemma ValidSnoc(sha: Sha, c: seq<Block>, b: Block, known: set<Block>)
    requires AllValid(sha, c, known) && Contiguous(c) && Validates(sha, b) && b in known && b.height == |c|
    ensures AllValid(sha, c + [b], known) && Contiguous(c + [b])
  {
  }

  lemma {:induction false} StateKnows(cfg: Config, v: Address, n: nat, known: set<Block>)
    returns (s: NodeState, c: seq<Block>)
    requires WellFormed(cfg) && n < TWO_64 && ValidatorSet(GenesisView(cfg.genesis)) == []
    requires HashSafe(cfg.sha, known) && AllValid(cfg.sha, Grown(cfg, v, n), known)
    ensures s == StateAfter(cfg, v, n) && c == Grown(cfg, v, n) && OnlyKnows(cfg, s, c)
  {
    if n == 0 {
      s, c := StartKnows(cfg, v, known);
    } else {
      SplitGrown(cfg, v, n, known);
      s, c := StateKnows(cfg, v, n - 1, known);
      s, c := NextKnows(cfg, v, n, s, c, known);
    }
  }

  lemma NextKnows(cfg: Config, v: Address, n: nat, s: NodeState, c: seq<Block>, known: set<Block>)
    returns (s': NodeState, c': seq<Block>)
    requires 0 < n < TWO_64 && s == StateAfter(cfg, v, n - 1) && c == Grown(cfg, v, n - 1) && OnlyKnows(cfg, s, c)
    requires HashSafe(cfg.sha, known) && AllValid(cfg.sha, c, known) && Next(cfg, v, c) in known
    ensures s' == StateAfter(cfg, v, n) && c' == Grown(cfg, v, n) && OnlyKnows(cfg, s', c')
  {
    var b := Next(cfg, v, c);
    s' := GrowStep(cfg, s, v, c, b, known);
    c' := c + [b];
  }

  lemma SplitGrown(cfg: Config, v: Address, n: nat, known: set<Block>)
    requires 0 < n < TWO_64 && AllValid(cfg.sha, Grown(cfg, v, n), known)
    ensures AllValid(cfg.sha, Grown(cfg, v, n - 1), known) && Next(cfg, v, Grown(cfg, v, n - 1)) in known
  {
    SplitValid(cfg.sha, Grown(cfg, v, n - 1), Next(cfg, v, Grown(cfg, v, n - 1)), known);
  }

  lemma SplitValid(sha: Sha, c: seq<Block>, b: Block, known: set<Block>)
    requires AllValid(sha, c + [b], known)
    ensures AllValid(sha, c, known) && b in known
  {
    assert (c + [b])[|c|] == b;
    forall i | 0 <= i < |c|
      ensures Validates(sha, c[i]) && c[i] in known
    {
      assert (c + [b])[i] == c[i];
    }
  }

  lemma StartKnows(cfg: Config, v: Address, known: set<Block>) returns (s: NodeState, c: seq<Block>)
    requires WellFormed(cfg) && ValidatorSet(GenesisView(cfg.genesis)) == []
    requires HashSafe(cfg.sha, known) && AllValid(cfg.sha, Grown(cfg, v, 0), known)
    ensures s == StateAfter(cfg, v, 0) && c == Grown(cfg, v, 0) && OnlyKnows(cfg, s, c)
  {
    s, c := Started(cfg, BLANK), [cfg.genesisBlock];
    assert c[0] in known && HashSafe(cfg.sha, {cfg.genesisBlock});
    StartSound(cfg);
    assert Hashed(c, c[0].hash);
  }

  /** Chains of any length are reachable.  A node without validators that hears of n empty blocks one after
      the other is on their chain of n + 1 contiguous, valid blocks. */
  lemma EveryLengthReachable(cfg: Config, v: Address, n: nat) returns (s: NodeState)
    requires WellFormed(cfg) && n < TWO_64 && ValidatorSet(GenesisView(cfg.genesis)) == []
    requires HashSafe(cfg.sha, Members(Grown(cfg, v, n)))
    ensures s == Run(cfg, Announcements(cfg, v, n)) && Sound(cfg, s, Grown(cfg, v, n))
    ensures Contiguous(Grown(cfg, v, n)) && ValidBeyondFirst(cfg.sha, Grown(cfg, v, n))
  {
    GrownValid(cfg, v, n, Members(Grown(cfg, v, n)));
    var c: seq<Block>;
    s, c := StateKnows(cfg, v, n, Members(Grown(cfg, v, n)));
    RunOfAnnouncements(cfg, v, n);
  }

  /** Where the longest-chain rule fails.  One node has heard of n >= 10000 blocks, another of n' < n blocks of
      its own: fetching the longer chain, the second node ends up on its first 10000 blocks, or keeps its own
      chain if that is at least that high.  With n' == 0 the second node is fresh. */
  lemma LongChainNotAdopted(cfg: Config, v: Address, n: nat, v': Address, n': nat)
    returns (sA: NodeState, s: NodeState, batch: seq<Block>, d: seq<Block>)
    requires WellFormed(cfg) && ValidatorSet(GenesisView(cfg.genesis)) == [] && n' < n < TWO_64 && n >= 10000
    requires HashSafe(cfg.sha, Members(Grown(cfg, v, n))) && HashSafe(cfg.sha, Members(Grown(cfg, v', n')))
    ensures sA == Run(cfg, Announcements(cfg, v, n)) && s == Run(cfg, Announcements(cfg, v', n'))
    ensures sA.height == n && s.height == n' && Step(cfg, sA, Request(0, 10000)).sent == [BlocksMsg(batch)]
    ensures Sound(cfg, HandleBlocks(cfg, s, batch).state, d) && d != Grown(cfg, v, n)
    ensures d == if n' < 9999 then Grown(cfg, v, n)[..10000] else Grown(cfg, v', n')
  {
    sA := EveryLengthReachable(cfg, v, n);
    s := EveryLengthReachable(cfg, v', n');
    batch, d := LongestChainRuleIff(cfg, s, Grown(cfg, v', n'), cfg, sA, Grown(cfg, v, n));
  }
}
