/** Several nodes: catching up from a peer, and agreement of nodes with one tip. */
module NodeSync {
  import opened Words
  import opened Crypto
  import opened Blocks
  import opened Ledger
  import opened Validators
  import opened ChainStore
  import opened NodeMachine
  import opened NodeSound

  // ---------------------------------------------------------------- catching up

  /** The blocks of ca from index k on. */
  ghost predicate RunOf(ca: seq<Block>, k: nat, blocks: seq<Block>) {
    k + |blocks| <= |ca| && forall i :: 0 <= i < |blocks| ==> blocks[i] == ca[k + i]
  }

  lemma RunOfTail(ca: seq<Block>, k: nat, blocks: seq<Block>)
    requires RunOf(ca, k, blocks) && blocks != []
    ensures RunOf(ca, k + 1, blocks[1..]) && blocks[0] == ca[k]
  {
  }

  /** A node whose chain is the first m blocks of a peer's chain, handed blocks of the peer's chain from
      index k on, stays on the peer's chain whatever it passes over, punishes or gives up. */
  lemma {:induction false} ExtendFollows(cfg: Config, leaders: seq<Validator>, s: NodeState,
                                        peer: Store, tip: Hash, ca: seq<Block>, m: nat, k: nat, blocks: seq<Block>)
    returns (m': nat)
    requires IsChain(peer, tip, ca) && 0 < m <= k && RunOf(ca, k, blocks) && Sound(cfg, s, ca[..m])
    ensures m <= m' <= k + |blocks| && Sound(cfg, Extend(cfg, leaders, s, blocks).state, ca[..m'])
    decreases |blocks|
  {
    m' := m;
    if blocks != [] {
      RunOfTail(ca, k, blocks);
      var v := Judge(cfg, leaders, s, blocks[0]);
      var next := After(cfg, s, blocks[0], v);
      m' := JudgedFollows(cfg, leaders, s, peer, tip, ca, m, k, v);
      ExtendUnfolds(cfg, leaders, s, blocks);
      if v != Stop {
        m' := ExtendFollows(cfg, leaders, next, peer, tip, ca, m', k + 1, blocks[1..]);
      }
    }
  }

  lemma ExtendUnfolds(cfg: Config, leaders: seq<Validator>, s: NodeState, blocks: seq<Block>)
    requires blocks != []
    ensures var v := Judge(cfg, leaders, s, blocks[0]);
      var next := After(cfg, s, blocks[0], v);
      Extend(cfg, leaders, s, blocks).state == if v == Stop then next else Extend(cfg, leaders, next, blocks[1..]).state
  {
  }

  /** On a chain each block is the parent of the next one only. */
  lemma OneChild(peer: Store, tip: Hash, ca: seq<Block>, m: nat, k: nat)
    requires IsChain(peer, tip, ca) && 0 < m <= k < |ca| && ca[k].previousHash == ca[m - 1].hash
    ensures k == m
  {
    assert LinkAt(ca, k);
    if m - 1 < k - 1 {
      NoRepeats(peer, tip, ca, m - 1, k - 1);
    }
  }

  /** Only the next block of the peer's chain is taken over. */
  lemma TakenIsNext(cfg: Config, s: NodeState, peer: Store, tip: Hash, ca: seq<Block>, m: nat, k: nat)
    requires IsChain(peer, tip, ca) && 0 < m <= k < |ca| && Sound(cfg, s, ca[..m]) && ca[k].previousHash == s.tip
    ensures k == m && ca[..m] + [ca[k]] == ca[..m + 1]
  {
    OneChild(peer, tip, ca, m, k);
  }

  lemma JudgedFollows(cfg: Config, leaders: seq<Validator>, s: NodeState,
                      peer: Store, tip: Hash, ca: seq<Block>, m: nat, k: nat, v: Verdict)
    returns (m': nat)
    requires IsChain(peer, tip, ca) && 0 < m <= k < |ca| && Sound(cfg, s, ca[..m])
    requires Justified(cfg, leaders, s, ca[k], v)
    ensures m' == (if v == Take then m + 1 else m) <= k + 1
    ensures Sound(cfg, After(cfg, s, ca[k], v), ca[..m'])
  {
    assert Stored(peer, ca[k]);
    VerdictSound(cfg, leaders, s, ca[..m], ca[k], v);
    m' := m;
    if v == Take {
      TipIsLast(cfg, s, ca[..m]);
      TakenIsNext(cfg, s, peer, tip, ca, m, k);
      m' := m + 1;
    }
  }

  /** Nothing in the way of taking over the blocks k..e: valid, not stored, right leader, no conflict. */
  ghost predicate Welcome(cfg: Config, leaders: seq<Validator>, s: NodeState, ca: seq<Block>, k: nat, e: nat)
    requires k <= e <= |ca|
  {
    forall i :: k <= i < e ==> Acceptable(cfg, leaders, s, ca[i]) && !Conflicts(s, ca[i])
  }

  lemma WelcomeNext(cfg: Config, leaders: seq<Validator>, s: NodeState, peer: Store, tip: Hash, ca: seq<Block>,
                    k: nat, e: nat)
    requires IsChain(peer, tip, ca) && Contiguous(ca) && k < e <= |ca| && Welcome(cfg, leaders, s, ca, k, e)
    ensures Welcome(cfg, leaders, After(cfg, s, ca[k], Take), ca, k + 1, e)
  {
    var next := After(cfg, s, ca[k], Take);
    forall i | k + 1 <= i < e
      ensures Acceptable(cfg, leaders, next, ca[i]) && !Conflicts(next, ca[i])
    {
      assert Acceptable(cfg, leaders, s, ca[i]) && !Conflicts(s, ca[i]);
      NoRepeats(peer, tip, ca, k, i);
      assert ca[k].height == k && ca[i].height == i;
    }
  }

  lemma WelcomeTaken(cfg: Config, leaders: seq<Validator>, s: NodeState,
                     peer: Store, tip: Hash, ca: seq<Block>, m: nat, e: nat)
    requires IsChain(peer, tip, ca) && 0 < m < e <= |ca| && Sound(cfg, s, ca[..m])
    requires Welcome(cfg, leaders, s, ca, m, e)
    ensures Judge(cfg, leaders, s, ca[m]) == Take
  {
    assert Acceptable(cfg, leaders, s, ca[m]) && !Conflicts(s, ca[m]);
    TipIsLast(cfg, s, ca[..m]);
    assert LinkAt(ca, m);
  }

  /** One welcome block further. */
  lemma WelcomeStep(cfg: Config, leaders: seq<Validator>, s: NodeState,
                    peer: Store, tip: Hash, ca: seq<Block>, m: nat, e: nat, blocks: seq<Block>)
    returns (next: NodeState)
    requires IsChain(peer, tip, ca) && Contiguous(ca) && blocks != [] && 0 < m < e <= |ca| && Sound(cfg, s, ca[..m])
    requires blocks[0] == ca[m] && Welcome(cfg, leaders, s, ca, m, e)
    ensures Sound(cfg, next, ca[..m + 1]) && Welcome(cfg, leaders, next, ca, m + 1, e)
    ensures Extend(cfg, leaders, s, blocks).state == Extend(cfg, leaders, next, blocks[1..]).state
  {
    next := After(cfg, s, ca[m], Take);
    WelcomeTaken(cfg, leaders, s, peer, tip, ca, m, e);
    var m' := JudgedFollows(cfg, leaders, s, peer, tip, ca, m, m, Take);
    WelcomeNext(cfg, leaders, s, peer, tip, ca, m, e);
    ExtendUnfolds(cfg, leaders, s, blocks);
  }

  lemma {:induction false} ExtendReachesEnd(cfg: Config, leaders: seq<Validator>, s: NodeState,
                                           peer: Store, tip: Hash, ca: seq<Block>, m: nat, e: nat, blocks: seq<Block>)
    requires IsChain(peer, tip, ca) && Contiguous(ca) && 0 < m && e == m + |blocks| && RunOf(ca, m, blocks)
    requires Sound(cfg, s, ca[..m]) && Welcome(cfg, leaders, s, ca, m, e)
    ensures Sound(cfg, Extend(cfg, leaders, s, blocks).state, ca[..e])
    decreases |blocks|
  {
    if blocks != [] {
      RunOfTail(ca, m, blocks);
      var next := WelcomeStep(cfg, leaders, s, peer, tip, ca, m, e, blocks);
      ExtendReachesEnd(cfg, leaders, next, peer, tip, ca, m + 1, e, blocks[1..]);
    }
  }

  lemma PeerBatch(ca: seq<Block>, n: nat, max: int)
    requires Contiguous(ca) && 0 < n < |ca|
    ensures ca[n].height == n && Served(ca, ca[n].height, max) != [] && RunOf(ca, n, Served(ca, ca[n].height, max))
  {
    ServedContiguous(ca, ca[n].height, max);
  }

  lemma BatchExtendsTip(cfg: Config, s: NodeState, c: seq<Block>, blocks: seq<Block>)
    requires Sound(cfg, s, c) && blocks != [] && blocks[0].previousHash == s.tip
    ensures HandleBlocks(cfg, s, blocks) == Extend(cfg, ValidatorSet(s.view), s, blocks)
  {
    TipIsLast(cfg, s, c);
  }

  lemma NextHeight(cfg: Config, s: NodeState, ca: seq<Block>, n: nat)
    requires LinkedFromZero(ca) && Contiguous(ca) && 0 < n < |ca| && Sound(cfg, s, ca[..n])
    ensures ca[n].height == s.height + 1 && ca[n].previousHash == s.tip
  {
    assert LinkAt(ca, n) && ca[..n][n - 1] == ca[n - 1];
  }

  lemma BatchFollows(cfg: Config, s: NodeState, peer: Store, tip: Hash, ca: seq<Block>, n: nat, batch: seq<Block>)
    returns (m: nat)
    requires IsChain(peer, tip, ca) && Contiguous(ca) && 0 < n && RunOf(ca, n, batch) && batch != []
    requires Sound(cfg, s, ca[..n])
    ensures n <= m <= n + |batch| && Sound(cfg, HandleBlocks(cfg, s, batch).state, ca[..m])
    ensures Welcome(cfg, ValidatorSet(s.view), s, ca, n, n + |batch|) ==> m == n + |batch|
  {
    NextHeight(cfg, s, ca, n);
    assert batch[0] == ca[n + 0];
    BatchExtendsTip(cfg, s, ca[..n], batch);
    var leaders, e := ValidatorSet(s.view), n + |batch|;
    if Welcome(cfg, leaders, s, ca, n, e) {
      ExtendReachesEnd(cfg, leaders, s, peer, tip, ca, n, e, batch);
      m := e;
    } else {
      m := ExtendFollows(cfg, leaders, s, peer, tip, ca, n, n, batch);
    }
  }

  /** A node on the chain c answers a request with what Served takes from c. */
  lemma PeerAnswers(cfg: Config, s: NodeState, c: seq<Block>, from: u64, max: int)
    requires Sound(cfg, s, c) && from <= s.height && Served(c, from, Asked(max)) != []
    ensures Step(cfg, s, Request(from, max)).sent == [BlocksMsg(Served(c, from, Asked(max)))]
  {
    assert Stored(s.store, c[|c| - 1]);
    ChainServed(s, c, from, max);
  }

  lemma ChainServed(s: NodeState, c: seq<Block>, from: u64, max: int)
    requires IsChain(s.store, s.tip, c) && s.tip != ZERO_HASH && from <= s.height && Served(c, from, Asked(max)) != []
    ensures Serve(s, from, max).sent == [BlocksMsg(Served(c, from, Asked(max)))]
  {
    ChainAnswers(s.store, s.tip, c, from);
    ServeIs(s, from, max, |c|);
  }

  lemma PeerSends(cfg: Config, s: NodeState, c: seq<Block>, n: nat, max: int) returns (batch: seq<Block>)
    requires Sound(cfg, s, c) && Contiguous(c) && 0 < n < |c|
    ensures Step(cfg, s, Request(c[n].height, max)).sent == [BlocksMsg(batch)]
    ensures batch == c[n..if |c| - n <= Asked(max) then |c| else n + Asked(max)] && batch != [] && RunOf(c, n, batch)
  {
    PeerBatch(c, n, Asked(max));
    ServedContiguous(c, c[n].height, Asked(max));
    batch := Served(c, c[n].height, Asked(max));
    assert s.height == c[|c| - 1].height;
    PeerAnswers(cfg, s, c, c[n].height, max);
  }

  /** Two-node sync.  B's chain is the first n blocks of A's, heights are contiguous, and B asks A for
      what it has from B's height + 1 on.  Processing A's answer, B's chain stays a prefix of A's whatever
      blocks B declines, and reaches the end of the answer if none is declined; either way B's accounts
      are the replay of exactly that prefix. */
  lemma SyncFromPeer(cfg: Config, s: NodeState, cfgA: Config, sA: NodeState, ca: seq<Block>, n: nat, max: int)
    returns (batch: seq<Block>, m: nat)
    requires Sound(cfgA, sA, ca) && Contiguous(ca) && 0 < n < |ca| && Sound(cfg, s, ca[..n])
    ensures ca[n].height == s.height + 1 && Step(cfgA, sA, Request(ca[n].height, max)).sent == [BlocksMsg(batch)]
    ensures var limit := if max <= 0 then 50 else max;
      batch == ca[n..if |ca| - n <= limit then |ca| else n + limit]
    ensures n <= m <= n + |batch| && Sound(cfg, HandleBlocks(cfg, s, batch).state, ca[..m])
    ensures Welcome(cfg, ValidatorSet(s.view), s, ca, n, n + |batch|) ==> m == n + |batch|
  {
    batch := PeerSends(cfgA, sA, ca, n, max);
    NextHeight(cfg, s, ca, n);
    m := BatchFollows(cfg, s, sA.store, sA.tip, ca, n, batch);
  }

  /** Caught up: if B declines nothing and the answer reaches A's tip, B has A's balances and nonces. */
  lemma CaughtUp(cfg: Config, s: NodeState, cfgA: Config, sA: NodeState, ca: seq<Block>, n: nat, max: int)
    returns (batch: seq<Block>)
    requires Sound(cfgA, sA, ca) && cfgA.genesis == cfg.genesis && Contiguous(ca) && 0 < n < |ca|
    requires Sound(cfg, s, ca[..n])
    requires |ca| - n <= Asked(max) && Welcome(cfg, ValidatorSet(s.view), s, ca, n, |ca|)
    ensures Step(cfgA, sA, Request(ca[n].height, max)).sent == [BlocksMsg(batch)]
    ensures var s' := HandleBlocks(cfg, s, batch).state;
      s'.tip == sA.tip && s'.height == sA.height && s'.view.accounts == sA.view.accounts
  {
    var m: nat;
    batch, m := SyncFromPeer(cfg, s, cfgA, sA, ca, n, max);
    assert |batch| == |ca| - n;
    assert ca[..m] == ca;
    SoundAgree(cfg, HandleBlocks(cfg, s, batch).state, cfgA, sA, ca);
  }

  /** Two nodes with one genesis on one chain agree. */
  lemma SoundAgree(cfg: Config, s: NodeState, cfg': Config, s': NodeState, c: seq<Block>)
    requires Sound(cfg, s, c) && Sound(cfg', s', c) && cfg.genesis == cfg'.genesis
    ensures s.tip == s'.tip && s.height == s'.height && s.view.accounts == s'.view.accounts
  {
  }

  /** Valid from the second block on: all that is checked of a chain from genesis. */
  ghost predicate ValidBeyondFirst(sha: Sha, c: seq<Block>) {
    forall i :: 1 <= i < |c| ==> Validates(sha, c[i])
  }

  /** The branch that a linked chain from genesis takes is decided by its height alone. */
  lemma FullChainBranch(cfg: Config, s: NodeState, c: seq<Block>, bs: seq<Block>)
    requires Sound(cfg, s, c) && LinkedFromZero(bs) && bs[0].height == 0 && ValidBeyondFirst(cfg.sha, bs)
    ensures LinkedBatch(cfg.sha, bs) && FromGenesis(bs)
    ensures BranchOf(cfg, s, bs) == if Top(bs).height > s.height then Reorg else Ignore
  {
    TipIsLast(cfg, s, c);
    assert Stored(s.store, c[|c| - 1]);
    assert forall i :: 1 <= i < |bs| ==> LinkAt(bs, i);
  }

  /** Writing blocks that are a chain in some store makes them a chain in this one. */
  lemma ChainRecorded(store: Store, peer: Store, tip: Hash, bs: seq<Block>)
    requires IsChain(peer, tip, bs)
    ensures IsChain(WriteAll(store, bs), tip, bs)
  {
    forall i | 0 <= i < |bs|
      ensures Stored(WriteAll(store, bs), bs[i])
    {
      assert Stored(peer, bs[i]);
      forall j | i < j < |bs|
        ensures bs[j].hash != bs[i].hash
      {
        NoRepeats(peer, tip, bs, i, j);
      }
      WriteAllAt(store, bs, i);
    }
  }

  /** A peer's chain from genesis is adopted exactly when it is higher than the tip. */
  lemma FullChainHandled(cfg: Config, s: NodeState, c: seq<Block>, peer: Store, tip: Hash, bs: seq<Block>)
    requires Sound(cfg, s, c) && IsChain(peer, tip, bs) && bs[0].height == 0 && ValidBeyondFirst(cfg.sha, bs)
    ensures Sound(cfg, HandleBlocks(cfg, s, bs).state, if Top(bs).height > s.height then bs else c)
  {
    FullChainBranch(cfg, s, c, bs);
    if Top(bs).height > s.height {
      ChainRecorded(s.store, peer, tip, bs);
      RemoveAllTidy(cfg.sha, PoolMax(cfg), s.pool, bs);
    }
  }

  /** The longest-chain rule.  A node asks a peer with a higher contiguous chain, valid from the second
      block on, for the chain from genesis, at most 10000 blocks, and handles the answer.  Up to that limit
      it ends up on the peer's chain; above it on the first 10000 blocks if its own height is below 9999,
      and otherwise it keeps its own, lower chain.  So the rule holds if and only if the peer's chain has
      at most 10000 blocks. */
  lemma LongestChainRuleIff(cfg: Config, s: NodeState, c: seq<Block>, cfgA: Config, sA: NodeState, ca: seq<Block>)
    returns (batch: seq<Block>, d: seq<Block>)
    requires Sound(cfg, s, c) && Sound(cfgA, sA, ca) && sA.height > s.height
    requires Contiguous(ca) && ValidBeyondFirst(cfg.sha, ca)
    ensures Step(cfgA, sA, Request(0, 10000)).sent == [BlocksMsg(batch)]
    ensures Sound(cfg, HandleBlocks(cfg, s, batch).state, d)
    ensures d == if |ca| <= 10000 then ca else if s.height < 9999 then ca[..10000] else c
    ensures d == ca <==> |ca| <= 10000
  {
    ServedContiguous(ca, 0, 10000);
    batch := if |ca| <= 10000 then ca else ca[..10000];
    assert Served(ca, 0, 10000) == batch by { assert ca[0..|ca|] == ca; }
    PeerAnswers(cfgA, sA, ca, 0, 10000);
    var n := |batch|;
    assert ca[..n] == batch;
    ChainPrefix(sA.store, sA.tip, ca, n);
    FullChainHandled(cfg, s, c, sA.store, ca[n - 1].hash, batch);
    d := if Top(batch).height > s.height then batch else c;
    assert c[|c| - 1].height == s.height;
  }

  /** What a node does with a run of linked, valid blocks that neither starts at genesis nor extends its tip:
      nothing, unless the run ends above its tip; then it asks the sender for the chain from genesis. */
  lemma BehindAsks(cfg: Config, s: NodeState, c: seq<Block>, peer: Store, tip: Hash, ca: seq<Block>,
                   k: nat, bs: seq<Block>)
    requires Sound(cfg, s, c) && IsChain(peer, tip, ca) && 0 < k && RunOf(ca, k, bs) && bs != []
    requires ValidBeyondFirst(cfg.sha, bs) && bs[0].previousHash != s.tip
    ensures HandleBlocks(cfg, s, bs) ==
            Outcome(s, if bs[|bs| - 1].height > s.height then [GetBlocksMsg(0, 10000)] else [])
  {
    TipIsLast(cfg, s, c);
    RunIsLinked(cfg.sha, peer, tip, ca, k, bs);
  }

  lemma RunIsLinked(sha: Sha, peer: Store, tip: Hash, ca: seq<Block>, k: nat, bs: seq<Block>)
    requires IsChain(peer, tip, ca) && 0 < k && RunOf(ca, k, bs) && bs != [] && ValidBeyondFirst(sha, bs)
    ensures LinkedBatch(sha, bs) && bs[0].previousHash != ZERO_HASH
  {
    assert bs[0] == ca[k + 0] && LinkAt(ca, k) && Stored(peer, ca[k - 1]);
    forall i | 1 <= i < |bs|
      ensures LinkAt(bs, i)
    {
      assert LinkAt(ca, k + i) && bs[i] == ca[k + i] && bs[i - 1] == ca[k + (i - 1)];
    }
  }

  /** The longest-chain rule from announcement to adoption.  A node that receives a run of a higher peer's
      chain it cannot attach answers with one request and changes nothing; the peer answers that request
      with one batch; and handling the batch puts the node on the peer's chain if that has at most 10000
      blocks, otherwise on its first 10000 blocks, or leaves it on its own chain if that is as high. */
  lemma LongestChainFetched(cfg: Config, s: NodeState, c: seq<Block>, cfgA: Config, sA: NodeState, ca: seq<Block>,
                            k: nat, bs: seq<Block>)
    returns (ask: Message, batch: seq<Block>, d: seq<Block>)
    requires Sound(cfg, s, c) && Sound(cfgA, sA, ca) && sA.height > s.height
    requires Contiguous(ca) && ValidBeyondFirst(cfg.sha, ca)
    requires 0 < k && RunOf(ca, k, bs) && bs != [] && bs[0].previousHash != s.tip && bs[|bs| - 1].height > s.height
    ensures HandleBlocks(cfg, s, bs) == Outcome(s, [ask]) && ask.GetBlocksMsg?
    ensures Step(cfgA, sA, Request(ask.from, ask.max)).sent == [BlocksMsg(batch)]
    ensures Sound(cfg, HandleBlocks(cfg, s, batch).state, d)
    ensures d == if |ca| <= 10000 then ca else if s.height < 9999 then ca[..10000] else c
  {
    assert ValidBeyondFirst(cfg.sha, bs) by {
      forall i | 1 <= i < |bs|
        ensures Validates(cfg.sha, bs[i])
      {
        assert bs[i] == ca[k + i];
      }
    }
    BehindAsks(cfg, s, c, sA.store, sA.tip, ca, k, bs);
    ask := GetBlocksMsg(0, 10000);
    batch, d := LongestChainRuleIff(cfg, s, c, cfgA, sA, ca);
  }

  // ---------------------------------------------------------------- agreement

  ghost predicate Authentic(sha: Sha, c: seq<Block>) {
    LinkedFromZero(c) && forall i :: 0 <= i < |c| ==> Validates(sha, c[i]) && c[i].hash != ZERO_HASH
  }

  predicate SameContents(a: seq<Block>, b: seq<Block>) {
    |a| == |b| && forall i :: 0 <= i < |a| ==> SameContent(a[i], b[i])
  }

  /** Walks two chains with one tip hash back in step; where their content differs, two colliding texts. */
  ghost function ChainCollision(sha: Sha, a: seq<Block>, b: seq<Block>): (r: Option<(Preimage, Preimage)>)
    requires Authentic(sha, a) && Authentic(sha, b) && Top(a).hash == Top(b).hash
    ensures r.Some? ==> Collides(sha, r.value.0, r.value.1)
    ensures r.None? ==> SameContents(a, b)
    decreases |a|
  {
    if !SameContent(Top(a), Top(b)) then
      TopValid(sha, a);
      TopValid(sha, b);
      Some(IdentityCollision(sha, Top(a), Top(b)))
    else
      ParentOfTop(sha, a);
      ParentOfTop(sha, b);
      SameContentsSnoc(a, b);
      if |a| == 1 || |b| == 1 then None else ChainCollision(sha, a[..|a| - 1], b[..|b| - 1])
  }

  lemma TopValid(sha: Sha, c: seq<Block>)
    requires Authentic(sha, c)
    ensures Validates(sha, Top(c))
  {
  }

  lemma SameContentsSnoc(a: seq<Block>, b: seq<Block>)
    requires a != [] && b != [] && SameContent(Top(a), Top(b))
    ensures SameContents(a, b) <==> SameContents(a[..|a| - 1], b[..|b| - 1])
  {
    if SameContents(a[..|a| - 1], b[..|b| - 1]) {
      forall i | 0 <= i < |a|
        ensures SameContent(a[i], b[i])
      {
        if i < |a| - 1 {
          assert SameContent(a[..|a| - 1][i], b[..|b| - 1][i]);
        }
      }
    }
  }

  lemma ParentOfTop(sha: Sha, c: seq<Block>)
    requires Authentic(sha, c)
    ensures Top(c).previousHash == ZERO_HASH <==> |c| == 1
    ensures |c| > 1 ==> Authentic(sha, c[..|c| - 1]) && Top(c).previousHash == Top(c[..|c| - 1]).hash
  {
    if |c| > 1 {
      assert LinkAt(c, |c| - 1);
      LinkedPrefix(c, |c| - 1);
    }
  }

  lemma {:induction false} SameContentReplaysAlike(acc: Accounts, a: seq<Block>, b: seq<Block>)
    requires SameContents(a, b)
    ensures Replay(acc, a) == Replay(acc, b)
  {
    if a != [] {
      assert SameContent(Top(a), Top(b));
      SameContentsSnoc(a, b);
      SameContentReplaysAlike(acc, a[..|a| - 1], b[..|b| - 1]);
      SameContentAppliesAlike(Replay(acc, a[..|a| - 1]), a[|a| - 1], b[|b| - 1]);
    }
  }

  /** A chain as an adopted batch leaves it: every block but the first is valid. */
  ghost predicate Rooted(sha: Sha, c: seq<Block>) {
    LinkedFromZero(c) && ValidBeyondFirst(sha, c)
  }

  /** How many blocks two chains share at their ends when they have one tip hash: all but the first of
      the shorter one. */
  function Shared(a: seq<Block>, b: seq<Block>): nat
    requires a != [] && b != []
  {
    if |a| <= |b| then |a| - 1 else |b| - 1
  }

  function TailOf(a: seq<Block>, b: seq<Block>): seq<Block>
    requires a != [] && b != []
  {
    a[|a| - Shared(a, b)..]
  }

  function HeadOf(a: seq<Block>, b: seq<Block>): seq<Block>
    requires a != [] && b != []
  {
    a[..|a| - Shared(a, b)]
  }

  /** Walks two chains with one tip hash back in step until one of them is at its first block; where their
      content differs, two colliding texts. */
  ghost function TailCollision(sha: Sha, a: seq<Block>, b: seq<Block>): (r: Option<(Preimage, Preimage)>)
    requires Rooted(sha, a) && Rooted(sha, b) && Top(a).hash == Top(b).hash
    ensures r.Some? ==> Collides(sha, r.value.0, r.value.1)
    ensures r.None? ==> SameContents(TailOf(a, b), TailOf(b, a))
    decreases |a|
  {
    if |a| == 1 || |b| == 1 then None
    else if !SameContent(Top(a), Top(b)) then Some(IdentityCollision(sha, Top(a), Top(b)))
    else
      RootedPrefix(sha, a);
      RootedPrefix(sha, b);
      TailSnoc(a, b);
      TailSnoc(b, a);
      SameContentsSnoc(TailOf(a, b), TailOf(b, a));
      TailCollision(sha, a[..|a| - 1], b[..|b| - 1])
  }

  lemma RootedPrefix(sha: Sha, c: seq<Block>)
    requires Rooted(sha, c) && |c| > 1
    ensures Rooted(sha, c[..|c| - 1]) && Top(c[..|c| - 1]).hash == Top(c).previousHash
  {
    LinkedPrefix(c, |c| - 1);
    assert LinkAt(c, |c| - 1);
  }

  lemma TailSnoc(a: seq<Block>, b: seq<Block>)
    requires |a| > 1 && |b| > 1
    ensures TailOf(a, b) != [] && Top(TailOf(a, b)) == Top(a)
    ensures TailOf(a, b)[..|TailOf(a, b)| - 1] == TailOf(a[..|a| - 1], b[..|b| - 1])
  {
  }

  lemma ReplaySplit(acc: Accounts, a: seq<Block>, b: seq<Block>)
    requires a != [] && b != []
    ensures Replay(acc, a) == Replay(Replay(acc, HeadOf(a, b)), TailOf(a, b))
  {
    assert a == HeadOf(a, b) + TailOf(a, b);
    ReplayConcat(acc, HeadOf(a, b), TailOf(a, b));
  }

  lemma {:induction false} ReplayConcat(acc: Accounts, a: seq<Block>, b: seq<Block>)
    ensures Replay(acc, a + b) == Replay(Replay(acc, a), b)
  {
    if b == [] {
      assert a + b == a;
    } else {
      var init := b[..|b| - 1];
      ReplayConcat(acc, a, init);
      assert (a + b)[..|a + b| - 1] == a + init;
    }
  }

  /** The ledgers of two chains with one tip hash and no collision.  They are equal if they were equal
      where the shared blocks begin; and as long as both give the same verdicts on the shared blocks, a
      balance agrees at the tip if and only if it agreed there. */
  lemma SharedTailAgreesIff(acc: Accounts, a: seq<Block>, b: seq<Block>, x: Address)
    requires a != [] && b != [] && SameContents(TailOf(a, b), TailOf(b, a))
    ensures Replay(acc, HeadOf(a, b)) == Replay(acc, HeadOf(b, a)) ==> Replay(acc, a) == Replay(acc, b)
    ensures ChainVerdictsAlike(Replay(acc, HeadOf(a, b)), Replay(acc, HeadOf(b, a)), TailOf(a, b)) ==>
      (Get(Replay(acc, a).balances, x) == Get(Replay(acc, b).balances, x)
       <==> Get(Replay(acc, HeadOf(a, b)).balances, x) == Get(Replay(acc, HeadOf(b, a)).balances, x))
  {
    ReplaySplit(acc, a, b);
    ReplaySplit(acc, b, a);
    var h, h', tail := Replay(acc, HeadOf(a, b)), Replay(acc, HeadOf(b, a)), TailOf(a, b);
    SameContentReplaysAlike(h', tail, TailOf(b, a));
    if ChainVerdictsAlike(h, h', tail) {
      ReplayAgreesIff(h, h', tail, |tail|, x);
      assert tail[..|tail|] == tail;
    }
  }

  lemma FirstBlocksAlike(acc: Accounts, a: seq<Block>, b: seq<Block>)
    requires a != [] && |a| == |b| && a[0].validator == b[0].validator && SameTransfers(a[0].txs, b[0].txs)
    ensures Replay(acc, HeadOf(a, b)) == Replay(acc, HeadOf(b, a))
  {
    assert HeadOf(a, b) == [] + [a[0]] && HeadOf(b, a) == [] + [b[0]];
    ReplayAppend(acc, [], a[0]);
    ReplayAppend(acc, [], b[0]);
    NonceFieldIgnored(acc, a[0], b[0]);
  }

  lemma HistoryRooted(cfg: Config, es: seq<Event>)
    requires WellFormed(cfg) && NoZeroHash(cfg.sha, Touched(cfg, es))
    ensures Rooted(cfg.sha, History(cfg, es)) && Top(History(cfg, es)).hash == Run(cfg, es).tip
    ensures Run(cfg, es).view.accounts == Replay(GenesisAccounts(cfg.genesis), History(cfg, es))
  {
    LedgerIsReplayOfAdopted(cfg, es);
  }

  /** Agreement.  Two nodes with one genesis that have the same tip hash, whatever first blocks they
      adopted.  Either two colliding texts can be read off their chains, or the chains share every block
      after the first of the shorter one.  In that case their balances and nonces are equal if the first
      blocks have one producer and make the same transfers (and the chains one length), or more generally
      if the ledgers were equal where the shared blocks begin; and while both nodes give the same verdicts
      on the shared blocks, a balance agrees exactly when it agreed there. */
  lemma SameTipSameLedger(cfg: Config, es: seq<Event>, cfg': Config, es': seq<Event>, x: Address)
    requires WellFormed(cfg) && NoZeroHash(cfg.sha, Touched(cfg, es))
    requires WellFormed(cfg') && NoZeroHash(cfg'.sha, Touched(cfg', es'))
    requires cfg.sha == cfg'.sha && cfg.genesis == cfg'.genesis
    requires Run(cfg, es).tip == Run(cfg', es').tip
    ensures var s, t := Run(cfg, es).view.accounts, Run(cfg', es').view.accounts;
      var c, d := History(cfg, es), History(cfg', es');
      var acc := GenesisAccounts(cfg.genesis);
      var h, h' := Replay(acc, HeadOf(c, d)), Replay(acc, HeadOf(d, c));
      && Rooted(cfg.sha, c) && Rooted(cfg.sha, d) && Top(c).hash == Top(d).hash
      && (TailCollision(cfg.sha, c, d).None? ==>
            && SameContents(TailOf(c, d), TailOf(d, c))
            && (h == h' ==> s == t)
            && (|c| == |d| && c[0].validator == d[0].validator && SameTransfers(c[0].txs, d[0].txs) ==> s == t)
            && (ChainVerdictsAlike(h, h', TailOf(c, d)) ==>
                  (Get(s.balances, x) == Get(t.balances, x) <==> Get(h.balances, x) == Get(h'.balances, x))))
  {
    HistoryRooted(cfg, es);
    HistoryRooted(cfg', es');
    var c, d := History(cfg, es), History(cfg', es');
    var acc := GenesisAccounts(cfg.genesis);
    if TailCollision(cfg.sha, c, d).None? {
      SharedTailAgreesIff(acc, c, d, x);
      if |c| == |d| && c[0].validator == d[0].validator && SameTransfers(c[0].txs, d[0].txs) {
        FirstBlocksAlike(acc, c, d);
      }
    }
  }

  /** Without the condition on the first blocks agreement fails.  Two fresh nodes adopt batches that end in
      the same block; the first block of one batch is genesis, the other only claims its hash and carries
      an unfunded transaction.  Same tip, hashes apart, no collision, different ledgers. */
  lemma SameTipDifferentLedger(cfg: Config, poor: Address, v: Address, f: Block, b1: Block)
    requires WellFormed(cfg) && HashSafe(cfg.sha, {cfg.genesisBlock, f, b1})
    requires Get(GenesisAccounts(cfg.genesis).balances, poor) == 0
    requires f == Block(0, 0, ZERO_HASH, ZERO_HASH, v, [Transaction(poor, v, 0, 1, 0, [], [])], [],
                        cfg.genesisBlock.hash)
    requires b1 == NewBlock(cfg.sha, 1, 0, cfg.genesisBlock.hash, v, [])
    ensures var es, es' := [ReceiveBlocks([f, b1])], [ReceiveBlocks([cfg.genesisBlock, b1])];
      && AlwaysApart(cfg, es) && AlwaysApart(cfg, es')
      && HashSafe(cfg.sha, Touched(cfg, es)) && HashSafe(cfg.sha, Touched(cfg, es'))
      && Run(cfg, es).tip == Run(cfg, es').tip
      && Run(cfg, es).view.accounts != Run(cfg, es').view.accounts
  {
    var g, acc := cfg.genesisBlock, GenesisAccounts(cfg.genesis);
    AdoptsPair(cfg, f, b1);
    AdoptsPair(cfg, g, b1);
    PairsDiffer(acc, f, g, b1);
  }

  lemma PairsDiffer(acc: Accounts, f: Block, g: Block, b1: Block)
    requires |f.txs| == 1 && !Applies(acc.balances, f.txs[0]) && f.txs[0].fee > 0 && g.txs == [] && b1.txs == []
    ensures Replay(acc, [f, b1]) != Replay(acc, [g, b1])
  {
    ReplayPair(acc, f, b1);
    ReplayPair(acc, g, b1);
    EmptyBlockIsNeutral(acc, g);
    UnfundedFeeIsCredited(acc, f);
  }

  /** A fresh node that receives one batch of two blocks from a first block that claims the genesis hash. */
  lemma AdoptsPair(cfg: Config, b0: Block, b1: Block)
    requires WellFormed(cfg) && HashSafe(cfg.sha, {cfg.genesisBlock, b0, b1})
    requires b0.height == 0 && b0.previousHash == ZERO_HASH && b0.hash == cfg.genesisBlock.hash
    requires Validates(cfg.sha, b1) && b1.previousHash == b0.hash && b1.height > 0
    ensures var es := [ReceiveBlocks([b0, b1])];
      && AlwaysApart(cfg, es) && HashSafe(cfg.sha, Touched(cfg, es))
      && Run(cfg, es).tip == b1.hash && Run(cfg, es).view.accounts == Replay(GenesisAccounts(cfg.genesis), [b0, b1])
  {
    var g, known, bs := cfg.genesisBlock, {cfg.genesisBlock, b0, b1}, [b0, b1];
    var es := [ReceiveBlocks(bs)];
    assert es[..0] == [];
    FreshNodeReorgs(cfg, b0, b1);
    SameHashSameParent(cfg.sha, g, b1, known);
    assert BlockHash(cfg.sha, g) == g.hash && g.previousHash == ZERO_HASH;
    assert Touched(cfg, es) <= known;
    assert HashesApart(cfg, Run(cfg, es[..0]), History(cfg, es[..0]), es[0]);
  }

  /** If both nodes only adopted batches with valid first blocks, the chains agree in full. */
  lemma ValidRunsAgree(cfg: Config, es: seq<Event>, cfg': Config, es': seq<Event>)
    requires WellFormed(cfg) && NoZeroHash(cfg.sha, Touched(cfg, es)) && FirstBlocksValid(cfg, es)
    requires WellFormed(cfg') && NoZeroHash(cfg'.sha, Touched(cfg', es')) && FirstBlocksValid(cfg', es')
    requires cfg.sha == cfg'.sha && cfg.genesis == cfg'.genesis
    requires Run(cfg, es).tip == Run(cfg', es').tip
    ensures var c, d := History(cfg, es), History(cfg', es');
      && Authentic(cfg.sha, c) && Authentic(cfg.sha, d) && Top(c).hash == Top(d).hash
      && (ChainCollision(cfg.sha, c, d).None? ==>
            SameContents(c, d) && Run(cfg, es).view.accounts == Run(cfg', es').view.accounts)
  {
    HistoryAuthentic(cfg, es);
    HistoryAuthentic(cfg', es');
    var c, d := History(cfg, es), History(cfg', es');
    if ChainCollision(cfg.sha, c, d).None? {
      SameContentReplaysAlike(GenesisAccounts(cfg.genesis), c, d);
    }
  }

  lemma HistoryAuthentic(cfg: Config, es: seq<Event>)
    requires WellFormed(cfg) && NoZeroHash(cfg.sha, Touched(cfg, es)) && FirstBlocksValid(cfg, es)
    ensures Authentic(cfg.sha, History(cfg, es)) && Top(History(cfg, es)).hash == Run(cfg, es).tip
    ensures Run(cfg, es).view.accounts == Replay(GenesisAccounts(cfg.genesis), History(cfg, es))
  {
    HistoryRooted(cfg, es);
    HistoryAllValid(cfg, es, |es|);
    assert es[..|es|] == es;
    var c := History(cfg, es);
    forall i | 0 <= i < |c|
      ensures Validates(cfg.sha, c[i]) && c[i].hash != ZERO_HASH
    {
      assert c[i] in Touched(cfg, es) && BlockHash(cfg.sha, c[i]) != ZERO_HASH;
    }
  }
}
