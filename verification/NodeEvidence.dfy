/** Slashing needs evidence, one block per height and validator, and what slashing and reorganisation
    do to the validator set. */
module NodeEvidence {
  import opened Words
  import opened Crypto
  import opened Blocks
  import opened Validators
  import opened ChainStore
  import opened Mempool
  import opened NodeMachine
  import opened NodeSound

  /** The blocks a run has received from peers. */
  function Received(es: seq<Event>): set<Block> {
    if es == [] then {}
    else
      Received(es[..|es| - 1]) +
      match es[|es| - 1]
      case ReceiveBlock(b) => {b}
      case ReceiveBlocks(bs) => (set b | b in bs)
      case _ => {}
  }

  /** Two received valid blocks of one validator and height with different hashes. */
  ghost predicate Equivocated(sha: Sha, received: set<Block>, v: Address) {
    exists b, c :: b in received && c in received && Validates(sha, b) && Validates(sha, c)
      && b.validator == v && c.validator == v && b.height == c.height && b.hash != c.hash
  }

  ghost predicate SeenIsEvidence(sha: Sha, received: set<Block>, seen: SeenTable) {
    forall k :: k in seen ==> Witnessed(sha, received, k, seen[k])
  }

  ghost predicate Witnessed(sha: Sha, received: set<Block>, k: (u64, Address), h: Hash) {
    exists b :: b in received && Validates(sha, b) && SeenKey(b) == k && b.hash == h
  }

  function WithoutAll(vs: seq<Validator>, gone: set<Address>): seq<Validator> {
    if vs == [] then []
    else
      var init := WithoutAll(vs[..|vs| - 1], gone);
      if vs[|vs| - 1].address !in gone then init + [vs[|vs| - 1]] else init
  }

  lemma {:induction false} WithoutAllAgain(vs: seq<Validator>, gone: set<Address>, a: Address)
    ensures Without(WithoutAll(vs, gone), a) == WithoutAll(vs, gone + {a})
  {
    if vs != [] {
      var init, x := vs[..|vs| - 1], vs[|vs| - 1];
      WithoutAllAgain(init, gone, a);
      if x.address !in gone {
        WithoutSnoc(WithoutAll(init, gone), x, a);
      }
    }
  }

  lemma {:induction false} WithoutNone(vs: seq<Validator>)
    ensures WithoutAll(vs, {}) == vs
  {
    if vs != [] {
      WithoutNone(vs[..|vs| - 1]);
    }
  }

  lemma {:induction false} WithoutAllSubsequence(vs: seq<Validator>, less: set<Address>, more: set<Address>)
    requires less <= more
    ensures Subsequence(WithoutAll(vs, more), WithoutAll(vs, less))
  {
    if vs != [] {
      WithoutAllSubsequence(vs[..|vs| - 1], less, more);
      SubsequenceSnoc(WithoutAll(vs[..|vs| - 1], more), WithoutAll(vs[..|vs| - 1], less), vs[|vs| - 1]);
    }
  }

  /** The validator set is the genesis set less the slashed validators, each slashed on evidence, and
      every entry of the double-sign table comes from a received valid block. */
  ghost predicate Evident(cfg: Config, s: NodeState, gone: set<Address>, received: set<Block>) {
    && SeenIsEvidence(cfg.sha, received, s.seen)
    && ValidatorSet(s.view) == WithoutAll(ValidatorSet(GenesisView(cfg.genesis)), gone)
    && (forall v :: v in gone ==> Equivocated(cfg.sha, received, v))
  }

  lemma EvidenceMonotone(cfg: Config, s: NodeState, gone: set<Address>, fewer: set<Block>, more: set<Block>)
    requires Evident(cfg, s, gone, fewer) && fewer <= more
    ensures Evident(cfg, s, gone, more)
  {
    forall k | k in s.seen
      ensures Witnessed(cfg.sha, more, k, s.seen[k])
    {
      assert Witnessed(cfg.sha, fewer, k, s.seen[k]);
    }
  }

  lemma SlashEvident(cfg: Config, s: NodeState, gone: set<Address>, received: set<Block>, b: Block)
    requires Evident(cfg, s, gone, received) && b in received && Validates(cfg.sha, b) && Conflicts(s, b)
    ensures Evident(cfg, Slashed(s, b), gone + {b.validator}, received)
  {
    SlashRemovesExactly(s.view, b.validator);
    WithoutAllAgain(ValidatorSet(GenesisView(cfg.genesis)), gone, b.validator);
    ConflictIsEvidence(cfg, s, received, b);
  }

  lemma ConflictIsEvidence(cfg: Config, s: NodeState, received: set<Block>, b: Block)
    requires SeenIsEvidence(cfg.sha, received, s.seen) && b in received && Validates(cfg.sha, b) && Conflicts(s, b)
    ensures Equivocated(cfg.sha, received, b.validator)
  {
    assert Witnessed(cfg.sha, received, SeenKey(b), s.seen[SeenKey(b)]);
    var c :| c in received && Validates(cfg.sha, c) && SeenKey(c) == SeenKey(b) && c.hash == s.seen[SeenKey(b)];
    assert c.validator == b.validator && c.height == b.height && c.hash != b.hash;
  }

  lemma RecordEvident(cfg: Config, s: NodeState, gone: set<Address>, received: set<Block>, b: Block)
    requires Evident(cfg, s, gone, received) && b in received && Validates(cfg.sha, b)
    ensures Evident(cfg, Recorded(s, b), gone, received)
    ensures Evident(cfg, Adopted(cfg, Recorded(s, b), b), gone, received)
  {
    var seen := Recorded(s, b).seen;
    forall k | k in seen
      ensures Witnessed(cfg.sha, received, k, seen[k])
    {
      if k == SeenKey(b) {
        assert b in received && SeenKey(b) == k && b.hash == seen[k];
      } else {
        assert Witnessed(cfg.sha, received, k, s.seen[k]);
      }
    }
  }

  /** The double-sign table is write-once while the node runs. */
  ghost predicate Keeps(old_: SeenTable, new_: SeenTable) {
    forall k :: k in old_ ==> k in new_ && new_[k] == old_[k]
  }

  lemma JudgedEvident(cfg: Config, leaders: seq<Validator>, s: NodeState, gone: set<Address>, b: Block, v: Verdict,
                      received: set<Block>)
    requires Evident(cfg, s, gone, received) && b in received && Justified(cfg, leaders, s, b, v)
    ensures Evident(cfg, After(cfg, s, b, v), if v == Punish then gone + {b.validator} else gone, received)
    ensures Keeps(s.seen, After(cfg, s, b, v).seen)
  {
    match v
    case Pass =>
    case Punish => SlashEvident(cfg, s, gone, received, b);
    case _ => RecordEvident(cfg, s, gone, received, b);
  }

  lemma {:induction false} ExtendEvident(cfg: Config, leaders: seq<Validator>, s: NodeState, gone: set<Address>,
                                        blocks: seq<Block>, received: set<Block>)
    returns (gone': set<Address>)
    requires Evident(cfg, s, gone, received) && forall b :: b in blocks ==> b in received
    ensures Evident(cfg, Extend(cfg, leaders, s, blocks).state, gone', received) && gone <= gone'
    ensures Keeps(s.seen, Extend(cfg, leaders, s, blocks).state.seen)
    decreases |blocks|
  {
    gone' := gone;
    if blocks != [] {
      var b := blocks[0];
      var v := Judge(cfg, leaders, s, b);
      JudgedEvident(cfg, leaders, s, gone, b, v, received);
      if v != Stop {
        gone' := ExtendEvident(cfg, leaders, After(cfg, s, b, v), if v == Punish then gone + {b.validator} else gone,
                               blocks[1..], received);
      }
    }
  }

  lemma RegenesisEvident(cfg: Config, s: NodeState, gone: set<Address>, received: set<Block>)
    returns (gone': set<Address>)
    requires Evident(cfg, s, gone, received)
    ensures Evident(cfg, WithGenesisApplied(cfg, s), gone', received)
  {
    GenesisRestoresSet(s.view, AllocateAll(s.view.accounts, cfg.genesis.allocation), cfg.genesis);
    WithoutNone(ValidatorSet(GenesisView(cfg.genesis)));
    gone' := if GenesisList(cfg.genesis.validators, cfg.genesis.minStake) != [] then {} else gone;
  }

  lemma {:induction false} SyncEvident(cfg: Config, s: NodeState, gone: set<Address>, blocks: seq<Block>,
                                       received: set<Block>)
    returns (gone': set<Address>)
    requires Evident(cfg, s, gone, received)
    ensures Evident(cfg, SyncEmpty(cfg, s, blocks), gone', received)
    ensures SyncEmpty(cfg, s, blocks).seen == s.seen
    decreases |blocks|
  {
    gone' := gone;
    if blocks != [] {
      var b := blocks[0];
      if Validates(cfg.sha, b) && !(LastBlock(s).Some? && b.previousHash != LastBlock(s).value.hash) {
        var s1 := s;
        if LastBlock(s).None? && b.height == 0 {
          gone' := RegenesisEvident(cfg, s, gone, received);
          s1 := WithGenesisApplied(cfg, s);
        }
        gone' := SyncEvident(cfg, Adopted(cfg, s1, b), gone', blocks[1..], received);
      }
    }
  }

  lemma BlocksEvident(cfg: Config, s: NodeState, gone: set<Address>, bs: seq<Block>, received: set<Block>)
    returns (gone': set<Address>)
    requires Evident(cfg, s, gone, received) && forall b :: b in bs ==> b in received
    ensures Evident(cfg, HandleBlocks(cfg, s, bs).state, gone', received)
    ensures Keeps(s.seen, HandleBlocks(cfg, s, bs).state.seen)
    ensures BranchOf(cfg, s, bs) != Reorg && BranchOf(cfg, s, bs) != SyncFromEmpty ==> gone <= gone'
    ensures BranchOf(cfg, s, bs) == Reorg ==> gone' == {}
  {
    gone' := gone;
    match BranchOf(cfg, s, bs)
    case ExtendTip =>
      gone' := ExtendEvident(cfg, ValidatorSet(s.view), s, gone, bs, received);
    case SyncFromEmpty =>
      gone' := SyncEvident(cfg, s, gone, bs, received);
    case Reorg =>
      WithoutNone(ValidatorSet(GenesisView(cfg.genesis)));
      gone' := {};
    case _ =>
  }

  lemma NewBlockEvident(cfg: Config, s: NodeState, gone: set<Address>, b: Block, received: set<Block>)
    returns (gone': set<Address>)
    requires Evident(cfg, s, gone, received) && b in received
    ensures Evident(cfg, HandleNewBlock(cfg, s, b).state, gone', received) && gone <= gone'
    ensures Keeps(s.seen, HandleNewBlock(cfg, s, b).state.seen)
  {
    var v := JudgeSingle(cfg, ValidatorSet(s.view), s, b);
    JudgedEvident(cfg, ValidatorSet(s.view), s, gone, b, v, received);
    gone' := if v == Punish then gone + {b.validator} else gone;
  }

  /** The steps that load the genesis validators again. */
  ghost predicate Resets(cfg: Config, s: NodeState, e: Event) {
    || (e.ReceiveBlocks? && (BranchOf(cfg, s, e.blocks) == Reorg || BranchOf(cfg, s, e.blocks) == SyncFromEmpty))
    || (e.Restart? && s.tip == ZERO_HASH)
  }

  lemma StepEvident(cfg: Config, s: NodeState, gone: set<Address>, e: Event, received: set<Block>)
    returns (gone': set<Address>)
    requires Evident(cfg, s, gone, received)
    requires e.ReceiveBlock? ==> e.block in received
    requires e.ReceiveBlocks? ==> forall b :: b in e.blocks ==> b in received
    ensures Evident(cfg, Step(cfg, s, e).state, gone', received)
    ensures !Resets(cfg, s, e) ==> gone <= gone'
    ensures !e.Restart? ==> Keeps(s.seen, Step(cfg, s, e).state.seen)
  {
    gone' := gone;
    if e.ReceiveBlock? {
      gone' := NewBlockEvident(cfg, s, gone, e.block, received);
    } else if e.ReceiveBlocks? {
      gone' := BlocksEvident(cfg, s, gone, e.blocks, received);
    } else if e.Restart? && s.tip == ZERO_HASH {
      gone' := RegenesisEvident(cfg, s, gone, received);
    }
  }

  lemma StartEvident(cfg: Config)
    ensures Evident(cfg, Started(cfg, BLANK), {}, {})
  {
    WithoutNone(ValidatorSet(GenesisView(cfg.genesis)));
  }

  /** The last step of a run. */
  lemma LastStepEvident(cfg: Config, es: seq<Event>, gone: set<Address>) returns (gone': set<Address>)
    requires es != [] && Evident(cfg, Run(cfg, es[..|es| - 1]), gone, Received(es[..|es| - 1]))
    ensures Evident(cfg, Run(cfg, es), gone', Received(es))
    ensures !Resets(cfg, Run(cfg, es[..|es| - 1]), es[|es| - 1]) ==> gone <= gone'
    ensures !es[|es| - 1].Restart? ==> Keeps(Run(cfg, es[..|es| - 1]).seen, Run(cfg, es).seen)
  {
    var init := es[..|es| - 1];
    EvidenceMonotone(cfg, Run(cfg, init), gone, Received(init), Received(es));
    gone' := StepEvident(cfg, Run(cfg, init), gone, es[|es| - 1], Received(es));
  }

  lemma {:induction false} ReachableEvident(cfg: Config, es: seq<Event>) returns (gone: set<Address>)
    ensures Evident(cfg, Run(cfg, es), gone, Received(es))
  {
    if es == [] {
      StartEvident(cfg);
      gone := {};
    } else {
      gone := ReachableEvident(cfg, es[..|es| - 1]);
      gone := LastStepEvident(cfg, es, gone);
    }
  }

  lemma {:induction false} WithoutAllMember(vs: seq<Validator>, gone: set<Address>, i: nat)
    requires i < |vs|
    ensures vs[i].address in gone || vs[i] in WithoutAll(vs, gone)
  {
    if i < |vs| - 1 {
      WithoutAllMember(vs[..|vs| - 1], gone, i);
    }
  }

  /** Slashing needs evidence.  After any run, for any hash function: the validator set is a subsequence
      of the genesis set, and whoever is missing from it was slashed after the node had received two
      valid blocks with its address, one height and different hashes. */
  lemma SlashingNeedsEvidence(cfg: Config, es: seq<Event>)
    ensures Subsequence(ValidatorSet(Run(cfg, es).view), ValidatorSet(GenesisView(cfg.genesis)))
    ensures forall x :: x in ValidatorSet(GenesisView(cfg.genesis)) && x !in ValidatorSet(Run(cfg, es).view)
              ==> Equivocated(cfg.sha, Received(es), x.address)
  {
    var gone := ReachableEvident(cfg, es);
    var all := ValidatorSet(GenesisView(cfg.genesis));
    WithoutAllSubsequence(all, {}, gone);
    WithoutNone(all);
    forall x | x in all && x !in ValidatorSet(Run(cfg, es).view)
      ensures Equivocated(cfg.sha, Received(es), x.address)
    {
      var i :| 0 <= i < |all| && all[i] == x;
      WithoutAllMember(all, gone, i);
    }
  }

  lemma {:induction false} ReachableEvidentFrom(cfg: Config, es: seq<Event>, n: nat)
    returns (before: set<Address>, after: set<Address>)
    requires n <= |es| && forall i :: n <= i < |es| ==> !Resets(cfg, Run(cfg, es[..i]), es[i])
    ensures before <= after
    ensures Evident(cfg, Run(cfg, es[..n]), before, Received(es[..n]))
    ensures Evident(cfg, Run(cfg, es), after, Received(es))
  {
    if n == |es| {
      assert es[..n] == es;
      before := ReachableEvident(cfg, es);
      after := before;
    } else {
      var m := |es| - 1;
      var init := es[..m];
      assert init[..n] == es[..n];
      assert forall i :: n <= i < m ==> init[..i] == es[..i];
      assert !Resets(cfg, Run(cfg, es[..m]), es[m]);
      before, after := ReachableEvidentFrom(cfg, init, n);
      after := LastStepEvident(cfg, es, after);
    }
  }

  /** Between reorganisations the validator set only shrinks, in order, whatever is received, produced
      or restarted; a reorganisation restores the genesis set exactly. */
  lemma SetShrinksUntilReorg(cfg: Config, es: seq<Event>, n: nat)
    requires n <= |es| && forall i :: n <= i < |es| ==> !Resets(cfg, Run(cfg, es[..i]), es[i])
    ensures Subsequence(ValidatorSet(Run(cfg, es).view), ValidatorSet(Run(cfg, es[..n]).view))
    ensures n > 0 && es[n - 1].ReceiveBlocks? && BranchOf(cfg, Run(cfg, es[..n - 1]), es[n - 1].blocks) == Reorg
            ==> ValidatorSet(Run(cfg, es[..n]).view) == ValidatorSet(GenesisView(cfg.genesis))
  {
    var before, after := ReachableEvidentFrom(cfg, es, n);
    WithoutAllSubsequence(ValidatorSet(GenesisView(cfg.genesis)), before, after);
    if n > 0 {
      ReorgRestoresSet(cfg, es[..n]);
      assert es[..n][..n - 1] == es[..n - 1] && es[..n][n - 1] == es[n - 1];
    }
  }

  lemma ReorgRestoresSet(cfg: Config, es: seq<Event>)
    requires es != []
    ensures var e := es[|es| - 1];
      e.ReceiveBlocks? && BranchOf(cfg, Run(cfg, es[..|es| - 1]), e.blocks) == Reorg
      ==> ValidatorSet(Run(cfg, es).view) == ValidatorSet(GenesisView(cfg.genesis))
  {
  }

  // ---------------------------------------------------------------- one block per height and validator

  /** An entry of the double-sign table, once written, is never changed until the node restarts. */
  lemma {:induction false} TableIsWriteOnce(cfg: Config, es: seq<Event>, n: nat)
    requires n <= |es| && forall i :: n <= i < |es| ==> !es[i].Restart?
    ensures Keeps(Run(cfg, es[..n]).seen, Run(cfg, es).seen)
  {
    if n == |es| {
      assert es[..n] == es;
    } else {
      var m := |es| - 1;
      var init := es[..m];
      TableIsWriteOnce(cfg, init, n);
      assert init[..n] == es[..n];
      var gone := ReachableEvident(cfg, init);
      gone := LastStepEvident(cfg, es, gone);
    }
  }

  /** The blocks announced by a list of messages. */
  function Announced(sent: seq<Message>): seq<Block> {
    if sent == [] then []
    else (if sent[0].NewBlockMsg? then [sent[0].block] else []) + Announced(sent[1..])
  }

  /** The received blocks that the node has taken over at its tip since moment n, which are those it
      passes on. */
  ghost function AcceptedSince(cfg: Config, es: seq<Event>, n: nat): seq<Block> {
    if |es| <= n then []
    else
      var init, e := es[..|es| - 1], es[|es| - 1];
      AcceptedSince(cfg, init, n) +
      if e.ReceiveBlock? || e.ReceiveBlocks? then Announced(Step(cfg, Run(cfg, init), e).sent) else []
  }

  lemma {:induction false} ExtendAnnounces(cfg: Config, leaders: seq<Validator>, s: NodeState, c: seq<Block>,
                                          blocks: seq<Block>)
    ensures ChainAfterAll(cfg, leaders, s, c, blocks) == c + Announced(Extend(cfg, leaders, s, blocks).sent)
    decreases |blocks|
  {
    assert c + [] == c;
    if blocks != [] {
      var b := blocks[0];
      var v := Judge(cfg, leaders, s, b);
      if v != Stop {
        ExtendAnnounces(cfg, leaders, After(cfg, s, b, v), ChainAfter(c, b, v), blocks[1..]);
        TakenFirst(c, b, Extend(cfg, leaders, After(cfg, s, b, v), blocks[1..]).sent);
      }
    }
  }

  lemma TakenFirst(c: seq<Block>, b: Block, sent: seq<Message>)
    ensures c + Announced([NewBlockMsg(b)] + sent) == (c + [b]) + Announced(sent)
  {
    AnnouncedCons(b, sent);
    assert c + ([b] + Announced(sent)) == (c + [b]) + Announced(sent);
  }

  /** What a node passes on is what it takes over: the blocks a received message adds to the chain are
      exactly those announced. */
  lemma AnnouncedAreTaken(cfg: Config, s: NodeState, c: seq<Block>, e: Event)
    requires c != [] && (e.ReceiveBlock? || e.ReceiveBlocks?)
    requires e.ReceiveBlocks? ==> BranchOf(cfg, s, e.blocks) != Reorg
    ensures HistoryAfter(cfg, s, c, e) == c + Announced(Step(cfg, s, e).sent)
  {
    assert c + [] == c;
    if e.ReceiveBlock? {
      AnnouncedCons(e.block, []);
    } else if BranchOf(cfg, s, e.blocks) == ExtendTip {
      ExtendAnnounces(cfg, ValidatorSet(s.view), s, c, e.blocks);
    } else {
      assert Announced([GetBlocksMsg(0, 10000)]) == [];
    }
  }

  /** Accepted blocks are in the table and in the store, and no two share height and validator. */
  ghost predicate AcceptedOnce(s: NodeState, acc: seq<Block>) {
    && (forall i :: 0 <= i < |acc| ==>
          SeenKey(acc[i]) in s.seen && s.seen[SeenKey(acc[i])] == acc[i].hash && acc[i].hash in s.store)
    && (forall i, j :: 0 <= i < j < |acc| ==> SeenKey(acc[i]) != SeenKey(acc[j]))
  }

  lemma TakeOnce(cfg: Config, leaders: seq<Validator>, s: NodeState, acc: seq<Block>, b: Block)
    requires AcceptedOnce(s, acc) && Acceptable(cfg, leaders, s, b) && !Conflicts(s, b)
    ensures AcceptedOnce(Recorded(s, b), acc)
    ensures AcceptedOnce(Adopted(cfg, Recorded(s, b), b), acc + [b])
  {
    forall i | 0 <= i < |acc|
      ensures SeenKey(acc[i]) != SeenKey(b)
    {
      assert SeenKey(acc[i]) in s.seen && acc[i].hash in s.store;
    }
  }

  lemma AnnouncedCons(b: Block, sent: seq<Message>)
    ensures Announced([NewBlockMsg(b)] + sent) == [b] + Announced(sent)
  {
    assert ([NewBlockMsg(b)] + sent)[1..] == sent;
  }

  lemma JudgedOnce(cfg: Config, leaders: seq<Validator>, s: NodeState, acc: seq<Block>, b: Block, v: Verdict)
    requires AcceptedOnce(s, acc) && Justified(cfg, leaders, s, b, v)
    ensures AcceptedOnce(After(cfg, s, b, v), if v == Take then acc + [b] else acc)
  {
    match v
    case Pass =>
    case Punish =>
    case _ => TakeOnce(cfg, leaders, s, acc, b);
  }

  lemma {:induction false} ExtendOnce(cfg: Config, leaders: seq<Validator>, s: NodeState, acc: seq<Block>,
                                      blocks: seq<Block>)
    requires AcceptedOnce(s, acc)
    ensures AcceptedOnce(Extend(cfg, leaders, s, blocks).state, acc + Announced(Extend(cfg, leaders, s, blocks).sent))
    decreases |blocks|
  {
    assert acc + [] == acc;
    if blocks != [] {
      var b := blocks[0];
      var v := Judge(cfg, leaders, s, b);
      JudgedOnce(cfg, leaders, s, acc, b, v);
      if v != Stop {
        ExtendOnce(cfg, leaders, After(cfg, s, b, v), if v == Take then acc + [b] else acc, blocks[1..]);
        TakenFirst(acc, b, Extend(cfg, leaders, After(cfg, s, b, v), blocks[1..]).sent);
      }
    }
  }

  lemma {:induction false} WriteAllGrows(store: Store, blocks: seq<Block>)
    ensures store.Keys <= WriteAll(store, blocks).Keys
  {
    if blocks != [] {
      WriteAllGrows(store, blocks[..|blocks| - 1]);
    }
  }

  lemma {:induction false} SyncGrows(cfg: Config, s: NodeState, blocks: seq<Block>)
    ensures s.store.Keys <= SyncEmpty(cfg, s, blocks).store.Keys
    ensures SyncEmpty(cfg, s, blocks).seen == s.seen
    decreases |blocks|
  {
    if blocks != [] {
      var b := blocks[0];
      if Validates(cfg.sha, b) && !(LastBlock(s).Some? && b.previousHash != LastBlock(s).value.hash) {
        var s1 := if LastBlock(s).None? && b.height == 0 then WithGenesisApplied(cfg, s) else s;
        SyncGrows(cfg, Adopted(cfg, s1, b), blocks[1..]);
      }
    }
  }

  lemma BlocksOnce(cfg: Config, s: NodeState, acc: seq<Block>, bs: seq<Block>)
    requires AcceptedOnce(s, acc)
    ensures AcceptedOnce(HandleBlocks(cfg, s, bs).state, acc + Announced(HandleBlocks(cfg, s, bs).sent))
  {
    assert acc + [] == acc;
    match BranchOf(cfg, s, bs)
    case ExtendTip => ExtendOnce(cfg, ValidatorSet(s.view), s, acc, bs);
    case SyncFromEmpty => SyncGrows(cfg, s, bs);
    case Reorg => WriteAllGrows(s.store, bs);
    case AskForChain => assert Announced([GetBlocksMsg(0, 10000)]) == [];
    case Ignore =>
  }

  lemma NewBlockOnce(cfg: Config, s: NodeState, acc: seq<Block>, b: Block)
    requires AcceptedOnce(s, acc)
    ensures AcceptedOnce(HandleNewBlock(cfg, s, b).state, acc + Announced(HandleNewBlock(cfg, s, b).sent))
  {
    JudgedOnce(cfg, ValidatorSet(s.view), s, acc, b, JudgeSingle(cfg, ValidatorSet(s.view), s, b));
    assert Announced([NewBlockMsg(b)]) == [b] by { AnnouncedCons(b, []); }
    assert acc + [] == acc;
  }

  lemma StepOnce(cfg: Config, s: NodeState, acc: seq<Block>, e: Event)
    requires AcceptedOnce(s, acc) && !e.Restart?
    ensures var more := if e.ReceiveBlock? || e.ReceiveBlocks? then Announced(Step(cfg, s, e).sent) else [];
      AcceptedOnce(Step(cfg, s, e).state, acc + more)
  {
    assert acc + [] == acc;
    if e.ReceiveBlock? {
      NewBlockOnce(cfg, s, acc, e.block);
    } else if e.ReceiveBlocks? {
      BlocksOnce(cfg, s, acc, e.blocks);
    }
  }

  lemma {:induction false} RunOnce(cfg: Config, es: seq<Event>, n: nat)
    requires forall i :: n <= i < |es| ==> !es[i].Restart?
    ensures AcceptedOnce(Run(cfg, es), AcceptedSince(cfg, es, n))
  {
    if |es| > n {
      var init, e := es[..|es| - 1], es[|es| - 1];
      RunOnce(cfg, init, n);
      StepOnce(cfg, Run(cfg, init), AcceptedSince(cfg, init, n), e);
    }
  }

  /** From any moment on, until the node restarts, it takes over at most one received block per height and
      validator, even across reorganisations. */
  lemma AtMostOneBlockPerHeightAndValidator(cfg: Config, es: seq<Event>, n: nat, i: nat, j: nat)
    requires forall k :: n <= k < |es| ==> !es[k].Restart?
    requires i < j < |AcceptedSince(cfg, es, n)|
    ensures var a, b := AcceptedSince(cfg, es, n)[i], AcceptedSince(cfg, es, n)[j];
      a.height != b.height || a.validator != b.validator
  {
    RunOnce(cfg, es, n);
    var acc := AcceptedSince(cfg, es, n);
    assert SeenKey(acc[i]) != SeenKey(acc[j]);
  }
}
