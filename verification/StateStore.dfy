/** The state database (state/state.go): one flat byte-keyed store that holds balances, nonces, stakes
    and the validator list, updated by loops that fill caches and write a single batch. */
module StateStore {
  import opened Words
  import opened Crypto
  import opened Blocks
  import opened Ledger
  import opened Validators

  /** Stored values: bytes, or the JSON text of a list of strings (represented by the list). */
  datatype Value = Bytes(bytes: seq<byte>) | StringList(items: seq<string>)
  type Db = map<seq<byte>, Value>

  datatype Kind = Balance | Nonce | Stake
  datatype Slot = Slot(kind: Kind, address: Address)

  /** "b:", "n:" or "vs:" followed by the 20 address bytes. */
  function Key(s: Slot): seq<byte> {
    (match s.kind case Balance => [98, 58] case Nonce => [110, 58] case Stake => [118, 115, 58]) + s.address.bytes
  }

  /** "validator_list" */
  const LIST_KEY: seq<byte> := [118, 97, 108, 105, 100, 97, 116, 111, 114, 95, 108, 105, 115, 116]

  /** No two slots share a key, and none collides with the validator list. */
  lemma KeysNeverClash(s: Slot, t: Slot)
    ensures Key(s) == Key(t) ==> s == t
    ensures Key(s) != LIST_KEY
  {
    assert Key(s)[1] in {58, 115} && LIST_KEY[1] == 97;
    if Key(s) == Key(t) {
      assert Key(s)[0] == Key(t)[0];
      var n := if s.kind == Stake then 3 else 2;
      assert s.address.bytes == Key(s)[n..] == Key(t)[n..] == t.address.bytes;
    }
  }

  function Ascii(s: string): seq<int> {
    seq(|s|, i requires 0 <= i < |s| => s[i] as int)
  }

  /** How keys are spelled. */
  lemma KeySpelling(a: Address)
    ensures Key(Slot(Balance, a)) == Ascii("b:") + a.bytes && Key(Slot(Nonce, a)) == Ascii("n:") + a.bytes
    ensures Key(Slot(Stake, a)) == Ascii("vs:") + a.bytes && LIST_KEY == Ascii("validator_list")
  {
    assert Ascii("b:") == [98, 58] && Ascii("n:") == [110, 58] && Ascii("vs:") == [118, 115, 58];
  }

  lemma {:induction false} FromBigEndianBound(s: seq<byte>)
    ensures FromBigEndian(s) < Pow256(|s|)
  {
    if s != [] {
      FromBigEndianBound(s[..|s| - 1]);
    }
  }

  /** Reading a word: zero when the key is missing or the value is too short. */
  function ReadWord(v: Value): u64 {
    if v.StringList? || |v.bytes| < 8 then 0
    else
      assert FromBigEndian(v.bytes[..8]) < TWO_64 by {
        FromBigEndianBound(v.bytes[..8]);
        WordRoundTrip(0);
        assert Pow256(8) == TWO_64 by { assert Pow256(4) == 65536 * 65536; }
      }
      FromBigEndian(v.bytes[..8])
  }

  function WordAt(db: Db, s: Slot): u64 {
    if Key(s) in db then ReadWord(db[Key(s)]) else 0
  }

  function WordValue(v: u64): Value {
    Bytes(BigEndian(8, v))
  }

  lemma ReadWordValue(v: u64)
    ensures ReadWord(WordValue(v)) == v
  {
    WordRoundTrip(v);
    assert BigEndian(8, v)[..8] == BigEndian(8, v);
  }

  function ListAt(db: Db): Option<seq<string>> {
    if LIST_KEY in db && db[LIST_KEY].StringList? then Some(db[LIST_KEY].items) else None
  }

  datatype Op = Put(key: seq<byte>, value: Value) | Delete(key: seq<byte>)

  function Step(db: Db, op: Op): Db {
    if op.Put? then db[op.key := op.value] else db - {op.key}
  }

  /** A batch is applied in order, atomically. */
  function WriteBatch(db: Db, ops: seq<Op>): Db {
    if ops == [] then db else Step(WriteBatch(db, ops[..|ops| - 1]), ops[|ops| - 1])
  }

  lemma WriteBatchSnoc(db: Db, ops: seq<Op>, op: Op)
    ensures WriteBatch(db, ops + [op]) == Step(WriteBatch(db, ops), op)
  {
    assert (ops + [op])[..|ops|] == ops;
  }

  /** Putting a word changes that slot and nothing else. */
  lemma PutWord(db: Db, s: Slot, v: u64)
    ensures forall t :: WordAt(db[Key(s) := WordValue(v)], t) == if t == s then v else WordAt(db, t)
    ensures ListAt(db[Key(s) := WordValue(v)]) == ListAt(db)
  {
    ReadWordValue(v);
    forall t: Slot
      ensures WordAt(db[Key(s) := WordValue(v)], t) == if t == s then v else WordAt(db, t)
    {
      KeysNeverClash(s, t);
    }
    KeysNeverClash(s, s);
  }

  function ViewWord(v: View, s: Slot): u64 {
    match s.kind
    case Balance => Get(v.accounts.balances, s.address)
    case Nonce => Get(v.accounts.nonces, s.address)
    case Stake => Get(v.stakes, s.address)
  }

  /** The flat store represents the separate maps. */
  ghost predicate Represents(db: Db, v: View) {
    && (forall s :: WordAt(db, s) == ViewWord(v, s))
    && ListAt(db) == v.list
    && (LIST_KEY in db ==> db[LIST_KEY].StringList?)
  }

  /** One more put in a batch, and the same update of one of the maps. */
  lemma PutRepresented(db: Db, batch: seq<Op>, v: View, v': View, s: Slot, x: u64)
    requires Represents(WriteBatch(db, batch), v)
    requires forall t :: ViewWord(v', t) == if t == s then x else ViewWord(v, t)
    requires v'.list == v.list
    ensures Represents(WriteBatch(db, batch + [Put(Key(s), WordValue(x))]), v')
  {
    WriteBatchSnoc(db, batch, Put(Key(s), WordValue(x)));
    PutWord(WriteBatch(db, batch), s, x);
    KeysNeverClash(s, s);
    var before, after := WriteBatch(db, batch), WriteBatch(db, batch + [Put(Key(s), WordValue(x))]);
    forall t: Slot
      ensures WordAt(after, t) == ViewWord(v', t)
    {
      assert WordAt(before, t) == ViewWord(v, t);
    }
  }

  lemma ListRepresented(db: Db, batch: seq<Op>, v: View, list: seq<string>)
    requires Represents(WriteBatch(db, batch), v)
    ensures Represents(WriteBatch(db, batch + [Put(LIST_KEY, StringList(list))]),
                       View(v.accounts, v.stakes, Some(list)))
  {
    WriteBatchSnoc(db, batch, Put(LIST_KEY, StringList(list)));
    var before, after := WriteBatch(db, batch), WriteBatch(db, batch + [Put(LIST_KEY, StringList(list))]);
    var v' := View(v.accounts, v.stakes, Some(list));
    forall s: Slot
      ensures WordAt(after, s) == ViewWord(v', s)
    {
      KeysNeverClash(s, s);
      assert WordAt(before, s) == ViewWord(v, s);
    }
  }

  /** The allocation in whatever order the map is iterated; the order taken is returned. */
  method BatchAllocation(ghost db: Db, ghost v: View, allocation: map<string, u64>)
    returns (batch: seq<Op>, ghost order: seq<string>)
    requires Represents(db, v)
    ensures IsOrderOf(order, allocation.Keys)
    ensures Represents(WriteBatch(db, batch), View(Allocate(v.accounts, allocation, order), v.stakes, v.list))
  {
    batch, order := [], [];
    var rest := allocation.Keys;
    while rest != {}
      invariant rest <= allocation.Keys && IsOrderOf(order, allocation.Keys - rest)
      invariant Represents(WriteBatch(db, batch), View(Allocate(v.accounts, allocation, order), v.stakes, v.list))
      decreases |rest|
    {
      var k :| k in rest;
      rest := rest - {k};
      ghost var acc := Allocate(v.accounts, allocation, order);
      assert (order + [k])[..|order|] == order;
      order := order + [k];
      var a := ParseAddress(k);
      if a.Some? {
        ghost var mid := Accounts(acc.balances[a.value := allocation[k]], acc.nonces);
        PutRepresented(db, batch, View(acc, v.stakes, v.list), View(mid, v.stakes, v.list),
                       Slot(Balance, a.value), allocation[k]);
        batch := batch + [Put(Key(Slot(Balance, a.value)), WordValue(allocation[k]))];
        PutRepresented(db, batch, View(mid, v.stakes, v.list),
                       View(Allocate(v.accounts, allocation, order), v.stakes, v.list), Slot(Nonce, a.value), 0);
        batch := batch + [Put(Key(Slot(Nonce, a.value)), WordValue(0))];
      }
    }
  }

  /** One put per entry of a sheet, in whatever order the map is iterated. */
  method BatchSheet(ghost db: Db, batch: seq<Op>, kind: Kind, sheet: Sheet) returns (out: seq<Op>)
    ensures forall s :: WordAt(WriteBatch(db, out), s) ==
              if s.kind == kind && s.address in sheet then sheet[s.address] else WordAt(WriteBatch(db, batch), s)
    ensures ListAt(WriteBatch(db, out)) == ListAt(WriteBatch(db, batch))
    ensures LIST_KEY in WriteBatch(db, out) <==> LIST_KEY in WriteBatch(db, batch)
  {
    out := batch;
    var rest := sheet.Keys;
    while rest != {}
      invariant rest <= sheet.Keys
      invariant forall s :: WordAt(WriteBatch(db, out), s) ==
                  if s.kind == kind && s.address in sheet && s.address !in rest then sheet[s.address]
                  else WordAt(WriteBatch(db, batch), s)
      invariant ListAt(WriteBatch(db, out)) == ListAt(WriteBatch(db, batch))
      invariant LIST_KEY in WriteBatch(db, out) <==> LIST_KEY in WriteBatch(db, batch)
      decreases |rest|
    {
      var a :| a in rest;
      var s := Slot(kind, a);
      WriteBatchSnoc(db, out, Put(Key(s), WordValue(sheet[a])));
      PutWord(WriteBatch(db, out), s, sheet[a]);
      KeysNeverClash(s, s);
      out := out + [Put(Key(s), WordValue(sheet[a]))];
      rest := rest - {a};
    }
  }

  method DropText(list: seq<string>, text: string) returns (rest: seq<string>)
    ensures rest == WithoutText(list, text)
  {
    rest := [];
    for i := 0 to |list|
      invariant rest == WithoutText(list[..i], text)
    {
      assert list[..i + 1][..i] == list[..i];
      if list[i] != text {
        rest := rest + [list[i]];
      }
    }
    assert list[..|list|] == list;
  }

  lemma DeleteRepresented(db: Db, batch: seq<Op>, v: View)
    requires Represents(WriteBatch(db, batch), v)
    ensures Represents(WriteBatch(db, batch + [Delete(LIST_KEY)]), View(v.accounts, v.stakes, None))
  {
    WriteBatchSnoc(db, batch, Delete(LIST_KEY));
    var before, after := WriteBatch(db, batch), WriteBatch(db, batch + [Delete(LIST_KEY)]);
    var v' := View(v.accounts, v.stakes, None);
    forall s: Slot
      ensures WordAt(after, s) == ViewWord(v', s)
    {
      KeysNeverClash(s, s);
      assert WordAt(before, s) == ViewWord(v, s);
    }
  }

  /** The batch of two writes that slashes a validator. */
  lemma SlashWritten(db: Db, v: View, a: Address, rest: seq<string>, stake: Op, last: Op)
    requires Represents(db, v) && LIST_KEY in db && rest == WithoutText(db[LIST_KEY].items, AddressHex(a))
    requires stake == Put(Key(Slot(Stake, a)), WordValue(0))
    requires last == if |rest| > 0 then Put(LIST_KEY, StringList(rest)) else Delete(LIST_KEY)
    ensures Represents(WriteBatch(db, [stake, last]), Slash(v, a))
  {
    var mid := View(v.accounts, v.stakes[a := 0], v.list);
    PutRepresented(db, [], v, mid, Slot(Stake, a), 0);
    assert [] + [stake] == [stake] && [stake] + [last] == [stake, last];
    if |rest| > 0 {
      ListRepresented(db, [stake], mid, rest);
    } else {
      DeleteRepresented(db, [stake], mid);
    }
  }

  class State {
    var db: Db
    const minStake: u64
    ghost var view: View

    ghost predicate Valid()
      reads this
    {
      Represents(db, view)
    }

    constructor (minStake: u64)
      ensures Valid() && view == EMPTY_VIEW && this.minStake == minStake
    {
      db := map[];
      this.minStake := minStake;
      view := EMPTY_VIEW;
    }

    method GetBalance(a: Address) returns (v: u64)
      requires Valid()
      ensures v == Get(view.accounts.balances, a)
    {
      assert WordAt(db, Slot(Balance, a)) == ViewWord(view, Slot(Balance, a));
      return WordAt(db, Slot(Balance, a));
    }

    method GetNonce(a: Address) returns (v: u64)
      requires Valid()
      ensures v == Get(view.accounts.nonces, a)
    {
      assert WordAt(db, Slot(Nonce, a)) == ViewWord(view, Slot(Nonce, a));
      return WordAt(db, Slot(Nonce, a));
    }

    method GetStake(a: Address) returns (v: u64)
      requires Valid()
      ensures v == Get(view.stakes, a)
    {
      assert WordAt(db, Slot(Stake, a)) == ViewWord(view, Slot(Stake, a));
      return WordAt(db, Slot(Stake, a));
    }

    method GetValidatorSet() returns (out: seq<Validator>)
      requires Valid()
      ensures out == ValidatorSet(view)
    {
      out := [];
      if LIST_KEY !in db {
        return;
      }
      var list := db[LIST_KEY].items;
      for i := 0 to |list|
        invariant out == Decoded(list[..i], view.stakes)
      {
        assert list[..i + 1][..i] == list[..i];
        var a := ParseAddress(list[i]);
        if a.Some? {
          var stake := GetStake(a.value);
          if stake > 0 {
            out := out + [Validator(a.value, stake)];
          }
        }
      }
      assert list[..|list|] == list;
    }

    method SlashValidator(a: Address)
      requires Valid()
      modifies this
      ensures Valid() && view == Slash(old(view), a)
    {
      if LIST_KEY !in db {
        return;
      }
      var rest := DropText(db[LIST_KEY].items, AddressHex(a));
      var stake := Put(Key(Slot(Stake, a)), WordValue(0));
      var last := if |rest| > 0 then Put(LIST_KEY, StringList(rest)) else Delete(LIST_KEY);
      SlashWritten(db, view, a, rest, stake, last);
      db := WriteBatch(db, [stake, last]);
      view := Slash(view, a);
    }

    /** Preload every touched account, run the transactions on the caches, credit the fees, write one
        batch.  The outcome is the plain ledger's. */
    method ApplyBlock(b: Block)
      requires Valid()
      modifies this
      ensures Valid()
      ensures view == View(Ledger.ApplyBlock(old(view).accounts, b), old(view).stakes, old(view).list)
    {
      ghost var acc := view.accounts;
      var balances: Sheet, nonces: Sheet := Preload(b.txs);
      var totalFees: u64;
      balances, nonces, totalFees := RunCached(acc, b.txs, balances, nonces);
      balances := CreditFees(b, balances, totalFees);
      Write(balances, nonces);
      view := View(Ledger.ApplyBlock(acc, b), view.stakes, view.list);
      Flushed(old(db), db, old(view), view, b, balances, nonces);
    }

    /** The producer is paid on its cached balance, so what it sent or received in the block counts. */
    method CreditFees(b: Block, balances0: Sheet, totalFees: u64) returns (balances: Sheet)
      requires Valid() && totalFees == TotalFees(b.txs)
      requires forall a :: a in balances0 <==> FirstRole(b.txs, a) != Absent
      requires forall a :: a in balances0 ==> balances0[a] == Get(RunTxs(view.accounts.balances, b.txs), a)
      ensures BalancesDone(view.accounts.balances, b, balances)
    {
      balances := balances0;
      if totalFees > 0 {
        if b.validator !in balances {
          var bal := GetBalance(b.validator);
          AbsentUntouched(view.accounts.balances, b.txs, b.validator);
          balances := balances[b.validator := bal];
        }
        balances := balances[b.validator := Add64(balances[b.validator], totalFees)];
      }
    }

    method Write(balances: Sheet, nonces: Sheet)
      modifies this`db
      ensures forall s :: WordAt(db, s) ==
                if s.kind == Nonce && s.address in nonces then nonces[s.address]
                else if s.kind == Balance && s.address in balances then balances[s.address]
                else WordAt(old(db), s)
      ensures ListAt(db) == ListAt(old(db)) && (LIST_KEY in db <==> LIST_KEY in old(db))
    {
      var batch := BatchSheet(db, [], Balance, balances);
      batch := BatchSheet(db, batch, Nonce, nonces);
      db := WriteBatch(db, batch);
    }

    /** Genesis: every allocated account with nonce zero, then the eligible validators in order. */
    method ApplyGenesis(allocation: map<string, u64>, validators: seq<GenesisValidator>)
      returns (ghost order: seq<string>)
      requires Valid()
      modifies this
      ensures Valid() && IsOrderOf(order, allocation.Keys)
      ensures view == WithGenesis(old(view), Allocate(old(view).accounts, allocation, order),
                                  Genesis(allocation, validators, minStake))
    {
      var batch: seq<Op>;
      batch, order := BatchAllocation(db, view, allocation);
      ghost var v1 := View(Allocate(view.accounts, allocation, order), view.stakes, view.list);
      var addrs: seq<string> := [];
      for i := 0 to |validators|
        invariant db == old(db) && view == old(view)
        invariant addrs == GenesisList(validators[..i], minStake)
        invariant Represents(WriteBatch(db, batch),
                             View(v1.accounts, GenesisStakes(v1.stakes, validators[..i], minStake), v1.list))
      {
        assert validators[..i + 1][..i] == validators[..i] && validators[..i + 1][i] == validators[i];
        var v := validators[i];
        var a := ParseAddress(v.address);
        if a.None? || v.stake < minStake {
          continue;
        }
        PutRepresented(db, batch, View(v1.accounts, GenesisStakes(v1.stakes, validators[..i], minStake), v1.list),
                       View(v1.accounts, GenesisStakes(v1.stakes, validators[..i + 1], minStake), v1.list),
                       Slot(Stake, a.value), v.stake);
        batch := batch + [Put(Key(Slot(Stake, a.value)), WordValue(v.stake))];
        addrs := addrs + [v.address];
      }
      assert validators[..|validators|] == validators;
      ghost var v2 := View(v1.accounts, GenesisStakes(v1.stakes, validators, minStake), v1.list);
      view := WithGenesis(view, v1.accounts, Genesis(allocation, validators, minStake));
      if |addrs| > 0 {
        ListRepresented(db, batch, v2, addrs);
        batch := batch + [Put(LIST_KEY, StringList(addrs))];
      }
      db := WriteBatch(db, batch);
    }

    /** One batch that deletes every key. */
    method Clear()
      modifies this
      ensures Valid() && view == EMPTY_VIEW
    {
      var batch: seq<Op> := [];
      var rest := db.Keys;
      while rest != {}
        invariant rest <= db.Keys && db == old(db)
        invariant WriteBatch(db, batch) == map k | k in rest :: db[k]
        decreases |rest|
      {
        var k :| k in rest;
        WriteBatchSnoc(db, batch, Delete(k));
        batch := batch + [Delete(k)];
        rest := rest - {k};
      }
      db := WriteBatch(db, batch);
      view := EMPTY_VIEW;
    }

    /** Clear the store, apply genesis, apply the blocks: nothing of the earlier state is left. */
    method ResetAndReplay(allocation: map<string, u64>, validators: seq<GenesisValidator>, blocks: seq<Block>)
      returns (ghost order: seq<string>)
      requires Valid()
      modifies this
      ensures Valid() && IsOrderOf(order, allocation.Keys)
      ensures var start := WithGenesis(EMPTY_VIEW, Allocate(EMPTY_VIEW.accounts, allocation, order),
                                        Genesis(allocation, validators, minStake));
        view == View(Replay(start.accounts, blocks), start.stakes, start.list)
    {
      Clear();
      order := ApplyGenesis(allocation, validators);
      ghost var v := view;
      for i := 0 to |blocks|
        invariant Valid() && view == View(Replay(v.accounts, blocks[..i]), v.stakes, v.list)
      {
        assert blocks[..i + 1][..i] == blocks[..i] && blocks[..i + 1][i] == blocks[i];
        this.ApplyBlock(blocks[i]);
      }
      assert blocks[..|blocks|] == blocks;
    }

    method Preload(txs: seq<Transaction>) returns (balances: Sheet, nonces: Sheet)
      requires Valid()
      ensures forall a :: a in balances <==> FirstRole(txs, a) != Absent
      ensures forall a :: a in balances ==> balances[a] == Get(view.accounts.balances, a)
      ensures nonces == LoadedNonces(view.accounts.nonces, txs)
    {
      balances, nonces := map[], map[];
      for i := 0 to |txs|
        invariant forall a :: a in balances <==> FirstRole(txs[..i], a) != Absent
        invariant forall a :: a in balances ==> balances[a] == Get(view.accounts.balances, a)
        invariant forall a :: a in nonces <==> FirstRole(txs[..i], a) == Sender
        invariant forall a :: a in nonces ==> nonces[a] == Get(view.accounts.nonces, a)
      {
        var tx := txs[i];
        assert txs[..i + 1][..i] == txs[..i] && txs[..i + 1][i] == tx;
        if tx.from !in balances {
          var bal := GetBalance(tx.from);
          balances := balances[tx.from := bal];
          var nonce := GetNonce(tx.from);
          nonces := nonces[tx.from := nonce];
        }
        if tx.to !in balances {
          var bal := GetBalance(tx.to);
          balances := balances[tx.to := bal];
        }
      }
      assert txs[..|txs|] == txs;
      LoadedIs(view.accounts.nonces, txs, nonces);
    }
  }

  lemma LoadedIs(stored: Sheet, txs: seq<Transaction>, nonces: Sheet)
    requires forall a :: a in nonces <==> FirstRole(txs, a) == Sender
    requires forall a :: a in nonces ==> nonces[a] == Get(stored, a)
    ensures nonces == LoadedNonces(stored, txs)
  {
    forall a | a in nonces
      ensures a in LoadedNonces(stored, txs)
    {
      SenderListed(txs, a);
    }
  }

  lemma RunSnoc(m: Sheet, txs: seq<Transaction>, i: nat)
    requires i < |txs|
    ensures RunTxs(m, txs[..i + 1]) == Transfer(RunTxs(m, txs[..i]), txs[i])
    ensures TotalFees(txs[..i + 1]) == Add64(TotalFees(txs[..i]), txs[i].fee)
    ensures forall w :: RunNonces(m, w, txs[..i + 1]) ==
              var v := RunNonces(m, w, txs[..i]);
              if Applies(RunTxs(m, txs[..i]), txs[i]) then v[txs[i].from := Add64(Get(v, txs[i].from), 1)] else v
  {
    assert txs[..i + 1][..i] == txs[..i] && txs[..i + 1][i] == txs[i];
  }

  /** The in-memory pass over the transactions.  Every fee is added up, before the skip test. */
  method RunCached(ghost acc: Accounts, txs: seq<Transaction>, balances0: Sheet, nonces0: Sheet)
    returns (balances: Sheet, nonces: Sheet, totalFees: u64)
    requires forall a :: a in balances0 <==> FirstRole(txs, a) != Absent
    requires forall a :: a in balances0 ==> balances0[a] == Get(acc.balances, a)
    ensures balances.Keys == balances0.Keys && totalFees == TotalFees(txs)
    ensures forall a :: a in balances ==> balances[a] == Get(RunTxs(acc.balances, txs), a)
    ensures nonces == RunNonces(acc.balances, nonces0, txs)
  {
    balances, nonces, totalFees := balances0, nonces0, 0;
    ghost var m := acc.balances;
    for i := 0 to |txs|
      invariant m == RunTxs(acc.balances, txs[..i]) && totalFees == TotalFees(txs[..i])
      invariant balances.Keys == balances0.Keys
      invariant forall a :: a in balances ==> balances[a] == Get(m, a)
      invariant nonces == RunNonces(acc.balances, nonces0, txs[..i])
    {
      RunSnoc(acc.balances, txs, i);
      RolesPresent(txs, i);
      totalFees := Add64(totalFees, txs[i].fee);
      balances, nonces := RunOne(m, txs[i], balances, nonces);
      m := Transfer(m, txs[i]);
    }
    assert txs[..|txs|] == txs;
  }

  /** One transaction on the caches: skip it, or debit, count and credit. */
  method RunOne(ghost m: Sheet, tx: Transaction, balances0: Sheet, nonces0: Sheet)
    returns (balances: Sheet, nonces: Sheet)
    requires tx.from in balances0 && tx.to in balances0
    requires forall a :: a in balances0 ==> balances0[a] == Get(m, a)
    ensures balances.Keys == balances0.Keys
    ensures forall a :: a in balances ==> balances[a] == Get(Transfer(m, tx), a)
    ensures nonces == if Applies(m, tx) then nonces0[tx.from := Add64(Get(nonces0, tx.from), 1)] else nonces0
  {
    balances, nonces := balances0, nonces0;
    var total := Add64(tx.amount, tx.fee);
    if balances[tx.from] < total {
      return;
    }
    balances := balances[tx.from := balances[tx.from] - total];
    nonces := nonces[tx.from := Add64(Get(nonces, tx.from), 1)];
    balances := balances[tx.to := Add64(balances[tx.to], tx.amount)];
  }

  lemma {:induction false} RolesPresent(txs: seq<Transaction>, i: nat)
    requires i < |txs|
    ensures FirstRole(txs, txs[i].from) != Absent && FirstRole(txs, txs[i].to) != Absent
  {
    if i < |txs| - 1 {
      RolesPresent(txs[..|txs| - 1], i);
    }
  }

  /** The balance cache after the fees: every touched account, with the plain ledger's balance. */
  ghost predicate BalancesDone(m: Sheet, b: Block, balances: Sheet) {
    && (forall a :: a in balances <==> FirstRole(b.txs, a) != Absent || (TotalFees(b.txs) > 0 && a == b.validator))
    && (forall a :: a in balances ==> balances[a] == Get(BalancesAfter(m, b), a))
  }

  /** Loaded sheets written over a store that represents the old state represent the new one. */
  lemma Flushed(db: Db, db': Db, v: View, v': View, b: Block, balances: Sheet, nonces: Sheet)
    requires Represents(db, v)
    requires BalancesDone(v.accounts.balances, b, balances)
    requires nonces == RunNonces(v.accounts.balances, LoadedNonces(v.accounts.nonces, b.txs), b.txs)
    requires forall s :: WordAt(db', s) ==
               if s.kind == Nonce && s.address in nonces then nonces[s.address]
               else if s.kind == Balance && s.address in balances then balances[s.address]
               else WordAt(db, s)
    requires ListAt(db') == ListAt(db) && (LIST_KEY in db' ==> LIST_KEY in db)
    requires v' == View(Ledger.ApplyBlock(v.accounts, b), v.stakes, v.list)
    ensures Represents(db', v')
  {
    forall s: Slot
      ensures WordAt(db', s) == ViewWord(v', s)
    {
      assert WordAt(db, s) == ViewWord(v, s);
      BalanceWord(v.accounts.balances, b, s.address, balances);
    }
  }

  lemma BalanceWord(m: Sheet, b: Block, a: Address, balances: Sheet)
    requires BalancesDone(m, b, balances)
    ensures Get(BalancesAfter(m, b), a) == if a in balances then balances[a] else Get(m, a)
  {
    if a !in balances {
      AbsentUntouched(m, b.txs, a);
    }
  }
}
