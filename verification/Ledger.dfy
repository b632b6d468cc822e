/** The plain ledger: what applying a block means for balances and nonces, one transaction at a time.
    The laws about a whole block are proved from that, and the caching form in state/state.go is proved against
    it in module StateStore. */
module Ledger {
  import opened Words
  import opened Crypto
  import opened Blocks

  type Sheet = map<Address, u64>

  /** An address that was never written reads as zero. */
  function Get(m: Sheet, a: Address): u64 {
    if a in m then m[a] else 0
  }

  datatype Accounts = Accounts(balances: Sheet, nonces: Sheet)

  /** Amount + Fee, a wrapping addition. */
  function Cost(t: Transaction): u64 {
    Add64(t.amount, t.fee)
  }

  predicate Applies(m: Sheet, t: Transaction) {
    Get(m, t.from) >= Cost(t)
  }

  /** One transaction: skipped, or debited from the sender and then credited to the receiver. */
  function Transfer(m: Sheet, t: Transaction): Sheet {
    if !Applies(m, t) then m
    else
      var debited := m[t.from := Get(m, t.from) - Cost(t)];
      debited[t.to := Add64(Get(debited, t.to), t.amount)]
  }

  function RunTxs(m: Sheet, txs: seq<Transaction>): Sheet {
    if txs == [] then m else Transfer(RunTxs(m, txs[..|txs| - 1]), txs[|txs| - 1])
  }

  /** The fees of all transactions, skipped or not, as the uint64 accumulator ends up. */
  function TotalFees(txs: seq<Transaction>): u64 {
    if txs == [] then 0 else Add64(TotalFees(txs[..|txs| - 1]), txs[|txs| - 1].fee)
  }

  function Credit(m: Sheet, a: Address, fees: u64): Sheet {
    if fees > 0 then m[a := Add64(Get(m, a), fees)] else m
  }

  function BalancesAfter(m: Sheet, b: Block): Sheet {
    Credit(RunTxs(m, b.txs), b.validator, TotalFees(b.txs))
  }

  /** How an address first appears in a block; within one transaction the sender comes first. */
  datatype Role = Absent | Sender | Receiver

  function FirstRole(txs: seq<Transaction>, a: Address): Role {
    if txs == [] then Absent
    else
      var earlier := FirstRole(txs[..|txs| - 1], a);
      var t := txs[|txs| - 1];
      if earlier != Absent then earlier
      else if t.from == a then Sender
      else if t.to == a then Receiver
      else Absent
  }

  /** How many transactions sent by `a` are applied, not skipped. */
  function AppliedBy(m: Sheet, txs: seq<Transaction>, a: Address): nat {
    if txs == [] then 0
    else
      var init := txs[..|txs| - 1];
      var t := txs[|txs| - 1];
      AppliedBy(m, init, a) + if t.from == a && Applies(RunTxs(m, init), t) then 1 else 0
  }

  function Senders(txs: seq<Transaction>): set<Address> {
    set t | t in txs :: t.from
  }

  /** The nonces a block works on: loaded only for an address first seen as a sender. */
  function LoadedNonces(nonces: Sheet, txs: seq<Transaction>): Sheet {
    map a | a in Senders(txs) && FirstRole(txs, a) == Sender :: Get(nonces, a)
  }

  /** Each applied transaction adds one to the working nonce of its sender, which is zero if not loaded. */
  function RunNonces(m: Sheet, working: Sheet, txs: seq<Transaction>): Sheet {
    if txs == [] then working
    else
      var init := txs[..|txs| - 1];
      var t := txs[|txs| - 1];
      var w := RunNonces(m, working, init);
      if Applies(RunTxs(m, init), t) then w[t.from := Add64(Get(w, t.from), 1)] else w
  }

  function NoncesAfter(acc: Accounts, txs: seq<Transaction>): Sheet {
    acc.nonces + RunNonces(acc.balances, LoadedNonces(acc.nonces, txs), txs)
  }

  function ApplyBlock(acc: Accounts, b: Block): Accounts {
    Accounts(BalancesAfter(acc.balances, b), NoncesAfter(acc, b.txs))
  }

  /** Blocks applied in order. */
  function Replay(acc: Accounts, blocks: seq<Block>): Accounts {
    if blocks == [] then acc else ApplyBlock(Replay(acc, blocks[..|blocks| - 1]), blocks[|blocks| - 1])
  }

  // ---------------------------------------------------------------- frame of a block

  lemma {:induction false} AbsentUntouched(m: Sheet, txs: seq<Transaction>, a: Address)
    requires FirstRole(txs, a) == Absent
    ensures Get(RunTxs(m, txs), a) == Get(m, a)
    ensures AppliedBy(m, txs, a) == 0
  {
    if txs != [] {
      AbsentUntouched(m, txs[..|txs| - 1], a);
    }
  }

  lemma {:induction false} SenderListed(txs: seq<Transaction>, a: Address)
    requires FirstRole(txs, a) == Sender
    ensures a in Senders(txs)
  {
    var init, t := txs[..|txs| - 1], txs[|txs| - 1];
    assert t in txs;
    if FirstRole(init, a) == Sender {
      SenderListed(init, a);
      var u :| u in init && u.from == a;
      assert u in txs;
    }
  }

  // ---------------------------------------------------------------- nonces

  /** The working nonce of one address, in closed form. */
  lemma {:induction false} RunNoncesCount(m: Sheet, working: Sheet, txs: seq<Transaction>, a: Address)
    ensures Get(RunNonces(m, working, txs), a) == Wrap(Get(working, a) + AppliedBy(m, txs, a))
  {
    if txs != [] {
      var init, t := txs[..|txs| - 1], txs[|txs| - 1];
      RunNoncesCount(m, working, init, a);
      CountOne(RunNonces(m, working, init), t.from, a, Get(working, a) + AppliedBy(m, init, a));
    }
  }

  lemma {:induction false} RunNoncesDomain(m: Sheet, working: Sheet, txs: seq<Transaction>, a: Address)
    ensures a in RunNonces(m, working, txs) <==> a in working || AppliedBy(m, txs, a) > 0
  {
    if txs != [] {
      RunNoncesDomain(m, working, txs[..|txs| - 1], a);
    }
  }

  lemma CountOne(w: Sheet, sender: Address, a: Address, k: nat)
    requires Get(w, a) == Wrap(k)
    ensures Get(w[sender := Add64(Get(w, sender), 1)], a) == Wrap(k + if sender == a then 1 else 0)
  {
    WrapAdd(k, 1);
  }

  predicate Names(t: Transaction, a: Address) {
    t.from == a || t.to == a
  }

  /** Transaction i is the first that names `a`. */
  predicate FirstNamedAt(txs: seq<Transaction>, a: Address, i: nat) {
    i < |txs| && Names(txs[i], a) && forall j :: 0 <= j < i ==> !Names(txs[j], a)
  }

  ghost predicate FirstSends(txs: seq<Transaction>, a: Address) {
    exists i: nat :: FirstNamedAt(txs, a, i) && txs[i].from == a
  }

  ghost predicate FirstReceives(txs: seq<Transaction>, a: Address) {
    exists i: nat :: FirstNamedAt(txs, a, i) && txs[i].from != a
  }

  /** What the first role means: decided by the first transaction that names the address, and a transaction
      to oneself counts as sending. */
  lemma {:induction false} FirstRoleAt(txs: seq<Transaction>, a: Address, i: nat)
    requires FirstNamedAt(txs, a, i)
    ensures FirstRole(txs, a) == if txs[i].from == a then Sender else Receiver
  {
    var n := |txs| - 1;
    if i < n {
      FirstRoleAt(txs[..n], a, i);
    } else {
      UnnamedAbsent(txs[..n], a);
    }
  }

  lemma {:induction false} UnnamedAbsent(txs: seq<Transaction>, a: Address)
    requires forall j :: 0 <= j < |txs| ==> !Names(txs[j], a)
    ensures FirstRole(txs, a) == Absent
  {
    if txs != [] {
      UnnamedAbsent(txs[..|txs| - 1], a);
      assert !Names(txs[|txs| - 1], a);
    }
  }

  /** Transaction i is sent by `a` and finds enough on its account. */
  predicate AppliedAt(m: Sheet, txs: seq<Transaction>, a: Address, i: nat)
    requires i < |txs|
  {
    txs[i].from == a && !SkippedAt(m, txs, i)
  }

  ghost function AppliedIndices(m: Sheet, txs: seq<Transaction>, n: nat, a: Address): set<nat>
    requires n <= |txs|
  {
    set i: nat {:trigger AppliedAt(m, txs, a, i)} | i < n && AppliedAt(m, txs, a, i)
  }

  lemma AppliedIndicesSnoc(m: Sheet, txs: seq<Transaction>, k: nat, a: Address)
    requires k < |txs|
    ensures AppliedIndices(m, txs, k + 1, a) ==
            AppliedIndices(m, txs, k, a) + if AppliedAt(m, txs, a, k) then {k} else {}
  {
  }

  lemma AppliedBySnoc(m: Sheet, txs: seq<Transaction>, k: nat, a: Address)
    requires k < |txs|
    ensures AppliedBy(m, txs[..k + 1], a) == AppliedBy(m, txs[..k], a) + if AppliedAt(m, txs, a, k) then 1 else 0
  {
    assert txs[..k + 1][..k] == txs[..k] && txs[..k + 1][k] == txs[k];
  }

  lemma {:induction false} AppliedIsCount(m: Sheet, txs: seq<Transaction>, n: nat, a: Address)
    requires n <= |txs|
    ensures AppliedBy(m, txs[..n], a) == |AppliedIndices(m, txs, n, a)|
  {
    if n == 0 {
      assert AppliedIndices(m, txs, 0, a) == {};
    } else {
      AppliedIsCount(m, txs, n - 1, a);
      AppliedBySnoc(m, txs, n - 1, a);
      AppliedIndicesSnoc(m, txs, n - 1, a);
      assert n - 1 !in AppliedIndices(m, txs, n - 1, a);
    }
  }

  lemma NonceByRole(acc: Accounts, b: Block, a: Address) returns (n: nat, was: u64, now: u64)
    ensures n == AppliedBy(acc.balances, b.txs, a)
    ensures was == Get(acc.nonces, a) && now == Get(ApplyBlock(acc, b).nonces, a)
    ensures FirstRole(b.txs, a) == Sender ==> now == Wrap(was + n)
    ensures FirstRole(b.txs, a) == Receiver ==> now == if n > 0 then Wrap(n) else was
    ensures FirstRole(b.txs, a) == Absent ==> now == was && n == 0
  {
    n, was, now := AppliedBy(acc.balances, b.txs, a), Get(acc.nonces, a), Get(ApplyBlock(acc, b).nonces, a);
    RunNoncesCount(acc.balances, LoadedNonces(acc.nonces, b.txs), b.txs, a);
    RunNoncesDomain(acc.balances, LoadedNonces(acc.nonces, b.txs), b.txs, a);
    if FirstRole(b.txs, a) == Sender {
      SenderListed(b.txs, a);
    } else if FirstRole(b.txs, a) == Absent {
      AbsentUntouched(acc.balances, b.txs, a);
    }
  }

  /** The nonce law the code obeys, with n the number of transactions of `a` in the block that find enough
      on its account.  If the first transaction that names `a` is sent by it, to whomever, its nonce rises
      by n.  If that transaction is sent to `a` by another address and n > 0, its nonce restarts and becomes
      n.  Otherwise it is unchanged.  All modulo 2^64. */
  lemma NonceLaw(acc: Accounts, b: Block, a: Address) returns (n: nat, was: u64, now: u64)
    ensures n == |AppliedIndices(acc.balances, b.txs, |b.txs|, a)|
    ensures was == Get(acc.nonces, a) && now == Get(ApplyBlock(acc, b).nonces, a)
    ensures FirstSends(b.txs, a) ==> now == (was + n) % TWO_64
    ensures FirstReceives(b.txs, a) ==> now == if n > 0 then n % TWO_64 else was
    ensures !FirstSends(b.txs, a) && !FirstReceives(b.txs, a) ==> now == was && n == 0
  {
    n, was, now := NonceByRole(acc, b, a);
    WholeCount(acc.balances, b.txs, a);
    WrapIsMod(n);
    WrapIsMod(was + n);
    RoleIff(b.txs, a);
  }

  lemma WholeCount(m: Sheet, txs: seq<Transaction>, a: Address)
    ensures AppliedBy(m, txs, a) == |AppliedIndices(m, txs, |txs|, a)|
  {
    AppliedIsCount(m, txs, |txs|, a);
    assert txs[..|txs|] == txs;
  }

  lemma RoleIff(txs: seq<Transaction>, a: Address)
    ensures FirstRole(txs, a) == Sender <==> FirstSends(txs, a)
    ensures FirstRole(txs, a) == Receiver <==> FirstReceives(txs, a)
  {
    forall i: nat | FirstNamedAt(txs, a, i)
      ensures FirstRole(txs, a) == if txs[i].from == a then Sender else Receiver
    {
      FirstRoleAt(txs, a, i);
    }
    if FirstRole(txs, a) != Absent {
      var i := FirstNamed(txs, a);
    }
  }

  /** A transaction to oneself counts as sending: the nonce goes up by one. */
  lemma SelfTransferCounts(acc: Accounts, b: Block, a: Address, fee: u64)
    requires b.txs == [Transaction(a, a, 0, fee, 0, [], [])] && Get(acc.balances, a) >= fee
    ensures Get(ApplyBlock(acc, b).nonces, a) == (Get(acc.nonces, a) + 1) % TWO_64
  {
    var n, was, now := NonceLaw(acc, b, a);
    assert FirstNamedAt(b.txs, a, 0) && FirstSends(b.txs, a);
    assert b.txs[..0] == [] && RunTxs(acc.balances, b.txs[..0]) == acc.balances;
    assert AppliedAt(acc.balances, b.txs, a, 0);
    assert AppliedIndices(acc.balances, b.txs, 1, a) == {0};
  }

  /** The law the documentation states: each applied transaction adds one to its sender's nonce.
      The code agrees with it exactly unless `a` has a nonzero stored nonce, the first transaction that
      names it is sent to it by another address, and it sends an applied transaction in the same block. */
  lemma DocumentedNonceLawIff(acc: Accounts, b: Block, a: Address) returns (n: nat, was: u64, now: u64)
    ensures n == |AppliedIndices(acc.balances, b.txs, |b.txs|, a)|
    ensures was == Get(acc.nonces, a) && now == Get(ApplyBlock(acc, b).nonces, a)
    ensures now == (was + n) % TWO_64
       <==> !(was != 0 && n > 0 && FirstReceives(b.txs, a))
  {
    n, was, now := NonceLaw(acc, b, a);
    ModShift(was, n);
    RoleIff(b.txs, a);
  }

  lemma ModShift(v: u64, n: nat)
    ensures (v + n) % TWO_64 == n % TWO_64 <==> v == 0
    ensures n == 0 ==> (v + n) % TWO_64 == v
  {
    WrapShift(v, n);
    WrapIsMod(v + n);
    WrapIsMod(n);
  }

  lemma {:induction false} FirstNamed(txs: seq<Transaction>, a: Address) returns (i: nat)
    requires FirstRole(txs, a) != Absent
    ensures FirstNamedAt(txs, a, i)
  {
    var n := |txs| - 1;
    if FirstRole(txs[..n], a) != Absent {
      i := FirstNamed(txs[..n], a);
    } else {
      i := n;
      AbsentUnnamed(txs[..n], a);
      assert forall j :: 0 <= j < n ==> txs[..n][j] == txs[j];
    }
  }

  lemma {:induction false} AbsentUnnamed(txs: seq<Transaction>, a: Address)
    requires FirstRole(txs, a) == Absent
    ensures forall j :: 0 <= j < |txs| ==> !Names(txs[j], a)
  {
    if txs != [] {
      AbsentUnnamed(txs[..|txs| - 1], a);
      assert forall j :: 0 <= j < |txs| - 1 ==> txs[..|txs| - 1][j] == txs[j];
    }
  }

  /** A block in which the documented rule fails: `a`, whose stored nonce is not zero, first receives and
      then sends.  Its nonce after the block is 1. */
  lemma ReceiverNonceRestarts(acc: Accounts, b: Block, a: Address, x: Address)
    requires a != x && Get(acc.nonces, a) != 0
    requires b.txs == [Transaction(x, a, 0, 0, 0, [], []), Transaction(a, x, 0, 0, 0, [], [])]
    ensures Get(ApplyBlock(acc, b).nonces, a) == 1
    ensures AppliedBy(acc.balances, b.txs, a) == 1 && Wrap(Get(acc.nonces, a) + 1) != 1
  {
    var t := b.txs[0];
    assert b.txs[..1] == [t] && [t][..0] == [];
    assert FirstRole([t][..0], a) == Absent && FirstRole([t], a) == Receiver && AppliedBy(acc.balances, [t], a) == 0;
    var n, was, now := NonceByRole(acc, b, a);
    WrapShift(was, 1);
  }

  lemma WrapShift(v: u64, n: nat)
    ensures Wrap(v + n) == Wrap(n) <==> v == 0
  {
    WrapAdd(n, v);
  }

  // ---------------------------------------------------------------- balances

  /** What `a` pays and gets in the transactions that are applied, over the naturals. */
  function Paid(m: Sheet, txs: seq<Transaction>, a: Address): nat {
    if txs == [] then 0
    else
      var init := txs[..|txs| - 1];
      var t := txs[|txs| - 1];
      Paid(m, init, a) + if t.from == a && Applies(RunTxs(m, init), t) then t.amount + t.fee else 0
  }

  function Got(m: Sheet, txs: seq<Transaction>, a: Address): nat {
    if txs == [] then 0
    else
      var init := txs[..|txs| - 1];
      var t := txs[|txs| - 1];
      Got(m, init, a) + if t.to == a && Applies(RunTxs(m, init), t) then t.amount else 0
  }

  lemma TransferMoves(m: Sheet, t: Transaction, a: Address) returns (k: int)
    requires Applies(m, t)
    ensures Get(Transfer(m, t), a) == Get(m, a) - (if t.from == a then t.amount + t.fee else 0)
                                      + (if t.to == a then t.amount else 0) + k * TWO_64
  {
    var paid := if t.from == a && t.amount + t.fee >= TWO_64 then 1 else 0;
    var debited := m[t.from := Get(m, t.from) - Cost(t)];
    var got := if t.to == a && Get(debited, t.to) + t.amount >= TWO_64 then 1 else 0;
    k := paid - got;
  }

  lemma {:induction false} RunMoves(m: Sheet, txs: seq<Transaction>, a: Address) returns (k: int)
    ensures Get(RunTxs(m, txs), a) == Get(m, a) - Paid(m, txs, a) + Got(m, txs, a) + k * TWO_64
  {
    k := 0;
    if txs != [] {
      var init, t := txs[..|txs| - 1], txs[|txs| - 1];
      k := RunMoves(m, init, a);
      if Applies(RunTxs(m, init), t) {
        var j := TransferMoves(RunTxs(m, init), t, a);
        k := k + j;
      }
    }
  }

  /** The balance law: modulo 2^64, every balance after a block is the one before it, less what its owner
      pays and plus what it gets in applied transactions, plus all fees of the block for the producer. */
  lemma BalanceLaw(m: Sheet, b: Block, a: Address) returns (k: int)
    ensures Get(BalancesAfter(m, b), a) == Get(m, a) - Paid(m, b.txs, a) + Got(m, b.txs, a)
                                           + (if a == b.validator then FeeSum(b.txs) else 0) + k * TWO_64
  {
    k := RunMoves(m, b.txs, a);
    TotalFeesIs(b.txs);
    if a == b.validator {
      k := k - FeeWraps(b.txs) - ProducerWraps(m, b);
    }
  }

  /** When a transaction is skipped: its sender then holds less than amount plus fee, taken modulo 2^64. */
  lemma SkippedIff(m: Sheet, txs: seq<Transaction>, i: nat)
    requires i < |txs|
    ensures SkippedAt(m, txs, i) <==> Get(RunTxs(m, txs[..i]), txs[i].from) < (txs[i].amount + txs[i].fee) % TWO_64
  {
  }

  // ---------------------------------------------------------------- supply

  lemma FewerWithout(m: Sheet, a: Address)
    requires a in m
    ensures |m - {a}| < |m|
  {
    assert m.Keys == (m - {a}).Keys + {a};
  }

  /** The sum of all balances. */
  ghost function Supply(m: Sheet): nat
    decreases |m|
  {
    if m == map[] then 0
    else
      var a :| a in m;
      FewerWithout(m, a);
      m[a] + Supply(m - {a})
  }

  lemma {:induction false} SupplyRemove(m: Sheet, a: Address)
    requires a in m
    ensures Supply(m) == m[a] + Supply(m - {a})
    decreases |m|
  {
    var c :| c in m && Supply(m) == m[c] + Supply(m - {c});
    if a != c {
      FewerWithout(m, c);
      FewerWithout(m, a);
      SupplyRemove(m - {c}, a);
      SupplyRemove(m - {a}, c);
      assert m - {c} - {a} == m - {a} - {c};
    }
  }

  /** Writing one balance moves the supply by exactly the change of that balance. */
  lemma SupplyPut(m: Sheet, a: Address, v: u64)
    ensures Supply(m[a := v]) == Supply(m) - Get(m, a) + v
  {
    var w := m[a := v];
    SupplyRemove(w, a);
    if a in m {
      SupplyRemove(m, a);
      assert w - {a} == m - {a};
    } else {
      assert w - {a} == m;
    }
  }

  lemma BalanceWithinSupply(m: Sheet, a: Address)
    ensures Get(m, a) <= Supply(m)
  {
    if a in m {
      SupplyRemove(m, a);
    }
  }

  /** Fees over the naturals: of all transactions, and of the skipped ones only. */
  function FeeSum(txs: seq<Transaction>): nat {
    if txs == [] then 0 else FeeSum(txs[..|txs| - 1]) + txs[|txs| - 1].fee
  }

  function SkippedFees(m: Sheet, txs: seq<Transaction>): nat {
    if txs == [] then 0
    else
      var init := txs[..|txs| - 1];
      var t := txs[|txs| - 1];
      SkippedFees(m, init) + if Applies(RunTxs(m, init), t) then 0 else t.fee
  }

  // How often uint64 arithmetic wraps while a block is applied.

  /** Applied transactions whose Amount + Fee overflows: the sender pays 2^64 too little. */
  function CostWraps(m: Sheet, txs: seq<Transaction>): nat {
    if txs == [] then 0
    else
      var init := txs[..|txs| - 1];
      var t := txs[|txs| - 1];
      CostWraps(m, init) + if Applies(RunTxs(m, init), t) && t.amount + t.fee >= TWO_64 then 1 else 0
  }

  /** The receiver's balance overflows when the transaction is applied. */
  predicate CreditWrapsAt(m: Sheet, t: Transaction) {
    Applies(m, t) && Get(m[t.from := Get(m, t.from) - Cost(t)], t.to) + t.amount >= TWO_64
  }

  function CreditWraps(m: Sheet, txs: seq<Transaction>): nat {
    if txs == [] then 0
    else
      var init := txs[..|txs| - 1];
      CreditWraps(m, init) + if CreditWrapsAt(RunTxs(m, init), txs[|txs| - 1]) then 1 else 0
  }

  /** Overflows of the running fee total. */
  function FeeWraps(txs: seq<Transaction>): nat {
    if txs == [] then 0
    else
      var init := txs[..|txs| - 1];
      FeeWraps(init) + if TotalFees(init) + txs[|txs| - 1].fee >= TWO_64 then 1 else 0
  }

  /** Whether the producer's balance overflows when it is credited. */
  function ProducerWraps(m: Sheet, b: Block): nat {
    if Get(RunTxs(m, b.txs), b.validator) + TotalFees(b.txs) >= TWO_64 then 1 else 0
  }

  lemma TransferSupply(m: Sheet, t: Transaction)
    requires Applies(m, t)
    ensures Supply(Transfer(m, t)) == Supply(m) - t.fee
            + (if t.amount + t.fee >= TWO_64 then TWO_64 else 0) - (if CreditWrapsAt(m, t) then TWO_64 else 0)
  {
    var debited := m[t.from := Get(m, t.from) - Cost(t)];
    SupplyPut(m, t.from, Get(m, t.from) - Cost(t));
    SupplyPut(debited, t.to, Add64(Get(debited, t.to), t.amount));
  }

  lemma {:induction false} RunSupply(m: Sheet, txs: seq<Transaction>)
    ensures Supply(RunTxs(m, txs)) == Supply(m) - FeeSum(txs) + SkippedFees(m, txs)
            + (CostWraps(m, txs) - CreditWraps(m, txs)) * TWO_64
  {
    if txs != [] {
      var init, t := txs[..|txs| - 1], txs[|txs| - 1];
      RunSupply(m, init);
      if Applies(RunTxs(m, init), t) {
        TransferSupply(RunTxs(m, init), t);
      }
    }
  }

  lemma {:induction false} SkippedWithinFees(m: Sheet, txs: seq<Transaction>)
    ensures SkippedFees(m, txs) <= FeeSum(txs)
  {
    if txs != [] {
      SkippedWithinFees(m, txs[..|txs| - 1]);
    }
  }

  predicate Fits(txs: seq<Transaction>) {
    forall i :: 0 <= i < |txs| ==> txs[i].amount + txs[i].fee < TWO_64
  }

  lemma {:induction false} FittingCosts(m: Sheet, txs: seq<Transaction>)
    requires Fits(txs)
    ensures CostWraps(m, txs) == 0
  {
    if txs != [] {
      FittingCosts(m, txs[..|txs| - 1]);
    }
  }

  lemma {:induction false} TotalFeesIs(txs: seq<Transaction>)
    ensures TotalFees(txs) == FeeSum(txs) - FeeWraps(txs) * TWO_64
  {
    if txs != [] {
      TotalFeesIs(txs[..|txs| - 1]);
    }
  }

  lemma CreditSupply(m: Sheet, a: Address, fees: u64)
    ensures Supply(Credit(m, a, fees)) == Supply(m) + fees - if Get(m, a) + fees >= TWO_64 then TWO_64 else 0
  {
    if fees > 0 {
      SupplyPut(m, a, Add64(Get(m, a), fees));
    }
  }

  /** Exact supply law, for every block and every sheet.  The supply grows by the fees of exactly the
      skipped transactions, by 2^64 for each applied transaction whose cost overflows, and shrinks by
      2^64 for each credit of a receiver, of the fee total or of the producer that overflows. */
  lemma SupplyLaw(m: Sheet, b: Block)
    ensures Supply(BalancesAfter(m, b)) == Supply(m) + SkippedFees(m, b.txs)
            + (CostWraps(m, b.txs) - CreditWraps(m, b.txs) - FeeWraps(b.txs) - ProducerWraps(m, b)) * TWO_64
  {
    RunSupply(m, b.txs);
    TotalFeesIs(b.txs);
    CreditSupply(RunTxs(m, b.txs), b.validator, TotalFees(b.txs));
  }

  /** What a block adds to the supply. */
  function Drift(m: Sheet, b: Block): int {
    SkippedFees(m, b.txs)
    + (CostWraps(m, b.txs) - CreditWraps(m, b.txs) - FeeWraps(b.txs) - ProducerWraps(m, b)) * TWO_64
  }

  function ChainDrift(acc: Accounts, blocks: seq<Block>): int {
    if blocks == [] then 0
    else
      var init := blocks[..|blocks| - 1];
      ChainDrift(acc, init) + Drift(Replay(acc, init).balances, blocks[|blocks| - 1])
  }

  /** The supply after any chain, exactly. */
  lemma {:induction false} ChainSupplyLaw(acc: Accounts, blocks: seq<Block>)
    ensures Supply(Replay(acc, blocks).balances) == Supply(acc.balances) + ChainDrift(acc, blocks)
  {
    if blocks != [] {
      var init := blocks[..|blocks| - 1];
      ChainSupplyLaw(acc, init);
      SupplyLaw(Replay(acc, init).balances, blocks[|blocks| - 1]);
    }
  }

  /** Transaction i of the list finds too little on its sender's account and is skipped. */
  predicate SkippedAt(m: Sheet, txs: seq<Transaction>, i: nat)
    requires i < |txs|
  {
    !Applies(RunTxs(m, txs[..i]), txs[i])
  }

  lemma SkippedAtPrefix(m: Sheet, txs: seq<Transaction>, n: nat, i: nat)
    requires i < n <= |txs|
    ensures SkippedAt(m, txs[..n], i) == SkippedAt(m, txs, i)
  {
    assert txs[..n][..i] == txs[..i];
  }

  /** Transaction i is applied or free. */
  predicate FreeAt(m: Sheet, txs: seq<Transaction>, i: nat)
    requires i < |txs|
  {
    SkippedAt(m, txs, i) ==> txs[i].fee == 0
  }

  predicate SkippedAreFree(m: Sheet, txs: seq<Transaction>) {
    forall i {:trigger FreeAt(m, txs, i)} :: 0 <= i < |txs| ==> FreeAt(m, txs, i)
  }

  lemma FreeAtPrefix(m: Sheet, txs: seq<Transaction>, n: nat, i: nat)
    requires i < n <= |txs|
    ensures FreeAt(m, txs[..n], i) == FreeAt(m, txs, i)
  {
    SkippedAtPrefix(m, txs, n, i);
  }

  lemma SkippedAreFreeSnoc(m: Sheet, txs: seq<Transaction>, n: nat)
    requires |txs| == n + 1
    ensures SkippedAreFree(m, txs) <==> SkippedAreFree(m, txs[..n]) && FreeAt(m, txs, n)
  {
    forall i {:trigger FreeAt(m, txs, i)} {:trigger FreeAt(m, txs[..n], i)} | 0 <= i < n
      ensures FreeAt(m, txs[..n], i) == FreeAt(m, txs, i)
    {
      FreeAtPrefix(m, txs, n, i);
    }
  }

  lemma {:induction false} SkippedFeesZeroIff(m: Sheet, txs: seq<Transaction>)
    ensures SkippedFees(m, txs) == 0 <==> SkippedAreFree(m, txs)
  {
    if txs != [] {
      SkippedFeesZeroIff(m, txs[..|txs| - 1]);
      SkippedAreFreeSnoc(m, txs, |txs| - 1);
    }
  }

  /** The documentation promises a constant supply: no minting, and fees of applied transactions only.
      A block conserves the supply exactly when what skipped fees and overflowing costs create is what
      overflowing credits destroy. */
  lemma ConservationIff(m: Sheet, b: Block)
    ensures Supply(BalancesAfter(m, b)) == Supply(m)
       <==> SkippedFees(m, b.txs) + CostWraps(m, b.txs) * TWO_64
            == (CreditWraps(m, b.txs) + FeeWraps(b.txs) + ProducerWraps(m, b)) * TWO_64
  {
    SupplyLaw(m, b);
  }

  /** When the supply and all fees together fit into uint64, a block conserves the supply exactly when
      every skipped transaction is free and as many costs as credits overflow; if no cost overflows,
      exactly when every skipped transaction is free. */
  lemma FittingConservationIff(m: Sheet, b: Block)
    requires Supply(m) + FeeSum(b.txs) < TWO_64
    ensures Supply(BalancesAfter(m, b)) == Supply(m)
       <==> SkippedAreFree(m, b.txs) && CostWraps(m, b.txs) == CreditWraps(m, b.txs) + ProducerWraps(m, b)
    ensures Fits(b.txs) ==> (Supply(BalancesAfter(m, b)) == Supply(m) <==> SkippedAreFree(m, b.txs))
  {
    SupplyLaw(m, b);
    TotalFeesIs(b.txs);
    assert FeeWraps(b.txs) == 0;
    SkippedWithinFees(m, b.txs);
    SkippedFeesZeroIff(m, b.txs);
    BalancedIff(Supply(m), Supply(BalancesAfter(m, b)), SkippedFees(m, b.txs), CostWraps(m, b.txs),
                CreditWraps(m, b.txs) + ProducerWraps(m, b));
    if Fits(b.txs) {
      FittingCosts(m, b.txs);
    }
  }

  lemma BalancedIff(before: nat, after: nat, skipped: nat, made: nat, lost: nat)
    requires after == before + skipped + (made - lost) * TWO_64 && before + skipped < TWO_64
    ensures after == before <==> skipped == 0 && made == lost
    ensures made == 0 ==> lost == 0
  {
  }

  /** A block in which nothing is skipped and no Amount + Fee overflows. */
  ghost predicate CleanBlock(m: Sheet, b: Block) {
    Fits(b.txs) && forall i | 0 <= i < |b.txs| :: !SkippedAt(m, b.txs, i)
  }

  ghost predicate CleanChain(acc: Accounts, blocks: seq<Block>) {
    forall n | 0 <= n < |blocks| :: CleanBlock(Replay(acc, blocks[..n]).balances, blocks[n])
  }

  /** No uint64 addition made while applying the block exceeds 2^64: neither a sender's cost, nor a
      receiver's credit, nor the running fee total, nor the producer's credit. */
  ghost predicate NothingWraps(m: Sheet, b: Block) {
    && (forall i | 0 <= i < |b.txs| :: StepFits(RunTxs(m, b.txs[..i]), TotalFees(b.txs[..i]), b.txs[i]))
    && Get(RunTxs(m, b.txs), b.validator) + TotalFees(b.txs) < TWO_64
  }

  ghost predicate StepFits(m: Sheet, fees: u64, t: Transaction) {
    && t.amount + t.fee < TWO_64
    && fees + t.fee < TWO_64
    && (Applies(m, t) ==> Get(m[t.from := Get(m, t.from) - Cost(t)], t.to) + t.amount < TWO_64)
  }

  lemma CleanStep(m: Sheet, fees: u64, t: Transaction)
    requires Applies(m, t) && t.amount + t.fee < TWO_64 && Supply(m) + fees < TWO_64
    ensures StepFits(m, fees, t)
    ensures Supply(Transfer(m, t)) + t.fee == Supply(m)
  {
    TransferSupply(m, t);
    BalanceWithinSupply(m, t.from);
    var debited := m[t.from := Get(m, t.from) - Cost(t)];
    SupplyPut(m, t.from, Get(m, t.from) - Cost(t));
    BalanceWithinSupply(debited, t.to);
  }

  /** While nothing is skipped, the fees collected so far and the balances left add up to the supply. */
  lemma {:induction false} CleanPrefix(m: Sheet, b: Block, n: nat)
    requires CleanBlock(m, b) && Supply(m) < TWO_64 && n <= |b.txs|
    ensures Supply(RunTxs(m, b.txs[..n])) + TotalFees(b.txs[..n]) == Supply(m)
  {
    if n > 0 {
      CleanPrefix(m, b, n - 1);
      CleanStepAt(m, b, n - 1);
    }
  }

  lemma CleanStepAt(m: Sheet, b: Block, n: nat)
    requires CleanBlock(m, b) && n < |b.txs|
    requires Supply(RunTxs(m, b.txs[..n])) + TotalFees(b.txs[..n]) < TWO_64
    ensures StepFits(RunTxs(m, b.txs[..n]), TotalFees(b.txs[..n]), b.txs[n])
    ensures Supply(RunTxs(m, b.txs[..n + 1])) + TotalFees(b.txs[..n + 1])
         == Supply(RunTxs(m, b.txs[..n])) + TotalFees(b.txs[..n])
  {
    assert b.txs[..n + 1][..n] == b.txs[..n] && b.txs[..n + 1][n] == b.txs[n];
    assert !SkippedAt(m, b.txs, n);
    CleanStep(RunTxs(m, b.txs[..n]), TotalFees(b.txs[..n]), b.txs[n]);
  }

  lemma CleanBlockKeepsSupply(m: Sheet, b: Block)
    requires CleanBlock(m, b) && Supply(m) < TWO_64
    ensures Supply(BalancesAfter(m, b)) == Supply(m) && NothingWraps(m, b)
  {
    forall n | 0 <= n < |b.txs|
      ensures StepFits(RunTxs(m, b.txs[..n]), TotalFees(b.txs[..n]), b.txs[n])
    {
      CleanPrefix(m, b, n);
      CleanStepAt(m, b, n);
    }
    CleanPrefix(m, b, |b.txs|);
    assert b.txs[..|b.txs|] == b.txs;
    BalanceWithinSupply(RunTxs(m, b.txs), b.validator);
    CreditSupply(RunTxs(m, b.txs), b.validator, TotalFees(b.txs));
  }

  lemma ReplaySnoc(acc: Accounts, blocks: seq<Block>, n: nat)
    requires n < |blocks|
    ensures Replay(acc, blocks[..n + 1]) == ApplyBlock(Replay(acc, blocks[..n]), blocks[n])
  {
    assert blocks[..n + 1][..n] == blocks[..n] && blocks[..n + 1][n] == blocks[n];
  }

  lemma {:induction false} CleanPrefixKeepsSupply(acc: Accounts, blocks: seq<Block>, n: nat)
    requires CleanChain(acc, blocks) && Supply(acc.balances) < TWO_64 && n <= |blocks|
    ensures Supply(Replay(acc, blocks[..n]).balances) == Supply(acc.balances)
  {
    if n > 0 {
      CleanPrefixKeepsSupply(acc, blocks, n - 1);
      ReplaySnoc(acc, blocks, n - 1);
      CleanBlockKeepsSupply(Replay(acc, blocks[..n - 1]).balances, blocks[n - 1]);
    }
  }

  /** Fixed supply along a whole chain: at every height the balances sum to what genesis allocated,
      and no machine addition wraps on the way. */
  lemma ChainKeepsSupply(acc: Accounts, blocks: seq<Block>, n: nat)
    requires CleanChain(acc, blocks) && Supply(acc.balances) < TWO_64 && n <= |blocks|
    ensures Supply(Replay(acc, blocks[..n]).balances) == Supply(acc.balances)
    ensures n < |blocks| ==> NothingWraps(Replay(acc, blocks[..n]).balances, blocks[n])
  {
    CleanPrefixKeepsSupply(acc, blocks, n);
    if n < |blocks| {
      CleanBlockKeepsSupply(Replay(acc, blocks[..n]).balances, blocks[n]);
    }
  }

  // ---------------------------------------------------------------- identity

  /** The fields of a transaction that applying a block reads. */
  predicate SameTransfer(s: Transaction, t: Transaction) {
    s.from == t.from && s.to == t.to && s.amount == t.amount && s.fee == t.fee
  }

  predicate SameTransfers(s: seq<Transaction>, t: seq<Transaction>) {
    |s| == |t| && forall i :: 0 <= i < |s| ==> SameTransfer(s[i], t[i])
  }

  lemma {:induction false} SameTransfersRunAlike(m: Sheet, s: seq<Transaction>, t: seq<Transaction>)
    requires SameTransfers(s, t)
    ensures RunTxs(m, s) == RunTxs(m, t) && TotalFees(s) == TotalFees(t)
  {
    if s != [] {
      SameTransfersRunAlike(m, s[..|s| - 1], t[..|t| - 1]);
      assert SameTransfer(s[|s| - 1], t[|t| - 1]);
    }
  }

  lemma {:induction false} SameTransfersCountAlike(m: Sheet, w: Sheet, s: seq<Transaction>, t: seq<Transaction>)
    requires SameTransfers(s, t)
    ensures RunNonces(m, w, s) == RunNonces(m, w, t)
  {
    if s != [] {
      var s', t' := s[..|s| - 1], t[..|t| - 1];
      SameTransfersCountAlike(m, w, s', t');
      SameTransfersRunAlike(m, s', t');
      assert SameTransfer(s[|s| - 1], t[|t| - 1]);
    }
  }

  lemma {:induction false} SameTransfersRolesAlike(s: seq<Transaction>, t: seq<Transaction>, a: Address)
    requires SameTransfers(s, t)
    ensures FirstRole(s, a) == FirstRole(t, a)
  {
    if s != [] {
      SameTransfersRolesAlike(s[..|s| - 1], t[..|t| - 1], a);
      assert SameTransfer(s[|s| - 1], t[|t| - 1]);
    }
  }

  lemma SameTransfersLoadAlike(nonces: Sheet, s: seq<Transaction>, t: seq<Transaction>)
    requires SameTransfers(s, t)
    ensures LoadedNonces(nonces, s) == LoadedNonces(nonces, t)
  {
    forall a: Address
      ensures a in LoadedNonces(nonces, s) <==> a in LoadedNonces(nonces, t)
    {
      SameTransfersRolesAlike(s, t, a);
      if FirstRole(s, a) == Sender {
        SenderListed(s, a);
        SenderListed(t, a);
      }
    }
  }

  /** Applying a block reads its producer and who pays whom how much at what fee, and nothing else.
      In particular the nonce a transaction carries is never compared with the stored one: the
      documentation has transactions with another nonce skipped, but only the mempool looks at it. */
  lemma NonceFieldIgnored(acc: Accounts, b: Block, c: Block)
    requires b.validator == c.validator && SameTransfers(b.txs, c.txs)
    ensures ApplyBlock(acc, b) == ApplyBlock(acc, c)
  {
    SameTransfersRunAlike(acc.balances, b.txs, c.txs);
    SameTransfersLoadAlike(acc.nonces, b.txs, c.txs);
    SameTransfersCountAlike(acc.balances, LoadedNonces(acc.nonces, b.txs), b.txs, c.txs);
  }

  /** Blocks that agree in their hashed fields transform every ledger state identically. */
  lemma SameContentAppliesAlike(acc: Accounts, b: Block, c: Block)
    requires SameContent(b, c)
    ensures ApplyBlock(acc, b) == ApplyBlock(acc, c)
  {
    forall i | 0 <= i < |b.txs|
      ensures SameTransfer(b.txs[i], c.txs[i])
    {
      assert SameTx(b.txs[i], c.txs[i]);
    }
    NonceFieldIgnored(acc, b, c);
  }

  /** Two valid blocks with one hash transform every ledger state identically, or two colliding
      texts can be computed from them. */
  lemma SameHashAppliesAlike(sha: Sha, acc: Accounts, b: Block, c: Block)
    requires Validates(sha, b) && Validates(sha, c) && b.hash == c.hash
    ensures SameContent(b, c) || Collides(sha, IdentityCollision(sha, b, c).0, IdentityCollision(sha, b, c).1)
    ensures SameContent(b, c) ==> ApplyBlock(acc, b) == ApplyBlock(acc, c)
  {
    if SameContent(b, c) {
      SameContentAppliesAlike(acc, b, c);
    }
  }

  // ---------------------------------------------------------------- two states, one list of blocks

  /** Two states give the same verdict on every transaction. */
  predicate VerdictsAlike(m: Sheet, m': Sheet, txs: seq<Transaction>) {
    forall i | 0 <= i < |txs| :: SkippedAt(m, txs, i) == SkippedAt(m', txs, i)
  }

  lemma TransferAgreesIff(m: Sheet, m': Sheet, t: Transaction, a: Address)
    requires Applies(m, t) == Applies(m', t)
    ensures Get(Transfer(m, t), a) == Get(Transfer(m', t), a) <==> Get(m, a) == Get(m', a)
  {
  }

  lemma {:induction false} RunAgreesIff(m: Sheet, m': Sheet, txs: seq<Transaction>, a: Address)
    requires VerdictsAlike(m, m', txs)
    ensures Get(RunTxs(m, txs), a) == Get(RunTxs(m', txs), a) <==> Get(m, a) == Get(m', a)
  {
    if txs != [] {
      var n := |txs| - 1;
      var init := txs[..n];
      forall i | 0 <= i < n
        ensures SkippedAt(m, init, i) == SkippedAt(m', init, i)
      {
        SkippedAtPrefix(m, txs, n, i);
        SkippedAtPrefix(m', txs, n, i);
        assert SkippedAt(m, txs, i) == SkippedAt(m', txs, i);
      }
      RunAgreesIff(m, m', init, a);
      assert SkippedAt(m, txs, n) == SkippedAt(m', txs, n);
      TransferAgreesIff(RunTxs(m, init), RunTxs(m', init), txs[n], a);
    }
  }

  ghost predicate ChainVerdictsAlike(acc: Accounts, acc': Accounts, blocks: seq<Block>) {
    forall n | 0 <= n < |blocks| ::
      VerdictsAlike(Replay(acc, blocks[..n]).balances, Replay(acc', blocks[..n]).balances, blocks[n].txs)
  }

  /** While two states give the same verdicts, a balance agrees after common blocks exactly when it agreed
      before them: a difference never heals. */
  lemma {:induction false} ReplayAgreesIff(acc: Accounts, acc': Accounts, blocks: seq<Block>, n: nat, a: Address)
    requires ChainVerdictsAlike(acc, acc', blocks) && n <= |blocks|
    ensures Get(Replay(acc, blocks[..n]).balances, a) == Get(Replay(acc', blocks[..n]).balances, a)
       <==> Get(acc.balances, a) == Get(acc'.balances, a)
  {
    if n > 0 {
      var k := n - 1;
      ReplayAgreesIff(acc, acc', blocks, k, a);
      ReplaySnoc(acc, blocks, k);
      ReplaySnoc(acc', blocks, k);
      BlockAgreesIff(Replay(acc, blocks[..k]).balances, Replay(acc', blocks[..k]).balances, blocks[k], a);
    }
  }

  lemma BlockAgreesIff(m: Sheet, m': Sheet, b: Block, a: Address)
    requires VerdictsAlike(m, m', b.txs)
    ensures Get(BalancesAfter(m, b), a) == Get(BalancesAfter(m', b), a) <==> Get(m, a) == Get(m', a)
  {
    RunAgreesIff(m, m', b.txs, a);
  }

  /** Without equal verdicts a difference can heal: the richer account pays, the poorer one is skipped. */
  lemma BalanceDifferenceHeals(m: Sheet, m': Sheet, b: Block, a: Address, x: Address, v: u64)
    requires a != x && a != b.validator && v > 0 && Get(m, a) == v && Get(m', a) == 0
    requires b.txs == [Transaction(a, x, v, 0, 0, [], [])]
    ensures !VerdictsAlike(m, m', b.txs) && Get(BalancesAfter(m, b), a) == Get(BalancesAfter(m', b), a) == 0
  {
    assert b.txs[..0] == [] && b.txs[..|b.txs| - 1] == [];
    assert SkippedAt(m', b.txs, 0) && !SkippedAt(m, b.txs, 0);
    assert RunTxs(m, b.txs[..0]) == m && RunTxs(m', b.txs[..0]) == m';
  }

  /** A difference of nonces can heal even with equal verdicts, when the nonce restarts. */
  lemma NonceDifferenceHeals(acc: Accounts, acc': Accounts, b: Block, a: Address, x: Address)
    requires a != x && Get(acc.nonces, a) != 0 && Get(acc'.nonces, a) != 0 && Get(acc.nonces, a) != Get(acc'.nonces, a)
    requires b.txs == [Transaction(x, a, 0, 0, 0, [], []), Transaction(a, x, 0, 0, 0, [], [])]
    ensures Get(ApplyBlock(acc, b).nonces, a) == Get(ApplyBlock(acc', b).nonces, a)
  {
    ReceiverNonceRestarts(acc, b, a, x);
    ReceiverNonceRestarts(acc', b, a, x);
  }
}
