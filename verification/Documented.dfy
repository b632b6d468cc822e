/** The documented rules for applying a block (docs/CONSENSUS_MODEL.md, sections 2.1, 4.3 and 4.4), and
    exactly when the code follows them. */
module Documented {
  import opened Words
  import opened Crypto
  import opened Blocks
  import opened Ledger
  import opened Mempool

  /** The four documented checks: signature, nonce, balance, minimum fee. */
  predicate Admits(verify: Transaction -> bool, acc: Accounts, t: Transaction) {
    && verify(t)
    && t.nonce == Get(acc.nonces, t.from)
    && Get(acc.balances, t.from) >= t.amount + t.fee
    && t.fee >= MIN_FEE
  }

  /** An admitted transaction moves amount and fee and adds one to the sender's nonce; any other is skipped. */
  function ApplyOne(verify: Transaction -> bool, acc: Accounts, t: Transaction): Accounts {
    if Admits(verify, acc, t) then
      Accounts(Transfer(acc.balances, t), acc.nonces[t.from := Add64(Get(acc.nonces, t.from), 1)])
    else acc
  }

  function RunDocumented(verify: Transaction -> bool, acc: Accounts, txs: seq<Transaction>): Accounts {
    if txs == [] then acc else ApplyOne(verify, RunDocumented(verify, acc, txs[..|txs| - 1]), txs[|txs| - 1])
  }

  predicate AdmittedAt(verify: Transaction -> bool, acc: Accounts, txs: seq<Transaction>, i: nat)
    requires i < |txs|
  {
    Admits(verify, RunDocumented(verify, acc, txs[..i]), txs[i])
  }

  /** Code and documents agree whether transaction i is applied. */
  predicate AgreeAt(verify: Transaction -> bool, acc: Accounts, txs: seq<Transaction>, i: nat)
    requires i < |txs|
  {
    AdmittedAt(verify, acc, txs, i) <==> !SkippedAt(acc.balances, txs, i)
  }

  /** What the code does not check: signature, minimum fee, a cost that fits into uint64, and a nonce that
      counts on from the stored one. */
  predicate Sanctioned(verify: Transaction -> bool, acc: Accounts, txs: seq<Transaction>, i: nat)
    requires i < |txs|
  {
    var t := txs[i];
    && verify(t) && t.fee >= MIN_FEE && t.amount + t.fee < TWO_64
    && t.nonce == Wrap(Get(acc.nonces, t.from) + AppliedBy(acc.balances, txs[..i], t.from))
  }

  lemma SnocAt(verify: Transaction -> bool, acc: Accounts, txs: seq<Transaction>, n: nat, a: Address)
    requires n < |txs|
    ensures RunDocumented(verify, acc, txs[..n + 1]) == ApplyOne(verify, RunDocumented(verify, acc, txs[..n]), txs[n])
    ensures RunTxs(acc.balances, txs[..n + 1]) == Transfer(RunTxs(acc.balances, txs[..n]), txs[n])
    ensures AppliedBy(acc.balances, txs[..n + 1], a) == AppliedBy(acc.balances, txs[..n], a)
              + if txs[n].from == a && !SkippedAt(acc.balances, txs, n) then 1 else 0
  {
    assert txs[..n + 1][..n] == txs[..n] && txs[..n + 1][n] == txs[n];
  }

  lemma OneInStep(verify: Transaction -> bool, acc: Accounts, t: Transaction, a: Address, k: nat)
    requires Get(acc.nonces, a) == Wrap(k) && (Admits(verify, acc, t) <==> Applies(acc.balances, t))
    ensures ApplyOne(verify, acc, t).balances == Transfer(acc.balances, t)
    ensures Get(ApplyOne(verify, acc, t).nonces, a)
         == Wrap(k + if t.from == a && Applies(acc.balances, t) then 1 else 0)
  {
    WrapAdd(k, 1);
  }

  /** As long as the verdicts agree, so do balances and, up to the count of applied transactions, nonces. */
  lemma {:induction false} InStep(verify: Transaction -> bool, acc: Accounts, txs: seq<Transaction>, n: nat, a: Address)
    requires n <= |txs| && forall i :: 0 <= i < n ==> AgreeAt(verify, acc, txs, i)
    ensures RunDocumented(verify, acc, txs[..n]).balances == RunTxs(acc.balances, txs[..n])
    ensures Get(RunDocumented(verify, acc, txs[..n]).nonces, a)
         == Wrap(Get(acc.nonces, a) + AppliedBy(acc.balances, txs[..n], a))
  {
    if n > 0 {
      var m := n - 1;
      InStep(verify, acc, txs, m, a);
      SnocAt(verify, acc, txs, m, a);
      assert AgreeAt(verify, acc, txs, m);
      OneInStep(verify, RunDocumented(verify, acc, txs[..m]), txs[m], a,
                Get(acc.nonces, a) + AppliedBy(acc.balances, txs[..m], a));
    }
  }

  lemma AgreeIffSanctioned(verify: Transaction -> bool, acc: Accounts, txs: seq<Transaction>, n: nat)
    requires n < |txs| && forall i :: 0 <= i < n ==> AgreeAt(verify, acc, txs, i)
    ensures AgreeAt(verify, acc, txs, n) <==> (!SkippedAt(acc.balances, txs, n) ==> Sanctioned(verify, acc, txs, n))
  {
    InStep(verify, acc, txs, n, txs[n].from);
  }

  lemma {:induction false} SanctionedAgree(verify: Transaction -> bool, acc: Accounts, txs: seq<Transaction>, n: nat)
    requires n <= |txs|
    requires forall i :: 0 <= i < |txs| && !SkippedAt(acc.balances, txs, i) ==> Sanctioned(verify, acc, txs, i)
    ensures forall i :: 0 <= i < n ==> AgreeAt(verify, acc, txs, i)
  {
    if n > 0 {
      SanctionedAgree(verify, acc, txs, n - 1);
      AgreeIffSanctioned(verify, acc, txs, n - 1);
    }
  }

  /** Exactly when the code follows the documented checks.  Code and documents give the same verdict on
      every transaction of a list if and only if every transaction the code finds funded is signed, pays
      the minimum fee, has a cost that fits, and carries the stored nonce plus the number of the
      sender's transactions applied before it. */
  lemma VerdictsAgreeIff(verify: Transaction -> bool, acc: Accounts, txs: seq<Transaction>)
    ensures (forall i :: 0 <= i < |txs| ==> AgreeAt(verify, acc, txs, i))
       <==> (forall i :: 0 <= i < |txs| && !SkippedAt(acc.balances, txs, i) ==> Sanctioned(verify, acc, txs, i))
  {
    if forall i :: 0 <= i < |txs| ==> AgreeAt(verify, acc, txs, i) {
      forall i | 0 <= i < |txs| && !SkippedAt(acc.balances, txs, i)
        ensures Sanctioned(verify, acc, txs, i)
      {
        assert AgreeAt(verify, acc, txs, i);
        AgreeIffSanctioned(verify, acc, txs, i);
      }
    }
    if forall i :: 0 <= i < |txs| && !SkippedAt(acc.balances, txs, i) ==> Sanctioned(verify, acc, txs, i) {
      SanctionedAgree(verify, acc, txs, |txs|);
    }
  }

  /** The documents call transactions replay protected.  One transaction listed twice in a block, by a
      sender who can pay for both, is applied twice; the documents skip the second. */
  lemma RepeatedTransactionApplies(verify: Transaction -> bool, acc: Accounts, t: Transaction)
    requires Admits(verify, acc, t) && t.from != t.to
    requires Get(acc.balances, t.from) >= 2 * (t.amount + t.fee)
    ensures !SkippedAt(acc.balances, [t, t], 0) && !SkippedAt(acc.balances, [t, t], 1)
    ensures AdmittedAt(verify, acc, [t, t], 0) && !AdmittedAt(verify, acc, [t, t], 1)
    ensures Get(RunTxs(acc.balances, [t, t]), t.from) == Get(acc.balances, t.from) - 2 * (t.amount + t.fee)
  {
    var txs := [t, t];
    assert txs[..0] == [] && txs[..2] == txs;
    SnocAt(verify, acc, txs, 0, t.from);
    SnocAt(verify, acc, txs, 1, t.from);
  }

  const TWO_63: u64 := 0x8000_0000_0000_0000

  /** The documents promise that nothing is minted.  A transaction whose amount and fee are both 2^63 costs
      its sender nothing.  An empty pool admits it whatever the sender holds, and the block that contains
      it adds exactly 2^64 to the supply. */
  lemma OverflowingCostMints(sha: Sha, verify: Transaction -> bool, max: nat, acc: Accounts, b: Block, t: Transaction)
    requires t.amount == TWO_63 && t.fee == TWO_63 && t.to != b.validator && b.txs == [t]
    requires verify(t) && t.nonce == Get(acc.nonces, t.from) && max > 0 && Supply(acc.balances) < TWO_63
    ensures Refusal(sha, verify, max, Some(acc), [], t).None?
    ensures !SkippedAt(acc.balances, b.txs, 0)
    ensures Supply(ApplyBlock(acc, b).balances) == Supply(acc.balances) + TWO_64
  {
    var m := acc.balances;
    assert Cost(t) == 0;
    BalanceWithinSupply(m, t.to);
    BalanceWithinSupply(m, b.validator);
    assert b.txs[..0] == [];
    OneTransactionWraps(m, t);
    SupplyLaw(m, b);
  }

  lemma OneTransactionWraps(m: Sheet, t: Transaction)
    requires Applies(m, t)
    ensures RunTxs(m, [t]) == Transfer(m, t) && SkippedFees(m, [t]) == 0 && TotalFees([t]) == t.fee
    ensures FeeWraps([t]) == 0
    ensures CostWraps(m, [t]) == (if t.amount + t.fee >= TWO_64 then 1 else 0)
    ensures CreditWraps(m, [t]) == (if CreditWrapsAt(m, t) then 1 else 0)
  {
    assert [t][..0] == [];
    assert RunTxs(m, [t][..0]) == m;
  }
}
