/** Pending transactions (mempool/mempool.go). */
module Mempool {
  import opened Words
  import opened Crypto
  import opened Blocks
  import opened Ledger
  import StateStore

  const MIN_FEE: u64 := 100

  datatype AddError = MempoolFull | InvalidSignature | FeeTooLow | BadNonce | InsufficientBalance | Duplicate

  /** s can be obtained from t by deleting elements. */
  ghost predicate Subsequence<T>(s: seq<T>, t: seq<T>) {
    s == [] ||
    (t != [] &&
     (Subsequence(s, t[..|t| - 1]) ||
      (s[|s| - 1] == t[|t| - 1] && Subsequence(s[..|s| - 1], t[..|t| - 1]))))
  }

  lemma SubsequenceSnoc<T>(s: seq<T>, t: seq<T>, x: T)
    requires Subsequence(s, t)
    ensures Subsequence(s, t + [x]) && Subsequence(s + [x], t + [x])
  {
    assert (t + [x])[..|t|] == t && (s + [x])[..|s|] == s;
  }

  predicate HasHash(sha: Sha, txs: seq<Transaction>, h: Hash) {
    exists i :: 0 <= i < |txs| && TxHash(sha, txs[i]) == h
  }

  /** Why a transaction is turned away, checked in this order; None if it is admitted. */
  function Refusal(sha: Sha, verify: Transaction -> bool, max: nat, acc: Option<Accounts>,
                   pool: seq<Transaction>, tx: Transaction): Option<AddError>
  {
    if |pool| >= max then Some(MempoolFull)
    else if !verify(tx) then Some(InvalidSignature)
    else if tx.fee < MIN_FEE then Some(FeeTooLow)
    else if acc.Some? && tx.nonce != Get(acc.value.nonces, tx.from) then Some(BadNonce)
    else if acc.Some? && Get(acc.value.balances, tx.from) < Cost(tx) then Some(InsufficientBalance)
    else if HasHash(sha, pool, TxHash(sha, tx)) then Some(Duplicate)
    else None
  }

  /** Admission, stated outright: room, a valid signature, a fee of at least 100, the sender's stored nonce,
      a balance that covers amount plus fee modulo 2^64, and no pooled transaction of the same hash.  A pool
      without a state checks neither nonce nor balance. */
  lemma AdmittedIff(sha: Sha, verify: Transaction -> bool, max: nat, acc: Option<Accounts>,
                    pool: seq<Transaction>, tx: Transaction)
    ensures Refusal(sha, verify, max, acc, pool, tx).None? <==>
      && |pool| < max && verify(tx) && tx.fee >= 100
      && (acc.Some? ==> tx.nonce == Get(acc.value.nonces, tx.from)
                        && Get(acc.value.balances, tx.from) >= (tx.amount + tx.fee) % TWO_64)
      && (forall i :: 0 <= i < |pool| ==> TxHash(sha, pool[i]) != TxHash(sha, tx))
  {
  }

  /** Which error is reported: each check only when all earlier ones pass. */
  lemma RefusalOrder(sha: Sha, verify: Transaction -> bool, max: nat, acc: Accounts,
                     pool: seq<Transaction>, tx: Transaction)
    ensures var e := Refusal(sha, verify, max, Some(acc), pool, tx);
      && (e == Some(MempoolFull) <==> |pool| >= max)
      && (e == Some(InvalidSignature) <==> |pool| < max && !verify(tx))
      && (e == Some(FeeTooLow) <==> |pool| < max && verify(tx) && tx.fee < 100)
      && (e == Some(BadNonce) <==>
            |pool| < max && verify(tx) && tx.fee >= 100 && tx.nonce != Get(acc.nonces, tx.from))
      && (e == Some(InsufficientBalance) <==>
            && |pool| < max && verify(tx) && tx.fee >= 100 && tx.nonce == Get(acc.nonces, tx.from)
            && Get(acc.balances, tx.from) < (tx.amount + tx.fee) % TWO_64)
  {
  }

  function Prefix(pool: seq<Transaction>, n: int): seq<Transaction> {
    if n <= 0 || n > |pool| then pool else pool[..n]
  }

  /** A transaction with the hash of t is among the included ones. */
  ghost predicate Included(sha: Sha, included: seq<Transaction>, t: Transaction) {
    exists u :: u in included && TxHash(sha, u) == TxHash(sha, t)
  }

  function HashesOf(sha: Sha, txs: seq<Transaction>): set<Hash> {
    set t | t in txs :: TxHash(sha, t)
  }

  function DropHashes(sha: Sha, pool: seq<Transaction>, hashes: set<Hash>): seq<Transaction> {
    if pool == [] then []
    else
      var init := DropHashes(sha, pool[..|pool| - 1], hashes);
      var t := pool[|pool| - 1];
      if TxHash(sha, t) in hashes then init else init + [t]
  }

  function Removed(sha: Sha, pool: seq<Transaction>, included: seq<Transaction>): seq<Transaction> {
    DropHashes(sha, pool, HashesOf(sha, included))
  }

  /** What every reachable pool satisfies. */
  ghost predicate Tidy(sha: Sha, max: nat, pool: seq<Transaction>) {
    && |pool| <= max
    && (forall i, j :: 0 <= i < j < |pool| ==> TxHash(sha, pool[i]) != TxHash(sha, pool[j]))
  }

  lemma AddKeepsTidy(sha: Sha, verify: Transaction -> bool, max: nat, acc: Option<Accounts>,
                     pool: seq<Transaction>, tx: Transaction)
    requires Tidy(sha, max, pool) && Refusal(sha, verify, max, acc, pool, tx).None?
    ensures Tidy(sha, max, pool + [tx])
  {
  }

  /** Removal is a stable filter: a subsequence that keeps every other transaction, with none of the
      included hashes left. */
  lemma {:induction false} RemovedIsFilter(sha: Sha, pool: seq<Transaction>, included: seq<Transaction>)
    ensures Subsequence(Removed(sha, pool, included), pool)
    ensures forall t :: multiset(Removed(sha, pool, included))[t] ==
                        if Included(sha, included, t) then 0 else multiset(pool)[t]
    ensures |Removed(sha, pool, included)| <= |pool|
  {
    if pool != [] {
      var init, t := pool[..|pool| - 1], pool[|pool| - 1];
      RemovedIsFilter(sha, init, included);
      assert pool == init + [t];
      SubsequenceSnoc(Removed(sha, init, included), init, t);
    }
  }

  lemma {:induction false} RemovedMembers(sha: Sha, pool: seq<Transaction>, included: seq<Transaction>, t: Transaction)
    requires t in Removed(sha, pool, included)
    ensures t in pool && !Included(sha, included, t)
  {
    var init, last := pool[..|pool| - 1], pool[|pool| - 1];
    if t in Removed(sha, init, included) {
      RemovedMembers(sha, init, included, t);
    }
  }

  lemma {:induction false} RemoveKeepsTidy(sha: Sha, max: nat, pool: seq<Transaction>, included: seq<Transaction>)
    requires Tidy(sha, max, pool)
    ensures Tidy(sha, max, Removed(sha, pool, included))
  {
    RemovedIsFilter(sha, pool, included);
    if pool != [] {
      var init, last := pool[..|pool| - 1], pool[|pool| - 1];
      RemoveKeepsTidy(sha, max, init, included);
      var r := Removed(sha, init, included);
      forall i | 0 <= i < |r|
        ensures TxHash(sha, r[i]) != TxHash(sha, last)
      {
        RemovedMembers(sha, init, included, r[i]);
      }
    }
  }

  class Pool {
    /** The backing array; the first `len` elements are the pool. */
    var slots: array<Transaction>
    var len: nat
    const max: nat
    const sha: Sha
    const verify: Transaction -> bool
    const state: StateStore.State?

    ghost predicate Valid()
      reads this, slots, state
    {
      && len <= slots.Length
      && Tidy(sha, max, slots[..len])
      && (state != null ==> state.Valid())
    }

    ghost function Contents(): seq<Transaction>
      reads this, slots
      requires len <= slots.Length
    {
      slots[..len]
    }

    ghost function Seen(): Option<Accounts>
      reads state
    {
      if state == null then None else Some(state.view.accounts)
    }

    constructor (maxSize: int, sha: Sha, verify: Transaction -> bool, state: StateStore.State?)
      requires state != null ==> state.Valid()
      ensures Valid() && fresh(slots) && Contents() == []
      ensures max == (if maxSize <= 0 then 10000 else maxSize)
      ensures this.sha == sha && this.verify == verify && this.state == state
    {
      slots := new Transaction[0];
      len := 0;
      max := if maxSize <= 0 then 10000 else maxSize;
      this.sha, this.verify, this.state := sha, verify, state;
    }

    method Check(tx: Transaction) returns (e: Option<AddError>)
      requires Valid()
      ensures e == Refusal(sha, verify, max, Seen(), Contents(), tx)
    {
      if len >= max {
        return Some(MempoolFull);
      }
      if !verify(tx) {
        return Some(InvalidSignature);
      }
      if tx.fee < MIN_FEE {
        return Some(FeeTooLow);
      }
      if state != null {
        var bal := state.GetBalance(tx.from);
        var nonce := state.GetNonce(tx.from);
        if tx.nonce != nonce {
          return Some(BadNonce);
        }
        if bal < Add64(tx.amount, tx.fee) {
          return Some(InsufficientBalance);
        }
      }
      var h := TxHash(sha, tx);
      for i := 0 to len
        invariant forall j :: 0 <= j < i ==> TxHash(sha, slots[j]) != h
      {
        if TxHash(sha, slots[i]) == h {
          assert Contents()[i] == slots[i];
          return Some(Duplicate);
        }
      }
      return None;
    }

    /** append: in place while there is room, otherwise into a larger array. */
    method Append(tx: Transaction)
      requires len <= slots.Length
      modifies this, slots
      ensures len <= slots.Length && Contents() == old(Contents()) + [tx]
      ensures slots == old(slots) || fresh(slots)
    {
      if len == slots.Length {
        var larger := new Transaction[2 * len + 1];
        for i := 0 to len
          invariant len == old(len) && slots == old(slots) && len <= slots.Length && larger.Length == 2 * len + 1
          invariant slots[..] == old(slots[..])
          invariant larger[..i] == slots[..i]
        {
          larger[i] := slots[i];
        }
        slots := larger;
      }
      slots[len] := tx;
      len := len + 1;
    }

    method Add(tx: Transaction) returns (e: Option<AddError>)
      requires Valid()
      modifies this, slots
      ensures Valid() && (slots == old(slots) || fresh(slots))
      ensures e == Refusal(sha, verify, max, Seen(), old(Contents()), tx)
      ensures Contents() == if e.None? then old(Contents()) + [tx] else old(Contents())
    {
      e := Check(tx);
      if e.None? {
        AddKeepsTidy(sha, verify, max, Seen(), Contents(), tx);
        Append(tx);
      }
    }

    /** The oldest n transactions, as a copy: later changes of the pool do not reach it. */
    method Pending(n: int) returns (out: array<Transaction>)
      requires Valid()
      ensures fresh(out) && out[..] == Prefix(Contents(), n)
      ensures out.Length == if n <= 0 || n > |Contents()| then |Contents()| else n
      ensures forall i :: 0 <= i < out.Length ==> out[i] == Contents()[i]
    {
      var k := if n <= 0 || n > len then len else n;
      out := new Transaction[k];
      for i := 0 to k
        invariant out[..i] == slots[..i]
      {
        out[i] := slots[i];
      }
      assert out[..] == out[..k];
      assert slots[..k] == Prefix(Contents(), n);
    }

    /** The compaction writes the kept transactions over the front of the array it is reading. */
    method Compact(hashes: set<Hash>)
      requires len <= slots.Length
      modifies this`len, slots
      ensures len <= slots.Length && Contents() == DropHashes(sha, old(Contents()), hashes)
    {
      ghost var was := Contents();
      var j := 0;
      for i := 0 to len
        invariant j <= i <= len == |was| <= slots.Length
        invariant slots[..j] == DropHashes(sha, was[..i], hashes)
        invariant forall k :: i <= k < len ==> slots[k] == was[k]
      {
        var tx := slots[i];
        DropSnoc(sha, was, i, hashes);
        if TxHash(sha, tx) !in hashes {
          slots[j] := tx;
          j := j + 1;
          assert slots[..j] == DropHashes(sha, was[..i], hashes) + [tx];
        }
      }
      assert was[..|was|] == was;
      len := j;
    }

    method Remove(included: seq<Transaction>)
      requires Valid()
      modifies this`len, slots
      ensures Valid() && Contents() == Removed(sha, old(Contents()), included)
    {
      var hashes := HashSet(sha, included);
      RemoveKeepsTidy(sha, max, Contents(), included);
      Compact(hashes);
    }
  }

  lemma DropSnoc(sha: Sha, pool: seq<Transaction>, i: nat, hashes: set<Hash>)
    requires i < |pool|
    ensures DropHashes(sha, pool[..i + 1], hashes) ==
            DropHashes(sha, pool[..i], hashes) + if TxHash(sha, pool[i]) in hashes then [] else [pool[i]]
  {
    assert pool[..i + 1][..i] == pool[..i] && pool[..i + 1][i] == pool[i];
  }

  method HashSet(sha: Sha, included: seq<Transaction>) returns (hashes: set<Hash>)
    ensures hashes == HashesOf(sha, included)
  {
    hashes := {};
    for i := 0 to |included|
      invariant hashes == HashesOf(sha, included[..i])
    {
      assert included[..i + 1] == included[..i] + [included[i]];
      hashes := hashes + {TxHash(sha, included[i])};
    }
    assert included[..|included|] == included;
  }
}
