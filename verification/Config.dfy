/** The default chain parameters (config/config.go) and the fixed supply they promise. */
module DefaultConfig {
  import opened Words
  import opened Crypto
  import opened Blocks
  import opened Ledger
  import opened Validators

  const TOTAL_SUPPLY: int := 21_000_000_000 * 1_000_000
  const MIN_STAKE: u64 := 5_000_000 * 1_000_000

  const TREASURY: string := "0000000000000000000000000000000000000001"
  const STAKING: string := "0000000000000000000000000000000000000002"
  const DISTRIBUTION: string := "0000000000000000000000000000000000000003"

  const ALLOCATION: map<string, u64> := map[
    TREASURY := 10_000_000_000 * 1_000_000,
    STAKING := 5_000_000_000 * 1_000_000,
    DISTRIBUTION := 6_000_000_000 * 1_000_000]

  function Default(validators: seq<GenesisValidator>): Genesis {
    Genesis(ALLOCATION, validators, MIN_STAKE)
  }

  lemma ThreeAddresses()
    ensures ParseAddress(TREASURY).Some? && ParseAddress(STAKING).Some? && ParseAddress(DISTRIBUTION).Some?
    ensures var t, s, d := ParseAddress(TREASURY).value, ParseAddress(STAKING).value, ParseAddress(DISTRIBUTION).value;
      t != s && s != d && t != d
    ensures TREASURY != STAKING && STAKING != DISTRIBUTION && TREASURY != DISTRIBUTION
  {
    DigitsOf(TREASURY, '1');
    DigitsOf(STAKING, '2');
    DigitsOf(DISTRIBUTION, '3');
    assert TREASURY[39] == '1' && STAKING[39] == '2' && DISTRIBUTION[39] == '3';
  }

  lemma DefaultConsistent()
    ensures Consistent(ALLOCATION)
  {
    ThreeAddresses();
  }

  /** The one of three keys that names an address decides its balance. */
  lemma AmountOfOnlyKey(alloc: map<string, u64>, k: string, l: string, m: string, a: Address)
    requires alloc.Keys == {k, l, m}
    requires ParseAddress(k) == Some(a) && ParseAddress(l) != Some(a) && ParseAddress(m) != Some(a)
    ensures a in AllocateAll(EMPTY_VIEW.accounts, alloc).balances
    ensures AllocateAll(EMPTY_VIEW.accounts, alloc).balances[a] == alloc[k]
  {
    forall x | x in alloc && ParseAddress(x) == Some(a)
      ensures alloc[x] == alloc[k]
    {
      assert x in alloc.Keys;
    }
    assert k in alloc.Keys;
    AmountAgreed(alloc, k, a);
  }

  lemma AmountAgreed(alloc: map<string, u64>, k: string, a: Address)
    requires k in alloc && ParseAddress(k) == Some(a)
    requires forall x :: x in alloc && ParseAddress(x) == Some(a) ==> alloc[x] == alloc[k]
    ensures a in Allocated(alloc) && AmountOf(alloc, a) == alloc[k]
  {
  }

  lemma SupplyOfThree(m: Sheet, a: Address, b: Address, c: Address)
    requires m.Keys == {a, b, c} && a != b && b != c && a != c
    ensures Supply(m) == m[a] as int + m[b] as int + m[c] as int
  {
    SupplyRemove(m, a);
    SupplyRemove(m - {a}, b);
    SupplyRemove(m - {a} - {b}, c);
    assert m - {a} - {b} - {c} == map[];
  }

  lemma AllocatedThree(alloc: map<string, u64>, k: string, l: string, m: string, a: Address, b: Address, c: Address)
    requires alloc.Keys == {k, l, m}
    requires ParseAddress(k) == Some(a) && ParseAddress(l) == Some(b) && ParseAddress(m) == Some(c)
    ensures AllocateAll(EMPTY_VIEW.accounts, alloc).balances.Keys == {a, b, c}
  {
    assert Allocated(alloc) == {a, b, c};
  }

  /** Three keys for three addresses: the supply is the sum of the three amounts. */
  lemma ThreeAllocations(alloc: map<string, u64>, k: string, l: string, m: string, a: Address, b: Address, c: Address)
    requires alloc.Keys == {k, l, m} && a != b && b != c && a != c
    requires ParseAddress(k) == Some(a) && ParseAddress(l) == Some(b) && ParseAddress(m) == Some(c)
    ensures Supply(AllocateAll(EMPTY_VIEW.accounts, alloc).balances)
         == alloc[k] as int + alloc[l] as int + alloc[m] as int
  {
    var balances := AllocateAll(EMPTY_VIEW.accounts, alloc).balances;
    AllocatedThree(alloc, k, l, m, a, b, c);
    AmountOfOnlyKey(alloc, k, l, m, a);
    AmountOfOnlyKey(alloc, l, k, m, b);
    AmountOfOnlyKey(alloc, m, k, l, c);
    SupplyOfThree(balances, a, b, c);
  }

  /** The default allocation hands out exactly the total supply. */
  lemma DefaultSupply(validators: seq<GenesisValidator>)
    ensures Supply(GenesisAccounts(Default(validators)).balances) == TOTAL_SUPPLY
  {
    ThreeAddresses();
    ThreeAllocations(ALLOCATION, TREASURY, STAKING, DISTRIBUTION, ParseAddress(TREASURY).value,
                     ParseAddress(STAKING).value, ParseAddress(DISTRIBUTION).value);
  }

  /** Who gets what: 10, 5 and 6 billion coins of 10^6 units. */
  lemma DefaultBalances(validators: seq<GenesisValidator>, k: string)
    requires k in {TREASURY, STAKING, DISTRIBUTION}
    ensures ParseAddress(k).Some? && Default(validators).minStake == 5_000_000_000_000
    ensures Get(GenesisAccounts(Default(validators)).balances, ParseAddress(k).value) ==
            if k[39] == '1' then 10_000_000_000_000_000
            else if k[39] == '2' then 5_000_000_000_000_000 else 6_000_000_000_000_000
  {
    ThreeAddresses();
    DefaultConsistent();
    assert TREASURY[39] == '1' && STAKING[39] == '2' && DISTRIBUTION[39] == '3';
    AllocatedAmount(Default(validators), k, ParseAddress(k).value);
  }

  /** Fixed supply: from the default allocation, along any chain in which nothing is skipped and no
      Amount + Fee overflows, the balances sum to the total supply at every height and nothing wraps. */
  lemma FixedSupply(validators: seq<GenesisValidator>, blocks: seq<Block>, n: nat)
    requires CleanChain(GenesisAccounts(Default(validators)), blocks) && n <= |blocks|
    ensures var acc := GenesisAccounts(Default(validators));
      && Supply(Replay(acc, blocks[..n]).balances) == TOTAL_SUPPLY
      && (n < |blocks| ==> NothingWraps(Replay(acc, blocks[..n]).balances, blocks[n]))
  {
    DefaultSupply(validators);
    ChainKeepsSupply(GenesisAccounts(Default(validators)), blocks, n);
  }
}
