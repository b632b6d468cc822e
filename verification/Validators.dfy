/** The replicated state as separate maps, genesis, the validator set and the round-robin leader
    (state/state.go, consensus/consensus.go, config/config.go). */
module Validators {
  import opened Words
  import opened Crypto
  import opened Ledger
  import Hex

  datatype Validator = Validator(address: Address, stake: u64)
  datatype GenesisValidator = GenesisValidator(address: string, stake: u64)
  datatype Genesis = Genesis(allocation: map<string, u64>, validators: seq<GenesisValidator>, minStake: u64)

  /** Accounts, stakes per address, and the stored list of validator addresses as text. */
  datatype View = View(accounts: Accounts, stakes: Sheet, list: Option<seq<string>>)

  const EMPTY_VIEW: View := View(Accounts(map[], map[]), map[], None)

  // ---------------------------------------------------------------- genesis

  /** Writing the allocation in one particular order of its keys; keys that are no address are ignored. */
  function Allocate(acc: Accounts, allocation: map<string, u64>, order: seq<string>): Accounts
    requires forall k :: k in order ==> k in allocation
  {
    if order == [] then acc
    else
      var init := Allocate(acc, allocation, order[..|order| - 1]);
      var k := order[|order| - 1];
      match ParseAddress(k)
      case None => init
      case Some(a) => Accounts(init.balances[a := allocation[k]], init.nonces[a := 0])
  }

  ghost predicate IsOrderOf(order: seq<string>, keys: set<string>) {
    && (forall k :: k in order <==> k in keys)
    && (forall i, j :: 0 <= i < j < |order| ==> order[i] != order[j])
  }

  /** Keys that name one address (they may differ in letter case) agree on its amount. */
  predicate Consistent(allocation: map<string, u64>) {
    forall k, l :: k in allocation && l in allocation && ParseAddress(k).Some? && ParseAddress(k) == ParseAddress(l)
                   ==> allocation[k] == allocation[l]
  }

  function Allocated(allocation: map<string, u64>): set<Address> {
    set k | k in allocation && ParseAddress(k).Some? :: ParseAddress(k).value
  }

  /** The amount allocated to an address, well defined when the allocation is consistent. */
  ghost function AmountOf(allocation: map<string, u64>, a: Address): u64
    requires a in Allocated(allocation)
  {
    var k :| k in allocation && ParseAddress(k) == Some(a);
    allocation[k]
  }

  ghost function AllocateAll(acc: Accounts, allocation: map<string, u64>): Accounts {
    Accounts(acc.balances + map a | a in Allocated(allocation) :: AmountOf(allocation, a),
             acc.nonces + map a | a in Allocated(allocation) :: 0)
  }

  predicate Eligible(v: GenesisValidator, minStake: u64) {
    ParseAddress(v.address).Some? && v.stake >= minStake
  }

  function GenesisStakes(stakes: Sheet, vs: seq<GenesisValidator>, minStake: u64): Sheet {
    if vs == [] then stakes
    else
      var init := GenesisStakes(stakes, vs[..|vs| - 1], minStake);
      var v := vs[|vs| - 1];
      if Eligible(v, minStake) then init[ParseAddress(v.address).value := v.stake] else init
  }

  function GenesisList(vs: seq<GenesisValidator>, minStake: u64): seq<string> {
    if vs == [] then []
    else
      var init := GenesisList(vs[..|vs| - 1], minStake);
      if Eligible(vs[|vs| - 1], minStake) then init + [vs[|vs| - 1].address] else init
  }

  /** Genesis laid over a state: the validator list is rewritten only if some validator is eligible. */
  function WithGenesis(v: View, acc: Accounts, g: Genesis): View {
    View(acc, GenesisStakes(v.stakes, g.validators, g.minStake),
         if GenesisList(g.validators, g.minStake) != [] then Some(GenesisList(g.validators, g.minStake)) else v.list)
  }

  ghost function GenesisAccounts(g: Genesis): Accounts {
    AllocateAll(EMPTY_VIEW.accounts, g.allocation)
  }

  /** The state right after genesis. */
  ghost function GenesisView(g: Genesis): View {
    WithGenesis(EMPTY_VIEW, GenesisAccounts(g), g)
  }

  lemma {:induction false} AllocateDomain(acc: Accounts, allocation: map<string, u64>, order: seq<string>, a: Address)
    requires forall k :: k in order ==> k in allocation
    ensures var r := Allocate(acc, allocation, order);
      var hit := exists k :: k in order && ParseAddress(k) == Some(a);
      && (hit ==> a in r.balances && a in r.nonces && r.nonces[a] == 0
                  && exists k :: k in order && ParseAddress(k) == Some(a) && r.balances[a] == allocation[k])
      && (!hit ==> (a in r.balances <==> a in acc.balances) && (a in r.nonces <==> a in acc.nonces)
                   && Get(r.balances, a) == Get(acc.balances, a) && Get(r.nonces, a) == Get(acc.nonces, a))
  {
    if order != [] {
      var init, k := order[..|order| - 1], order[|order| - 1];
      AllocateDomain(acc, allocation, init, a);
      assert order == init + [k];
      assert forall l :: l in order <==> l in init || l == k;
    }
  }

  /** Whatever order the map is iterated in, a consistent allocation gives one result. */
  lemma OrderIrrelevant(acc: Accounts, allocation: map<string, u64>, order: seq<string>)
    requires Consistent(allocation) && IsOrderOf(order, allocation.Keys)
    ensures Allocate(acc, allocation, order) == AllocateAll(acc, allocation)
  {
    var r, all := Allocate(acc, allocation, order), AllocateAll(acc, allocation);
    forall a: Address
      ensures (a in r.balances <==> a in all.balances) && (a in r.nonces <==> a in all.nonces)
      ensures a in r.balances ==> r.balances[a] == all.balances[a]
      ensures a in r.nonces ==> r.nonces[a] == all.nonces[a]
    {
      AllocateDomain(acc, allocation, order, a);
    }
    assert r.balances == all.balances;
    assert r.nonces == all.nonces;
  }

  /** What a consistent allocation means: the amount of the key that spells an address, and nonce zero. */
  lemma AllocatedAmount(g: Genesis, k: string, a: Address)
    requires Consistent(g.allocation) && k in g.allocation && ParseAddress(k) == Some(a)
    ensures Get(GenesisAccounts(g).balances, a) == g.allocation[k] && Get(GenesisAccounts(g).nonces, a) == 0
  {
    assert a in Allocated(g.allocation);
  }

  /** Any finite set of keys can be listed, ending with a chosen member. */
  lemma {:induction false} OrderEndingIn(keys: set<string>, last: string) returns (order: seq<string>)
    requires last in keys
    ensures IsOrderOf(order, keys) && order[|order| - 1] == last
    decreases |keys|
  {
    if keys == {last} {
      order := [last];
    } else {
      var k :| k in keys && k != last;
      var rest := OrderEndingIn(keys - {k}, last);
      order := [k] + rest;
    }
  }

  lemma AllocateLastWins(acc: Accounts, allocation: map<string, u64>, order: seq<string>, a: Address)
    requires order != [] && (forall k :: k in order ==> k in allocation)
    requires ParseAddress(order[|order| - 1]) == Some(a)
    ensures Allocate(acc, allocation, order).balances[a] == allocation[order[|order| - 1]]
  {
  }

  /** An allocation has one meaning over all iteration orders exactly when it is consistent. */
  lemma OneMeaningIffConsistent(acc: Accounts, allocation: map<string, u64>)
    ensures Consistent(allocation) <==>
      forall o, p :: IsOrderOf(o, allocation.Keys) && IsOrderOf(p, allocation.Keys)
                     ==> Allocate(acc, allocation, o) == Allocate(acc, allocation, p)
  {
    if Consistent(allocation) {
      forall o, p | IsOrderOf(o, allocation.Keys) && IsOrderOf(p, allocation.Keys)
        ensures Allocate(acc, allocation, o) == Allocate(acc, allocation, p)
      {
        OrderIrrelevant(acc, allocation, o);
        OrderIrrelevant(acc, allocation, p);
      }
    } else {
      var k, l :| k in allocation && l in allocation && ParseAddress(k).Some? && ParseAddress(k) == ParseAddress(l)
                  && allocation[k] != allocation[l];
      var o := OrderEndingIn(allocation.Keys, k);
      var p := OrderEndingIn(allocation.Keys, l);
      AllocateLastWins(acc, allocation, o, ParseAddress(k).value);
      AllocateLastWins(acc, allocation, p, ParseAddress(k).value);
    }
  }

  const LOWER: string := "000000000000000000000000000000000000000a"
  const UPPER: string := "000000000000000000000000000000000000000A"

  /** An address text of 39 zeros and one more digit. */
  lemma DigitsOf(s: string, last: char)
    requires |s| == 40 && s[39] == last && (forall i :: 0 <= i < 39 ==> s[i] == '0') && Hex.IsDigit(last)
    ensures ParseAddress(s).Some? && ParseAddress(s).value.bytes == Zeros(19) + [Hex.DigitValue(last)]
    ensures ParseAddress(s).value.bytes[19] == Hex.DigitValue(last)
  {
    var d := Hex.Decode(s);
    assert d.Some? && |d.value| == 20;
    assert d.value[19] == Hex.DigitValue(s[38]) * 16 + Hex.DigitValue(s[39]);
    assert d.value == Zeros(19) + [Hex.DigitValue(last)];
  }

  /** An allocation with two meanings: two spellings of one address with different amounts. */
  lemma TwoSpellings(acc: Accounts)
    ensures var allocation: map<string, u64> := map[LOWER := 1, UPPER := 2];
      exists o, p :: IsOrderOf(o, allocation.Keys) && IsOrderOf(p, allocation.Keys)
                     && Allocate(acc, allocation, o) != Allocate(acc, allocation, p)
  {
    var allocation: map<string, u64> := map[LOWER := 1, UPPER := 2];
    DigitsOf(LOWER, 'a');
    DigitsOf(UPPER, 'A');
    assert LOWER[39] != UPPER[39];
    assert !Consistent(allocation);
    OneMeaningIffConsistent(acc, allocation);
  }

  // ---------------------------------------------------------------- validator set

  /** GetValidatorSet: the listed addresses with a positive stake, in list order. */
  function Decoded(list: seq<string>, stakes: Sheet): seq<Validator> {
    if list == [] then []
    else
      var init := Decoded(list[..|list| - 1], stakes);
      match ParseAddress(list[|list| - 1])
      case None => init
      case Some(a) => if Get(stakes, a) > 0 then init + [Validator(a, Get(stakes, a))] else init
  }

  function ValidatorSet(v: View): seq<Validator> {
    if v.list.None? then [] else Decoded(v.list.value, v.stakes)
  }

  function WithoutText(list: seq<string>, s: string): seq<string> {
    if list == [] then []
    else
      var init := WithoutText(list[..|list| - 1], s);
      if list[|list| - 1] != s then init + [list[|list| - 1]] else init
  }

  /** SlashValidator: stake to zero, and the lower-case text of the address dropped from the list. */
  function Slash(v: View, a: Address): View {
    if v.list.None? then v
    else
      var rest := WithoutText(v.list.value, AddressHex(a));
      View(v.accounts, v.stakes[a := 0], if rest != [] then Some(rest) else None)
  }

  function Without(vs: seq<Validator>, a: Address): seq<Validator> {
    if vs == [] then []
    else
      var init := Without(vs[..|vs| - 1], a);
      if vs[|vs| - 1].address != a then init + [vs[|vs| - 1]] else init
  }

  lemma WithoutSnoc(vs: seq<Validator>, x: Validator, a: Address)
    ensures Without(vs + [x], a) == if x.address != a then Without(vs, a) + [x] else Without(vs, a)
  {
    assert (vs + [x])[..|vs|] == vs;
  }

  lemma {:induction false} DecodedAfterSlash(list: seq<string>, stakes: Sheet, a: Address)
    ensures Decoded(WithoutText(list, AddressHex(a)), stakes[a := 0]) == Without(Decoded(list, stakes), a)
  {
    if list != [] {
      var init, s := list[..|list| - 1], list[|list| - 1];
      DecodedAfterSlash(init, stakes, a);
      ParseAddressHex(a);
      var kept := WithoutText(init, AddressHex(a));
      if s != AddressHex(a) {
        assert (kept + [s])[..|kept|] == kept;
      }
      if ParseAddress(s).Some? && Get(stakes, ParseAddress(s).value) > 0 {
        WithoutSnoc(Decoded(init, stakes), Validator(ParseAddress(s).value, Get(stakes, ParseAddress(s).value)), a);
      }
    }
  }

  /** Slashing removes exactly the slashed validator from the set, keeping the order of the others,
      whatever letter case the stored list uses. */
  lemma SlashRemovesExactly(v: View, a: Address)
    ensures ValidatorSet(Slash(v, a)) == Without(ValidatorSet(v), a)
    ensures Slash(v, a).accounts == v.accounts
  {
    if v.list.Some? {
      DecodedAfterSlash(v.list.value, v.stakes, a);
    }
  }

  // ---------------------------------------------------------------- round-robin leader

  /** Round robin: the validator at index height mod k. */
  function Leader(vs: seq<Validator>, height: u64): Address {
    if vs == [] then ZERO_ADDRESS else vs[height % |vs|].address
  }

  function Addresses(vs: seq<Validator>): seq<Address> {
    seq<Address>(|vs|, i requires 0 <= i < |vs| => vs[i].address)
  }

  /** Whose turn it is: at height q * k + i the validator at index i of the k listed ones leads. */
  lemma LeaderAt(vs: seq<Validator>, height: u64, q: nat, i: nat)
    requires i < |vs| && height == q * |vs| + i
    ensures Leader(vs, height) == vs[i].address
  {
    DivIs(height, q, i, |vs|);
  }

  lemma ModAdd(h: nat, i: nat, k: nat)
    requires 0 < k && i < k
    ensures (h + i) % k == if h % k + i < k then h % k + i else h % k + i - k
  {
    var q, r := h / k, h % k;
    assert h == q * k + r;
    if r + i < k {
      DivIs(h + i, q, r + i, k);
    } else {
      assert h + i == (q + 1) * k + (r + i - k);
      DivIs(h + i, q + 1, r + i - k, k);
    }
  }

  /** Fairness: over any k consecutive heights the leaders are the k listed validators, in turn from the
      one at index h mod k on, so each leads exactly as often as it is listed. */
  lemma RoundRobinIsFair(vs: seq<Validator>, h: u64, leaders: seq<Address>)
    requires vs != [] && h + |vs| <= TWO_64 && |leaders| == |vs|
    requires forall i :: 0 <= i < |vs| ==> leaders[i] == Leader(vs, h + i)
    ensures leaders == Addresses(vs)[h % |vs|..] + Addresses(vs)[..h % |vs|]
    ensures multiset(leaders) == multiset(Addresses(vs))
  {
    var k, r, s := |vs|, h % |vs|, Addresses(vs);
    forall i | 0 <= i < k
      ensures leaders[i] == (s[r..] + s[..r])[i]
    {
      ModAdd(h, i, k);
    }
    assert leaders == s[r..] + s[..r];
    assert s == s[..r] + s[r..];
  }

  /** consensus.NewSet: the eligible genesis validators in order. */
  function NewSet(vs: seq<GenesisValidator>, minStake: u64): seq<Validator> {
    if vs == [] then []
    else
      var init := NewSet(vs[..|vs| - 1], minStake);
      var v := vs[|vs| - 1];
      if Eligible(v, minStake) then init + [Validator(ParseAddress(v.address).value, v.stake)] else init
  }

  /** Who is in the set: every listed validator whose address parses and whose stake is at least the
      minimum, and nobody else. */
  lemma {:induction false} NewSetMembers(vs: seq<GenesisValidator>, minStake: u64, x: Validator)
    ensures x in NewSet(vs, minStake) <==>
            exists i :: 0 <= i < |vs| && ParseAddress(vs[i].address) == Some(x.address)
                        && vs[i].stake == x.stake && x.stake >= minStake
  {
    if vs != [] {
      var n := |vs| - 1;
      var init := vs[..n];
      NewSetMembers(init, minStake, x);
      assert forall i :: 0 <= i < n ==> init[i] == vs[i];
    }
  }

  method BuildSet(genesis: seq<GenesisValidator>, minStake: u64) returns (list: seq<Validator>)
    ensures list == NewSet(genesis, minStake)
  {
    list := [];
    for i := 0 to |genesis|
      invariant list == NewSet(genesis[..i], minStake)
    {
      assert genesis[..i + 1][..i] == genesis[..i];
      var a := ParseAddress(genesis[i].address);
      if a.Some? && genesis[i].stake >= minStake {
        list := list + [Validator(a.value, genesis[i].stake)];
      }
    }
    assert genesis[..|genesis|] == genesis;
  }

  lemma {:induction false} GenesisStakesPositive(stakes: Sheet, vs: seq<GenesisValidator>, minStake: u64, i: nat)
    requires minStake > 0 && i < |vs| && Eligible(vs[i], minStake)
    ensures Get(GenesisStakes(stakes, vs, minStake), ParseAddress(vs[i].address).value) >= minStake
  {
    if i < |vs| - 1 {
      GenesisStakesPositive(stakes, vs[..|vs| - 1], minStake, i);
    }
  }

  lemma {:induction false} DecodedGenesis(vs: seq<GenesisValidator>, minStake: u64, stakes: Sheet)
    requires forall i :: 0 <= i < |vs| && Eligible(vs[i], minStake) ==>
               Get(stakes, ParseAddress(vs[i].address).value) > 0
    ensures Addresses(Decoded(GenesisList(vs, minStake), stakes)) == Addresses(NewSet(vs, minStake))
  {
    if vs != [] {
      var init, v := vs[..|vs| - 1], vs[|vs| - 1];
      DecodedGenesis(init, minStake, stakes);
      if Eligible(v, minStake) {
        var list := GenesisList(init, minStake);
        assert (list + [v.address])[..|list|] == list;
        var d, n := Decoded(list, stakes), NewSet(init, minStake);
        var a := ParseAddress(v.address).value;
        assert Eligible(vs[|vs| - 1], minStake);
        assert Decoded(list + [v.address], stakes) == d + [Validator(a, Get(stakes, a))];
        assert Addresses(d + [Validator(a, Get(stakes, a))]) == Addresses(d) + [a];
        assert Addresses(n + [Validator(a, v.stake)]) == Addresses(n) + [a];
      }
    }
  }

  lemma {:induction false} GenesisStakesOverride(st: Sheet, st': Sheet, vs: seq<GenesisValidator>, minStake: u64,
                                                 i: nat)
    requires i < |vs| && Eligible(vs[i], minStake)
    ensures var a := ParseAddress(vs[i].address).value;
      Get(GenesisStakes(st, vs, minStake), a) == Get(GenesisStakes(st', vs, minStake), a)
  {
    if i < |vs| - 1 {
      GenesisStakesOverride(st, st', vs[..|vs| - 1], minStake, i);
    }
  }

  lemma {:induction false} NoneEligible(st: Sheet, vs: seq<GenesisValidator>, minStake: u64)
    requires GenesisList(vs, minStake) == []
    ensures GenesisStakes(st, vs, minStake) == st
  {
    if vs != [] {
      NoneEligible(st, vs[..|vs| - 1], minStake);
    }
  }

  lemma {:induction false} DecodedAlike(vs: seq<GenesisValidator>, minStake: u64, st: Sheet, st': Sheet)
    requires forall i :: 0 <= i < |vs| && Eligible(vs[i], minStake) ==>
               Get(st, ParseAddress(vs[i].address).value) == Get(st', ParseAddress(vs[i].address).value)
    ensures Decoded(GenesisList(vs, minStake), st) == Decoded(GenesisList(vs, minStake), st')
  {
    if vs != [] {
      var init, v := vs[..|vs| - 1], vs[|vs| - 1];
      DecodedAlike(init, minStake, st, st');
      if Eligible(v, minStake) {
        var list := GenesisList(init, minStake);
        assert (list + [v.address])[..|list|] == list;
        assert Eligible(vs[|vs| - 1], minStake);
      }
    }
  }

  /** Applying genesis again gives back the genesis validator set, or changes nothing if genesis names
      no eligible validator. */
  lemma GenesisRestoresSet(v: View, acc: Accounts, g: Genesis)
    ensures ValidatorSet(WithGenesis(v, acc, g)) ==
            if GenesisList(g.validators, g.minStake) != [] then ValidatorSet(GenesisView(g)) else ValidatorSet(v)
    ensures GenesisList(g.validators, g.minStake) == [] ==> ValidatorSet(GenesisView(g)) == []
  {
    if GenesisList(g.validators, g.minStake) == [] {
      NoneEligible(v.stakes, g.validators, g.minStake);
    } else {
      var st, st' := GenesisStakes(v.stakes, g.validators, g.minStake), GenesisStakes(map[], g.validators, g.minStake);
      forall i | 0 <= i < |g.validators| && Eligible(g.validators[i], g.minStake)
        ensures Get(st, ParseAddress(g.validators[i].address).value)
             == Get(st', ParseAddress(g.validators[i].address).value)
      {
        GenesisStakesOverride(v.stakes, map[], g.validators, g.minStake, i);
      }
      DecodedAlike(g.validators, g.minStake, st, st');
    }
  }

  /** On a fresh state with the same positive minimum stake, the set built straight from the genesis
      file and the set read back from the state name the same leader at every height. */
  lemma SameLeaders(g: Genesis, height: u64)
    requires g.minStake > 0
    ensures Addresses(ValidatorSet(GenesisView(g))) == Addresses(NewSet(g.validators, g.minStake))
    ensures Leader(ValidatorSet(GenesisView(g)), height) == Leader(NewSet(g.validators, g.minStake), height)
    ensures var vs := NewSet(g.validators, g.minStake);
      vs != [] ==> Leader(ValidatorSet(GenesisView(g)), height) == vs[height % |vs|].address
  {
    var view := GenesisView(g);
    forall i | 0 <= i < |g.validators| && Eligible(g.validators[i], g.minStake)
      ensures Get(view.stakes, ParseAddress(g.validators[i].address).value) > 0
    {
      GenesisStakesPositive(map[], g.validators, g.minStake, i);
    }
    DecodedGenesis(g.validators, g.minStake, view.stakes);
    var p, q := ValidatorSet(view), NewSet(g.validators, g.minStake);
    assert Addresses(p) == Addresses(q);
    assert |p| == |Addresses(p)| == |Addresses(q)| == |q|;
    if p != [] {
      var i := height % |p|;
      assert p[i].address == Addresses(p)[i] == Addresses(q)[i] == q[i].address;
    }
  }
}
