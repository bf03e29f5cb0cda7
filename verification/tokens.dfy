/**
 The token contracts seen by the escrow and multisig contracts: balances per asset, transfers
 that fail when the payer is short or the payee's balance would overflow, and total supply.
 */
module Tokens {
  import opened Wrappers

  type Address = string

  const MAX_I128: nat := 0x7fff_ffff_ffff_ffff_ffff_ffff_ffff_ffff
  const MAX_U64: nat := 0xffff_ffff_ffff_ffff

  type Balances = map<Address, map<Address, nat>>

  function Holders(b: Balances, asset: Address): map<Address, nat> {
    if asset in b then b[asset] else map[]
  }

  function Balance(b: Balances, asset: Address, who: Address): nat {
    if who in Holders(b, asset) then Holders(b, asset)[who] else 0
  }

  function SetBalance(b: Balances, asset: Address, who: Address, amount: nat): (r: Balances)
    ensures forall a, w :: Balance(r, a, w) == if a == asset && w == who then amount else Balance(b, a, w)
  {
    b[asset := Holders(b, asset)[who := amount]]
  }

  /** What a transfer adds to one holder's balance of the transferred asset. */
  function Delta(payer: Address, payee: Address, amount: nat, who: Address): int {
    if payer == payee then 0 else if who == payer then 0 - amount else if who == payee then amount else 0
  }

  /** A transfer debits the payer, then credits the payee; either half may fail. */
  function Transfer(b: Balances, asset: Address, payer: Address, payee: Address, amount: nat): (r: Option<Balances>)
    ensures r.Some? <==>
            && amount <= Balance(b, asset, payer)
            && (payer != payee ==> Balance(b, asset, payee) + amount <= MAX_I128)
            && (payer == payee ==> Balance(b, asset, payee) <= MAX_I128)
    ensures r.Some? ==> forall w :: Balance(r.value, asset, w) == Balance(b, asset, w) + Delta(payer, payee, amount, w)
    ensures r.Some? ==> forall a, w :: a != asset ==> Balance(r.value, a, w) == Balance(b, a, w)
  {
    if Balance(b, asset, payer) < amount then None
    else
      var debited := SetBalance(b, asset, payer, Balance(b, asset, payer) - amount);
      if Balance(debited, asset, payee) + amount > MAX_I128 then None
      else Some(SetBalance(debited, asset, payee, Balance(debited, asset, payee) + amount))
  }

  /** An issuer creates new tokens. */
  function Mint(b: Balances, asset: Address, payee: Address, amount: nat): Balances {
    if Balance(b, asset, payee) + amount > MAX_I128 then b
    else SetBalance(b, asset, payee, Balance(b, asset, payee) + amount)
  }

  ghost predicate BalancesInRange(b: Balances) {
    forall a, w :: Balance(b, a, w) <= MAX_I128
  }

  // ----- Total supply --------------------------------------------------------------------

  ghost function MapSum(m: map<Address, nat>): nat {
    if m == map[] then 0 else
      var k :| k in m;
      m[k] + MapSum(m - {k})
  }

  ghost function Supply(b: Balances, asset: Address): nat {
    MapSum(Holders(b, asset))
  }

  /** The order in which a map is summed does not matter. */
  lemma {:induction false} MapSumRemove(m: map<Address, nat>, k: Address)
    requires k in m
    ensures MapSum(m) == m[k] + MapSum(m - {k})
    decreases |m|
  {
    var j :| j in m && MapSum(m) == m[j] + MapSum(m - {j});
    if j != k {
      MapSumRemove(m - {j}, k);
      MapSumRemove(m - {k}, j);
      assert m - {j} - {k} == m - {k} - {j};
    }
  }

  lemma MapSumUpdate(m: map<Address, nat>, k: Address, v: nat)
    ensures MapSum(m[k := v]) == MapSum(m) - (if k in m then m[k] else 0) + v
  {
    MapSumRemove(m[k := v], k);
    if k in m {
      MapSumRemove(m, k);
      assert m[k := v] - {k} == m - {k};
    } else {
      assert m[k := v] - {k} == m;
    }
  }

  lemma SetBalanceSupply(b: Balances, asset: Address, who: Address, amount: nat, other: Address)
    ensures Supply(SetBalance(b, asset, who, amount), other) ==
            if other == asset then Supply(b, asset) - Balance(b, asset, who) + amount else Supply(b, other)
  {
    MapSumUpdate(Holders(b, asset), who, amount);
  }

  /** A transfer moves tokens and neither creates nor destroys any, in any asset. */
  lemma TransferKeepsSupply(b: Balances, asset: Address, payer: Address, payee: Address, amount: nat, other: Address)
    requires Transfer(b, asset, payer, payee, amount).Some?
    ensures Supply(Transfer(b, asset, payer, payee, amount).value, other) == Supply(b, other)
  {
    var debited := SetBalance(b, asset, payer, Balance(b, asset, payer) - amount);
    SetBalanceSupply(b, asset, payer, Balance(b, asset, payer) - amount, other);
    SetBalanceSupply(debited, asset, payee, Balance(debited, asset, payee) + amount, other);
  }

  /** No balance exceeds the supply of its asset. */
  lemma BalanceWithinSupply(b: Balances, asset: Address, who: Address)
    ensures Balance(b, asset, who) <= Supply(b, asset)
  {
    if who in Holders(b, asset) {
      MapSumRemove(Holders(b, asset), who);
    }
  }

  lemma {:induction false} TwoBalancesWithinSupply(b: Balances, asset: Address, x: Address, y: Address)
    requires x != y
    ensures Balance(b, asset, x) + Balance(b, asset, y) <= Supply(b, asset)
  {
    var m := Holders(b, asset);
    if x in m {
      MapSumRemove(m, x);
      if y in m {
        MapSumRemove(m - {x}, y);
      }
    } else {
      BalanceWithinSupply(b, asset, y);
    }
  }
}
