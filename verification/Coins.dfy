/**
 The bank: balances by account and denomination, and the supply of each
 denomination.  Amounts of zero are not stored.
 */
module Coins {
  import opened Basics

  /** Addresses, opaque and distinct: users, the escrow account of each channel, and
      the module accounts. */
  datatype Account = User(name: string) | Escrow(channel: string) | Module(name: string)

  datatype Holding = Holding(account: Account, denom: string)

  type pos = x: int | x > 0 witness 1

  datatype Bank = Bank(balances: map<Holding, pos>, supply: map<string, pos>)

  function Amount<K>(m: map<K, pos>, k: K): nat { if k in m then m[k] else 0 }

  function Put<K>(m: map<K, pos>, k: K, v: nat): map<K, pos> {
    if v == 0 then m - {k} else m[k := v]
  }

  function Balance(b: Bank, a: Account, d: string): nat { Amount(b.balances, Holding(a, d)) }

  function Supply(b: Bank, d: string): nat { Amount(b.supply, d) }

  /** A balance raised by an amount, or lowered by one it covers. */
  function Shift(b: Bank, a: Account, d: string, delta: int): Bank
    requires Balance(b, a, d) + delta >= 0
  {
    b.(balances := Put(b.balances, Holding(a, d), Balance(b, a, d) + delta))
  }

  function Mint(b: Bank, a: Account, d: string, x: nat): Bank {
    var c := Shift(b, a, d, x);
    c.(supply := Put(b.supply, d, Supply(b, d) + x))
  }

  predicate CanPay(b: Bank, a: Account, d: string, x: nat) { Balance(b, a, d) >= x }

  function Burn(b: Bank, a: Account, d: string, x: nat): Bank
    requires CanPay(b, a, d, x)
  {
    var c := Shift(b, a, d, -(x as int));
    c.(supply := Put(b.supply, d, if Supply(b, d) >= x then Supply(b, d) - x else 0))
  }

  function Send(b: Bank, from: Account, to: Account, d: string, x: nat): Bank
    requires CanPay(b, from, d, x)
  {
    Shift(Shift(b, from, d, -(x as int)), to, d, x)
  }

  // --------------------------------------------------------------- conservation

  function HoldersOf(m: map<Holding, pos>, d: string): (keys: set<Holding>)
    ensures keys <= m.Keys
  {
    set k | k in m && k.denom == d
  }

  /** Everything held of a denomination, by all accounts together. */
  ghost function Held(b: Bank, d: string): int { Sum(HoldersOf(b.balances, d), b.balances) }

  ghost predicate Conserved(b: Bank) { forall d: string :: Held(b, d) == Supply(b, d) }

  lemma HeldWithout(m: map<Holding, pos>, k: Holding)
    ensures Sum(HoldersOf(m, k.denom), m)
            == Amount(m, k) + Sum(HoldersOf(m, k.denom) - {k}, m)
    ensures Sum(HoldersOf(m, k.denom) - {k}, m) >= 0
  {
    SumOfSubset(HoldersOf(m, k.denom) - {k}, HoldersOf(m, k.denom), m);
    if k in m {
      SumSplit(HoldersOf(m, k.denom), m, k);
    } else {
      assert HoldersOf(m, k.denom) - {k} == HoldersOf(m, k.denom);
    }
  }

  lemma ShiftHeld(b: Bank, a: Account, d: string, delta: int, e: string)
    requires Balance(b, a, d) + delta >= 0
    ensures Held(Shift(b, a, d, delta), e) == Held(b, e) + if e == d then delta else 0
  {
    var m, n, k := b.balances, Shift(b, a, d, delta).balances, Holding(a, d);
    if e == d {
      HeldWithout(m, k);
      HeldWithout(n, k);
      assert HoldersOf(m, d) - {k} == HoldersOf(n, d) - {k};
      SumAgrees(HoldersOf(m, d) - {k}, m, n);
    } else {
      assert HoldersOf(m, e) == HoldersOf(n, e);
      SumAgrees(HoldersOf(m, e), m, n);
    }
  }

  /** What two accounts hold is covered by the supply. */
  lemma HoldingsWithinSupply(b: Bank, a: Account, c: Account, d: string)
    requires Conserved(b) && a != c
    ensures Balance(b, a, d) + Balance(b, c, d) <= Supply(b, d)
  {
    var m, j, k := b.balances, Holding(a, d), Holding(c, d);
    assert Held(b, d) == Supply(b, d);
    HeldWithout(m, j);
    var rest := HoldersOf(m, d) - {j};
    if k in rest {
      SumSplit(rest, m, k);
      SumOfSubset(rest - {k}, rest, m);
    }
  }

  lemma BalanceWithinSupply(b: Bank, a: Account, d: string)
    requires Conserved(b)
    ensures Balance(b, a, d) <= Supply(b, d)
  {
    assert Held(b, d) == Supply(b, d);
    HeldWithout(b.balances, Holding(a, d));
  }

  lemma MintConserves(b: Bank, a: Account, d: string, x: nat)
    requires Conserved(b)
    ensures Conserved(Mint(b, a, d, x))
  {
    forall e: string
      ensures Held(Mint(b, a, d, x), e) == Supply(Mint(b, a, d, x), e)
    {
      ShiftHeld(b, a, d, x, e);
      assert Held(b, e) == Supply(b, e);
    }
  }

  lemma BurnConserves(b: Bank, a: Account, d: string, x: nat)
    requires Conserved(b) && CanPay(b, a, d, x)
    ensures Conserved(Burn(b, a, d, x)) && Supply(Burn(b, a, d, x), d) == Supply(b, d) - x
  {
    assert Held(b, d) == Supply(b, d);
    HeldWithout(b.balances, Holding(a, d));
    forall e: string
      ensures Held(Burn(b, a, d, x), e) == Supply(Burn(b, a, d, x), e)
    {
      ShiftHeld(b, a, d, -(x as int), e);
      assert Held(b, e) == Supply(b, e);
    }
  }

  lemma SendConserves(b: Bank, from: Account, to: Account, d: string, x: nat)
    requires Conserved(b) && CanPay(b, from, d, x)
    ensures Conserved(Send(b, from, to, d, x))
  {
    forall e: string
      ensures Held(Send(b, from, to, d, x), e) == Supply(Send(b, from, to, d, x), e)
    {
      ShiftHeld(b, from, d, -(x as int), e);
      ShiftHeld(Shift(b, from, d, -(x as int)), to, d, x, e);
      assert Held(b, e) == Supply(b, e);
    }
  }

  // ------------------------------------------------------- sequences of movements

  lemma SameBalances(b: Bank, c: Bank)
    requires forall a, d :: Balance(b, a, d) == Balance(c, a, d)
    requires forall d: string :: Supply(b, d) == Supply(c, d)
    ensures b == c
  {
    forall k: Holding
      ensures Amount(b.balances, k) == Amount(c.balances, k)
    {
      assert Balance(b, k.account, k.denom) == Balance(c, k.account, k.denom);
    }
    SameMaps(b.balances, c.balances);
    forall d: string
      ensures Amount(b.supply, d) == Amount(c.supply, d)
    {
      assert Supply(b, d) == Supply(c, d);
    }
    SameMaps(b.supply, c.supply);
  }

  lemma SameMaps<K>(m: map<K, pos>, n: map<K, pos>)
    requires forall k: K :: Amount(m, k) == Amount(n, k)
    ensures m == n
  {
    forall k | k in m
      ensures k in n && n[k] == m[k]
    {
      assert Amount(m, k) == Amount(n, k);
    }
    forall k | k in n
      ensures k in m
    {
      assert Amount(m, k) == Amount(n, k);
    }
  }

  lemma SentAndBurned(b: Bank, x: Account, y: Account, d: string, a: nat)
    requires CanPay(b, x, d, a)
    ensures CanPay(Send(b, x, y, d, a), y, d, a)
    ensures Burn(Send(b, x, y, d, a), y, d, a) == Burn(b, x, d, a)
  {
    SameBalances(Burn(Send(b, x, y, d, a), y, d, a), Burn(b, x, d, a));
  }

  lemma MintedAndSent(b: Bank, x: Account, y: Account, d: string, a: nat)
    ensures CanPay(Mint(b, x, d, a), x, d, a)
    ensures Send(Mint(b, x, d, a), x, y, d, a) == Mint(b, y, d, a)
  {
    SameBalances(Send(Mint(b, x, d, a), x, y, d, a), Mint(b, y, d, a));
  }

  lemma BurnedAndMinted(b: Bank, x: Account, d: string, a: nat)
    requires CanPay(b, x, d, a) && Supply(b, d) >= a
    ensures Mint(Burn(b, x, d, a), x, d, a) == b
  {
    SameBalances(Mint(Burn(b, x, d, a), x, d, a), b);
  }
}
