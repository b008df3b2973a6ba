/** Totals of the balances in a ledger. */
module LedgerSums {
  import opened Prelude

  ghost function SumOver(m: Ledger, s: set<Address>): nat
    requires s <= m.Keys
  {
    if s == {} then 0 else m[MinOf(s)] + SumOver(m, s - {MinOf(s)})
  }

  ghost function Total(m: Ledger): nat {
    SumOver(m, m.Keys)
  }

  /** Any key may be taken out of the sum first. */
  lemma {:induction false} SumPick(m: Ledger, s: set<Address>, y: Address)
    requires s <= m.Keys && y in s
    ensures SumOver(m, s) == m[y] + SumOver(m, s - {y})
  {
    var x := MinOf(s);
    if x != y {
      SumPick(m, s - {x}, y);
      assert x in s - {y};
      var z := MinOf(s - {y});
      assert z in s;
      assert z == x;
      assert s - {x} - {y} == s - {y} - {x};
    }
  }

  lemma {:induction false} SumFrame(m: Ledger, n: Ledger, s: set<Address>)
    requires s <= m.Keys && s <= n.Keys && forall a :: a in s ==> m[a] == n[a]
    ensures SumOver(m, s) == SumOver(n, s)
  {
    if s != {} {
      SumFrame(m, n, s - {MinOf(s)});
    }
  }

  lemma TotalAfterRemoval(m: Ledger, k: Address)
    requires k in m
    ensures Total(m - {k}) == Total(m) - m[k]
  {
    var n := m - {k};
    assert n.Keys == m.Keys - {k};
    SumPick(m, m.Keys, k);
    SumFrame(m, n, n.Keys);
  }

  lemma TotalAfterUpdate(m: Ledger, k: Address, v: amount128)
    ensures Total(m[k := v]) == Total(m) - Balance(m, k) + v
    ensures Balance(m, k) <= Total(m)
  {
    var n := m[k := v];
    var rest := m.Keys - {k};
    assert n.Keys - {k} == rest;
    SumPick(n, n.Keys, k);
    SumFrame(m, n, rest);
    if k in m {
      SumPick(m, m.Keys, k);
    } else {
      assert rest == m.Keys;
    }
  }

  /** Where every balance is positive, one holder has everything exactly when there is no other holder. */
  lemma SoleHolder(m: Ledger, k: Address)
    requires k in m && forall a :: a in m ==> m[a] > 0
    ensures m[k] == Total(m) <==> m.Keys == {k}
  {
    SumPick(m, m.Keys, k);
    if m.Keys != {k} {
      var other :| other in m.Keys && other != k;
      SumPick(m, m.Keys - {k}, other);
    } else {
      assert m.Keys - {k} == {};
    }
  }

  // ---------------------------------------------------------------- sums along a list of keys

  ghost function SumAlong(m: Ledger, keys: seq<Address>): nat
    requires forall k :: k in keys ==> k in m
  {
    if keys == [] then 0 else SumAlong(m, keys[..|keys| - 1]) + m[keys[|keys| - 1]]
  }

  ghost function Elements(keys: seq<Address>): set<Address> {
    set k | k in keys
  }

  lemma ElementsSnoc(init: seq<Address>, x: Address)
    requires Distinct(init + [x])
    ensures Distinct(init) && x !in init
    ensures Elements(init + [x]) - {x} == Elements(init)
  {
    var keys := init + [x];
    forall i, j | 0 <= i < j < |init| ensures init[i] != init[j] {
      assert keys[i] != keys[j];
    }
    forall i | 0 <= i < |init| ensures init[i] != x {
      assert keys[i] != keys[|init|];
    }
  }

  lemma {:induction false} SumAlongIsSum(m: Ledger, keys: seq<Address>)
    requires Distinct(keys) && forall k :: k in keys ==> k in m
    ensures SumAlong(m, keys) == SumOver(m, Elements(keys))
  {
    if keys != [] {
      var init, x := keys[..|keys| - 1], keys[|keys| - 1];
      assert keys == init + [x];
      ElementsSnoc(init, x);
      SumAlongIsSum(m, init);
      SumPick(m, Elements(keys), x);
    }
  }

  lemma SumOfAllKeys(m: Ledger)
    ensures forall k :: k in Ascending(m.Keys) ==> k in m
    ensures SumAlong(m, Ascending(m.Keys)) == Total(m)
  {
    AscendingLists(m.Keys);
    var keys := Ascending(m.Keys);
    SumAlongIsSum(m, keys);
    assert Elements(keys) == m.Keys;
  }

  // ---------------------------------------------------------------- proportional shares rounded down

  /** The sum, along `keys`, of `amount * share / whole` rounded down. */
  ghost function Floors(m: Ledger, keys: seq<Address>, amount: nat, whole: nat): nat
    requires whole > 0 && forall k :: k in keys ==> k in m
  {
    if keys == [] then 0
    else
      QuotientRemainder(amount * m[keys[|keys| - 1]], whole);
      Floors(m, keys[..|keys| - 1], amount, whole) + amount * m[keys[|keys| - 1]] / whole
  }

  lemma FloorStep(floors: nat, sum: nat, n: nat, amount: nat, share: nat, whole: nat)
    requires whole > 0
    requires floors * whole <= amount * sum <= floors * whole + n * (whole - 1)
    ensures var q := amount * share / whole;
      (floors + q) * whole <= amount * (sum + share) <= (floors + q) * whole + (n + 1) * (whole - 1)
  {
    var q := amount * share / whole;
    QuotientRemainder(amount * share, whole);
    Distributes(floors, q, whole);
    Distributes(sum, share, amount);
    Distributes(n, 1, whole - 1);
  }

  lemma {:induction false} FloorsBound(m: Ledger, keys: seq<Address>, amount: nat, whole: nat)
    requires whole > 0 && forall k :: k in keys ==> k in m
    ensures var f := Floors(m, keys, amount, whole);
      f * whole <= amount * SumAlong(m, keys) <= f * whole + |keys| * (whole - 1)
  {
    if keys != [] {
      var n := |keys| - 1;
      FloorsBound(m, keys[..n], amount, whole);
      FloorStep(Floors(m, keys[..n], amount, whole), SumAlong(m, keys[..n]), n, amount, m[keys[n]], whole);
    }
  }

  lemma LossIsSmall(f: nat, amount: nat, n: nat, whole: nat)
    requires whole > 0 && n > 0
    requires f * whole <= amount * whole <= f * whole + n * (whole - 1)
    ensures f <= amount < f + n
  {
    ProductOrder(amount, f, whole);
    ProductOrder(f + n, amount, whole);
    Distributes(f, n, whole);
    Distributes(whole - 1, 1, n);
  }

  /** When the shares make up the whole, rounding down loses less than one unit per holder. */
  lemma RoundingLoss(m: Ledger, keys: seq<Address>, amount: nat, whole: nat)
    requires whole > 0 && keys != [] && forall k :: k in keys ==> k in m
    requires SumAlong(m, keys) == whole
    ensures Floors(m, keys, amount, whole) <= amount < Floors(m, keys, amount, whole) + |keys|
  {
    FloorsBound(m, keys, amount, whole);
    LossIsSmall(Floors(m, keys, amount, whole), amount, |keys|, whole);
  }
}
