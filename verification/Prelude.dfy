/** Host integers, optional values and the few sequence facts shared by every component. */
module Prelude {

  const U32_MAX: nat := 0xFFFF_FFFF
  const U64_MAX: nat := 0xFFFF_FFFF_FFFF_FFFF
  const I128_MAX: int := 0x7FFF_FFFF_FFFF_FFFF_FFFF_FFFF_FFFF_FFFF
  const I128_MIN: int := -I128_MAX - 1

  type u32 = n: nat | n <= U32_MAX
  type u64 = n: nat | n <= U64_MAX
  type i128 = n: int | I128_MIN <= n <= I128_MAX

  /** Account and contract addresses: identities with the order in which the host iterates map keys. */
  type Address = nat

  /** Stored amounts, share counts and rewards: the code never stores a negative one. */
  type amount128 = n: nat | n <= I128_MAX
  type positive128 = n: nat | 0 < n <= I128_MAX witness 1

  /** What each account has of something. */
  type Ledger = map<Address, amount128>

  function Balance(m: Ledger, a: Address): amount128 {
    if a in m then m[a] else 0
  }

  datatype Option<+T> = None | Some(value: T)

  function Max(a: int, b: int): int {
    if a >= b then a else b
  }

  function Min(a: int, b: int): int {
    if a <= b then a else b
  }

  /** No element occurs twice. */
  ghost predicate Distinct<T>(s: seq<T>) {
    forall i, j :: 0 <= i < j < |s| ==> s[i] != s[j]
  }

  /** `s` with every occurrence of `x` dropped and the order of the rest kept. */
  function Without<T(==)>(s: seq<T>, x: T): seq<T> {
    if s == [] then []
    else (if s[0] == x then [] else [s[0]]) + Without(s[1..], x)
  }

  lemma {:induction false} WithoutSnoc<T>(s: seq<T>, y: T, x: T)
    ensures Without(s + [y], x) == Without(s, x) + (if y == x then [] else [y])
  {
    if s == [] {
      assert Without([y], x) == (if y == x then [] else [y]) + Without([], x);
    } else {
      assert (s + [y])[1..] == s[1..] + [y];
      WithoutSnoc(s[1..], y, x);
    }
  }

  lemma {:induction false} WithoutMembers<T>(s: seq<T>, x: T)
    ensures x !in Without(s, x)
    ensures forall y :: y in Without(s, x) <==> y in s && y != x
  {
    if s != [] {
      WithoutMembers(s[1..], x);
      assert s == [s[0]] + s[1..];
    }
  }

  lemma {:induction false} WithoutAbsent<T>(s: seq<T>, x: T)
    requires x !in s
    ensures Without(s, x) == s
  {
    if s != [] {
      WithoutAbsent(s[1..], x);
    }
  }

  lemma {:induction false} WithoutLength<T>(s: seq<T>, x: T)
    ensures |Without(s, x)| == |s| - multiset(s)[x]
  {
    if s != [] {
      WithoutLength(s[1..], x);
      assert s == [s[0]] + s[1..];
    }
  }

  lemma {:induction false} WithoutKeepsDistinct<T>(s: seq<T>, x: T)
    requires Distinct(s)
    ensures Distinct(Without(s, x))
    ensures |Without(s, x)| == |s| - (if x in s then 1 else 0)
  {
    if s != [] {
      var rest := s[1..];
      assert s == [s[0]] + rest;
      assert Distinct(rest) by {
        forall i, j | 0 <= i < j < |rest| ensures rest[i] != rest[j] {
          assert s[i + 1] != s[j + 1];
        }
      }
      assert s[0] !in rest by {
        forall j | 0 <= j < |rest| ensures rest[j] != s[0] {
          assert s[0] != s[j + 1];
        }
      }
      WithoutKeepsDistinct(rest, x);
      WithoutMembers(rest, x);
    }
  }

  /** The copying loop with which the contracts rebuild a vector without one of its values. */
  method CopyWithout<T(==)>(list: seq<T>, x: T) returns (newList: seq<T>)
    ensures newList == Without(list, x)
  {
    newList := [];
    for i := 0 to |list|
      invariant newList == Without(list[..i], x)
    {
      assert list[..i + 1] == list[..i] + [list[i]];
      WithoutSnoc(list[..i], list[i], x);
      if list[i] != x {
        newList := newList + [list[i]];
      }
    }
    assert list[..|list|] == list;
  }

  lemma DistinctSnoc<T>(s: seq<T>, x: T)
    requires Distinct(s) && x !in s
    ensures Distinct(s + [x])
  {
  }

  // ---------------------------------------------------------------- products and quotients

  lemma ProductDifference(a: nat, b: nat, d: nat)
    requires a <= b
    ensures a * d <= b * d && (b - a) * d == b * d - a * d
  {
  }

  lemma ProductOrder(a: nat, b: nat, d: nat)
    ensures a <= b ==> a * d <= b * d && (b - a) * d == b * d - a * d
    ensures a < b ==> a * d + d <= b * d
  {
    if a < b {
      ProductDifference(a + 1, b, d);
      ProductDifference(a, b, d);
      ProductDifference(a, a + 1, d);
    }
  }

  lemma ProductMonotone(a: nat, b: nat, c: nat, d: nat)
    requires a <= b && c <= d
    ensures a * c <= b * d
  {
    ProductOrder(a, b, c);
    ProductOrder(c, d, b);
  }

  lemma Distributes(a: int, b: int, d: int)
    ensures (a + b) * d == a * d + b * d
    ensures d * (a + b) == d * a + d * b
  {
  }

  lemma QuotientRemainder(n: nat, d: nat)
    requires d > 0
    ensures n == n / d * d + n % d && 0 <= n / d && 0 <= n % d < d
  {
  }

  lemma QuotientUnique(n: nat, d: nat, q: nat, r: nat)
    requires d > 0 && r < d && n == q * d + r
    ensures n / d == q && n % d == r
  {
    QuotientRemainder(n, d);
    ProductOrder(n / d, q, d);
    ProductOrder(q, n / d, d);
  }

  lemma QuotientBound(n: nat, d: nat)
    requires d > 0
    ensures 0 <= n / d <= n
  {
    QuotientRemainder(n, d);
    ProductOrder(1, d, n / d);
  }

  lemma MultipleHasNoRemainder(q: nat, d: nat)
    requires d > 0
    ensures q * d % d == 0
  {
    QuotientUnique(q * d, d, q, 0);
  }

  lemma QuotientMonotone(a: nat, b: nat, d: nat)
    requires d > 0 && a <= b
    ensures a / d <= b / d
  {
    QuotientRemainder(a, d);
    QuotientRemainder(b, d);
    ProductOrder(b / d, a / d, d);
  }

  lemma QuotientSuperadditive(a: nat, b: nat, d: nat)
    requires d > 0
    ensures a / d + b / d <= (a + b) / d
  {
    QuotientRemainder(a, d);
    QuotientRemainder(b, d);
    QuotientRemainder(a + b, d);
    Distributes(a / d, b / d, d);
    ProductOrder((a + b) / d, a / d + b / d, d);
  }

  lemma Associates(a: nat, b: nat, c: nat)
    ensures a * b * c == a * (b * c) && a * (b * c) == a * (c * b)
  {
  }

  lemma TwoStages(q: nat, r: nat, p: nat, s: nat, c: nat, d: nat)
    requires r < c && s < d && q == p * d + s
    ensures q * c + r == p * (c * d) + (s * c + r) && s * c + r < c * d
  {
    Distributes(p * d, s, c);
    Associates(p, d, c);
    ProductOrder(s, d, c);
  }

  /** Dividing in two stages rounds no more than dividing once. */
  lemma QuotientOfQuotient(n: nat, c: nat, d: nat)
    requires c > 0 && d > 0
    ensures c * d > 0 && n / c / d == n / (c * d)
  {
    var q, r := n / c, n % c;
    var p, s := q / d, q % d;
    QuotientRemainder(n, c);
    QuotientRemainder(q, d);
    TwoStages(q, r, p, s, c, d);
    QuotientUnique(n, c * d, p, s * c + r);
  }

  /** Sums and differences of multiples of `d` are multiples of `d`. */
  lemma MultiplesCombine(a: nat, b: nat, d: nat)
    requires d > 0 && a % d == 0 && b % d == 0
    ensures (a + b) % d == 0
    ensures b <= a ==> (a - b) % d == 0
    ensures 0 < a ==> d <= a
  {
    var p, q := a / d, b / d;
    QuotientRemainder(a, d);
    QuotientRemainder(b, d);
    Distributes(p, q, d);
    MultipleHasNoRemainder(p + q, d);
    ProductOrder(p, q, d);
    ProductOrder(q, p, d);
    if q <= p {
      MultipleHasNoRemainder(p - q, d);
    }
    ProductOrder(0, p, d);
  }

  // ---------------------------------------------------------------- keys in ascending order

  lemma {:induction false} Least(s: set<nat>) returns (m: nat)
    requires s != {}
    ensures m in s && forall y :: y in s ==> m <= y
  {
    var z :| z in s;
    m := z;
    if s - {z} != {} {
      var x := Least(s - {z});
      m := if x <= z then x else z;
      assert forall y :: y in s ==> y == z || y in s - {z};
    }
    else {
      assert forall y :: y in s ==> y !in s - {z};
    }
  }

  lemma MinExists(s: set<nat>)
    requires s != {}
    ensures exists x :: x in s && forall y :: y in s ==> x <= y
  {
    var m := Least(s);
  }

  function MinOf(s: set<nat>): (x: nat)
    requires s != {}
    ensures x in s && forall y :: y in s ==> x <= y
  {
    MinExists(s);
    var x :| x in s && forall y :: y in s ==> x <= y;
    x
  }

  /** The order in which the host enumerates the keys of a map. */
  function Ascending(s: set<nat>): seq<nat> {
    if s == {} then []
    else
      var x := MinOf(s);
      [x] + Ascending(s - {x})
  }

  /** `list` names the elements of `s`, each once, in ascending order. */
  ghost predicate Lists(list: seq<nat>, s: set<nat>) {
    && (forall x :: x in list <==> x in s)
    && (forall i, j :: 0 <= i < j < |list| ==> list[i] < list[j])
    && |list| == |s|
  }

  lemma ListsFirst(s: set<nat>, x: nat, rest: seq<nat>)
    requires x in s && (forall y :: y in s ==> x <= y) && Lists(rest, s - {x})
    ensures Lists([x] + rest, s)
  {
    forall j | 0 <= j < |rest| ensures x < rest[j] {
      assert rest[j] in s - {x};
    }
    assert |s - {x}| == |s| - 1;
  }

  lemma {:induction false} AscendingListsAll(s: set<nat>)
    ensures Lists(Ascending(s), s)
  {
    if s != {} {
      var x := MinOf(s);
      AscendingListsAll(s - {x});
      ListsFirst(s, x, Ascending(s - {x}));
    }
  }

  lemma AscendingLists(s: set<nat>)
    ensures Distinct(Ascending(s))
    ensures forall x :: x in Ascending(s) <==> x in s
    ensures |Ascending(s)| == |s|
    ensures forall i, j :: 0 <= i < j < |Ascending(s)| ==> Ascending(s)[i] < Ascending(s)[j]
  {
    AscendingListsAll(s);
  }
}
