/** Vocabulary shared by the other modules: optional values, real sums and a stable sort. */
module Prelude {

  datatype Option<+T> = None | Some(value: T) {
    function GetOr(default: T): T {
      match this
      case Some(v) => v
      case None => default
    }
  }

  datatype Result<+T, +E> = Ok(value: T) | Err(error: E)

  function Abs(x: real): real { if x < 0.0 then -x else x }

  function Max(x: real, y: real): real { if x < y then y else x }

  function Min(x: real, y: real): real { if y < x then y else x }

  function MaxInt(x: int, y: int): int { if x < y then y else x }

  function MinInt(x: int, y: int): int { if y < x then y else x }

  // -------------------------------------------------------------- real means

  lemma FactorSign(c: real, x: real)
    requires c > 0.0
    ensures c * x >= 0.0 <==> x >= 0.0
  {
    if x > 0.0 { assert c * x > 0.0; } else if x < 0.0 { assert c * -x > 0.0; }
  }

  lemma ProductNotNegative(x: real, y: real)
    requires x >= 0.0 && y >= 0.0
    ensures x * y >= 0.0
  {
  }

  lemma FactorOrder(c: real, x: real, y: real)
    requires c >= 0.0 && x <= y
    ensures c * x <= c * y
  {
    ProductNotNegative(c, y - x);
    assert c * (y - x) == c * y - c * x;
  }

  lemma DivisionCompare(a: real, n: real, c: real)
    requires n > 0.0
    ensures a / n <= c <==> a <= c * n
    ensures c <= a / n <==> c * n <= a
  {
    var x := a / n;
    assert a == x * n;
    FactorSign(n, c - x);
    FactorSign(n, x - c);
    assert n * (c - x) == c * n - a;
    assert n * (x - c) == a - c * n;
  }

  lemma FractionsAdd(a: real, b: real, n: real)
    requires n > 0.0
    ensures a / n + b / n == (a + b) / n
    ensures a / n - b / n == (a - b) / n
  {
  }

  /** Comparing two means by cross-multiplication. */
  lemma MeansCompare(a: real, k: real, b: real, n: real)
    requires k > 0.0 && n > 0.0
    ensures a / k <= b / n <==> a * n <= b * k
  {
    var x, y := a / k, b / n;
    assert a == x * k && b == y * n;
    assert b * k - a * n == (n * k) * (y - x) by {
      assert y * n * k == (n * k) * y && x * k * n == (n * k) * x;
    }
    FactorSign(n * k, y - x);
  }

  // -------------------------------------------------------- integer division

  lemma SmallerQuotient(delta: int, q: int, r: int, q': int)
    requires 0 <= r < delta && q < q'
    ensures delta * q + r < delta * q'
  {
    var steps := q' - q - 1;
    assert delta * steps >= 0;
    assert delta * q' == delta * q + delta + delta * steps;
  }

  lemma ProductOrder(delta: int, p: int, q: int)
    requires delta > 0
    ensures p < q <==> delta * p < delta * q
    ensures p <= q <==> delta * p <= delta * q
  {
    if p < q { SmallerQuotient(delta, p, 0, q); } else if q < p { SmallerQuotient(delta, q, 0, p); }
  }

  lemma QuotientUnique(delta: int, q: int, r: int, q': int, r': int)
    requires 0 <= r < delta && 0 <= r' < delta && delta * q + r == delta * q' + r'
    ensures q == q' && r == r'
  {
    if q < q' {
      SmallerQuotient(delta, q, r, q');
    } else if q' < q {
      SmallerQuotient(delta, q', r', q);
    }
  }

  lemma DivisionIs(d: int, delta: int, q: int, r: int)
    requires d == delta * q + r && 0 <= r < delta
    ensures d / delta == q && d % delta == r
  {
    QuotientUnique(delta, d / delta, d % delta, q, r);
  }

  lemma DivisionStep(d: int, delta: int)
    requires delta > 0
    ensures d / delta == (d - delta) / delta + 1 && d % delta == (d - delta) % delta
  {
    var q, r := (d - delta) / delta, (d - delta) % delta;
    assert d == delta * (q + 1) + r;
    DivisionIs(d, delta, q + 1, r);
  }

  // ------------------------------------------------------------------ sums

  function Sum(s: seq<real>): real {
    if s == [] then 0.0 else s[0] + Sum(s[1..])
  }

  lemma {:induction false} SumConcat(a: seq<real>, b: seq<real>)
    ensures Sum(a + b) == Sum(a) + Sum(b)
  {
    if a == [] {
      assert a + b == b;
    } else {
      assert (a + b)[1..] == a[1..] + b;
      SumConcat(a[1..], b);
    }
  }

  lemma SumOne(x: real)
    ensures Sum([x]) == x
  {
    assert [x][1..] == [];
  }

  // ------------------------------------------------------------- stable sort

  ghost predicate SortedBy<T>(s: seq<T>, key: T -> real) {
    forall i, j | 0 <= i < j < |s| :: key(s[i]) <= key(s[j])
  }

  function Insert<T>(x: T, s: seq<T>, key: T -> real): seq<T> {
    if s == [] || key(x) <= key(s[0]) then [x] + s else [s[0]] + Insert(x, s[1..], key)
  }

  /** Python's `sorted(s, key=key)`. */
  function SortBy<T>(s: seq<T>, key: T -> real): seq<T> {
    if s == [] then [] else Insert(s[0], SortBy(s[1..], key), key)
  }

  /** The key of a list of numbers. */
  function Itself(x: real): real { x }

  /** The elements whose key is k, in their order of appearance. */
  function WithKey<T>(s: seq<T>, key: T -> real, k: real): seq<T> {
    if s == [] then []
    else (if key(s[0]) == k then [s[0]] else []) + WithKey(s[1..], key, k)
  }

  lemma {:induction false} InsertPermutes<T>(x: T, s: seq<T>, key: T -> real)
    ensures multiset(Insert(x, s, key)) == multiset{x} + multiset(s)
    ensures |Insert(x, s, key)| == |s| + 1
  {
    if s == [] || key(x) <= key(s[0]) {
    } else {
      InsertPermutes(x, s[1..], key);
      assert s == [s[0]] + s[1..];
    }
  }

  lemma {:induction false} InsertSorts<T>(x: T, s: seq<T>, key: T -> real)
    requires SortedBy(s, key)
    ensures SortedBy(Insert(x, s, key), key)
  {
    if s == [] || key(x) <= key(s[0]) {
    } else {
      var t := Insert(x, s[1..], key);
      InsertSorts(x, s[1..], key);
      forall j | 0 <= j < |t| ensures key(s[0]) <= key(t[j]) {
        InsertPermutes(x, s[1..], key);
        assert t[j] in multiset(t);
        assert t[j] == x || t[j] in s[1..];
      }
    }
  }

  lemma {:induction false} InsertIsStable<T>(x: T, s: seq<T>, key: T -> real, k: real)
    requires SortedBy(s, key)
    ensures WithKey(Insert(x, s, key), key, k) == WithKey([x] + s, key, k)
  {
    if s == [] || key(x) <= key(s[0]) {
    } else {
      InsertIsStable(x, s[1..], key, k);
      WithKeyCons(s[0], Insert(x, s[1..], key), key, k);
      WithKeyCons(x, s, key, k);
      WithKeyCons(x, s[1..], key, k);
    }
  }

  lemma WithKeyCons<T>(x: T, s: seq<T>, key: T -> real, k: real)
    ensures WithKey([x] + s, key, k) == (if key(x) == k then [x] else []) + WithKey(s, key, k)
  {
    assert ([x] + s)[1..] == s;
  }

  lemma {:induction false} SortBySorts<T>(s: seq<T>, key: T -> real)
    ensures SortedBy(SortBy(s, key), key)
  {
    if s != [] {
      SortBySorts(s[1..], key);
      InsertSorts(s[0], SortBy(s[1..], key), key);
    }
  }

  lemma {:induction false} SortByPermutes<T>(s: seq<T>, key: T -> real)
    ensures multiset(SortBy(s, key)) == multiset(s)
    ensures |SortBy(s, key)| == |s|
  {
    if s != [] {
      SortByPermutes(s[1..], key);
      InsertPermutes(s[0], SortBy(s[1..], key), key);
      assert s == [s[0]] + s[1..];
    }
  }

  lemma {:induction false} SortByIsStable<T>(s: seq<T>, key: T -> real, k: real)
    ensures WithKey(SortBy(s, key), key, k) == WithKey(s, key, k)
  {
    if s != [] {
      SortByIsStable(s[1..], key, k);
      SortBySorts(s[1..], key);
      InsertIsStable(s[0], SortBy(s[1..], key), key, k);
      WithKeyCons(s[0], SortBy(s[1..], key), key, k);
    }
  }

  /** Sorting permutes and orders; `SortByIsStable` adds that equal keys keep their order. */
  lemma SortByOrders<T>(s: seq<T>, key: T -> real)
    ensures SortedBy(SortBy(s, key), key)
    ensures multiset(SortBy(s, key)) == multiset(s)
    ensures |SortBy(s, key)| == |s|
  {
    SortBySorts(s, key);
    SortByPermutes(s, key);
  }

  lemma MemberOf<T>(s: set<T>) returns (x: T)
    requires |s| > 0
    ensures x in s
  {
    x :| x in s;
  }

  /** What membership says about a permutation. */
  lemma SameMembers<T>(a: seq<T>, b: seq<T>)
    requires multiset(a) == multiset(b)
    ensures forall x :: x in a <==> x in b
  {
    forall x ensures x in a <==> x in b {
      assert x in a <==> x in multiset(a);
      assert x in b <==> x in multiset(b);
    }
  }
}
