/** Vocabulary shared by the models of the individual components. */
module Prelude {

  datatype Option<+T> = None | Some(value: T)

  datatype Result<+T, +E> = Ok(value: T) | Err(error: E)

  function Min(a: int, b: int): (m: int)
    ensures m <= a && m <= b && (m == a || m == b)
  {
    if a <= b then a else b
  }

  function Max(a: int, b: int): (m: int)
    ensures m >= a && m >= b && (m == a || m == b)
  {
    if a >= b then a else b
  }

  /** `xs` is obtained from `ys` by keeping the elements at the strictly increasing positions `at`. */
  ghost predicate PicksInOrder<T>(xs: seq<T>, ys: seq<T>, at: seq<nat>) {
    && |at| == |xs|
    && (forall i :: 0 <= i < |at| ==> at[i] < |ys| && xs[i] == ys[at[i]])
    && (forall i, j :: 0 <= i < j < |at| ==> at[i] < at[j])
  }

  lemma Regroup<T>(a: seq<T>, b: seq<T>, c: seq<T>)
    ensures a + (b + c) == (a + b) + c && a + [] == a
  {
  }

  /** `xs` can be obtained from `ys` by deleting elements. */
  ghost predicate Subsequence<T>(xs: seq<T>, ys: seq<T>) {
    exists at: seq<nat> :: PicksInOrder(xs, ys, at)
  }
}

/** Facts about the quotient and remainder of natural numbers. */
module Division {

  lemma ProductBounds(k: nat, i: nat, n: nat)
    requires i <= n
    ensures 0 <= k * i <= k * n
  {
    assert k * n == k * i + k * (n - i);
    assert k * i >= 0 && k * (n - i) >= 0;
  }

  /** The quotient is the largest factor that fits. */
  lemma QuotientBound(q: nat, a: nat, d: nat)
    requires d > 0
    ensures q <= a / d <==> q * d <= a
  {
    var q', r := a / d, a % d;
    assert a == q' * d + r && 0 <= r < d;
    if q <= q' {
      assert q * d <= q' * d;
    } else {
      assert q * d >= (q' + 1) * d;
      assert (q' + 1) * d == q' * d + d;
    }
  }

  lemma QuotientIs(a: nat, d: nat, q: nat)
    requires d > 0 && q * d <= a < q * d + d
    ensures a / d == q
  {
    QuotientBound(q, a, d);
    QuotientBound(q + 1, a, d);
    assert (q + 1) * d == q * d + d;
  }

  lemma RemainderIs(a: nat, d: nat, q: nat, r: nat)
    requires d > 0 && a == q * d + r && r < d
    ensures a % d == r
  {
    QuotientIs(a, d, q);
    assert a == a / d * d + a % d;
  }

  lemma DivisionAlgorithm(a: nat, d: nat)
    requires d > 0
    ensures a == a / d * d + a % d && 0 <= a % d < d && 0 <= a / d * d <= a
    ensures a / d >= 1 <==> a >= d
  {
    QuotientBound(1, a, d);
  }

  function CeilDiv(a: nat, d: nat): nat
    requires d > 0
  {
    (a + d - 1) / d
  }

  /** The ceiling is the least number of blocks of size d that cover a. */
  lemma CeilDivLeast(a: nat, d: nat, m: nat)
    requires d > 0
    ensures CeilDiv(a, d) <= m <==> a <= m * d
  {
    var c := CeilDiv(a, d);
    DivisionAlgorithm(a + d - 1, d);
    if c <= m {
      ProductBounds(d, c, m);
      assert d * c == c * d && d * m == m * d;
    } else {
      QuotientBound(m + 1, a + d - 1, d);
      assert (m + 1) * d == m * d + d;
    }
  }
}
