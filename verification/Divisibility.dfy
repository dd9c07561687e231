/** Divisibility over the naturals: what the flag codec needs to know about coprime factors. */
module Divisibility {

  ghost predicate Divides(d: nat, n: nat) {
    exists k: nat :: n == d * k
  }

  /** No common divisor above one. */
  ghost predicate Coprime(a: nat, b: nat) {
    forall d: nat :: Divides(d, a) && Divides(d, b) ==> d == 1
  }

  lemma CancelFactor(b: nat, x: nat, y: nat)
    requires b > 0 && b * x == b * y
    ensures x == y
  {
  }

  lemma SmallMultiple(d: nat, x: int, r: nat)
    requires r == d * x && r < d
    ensures x == 0
  {
  }

  lemma MulMod(d: nat, k: nat)
    requires d > 0
    ensures (d * k) % d == 0
  {
    var n := d * k;
    var q, r := n / d, n % d;
    assert n == d * q + r;
    assert r == d * (k - q) by { Distribute(d, k, q); }
    SmallMultiple(d, k - q, r);
  }

  lemma Distribute(d: int, x: int, y: int)
    ensures d * (x - y) == d * x - d * y
  {
  }

  lemma GreaterQuotient(a: nat, b: nat, k: nat, m: nat)
    requires 0 < a <= b && a * k == b * m
    ensures k >= m
  {
  }

  /** A number coprime to one factor of a product it divides, divides the other factor. */
  lemma {:induction false} Gauss(a: nat, b: nat, m: nat, k: nat)
    requires a > 0 && b > 0 && Coprime(a, b) && b * m == a * k
    ensures Divides(a, m)
    decreases a + b
  {
    if a == b {
      assert Divides(a, a) by { assert a == a * 1; }
      assert m == a * m;
    } else if b == 1 {
      assert m == a * k;
    } else if a < b {
      CoprimeStep(a, b);
      GreaterQuotient(a, b, k, m);
      Shift(a, b, m, k);
      Gauss(a, b - a, m, k - m);
    } else {
      CoprimeStep(b, a);
      GreaterQuotient(b, a, m, k);
      Shift(b, a, k, m);
      Gauss(b, a - b, k, m - k);
      var j: nat :| k == b * j;
      Reassociate(a, b, j);
      CancelFactor(b, m, a * j);
    }
  }

  lemma Reassociate(a: nat, b: nat, j: nat)
    ensures a * (b * j) == b * (a * j)
  {
  }

  lemma Shift(a: nat, b: nat, m: nat, k: nat)
    requires b * m == a * k && a <= b && m <= k
    ensures (b - a) * m == a * (k - m)
  {
  }

  lemma CoprimeStep(a: nat, b: nat)
    requires Coprime(a, b) && a <= b
    ensures Coprime(a, b - a) && Coprime(b - a, a)
  {
    forall d: nat | Divides(d, a) && Divides(d, b - a) ensures d == 1 {
      DividesSum(d, a, b - a);
    }
  }

  lemma DividesSum(d: nat, a: nat, b: nat)
    requires Divides(d, a) && Divides(d, b)
    ensures Divides(d, a + b)
  {
    var i: nat :| a == d * i;
    var j: nat :| b == d * j;
    assert a + b == d * (i + j);
  }

  lemma FactorOfOne(d: nat, k: nat)
    requires d * k == 1
    ensures d == 1
  {
  }

  function Odd(c: nat): (o: nat)
    requires c > 0
    ensures 0 < o <= c && o % 2 == 1
  {
    if c % 2 == 0 then Odd(c / 2) else c
  }

  lemma OddProduct(r: nat, c: nat)
    requires r % 2 == 1 && c % 2 == 1
    ensures (r * c) % 2 == 1
  {
    var i, j := r / 2, c / 2;
    assert r == 2 * i + 1 && c == 2 * j + 1;
    assert r * c == 2 * (i * c + j) + 1;
  }

  lemma Halve(r: nat, h: nat)
    ensures r * (2 * h) == 2 * (r * h)
  {
  }

  lemma {:induction false} OddMul(r: nat, c: nat)
    requires r % 2 == 1 && c > 0
    ensures r * c > 0 && Odd(r * c) == r * Odd(c)
    decreases c
  {
    MulPositive(r, c);
    if c % 2 == 0 {
      var h := c / 2;
      Halve(r, h);
      OddMul(r, h);
      assert r * c == 2 * (r * h);
      assert (r * c) % 2 == 0 && (r * c) / 2 == r * h;
    } else {
      OddProduct(r, c);
    }
  }

  lemma MulPositive(r: nat, c: nat)
    requires r > 0 && c > 0
    ensures r * c > 0
  {
  }

  lemma DividesMod(d: nat, n: nat)
    requires d > 0
    ensures Divides(d, n) <==> n % d == 0
  {
    if n % d == 0 {
      assert n == d * (n / d);
    }
    if Divides(d, n) {
      var k: nat :| n == d * k;
      MulMod(d, k);
    }
  }

  lemma DividesProduct(d: nat, x: nat, y: nat)
    requires Divides(d, x)
    ensures Divides(d, x * y) && Divides(d, y * x)
  {
    var k: nat :| x == d * k;
    assert x * y == d * (k * y);
    assert y * x == x * y;
  }

  lemma OrderBack(d: nat, i: nat, j: nat)
    requires d > 0 && d * i <= d * j
    ensures i <= j
  {
  }

  lemma DividesSelf(d: nat)
    ensures Divides(d, d)
  {
    assert d == d * 1;
  }

  lemma DividesDifference(d: nat, a: nat, b: nat)
    requires Divides(d, a) && Divides(d, b) && a <= b && d > 0
    ensures Divides(d, b - a)
  {
    var i: nat :| a == d * i;
    var j: nat :| b == d * j;
    OrderBack(d, i, j);
    Distribute(d, j, i);
  }

  /** Dividing out one factor does not change divisibility by a number coprime to it. */
  lemma DivideOut(a: nat, c: nat, q: nat)
    requires a > 0 && c > 0 && Coprime(a, c)
    ensures Divides(a, c * q) <==> Divides(a, q)
  {
    if Divides(a, c * q) {
      var k: nat :| c * q == a * k;
      Gauss(a, c, q, k);
    }
    if Divides(a, q) {
      DividesProduct(a, q, c);
    }
  }

  // ---- products of chosen factors ----

  /** The product of the first `n` factors whose flag is set. */
  function Product(fs: seq<nat>, flags: seq<bool>, n: nat): nat
    requires n <= |fs| == |flags|
  {
    if n == 0 then 1
    else if flags[n - 1] then Product(fs, flags, n - 1) * fs[n - 1]
    else Product(fs, flags, n - 1)
  }

  lemma {:induction false} ProductOdd(fs: seq<nat>, flags: seq<bool>, n: nat)
    requires n <= |fs| == |flags|
    requires forall i :: 0 <= i < |fs| ==> fs[i] % 2 == 1
    ensures Product(fs, flags, n) % 2 == 1
  {
    if n > 0 {
      ProductOdd(fs, flags, n - 1);
      OddProduct(Product(fs, flags, n - 1), fs[n - 1]);
    }
  }

  lemma {:induction false} ProductMono(fs: seq<nat>, flags: seq<bool>, more: seq<bool>, n: nat)
    requires n <= |fs| == |flags| == |more|
    requires forall i :: 0 <= i < |fs| ==> fs[i] > 0 && (flags[i] ==> more[i])
    ensures Product(fs, flags, n) <= Product(fs, more, n)
  {
    if n > 0 {
      ProductMono(fs, flags, more, n - 1);
      MulMono(Product(fs, flags, n - 1), Product(fs, more, n - 1), fs[n - 1]);
      MulMono(1, fs[n - 1], Product(fs, more, n - 1));
    }
  }

  lemma MulMono(a: nat, b: nat, f: nat)
    requires a <= b
    ensures a * f <= b * f && f * a <= f * b
  {
  }

  lemma {:induction false} ChosenFactorDivides(fs: seq<nat>, flags: seq<bool>, n: nat, p: nat)
    requires p < n <= |fs| == |flags| && flags[p]
    ensures Divides(fs[p], Product(fs, flags, n))
  {
    if p == n - 1 {
      DividesSelf(fs[p]);
      DividesProduct(fs[p], fs[p], Product(fs, flags, n - 1));
    } else {
      ChosenFactorDivides(fs, flags, n - 1, p);
      DividesProduct(fs[p], Product(fs, flags, n - 1), fs[n - 1]);
    }
  }

  ghost predicate PairwiseCoprime(fs: seq<nat>) {
    forall i, j :: 0 <= i < |fs| && 0 <= j < |fs| && i != j ==> Coprime(fs[i], fs[j])
  }

  lemma {:induction false} OtherFactorDoesNot(fs: seq<nat>, flags: seq<bool>, n: nat, p: nat)
    requires n <= |fs| == |flags| && p < |fs| && (p < n ==> !flags[p])
    requires PairwiseCoprime(fs) && fs[p] > 1 && forall i :: 0 <= i < |fs| ==> fs[i] > 0
    ensures !Divides(fs[p], Product(fs, flags, n))
  {
    if n == 0 {
      if Divides(fs[p], 1) {
        var k: nat :| 1 == fs[p] * k;
        FactorOfOne(fs[p], k);
      }
    } else {
      OtherFactorDoesNot(fs, flags, n - 1, p);
      if flags[n - 1] {
        DivideOut(fs[p], fs[n - 1], Product(fs, flags, n - 1));
      }
    }
  }

  /** Clearing one flag takes its factor out of the product. */
  lemma {:induction false} ProductWithout(fs: seq<nat>, flags: seq<bool>, n: nat, p: nat)
    requires n <= |fs| == |flags| && p < |fs| && flags[p]
    ensures Product(fs, flags, n)
         == if p < n then Product(fs, flags[p := false], n) * fs[p] else Product(fs, flags[p := false], n)
  {
    if n > 0 {
      ProductWithout(fs, flags, n - 1, p);
      if p < n - 1 && flags[n - 1] {
        MulSwap(Product(fs, flags[p := false], n - 1), fs[p], fs[n - 1]);
      }
    }
  }

  lemma MulSwap(a: nat, b: nat, c: nat)
    ensures (a * b) * c == (a * c) * b
  {
  }

  /** `a * x == m * y + 1` certifies that `a` and `m`, hence `a` and any divisor of `m`, are coprime. */
  lemma CertifiedCoprime(a: nat, m: nat, x: nat, y: nat, b: nat)
    requires a > 0 && a * x == m * y + 1 && Divides(b, m)
    ensures Coprime(a, b)
  {
    forall d: nat | Divides(d, a) && Divides(d, b) ensures d == 1 {
      var k: nat :| m == b * k;
      DividesProduct(d, b, k);
      DividesProduct(d, a, x);
      DividesProduct(d, m, y);
      var j: nat :| a == d * j;
      DividesDifference(d, m * y, a * x);
      var i: nat :| 1 == d * i;
      FactorOfOne(d, i);
    }
  }
}
