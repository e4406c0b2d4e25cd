/** The recursive factorisation prim of Other/ErrCode/errCode.cpp.  It searches for the least divisor,
    divides it out, factorises what remains, and prints the divisor on the way back, so that the
    largest prime comes first.  It stops as soon as what remains is no more than the last divisor:
    that is when nothing remains, but also when the largest prime remains a second time, and at once when
    the number is 2. */
module PrimeFactors {
  import Cycle

  ghost predicate IsPrime(p: int) {
    p >= 2 && forall d :: 2 <= d < p ==> p % d != 0
  }

  ghost predicate AllPrime(f: seq<int>) {
    forall i :: 0 <= i < |f| ==> IsPrime(f[i])
  }

  ghost predicate NonIncreasing(f: seq<int>) {
    forall i, j :: 0 <= i < j < |f| ==> f[i] >= f[j]
  }

  function Product(f: seq<int>): int {
    if f == [] then 1 else f[0] * Product(f[1..])
  }

  /** A prime factorisation of m, largest prime first: by Unique below m has no other. */
  ghost predicate Factorises(f: seq<int>, m: int) {
    AllPrime(f) && NonIncreasing(f) && Product(f) == m
  }

  // ---------------------------------------------------------------- divisibility

  lemma MultipleDivides(d: int, k: int)
    requires d >= 1
    ensures (d * k) % d == 0
  {
    Cycle.QuotientIs(d * k, d, k, 0);
  }

  lemma Regroup(a: int, b: int, c: int)
    ensures a * (b * c) == (a * b) * c == b * (a * c)
  {
  }

  lemma Grows(p: int, x: int)
    requires p >= 2 && x >= 1
    ensures x * p == p * x > x
  {
  }

  /** A divisor of a divisor divides. */
  lemma DividesThrough(d: int, e: int, m: int)
    requires d >= 1 && e >= 1 && e % d == 0 && m % e == 0
    ensures m % d == 0
  {
    var k, l := e / d, m / e;
    assert e == d * k && m == e * l;
    assert m == d * (k * l);
    MultipleDivides(d, k * l);
  }

  /** A step of Euclid's algorithm: if p divides a * b then it divides (a % p) * b. */
  lemma ReduceFactor(p: int, a: int, b: int)
    requires p >= 1 && (a * b) % p == 0
    ensures ((a % p) * b) % p == 0
  {
    var q, r, k := a / p, a % p, (a * b) / p;
    assert a * b == p * k;
    assert r * b == a * b - (p * q) * b;
    assert (p * q) * b == p * (q * b);
    assert r * b == p * (k - q * b);
    MultipleDivides(p, k - q * b);
  }

  /** The other step: if p divides a * b then it divides (p % a) * b. */
  lemma ReducePrime(p: int, a: int, b: int)
    requires p >= 1 && a >= 1 && (a * b) % p == 0
    ensures ((p % a) * b) % p == 0
  {
    var q, r, k := p / a, p % a, (a * b) / p;
    assert a * b == p * k;
    assert r * b == p * b - (q * a) * b;
    assert (q * a) * b == q * (a * b) == q * (p * k) == p * (q * k);
    assert r * b == p * (b - q * k);
    MultipleDivides(p, b - q * k);
  }

  /** Euclid's lemma, by the steps of Euclid's algorithm on p and a.  It is first stated for 1 <= a < p,
      where p cannot divide a. */
  lemma {:induction false} EuclidBelow(p: int, a: int, b: int)
    requires IsPrime(p) && 1 <= a < p && (a * b) % p == 0
    ensures b % p == 0
    decreases a
  {
    if a == 1 {
      assert a * b == b;
    } else {
      ReducePrime(p, a, b);
      var r := p % a;
      assert 1 <= r < a;
      EuclidBelow(p, r, b);
    }
  }

  lemma Euclid(p: int, a: int, b: int)
    requires IsPrime(p) && (a * b) % p == 0
    ensures a % p == 0 || b % p == 0
  {
    ReduceFactor(p, a, b);
    var r := a % p;
    if r != 0 {
      EuclidBelow(p, r, b);
    }
  }

  lemma {:induction false} ProductPositive(f: seq<int>)
    requires AllPrime(f)
    ensures Product(f) >= 1
    ensures f != [] ==> Product(f) >= f[0] >= 2
  {
    if f != [] {
      ProductPositive(f[1..]);
      assert f[0] * Product(f[1..]) >= f[0] * 1;
    }
  }

  /** A prime that divides a product of primes is one of them. */
  lemma {:induction false} PrimeOfProduct(p: int, f: seq<int>) returns (i: int)
    requires IsPrime(p) && AllPrime(f) && Product(f) % p == 0
    ensures 0 <= i < |f| && f[i] == p
  {
    if f == [] {
      assert false;
    } else {
      Euclid(p, f[0], Product(f[1..]));
      if f[0] % p == 0 {
        ProductPositive(f);
        assert p == f[0];
        i := 0;
      } else {
        i := PrimeOfProduct(p, f[1..]);
        i := i + 1;
      }
    }
  }

  lemma HeadDivides(f: seq<int>)
    requires AllPrime(f) && f != []
    ensures Product(f) % f[0] == 0
  {
    MultipleDivides(f[0], Product(f[1..]));
  }

  /** The first prime of a factorisation is the largest that divides. */
  lemma HeadIsLargest(f: seq<int>, m: int, q: int)
    requires Factorises(f, m) && IsPrime(q) && m % q == 0
    ensures f != [] && q <= f[0]
  {
    var i := PrimeOfProduct(q, f);
  }

  lemma Cancel(p: int, x: int, y: int)
    requires p >= 1 && p * x == p * y
    ensures x == y
  {
    assert p * (x - y) == 0;
  }

  /** The fundamental theorem: there is one factorisation, largest prime first. */
  lemma {:induction false} Unique(f: seq<int>, g: seq<int>, m: int)
    requires Factorises(f, m) && Factorises(g, m)
    ensures f == g
    decreases |f|
  {
    ProductPositive(f);
    ProductPositive(g);
    if f != [] && g != [] {
      HeadDivides(f);
      HeadDivides(g);
      HeadIsLargest(g, m, f[0]);
      HeadIsLargest(f, m, g[0]);
      Cancel(f[0], Product(f[1..]), Product(g[1..]));
      Unique(f[1..], g[1..], Product(f[1..]));
      assert f == [f[0]] + f[1..] && g == [g[0]] + g[1..];
    }
  }

  // ---------------------------------------------------------------- the factorisation

  /** m has no divisor from 2 up to below n. */
  ghost predicate Rough(m: int, n: int) {
    forall d :: 2 <= d < n ==> m % d != 0
  }

  /** Dividing out a divisor leaves less. */
  lemma Quotient(m: int, d: int)
    requires m >= 1 && d >= 2 && m % d == 0
    ensures 1 <= m / d < m && m == d * (m / d)
  {
    var k := m / d;
    assert m == d * k;
    assert k <= 0 ==> d * k <= 0;
    assert k >= 1 ==> d * k >= 2 * k;
  }

  /** The divisors of a rough number are rough. */
  lemma DivisorIsRough(m: int, e: int, n: int)
    requires Rough(m, n) && e >= 1 && m % e == 0
    ensures Rough(e, n)
  {
    forall d | 2 <= d < n
      ensures e % d != 0
    {
      if e % d == 0 {
        DividesThrough(d, e, m);
        assert false;
      }
    }
  }

  /** The least divisor of a number that is rough up to it is a prime, and dividing it out leaves a
      number just as rough. */
  lemma LeastDivisor(m: int, d: int)
    requires m >= 2 && d >= 2 && m % d == 0 && Rough(m, d)
    ensures IsPrime(d) && 1 <= m / d < m && m == d * (m / d) && Rough(m / d, d)
  {
    Quotient(m, d);
    var k := m / d;
    DivisorIsRough(m, d, d);
    assert k * d == d * k == m;
    MultipleDivides(k, d);
    DivisorIsRough(m, k, d);
  }

  /** A number above 1 that is rough up to n is at least n. */
  lemma RoughIsLarge(m: int, n: int)
    requires m >= 2 && Rough(m, n)
    ensures m >= n
  {
    if m < n {
      MultipleDivides(m, 1);
      assert false;
    }
  }

  lemma {:induction false} ProductSnoc(f: seq<int>, p: int)
    ensures Product(f + [p]) == Product(f) * p == p * Product(f)
  {
    if f == [] {
      assert [p][1..] == [];
    } else {
      assert (f + [p])[1..] == f[1..] + [p];
      ProductSnoc(f[1..], p);
      assert f[0] * (Product(f[1..]) * p) == f[0] * Product(f[1..]) * p;
    }
  }

  /** The factors of a rough number are large. */
  lemma FactorsAreLarge(f: seq<int>, m: int, n: int)
    requires Factorises(f, m) && Rough(m, n) && f != []
    ensures f[|f| - 1] >= n
  {
    var front, p := f[..|f| - 1], f[|f| - 1];
    assert f == front + [p];
    ProductSnoc(front, p);
    assert Product(front) * p == p * Product(front);
    MultipleDivides(p, Product(front));
  }

  // ---------------------------------------------------------------- what is printed

  /** The factorisation, but a largest prime that occurs more than once is printed once too few. */
  function OneShort(f: seq<int>): seq<int> {
    if |f| >= 2 && f[0] == f[1] then f[1..] else f
  }

  ghost predicate Shows(printed: seq<int>, m: int) {
    exists f :: Factorises(f, m) && printed == OneShort(f)
  }

  /** Where the recursion ends, 1 remains, or the last divisor once more. */
  lemma ShowsLast(m: int, d: int)
    requires IsPrime(d) && 1 <= m / d <= d && m == d * (m / d) && Rough(m / d, d)
    ensures Shows([d], m)
  {
    var k := m / d;
    var f := if k == 1 then [d] else [d, d];
    if k >= 2 {
      RoughIsLarge(k, d);
      assert f[1..] == [d];
    }
    ProductSnoc([], d);
    ProductSnoc([d], d);
    assert Factorises(f, m) && [d] == OneShort(f);
  }

  /** A factorisation with a smaller prime put behind it. */
  lemma FactorisesSnoc(g: seq<int>, k: int, d: int)
    requires Factorises(g, k) && IsPrime(d) && g != [] && g[|g| - 1] >= d
    ensures Factorises(g + [d], d * k)
  {
    var f := g + [d];
    assert AllPrime(f);
    forall i, j | 0 <= i < j < |f|
      ensures f[i] >= f[j]
    {
      assert g[i] >= g[|g| - 1];
    }
    ProductSnoc(g, d);
  }

  /** Printing the divisor after the rest has been printed. */
  lemma ShowsMore(m: int, d: int, printed: seq<int>)
    requires IsPrime(d) && m / d > d && m == d * (m / d) && Rough(m / d, d) && Shows(printed, m / d)
    ensures Shows(printed + [d], m)
  {
    var k := m / d;
    var g :| Factorises(g, k) && printed == OneShort(g);
    assert g != [];
    FactorsAreLarge(g, k, d);
    FactorisesSnoc(g, k, d);
    if |g| == 1 {
      ProductSnoc([], g[0]);
      assert g == [] + [g[0]];
    }
  }

  /** The answer of prim(m, 2), for any m: nothing for m <= 2, so that the prime 2 itself is not printed, and
      above that the prime factors, a repeated largest one once too few. */
  ghost predicate Prints(printed: seq<int>, m: int) {
    if m <= 2 then printed == [] else Shows(printed, m)
  }

  /** prim.  Any call with n >= 2 returns, having printed numbers from n up, largest first.  If no number
      below n divides m, as in prim(m, 2), and m > n, they are the prime factors of m, a repeated largest
      one once too few. */
  method Prim(m: int, n: int) returns (printed: seq<int>)
    requires n >= 2
    ensures NonIncreasing(printed) && forall i :: 0 <= i < |printed| ==> printed[i] >= n
    ensures m <= n <==> printed == []
    ensures m > n && Rough(m, n) ==> Shows(printed, m)
    ensures n == 2 ==> Prints(printed, m)
    decreases m
  {
    if m > n {
      var d := n;
      while m % d != 0
        invariant n <= d <= m
        invariant Rough(m, n) ==> Rough(m, d)
        decreases m - d
      {
        assert d != m by { MultipleDivides(m, 1); }
        d := d + 1;
      }
      Quotient(m, d);
      printed := Prim(m / d, d);
      if Rough(m, n) {
        LeastDivisor(m, d);
        if m / d <= d {
          ShowsLast(m, d);
        } else {
          ShowsMore(m, d, printed);
        }
      }
      printed := printed + [d];
    } else {
      printed := [];
    }
  }

  // ---------------------------------------------------------------- what is left over

  /** The square of the largest prime factor divides m. */
  ghost predicate LargestTwice(m: int) {
    exists p :: IsPrime(p) && m % (p * p) == 0 && forall q :: IsPrime(q) && m % q == 0 ==> q <= p
  }

  lemma TwoDivide(f: seq<int>, m: int)
    requires Factorises(f, m) && |f| >= 2
    ensures m == (f[0] * f[1]) * Product(f[2..])
  {
    assert f[1..][1..] == f[2..];
    assert Product(f[1..]) == f[1] * Product(f[2..]);
    Regroup(f[0], f[1], Product(f[2..]));
  }

  /** In a factorisation, the first two primes are the same exactly if the square of the largest divides. */
  lemma LargestTwiceIff(f: seq<int>, m: int)
    requires Factorises(f, m)
    ensures LargestTwice(m) <==> |f| >= 2 && f[0] == f[1]
  {
    forall q | IsPrime(q) && m % q == 0
      ensures f != [] && q <= f[0]
    {
      HeadIsLargest(f, m, q);
    }
    if |f| >= 2 && f[0] == f[1] {
      TwoDivide(f, m);
      MultipleDivides(f[0] * f[0], Product(f[2..]));
      assert IsPrime(f[0]);
    }
    if LargestTwice(m) {
      var p :| IsPrime(p) && m % (p * p) == 0 && forall q :: IsPrime(q) && m % q == 0 ==> q <= p;
      if f != [] { HeadDivides(f); }
      SquareDivides(f, m, p);
    }
  }

  /** If the square of p divides, and p is at least the largest prime, then p comes first, twice. */
  lemma SquareDivides(f: seq<int>, m: int, p: int)
    requires Factorises(f, m) && IsPrime(p) && m % (p * p) == 0
    requires f != [] ==> f[0] <= p
    ensures |f| >= 2 && f[0] == f[1]
  {
    var k := m / (p * p);
    assert m == (p * p) * k;
    Regroup(p, p, k);
    MultipleDivides(p, p * k);
    HeadIsLargest(f, m, p);
    HeadDivides(f);
    assert f[0] == p;
    Cancel(p, Product(f[1..]), p * k);
    MultipleDivides(p, k);
    HeadIsLargest(f[1..], Product(f[1..]), p);
  }

  lemma ShownProduct(m: int, printed: seq<int>)
    requires m > 2 && Shows(printed, m)
    ensures AllPrime(printed) && NonIncreasing(printed) && printed != []
    ensures Product(printed) == m <==> !LargestTwice(m)
    ensures Product(printed) != m ==> Product(printed) * printed[0] == m
    ensures printed[0] >= 2 && m % printed[0] == 0
    ensures forall q :: IsPrime(q) && m % q == 0 ==> q <= printed[0]
  {
    var f :| Factorises(f, m) && printed == OneShort(f);
    LargestTwiceIff(f, m);
    ProductPositive(f);
    assert f != [];
    HeadDivides(f);
    if |f| >= 2 && f[0] == f[1] {
      ProductPositive(f[1..]);
      Grows(f[0], Product(f[1..]));
    }
    forall q | IsPrime(q) && m % q == 0 ensures q <= printed[0] {
      HeadIsLargest(f, m, q);
    }
  }

  ghost predicate LargestPrime(p: int, m: int) {
    IsPrime(p) && m % p == 0 && forall q :: IsPrime(q) && m % q == 0 ==> q <= p
  }

  /** What prim(m, 2) prints are primes, largest first.  They multiply to m if and only if m is not 2 and the
      square of the largest prime factor does not divide m; otherwise the largest prime factor is missing,
      once. */
  lemma PrintedProduct(m: int, printed: seq<int>)
    requires m >= 1 && Prints(printed, m)
    ensures AllPrime(printed) && NonIncreasing(printed)
    ensures Product(printed) == m <==> m != 2 && !LargestTwice(m)
    ensures Product(printed) != m ==> exists p :: LargestPrime(p, m) && Product(printed) * p == m
  {
    if m > 2 {
      ShownProduct(m, printed);
      assert LargestPrime(printed[0], m);
    } else if m == 2 {
      TwoFallsShort(printed);
    } else {
    }
  }

  /** The first number for which a factor is missing: of 2 nothing is printed. */
  lemma TwoFallsShort(printed: seq<int>)
    ensures Prints(printed, 2) <==> printed == []
    ensures LargestPrime(2, 2) && !LargestTwice(2)
  {
    var f := [2];
    ProductSnoc([], 2);
    assert Factorises(f, 2);
    LargestTwiceIff(f, 2);
    forall q | IsPrime(q) && 2 % q == 0 ensures q <= 2 {
      HeadIsLargest(f, 2, q);
    }
  }

  /** The first with a repeated largest prime: of 4 a single 2 is printed. */
  lemma FourFallsShort(printed: seq<int>)
    ensures LargestTwice(4)
    ensures Prints(printed, 4) <==> printed == [2]
  {
    var f := [2, 2];
    assert f[1..] == [2];
    ProductSnoc([], 2);
    ProductSnoc([2], 2);
    assert Factorises(f, 4) && OneShort(f) == [2];
    LargestTwiceIff(f, 4);
    if Shows(printed, 4) {
      ShowsOnce(4, printed, [2]);
    }
  }

  /** Every prime factor of m is printed, and nothing else, unless m is 2. */
  lemma PrintedPrimes(m: int, printed: seq<int>, p: int)
    requires m >= 1 && Prints(printed, m) && IsPrime(p)
    ensures p in printed <==> m != 2 && m % p == 0
  {
    if m > 2 {
      var f :| Factorises(f, m) && printed == OneShort(f);
      assert p in f <==> p in printed by {
        if |f| >= 2 && f[0] == f[1] {
          assert f == [f[0]] + f[1..] && f[1..][0] == f[1];
        }
      }
      if p in f {
        FactorDivides(f, p);
      }
      if m % p == 0 {
        var i := PrimeOfProduct(p, f);
      }
    } else if m == 1 {
      Cycle.QuotientIs(1, p, 0, 1);
    }
  }

  lemma {:induction false} FactorDivides(f: seq<int>, p: int)
    requires AllPrime(f) && p in f
    ensures Product(f) % p == 0
  {
    if f[0] == p {
      HeadDivides(f);
    } else {
      FactorDivides(f[1..], p);
      var k := Product(f[1..]) / p;
      assert Product(f[1..]) == p * k;
      Regroup(f[0], p, k);
      MultipleDivides(p, f[0] * k);
    }
  }

  /** There is only one answer a call can give. */
  lemma ShowsOnce(m: int, printed: seq<int>, printed': seq<int>)
    requires Shows(printed, m) && Shows(printed', m)
    ensures printed == printed'
  {
    var f :| Factorises(f, m) && printed == OneShort(f);
    var g :| Factorises(g, m) && printed' == OneShort(g);
    Unique(f, g, m);
  }
}
