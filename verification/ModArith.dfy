// Modular arithmetic over the integers: congruence, powers, Euclid's lemma,
// Fermat's little theorem and modular inverses. The exponentiation, inverse and
// remainder of the source are those of math/big, whose Mod is Euclidean.
module ModArith {

  // ---------------------------------------------------------------- congruence

  /** a and b leave the same remainder. */
  ghost predicate Cong(a: int, b: int, m: int)
    requires m > 0
  {
    a % m == b % m
  }

  lemma MultipleSize(m: int, d: int)
    requires m > 0
    ensures d >= 1 ==> m * d >= m
    ensures d <= -1 ==> m * d <= -m
  {
  }

  lemma ModIs(a: int, m: int, q: int, r: int)
    requires 0 <= r < m && a == m * q + r
    ensures a % m == r && a / m == q
  {
    var d := q - a / m;
    assert m * d == a % m - r;
    MultipleSize(m, d);
  }

  lemma CongFromDiff(a: int, b: int, m: int, k: int)
    requires m > 0 && a == b + m * k
    ensures Cong(a, b, m)
  {
    assert a == m * (b / m + k) + b % m;
    ModIs(a, m, b / m + k, b % m);
  }

  lemma CongToDiff(a: int, b: int, m: int) returns (k: int)
    requires m > 0 && Cong(a, b, m)
    ensures a == b + m * k
  {
    k := a / m - b / m;
    assert a == m * (a / m) + a % m && b == m * (b / m) + b % m;
  }

  lemma CongMod(a: int, m: int)
    requires m > 0
    ensures Cong(a % m, a, m) && (a % m) % m == a % m
  {
    ModIs(a % m, m, 0, a % m);
  }

  lemma CongAdd(a: int, a': int, b: int, b': int, m: int)
    requires m > 0 && Cong(a, a', m) && Cong(b, b', m)
    ensures Cong(a + b, a' + b', m)
    ensures Cong(a - b, a' - b', m)
  {
    var k := CongToDiff(a, a', m);
    var l := CongToDiff(b, b', m);
    assert m * k + m * l == m * (k + l) && m * k - m * l == m * (k - l);
    CongFromDiff(a + b, a' + b', m, k + l);
    CongFromDiff(a - b, a' - b', m, k - l);
  }

  lemma CongMul(a: int, a': int, b: int, b': int, m: int)
    requires m > 0 && Cong(a, a', m) && Cong(b, b', m)
    ensures Cong(a * b, a' * b', m)
  {
    var k := CongToDiff(a, a', m);
    var l := CongToDiff(b, b', m);
    var t := k * b + a' * l;
    assert a * b - a' * b' == (a - a') * b + a' * (b - b');
    assert (a - a') * b == m * (k * b) by { assert (m * k) * b == m * (k * b); }
    assert a' * (b - b') == m * (a' * l) by { assert a' * (m * l) == m * (a' * l); }
    assert m * (k * b) + m * (a' * l) == m * t;
    CongFromDiff(a * b, a' * b', m, t);
  }

  /** A product may be reduced at any factor. */
  lemma ModMul(a: int, b: int, m: int)
    requires m > 0
    ensures ((a % m) * b) % m == (a * b) % m
    ensures (a * (b % m)) % m == (a * b) % m
  {
    CongMod(a, m);
    CongMod(b, m);
    CongMul(a % m, a, b, b, m);
    CongMul(a, a, b % m, b, m);
  }

  // -------------------------------------------------------------------- powers

  function Pow(b: int, e: nat): int {
    if e == 0 then 1 else b * Pow(b, e - 1)
  }

  /** Int.Exp with a modulus. */
  function ModPow(b: int, e: nat, m: int): (r: int)
    requires m > 0
    ensures 0 <= r < m
  {
    Pow(b, e) % m
  }

  lemma {:induction false} PowAdd(b: int, e: nat, f: nat)
    ensures Pow(b, e + f) == Pow(b, e) * Pow(b, f)
  {
    if e > 0 {
      PowAdd(b, e - 1, f);
      assert b * (Pow(b, e - 1) * Pow(b, f)) == (b * Pow(b, e - 1)) * Pow(b, f);
    }
  }

  lemma {:induction false} PowMul(b: int, e: nat, f: nat)
    ensures e * f >= 0 && Pow(Pow(b, e), f) == Pow(b, e * f)
  {
    if f == 0 {
      assert e * f == 0;
    } else {
      PowMul(b, e, f - 1);
      assert e * f == e + e * (f - 1);
      PowAdd(b, e, e * (f - 1));
    }
  }

  lemma PowOne(e: nat)
    ensures Pow(1, e) == 1
  {
  }

  lemma {:induction false} PowCong(a: int, b: int, e: nat, m: int)
    requires m > 0 && Cong(a, b, m)
    ensures Cong(Pow(a, e), Pow(b, e), m)
  {
    if e > 0 {
      PowCong(a, b, e - 1, m);
      CongMul(a, b, Pow(a, e - 1), Pow(b, e - 1), m);
    }
  }

  /** Raising a reduced power again multiplies the exponents. */
  lemma ModPowMul(b: int, e: nat, f: nat, m: int)
    requires m > 0
    ensures e * f >= 0 && ModPow(ModPow(b, e, m), f, m) == ModPow(b, e * f, m)
  {
    CongMod(Pow(b, e), m);
    PowCong(ModPow(b, e, m), Pow(b, e), f, m);
    PowMul(b, e, f);
  }

  lemma {:induction false} PowMinusOne(e: nat)
    ensures Pow(-1, e) == if e % 2 == 0 then 1 else -1
  {
    if e > 0 {
      PowMinusOne(e - 1);
    }
  }

  lemma {:induction false} PowPositive(b: int, e: nat)
    requires b > 0
    ensures Pow(b, e) > 0
  {
    if e > 0 {
      PowPositive(b, e - 1);
    }
  }

  lemma {:induction false} PowMonotone(e: nat, f: nat)
    requires e < f
    ensures 0 < Pow(2, e) < Pow(2, f)
  {
    PowPositive(2, e);
    if e + 1 < f {
      PowMonotone(e, f - 1);
    }
  }

  // -------------------------------------------------------------------- primes

  ghost predicate Divides(d: int, n: int)
    requires d > 0
  {
    n % d == 0
  }

  ghost predicate IsPrime(p: int) {
    p >= 2 && forall d :: 2 <= d < p ==> !Divides(d, p)
  }

  /** Euclid's lemma: a prime that divides a product divides a factor. */
  lemma Euclid(p: int, a: int, b: int)
    requires IsPrime(p) && Divides(p, a * b)
    ensures Divides(p, a) || Divides(p, b)
  {
    if !Divides(p, a) {
      CongMod(a, p);
      CongMul(a % p, a, b, b, p);
      EuclidReduced(p, a % p, b);
    }
  }

  lemma {:induction false} EuclidReduced(p: int, a: int, b: int)
    requires IsPrime(p) && 0 < a < p && Divides(p, a * b)
    ensures Divides(p, b)
    decreases a
  {
    if a > 1 {
      var q, r := p / a, p % a;
      assert !Divides(a, p);
      assert p == a * q + r;
      var k := (a * b) / p;
      assert a * b == p * k;
      assert r * b == p * (b - k * q) by {
        assert (a * q) * b == q * (a * b);
        assert q * (p * k) == p * (k * q);
        assert (p - a * q) * b == p * b - (a * q) * b;
      }
      ModIs(r * b, p, b - k * q, 0);
      EuclidReduced(p, r, b);
    }
  }

  /** A non-zero factor can be cancelled modulo a prime. */
  lemma Cancel(p: int, a: int, b: int, c: int)
    requires IsPrime(p) && !Divides(p, a) && Cong(a * b, a * c, p)
    ensures Cong(b, c, p)
  {
    CongAdd(a * b, a * c, a * c, a * c, p);
    assert a * (b - c) == a * b - a * c;
    assert Divides(p, a * (b - c));
    Euclid(p, a, b - c);
    CongAdd(b - c, 0, c, c, p);
  }

  lemma {:induction false} PowNonZero(p: int, b: int, e: nat)
    requires IsPrime(p) && !Divides(p, b)
    ensures !Divides(p, Pow(b, e))
  {
    if e == 0 {
      ModIs(1, p, 0, 1);
    } else {
      PowNonZero(p, b, e - 1);
      if Divides(p, Pow(b, e)) {
        Euclid(p, b, Pow(b, e - 1));
      }
    }
  }

  // ---------------------------------------------------- Fermat's little theorem

  ghost function Choose(n: nat, k: nat): nat {
    if k == 0 then 1 else if n == 0 then 0 else Choose(n - 1, k - 1) + Choose(n - 1, k)
  }

  lemma ChooseBeyond(n: nat, k: nat)
    requires k > n
    ensures Choose(n, k) == 0
  {
  }

  lemma AbsorptionArithmetic(n: int, k: int, x: int, y: int, u: int, v: int)
    requires x == u + v && k * y == (n - 1) * v && (k - 1) * x == (n - 1) * u
    ensures k * (x + y) == n * x
  {
    assert (n - 1) * (u + v) == (n - 1) * u + (n - 1) * v;
  }

  lemma {:induction false} Absorption(n: nat, k: nat)
    requires n >= 1 && k >= 1
    ensures k * Choose(n, k) == n * Choose(n - 1, k - 1)
  {
    if n == 1 {
      ChooseBeyond(0, k);
      if k > 1 {
        ChooseBeyond(0, k - 1);
      }
    } else {
      Absorption(n - 1, k);
      if k > 1 {
        Absorption(n - 1, k - 1);
      }
      var u := if k == 1 then 0 else Choose(n - 2, k - 2);
      AbsorptionArithmetic(n, k, Choose(n - 1, k - 1), Choose(n - 1, k), u, Choose(n - 2, k - 1));
    }
  }

  /** The first j + 1 terms of the expansion of (a + 1)^n. */
  ghost function BinomialSum(n: nat, j: nat, a: int): int {
    Choose(n, j) * Pow(a, j) + if j == 0 then 0 else BinomialSum(n, j - 1, a)
  }

  lemma BinomialArithmetic(a: int, p: int, x: int, y: int, z: int)
    ensures (x + y) * (a * p) + a * z == y * (a * p) + a * (x * p + z)
  {
    assert x * (a * p) == a * (x * p);
  }

  lemma {:induction false} BinomialStep(n: nat, j: nat, a: int)
    ensures BinomialSum(n + 1, j, a) == BinomialSum(n, j, a) + if j == 0 then 0 else a * BinomialSum(n, j - 1, a)
  {
    if j > 0 {
      BinomialStep(n, j - 1, a);
      var z := if j == 1 then 0 else BinomialSum(n, j - 2, a);
      BinomialArithmetic(a, Pow(a, j - 1), Choose(n, j - 1), Choose(n, j), z);
    }
  }

  lemma {:induction false} Binomial(n: nat, a: int)
    ensures Pow(a + 1, n) == BinomialSum(n, n, a)
  {
    if n > 0 {
      Binomial(n - 1, a);
      BinomialStep(n - 1, n, a);
      ChooseBeyond(n - 1, n);
      var s := BinomialSum(n - 1, n - 1, a);
      assert 0 * Pow(a, n) == 0;
      assert (a + 1) * s == s + a * s;
    }
  }

  lemma {:induction false} MiddleTermsVanish(p: int, j: nat, a: int)
    requires IsPrime(p) && j < p
    ensures Cong(BinomialSum(p, j, a), 1, p)
  {
    if j == 0 {
      assert BinomialSum(p, 0, a) == 1;
    } else {
      MiddleTermsVanish(p, j - 1, a);
      Absorption(p, j);
      ModIs(p * Choose(p - 1, j - 1), p, Choose(p - 1, j - 1), 0);
      Euclid(p, j, Choose(p, j));
      ModIs(j, p, 0, j);
      ModIs(0, p, 0, 0);
      CongMul(Choose(p, j), 0, Pow(a, j), Pow(a, j), p);
      CongAdd(Choose(p, j) * Pow(a, j), 0, BinomialSum(p, j - 1, a), 1, p);
    }
  }

  lemma {:induction false} FermatNat(p: int, a: nat)
    requires IsPrime(p)
    ensures Cong(Pow(a, p), a, p)
  {
    if a > 0 {
      FermatNat(p, a - 1);
      Binomial(p, a - 1);
      MiddleTermsVanish(p, p - 1, a - 1);
      ChooseDiagonal(p);
      CongAdd(Pow(a - 1, p), a - 1, BinomialSum(p, p - 1, a - 1), 1, p);
    }
  }

  lemma {:induction false} ChooseDiagonal(n: nat)
    ensures Choose(n, n) == 1
  {
    if n > 0 {
      ChooseDiagonal(n - 1);
      ChooseBeyond(n - 1, n);
    }
  }

  lemma {:induction false} FermatInt(p: int, a: int)
    requires IsPrime(p)
    ensures Cong(Pow(a, p), a, p)
  {
    CongMod(a, p);
    FermatNat(p, a % p);
    PowCong(a % p, a, p, p);
  }

  /** Fermat: a^(p-1) leaves remainder 1 when the prime p does not divide a. */
  lemma {:induction false} Fermat(p: int, a: int)
    requires IsPrime(p) && !Divides(p, a)
    ensures Cong(Pow(a, p - 1), 1, p)
  {
    FermatInt(p, a);
    var x := Pow(a, p - 1);
    assert Cong(a * x, a * 1, p);
    Cancel(p, a, x, 1);
  }

  /** Exponents of a non-zero base only matter modulo p - 1. */
  lemma {:induction false} ExponentReduce(p: int, a: int, e: nat, f: nat)
    requires IsPrime(p) && p > 2 && !Divides(p, a) && e % (p - 1) == f % (p - 1)
    ensures Cong(Pow(a, e), Pow(a, f), p)
  {
    ExponentRemainder(p, a, e);
    ExponentRemainder(p, a, f);
  }

  lemma {:induction false} ExponentRemainder(p: int, a: int, e: nat)
    requires IsPrime(p) && p > 2 && !Divides(p, a)
    ensures Cong(Pow(a, e), Pow(a, e % (p - 1)), p)
  {
    var m := p - 1;
    var q, r := e / m, e % m;
    assert e == m * q + r && m * q >= 0;
    PowAdd(a, m * q, r);
    PowMul(a, m, q);
    Fermat(p, a);
    PowCong(Pow(a, m), 1, q, p);
    PowOne(q);
    CongMul(Pow(a, m * q), 1, Pow(a, r), Pow(a, r), p);
  }

  // ------------------------------------------------------------------ inverses

  /** Int.ModInverse: the inverse of a modulo m in [0, m), if there is one. */
  function ModInverse(a: int, m: int): (r: Inverse)
    requires m > 1
    ensures r.Unit? ==> 0 < r.value < m && (a * r.value) % m == 1
    ensures r.NotAUnit? ==> forall x :: 0 <= x < m ==> !IsInverse(a, x, m)
  {
    FindInverse(a, m, 0)
  }

  datatype Inverse = NotAUnit | Unit(value: int)

  predicate IsInverse(a: int, x: int, m: int)
    requires m > 1
  {
    (a * x) % m == 1
  }

  function FindInverse(a: int, m: int, x: nat): (r: Inverse)
    requires m > 1 && x <= m
    ensures r.Unit? ==> 0 < r.value < m && (a * r.value) % m == 1
    ensures r.NotAUnit? ==> forall y :: x <= y < m ==> !IsInverse(a, y, m)
    decreases m - x
  {
    if x == m then NotAUnit
    else if IsInverse(a, x, m) then assert x == 0 ==> a * x == 0; Unit(x)
    else FindInverse(a, m, x + 1)
  }

  /** Inverses are unique. */
  lemma InverseUnique(a: int, x: int, y: int, m: int)
    requires m > 1 && 0 <= x < m && 0 <= y < m
    requires (a * x) % m == 1 && (a * y) % m == 1
    ensures x == y
  {
    ModIs(1, m, 0, 1);
    CongMul(a * x, 1, y, y, m);
    CongMul(a * y, 1, x, x, m);
    assert (a * x) * y == (a * y) * x;
    ModIs(x, m, 0, x);
    ModIs(y, m, 0, y);
  }

  /** A known inverse is the one that ModInverse finds. */
  lemma ModInverseFinds(a: int, x: int, m: int)
    requires m > 1 && 0 <= x < m && (a * x) % m == 1
    ensures ModInverse(a, m) == Unit(x)
  {
    assert IsInverse(a, x, m);
    var r := ModInverse(a, m);
    InverseUnique(a, x, r.value, m);
  }

  /** Modulo a prime, exactly the non-zero residues have an inverse. */
  lemma PrimeInverse(p: int, a: int)
    requires IsPrime(p)
    ensures ModInverse(a, p).Unit? <==> !Divides(p, a)
  {
    var r := ModInverse(a, p);
    if Divides(p, a) {
      if r.Unit? {
        ModIs(0, p, 0, 0);
        CongMul(a, 0, r.value, r.value, p);
      }
    } else {
      Fermat(p, a);
      var x := Pow(a, p - 2);
      assert a * x == Pow(a, p - 1);
      ModMul(a, x, p);
      ModIs(1, p, 0, 1);
      assert IsInverse(a, x % p, p);
    }
  }
}
