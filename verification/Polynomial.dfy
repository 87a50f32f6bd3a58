// Polynomials over the integers read modulo a prime: a polynomial with at least
// as many roots as coefficients vanishes, and Lagrange's interpolant exists.
module Polynomial {
  import opened ModArith

  /** c[0] + c[1] x + c[2] x^2 + ... */
  function Eval(c: seq<int>, x: int): int {
    if c == [] then 0 else c[0] + x * Eval(c[1..], x)
  }

  lemma EvalAtZero(c: seq<int>)
    requires c != []
    ensures Eval(c, 0) == c[0]
  {
  }

  /** Evaluation term by term, from the low end. */
  lemma {:induction false} EvalSnoc(c: seq<int>, i: nat, x: int)
    requires i < |c|
    ensures Eval(c[..i + 1], x) == Eval(c[..i], x) + c[i] * Pow(x, i)
  {
    if i == 0 {
      assert c[..1][1..] == [];
      assert Eval(c[..1], x) == c[0] + x * 0;
    } else {
      EvalSnoc(c[1..], i - 1, x);
      assert c[..i + 1][1..] == c[1..][..i] && c[..i][1..] == c[1..][..i - 1];
      SnocArithmetic(x, Eval(c[1..][..i - 1], x), c[i], Pow(x, i - 1));
    }
  }

  lemma SnocArithmetic(x: int, a: int, c: int, w: int)
    ensures x * (a + c * w) == x * a + c * (x * w)
  {
    assert x * (c * w) == c * (x * w);
  }

  lemma {:induction false} EvalCongPoint(c: seq<int>, x: int, y: int, p: int)
    requires p > 0 && Cong(x, y, p)
    ensures Cong(Eval(c, x), Eval(c, y), p)
  {
    if c != [] {
      EvalCongPoint(c[1..], x, y, p);
      CongMul(x, y, Eval(c[1..], x), Eval(c[1..], y), p);
      CongAdd(x * Eval(c[1..], x), y * Eval(c[1..], y), c[0], c[0], p);
    }
  }

  // ---------------------------------------------------------------- operations

  function Add(a: seq<int>, b: seq<int>): (r: seq<int>)
    ensures |r| == if |a| <= |b| then |b| else |a|
  {
    if a == [] then b else if b == [] then a else [a[0] + b[0]] + Add(a[1..], b[1..])
  }

  function Scale(k: int, c: seq<int>): (r: seq<int>)
    ensures |r| == |c|
  {
    if c == [] then [] else [k * c[0]] + Scale(k, c[1..])
  }

  lemma DistributeRight(x: int, a: int, b: int)
    ensures x * (a + b) == x * a + x * b
    ensures x * (a - b) == x * a - x * b
  {
  }

  lemma {:induction false} EvalAdd(a: seq<int>, b: seq<int>, x: int)
    ensures Eval(Add(a, b), x) == Eval(a, x) + Eval(b, x)
  {
    if a != [] && b != [] {
      EvalAdd(a[1..], b[1..], x);
      DistributeRight(x, Eval(a[1..], x), Eval(b[1..], x));
    }
  }

  lemma {:induction false} EvalScale(k: int, c: seq<int>, x: int)
    ensures Eval(Scale(k, c), x) == k * Eval(c, x)
  {
    if c != [] {
      EvalScale(k, c[1..], x);
      var e := Eval(c[1..], x);
      DistributeRight(k, c[0], x * e);
      assert x * (k * e) == k * (x * e);
    }
  }

  function Difference(a: seq<int>, b: seq<int>): (r: seq<int>)
    ensures |r| == if |a| <= |b| then |b| else |a|
  {
    Add(a, Scale(-1, b))
  }

  lemma EvalDifference(a: seq<int>, b: seq<int>, x: int)
    ensures Eval(Difference(a, b), x) == Eval(a, x) - Eval(b, x)
  {
    EvalAdd(a, Scale(-1, b), x);
    EvalScale(-1, b, x);
  }

  // -------------------------------------------------------------- root counting

  /** The quotient of c by X - r. */
  function Quotient(c: seq<int>, r: int): (q: seq<int>)
    ensures |q| == if c == [] then 0 else |c| - 1
  {
    if |c| <= 1 then [] else [Eval(c[1..], r)] + Quotient(c[1..], r)
  }

  lemma DivisionArithmetic(x: int, r: int, e: int, q: int)
    ensures x * ((x - r) * q + e) == (x - r) * (e + x * q) + r * e
  {
    assert x * ((x - r) * q) == (x - r) * (x * q);
  }

  lemma {:induction false} Division(c: seq<int>, r: int, x: int)
    ensures Eval(c, x) == (x - r) * Eval(Quotient(c, r), x) + Eval(c, r)
  {
    if |c| > 1 {
      Division(c[1..], r, x);
      DivisionArithmetic(x, r, Eval(c[1..], r), Eval(Quotient(c[1..], r), x));
    } else if |c| == 1 {
      assert Eval(c, x) == c[0] + x * 0;
    }
  }

  ghost predicate Distinct(xs: seq<int>, p: int)
    requires p > 0
  {
    forall i, j :: 0 <= i < j < |xs| ==> !Cong(xs[i], xs[j], p)
  }

  ghost predicate Vanishes(c: seq<int>, xs: seq<int>, p: int)
    requires p > 0
  {
    forall i :: 0 <= i < |xs| ==> Cong(Eval(c, xs[i]), 0, p)
  }

  /** With at least as many distinct roots as coefficients, c is zero everywhere. */
  lemma {:induction false} FewRoots(p: int, c: seq<int>, xs: seq<int>, z: int)
    requires IsPrime(p) && |c| <= |xs| && Distinct(xs, p) && Vanishes(c, xs, p)
    ensures Cong(Eval(c, z), 0, p)
    decreases |c|
  {
    if c != [] {
      var n := |xs| - 1;
      var r, rest := xs[n], xs[..n];
      var q := Quotient(c, r);
      forall i | 0 <= i < |rest| ensures Cong(Eval(q, rest[i]), 0, p) {
        RootOfQuotient(p, c, r, rest[i]);
      }
      FewRoots(p, q, rest, z);
      Division(c, r, z);
      CongMul(z - r, z - r, Eval(q, z), 0, p);
      CongAdd((z - r) * Eval(q, z), 0, Eval(c, r), 0, p);
    }
  }

  lemma RootOfQuotient(p: int, c: seq<int>, r: int, x: int)
    requires IsPrime(p) && !Cong(x, r, p) && Cong(Eval(c, r), 0, p) && Cong(Eval(c, x), 0, p)
    ensures Cong(Eval(Quotient(c, r), x), 0, p)
  {
    var e := Eval(Quotient(c, r), x);
    Division(c, r, x);
    CongAdd(Eval(c, x), 0, Eval(c, r), 0, p);
    if Divides(p, x - r) {
      ModIs(0, p, 0, 0);
      CongAdd(x - r, 0, r, r, p);
    }
    ModIs(0, p, 0, 0);
    Euclid(p, x - r, e);
  }

  // -------------------------------------------------------------- interpolation

  /** (z - r_0)(z - r_1)... */
  function RootProduct(rs: seq<int>, z: int): int {
    if rs == [] then 1 else (z - rs[0]) * RootProduct(rs[1..], z)
  }

  function RootPolynomial(rs: seq<int>): (c: seq<int>)
    ensures |c| == |rs| + 1
  {
    if rs == [] then [1]
    else var c := RootPolynomial(rs[1..]); Add([0] + c, Scale(-rs[0], c))
  }

  lemma {:induction false} EvalRootPolynomial(rs: seq<int>, z: int)
    ensures Eval(RootPolynomial(rs), z) == RootProduct(rs, z)
  {
    if rs == [] {
      assert Eval([1], z) == 1 + z * Eval([], z);
    } else {
      var c := RootPolynomial(rs[1..]);
      EvalRootPolynomial(rs[1..], z);
      EvalAdd([0] + c, Scale(-rs[0], c), z);
      EvalScale(-rs[0], c, z);
      assert ([0] + c)[1..] == c;
      assert (z - rs[0]) * Eval(c, z) == z * Eval(c, z) + (-rs[0]) * Eval(c, z);
    }
  }

  lemma {:induction false} RootProductVanishes(rs: seq<int>, i: nat, z: int, p: int)
    requires p > 0 && i < |rs| && Cong(z, rs[i], p)
    ensures Cong(RootProduct(rs, z), 0, p)
  {
    var tail := RootProduct(rs[1..], z);
    if i == 0 {
      CongAdd(z, rs[0], rs[0], rs[0], p);
      CongMul(z - rs[0], 0, tail, tail, p);
    } else {
      RootProductVanishes(rs[1..], i - 1, z, p);
      CongMul(z - rs[0], z - rs[0], tail, 0, p);
    }
  }

  lemma {:induction false} RootProductNonZero(rs: seq<int>, z: int, p: int)
    requires IsPrime(p) && forall i :: 0 <= i < |rs| ==> !Cong(z, rs[i], p)
    ensures !Divides(p, RootProduct(rs, z))
  {
    if rs == [] {
      ModIs(1, p, 0, 1);
    } else {
      assert !Cong(z, rs[0], p);
      assert forall i :: 0 <= i < |rs[1..]| ==> rs[1..][i] == rs[i + 1];
      RootProductNonZero(rs[1..], z, p);
      if Divides(p, RootProduct(rs, z)) {
        Euclid(p, z - rs[0], RootProduct(rs[1..], z));
        ModIs(0, p, 0, 0);
        CongAdd(z - rs[0], 0, rs[0], rs[0], p);
        assert false;
      }
    }
  }

  function Without(xs: seq<int>, i: nat): (r: seq<int>)
    requires i < |xs|
    ensures |r| == |xs| - 1
  {
    xs[..i] + xs[i + 1..]
  }

  /** The sum of weighted root products of all points but one, as coefficients. */
  function Combination(xs: seq<int>, ws: seq<int>, n: nat): (c: seq<int>)
    requires n <= |xs| == |ws|
    ensures |c| == if n == 0 then 0 else |xs|
  {
    if n == 0 then [] else Add(Combination(xs, ws, n - 1), Scale(ws[n - 1], RootPolynomial(Without(xs, n - 1))))
  }

  function CombinationAt(xs: seq<int>, ws: seq<int>, n: nat, z: int): int
    requires n <= |xs| == |ws|
  {
    if n == 0 then 0 else CombinationAt(xs, ws, n - 1, z) + ws[n - 1] * RootProduct(Without(xs, n - 1), z)
  }

  lemma {:induction false} EvalCombination(xs: seq<int>, ws: seq<int>, n: nat, z: int)
    requires n <= |xs| == |ws|
    ensures Eval(Combination(xs, ws, n), z) == CombinationAt(xs, ws, n, z)
  {
    if n > 0 {
      EvalCombination(xs, ws, n - 1, z);
      var basis := RootPolynomial(Without(xs, n - 1));
      EvalAdd(Combination(xs, ws, n - 1), Scale(ws[n - 1], basis), z);
      EvalScale(ws[n - 1], basis, z);
      EvalRootPolynomial(Without(xs, n - 1), z);
    }
  }

  /** At the point xs[m] only the m-th weighted product is left. */
  lemma {:induction false} OneTermLeft(xs: seq<int>, ws: seq<int>, n: nat, m: nat, p: int)
    requires p > 0 && n <= |xs| == |ws| && m < |xs|
    ensures Cong(CombinationAt(xs, ws, n, xs[m]), if m < n then ws[m] * RootProduct(Without(xs, m), xs[m]) else 0, p)
  {
    if n > 0 {
      OneTermLeft(xs, ws, n - 1, m, p);
      var i := n - 1;
      var rest := Without(xs, i);
      var term := ws[i] * RootProduct(rest, xs[m]);
      if m != i {
        var k := if m < i then m else m - 1;
        assert rest[k] == xs[m];
        RootProductVanishes(rest, k, xs[m], p);
        CongMul(ws[i], ws[i], RootProduct(rest, xs[m]), 0, p);
        CongAdd(CombinationAt(xs, ws, i, xs[m]), if m < i then ws[m] * RootProduct(Without(xs, m), xs[m])
            else 0, term, 0, p);
      } else {
        CongAdd(CombinationAt(xs, ws, i, xs[m]), 0, term, term, p);
      }
    }
  }
}
