// Shamir sharing of the private exponent (internal/crypto/commit.go).
module Shamir {
  import opened ModArith
  import opened Polynomial
  import opened Wrappers

  datatype Share = Share(index: int, value: int)

  function Indexes(shares: seq<Share>): (xs: seq<int>)
    ensures |xs| == |shares|
  {
    seq(|shares|, i requires 0 <= i < |shares| => shares[i].index)
  }

  /** The polynomial c passes through every share, modulo p. */
  ghost predicate Through(c: seq<int>, shares: seq<Share>, p: int)
    requires p > 0
  {
    forall i :: 0 <= i < |shares| ==> Cong(Eval(c, shares[i].index), shares[i].value, p)
  }

  /** v is the value at 0 of a polynomial through the shares with no more coefficients than shares. */
  ghost predicate IsSecret(shares: seq<Share>, p: int, v: int)
    requires p > 0
  {
    0 <= v < p && exists c :: |c| <= |shares| && Through(c, shares, p) && v == Eval(c, 0) % p
  }

  // ---------------------------------------------------------------- SplitSecret

  /** The shares of players 1..n on the polynomial c. */
  function SharesOf(c: seq<int>, n: nat, p: int): (r: seq<Share>)
    requires p > 0
    ensures |r| == n
  {
    seq(n, i requires 0 <= i < n => Share(i + 1, Eval(c, i + 1) % p))
  }

  /** SplitSecret over the random coefficients that the source draws. */
  method SplitSecret(secret: int, t: int, n: int, p: int, draws: seq<int>) returns (r: Result<seq<Share>>)
    requires p > 0 && |draws| + 1 >= t
    ensures r.Err? <==> t < 2 || n < t
    ensures r.Err? ==> r.error == BadThreshold
    ensures r.Ok? ==> r.value == SharesOf([secret] + draws[..t - 1], n, p)
  {
    if t < 2 || n < t {
      return Err(BadThreshold);
    }
    var coeffs := [secret] + draws[..t - 1];
    var shares: seq<Share> := [];
    var x := 1;
    while x <= n
      invariant 1 <= x <= n + 1
      invariant shares == SharesOf(coeffs, n, p)[..x - 1]
    {
      var y := EvalLoop(coeffs, x, p);
      shares := shares + [Share(x, y)];
      x := x + 1;
    }
    return Ok(shares);
  }

  /** The inner loop of SplitSecret: the powers of x are built up and reduced on the way. */
  method EvalLoop(coeffs: seq<int>, x: int, p: int) returns (y: int)
    requires p > 0 && |coeffs| >= 2
    ensures y == Eval(coeffs, x) % p
  {
    y := coeffs[0];
    var xPow := x;
    var i := 1;
    assert coeffs[..1][1..] == [];
    assert Eval(coeffs[..1], x) == coeffs[0] + x * 0;
    assert Pow(x, 1) == x * Pow(x, 0);
    while i < |coeffs|
      invariant 1 <= i <= |coeffs|
      invariant Cong(y, Eval(coeffs[..i], x), p)
      invariant Cong(xPow, Pow(x, i), p)
      invariant i > 1 ==> 0 <= y < p
    {
      var term := (coeffs[i] * xPow) % p;
      CongMul(coeffs[i], coeffs[i], xPow, Pow(x, i), p);
      CongMod(coeffs[i] * xPow, p);
      CongAdd(y, Eval(coeffs[..i], x), term, coeffs[i] * Pow(x, i), p);
      EvalSnoc(coeffs, i, x);
      CongMod(y + term, p);
      y := (y + term) % p;
      CongMul(xPow, Pow(x, i), x, x, p);
      CongMod(xPow * x, p);
      assert Pow(x, i + 1) == x * Pow(x, i);
      xPow := (xPow * x) % p;
      i := i + 1;
    }
    assert coeffs[..i] == coeffs;
    ModIs(y, p, 0, y);
  }

  // ---------------------------------------------------------- ReconstructSecret

  lemma {:induction false} RootProductSnoc(rs: seq<int>, r: int, z: int)
    ensures RootProduct(rs + [r], z) == RootProduct(rs, z) * (z - r)
  {
    if rs == [] {
      assert RootProduct([r], z) == (z - r) * RootProduct([], z) by { assert [r][1..] == []; }
    } else {
      RootProductSnoc(rs[1..], r, z);
      assert (rs + [r])[1..] == rs[1..] + [r];
      assert (z - rs[0]) * (RootProduct(rs[1..], z) * (z - r)) == ((z - rs[0]) * RootProduct(rs[1..], z)) * (z - r);
    }
  }

  /** The first n indexes with the i-th left out. */
  ghost function Others(xs: seq<int>, i: nat, n: nat): seq<int>
    requires n <= |xs|
  {
    if i < n then Without(xs[..n], i) else xs[..n]
  }

  /** The loop over the other shares multiplies one factor on at each step. */
  lemma OthersStep(xs: seq<int>, i: nat, n: nat, z: int)
    requires n < |xs|
    ensures n == i ==> Others(xs, i, n + 1) == Others(xs, i, n)
    ensures n != i ==> RootProduct(Others(xs, i, n + 1), z) == RootProduct(Others(xs, i, n), z) * (z - xs[n])
  {
    if n != i {
      assert Others(xs, i, n + 1) == Others(xs, i, n) + [xs[n]];
      RootProductSnoc(Others(xs, i, n), xs[n], z);
    }
  }

  /** The inner loop of ReconstructSecret: Lagrange's numerator and denominator at 0. */
  method LagrangeFactors(shares: seq<Share>, i: nat, p: int) returns (num: int, den: int)
    requires p > 1 && i < |shares|
    ensures Cong(num, RootProduct(Without(Indexes(shares), i), 0), p)
    ensures Cong(den, RootProduct(Without(Indexes(shares), i), shares[i].index), p)
  {
    ghost var xs := Indexes(shares);
    num, den := 1, 1;
    var j := 0;
    while j < |shares|
      invariant 0 <= j <= |shares|
      invariant Cong(num, RootProduct(Others(xs, i, j), 0), p)
      invariant Cong(den, RootProduct(Others(xs, i, j), xs[i]), p)
    {
      OthersStep(xs, i, j, 0);
      OthersStep(xs, i, j, xs[i]);
      if j != i {
        var negXj := p - shares[j].index;
        CongFromDiff(negXj, -xs[j], p, 1);
        CongMul(num, RootProduct(Others(xs, i, j), 0), negXj, -xs[j], p);
        CongMod(num * negXj, p);
        num := (num * negXj) % p;
        var diff := (shares[i].index - shares[j].index) % p;
        CongMod(shares[i].index - shares[j].index, p);
        CongMul(den, RootProduct(Others(xs, i, j), xs[i]), diff, xs[i] - xs[j], p);
        CongMod(den * diff, p);
        den := (den * diff) % p;
      }
      j := j + 1;
    }
    assert xs[..j] == xs;
  }

  /** Share i's denominator can be inverted exactly when no other share has its index modulo p. */
  lemma DenominatorUnit(xs: seq<int>, i: nat, p: int)
    requires IsPrime(p) && i < |xs|
    ensures Divides(p, RootProduct(Without(xs, i), xs[i])) <==>
              exists j :: 0 <= j < |xs| && j != i && Cong(xs[i], xs[j], p)
  {
    var rest := Without(xs, i);
    if j :| 0 <= j < |xs| && j != i && Cong(xs[i], xs[j], p) {
      RootProductVanishes(rest, if j < i then j else j - 1, xs[i], p);
      ModIs(0, p, 0, 0);
    } else {
      forall k | 0 <= k < |rest| ensures !Cong(xs[i], rest[k], p) {
        assert rest[k] == xs[if k < i then k else k + 1];
      }
      RootProductNonZero(rest, xs[i], p);
    }
  }

  /**
   * ReconstructSecret. It fails exactly on no shares or on two shares with the
   * same index modulo p; otherwise it returns the value at 0 of the polynomial
   * through the shares.
   */
  method ReconstructSecret(shares: seq<Share>, p: int) returns (r: Result<int>)
    requires IsPrime(p)
    ensures r.Ok? <==> shares != [] && Distinct(Indexes(shares), p)
    ensures r.Ok? ==> IsSecret(shares, p, r.value)
    ensures r.Err? ==> r.error == if shares == [] then NoShares else NoInverse
  {
    if shares == [] {
      return Err(NoShares);
    }
    ghost var xs := Indexes(shares);
    ghost var ws: seq<int> := [];
    var secret := 0;
    var i := 0;
    ModIs(0, p, 0, 0);
    while i < |shares|
      invariant 0 <= i <= |shares| && |ws| == i
      invariant 0 <= secret < p
      invariant forall k :: 0 <= k < i ==> !Divides(p, RootProduct(Without(xs, k), xs[k]))
      invariant forall k :: 0 <= k < i ==> Cong(ws[k] * RootProduct(Without(xs, k), xs[k]), shares[k].value, p)
      invariant Cong(secret, CombinationAt(xs, Padded(ws, |xs|), i, 0), p)
    {
      var num, den := LagrangeFactors(shares, i, p);
      var denInv := ModInverse(den, p);
      PrimeInverse(p, den);
      if denInv.NotAUnit? {
        DenominatorUnit(xs, i, p);
        return Err(NoInverse);
      }
      var inv := denInv.value;
      var lagrange := (((shares[i].value * num) % p) * inv) % p;
      ghost var w := shares[i].value * inv;
      WeightIsRight(p, shares[i].value, inv, den, RootProduct(Without(xs, i), xs[i]));
      TermIsRight(p, shares[i].value, num, inv, RootProduct(Without(xs, i), 0));
      CongAdd(secret, CombinationAt(xs, Padded(ws, |xs|), i, 0), lagrange, w * RootProduct(Without(xs, i), 0), p);
      CombinationPrefix(xs, Padded(ws, |xs|), Padded(ws + [w], |xs|), i, 0);
      CongMod(secret + lagrange, p);
      secret := (secret + lagrange) % p;
      ws := ws + [w];
      i := i + 1;
    }
    assert Padded(ws, |xs|) == ws;
    InterpolantExists(shares, ws, p);
    EvalCombination(xs, ws, |xs|, 0);
    ModIs(secret, p, 0, secret);
    AllUnitsMeansDistinct(xs, p);
    return Ok(secret);
  }

  ghost function Padded(ws: seq<int>, n: nat): (r: seq<int>)
    requires |ws| <= n
    ensures |r| == n
  {
    ws + seq(n - |ws|, i => 0)
  }

  lemma {:induction false} CombinationPrefix(xs: seq<int>, ws: seq<int>, ws': seq<int>, n: nat, z: int)
    requires n <= |xs| == |ws| == |ws'| && ws[..n] == ws'[..n]
    ensures CombinationAt(xs, ws, n, z) == CombinationAt(xs, ws', n, z)
  {
    if n > 0 {
      assert ws[n - 1] == ws[..n][n - 1] && ws'[n - 1] == ws'[..n][n - 1];
      assert ws[..n - 1] == ws[..n][..n - 1] && ws'[..n - 1] == ws'[..n][..n - 1];
      CombinationPrefix(xs, ws, ws', n - 1, z);
    }
  }

  lemma WeightIsRight(p: int, y: int, inv: int, den: int, product: int)
    requires p > 1 && (den * inv) % p == 1 && Cong(den, product, p)
    ensures Cong((y * inv) * product, y, p)
    ensures !Divides(p, product)
  {
    ModIs(1, p, 0, 1);
    CongMul(den, product, inv, inv, p);
    CongMul(y, y, product * inv, 1, p);
    assert (y * inv) * product == y * (product * inv);
    if Divides(p, product) {
      ModIs(0, p, 0, 0);
      CongMul(product, 0, inv, inv, p);
    }
  }

  lemma TermIsRight(p: int, y: int, num: int, inv: int, product: int)
    requires p > 1 && Cong(num, product, p)
    ensures Cong((((y * num) % p) * inv) % p, (y * inv) * product, p)
  {
    CongMul(y, y, num, product, p);
    CongMod(y * num, p);
    CongMul((y * num) % p, y * product, inv, inv, p);
    CongMod(((y * num) % p) * inv, p);
    assert (y * product) * inv == (y * inv) * product;
  }

  lemma AllUnitsMeansDistinct(xs: seq<int>, p: int)
    requires IsPrime(p)
    requires forall k :: 0 <= k < |xs| ==> !Divides(p, RootProduct(Without(xs, k), xs[k]))
    ensures Distinct(xs, p)
  {
    forall i, j | 0 <= i < j < |xs| ensures !Cong(xs[i], xs[j], p) {
      DenominatorUnit(xs, i, p);
    }
  }

  lemma DistinctMeansUnit(xs: seq<int>, i: nat, p: int)
    requires IsPrime(p) && i < |xs| && Distinct(xs, p)
    ensures !Divides(p, RootProduct(Without(xs, i), xs[i]))
  {
    forall j | 0 <= j < |xs| && j != i ensures !Cong(xs[i], xs[j], p) {
      var lo, hi := if i < j then i else j, if i < j then j else i;
      assert !Cong(xs[lo], xs[hi], p);
    }
    DenominatorUnit(xs, i, p);
  }

  /** Right weights make the combination pass through the shares. */
  lemma InterpolantExists(shares: seq<Share>, ws: seq<int>, p: int)
    requires p > 0 && |ws| == |shares|
    requires forall k :: 0 <= k < |shares| ==>
      Cong(ws[k] * RootProduct(Without(Indexes(shares), k), Indexes(shares)[k]), shares[k].value, p)
    ensures Through(Combination(Indexes(shares), ws, |shares|), shares, p)
  {
    var xs := Indexes(shares);
    forall i | 0 <= i < |shares| ensures Cong(Eval(Combination(xs, ws, |xs|), xs[i]), shares[i].value, p) {
      EvalCombination(xs, ws, |xs|, xs[i]);
      OneTermLeft(xs, ws, |xs|, i, p);
    }
  }

  // ------------------------------------------------------------------- theorems

  /** Two polynomials through enough distinct shares agree everywhere. */
  lemma InterpolantUnique(p: int, a: seq<int>, b: seq<int>, shares: seq<Share>, z: int)
    requires IsPrime(p) && Distinct(Indexes(shares), p)
    requires |a| <= |shares| && |b| <= |shares| && Through(a, shares, p) && Through(b, shares, p)
    ensures Cong(Eval(a, z), Eval(b, z), p)
  {
    var xs, diff := Indexes(shares), Difference(a, b);
    forall i | 0 <= i < |xs| ensures Cong(Eval(diff, xs[i]), 0, p) {
      EvalDifference(a, b, xs[i]);
      CongAdd(Eval(a, xs[i]), Eval(b, xs[i]), Eval(b, xs[i]), Eval(b, xs[i]), p);
    }
    FewRoots(p, diff, xs, z);
    EvalDifference(a, b, z);
    CongAdd(Eval(diff, z), 0, Eval(b, z), Eval(b, z), p);
  }

  /** sub holds shares of the split, no two of the same player. */
  ghost predicate DistinctSharesOf(sub: seq<Share>, all: seq<Share>) {
    && (forall i :: 0 <= i < |sub| ==> sub[i] in all)
    && (forall i, j :: 0 <= i < j < |sub| ==> sub[i].index != sub[j].index)
  }

  /** Shares of different players on a table smaller than p never collide modulo p. */
  lemma SplitSharesDistinct(c: seq<int>, n: nat, p: int, sub: seq<Share>)
    requires n < p && DistinctSharesOf(sub, SharesOf(c, n, p))
    ensures Distinct(Indexes(sub), p) && Through(c, sub, p)
  {
    forall i | 0 <= i < |sub| ensures 1 <= sub[i].index <= n && sub[i].value == Eval(c, sub[i].index) % p {
      assert sub[i] in SharesOf(c, n, p);
    }
    forall i, j | 0 <= i < j < |sub| ensures !Cong(sub[i].index, sub[j].index, p) {
      ModIs(sub[i].index, p, 0, sub[i].index);
      ModIs(sub[j].index, p, 0, sub[j].index);
    }
    forall i | 0 <= i < |sub| ensures Cong(Eval(c, sub[i].index), sub[i].value, p) {
      CongMod(Eval(c, sub[i].index), p);
    }
  }

  /**
   * The round trip: whatever ReconstructSecret returns on at least as many
   * distinct shares as there are coefficients is the shared secret.
   */
  lemma ShamirRoundTrip(c: seq<int>, n: nat, p: int, sub: seq<Share>, v: int)
    requires IsPrime(p) && n < p && 1 <= |c| <= |sub| && 0 <= c[0] < p
    requires DistinctSharesOf(sub, SharesOf(c, n, p))
    requires IsSecret(sub, p, v)
    ensures v == c[0]
  {
    SplitSharesDistinct(c, n, p, sub);
    var a :| |a| <= |sub| && Through(a, sub, p) && v == Eval(a, 0) % p;
    InterpolantUnique(p, a, c, sub, 0);
    EvalAtZero(c);
    ModIs(c[0], p, 0, c[0]);
  }

  /**
   * Fewer shares than the threshold fix nothing: for any distinct non-zero
   * indexes and any candidate secret there is a polynomial with one coefficient
   * more than shares that passes through them and has that secret.
   */
  lemma BelowThresholdHides(shares: seq<Share>, p: int, candidate: int) returns (c: seq<int>)
    requires IsPrime(p) && Distinct(Indexes(shares), p)
    requires forall i :: 0 <= i < |shares| ==> !Divides(p, shares[i].index)
    ensures |c| == |shares| + 1 && Through(c, shares, p) && Cong(Eval(c, 0), candidate, p)
  {
    var more := shares + [Share(0, candidate)];
    var xs := Indexes(more);
    ModIs(0, p, 0, 0);
    assert Distinct(xs, p) by {
      forall i, j | 0 <= i < j < |xs| ensures !Cong(xs[i], xs[j], p) {
        assert xs[i] == Indexes(shares)[i];
        if j < |shares| {
          assert xs[j] == Indexes(shares)[j];
        }
      }
    }
    var ws := Weights(more, |more|, p);
    InterpolantExists(more, ws, p);
    c := Combination(xs, ws, |more|);
    assert more[|shares|] == Share(0, candidate);
    forall i | 0 <= i < |shares| ensures Cong(Eval(c, shares[i].index), shares[i].value, p) {
      assert more[i] == shares[i];
    }
  }

  lemma Weights(shares: seq<Share>, n: nat, p: int) returns (ws: seq<int>)
    requires IsPrime(p) && n <= |shares| && Distinct(Indexes(shares), p)
    ensures |ws| == n
    ensures forall k :: 0 <= k < n ==>
      Cong(ws[k] * RootProduct(Without(Indexes(shares), k), Indexes(shares)[k]), shares[k].value, p)
  {
    ws := [];
    var xs := Indexes(shares);
    while |ws| < n
      invariant |ws| <= n
      invariant forall k :: 0 <= k < |ws| ==> Cong(ws[k] * RootProduct(Without(xs, k), xs[k]), shares[k].value, p)
    {
      var i := |ws|;
      var den := RootProduct(Without(xs, i), xs[i]);
      DistinctMeansUnit(xs, i, p);
      PrimeInverse(p, den);
      var inv := ModInverse(den, p).value;
      WeightIsRight(p, shares[i].value, inv, den, den);
      ws := ws + [shares[i].value * inv];
    }
  }
}
