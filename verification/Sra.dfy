// The commutative SRA cipher (internal/crypto/sra.go): m -> m^e mod p.
module Sra {
  import opened ModArith
  import opened Wrappers

  type Modulus = p: int | p >= 2 witness 2

  // The private exponent is absent from a public view of a key.
  datatype Key = Key(e: nat, d: Option<nat>, p: Modulus)

  predicate IsPrivate(k: Key) {
    k.d.Some?
  }

  /** validateMessage accepts exactly [1, p - 2]. */
  predicate InRange(m: int, p: int) {
    1 <= m <= p - 2
  }

  predicate AllInRange(ms: seq<int>, p: int) {
    forall i :: 0 <= i < |ms| ==> InRange(ms[i], p)
  }

  function Encrypt(k: Key, m: int): Result<int> {
    if InRange(m, k.p) then Ok(ModPow(m, k.e, k.p)) else Err(OutOfRange)
  }

  function Decrypt(k: Key, c: int): Result<int> {
    if k.d.None? then Err(MissingPrivateKey)
    else if InRange(c, k.p) then Ok(ModPow(c, k.d.value, k.p))
    else Err(OutOfRange)
  }

  /** What VerifyKeyPair tests: both exponents present and inverse modulo p - 1. */
  predicate VerifyKeyPair(k: Key)
    requires k.p > 2
  {
    k.d.Some? && (k.e * k.d.value) % (k.p - 1) == 1
  }

  /** A key pair over an odd prime, as GenerateSRAKey makes it. */
  ghost predicate KeyPair(k: Key) {
    IsPrime(k.p) && k.p > 2 && VerifyKeyPair(k)
  }

  // ------------------------------------------------------ range closure, inverse

  lemma NotDivisible(p: int, m: int)
    requires 0 < m < p
    ensures !Divides(p, m) && m % p == m
  {
    ModIs(m, p, 0, m);
  }

  lemma OddPrime(p: int)
    requires IsPrime(p) && p > 2
    ensures p % 2 == 1
  {
    assert !Divides(2, p);
  }

  lemma EvenProduct(x: nat, y: nat)
    ensures x % 2 == 0 ==> (x * y) % 2 == 0
  {
    assert (2 * (x / 2)) * y == 2 * ((x / 2) * y);
  }

  /** Exponents that are inverse modulo the even number p - 1 are both odd. */
  lemma ExponentsOdd(p: int, x: nat, y: nat)
    requires p > 2 && p % 2 == 1 && (x * y) % (p - 1) == 1
    ensures x % 2 == 1
  {
    var m, q := (p - 1) / 2, (x * y) / (p - 1);
    assert x * y == (2 * m) * q + 1;
    assert (2 * m) * q == 2 * (m * q);
    EvenProduct(x, y);
  }

  /** Raising to x and then to its inverse y gives the residue back. */
  lemma PowUndone(p: int, m: int, x: nat, y: nat)
    requires IsPrime(p) && p > 2 && 0 < m < p && (x * y) % (p - 1) == 1
    ensures ModPow(ModPow(m, x, p), y, p) == m
  {
    NotDivisible(p, m);
    ModPowMul(m, x, y, p);
    ModIs(1, p - 1, 0, 1);
    ExponentReduce(p, m, x * y, 1);
    assert Pow(m, 1) == m;
  }

  lemma MinusOneStays(p: int, x: nat)
    requires p > 2 && x % 2 == 1
    ensures ModPow(p - 1, x, p) == p - 1
  {
    CongFromDiff(p - 1, -1, p, 1);
    PowCong(p - 1, -1, x, p);
    PowMinusOne(x);
    ModIs(p - 1, p, 0, p - 1);
  }

  /** A power with an invertible exponent stays inside [1, p - 2]. */
  lemma PowInRange(p: int, m: int, x: nat, y: nat)
    requires IsPrime(p) && p > 2 && InRange(m, p) && (x * y) % (p - 1) == 1
    ensures InRange(ModPow(m, x, p), p)
  {
    NotDivisible(p, m);
    PowNonZero(p, m, x);
    if ModPow(m, x, p) == p - 1 {
      OddPrime(p);
      assert x * y == y * x;
      ExponentsOdd(p, y, x);
      MinusOneStays(p, y);
      PowUndone(p, m, x, y);
      assert false;
    }
  }

  /** Encryption accepts the whole message range and stays in it. */
  lemma EncryptCloses(k: Key, m: int)
    requires KeyPair(k) && InRange(m, k.p)
    ensures Encrypt(k, m).Ok? && InRange(Encrypt(k, m).value, k.p)
  {
    PowInRange(k.p, m, k.e, k.d.value);
  }

  lemma DecryptCloses(k: Key, c: int)
    requires KeyPair(k) && InRange(c, k.p)
    ensures Decrypt(k, c).Ok? && InRange(Decrypt(k, c).value, k.p)
  {
    assert k.e * k.d.value == k.d.value * k.e;
    PowInRange(k.p, c, k.d.value, k.e);
  }

  /** Decrypt undoes Encrypt and Encrypt undoes Decrypt, on the whole range. */
  lemma SraInverse(k: Key, m: int)
    requires KeyPair(k) && InRange(m, k.p)
    ensures Encrypt(k, m).Ok? && Decrypt(k, Encrypt(k, m).value) == Ok(m)
    ensures Decrypt(k, m).Ok? && Encrypt(k, Decrypt(k, m).value) == Ok(m)
  {
    assert k.e * k.d.value == k.d.value * k.e;
    EncryptCloses(k, m);
    DecryptCloses(k, m);
    PowUndone(k.p, m, k.e, k.d.value);
    PowUndone(k.p, m, k.d.value, k.e);
  }

  // ------------------------------------------------------------- whole slices

  function EncryptEach(k: Key, cards: seq<int>): (r: seq<int>)
    ensures |r| == |cards|
  {
    seq(|cards|, i requires 0 <= i < |cards| => ModPow(cards[i], k.e, k.p))
  }

  function DecryptEach(k: Key, cards: seq<int>): (r: seq<int>)
    requires IsPrivate(k)
    ensures |r| == |cards|
  {
    seq(|cards|, i requires 0 <= i < |cards| => ModPow(cards[i], k.d.value, k.p))
  }

  method EncryptAll(k: Key, cards: seq<int>) returns (r: Result<seq<int>>)
    ensures r.Ok? <==> forall i :: 0 <= i < |cards| ==> 1 <= cards[i] <= k.p - 2
    ensures r.Ok? ==> r.value == EncryptEach(k, cards)
    ensures r.Err? ==> r.error == OutOfRange
  {
    var out: seq<int> := [];
    var i := 0;
    while i < |cards|
      invariant 0 <= i <= |cards|
      invariant AllInRange(cards[..i], k.p)
      invariant out == EncryptEach(k, cards)[..i]
    {
      var enc := Encrypt(k, cards[i]);
      if enc.Err? {
        return Err(enc.error);
      }
      assert InRange(cards[i], k.p);
      out := out + [enc.value];
      i := i + 1;
    }
    assert cards[..i] == cards;
    return Ok(out);
  }

  method DecryptAll(k: Key, cards: seq<int>) returns (r: Result<seq<int>>)
    ensures r.Ok? <==> cards == [] || (IsPrivate(k) && AllInRange(cards, k.p))
    ensures r.Ok? && cards != [] ==> r.value == DecryptEach(k, cards)
    ensures r.Ok? ==> |r.value| == |cards|
  {
    var out: seq<int> := [];
    var i := 0;
    while i < |cards|
      invariant 0 <= i <= |cards| && |out| == i
      invariant i > 0 ==> IsPrivate(k)
      invariant AllInRange(cards[..i], k.p)
      invariant IsPrivate(k) ==> out == DecryptEach(k, cards)[..i]
    {
      var dec := Decrypt(k, cards[i]);
      if dec.Err? {
        return Err(dec.error);
      }
      assert InRange(cards[i], k.p);
      out := out + [dec.value];
      i := i + 1;
    }
    assert cards[..i] == cards;
    return Ok(out);
  }

  /** DecryptAll undoes EncryptAll, whole deck at a time. */
  lemma DeckRoundTrip(k: Key, cards: seq<int>)
    requires KeyPair(k) && AllInRange(cards, k.p)
    ensures AllInRange(EncryptEach(k, cards), k.p)
    ensures DecryptEach(k, EncryptEach(k, cards)) == cards
  {
    forall i | 0 <= i < |cards|
      ensures InRange(EncryptEach(k, cards)[i], k.p)
      ensures DecryptEach(k, EncryptEach(k, cards))[i] == cards[i]
    {
      EncryptCloses(k, cards[i]);
      SraInverse(k, cards[i]);
    }
  }

  // -------------------------------------------------------------- key generation

  /**
   * GenerateSRAKey over the numbers that the random source returns: a draw is
   * rejected while it is too large or shares a factor with p - 1.
   */
  method GenerateSRAKey(p: int, draws: seq<nat>) returns (r: Result<Key>)
    requires IsPrime(p) && p > 2
    requires forall i :: 0 <= i < |draws| ==> draws[i] < p - 1
    ensures r.Ok? ==> KeyPair(r.value) && r.value.p == p && 2 <= r.value.e < p - 1
    ensures r.Ok? ==> r.value.d.value < p - 1
    ensures r.Err? ==> forall i :: 0 <= i < |draws| ==> Rejected(draws[i], p)
  {
    var phi := p - 1;
    var i := 0;
    while i < |draws|
      invariant 0 <= i <= |draws|
      invariant forall j :: 0 <= j < i ==> Rejected(draws[j], p)
    {
      var candidate := draws[i] + 2;
      if candidate < phi {
        var d := ModInverse(candidate, phi);
        if d.Unit? {
          return Ok(Key(candidate, Some(d.value), p));
        }
      }
      i := i + 1;
    }
    return Err(DrawsExhausted);
  }

  /** A draw that GenerateSRAKey skips. */
  predicate Rejected(draw: nat, p: int)
    requires p > 2
  {
    draw + 2 >= p - 1 || ModInverse(draw + 2, p - 1).NotAUnit?
  }
}
