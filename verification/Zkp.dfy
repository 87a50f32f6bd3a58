// Proofs of correct decryption (internal/crypto/zkp.go). The challenge hash is
// an arbitrary function of the transcript, the nonce an arbitrary parameter.
module Zkp {
  import opened ModArith
  import opened Sra
  import opened Wrappers

  datatype Proof = Proof(a: int, b: int, s: nat, h: int)

  // Everything that computeChallenge hashes.
  datatype Transcript = Transcript(p: int, h: int, ciphertext: int, result: int, a: int, b: int, session: seq<bv8>)

  type Oracle = Transcript -> nat

  const GENERATOR := 2

  function Challenge(hash: Oracle, p: int, h: int, ciphertext: int, result: int, a: int, b: int,
      session: seq<bv8>): (c: nat)
    requires p > 2
    ensures c < p - 1
  {
    hash(Transcript(p, h, ciphertext, result, a, b, session)) % (p - 1)
  }

  /** Every field of a transcript counts: two that differ get different challenges from some hash. */
  lemma ChallengeBinds(p: int, t: Transcript, t': Transcript)
    requires p > 2 && t != t' && t.p == t'.p == p
    ensures exists hash: Oracle ::
              Challenge(hash, p, t.h, t.ciphertext, t.result, t.a, t.b, t.session)
                  != Challenge(hash, p, t'.h, t'.ciphertext, t'.result, t'.a, t'.b, t'.session)
  {
    var hash: Oracle := (x: Transcript) => if x == t then 1 else 0;
    assert hash(t) == 1 && hash(t') == 0;
    ModIs(1, p - 1, 0, 1);
    ModIs(0, p - 1, 0, 0);
    assert Challenge(hash, p, t.h, t.ciphertext, t.result, t.a, t.b, t.session) == 1;
  }

  function ProveDecryption(hash: Oracle, k: Key, ciphertext: int, result: int, session: seq<bv8>,
      nonce: nat): Result<Proof>
    requires k.p > 2
  {
    if k.d.None? then Err(MissingPrivateKey) else
    var d := k.d.value;
    var h := ModPow(GENERATOR, d, k.p);
    var a := ModPow(GENERATOR, nonce, k.p);
    var b := ModPow(ciphertext, nonce, k.p);
    var c := Challenge(hash, k.p, h, ciphertext, result, a, b, session);
    Ok(Proof(a, b, (c * d + nonce) % (k.p - 1), h))
  }

  predicate VerifyDecryption(hash: Oracle, pf: Proof, ciphertext: int, result: int, p: int, session: seq<bv8>)
    requires p > 2
  {
    var c := Challenge(hash, p, pf.h, ciphertext, result, pf.a, pf.b, session);
    && ModPow(GENERATOR, pf.s, p) == (ModPow(pf.h, c, p) * pf.a) % p
    && ModPow(ciphertext, pf.s, p) == (ModPow(result, c, p) * pf.b) % p
  }

  /** The response exponent splits into the challenge part and the nonce part. */
  lemma ResponseSplits(p: int, base: int, d: nat, c: nat, nonce: nat)
    requires IsPrime(p) && p > 2 && !Divides(p, base)
    ensures c * d + nonce >= 0
    ensures ModPow(base, (c * d + nonce) % (p - 1), p)
        == (ModPow(ModPow(base, d, p), c, p) * ModPow(base, nonce, p)) % p
  {
    var x := c * d + nonce;
    assert c * d == d * c;
    ModPowMul(base, d, c, p);
    CongMod(x, p - 1);
    ExponentReduce(p, base, x % (p - 1), x);
    PowAdd(base, d * c, nonce);
    CongMod(Pow(base, d * c), p);
    CongMod(Pow(base, nonce), p);
    CongMul(ModPow(base, d * c, p), Pow(base, d * c), ModPow(base, nonce, p), Pow(base, nonce), p);
  }

  /** Completeness: an honest proof of an honest decryption is always accepted. */
  lemma HonestProofVerifies(hash: Oracle, k: Key, ciphertext: int, session: seq<bv8>, nonce: nat)
    requires KeyPair(k) && InRange(ciphertext, k.p)
    ensures var result := Decrypt(k, ciphertext);
            && result.Ok?
            && var pf := ProveDecryption(hash, k, ciphertext, result.value, session, nonce);
            && pf.Ok?
            && VerifyDecryption(hash, pf.value, ciphertext, result.value, k.p, session)
  {
    var p, d := k.p, k.d.value;
    var result := Decrypt(k, ciphertext).value;
    var pf := ProveDecryption(hash, k, ciphertext, result, session, nonce).value;
    var c := Challenge(hash, p, pf.h, ciphertext, result, pf.a, pf.b, session);
    OddPrime(p);
    NotDivisible(p, GENERATOR);
    NotDivisible(p, ciphertext);
    ResponseSplits(p, GENERATOR, d, c, nonce);
    ResponseSplits(p, ciphertext, d, c, nonce);
  }

  // ------------------------------------------------------------------ what a proof shows

  /** A transcript's response fits challenge c: base^s is target^c times the commitment. */
  ghost predicate Responds(p: int, base: int, target: int, com: int, s: nat, c: nat)
    requires p > 0
  {
    Cong(Pow(base, s), Pow(target, c) * com, p)
  }

  /** Two responses to one commitment, without the commitment. */
  lemma TwoResponses(p: int, base: int, target: int, com: int, s: nat, c: nat, s': nat, c': nat)
    requires p > 0 && Responds(p, base, target, com, s, c) && Responds(p, base, target, com, s', c')
    ensures Cong(Pow(base, s) * Pow(target, c'), Pow(base, s') * Pow(target, c), p)
  {
    var x, y := Pow(target, c), Pow(target, c');
    CongMul(Pow(base, s), x * com, y, y, p);
    CongMul(Pow(base, s'), y * com, x, x, p);
    assert x * com * y == y * com * x;
  }

  /** n is minus e as an exponent modulo p. */
  predicate Negates(p: int, e: nat, n: nat) {
    e + n == (p - 1) * e
  }

  function Minus(p: int, e: nat): (n: nat)
    requires p > 2
    ensures Negates(p, e, n)
  {
    assert (p - 2) * e >= 0 && (p - 1) * e == (p - 2) * e + e;
    (p - 2) * e
  }

  lemma TakesOut(p: int, base: int, e: nat, n: nat)
    requires IsPrime(p) && p > 2 && !Divides(p, base) && Negates(p, e, n)
    ensures Cong(Pow(base, e) * Pow(base, n), 1, p)
  {
    PowAdd(base, e, n);
    CongFromDiff(e + n, 0, p - 1, e);
    ExponentReduce(p, base, e + n, 0);
  }

  lemma Regroup(x: int, y: int, u: int, v: int)
    ensures (x * y) * (u * v) == (x * u) * (y * v)
  {
  }

  /** What is left of base and target when the other response has been taken out. */
  lemma Divided(p: int, base: int, target: int, s: nat, c: nat, s': nat, c': nat, n: nat, m: nat)
    requires IsPrime(p) && p > 2 && !Divides(p, base) && !Divides(p, target)
    requires Cong(Pow(base, s) * Pow(target, c'), Pow(base, s') * Pow(target, c), p)
    requires Negates(p, s', n) && Negates(p, c', m)
    ensures Cong(Pow(base, s + n), Pow(target, c + m), p)
  {
    TakesOut(p, base, s', n);
    TakesOut(p, target, c', m);
    PowAdd(base, s, n);
    PowAdd(target, c, m);
    TakenOut(p, Pow(base, s), Pow(base, s'), Pow(target, c), Pow(target, c'), Pow(base, n), Pow(target, m));
  }

  lemma TakenOut(p: int, b: int, b': int, t: int, t': int, u: int, v: int)
    requires p > 0 && Cong(b * t', b' * t, p) && Cong(b' * u, 1, p) && Cong(t' * v, 1, p)
    ensures Cong(b * u, t * v, p)
  {
    CongMul(b * t', b' * t, u * v, u * v, p);
    Regroup(b, t', u, v);
    Regroup(b', t, u, v);
    CongMul(b * u, b * u, t' * v, 1, p);
    CongMul(b' * u, 1, t * v, t * v, p);
  }

  lemma Difference(p: int, c: nat, c': nat, m: nat, u: nat)
    requires p > 2 && Negates(p, c', m)
    ensures (c + m) * u >= 0 && Cong((c + m) * u, (c - c') * u, p - 1)
  {
    assert c + m == c - c' + (p - 1) * c';
    assert (c + m) * u == (c - c') * u + (p - 1) * c' * u;
    assert (p - 1) * c' * u == (p - 1) * (c' * u);
    CongFromDiff((c + m) * u, (c - c') * u, p - 1, c' * u);
  }

  /** The exponent that responses s and s' give away when u undoes the difference of their challenges. */
  function Extracted(p: int, s: nat, s': nat, u: nat): (x: nat)
    requires p > 2
  {
    (s + Minus(p, s')) * u
  }

  lemma ExponentIs(p: int, base: int, target: int, com: int, s: nat, c: nat, s': nat, c': nat, u: nat)
    requires IsPrime(p) && p > 2 && !Divides(p, base) && !Divides(p, target)
    requires Responds(p, base, target, com, s, c) && Responds(p, base, target, com, s', c')
    requires Cong((c - c') * u, 1, p - 1)
    ensures Cong(Pow(base, Extracted(p, s, s', u)), target, p)
  {
    var n, m := Minus(p, s'), Minus(p, c');
    TwoResponses(p, base, target, com, s, c, s', c');
    Divided(p, base, target, s, c, s', c', n, m);
    PowCong(Pow(base, s + n), Pow(target, c + m), u, p);
    PowMul(base, s + n, u);
    PowMul(target, c + m, u);
    Difference(p, c, c', m, u);
    ExponentReduce(p, target, (c + m) * u, 1);
    assert Pow(target, 1) == target;
  }

  lemma CheckIsResponse(p: int, base: int, target: int, com: int, s: nat, c: nat)
    requires p > 0
    ensures ModPow(base, s, p) == (ModPow(target, c, p) * com) % p <==> Responds(p, base, target, com, s, c)
  {
    ModMul(Pow(target, c), com, p);
  }

  /**
   * Special soundness: proofs with one commitment that are accepted for two challenges whose
   * difference has an inverse modulo p - 1 show that the result is the ciphertext to the very
   * power that the public value is of the generator.
   */
  lemma AcceptedTwiceIsPower(hash: Oracle, hash': Oracle, pf: Proof, s': nat, ciphertext: int, result: int, p: int,
      session: seq<bv8>, u: nat) returns (x: nat)
    requires IsPrime(p) && p > 2 && !Divides(p, ciphertext) && !Divides(p, result) && !Divides(p, pf.h)
    requires VerifyDecryption(hash, pf, ciphertext, result, p, session)
    requires VerifyDecryption(hash', pf.(s := s'), ciphertext, result, p, session)
    requires var c := Challenge(hash, p, pf.h, ciphertext, result, pf.a, pf.b, session);
             var c' := Challenge(hash', p, pf.h, ciphertext, result, pf.a, pf.b, session);
             Cong((c - c') * u, 1, p - 1)
    ensures ModPow(GENERATOR, x, p) == pf.h % p && ModPow(ciphertext, x, p) == result % p
  {
    var c := Challenge(hash, p, pf.h, ciphertext, result, pf.a, pf.b, session);
    var c' := Challenge(hash', p, pf.h, ciphertext, result, pf.a, pf.b, session);
    OddPrime(p);
    NotDivisible(p, GENERATOR);
    CheckIsResponse(p, GENERATOR, pf.h, pf.a, pf.s, c);
    CheckIsResponse(p, GENERATOR, pf.h, pf.a, s', c');
    CheckIsResponse(p, ciphertext, result, pf.b, pf.s, c);
    CheckIsResponse(p, ciphertext, result, pf.b, s', c');
    x := Extracted(p, pf.s, s', u);
    ExponentIs(p, GENERATOR, pf.h, pf.a, pf.s, c, s', c', u);
    ExponentIs(p, ciphertext, result, pf.b, pf.s, c, s', c', u);
  }

  // ---------------------------------------------------------- one layer (deal.go)

  datatype PartialDecryption = PartialDecryption(player: string, cardIndex: int, ciphertext: int, result: int,
      proof: Proof)

  /** Peel: decrypt one layer and attach the proof. */
  function Peel(hash: Oracle, k: Key, ciphertext: int, cardIndex: int, player: string, session: seq<bv8>,
      nonce: nat): Result<PartialDecryption>
    requires k.p > 2
  {
    if k.d.None? then Err(MissingPrivateKey)
    else if player == "" then Err(EmptyPlayerID)
    else if cardIndex < 0 then Err(BadIndex)
    else if session == [] then Err(EmptySession)
    else
      var result := Decrypt(k, ciphertext);
      if result.Err? then Err(result.error) else
      var pf := ProveDecryption(hash, k, ciphertext, result.value, session, nonce);
      if pf.Err? then Err(pf.error)
      else Ok(PartialDecryption(player, cardIndex, ciphertext, result.value, pf.value))
  }

  /** VerifyAndApply: the next ciphertext, if the peel is of this one and proved. */
  function VerifyAndApply(hash: Oracle, current: int, pd: PartialDecryption, p: int, session: seq<bv8>): Result<int>
    requires p > 2
  {
    if current != pd.ciphertext then Err(CiphertextMismatch)
    else if !VerifyDecryption(hash, pd.proof, pd.ciphertext, pd.result, p, session) then Err(BadProof)
    else Ok(pd.result)
  }

  /** An honest peel verifies and moves the ciphertext one decryption on. */
  lemma HonestPeelApplies(hash: Oracle, k: Key, ciphertext: int, cardIndex: int, player: string, session: seq<bv8>,
      nonce: nat)
    requires KeyPair(k) && InRange(ciphertext, k.p) && player != "" && cardIndex >= 0 && session != []
    ensures var pd := Peel(hash, k, ciphertext, cardIndex, player, session, nonce);
            && pd.Ok?
            && pd.value.player == player && pd.value.cardIndex == cardIndex && pd.value.ciphertext == ciphertext
            && VerifyAndApply(hash, ciphertext, pd.value, k.p, session) == Ok(ModPow(ciphertext, k.d.value, k.p))
            && InRange(ModPow(ciphertext, k.d.value, k.p), k.p)
  {
    HonestProofVerifies(hash, k, ciphertext, session, nonce);
    DecryptCloses(k, ciphertext);
  }
}
