// One player's encrypt-then-permute step and the whole shuffle (internal/crypto/shuffle.go).
// Random choices are parameters; the deck commitment hash is an arbitrary function.
module Shuffle {
  import opened ModArith
  import opened Sra
  import opened Wrappers

  type Bytes = seq<bv8>
  type DeckHash = (seq<int>, Bytes) -> Bytes

  datatype Commitment = Commitment(hash: Bytes, nonce: Bytes)

  datatype Step = Step(player: string, input: seq<int>, output: seq<int>, permutation: seq<nat>, commitment: Commitment)

  predicate VerifyDeck(h: DeckHash, c: Commitment, deck: seq<int>) {
    h(deck, c.nonce) == c.hash
  }

  /** perm lists each of 0..n-1 exactly once. */
  ghost predicate Permutes(perm: seq<nat>, n: nat) {
    && |perm| == n
    && (forall i :: 0 <= i < n ==> perm[i] < n)
    && (forall i, j :: 0 <= i < j < n ==> perm[i] != perm[j])
  }

  /** The published deck of a step: card i is the encryption of input card perm[i]. */
  function StepDeck(k: Key, deck: seq<int>, perm: seq<nat>): (r: seq<int>)
    requires |perm| == |deck| && forall i :: 0 <= i < |perm| ==> perm[i] < |deck|
    ensures |r| == |deck|
  {
    seq(|deck|, i requires 0 <= i < |deck| => ModPow(deck[perm[i]], k.e, k.p))
  }

  // ------------------------------------------------------------ random permutation

  predicate Draws(draws: seq<nat>, n: nat) {
    |draws| >= n && forall i :: 0 <= i < n ==> draws[i] <= i
  }

  function Swapped(perm: seq<nat>, i: nat, j: nat): seq<nat>
    requires i < |perm| && j < |perm|
  {
    perm[i := perm[j]][j := perm[i]]
  }

  /** perm after slots m - 1 down to 1 have been swapped with their draws. */
  function SwapsBelow(perm: seq<nat>, draws: seq<nat>, m: nat): (r: seq<nat>)
    requires m <= |perm| && Draws(draws, |perm|)
    ensures |r| == |perm|
    decreases m
  {
    if m <= 1 then perm else SwapsBelow(Swapped(perm, m - 1, draws[m - 1]), draws, m - 1)
  }

  function InOrder(n: nat): (r: seq<nat>)
    ensures Permutes(r, n)
  {
    seq(n, i => i)
  }

  /** The permutation that the draws lead to. */
  function Drawn(n: nat, draws: seq<nat>): (r: seq<nat>)
    requires Draws(draws, n)
    ensures |r| == n
  {
    SwapsBelow(InOrder(n), draws, n)
  }

  lemma SwappedPermutes(perm: seq<nat>, n: nat, i: nat, j: nat)
    requires Permutes(perm, n) && i < n && j < n
    ensures Permutes(Swapped(perm, i, j), n)
  {
    var p := Swapped(perm, i, j);
    forall k, m | 0 <= k < m < n ensures p[k] != p[m] {
      assert perm[i] != perm[j] || i == j;
    }
  }

  lemma {:induction false} SwapsPermute(perm: seq<nat>, draws: seq<nat>, m: nat)
    requires m <= |perm| && Draws(draws, |perm|) && Permutes(perm, |perm|)
    ensures Permutes(SwapsBelow(perm, draws, m), |perm|)
    decreases m
  {
    if m > 1 {
      SwappedPermutes(perm, |perm|, m - 1, draws[m - 1]);
      SwapsPermute(Swapped(perm, m - 1, draws[m - 1]), draws, m - 1);
    }
  }

  /** randomPermutation: Fisher-Yates swaps from the top; draws[i] is the partner of slot i. */
  method RandomPermutation(n: nat, draws: seq<nat>) returns (perm: array<nat>)
    requires Draws(draws, n)
    ensures fresh(perm) && perm[..] == Drawn(n, draws) && Permutes(perm[..], n)
  {
    perm := new nat[n](i => i);
    var i := n - 1;
    assert perm[..] == InOrder(n);
    while i > 0
      invariant -1 <= i < n
      invariant SwapsBelow(perm[..], draws, i + 1) == Drawn(n, draws)
    {
      var j := draws[i];
      ghost var next := Swapped(perm[..], i, j);
      perm[i], perm[j] := perm[j], perm[i];
      assert perm[..] == next;
      i := i - 1;
    }
    SwapsPermute(InOrder(n), draws, n);
  }

  // ------------------------------------------------------------------------- steps

  /** The step that ExecuteStep publishes, or why it cannot. */
  function StepOf(h: DeckHash, numCards: nat, player: string, deck: seq<int>, k: Key, perm: seq<nat>,
      nonce: Bytes): Result<Step>
    requires |perm| == numCards && forall i :: 0 <= i < |perm| ==> perm[i] < numCards
  {
    if !IsPrivate(k) then Err(MissingPrivateKey)
    else if |deck| != numCards then Err(WrongDeckSize)
    else if !AllInRange(deck, k.p) then Err(OutOfRange)
    else
      var output := StepDeck(k, deck, perm);
      Ok(Step(player, deck, output, perm, Commitment(h(output, nonce), nonce)))
  }

  method ExecuteStep(h: DeckHash, numCards: nat, player: string, deck: seq<int>, k: Key, perm: seq<nat>, nonce: Bytes)
    returns (r: Result<Step>)
    requires |perm| == numCards && forall i :: 0 <= i < |perm| ==> perm[i] < numCards
    ensures r == StepOf(h, numCards, player, deck, k, perm, nonce)
  {
    if !IsPrivate(k) {
      return Err(MissingPrivateKey);
    }
    if |deck| != numCards {
      return Err(WrongDeckSize);
    }
    var encrypted := EncryptAll(k, deck);
    if encrypted.Err? {
      return Err(encrypted.error);
    }
    var permuted: seq<int> := [];
    var i := 0;
    while i < |perm|
      invariant 0 <= i <= |perm|
      invariant permuted == StepDeck(k, deck, perm)[..i]
    {
      permuted := permuted + [encrypted.value[perm[i]]];
      i := i + 1;
    }
    assert permuted == StepDeck(k, deck, perm);
    return Ok(Step(player, deck, permuted, perm, Commitment(h(permuted, nonce), nonce)));
  }

  /** The deck after the first k steps of a shuffle of deck. */
  function DeckAfter(keys: seq<Key>, perms: seq<seq<nat>>, deck: seq<int>, k: nat): (r: seq<int>)
    requires k <= |keys| == |perms|
    requires forall j :: 0 <= j < |perms| ==> Permutes(perms[j], |deck|)
    ensures |r| == |deck|
  {
    if k == 0 then deck else StepDeck(keys[k - 1], DeckAfter(keys, perms, deck, k - 1), perms[k - 1])
  }

  /** Valid key pairs over one modulus. */
  ghost predicate KeyRing(keys: seq<Key>, p: int) {
    forall i :: 0 <= i < |keys| ==> KeyPair(keys[i]) && keys[i].p == p
  }

  method RunFullShuffle(h: DeckHash, players: seq<string>, keys: seq<Key>, deck: seq<int>, perms: seq<seq<nat>>,
      nonces: seq<Bytes>)
    returns (r: Result<seq<int>>)
    requires |perms| == |nonces| == |players|
    requires forall j :: 0 <= j < |perms| ==> Permutes(perms[j], |deck|)
    ensures |players| != |keys| ==> r == Err(LengthMismatch)
    ensures |players| == |keys| && r.Ok? ==> r.value == DeckAfter(keys, perms, deck, |keys|)
    ensures |players| == |keys| ==> forall p :: KeyRing(keys, p) && AllInRange(deck, p) ==>
              r.Ok? && AllInRange(r.value, p)
  {
    if |players| != |keys| {
      return Err(LengthMismatch);
    }
    var current := deck;
    var i := 0;
    while i < |players|
      invariant 0 <= i <= |players|
      invariant current == DeckAfter(keys, perms, deck, i)
      invariant forall p :: KeyRing(keys, p) && AllInRange(deck, p) ==> AllInRange(current, p)
    {
      var step := ExecuteStep(h, |deck|, players[i], current, keys[i], perms[i], nonces[i]);
      forall p | KeyRing(keys, p) && AllInRange(deck, p) ensures step.Ok? && AllInRange(step.value.output, p) {
        StepStaysInRange(keys[i], current, perms[i]);
      }
      if step.Err? {
        return Err(step.error);
      }
      if !VerifyDeck(h, step.value.commitment, step.value.output) {
        return Err(BadCommitment);
      }
      current := step.value.output;
      i := i + 1;
    }
    return Ok(current);
  }

  /** No layer of a shuffle over valid keys is ever rejected by the range check. */
  lemma StepStaysInRange(k: Key, deck: seq<int>, perm: seq<nat>)
    requires KeyPair(k) && AllInRange(deck, k.p) && Permutes(perm, |deck|)
    ensures AllInRange(StepDeck(k, deck, perm), k.p)
  {
    forall i | 0 <= i < |deck| ensures InRange(StepDeck(k, deck, perm)[i], k.p) {
      EncryptCloses(k, deck[perm[i]]);
    }
  }

  lemma {:induction false} ShuffleStaysInRange(keys: seq<Key>, perms: seq<seq<nat>>, deck: seq<int>, k: nat, p: int)
    requires k <= |keys| == |perms| && KeyRing(keys, p) && AllInRange(deck, p)
    requires forall j :: 0 <= j < |perms| ==> Permutes(perms[j], |deck|)
    ensures AllInRange(DeckAfter(keys, perms, deck, k), p)
  {
    if k > 0 {
      ShuffleStaysInRange(keys, perms, deck, k - 1, p);
      StepStaysInRange(keys[k - 1], DeckAfter(keys, perms, deck, k - 1), perms[k - 1]);
    }
  }

  // ----------------------------------------------------- where a position comes from

  /** The original position of the card that ends up at position i after k steps. */
  function Origin(perms: seq<seq<nat>>, k: nat, i: nat, n: nat): (r: nat)
    requires k <= |perms| && i < n && forall j :: 0 <= j < |perms| ==> Permutes(perms[j], n)
    ensures r < n
  {
    if k == 0 then i else assert Permutes(perms[k - 1], n); Origin(perms, k - 1, perms[k - 1][i], n)
  }

  /** Composed permutations never bring two positions to the same card. */
  lemma {:induction false} OriginInjective(perms: seq<seq<nat>>, k: nat, i: nat, j: nat, n: nat)
    requires k <= |perms| && i < n && j < n && i != j
    requires forall l :: 0 <= l < |perms| ==> Permutes(perms[l], n)
    ensures Origin(perms, k, i, n) != Origin(perms, k, j, n)
  {
    if k > 0 {
      assert Permutes(perms[k - 1], n);
      assert perms[k - 1][if i < j then i else j] != perms[k - 1][if i < j then j else i];
      OriginInjective(perms, k - 1, perms[k - 1][i], perms[k - 1][j], n);
    }
  }

  // ------------------------------------------------------------------------ layers

  /** The product of the public exponents: what a fully layered card is raised to. */
  function ProductE(keys: seq<Key>): nat {
    if keys == [] then 1 else keys[0].e * ProductE(keys[1..])
  }

  function Drop(keys: seq<Key>, i: nat): (r: seq<Key>)
    requires i < |keys|
    ensures |r| == |keys| - 1
  {
    keys[..i] + keys[i + 1..]
  }

  lemma {:induction false} ProductDrop(keys: seq<Key>, i: nat)
    requires i < |keys|
    ensures ProductE(keys) == keys[i].e * ProductE(Drop(keys, i))
  {
    if i == 0 {
      assert Drop(keys, 0) == keys[1..];
    } else {
      ProductDrop(keys[1..], i - 1);
      assert Drop(keys, i) == [keys[0]] + Drop(keys[1..], i - 1);
      assert Drop(keys, i)[1..] == Drop(keys[1..], i - 1);
      var a, b, c := keys[0].e, keys[i].e, ProductE(Drop(keys[1..], i - 1));
      assert a * (b * c) == b * (a * c);
    }
  }

  /** A card under the layers of all the given keys. */
  function Layered(m: int, keys: seq<Key>, p: int): int
    requires p > 0
  {
    ModPow(m, ProductE(keys), p)
  }

  /** Encrypting puts one more layer on. */
  lemma LayerOnTop(m: int, under: seq<Key>, k: Key, all: seq<Key>, p: int)
    requires all == under + [k] && p > 0
    ensures ModPow(Layered(m, under, p), k.e, p) == Layered(m, all, p)
  {
    var prod := ProductE(under);
    ProductDrop(all, |under|);
    assert Drop(all, |under|) == under;
    assert k.e * prod == prod * k.e;
    ModPowMul(m, prod, k.e, p);
  }

  lemma BareLayer(m: int, p: int)
    requires InRange(m, p) && p > 2
    ensures Layered(m, [], p) == m
  {
    NotDivisible(p, m);
    assert Pow(m, 1) == m;
  }

  /** Each position of a deck is its place's card under the keys. */
  ghost predicate LayeredDeck(after: seq<int>, from: seq<int>, keys: seq<Key>, p: int)
    requires p > 0
  {
    |after| == |from| && forall i :: 0 <= i < |after| ==> after[i] == Layered(from[i], keys, p)
  }

  /** One step puts its layer on every card and moves it. */
  lemma StepLayers(deck: seq<int>, from: seq<int>, under: seq<Key>, k: Key, perm: seq<nat>, all: seq<Key>, p: int)
    requires p > 0 && k.p == p && LayeredDeck(deck, from, under, p) && Permutes(perm, |deck|) && all == under + [k]
    ensures LayeredDeck(StepDeck(k, deck, perm), seq(|deck|, i requires 0 <= i < |deck| => from[perm[i]]), all, p)
  {
    forall i | 0 <= i < |deck| ensures StepDeck(k, deck, perm)[i] == Layered(from[perm[i]], all, p) {
      LayerOnTop(from[perm[i]], under, k, all, p);
    }
  }

  /** The cards in the order that the first k steps leave them in. */
  function Rearranged(perms: seq<seq<nat>>, deck: seq<int>, k: nat): (r: seq<int>)
    requires k <= |perms| && forall j :: 0 <= j < |perms| ==> Permutes(perms[j], |deck|)
    ensures |r| == |deck|
  {
    seq(|deck|, i requires 0 <= i < |deck| => deck[Origin(perms, k, i, |deck|)])
  }

  lemma RearrangedNext(perms: seq<seq<nat>>, deck: seq<int>, k: nat)
    requires k < |perms| && forall j :: 0 <= j < |perms| ==> Permutes(perms[j], |deck|)
    ensures Permutes(perms[k], |deck|) && Rearranged(perms, deck, k + 1)
        == seq(|deck|, i requires 0 <= i < |deck| => Rearranged(perms, deck, k)[perms[k][i]])
  {
    var n, now := |deck|, Rearranged(perms, deck, k);
    assert Permutes(perms[k], n);
    var next := seq(n, i requires 0 <= i < n => now[perms[k][i]]);
    forall i | 0 <= i < n ensures Rearranged(perms, deck, k + 1)[i] == next[i] {
      assert Origin(perms, k + 1, i, n) == Origin(perms, k, perms[k][i], n);
    }
  }

  lemma {:induction false} LayersAfter(keys: seq<Key>, perms: seq<seq<nat>>, deck: seq<int>, k: nat, p: int)
    requires k <= |keys| == |perms| && KeyRing(keys, p) && AllInRange(deck, p) && p > 2
    requires forall j :: 0 <= j < |perms| ==> Permutes(perms[j], |deck|)
    ensures LayeredDeck(DeckAfter(keys, perms, deck, k), Rearranged(perms, deck, k), keys[..k], p)
  {
    if k == 0 {
      forall i | 0 <= i < |deck| ensures deck[i] == Layered(deck[i], [], p) {
        BareLayer(deck[i], p);
      }
    } else {
      var j := k - 1;
      LayersAfter(keys, perms, deck, j, p);
      RearrangedNext(perms, deck, j);
      StepLayers(DeckAfter(keys, perms, deck, j), Rearranged(perms, deck, j), keys[..j], keys[j], perms[j], keys[..k],
                 p);
    }
  }

  /** Each position of the shuffled deck is its origin's card under every key so far. */
  lemma ShuffleLayers(keys: seq<Key>, perms: seq<seq<nat>>, deck: seq<int>, k: nat, i: nat, p: int)
    requires k <= |keys| == |perms| && i < |deck| && KeyRing(keys, p) && AllInRange(deck, p) && p > 2
    requires forall j :: 0 <= j < |perms| ==> Permutes(perms[j], |deck|)
    ensures DeckAfter(keys, perms, deck, k)[i] == Layered(deck[Origin(perms, k, i, |deck|)], keys[..k], p)
  {
    LayersAfter(keys, perms, deck, k, p);
  }

  /** An exponent and its inverse cancel inside a product. */
  lemma Cancels(e: nat, d: nat, rest: nat, m: int)
    requires m > 0 && Cong(e * d, 1, m)
    ensures Cong((e * rest) * d, rest, m)
  {
    CongMul(e * d, 1, rest, rest, m);
    assert (e * rest) * d == (e * d) * rest;
  }

  /** Removing any one of the layers leaves exactly the others. */
  lemma PeelOneLayer(m: int, keys: seq<Key>, i: nat, p: int)
    requires KeyRing(keys, p) && i < |keys| && InRange(m, p)
    ensures ModPow(Layered(m, keys, p), keys[i].d.value, p) == Layered(m, Drop(keys, i), p)
  {
    var e, d, rest := keys[i].e, keys[i].d.value, ProductE(Drop(keys, i));
    ProductDrop(keys, i);
    ModPowMul(m, e * rest, d, p);
    ModIs(1, p - 1, 0, 1);
    Cancels(e, d, rest, p - 1);
    NotDivisible(p, m);
    ExponentReduce(p, m, (e * rest) * d, rest);
  }

  /** A layered card is a valid message, so no peel of it is ever rejected. */
  lemma {:induction false} LayeredInRange(m: int, keys: seq<Key>, p: int)
    requires KeyRing(keys, p) && InRange(m, p) && p > 2
    ensures InRange(Layered(m, keys, p), p)
  {
    if keys == [] {
      NotDivisible(p, m);
      assert Pow(m, 1) == m;
    } else {
      var rest := ProductE(keys[1..]);
      LayeredInRange(m, keys[1..], p);
      assert keys[0].e * rest == rest * keys[0].e;
      ModPowMul(m, rest, keys[0].e, p);
      EncryptCloses(keys[0], Layered(m, keys[1..], p));
    }
  }

  /** Decrypting with each key of order in turn. */
  function Peeled(c: int, order: seq<Key>, p: int): int
    requires p > 0 && forall i :: 0 <= i < |order| ==> IsPrivate(order[i])
    decreases |order|
  {
    if order == [] then c else assert IsPrivate(order[0]); Peeled(ModPow(c, order[0].d.value, p), order[1..], p)
  }

  /** Peeling every layer, in whatever order, gives the card back. */
  lemma {:induction false} PeelAnyOrder(m: int, keys: seq<Key>, order: seq<Key>, p: int)
    requires KeyRing(keys, p) && KeyRing(order, p) && InRange(m, p) && p > 2
    requires multiset(keys) == multiset(order)
    ensures Peeled(Layered(m, keys, p), order, p) == m
    decreases |order|
  {
    if order == [] {
      assert |multiset(keys)| == |keys|;
      NotDivisible(p, m);
      assert Pow(m, 1) == m;
    } else {
      assert order[0] in multiset(order);
      assert order[0] in keys;
      var i :| 0 <= i < |keys| && keys[i] == order[0];
      PeelOneLayer(m, keys, i, p);
      DropMultiset(keys, i);
      assert order == [order[0]] + order[1..];
      PeelAnyOrder(m, Drop(keys, i), order[1..], p);
    }
  }

  lemma DropMultiset(keys: seq<Key>, i: nat)
    requires i < |keys|
    ensures multiset(Drop(keys, i)) == multiset(keys) - multiset{keys[i]}
  {
    assert keys == keys[..i] + [keys[i]] + keys[i + 1..];
  }
}
