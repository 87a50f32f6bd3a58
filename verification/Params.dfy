// Cards as field elements (internal/crypto/params.go): card id is 2^(id+1) mod p.
module Params {
  import opened ModArith
  import opened Sra

  const TWO_TO_52 := 0x10_0000_0000_0000

  /** A prime large enough for the 52 powers of two not to wrap. */
  ghost predicate BigPrime(p: int) {
    IsPrime(p) && p > TWO_TO_52
  }

  function CardToField(id: nat, p: int): int
    requires p > 0 && id <= 51
  {
    ModPow(2, id + 1, p)
  }

  /** The first card, from id on, whose field element is val; -1 if there is none. */
  function FindCard(val: int, p: int, id: nat): int
    requires p > 0 && id <= 52
    decreases 52 - id
  {
    if id == 52 then -1 else if CardToField(id, p) == val then id else FindCard(val, p, id + 1)
  }

  /** The search finds a card with that element if there is one, and -1 otherwise. */
  lemma {:induction false} FindCardIs(val: int, p: int, id: nat)
    requires p > 0 && id <= 52
    ensures var r := FindCard(val, p, id);
            && (r == -1 || (id <= r < 52 && CardToField(r, p) == val))
            && (r == -1 ==> forall j :: id <= j < 52 ==> CardToField(j, p) != val)
    decreases 52 - id
  {
    if id < 52 && CardToField(id, p) != val {
      FindCardIs(val, p, id + 1);
    }
  }

  function FieldToCard(val: int, p: int): int
    requires p > 0
  {
    FindCard(val, p, 0)
  }

  method SearchCard(val: int, p: int) returns (r: int)
    requires p > 0
    ensures r == FieldToCard(val, p)
  {
    var id := 0;
    while id <= 51
      invariant 0 <= id <= 52
      invariant FieldToCard(val, p) == FindCard(val, p, id)
    {
      if ModPow(2, id + 1, p) == val {
        return id;
      }
      id := id + 1;
    }
    return -1;
  }

  function PlaintextDeck(p: int): (d: seq<int>)
    requires p > 0
    ensures |d| == 52
  {
    seq(52, i requires 0 <= i < 52 => CardToField(i, p))
  }

  method BuildPlaintextDeck(p: int) returns (deck: array<int>)
    requires p > 0
    ensures fresh(deck) && deck[..] == PlaintextDeck(p)
  {
    deck := new int[52];
    for i := 0 to 52
      invariant deck[..i] == PlaintextDeck(p)[..i]
    {
      deck[i] := CardToField(i, p);
    }
    assert deck[..] == deck[..52];
  }

  lemma PowerOfTwo52()
    ensures Pow(2, 52) == TWO_TO_52
  {
    assert Pow(2, 3) == 8 by { assert Pow(2, 2) == 4; }
    PowAdd(2, 3, 3);
    PowAdd(2, 6, 6);
    PowAdd(2, 12, 1);
    PowAdd(2, 13, 13);
    PowAdd(2, 26, 26);
    assert Pow(2, 1) == 2;
  }

  /** Card values are the plain powers of two and all are valid messages. */
  lemma CardValue(id: nat, p: int)
    requires BigPrime(p) && id <= 51
    ensures CardToField(id, p) == Pow(2, id + 1)
    ensures InRange(CardToField(id, p), p)
  {
    PowerOfTwo52();
    if id + 1 < 52 {
      PowMonotone(id + 1, 52);
    }
    PowPositive(2, id + 1);
    assert Divides(17, TWO_TO_52 + 1);
    ModIs(Pow(2, id + 1), p, 0, Pow(2, id + 1));
  }

  /** Decoding undoes encoding: no two cards share a field element. */
  lemma CardRoundTrip(id: nat, p: int)
    requires BigPrime(p) && id <= 51
    ensures FieldToCard(CardToField(id, p), p) == id
  {
    var r := FieldToCard(CardToField(id, p), p);
    FindCardIs(CardToField(id, p), p, 0);
    CardValue(id, p);
    if 0 <= r < id {
      CardValue(r, p);
      PowMonotone(r + 1, id + 1);
    } else if r > id {
      CardValue(r, p);
      PowMonotone(id + 1, r + 1);
    }
  }
}
