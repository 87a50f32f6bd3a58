// Cards and the local deck of plaintext mode (internal/game/deck.go).
module Cards {

  // Rank 2..14 and suit 0..3 for a real card; the zero card stands for "not dealt".
  datatype Card = Card(rank: nat, suit: nat)

  const BLANK := Card(0, 0)

  predicate Dealt(c: Card) {
    2 <= c.rank <= 14 && c.suit <= 3
  }

  function CardID(c: Card): int {
    c.suit * 13 + (c.rank - 2)
  }

  function CardFromID(id: nat): Card {
    Card(id % 13 + 2, id / 13)
  }

  /** The 52 identifiers and the real cards correspond one to one. */
  lemma CardIDBijection(id: nat, c: Card)
    ensures id < 52 ==> Dealt(CardFromID(id)) && CardID(CardFromID(id)) == id
    ensures Dealt(c) ==> 0 <= CardID(c) < 52 && CardFromID(CardID(c)) == c
  {
  }

  function NewDeck(): (d: seq<Card>)
    ensures |d| == 52
  {
    seq(52, i requires 0 <= i < 52 => CardFromID(i))
  }

  predicate AllDealt(cs: seq<Card>) {
    forall i :: 0 <= i < |cs| ==> Dealt(cs[i])
  }

  predicate NoRepeats(cs: seq<Card>) {
    forall i, j :: 0 <= i < j < |cs| ==> cs[i] != cs[j]
  }
}
