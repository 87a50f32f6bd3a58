// Dealing from the jointly encrypted deck (internal/crypto/deal.go): which deck
// position is whose card, and opening a position by peeling every layer.
module Deal {
  import opened Cards
  import opened ModArith
  import opened Params
  import opened Shuffle
  import opened Sra
  import opened Wrappers
  import opened Zkp

  // -------------------------------------------------------------------- positions

  function HoleCardIndex(n: int, dealer: int, player: int, round: int): Result<int> {
    if n < 2 then Err(TooFewPlayers)
    else if !(0 <= dealer < n) || !(0 <= player < n) || !(0 <= round <= 1) then Err(BadIndex)
    else Ok(round * n + (player - dealer - 1 + n) % n)
  }

  function CommunityStartPos(n: int): int {
    2 * n
  }

  function FlopIndexes(n: int): Result<seq<int>> {
    if n < 2 then Err(TooFewPlayers)
    else Ok([CommunityStartPos(n) + 1, CommunityStartPos(n) + 2, CommunityStartPos(n) + 3])
  }

  function TurnIndex(n: int): Result<int> {
    if n < 2 then Err(TooFewPlayers) else Ok(CommunityStartPos(n) + 5)
  }

  function RiverIndex(n: int): Result<int> {
    if n < 2 then Err(TooFewPlayers) else Ok(CommunityStartPos(n) + 7)
  }

  /** The deck position of a hole card at a table of n: seats left of the dealer come first. */
  function HolePos(n: int, dealer: int, player: int, round: int): (pos: int)
    requires n >= 2 && 0 <= dealer < n && 0 <= player < n && 0 <= round <= 1
    ensures 0 <= pos < 2 * n
  {
    (if round == 0 then 0 else n) + player - dealer - 1 + (if player > dealer then 0 else n)
  }

  /** HoleCardIndex without its remainder: exactly the valid arguments have a position, and it is HolePos. */
  lemma HoleCardIndexIs(n: int, dealer: int, player: int, round: int)
    ensures HoleCardIndex(n, dealer, player, round).Ok? <==>
              n >= 2 && 0 <= dealer < n && 0 <= player < n && 0 <= round <= 1
    ensures HoleCardIndex(n, dealer, player, round).Ok? ==>
              HoleCardIndex(n, dealer, player, round).value == HolePos(n, dealer, player, round)
  {
    if n >= 2 && 0 <= dealer < n && 0 <= player < n {
      var diff := player - dealer - 1 + n;
      ModIs(diff, n, if diff < n then 0 else 1, if diff < n then diff else diff - n);
    }
  }

  /** The walk left of the dealer visits position round * n + i exactly for that seat and round. */
  lemma HolePosInverse(n: int, dealer: int, player: int, round: int, i: int)
    requires n >= 2 && 0 <= dealer < n && 0 <= player < n && 0 <= round <= 1 && 0 <= i < n
    ensures (dealer + 1 + i) % n == player ==> HolePos(n, dealer, player, round) == round * n + i
    ensures HolePos(n, dealer, player, round) == round * n + i ==> (dealer + 1 + i) % n == player
  {
    var sum := dealer + 1 + i;
    ModIs(sum, n, if sum < n then 0 else 1, if sum < n then sum else sum - n);
  }

  lemma HolePosDistinct(n: int, dealer: int, player: int, round: int, player': int, round': int)
    requires n >= 2 && 0 <= dealer < n && 0 <= player < n && 0 <= round <= 1 && 0 <= player' < n && 0 <= round' <= 1
    requires HolePos(n, dealer, player, round) == HolePos(n, dealer, player', round')
    ensures player == player' && round == round'
  {
  }

  /** Seat order without the recipient; a public peel has no recipient. */
  function PeelOrder(seats: seq<string>, recipient: string): Result<seq<string>> {
    if recipient == "" then Ok(seats)
    else if recipient in seats then Ok(WithoutSeat(seats, recipient))
    else Err(UnknownPlayer)
  }

  function WithoutSeat(seats: seq<string>, id: string): (r: seq<string>)
    ensures id !in r
  {
    if seats == [] then [] else (if seats[0] == id then [] else [seats[0]]) + WithoutSeat(seats[1..], id)
  }

  // ------------------------------------------------------------ opening one position

  datatype DealProtocol = DealProtocol(deck: seq<int>, p: Modulus, session: Bytes, players: seq<string>, keys: seq<Key>)

  // The prover's random nonce for a deck position and a player.
  type Nonces = (int, int) -> nat

  predicate WellFormed(dp: DealProtocol) {
    |dp.players| == |dp.keys| && dp.p > 2 && forall i :: 0 <= i < |dp.keys| ==> dp.keys[i].p > 2
  }

  // One verified peel: player i on the current ciphertext gives the next ciphertext and the proof.
  type Layer = (nat, int) -> Result<(int, PartialDecryption)>

  function PeelLayer(hash: Oracle, dp: DealProtocol, nonces: Nonces, idx: int): Layer
    requires WellFormed(dp)
  {
    (i: nat, current: int) =>
      if i >= |dp.players| then Err(BadIndex) else
      var pd := Peel(hash, dp.keys[i], current, idx, dp.players[i], dp.session, nonces(idx, i));
      if pd.Err? then Err(pd.error) else
      var next := VerifyAndApply(hash, current, pd.value, dp.p, dp.session);
      if next.Err? then Err(next.error) else Ok((next.value, pd.value))
  }

  /** Peels by players i, i+1, ..., n-1 except skip. */
  function PeelChain(layer: Layer, n: nat, skip: int, i: nat, current: int): Result<(int, seq<PartialDecryption>)>
    requires i <= n
    decreases n - i
  {
    if i == n then Ok((current, []))
    else if i == skip then PeelChain(layer, n, skip, i + 1, current)
    else
      var step := layer(i, current);
      if step.Err? then Err(step.error)
      else After([step.value.1], PeelChain(layer, n, skip, i + 1, step.value.0))
  }

  /** Peels already done in front of what is still to be done. */
  function After(done: seq<PartialDecryption>, rest: Result<(int, seq<PartialDecryption>)>): Result<(int,
      seq<PartialDecryption>)> {
    if rest.Err? then rest else Ok((rest.value.0, done + rest.value.1))
  }

  function FinishPublic(value: int, p: int): Result<Card>
    requires p > 0
  {
    var id := FieldToCard(value, p);
    if id < 0 then Err(NotACard) else Ok(CardFromID(id))
  }

  function FinishHole(k: Key, remaining: int, p: int): Result<Card>
    requires p > 0
  {
    var plain := Decrypt(k, remaining);
    if plain.Err? then Err(plain.error) else FinishPublic(plain.value, p)
  }

  /** What RevealToPlayer (a recipient) and RevealCommunity (none) open position idx to. */
  function Opened(hash: Oracle, dp: DealProtocol, nonces: Nonces, idx: int, recipient: Option<nat>): Result<(Card,
      seq<PartialDecryption>)>
    requires WellFormed(dp) && (recipient.Some? ==> recipient.value < |dp.players|)
  {
    if !(0 <= idx < |dp.deck|) then Err(BadIndex) else
    var skip := if recipient.Some? then recipient.value else -1;
    var chain := PeelChain(PeelLayer(hash, dp, nonces, idx), |dp.players|, skip, 0, dp.deck[idx]);
    if chain.Err? then Err(chain.error) else
    var card := if recipient.Some? then FinishHole(dp.keys[recipient.value], chain.value.0, dp.p)
        else FinishPublic(chain.value.0, dp.p);
    if card.Err? then Err(card.error) else Ok((card.value, chain.value.1))
  }

  ghost predicate OpensTo(hash: Oracle, dp: DealProtocol, nonces: Nonces, idx: int, recipient: Option<nat>, card: Card)
    requires WellFormed(dp) && (recipient.Some? ==> recipient.value < |dp.players|)
  {
    var o := Opened(hash, dp, nonces, idx, recipient);
    o.Ok? && o.value.0 == card
  }

  lemma AfterAppend(done: seq<PartialDecryption>, pd: PartialDecryption, rest: Result<(int, seq<PartialDecryption>)>)
    ensures After(done, After([pd], rest)) == After(done + [pd], rest)
    ensures After([], rest) == rest
  {
    if rest.Ok? {
      assert done + ([pd] + rest.value.1) == (done + [pd]) + rest.value.1;
      assert [] + rest.value.1 == rest.value.1;
    }
  }

  method PeelAll(layer: Layer, n: nat, skip: int, start: int) returns (r: Result<(int, seq<PartialDecryption>)>)
    ensures r == PeelChain(layer, n, skip, 0, start)
  {
    var current := start;
    var partials: seq<PartialDecryption> := [];
    ghost var whole := PeelChain(layer, n, skip, 0, current);
    assert whole.Ok? ==> partials + whole.value.1 == whole.value.1;
    var i := 0;
    while i < n
      invariant 0 <= i <= n
      invariant whole == After(partials, PeelChain(layer, n, skip, i, current))
    {
      if i != skip {
        var step := layer(i, current);
        if step.Err? {
          return Err(step.error);
        }
        AfterAppend(partials, step.value.1, PeelChain(layer, n, skip, i + 1, step.value.0));
        partials := partials + [step.value.1];
        current := step.value.0;
      }
      i := i + 1;
    }
    assert partials + [] == partials;
    return Ok((current, partials));
  }

  /** RevealToPlayer, or RevealCommunity when there is no recipient. */
  method Reveal(hash: Oracle, dp: DealProtocol, nonces: Nonces, idx: int,
      recipient: Option<nat>) returns (r: Result<(Card, seq<PartialDecryption>)>)
    requires WellFormed(dp) && (recipient.Some? ==> recipient.value < |dp.players|)
    ensures r == Opened(hash, dp, nonces, idx, recipient)
  {
    if !(0 <= idx < |dp.deck|) {
      return Err(BadIndex);
    }
    var skip := if recipient.Some? then recipient.value else -1;
    var chain := PeelAll(PeelLayer(hash, dp, nonces, idx), |dp.players|, skip, dp.deck[idx]);
    if chain.Err? {
      return Err(chain.error);
    }
    var card := if recipient.Some? then FinishHole(dp.keys[recipient.value], chain.value.0, dp.p)
        else FinishPublic(chain.value.0, dp.p);
    if card.Err? {
      return Err(card.error);
    }
    return Ok((card.value, chain.value.1));
  }

  // ---------------------------------------------------------------- dealing the hand

  /** Hole cards of every seat: round and seat decide the position, the seat is the recipient. */
  method DealHoleCards(hash: Oracle, dp: DealProtocol, nonces: Nonces, dealer: nat) returns (r: Result<seq<seq<Card>>>)
    requires WellFormed(dp) && |dp.players| >= 2 && dealer < |dp.players|
    ensures r.Ok? ==> |r.value| == |dp.players|
    ensures r.Ok? ==> HolesFilled(hash, dp, nonces, dealer, 2 * |dp.players|, r.value)
    ensures r.Err? ==>
              exists player, pos :: 0 <= player < |dp.players| && Opened(hash, dp, nonces, pos, Some(player)).Err?
  {
    var n := |dp.players|;
    var result := seq(n, _ => [BLANK, BLANK]);
    var deckPos := 0;
    var round := 0;
    while round < 2
      invariant 0 <= round <= 2 && deckPos == round * n && |result| == n
      invariant HolesFilled(hash, dp, nonces, dealer, deckPos, result)
    {
      var i := 0;
      while i < n
        invariant 0 <= i <= n && deckPos == round * n + i && |result| == n
        invariant HolesFilled(hash, dp, nonces, dealer, deckPos, result)
      {
        var playerIdx := (dealer + 1 + i) % n;
        HolePosInverse(n, dealer, playerIdx, round, i);
        var card := Reveal(hash, dp, nonces, deckPos, Some(playerIdx));
        if card.Err? {
          return Err(card.error);
        }
        HoleFilledNext(hash, dp, nonces, dealer, deckPos, result, playerIdx, round, card.value.0);
        result := result[playerIdx := result[playerIdx][round := card.value.0]];
        deckPos := deckPos + 1;
        i := i + 1;
      }
      round := round + 1;
    }
    return Ok(result);
  }

  /** Cards with property ok lie in every slot whose deck position has been passed. */
  ghost predicate FilledTo(n: int, dealer: int, deckPos: int, ok: (int, int, Card) -> bool, result: seq<seq<Card>>)
    requires n >= 2 && 0 <= dealer < n == |result|
  {
    && (forall player :: 0 <= player < n ==> |result[player]| == 2)
    && forall player, round :: 0 <= player < n && 0 <= round <= 1 && HolePos(n, dealer, player, round) < deckPos ==>
         ok(player, round, result[player][round])
  }

  lemma FilledNext(n: int, dealer: int, ok: (int, int, Card) -> bool, result: seq<seq<Card>>, player: int, round: int,
      card: Card)
    requires n >= 2 && 0 <= dealer < n == |result| && 0 <= player < n && 0 <= round <= 1
    requires FilledTo(n, dealer, HolePos(n, dealer, player, round), ok, result) && ok(player, round, card)
    ensures |result[player]| == 2
    ensures FilledTo(n, dealer, HolePos(n, dealer, player, round) + 1, ok,
        result[player := result[player][round := card]])
  {
    var pos, more := HolePos(n, dealer, player, round), result[player := result[player][round := card]];
    forall q, rd | 0 <= q < n && 0 <= rd <= 1 && HolePos(n, dealer, q, rd) < pos + 1 ensures ok(q, rd, more[q][rd]) {
      if HolePos(n, dealer, q, rd) == pos {
        HolePosDistinct(n, dealer, q, rd, player, round);
      }
    }
  }

  ghost function SlotOpens(hash: Oracle, dp: DealProtocol, nonces: Nonces, dealer: nat): (int, int, Card) -> bool
    requires WellFormed(dp) && |dp.players| >= 2 && dealer < |dp.players|
  {
    (player, round, card) =>
      && 0 <= player < |dp.players| && 0 <= round <= 1
      && OpensTo(hash, dp, nonces, HolePos(|dp.players|, dealer, player, round), Some(player), card)
  }

  /** Every player's hole cards whose deck position has been passed are what the deck holds there. */
  ghost predicate HolesFilled(hash: Oracle, dp: DealProtocol, nonces: Nonces, dealer: nat, deckPos: int,
      result: seq<seq<Card>>)
    requires WellFormed(dp) && |dp.players| >= 2 && dealer < |dp.players| == |result|
  {
    FilledTo(|dp.players|, dealer, deckPos, SlotOpens(hash, dp, nonces, dealer), result)
  }

  lemma HoleFilledNext(hash: Oracle, dp: DealProtocol, nonces: Nonces, dealer: nat, pos: int, result: seq<seq<Card>>,
      player: nat, round: nat, card: Card)
    requires WellFormed(dp) && |dp.players| >= 2 && dealer < |dp.players| == |result| && player < |dp.players|
    requires round <= 1
    requires HolesFilled(hash, dp, nonces, dealer, pos, result)
    requires pos == HolePos(|dp.players|, dealer, player, round) && OpensTo(hash, dp, nonces, pos, Some(player), card)
    ensures |result[player]| == 2
    ensures HolesFilled(hash, dp, nonces, dealer, pos + 1, result[player := result[player][round := card]])
  {
    FilledNext(|dp.players|, dealer, SlotOpens(hash, dp, nonces, dealer), result, player, round, card);
  }

  /** The burn position of a batch: each earlier batch took a burn and its cards. */
  function BatchPos(start: int, batches: seq<nat>, b: nat): int
    requires b <= |batches|
  {
    if b == 0 then start else BatchPos(start, batches, b - 1) + 1 + batches[b - 1]
  }

  /** Some public opening fails. */
  ghost predicate SomeRefused(hash: Oracle, dp: DealProtocol, nonces: Nonces)
    requires WellFormed(dp)
  {
    exists at :: Opened(hash, dp, nonces, at, None).Err?
  }

  /** Which card each position opens to in public. */
  ghost function PublicOpens(hash: Oracle, dp: DealProtocol, nonces: Nonces): (int, Card) -> bool
    requires WellFormed(dp)
  {
    (pos, card) => OpensTo(hash, dp, nonces, pos, None, card)
  }

  /** cards are the openings of consecutive positions from pos. */
  ghost predicate BatchFilled(opens: (int, Card) -> bool, pos: int, cards: seq<Card>) {
    forall j :: 0 <= j < |cards| ==> opens(pos + j, cards[j])
  }

  /** The first batches are the openings that follow their burns. */
  ghost predicate BatchesFilled(opens: (int, Card) -> bool, start: int, batches: seq<nat>, result: seq<seq<Card>>)
    requires |result| <= |batches|
  {
    forall b {:trigger result[b]} :: 0 <= b < |result| ==>
      |result[b]| == batches[b] && BatchFilled(opens, BatchPos(start, batches, b) + 1, result[b])
  }

  lemma OneMoreBatch(opens: (int, Card) -> bool, start: int, batches: seq<nat>, result: seq<seq<Card>>,
      cards: seq<Card>)
    requires |result| < |batches| && BatchesFilled(opens, start, batches, result)
    requires |cards| == batches[|result|] && BatchFilled(opens, BatchPos(start, batches, |result|) + 1, cards)
    ensures BatchesFilled(opens, start, batches, result + [cards])
  {
    var more := result + [cards];
    forall b | 0 <= b < |more|
      ensures |more[b]| == batches[b] && BatchFilled(opens, BatchPos(start, batches, b) + 1, more[b])
    {
      assert more[b] == if b < |result| then result[b] else cards;
    }
  }

  method DealCommunityCards(hash: Oracle, dp: DealProtocol, nonces: Nonces, startPos: int,
      batches: seq<nat>) returns (r: Result<seq<seq<Card>>>)
    requires WellFormed(dp)
    ensures r.Ok? ==> |r.value| == |batches| && BatchesFilled(PublicOpens(hash, dp, nonces), startPos, batches, r.value)
    ensures r.Err? ==> SomeRefused(hash, dp, nonces)
  {
    ghost var opens := PublicOpens(hash, dp, nonces);
    var pos := startPos;
    var result: seq<seq<Card>> := [];
    var batch := 0;
    while batch < |batches|
      invariant 0 <= batch <= |batches| && |result| == batch && pos == BatchPos(startPos, batches, batch)
      invariant BatchesFilled(opens, startPos, batches, result)
    {
      var cards := DealBatch(hash, dp, nonces, pos + 1, batches[batch]);
      if cards.Err? {
        return Err(cards.error);
      }
      OneMoreBatch(opens, startPos, batches, result, cards.value);
      pos := pos + 1 + batches[batch];
      result := result + [cards.value];
      batch := batch + 1;
    }
    return Ok(result);
  }

  /** The inner loop of DealCommunityCards: count public cards from pos on. */
  method DealBatch(hash: Oracle, dp: DealProtocol, nonces: Nonces, pos: int, count: nat) returns (r: Result<seq<Card>>)
    requires WellFormed(dp)
    ensures r.Ok? ==> |r.value| == count && BatchFilled(PublicOpens(hash, dp, nonces), pos, r.value)
    ensures r.Err? ==> SomeRefused(hash, dp, nonces)
  {
    var cards: seq<Card> := [];
    var j := 0;
    while j < count
      invariant 0 <= j <= count && |cards| == j
      invariant BatchFilled(PublicOpens(hash, dp, nonces), pos, cards)
    {
      var card := Reveal(hash, dp, nonces, pos + j, None);
      if card.Err? {
        return Err(card.error);
      }
      var more := cards + [card.value.0];
      forall i | 0 <= i < |more| ensures PublicOpens(hash, dp, nonces)(pos + i, more[i]) {
        assert i < |cards| ==> more[i] == cards[i];
      }
      cards := more;
      j := j + 1;
    }
    return Ok(cards);
  }

  // ------------------------------------------------------------ the joint deal theorem

  /** Position i of the deck holds card ids[i] under every player's layer. */
  ghost predicate HonestDeal(dp: DealProtocol, ids: seq<nat>) {
    && WellFormed(dp) && BigPrime(dp.p) && KeyRing(dp.keys, dp.p) && dp.session != []
    && (forall i :: 0 <= i < |dp.players| ==> dp.players[i] != "")
    && |dp.deck| == |ids|
    && (forall i :: 0 <= i < |ids| ==> ids[i] < 52 && dp.deck[i] == Layered(CardToField(ids[i], dp.p), dp.keys, dp.p))
  }

  /** Layers still on when it is player i's turn and skip does not peel. */
  function LayersLeft(keys: seq<Key>, skip: int, i: nat): seq<Key>
    requires i <= |keys|
  {
    (if 0 <= skip < i then [keys[skip]] else []) + keys[i..]
  }

  lemma {:induction false} HonestChain(hash: Oracle, dp: DealProtocol, nonces: Nonces, idx: int, skip: int, i: nat,
      m: int)
    requires WellFormed(dp) && KeyRing(dp.keys, dp.p) && dp.session != [] && idx >= 0 && i <= |dp.players|
    requires InRange(m, dp.p)
    requires forall j :: 0 <= j < |dp.players| ==> dp.players[j] != ""
    ensures var r := PeelChain(PeelLayer(hash, dp, nonces, idx), |dp.players|, skip, i,
        Layered(m, LayersLeft(dp.keys, skip, i), dp.p));
            r.Ok? && r.value.0 == Layered(m, LayersLeft(dp.keys, skip, |dp.keys|), dp.p)
    decreases |dp.players| - i
  {
    if i < |dp.players| {
      HonestChain(hash, dp, nonces, idx, skip, i + 1, m);
      var left := LayersLeft(dp.keys, skip, i);
      if i == skip {
        assert LayersLeft(dp.keys, skip, i + 1) == left;
      } else {
        var at := if 0 <= skip < i then 1 else 0;
        assert left[at] == dp.keys[i] && Drop(left, at) == LayersLeft(dp.keys, skip, i + 1);
        LayeredInRange(m, left, dp.p);
        HonestPeelApplies(hash, dp.keys[i], Layered(m, left, dp.p), idx, dp.players[i], dp.session, nonces(idx, i));
        PeelOneLayer(m, left, at, dp.p);
      }
    }
  }

  /** Any position of an honest deal opens, to any seat or to all, as the card that is there. */
  lemma HonestReveal(hash: Oracle, dp: DealProtocol, nonces: Nonces, ids: seq<nat>, idx: nat, recipient: Option<nat>)
    requires HonestDeal(dp, ids) && idx < |ids| && (recipient.Some? ==> recipient.value < |dp.players|)
    ensures var o := Opened(hash, dp, nonces, idx, recipient); o.Ok? && o.value.0 == CardFromID(ids[idx])
  {
    var m, p := CardToField(ids[idx], dp.p), dp.p;
    var skip := if recipient.Some? then recipient.value else -1;
    CardValue(ids[idx], p);
    CardRoundTrip(ids[idx], p);
    assert LayersLeft(dp.keys, skip, 0) == dp.keys;
    HonestChain(hash, dp, nonces, idx, skip, 0, m);
    NotDivisible(p, m);
    assert Layered(m, [], p) == m by { assert Pow(m, 1) == m; }
    if recipient.Some? {
      var last := [dp.keys[skip]];
      assert LayersLeft(dp.keys, skip, |dp.keys|) == last;
      LayeredInRange(m, last, p);
      PeelOneLayer(m, last, 0, p);
      assert Drop(last, 0) == [];
    } else {
      assert LayersLeft(dp.keys, skip, |dp.keys|) == [];
    }
  }

  /** The deck that a full shuffle of the 52 plaintext cards leaves is an honest deal. */
  lemma ShuffledDeckIsHonest(dp: DealProtocol, perms: seq<seq<nat>>) returns (ids: seq<nat>)
    requires WellFormed(dp) && BigPrime(dp.p) && KeyRing(dp.keys, dp.p) && dp.session != []
    requires forall i :: 0 <= i < |dp.players| ==> dp.players[i] != ""
    requires |perms| == |dp.keys| && forall j :: 0 <= j < |perms| ==> Permutes(perms[j], 52)
    requires dp.deck == DeckAfter(dp.keys, perms, PlaintextDeck(dp.p), |dp.keys|)
    ensures |ids| == 52 && forall i :: 0 <= i < 52 ==> ids[i] == Origin(perms, |perms|, i, 52)
    ensures HonestDeal(dp, ids) && Permutes(ids, 52)
  {
    ids := seq(52, i requires 0 <= i < 52 => Origin(perms, |perms|, i, 52));
    forall i | 0 <= i < 52 ensures InRange(PlaintextDeck(dp.p)[i], dp.p) {
      CardValue(i, dp.p);
    }
    forall i | 0 <= i < 52 ensures dp.deck[i] == Layered(CardToField(ids[i], dp.p), dp.keys, dp.p) {
      ShuffleLayers(dp.keys, perms, PlaintextDeck(dp.p), |dp.keys|, i, dp.p);
      assert dp.keys[..|dp.keys|] == dp.keys;
    }
    forall i, j | 0 <= i < j < 52 ensures ids[i] != ids[j] {
      OriginInjective(perms, |perms|, i, j, 52);
    }
  }

  /**
   * The joint deal is a bijection: after a full shuffle, every position opens, whoever it
   * is opened to, as the card that the composed permutation puts there, and different
   * positions open as different real cards.
   */
  lemma JointDealBijection(hash: Oracle, dp: DealProtocol, nonces: Nonces, perms: seq<seq<nat>>, i: nat, j: nat,
      ri: Option<nat>, rj: Option<nat>)
    requires WellFormed(dp) && BigPrime(dp.p) && KeyRing(dp.keys, dp.p) && dp.session != []
    requires forall k :: 0 <= k < |dp.players| ==> dp.players[k] != ""
    requires |perms| == |dp.keys| && forall k :: 0 <= k < |perms| ==> Permutes(perms[k], 52)
    requires dp.deck == DeckAfter(dp.keys, perms, PlaintextDeck(dp.p), |dp.keys|)
    requires i < 52 && j < 52
    requires (ri.Some? ==> ri.value < |dp.players|) && (rj.Some? ==> rj.value < |dp.players|)
    ensures var oi, oj := Opened(hash, dp, nonces, i, ri), Opened(hash, dp, nonces, j, rj);
            && oi.Ok? && oj.Ok? && Dealt(oi.value.0)
            && oi.value.0 == CardFromID(Origin(perms, |perms|, i, 52))
            && (oi.value.0 == oj.value.0 <==> i == j)
  {
    var ids := ShuffledDeckIsHonest(dp, perms);
    HonestReveal(hash, dp, nonces, ids, i, ri);
    HonestReveal(hash, dp, nonces, ids, j, rj);
    CardIDBijection(ids[i], BLANK);
    CardIDBijection(ids[j], BLANK);
    if i != j {
      OriginInjective(perms, |perms|, i, j, 52);
    }
  }

  /** The positions of a hand: both rounds of hole cards, then flop, turn and river. */
  function HandPositions(n: int): seq<int>
    requires n >= 2
  {
    seq(2 * n, i => i) + FlopIndexes(n).value + [TurnIndex(n).value, RiverIndex(n).value]
  }

  /** Up to 22 seats the hand fits in the deck and burns or repeats no dealt position. */
  lemma HandPositionsDistinct(n: int)
    requires 2 <= n <= 22
    ensures forall i, j :: 0 <= i < j < |HandPositions(n)| ==> HandPositions(n)[i] != HandPositions(n)[j]
    ensures forall i :: 0 <= i < |HandPositions(n)| ==> 0 <= HandPositions(n)[i] < 52
    ensures FlopIndexes(n).value[0] == BatchPos(2 * n, [3, 1, 1], 0) + 1
    ensures TurnIndex(n).value == BatchPos(2 * n, [3, 1, 1], 1) + 1
    ensures RiverIndex(n).value == BatchPos(2 * n, [3, 1, 1], 2) + 1
  {
    assert BatchPos(2 * n, [3, 1, 1], 1) == BatchPos(2 * n, [3, 1, 1], 0) + 4;
  }
}
