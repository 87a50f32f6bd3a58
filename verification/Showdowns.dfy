// Who has the best hand at a showdown (internal/game/hand_eval.go:44-73, machine.go:386-436), in
// terms of the cards alone: the seat's two and the board.
module Showdowns {
  import opened Cards
  import opened Categories
  import opened GameState
  import opened HandEval
  import opened HighCards
  import opened Rules
  import opened Winners

  /** Five of the cards. */
  predicate FiveFrom(five: seq<Card>, cards: multiset<Card>) {
    |five| == 5 && multiset(five) <= cards
  }

  /**
   * What the cards are worth at a showdown: the best that five of them are worth if that is
   * more than a high card, and nothing otherwise.
   */
  ghost predicate BestWorth(cards: multiset<Card>, g: Hand) {
    if g == NOTHING then forall five, h :: FiveFrom(five, cards) && Worth(five, h) ==> h.rank == HIGH_CARD
    else
      && g.rank > HIGH_CARD && (exists five :: FiveFrom(five, cards) && Worth(five, g))
      && forall five, h :: FiveFrom(five, cards) && Worth(five, h) ==> Compare(h, g) <= 0
  }

  // ------------------------------------------------------------------- the order of cards

  /** Taking the k-th card out. */
  lemma TakeOut(b: seq<Card>, k: nat, rest: seq<Card>)
    requires k < |b| && rest == b[..k] + b[k + 1..]
    ensures multiset(b) == multiset(rest) + multiset{b[k]}
    ensures multiset(Ranks(b)) == multiset(Ranks(rest)) + multiset{b[k].rank}
  {
    assert b == b[..k] + [b[k]] + b[k + 1..];
    var r, q := Ranks(b), Ranks(rest);
    assert r == r[..k] + [r[k]] + r[k + 1..];
    assert q == r[..k] + r[k + 1..];
  }

  lemma {:induction false} RanksAlike(a: seq<Card>, b: seq<Card>)
    requires multiset(a) == multiset(b)
    ensures multiset(Ranks(a)) == multiset(Ranks(b))
  {
    if a == [] {
      assert |multiset(b)| == |b|;
    } else {
      assert a[0] in multiset(b);
      var k :| 0 <= k < |b| && b[k] == a[0];
      var rest := b[..k] + b[k + 1..];
      assert a[..0] + a[1..] == a[1..];
      TakeOut(a, 0, a[1..]);
      TakeOut(b, k, rest);
      assert multiset(rest) == multiset(b) - multiset{b[k]} == multiset(a[1..]);
      RanksAlike(a[1..], rest);
    }
  }

  lemma SameSuits(a: seq<Card>, b: seq<Card>)
    requires multiset(a) == multiset(b) && OneSuit(a)
    ensures OneSuit(b)
  {
    forall i, j | 0 <= i < |b| && 0 <= j < |b| ensures b[i].suit == b[j].suit {
      assert b[i] in multiset(a) && b[j] in multiset(a);
    }
  }

  lemma StraightAlike(a: seq<Card>, b: seq<Card>)
    requires multiset(Ranks(a)) == multiset(Ranks(b))
    ensures forall top: nat :: Straight(a, top) <==> Straight(b, top)
    ensures AnyStraight(a) <==> AnyStraight(b)
  {
    forall top: nat ensures Straight(a, top) <==> Straight(b, top) {
    }
    if AnyStraight(a) {
      var top :| Straight(a, top);
      assert Straight(b, top);
    }
    if AnyStraight(b) {
      var top :| Straight(b, top);
      assert Straight(a, top);
    }
  }

  /** The order of the cards does not matter. */
  lemma WorthAlike(a: seq<Card>, b: seq<Card>, h: Hand)
    requires multiset(a) == multiset(b) && Worth(a, h)
    ensures Worth(b, h)
  {
    RanksAlike(a, b);
    StraightAlike(a, b);
    if OneSuit(a) {
      SameSuits(a, b);
    }
    if OneSuit(b) {
      SameSuits(b, a);
    }
  }

  lemma TwoPlaces(cards: seq<Card>, c: Card) returns (i: nat, j: nat)
    requires multiset(cards)[c] >= 2
    ensures i < j < |cards| && cards[i] == cards[j] == c
  {
    assert c in multiset(cards);
    var x :| 0 <= x < |cards| && cards[x] == c;
    var rest := cards[..x] + cards[x + 1..];
    TakeOut(cards, x, rest);
    assert c in multiset(rest);
    var y :| 0 <= y < |rest| && rest[y] == c;
    var z := if y < x then y else y + 1;
    i, j := if x < z then x else z, if x < z then z else x;
  }

  lemma OnceOnly(cards: seq<Card>, c: Card)
    requires FromDeck(cards)
    ensures multiset(cards)[c] <= 1
  {
    if multiset(cards)[c] >= 2 {
      var i, j := TwoPlaces(cards, c);
      assert false;
    }
  }

  // ------------------------------------------------------------------------ choosing five

  /** The five kept are the cards before, between and after the two put aside. */
  lemma FiveInOrder(seven: seq<Card>, x: nat, y: nat)
    requires |seven| == 7 && x < y < 7
    ensures FiveOf(seven, x, y) == seven[..x] + seven[x + 1..y] + seven[y + 1..]
  {
    var five, all := FiveOf(seven, x, y), seven[..x] + seven[x + 1..y] + seven[y + 1..];
    forall m | 0 <= m < 5 ensures five[m] == all[m] {
      KeptAt(seven, x, y, 7, m);
    }
  }

  lemma FiveAndTwo(seven: seq<Card>, x: nat, y: nat)
    requires |seven| == 7 && x < y < 7
    ensures multiset(FiveOf(seven, x, y)) + multiset{seven[x], seven[y]} == multiset(seven)
  {
    FiveInOrder(seven, x, y);
    var before, between, after := seven[..x], seven[x + 1..y], seven[y + 1..];
    assert seven == before + [seven[x]] + between + [seven[y]] + after;
  }

  lemma PairOf(m: multiset<Card>) returns (a: Card, b: Card)
    requires |m| == 2
    ensures m == multiset{a, b}
  {
    a :| a in m;
    var rest := m - multiset{a};
    assert |rest| == 1;
    b :| b in rest;
    assert |rest - multiset{b}| == 0;
    assert m == multiset{a} + multiset{b};
  }

  lemma LeftOver(seven: seq<Card>, five: seq<Card>) returns (aside: multiset<Card>)
    requires |seven| == 7 && FiveFrom(five, multiset(seven))
    ensures |aside| == 2 && multiset(five) + aside == multiset(seven)
  {
    aside := multiset(seven) - multiset(five);
    assert multiset(five) + aside == multiset(seven);
    assert |multiset(five) + aside| == |multiset(five)| + |aside|;
  }

  /** Every five of seven different cards are among the choices. */
  lemma ChoiceIs(seven: seq<Card>, five: seq<Card>) returns (x: nat, y: nat)
    requires |seven| == 7 && FromDeck(seven) && FiveFrom(five, multiset(seven))
    ensures x < y < 7 && multiset(FiveOf(seven, x, y)) == multiset(five)
  {
    var aside := LeftOver(seven, five);
    var a, b := PairOf(aside);
    OnceOnly(seven, a);
    assert a in multiset(seven) && b in multiset(seven);
    var i :| 0 <= i < 7 && seven[i] == a;
    var j :| 0 <= j < 7 && seven[j] == b;
    assert aside[a] <= 1;
    x, y := if i < j then i else j, if i < j then j else i;
    FiveAndTwo(seven, x, y);
    SameRest(multiset(FiveOf(seven, x, y)), multiset(five), multiset{seven[x], seven[y]}, aside);
  }

  lemma SameRest(a: multiset<Card>, b: multiset<Card>, c: multiset<Card>, d: multiset<Card>)
    requires a + c == b + d && c == d
    ensures a == b
  {
    assert a == a + c - c && b == b + d - d;
  }

  // ------------------------------------------------------------------------ seven cards

  lemma WorthShaped(cards: seq<Card>, h: Hand)
    requires Worth(cards, h) && h.rank != HIGH_CARD
    ensures Shaped(h)
  {
  }

  /** No five of the seven cards are worth more than the evaluator's result. */
  lemma FiveUnbeaten(seven: seq<Card>, five: seq<Card>, h: Hand)
    requires |seven| == 7 && FromDeck(seven) && FiveFrom(five, multiset(seven)) && Worth(five, h)
    ensures Compare(h, EvaluateBest7(seven)) <= 0
    ensures exists x: nat, y: nat :: x < y < 7 && FiveHands(seven)(x, y) == h
  {
    var x, y := ChoiceIs(seven, five);
    ChoiceFromDeck(seven, x, y);
    WorthAlike(five, FiveOf(seven, x, y), h);
    EvaluateExactly(FiveOf(seven, x, y), h);
    Best7Unbeaten(seven, x, y);
    assert FiveHands(seven)(x, y) == h;
  }

  lemma ChoiceWorth(seven: seq<Card>, x: nat, y: nat)
    requires |seven| == 7 && FromDeck(seven) && x < y < 7
    ensures FiveFrom(FiveOf(seven, x, y), multiset(seven)) && Worth(FiveOf(seven, x, y), FiveHands(seven)(x, y))
  {
    FiveAndTwo(seven, x, y);
    ChoiceFromDeck(seven, x, y);
    EvaluateExactly(FiveOf(seven, x, y), FiveHands(seven)(x, y));
  }

  lemma BestIsWorth(seven: seq<Card>)
    requires |seven| == 7 && FromDeck(seven)
    ensures BestWorth(multiset(seven), EvaluateBest7(seven))
  {
    var g, cards := EvaluateBest7(seven), multiset(seven);
    Best7IsAttained(seven);
    forall five, h | FiveFrom(five, cards) && Worth(five, h)
      ensures Compare(h, g) <= 0 && (g == NOTHING ==> h.rank == HIGH_CARD)
    {
      FiveUnbeaten(seven, five, h);
    }
    if g != NOTHING {
      var x: nat, y: nat :| x < y < 7 && FiveHands(seven)(x, y).rank > HIGH_CARD;
      Best7Unbeaten(seven, x, y);
      var v: nat, w: nat :| v < w < 7 && g == FiveHands(seven)(v, w);
      ChoiceWorth(seven, v, w);
    }
  }

  lemma BestWorthIsOne(cards: multiset<Card>, g: Hand, h: Hand)
    requires BestWorth(cards, g) && BestWorth(cards, h)
    ensures g == h
  {
    if g != NOTHING && h != NOTHING {
      var a :| FiveFrom(a, cards) && Worth(a, g);
      var b :| FiveFrom(b, cards) && Worth(b, h);
      WorthShaped(a, g);
      WorthShaped(b, h);
      CompareTotalPreorder(g, h, g);
    }
  }

  /** The evaluator's result for seven different cards is what they are worth at a showdown. */
  lemma Best7Exactly(seven: seq<Card>, g: Hand)
    requires |seven| == 7 && FromDeck(seven)
    ensures EvaluateBest7(seven) == g <==> BestWorth(multiset(seven), g)
  {
    BestIsWorth(seven);
    if BestWorth(multiset(seven), g) {
      BestWorthIsOne(multiset(seven), g, EvaluateBest7(seven));
    }
  }

  // -------------------------------------------------------------------------- the winners

  /** The cards of a seat: its own two and the board. */
  function CardsOf(s: Seat, board: seq<Card>): multiset<Card> {
    multiset{s.hole.0, s.hole.1} + multiset(board)
  }

  function Blanks(n: nat): (r: seq<Card>)
    ensures |r| == n
  {
    seq(n, _ => BLANK)
  }

  /** The seven cards that are compared are the seat's two, the board, and blanks for what is not dealt. */
  lemma SevenExactly(s: Seat, board: seq<Card>)
    requires |board| <= 5
    ensures multiset(Seven(s, board)) == CardsOf(s, board) + multiset(Blanks(5 - |board|))
    ensures multiset(Seven(s, board)) == CardsOf(s, board) <==> |board| == 5
  {
    var rest := Blanks(5 - |board|);
    assert |multiset(rest)| == |rest| && |CardsOf(s, board) + multiset(rest)| == |CardsOf(s, board)| + |rest|;
    assert Seven(s, board) == [s.hole.0, s.hole.1] + board + rest;
    assert multiset([s.hole.0, s.hole.1]) == multiset{s.hole.0, s.hole.1};
  }

  /** The seat's two cards and the board are different real cards. */
  ghost predicate RealCards(s: Seat, board: seq<Card>) {
    FromDeck([s.hole.0, s.hole.1] + board)
  }

  lemma HandExactly(s: Seat, board: seq<Card>, g: Hand)
    requires |board| == 5 && RealCards(s, board)
    ensures BEST7(Seven(s, board)) == g <==> BestWorth(CardsOf(s, board), g)
  {
    SevenExactly(s, board);
    assert Seven(s, board) == [s.hole.0, s.hole.1] + board;
    Best7Exactly(Seven(s, board), g);
  }

  /** No unfolded eligible seat's cards are worth more than those of seat i. */
  ghost predicate HoldsBest(seats: seq<Seat>, board: seq<Card>, eligible: seq<string>, i: nat) {
    && Contender(seats, eligible, i)
    && forall j: nat, g, h ::
         Contender(seats, eligible, j) && BestWorth(CardsOf(seats[i], board), g) &&
         BestWorth(CardsOf(seats[j], board), h) ==>
           Compare(h, g) <= 0
  }

  /**
   * At a showdown with a full board the winners of a pot are exactly the eligible seats still in
   * whose best five of their own two cards and the board nobody beats.
   */
  lemma WinnersHoldBest(seats: seq<Seat>, board: seq<Card>, eligible: seq<string>, i: nat)
    requires DistinctIDs(seats) && |board| == 5
    requires forall j: nat :: Contender(seats, eligible, j) ==> RealCards(seats[j], board)
    ensures i in PotWinners(BEST7, seats, board, eligible) <==> HoldsBest(seats, board, eligible, i)
  {
    Best7IsComparable();
    WinnersAreStrongest(BEST7, seats, board, eligible, i);
    if Contender(seats, eligible, i) {
      forall j: nat, h | Contender(seats, eligible, j)
        ensures HandOf(BEST7, seats, board, j) == h <==> BestWorth(CardsOf(seats[j], board), h)
      {
        HandExactly(seats[j], board, h);
      }
    }
  }

  // ------------------------------------------------------------------------ short boards

  const SPADES := 0

  lemma NoWorseThan(cards: seq<Card>, x: nat, y: nat, rank: nat)
    requires |cards| == 7 && x < y < 7 && Evaluate5(FiveOf(cards, x, y)).rank >= rank
    ensures EvaluateBest7(cards).rank >= rank
  {
    Best7Unbeaten(cards, x, y);
  }

  /** Five cards of which two but not all have one rank are more than a high card. */
  lemma PairIsSomething(five: seq<Card>, i: nat, j: nat, k: nat)
    requires |five| == 5 && i < j < 5 && k < 5 && five[i].rank == five[j].rank != five[k].rank
    ensures Evaluate5(five).rank >= ONE_PAIR
  {
    var r := SortedRanks(five);
    HighCardMeans(five);
    SortedRanksFall(five);
    SortedDiffer(five);
    LargestGroup(r);
    var top := r[0];
    SortedHave(five, x => x == top);
    assert !DistinctRanks(five);
  }

  /** On a board of three, the two cards that are missing are counted as a pair. */
  lemma BlanksArePair(s: Seat, board: seq<Card>)
    requires |board| == 3 && AllDealt(board)
    ensures BEST7(Seven(s, board)).rank >= ONE_PAIR
  {
    var seven := Seven(s, board);
    var five := FiveOf(seven, 0, 1);
    FiveInOrder(seven, 0, 1);
    assert five[0] == board[0] && five[3] == five[4] == BLANK;
    PairIsSomething(five, 3, 4, 0);
    NoWorseThan(seven, 0, 1, ONE_PAIR);
  }

  /** And as spades: three spades among the seat's two and the board make a flush. */
  lemma BlanksMakeFlush(s: Seat, board: seq<Card>, x: nat, y: nat)
    requires |board| == 3 && x < y < 5
    requires forall i :: 0 <= i < 5 && i != x && i != y ==> ([s.hole.0, s.hole.1] + board)[i].suit == SPADES
    ensures BEST7(Seven(s, board)).rank >= FLUSH
  {
    var seven, known := Seven(s, board), [s.hole.0, s.hole.1] + board;
    var five := FiveOf(seven, x, y);
    assert forall i :: 0 <= i < 7 ==> seven[i] == if i < 5 then known[i] else BLANK;
    forall m | 0 <= m < 5 ensures five[m].suit == SPADES {
      KeptAt(seven, x, y, 7, m);
      var k := KeptFrom(x, y, m);
      assert k != x && k != y;
    }
    assert IsFlush(five);
    NoWorseThan(seven, x, y, FLUSH);
  }

  // A seat with a straight on the flop, and one with nothing but three spades.
  const STRAIGHT_SEAT := Seat("A", 0, (Card(10, 1), Card(11, 3)), AllIn, 0, 10)
  const SPADES_SEAT := Seat("B", 0, (Card(2, 0), Card(7, 0)), AllIn, 0, 10)
  const SHORT_BOARD := [Card(9, 0), Card(12, 1), Card(13, 2)]

  lemma PairsAtMost(gs: seq<Group>, ranks: seq<nat>, high: nat)
    requires CountAt(gs, 0) <= 2
    ensures ByGroups(gs, ranks, false, high).rank <= STRAIGHT
  {
  }

  lemma LargestIsCounted(five: seq<Card>, gs: seq<Group>)
    requires |five| == 5 && gs == Groups(SortedRanks(five))
    requires forall x: nat {:trigger Count(five, x)} :: Count(five, x) <= 2
    ensures CountAt(gs, 0) <= 2
  {
    SortedRanksFall(five);
    GroupsCount(SortedRanks(five));
    assert Count(five, gs[0].rank) <= 2;
  }

  /** Five cards of two suits in which no rank occurs three times are at most a straight. */
  lemma BelowFlush(five: seq<Card>)
    requires |five| == 5 && !IsFlush(five) && forall x: nat {:trigger Count(five, x)} :: Count(five, x) <= 2
    ensures Evaluate5(five).rank <= STRAIGHT
  {
    var r := SortedRanks(five);
    LargestIsCounted(five, Groups(r));
    PairsAtMost(Groups(r), r, StraightHigh(r));
  }

  lemma StraightSeven(seven: seq<Card>, x: nat, y: nat)
    requires seven == Seven(STRAIGHT_SEAT, SHORT_BOARD) && x < y < 7
    ensures FiveHands(seven)(x, y).rank <= STRAIGHT
  {
    var five := FiveOf(seven, x, y);
    forall m | 0 <= m < 5 ensures KeptFrom(x, y, m) < 7 && five[m] == seven[KeptFrom(x, y, m)] {
      KeptAt(seven, x, y, 7, m);
    }
    assert KeptFrom(x, y, 0) < KeptFrom(x, y, 1) < KeptFrom(x, y, 2) < 5;
    var r := Ranks(five);
    forall v: nat ensures Count(five, v) <= 2 {
      TimesIs(r, v);
    }
    BelowFlush(five);
  }

  lemma StraightSeatHas(seven: seq<Card>)
    requires seven == Seven(STRAIGHT_SEAT, SHORT_BOARD)
    ensures EvaluateBest7(seven).rank <= STRAIGHT
  {
    Best7IsAttained(seven);
    forall x: nat, y: nat | x < y < 7 ensures FiveHands(seven)(x, y).rank <= STRAIGHT {
      StraightSeven(seven, x, y);
    }
  }

  lemma SpadesSeatHas(seven: seq<Card>)
    requires seven == Seven(SPADES_SEAT, SHORT_BOARD)
    ensures EvaluateBest7(seven).rank >= FLUSH
  {
    BlanksMakeFlush(SPADES_SEAT, SHORT_BOARD, 3, 4);
  }

  lemma HigherRank(a: Hand, b: Hand)
    requires a.rank < b.rank
    ensures Compare(b, a) > 0
  {
  }

  /** On the flop, three spades and two cards that were never dealt beat a king-high straight. */
  lemma SpadesBeatStraight(a: Seat, b: Seat, board: seq<Card>, straight: Hand, spades: Hand)
    requires a == STRAIGHT_SEAT && b == SPADES_SEAT && board == SHORT_BOARD
    requires straight == BEST7(Seven(a, board)) && spades == BEST7(Seven(b, board))
    ensures Compare(spades, straight) > 0
  {
    StraightSeatHas(Seven(a, board));
    SpadesSeatHas(Seven(b, board));
    HigherRank(straight, spades);
  }
}
