// Ranking of poker hands (internal/game/hand_eval.go).
module HandEval {
  import opened Cards

  // Categories in rising order; the numbers are HandRank's.
  const HIGH_CARD := 0
  const ONE_PAIR := 1
  const TWO_PAIR := 2
  const THREE_OF_A_KIND := 3
  const STRAIGHT := 4
  const FLUSH := 5
  const FULL_HOUSE := 6
  const FOUR_OF_A_KIND := 7
  const STRAIGHT_FLUSH := 8
  const ROYAL_FLUSH := 9

  const ACE := 14

  datatype Hand = Hand(rank: nat, kickers: seq<nat>)

  // -------------------------------------------------------------------- comparison

  /** Kickers are compared while both hands have them. */
  function CompareKickers(a: seq<nat>, b: seq<nat>): int {
    if a == [] || b == [] then 0
    else if a[0] > b[0] then 1
    else if a[0] < b[0] then -1
    else CompareKickers(a[1..], b[1..])
  }

  function Compare(a: Hand, b: Hand): int {
    if a.rank > b.rank then 1
    else if a.rank < b.rank then -1
    else CompareKickers(a.kickers, b.kickers)
  }

  method CompareHands(a: Hand, b: Hand) returns (r: int)
    ensures r == Compare(a, b)
  {
    if a.rank > b.rank {
      return 1;
    }
    if a.rank < b.rank {
      return -1;
    }
    var i := 0;
    while i < |a.kickers| && i < |b.kickers|
      invariant 0 <= i <= |a.kickers| && i <= |b.kickers|
      invariant CompareKickers(a.kickers, b.kickers) == CompareKickers(a.kickers[i..], b.kickers[i..])
    {
      if a.kickers[i] > b.kickers[i] {
        return 1;
      }
      if a.kickers[i] < b.kickers[i] {
        return -1;
      }
      i := i + 1;
    }
    return 0;
  }

  /** The number of kickers of a hand that EvaluateBest7 returns. */
  function KickerCount(rank: nat): nat {
    if rank == HIGH_CARD then 0
    else if rank == ONE_PAIR then 4
    else if rank == TWO_PAIR || rank == THREE_OF_A_KIND then 3
    else if rank == FLUSH then 5
    else if rank == FULL_HOUSE || rank == FOUR_OF_A_KIND then 2
    else 1
  }

  predicate Shaped(h: Hand) {
    |h.kickers| == KickerCount(h.rank)
  }

  lemma {:induction false} KickersOrder(a: seq<nat>, b: seq<nat>, c: seq<nat>)
    requires |a| == |b| == |c|
    ensures CompareKickers(a, a) == 0 && CompareKickers(a, b) == -CompareKickers(b, a)
    ensures CompareKickers(a, b) == 0 <==> a == b
    ensures CompareKickers(a, b) <= 0 && CompareKickers(b, c) <= 0 ==> CompareKickers(a, c) <= 0
  {
    if a != [] {
      KickersOrder(a[1..], b[1..], c[1..]);
      assert a == [a[0]] + a[1..] && b == [b[0]] + b[1..];
    }
  }

  /** On the hands that are compared, Compare is a total preorder, and 0 means the same hand. */
  lemma CompareTotalPreorder(a: Hand, b: Hand, c: Hand)
    requires Shaped(a) && Shaped(b) && Shaped(c)
    ensures Compare(a, a) == 0 && Compare(a, b) == -Compare(b, a)
    ensures Compare(a, b) == 0 <==> a == b
    ensures Compare(a, b) <= 0 && Compare(b, c) <= 0 ==> Compare(a, c) <= 0
  {
    KickersOrder(a.kickers, a.kickers, a.kickers);
    if a.rank == b.rank {
      KickersOrder(a.kickers, b.kickers, b.kickers);
    }
    if a.rank == b.rank == c.rank {
      KickersOrder(a.kickers, b.kickers, c.kickers);
    }
  }

  // ----------------------------------------------------------------- five-card hands

  function InsertRank(r: nat, s: seq<nat>): (t: seq<nat>)
    ensures |t| == |s| + 1
  {
    if s == [] then [r] else if r >= s[0] then [r] + s else [s[0]] + InsertRank(r, s[1..])
  }

  /** The ranks of the cards, highest first. */
  function SortedRanks(cards: seq<Card>): (t: seq<nat>)
    ensures |t| == |cards|
  {
    if cards == [] then [] else InsertRank(cards[0].rank, SortedRanks(cards[1..]))
  }

  predicate IsFlush(cards: seq<Card>) {
    forall i :: 1 <= i < |cards| ==> cards[i].suit == cards[0].suit
  }

  /** checkStraight: the high rank of a straight, 0 if it is none; the wheel counts as five high. */
  function StraightHigh(r: seq<nat>): nat
    requires |r| == 5
  {
    if r[0] == r[1] + 1 && r[1] == r[2] + 1 && r[2] == r[3] + 1 && r[3] == r[4] + 1 then r[0]
    else if r == [ACE, 5, 4, 3, 2] then 5
    else 0
  }

  datatype Group = Group(rank: nat, count: nat)

  function CountSum(gs: seq<Group>): nat {
    if gs == [] then 0 else gs[0].count + CountSum(gs[1..])
  }

  /** Groups are ordered by size, then by rank. */
  predicate Precedes(a: Group, b: Group) {
    a.count > b.count || (a.count == b.count && a.rank > b.rank)
  }

  function InsertGroup(g: Group, gs: seq<Group>): (r: seq<Group>)
    ensures |r| == |gs| + 1 && CountSum(r) == g.count + CountSum(gs)
    ensures r[0] == g || (gs != [] && r[0] == gs[0])
  {
    if gs == [] then [g]
    else if Precedes(g, gs[0]) then [g] + gs
    else [gs[0]] + InsertGroup(g, gs[1..])
  }

  /** The length of the leading run of equal ranks. */
  function RunLength(r: seq<nat>): (n: nat)
    ensures n <= |r| && (r != [] ==> n >= 1)
  {
    if r == [] then 0 else if |r| > 1 && r[1] == r[0] then 1 + RunLength(r[1..]) else 1
  }

  /** groupByRank on sorted ranks. */
  function Groups(r: seq<nat>): (gs: seq<Group>)
    ensures CountSum(gs) == |r| && (r != [] ==> gs != [])
    ensures |gs| <= |r|
    decreases |r|
  {
    if r == [] then []
    else var n := RunLength(r); InsertGroup(Group(r[0], n), Groups(r[n..]))
  }

  function GroupRanks(gs: seq<Group>): (r: seq<nat>)
    ensures |r| == |gs|
  {
    if gs == [] then [] else [gs[0].rank] + GroupRanks(gs[1..])
  }

  /** The kickers listed after a check of which groups there are; absent groups read as none. */
  function RankAt(gs: seq<Group>, i: nat): nat {
    if i < |gs| then gs[i].rank else 0
  }

  function CountAt(gs: seq<Group>, i: nat): nat {
    if i < |gs| then gs[i].count else 0
  }

  /** The category and kickers of five cards that are no straight flush. */
  function ByGroups(gs: seq<Group>, ranks: seq<nat>, flush: bool, high: nat): Hand {
    var c0, c1 := CountAt(gs, 0), CountAt(gs, 1);
    if c0 == 4 then Hand(FOUR_OF_A_KIND, [RankAt(gs, 0), RankAt(gs, 1)])
    else if c0 == 3 && c1 == 2 then Hand(FULL_HOUSE, [RankAt(gs, 0), RankAt(gs, 1)])
    else if flush then Hand(FLUSH, ranks)
    else if high > 0 then Hand(STRAIGHT, [high])
    else if c0 == 3 then Hand(THREE_OF_A_KIND, [RankAt(gs, 0), RankAt(gs, 1), RankAt(gs, 2)])
    else if c0 == 2 && c1 == 2 then
      Hand(TWO_PAIR, [if RankAt(gs, 1) > RankAt(gs, 0) then RankAt(gs, 1) else RankAt(gs, 0),
                      if RankAt(gs, 1) > RankAt(gs, 0) then RankAt(gs, 0) else RankAt(gs, 1), RankAt(gs, 2)])
    else if c0 == 2 then Hand(ONE_PAIR, GroupRanks(gs))
    else Hand(HIGH_CARD, ranks)
  }

  /** evaluate5. */
  function Evaluate5(cards: seq<Card>): Hand
    requires |cards| == 5
  {
    var ranks := SortedRanks(cards);
    var flush := IsFlush(cards);
    var high := StraightHigh(ranks);
    if flush && high == ACE then Hand(ROYAL_FLUSH, [ACE])
    else if flush && high > 0 then Hand(STRAIGHT_FLUSH, [high])
    else ByGroups(Groups(ranks), ranks, flush, high)
  }

  // ---------------------------------------------------------------- seven-card hands

  /** The cards before idx without the i-th and the j-th. */
  function Kept(cards: seq<Card>, i: nat, j: nat, idx: nat): (r: seq<Card>)
    requires idx <= |cards| && i < j
    ensures |r| == idx - (if i < idx then 1 else 0) - (if j < idx then 1 else 0)
  {
    if idx == 0 then []
    else Kept(cards, i, j, idx - 1) + if idx - 1 == i || idx - 1 == j then [] else [cards[idx - 1]]
  }

  /** The five cards left when the i-th and the j-th are put aside. */
  function FiveOf(cards: seq<Card>, i: nat, j: nat): (five: seq<Card>)
    requires |cards| == 7 && i < j < 7
    ensures |five| == 5
  {
    Kept(cards, i, j, 7)
  }

  // The hand left when a pair of cards is put aside.
  type HandsByPair = (nat, nat) -> Hand

  function FiveHands(cards: seq<Card>): HandsByPair
    requires |cards| == 7
  {
    (i: nat, j: nat) => if i < j < 7 then Evaluate5(FiveOf(cards, i, j)) else NOTHING
  }

  function Better(h: Hand, best: Hand): Hand {
    if Compare(h, best) > 0 then h else best
  }

  const NOTHING := Hand(HIGH_CARD, [])

  /** The scan of EvaluateBest7 from the pair (i, j) on, with the best hand so far. */
  function BestFrom(hands: HandsByPair, i: nat, j: nat, best: Hand): Hand
    requires i < j <= 7
    decreases 7 - i, 7 - j
  {
    if j == 7 then if i == 6 then best else BestFrom(hands, i + 1, i + 2, best)
    else BestFrom(hands, i, j + 1, Better(hands(i, j), best))
  }

  function EvaluateBest7(cards: seq<Card>): Hand
    requires |cards| == 7
  {
    BestFrom(FiveHands(cards), 0, 1, NOTHING)
  }

  method PickFive(cards: seq<Card>, i: nat, j: nat) returns (five: seq<Card>)
    requires |cards| == 7 && i < j < 7
    ensures five == FiveOf(cards, i, j)
  {
    five := [];
    var idx := 0;
    while idx < 7
      invariant 0 <= idx <= 7
      invariant five == Kept(cards, i, j, idx)
    {
      if idx != i && idx != j {
        five := five + [cards[idx]];
      }
      idx := idx + 1;
    }
  }

  method ScanPairs(cards: seq<Card>, hands: HandsByPair) returns (best: Hand)
    requires |cards| == 7 && forall i: nat, j: nat :: i < j < 7 ==> hands(i, j) == Evaluate5(FiveOf(cards, i, j))
    ensures best == BestFrom(hands, 0, 1, NOTHING)
  {
    best := NOTHING;
    var i := 0;
    while i < 7
      invariant 0 <= i <= 7
      invariant BestFrom(hands, 0, 1, NOTHING) == if i < 7 then BestFrom(hands, i, i + 1, best) else best
    {
      var j := i + 1;
      while j < 7
        invariant i < j <= 7
        invariant BestFrom(hands, 0, 1, NOTHING) == BestFrom(hands, i, j, best)
      {
        var five := PickFive(cards, i, j);
        var h := Evaluate5(five);
        assert h == hands(i, j);
        var cmp := CompareHands(h, best);
        if cmp > 0 {
          best := h;
        }
        j := j + 1;
      }
      i := i + 1;
    }
  }

  method FindBest7(cards: seq<Card>) returns (best: Hand)
    requires |cards| == 7
    ensures best == EvaluateBest7(cards)
  {
    best := ScanPairs(cards, FiveHands(cards));
  }

  // ------------------------------------------------------------------------ theorems

  /** Sizes never grow along the groups and none is empty. */
  predicate GroupsOrdered(gs: seq<Group>) {
    && (forall i :: 0 <= i < |gs| ==> gs[i].count >= 1)
    && (forall i :: 0 < i < |gs| ==> gs[i].count <= gs[i - 1].count)
  }

  lemma OrderedFront(g: Group, gs: seq<Group>)
    requires GroupsOrdered(gs) && g.count >= 1 && (gs != [] ==> gs[0].count <= g.count)
    ensures GroupsOrdered([g] + gs)
  {
    assert forall i :: 0 <= i < |gs| ==> ([g] + gs)[i + 1] == gs[i];
  }

  lemma {:induction false} InsertKeepsOrder(g: Group, gs: seq<Group>)
    requires GroupsOrdered(gs) && g.count >= 1
    ensures GroupsOrdered(InsertGroup(g, gs))
  {
    if gs != [] && !Precedes(g, gs[0]) {
      assert forall i :: 0 <= i < |gs[1..]| ==> gs[1..][i] == gs[i + 1];
      InsertKeepsOrder(g, gs[1..]);
      OrderedFront(gs[0], InsertGroup(g, gs[1..]));
    } else {
      OrderedFront(g, gs);
    }
  }

  lemma {:induction false} GroupsAreOrdered(r: seq<nat>)
    ensures GroupsOrdered(Groups(r))
    decreases |r|
  {
    if r != [] {
      var n := RunLength(r);
      GroupsAreOrdered(r[n..]);
      InsertKeepsOrder(Group(r[0], n), Groups(r[n..]));
    }
  }

  lemma {:induction false} AllSingles(gs: seq<Group>)
    requires GroupsOrdered(gs) && (gs != [] ==> gs[0].count <= 1)
    ensures CountSum(gs) == |gs|
  {
    if gs != [] {
      assert GroupsOrdered(gs[1..]) by {
        assert forall i :: 0 <= i < |gs[1..]| ==> gs[1..][i] == gs[i + 1];
      }
      AllSingles(gs[1..]);
    }
  }

  /** Every category lists its own number of kickers, except that a five-card high card lists all five. */
  lemma Evaluate5Shaped(cards: seq<Card>)
    requires |cards| == 5
    ensures var h := Evaluate5(cards); Shaped(h) || (h.rank == HIGH_CARD && |h.kickers| == 5)
  {
    var gs := Groups(SortedRanks(cards));
    GroupsAreOrdered(SortedRanks(cards));
    if CountAt(gs, 0) == 2 && CountAt(gs, 1) != 2 {
      OnePairCount(gs);
    }
  }

  /** A pair and nothing more among five cards leaves three single ranks. */
  lemma OnePairCount(gs: seq<Group>)
    requires GroupsOrdered(gs) && CountSum(gs) == 5 && CountAt(gs, 0) == 2 && CountAt(gs, 1) != 2
    ensures |gs| == 4
  {
    assert GroupsOrdered(gs[1..]) by {
      assert forall i :: 0 <= i < |gs[1..]| ==> gs[1..][i] == gs[i + 1];
    }
    AllSingles(gs[1..]);
  }

  /** What evaluating five cards can give. */
  predicate FiveShaped(h: Hand) {
    Shaped(h) || (h.rank == HIGH_CARD && |h.kickers| == 5)
  }

  /** A five-card high card never replaces the seed; everything else is compared properly. */
  lemma BetterShaped(h: Hand, best: Hand)
    requires FiveShaped(h) && Shaped(best)
    ensures Shaped(Better(h, best))
    ensures Compare(h, Better(h, best)) <= 0 && Compare(best, Better(h, best)) <= 0
    ensures Better(h, best) != best ==> h.rank > HIGH_CARD
  {
    KickersOrder(best.kickers, best.kickers, best.kickers);
    KickersOrder(h.kickers, h.kickers, h.kickers);
    if Shaped(h) {
      CompareTotalPreorder(h, best, best);
    }
  }

  /** The pair (x, y) comes at or after (i, j) in the scan. */
  predicate AtOrAfter(x: nat, y: nat, i: nat, j: nat) {
    x < y < 7 && (x > i || (x == i && y >= j))
  }

  lemma UnbeatenTrans(h: Hand, a: Hand, b: Hand)
    requires Shaped(a) && Shaped(b) && FiveShaped(h)
    requires Compare(h, a) <= 0 && Compare(a, b) <= 0
    ensures Compare(h, b) <= 0
  {
    if Shaped(h) {
      CompareTotalPreorder(h, a, b);
    }
  }

  lemma {:induction false} BestFromIsBest(hands: HandsByPair, i: nat, j: nat, best: Hand)
    requires i < j <= 7 && Shaped(best) && forall x: nat, y: nat :: FiveShaped(hands(x, y))
    ensures var r := BestFrom(hands, i, j, best);
            && Shaped(r) && Compare(best, r) <= 0
            && (r == best || (r.rank > HIGH_CARD && exists x: nat, y: nat :: AtOrAfter(x, y, i, j) && r == hands(x, y)))
            && forall x: nat, y: nat :: AtOrAfter(x, y, i, j) ==> Compare(hands(x, y), r) <= 0
    decreases 7 - i, 7 - j
  {
    KickersOrder(best.kickers, best.kickers, best.kickers);
    if j == 7 {
      if i < 6 {
        BestFromIsBest(hands, i + 1, i + 2, best);
      }
    } else {
      var next := Better(hands(i, j), best);
      BetterShaped(hands(i, j), best);
      BestFromIsBest(hands, i, j + 1, next);
      var r := BestFrom(hands, i, j + 1, next);
      UnbeatenTrans(hands(i, j), next, r);
      UnbeatenTrans(best, next, r);
      forall x: nat, y: nat | AtOrAfter(x, y, i, j) ensures Compare(hands(x, y), r) <= 0 {
        assert (x == i && y == j) || AtOrAfter(x, y, i, j + 1);
      }
    }
  }

  lemma FiveHandsShaped(cards: seq<Card>)
    requires |cards| == 7
    ensures forall x: nat, y: nat :: FiveShaped(FiveHands(cards)(x, y))
  {
    forall x: nat, y: nat ensures FiveShaped(FiveHands(cards)(x, y)) {
      if x < y < 7 {
        Evaluate5Shaped(FiveOf(cards, x, y));
      }
    }
  }

  /**
   * EvaluateBest7 returns a hand that no choice of five of the seven beats, always one
   * on which Compare is a total preorder.
   */
  lemma Best7Unbeaten(cards: seq<Card>, x: nat, y: nat)
    requires |cards| == 7 && x < y < 7
    ensures Compare(Evaluate5(FiveOf(cards, x, y)), EvaluateBest7(cards)) <= 0
    ensures Shaped(EvaluateBest7(cards))
  {
    FiveHandsShaped(cards);
    BestFromIsBest(FiveHands(cards), 0, 1, NOTHING);
    assert AtOrAfter(x, y, 0, 1);
    assert FiveHands(cards)(x, y) == Evaluate5(FiveOf(cards, x, y));
  }

  lemma ScanIsAttained(hands: HandsByPair)
    requires forall x: nat, y: nat :: FiveShaped(hands(x, y)) && (x < y < 7 ==> hands(x, y) != NOTHING)
    ensures var r := BestFrom(hands, 0, 1, NOTHING);
            && ((exists x: nat, y: nat :: x < y < 7 && r == hands(x, y)) <==>
                (exists x: nat, y: nat :: x < y < 7 && hands(x, y).rank > HIGH_CARD))
            && (r == NOTHING <==> forall x: nat, y: nat :: x < y < 7 ==> hands(x, y).rank == HIGH_CARD)
  {
    BestFromIsBest(hands, 0, 1, NOTHING);
    var r := BestFrom(hands, 0, 1, NOTHING);
    if x: nat, y: nat :| x < y < 7 && hands(x, y).rank > HIGH_CARD {
      assert AtOrAfter(x, y, 0, 1);
    }
  }

  /**
   * The result is one of the 21 five-card hands exactly when some choice of five is
   * better than a high card; otherwise it is the seed, without kickers.
   */
  lemma Best7IsAttained(cards: seq<Card>)
    requires |cards| == 7
    ensures (exists x: nat, y: nat :: x < y < 7 && EvaluateBest7(cards) == FiveHands(cards)(x, y)) <==>
            (exists x: nat, y: nat :: x < y < 7 && FiveHands(cards)(x, y).rank > HIGH_CARD)
    ensures EvaluateBest7(cards) == NOTHING <==>
            (forall x: nat, y: nat :: x < y < 7 ==> FiveHands(cards)(x, y).rank == HIGH_CARD)
  {
    var hands := FiveHands(cards);
    FiveHandsShaped(cards);
    forall x: nat, y: nat ensures FiveShaped(hands(x, y)) && (x < y < 7 ==> hands(x, y) != NOTHING) {
      if x < y < 7 {
        Evaluate5Shaped(FiveOf(cards, x, y));
      }
    }
    ScanIsAttained(hands);
  }

  // --------------------------------------------- high cards tie, whatever the cards

  /** Five falling ranks that span more than a straight, are no wheel and not of one suit. */
  predicate PlainFive(c: seq<Card>) {
    && |c| == 5
    && c[0].rank > c[1].rank > c[2].rank > c[3].rank > c[4].rank && c[0].rank > c[4].rank + 4
    && c[1].rank != 5 && !IsFlush(c)
  }

  lemma {:induction false} FallingRanks(c: seq<Card>)
    requires forall i, j :: 0 <= i < j < |c| ==> c[i].rank > c[j].rank
    ensures |SortedRanks(c)| == |c| && forall i :: 0 <= i < |c| ==> SortedRanks(c)[i] == c[i].rank
  {
    if c != [] {
      FallingRanks(c[1..]);
    }
  }

  lemma {:induction false} SinglesGroup(r: seq<nat>)
    requires forall i, j :: 0 <= i < j < |r| ==> r[i] > r[j]
    ensures forall i :: 0 <= i < |Groups(r)| ==> Groups(r)[i].count == 1
    decreases |r|
  {
    if r != [] {
      assert RunLength(r) == 1;
      SinglesGroup(r[1..]);
      InsertSingle(Group(r[0], 1), Groups(r[1..]));
    }
  }

  lemma InsertSingle(g: Group, gs: seq<Group>)
    requires g.count == 1 && forall i :: 0 <= i < |gs| ==> gs[i].count == 1
    ensures forall i :: 0 <= i < |InsertGroup(g, gs)| ==> InsertGroup(g, gs)[i].count == 1
  {
  }

  lemma PlainFiveIsHighCard(c: seq<Card>)
    requires PlainFive(c)
    ensures Evaluate5(c) == Hand(HIGH_CARD, SortedRanks(c)) && SortedRanks(c)[0] == c[0].rank
  {
    var r := SortedRanks(c);
    FallingRanks(c);
    assert r[0] == c[0].rank && r[1] == c[1].rank && r[4] == c[4].rank;
    SpreadIsNoStraight(r);
    SinglesGroup(r);
    SinglesAreHigh(Groups(r), r);
  }

  lemma SpreadIsNoStraight(r: seq<nat>)
    requires |r| == 5 && r[0] > r[4] + 4 && r[1] != 5
    ensures StraightHigh(r) == 0
  {
  }

  lemma SinglesAreHigh(gs: seq<Group>, r: seq<nat>)
    requires forall i :: 0 <= i < |gs| ==> gs[i].count == 1
    ensures ByGroups(gs, r, false, 0) == Hand(HIGH_CARD, r)
  {
  }

  /** Seven falling ranks without a five, four suits among the first four: every choice of five is plain. */
  predicate PlainSeven(c: seq<Card>) {
    && |c| == 7
    && (forall i, j :: 0 <= i < j < 7 ==> c[i].rank > c[j].rank)
    && (forall i :: 0 <= i < 3 ==> c[i].rank > c[i + 4].rank + 4)
    && (forall i :: 0 <= i < 7 ==> c[i].rank != 5)
    && (forall i, j :: 0 <= i < j < 4 ==> c[i].suit != c[j].suit)
  }

  /** Where the m-th of the five kept cards comes from. */
  function KeptFrom(x: nat, y: nat, m: nat): nat {
    if m < x then m else if m + 1 < y then m + 1 else m + 2
  }

  lemma {:induction false} KeptAt(c: seq<Card>, x: nat, y: nat, idx: nat, m: nat)
    requires idx <= |c| && x < y && m < |Kept(c, x, y, idx)|
    ensures KeptFrom(x, y, m) < idx && Kept(c, x, y, idx)[m] == c[KeptFrom(x, y, m)]
  {
    if m < |Kept(c, x, y, idx - 1)| {
      KeptAt(c, x, y, idx - 1, m);
    }
  }

  lemma ChoiceIsPlain(c: seq<Card>, x: nat, y: nat)
    requires PlainSeven(c) && x < y < 7
    ensures PlainFive(FiveOf(c, x, y))
  {
    var f := FiveOf(c, x, y);
    forall m | 0 <= m < 5 ensures KeptFrom(x, y, m) < 7 && f[m] == c[KeptFrom(x, y, m)] {
      KeptAt(c, x, y, 7, m);
    }
    var k0, k1, k4 := KeptFrom(x, y, 0), KeptFrom(x, y, 1), KeptFrom(x, y, 4);
    assert k0 <= k4 - 4 && k0 < k1 < 4;
    assert c[k0].rank >= c[k4 - 4].rank;
  }

  lemma PlainSevenIsNothing(c: seq<Card>)
    requires PlainSeven(c)
    ensures EvaluateBest7(c) == NOTHING
  {
    forall x: nat, y: nat | x < y < 7 ensures FiveHands(c)(x, y).rank == HIGH_CARD {
      ChoiceIsPlain(c, x, y);
      PlainFiveIsHighCard(FiveOf(c, x, y));
    }
    Best7IsAttained(c);
  }

  /** Queen, ten, eight, six, four and deuce under a higher card. */
  function Under(top: nat): (c: seq<Card>)
    ensures |c| == 7
  {
    [Card(top, 0), Card(12, 1), Card(10, 2), Card(8, 3), Card(6, 0), Card(4, 1), Card(2, 2)]
  }

  lemma UnderRanks(top: nat, i: nat)
    requires i < 7
    ensures Under(top)[i].rank == (if i == 0 then top else 14 - 2 * i) && Under(top)[i].suit == i % 4
  {
  }

  lemma UnderIsPlain(top: nat)
    requires 13 <= top
    ensures PlainSeven(Under(top))
  {
    var c := Under(top);
    forall i | 0 <= i < 7 ensures c[i].rank == (if i == 0 then top else 14 - 2 * i) && c[i].suit == i % 4 {
      UnderRanks(top, i);
    }
  }

  /** The five highest cards of the hand are worth more the higher the top card. */
  lemma TopFiveCount(top: nat)
    requires 13 <= top
    ensures var f := FiveOf(Under(top), 5, 6);
            Evaluate5(f) == Hand(HIGH_CARD, SortedRanks(f)) && SortedRanks(f)[0] == top
  {
    var c := Under(top);
    UnderIsPlain(top);
    ChoiceIsPlain(c, 5, 6);
    PlainFiveIsHighCard(FiveOf(c, 5, 6));
    KeptAt(c, 5, 6, 7, 0);
  }

  /** Ace high ties with king high over the same other cards, although its five best cards beat the king's. */
  lemma AceHighTiesKingHigh()
    ensures Compare(EvaluateBest7(Under(ACE)), EvaluateBest7(Under(13))) == 0
    ensures Compare(Evaluate5(FiveOf(Under(ACE), 5, 6)), Evaluate5(FiveOf(Under(13), 5, 6))) > 0
  {
    UnderIsPlain(ACE);
    UnderIsPlain(13);
    PlainSevenIsNothing(Under(ACE));
    PlainSevenIsNothing(Under(13));
    TopFiveCount(ACE);
    TopFiveCount(13);
  }
}
