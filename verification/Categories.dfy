// What five cards are worth (internal/game/hand_eval.go:75-191): the ten categories and their
// kickers, read off how often each rank occurs, the suits, and runs of consecutive ranks.
module Categories {
  import opened Cards
  import opened HandEval
  import opened HighCards

  /** How many of the cards have the rank. */
  function Count(cards: seq<Card>, r: nat): nat {
    multiset(Ranks(cards))[r]
  }

  predicate OneSuit(cards: seq<Card>) {
    forall i, j :: 0 <= i < |cards| && 0 <= j < |cards| ==> cards[i].suit == cards[j].suit
  }

  /** The five ranks up to top, each once; in the wheel the ace is below the two. */
  predicate Straight(cards: seq<Card>, top: nat) {
    if top == 5 then
      Count(cards, 5) == Count(cards, 4) == Count(cards, 3) == Count(cards, 2) == Count(cards, ACE) == 1
    else
      && top > 5
      && Count(cards, top) == Count(cards, top - 1) == Count(cards, top - 2) == Count(cards, top - 3)
         == Count(cards, top - 4) == 1
  }

  ghost predicate AnyStraight(cards: seq<Card>) {
    exists top :: Straight(cards, top)
  }

  /** Five different ranks, highest first. */
  predicate FiveFalling(cards: seq<Card>, k: seq<nat>) {
    && |k| == 5 && k[0] > k[1] > k[2] > k[3] > k[4]
    && forall i :: 0 <= i < 5 ==> Count(cards, k[i]) == 1
  }

  /** The hand that five cards are worth: category and kickers. */
  ghost predicate Worth(cards: seq<Card>, h: Hand) {
    var k := h.kickers;
    if h.rank == ROYAL_FLUSH then OneSuit(cards) && k == [ACE] && Straight(cards, ACE)
    else if h.rank == STRAIGHT_FLUSH then OneSuit(cards) && |k| == 1 && k[0] != ACE && Straight(cards, k[0])
    else if h.rank == FOUR_OF_A_KIND then |k| == 2 && Count(cards, k[0]) == 4 && Count(cards, k[1]) == 1
    else if h.rank == FULL_HOUSE then |k| == 2 && Count(cards, k[0]) == 3 && Count(cards, k[1]) == 2
    else if h.rank == FLUSH then OneSuit(cards) && !AnyStraight(cards) && FiveFalling(cards, k)
    else if h.rank == STRAIGHT then !OneSuit(cards) && |k| == 1 && Straight(cards, k[0])
    else if h.rank == THREE_OF_A_KIND then
      |k| == 3 && Count(cards, k[0]) == 3 && Count(cards, k[1]) == Count(cards, k[2]) == 1 && k[1] > k[2]
    else if h.rank == TWO_PAIR then
      |k| == 3 && Count(cards, k[0]) == Count(cards, k[1]) == 2 && k[0] > k[1] && Count(cards, k[2]) == 1
    else if h.rank == ONE_PAIR then
      && |k| == 4 && Count(cards, k[0]) == 2 && k[1] > k[2] > k[3]
      && Count(cards, k[1]) == Count(cards, k[2]) == Count(cards, k[3]) == 1
    else h.rank == HIGH_CARD && !OneSuit(cards) && !AnyStraight(cards) && FiveFalling(cards, k)
  }

  // ------------------------------------------------------------------ counting five ranks

  function One(a: nat, b: nat): nat {
    if a == b then 1 else 0
  }

  /** How often x occurs among five ranks. */
  function Times(r: seq<nat>, x: nat): nat
    requires |r| == 5
  {
    One(r[0], x) + One(r[1], x) + One(r[2], x) + One(r[3], x) + One(r[4], x)
  }

  lemma HeadTimes(s: seq<nat>, rest: seq<nat>, x: nat)
    requires s != [] && rest == s[1..]
    ensures multiset(s)[x] == One(s[0], x) + multiset(rest)[x]
  {
    assert s == [s[0]] + rest;
  }

  lemma TimesIs(r: seq<nat>, x: nat)
    requires |r| == 5
    ensures multiset(r)[x] == Times(r, x)
  {
    HeadTimes(r, r[1..], x);
    HeadTimes(r[1..], r[2..], x);
    HeadTimes(r[2..], r[3..], x);
    HeadTimes(r[3..], r[4..], x);
    HeadTimes(r[4..], r[5..], x);
  }

  lemma CountIs(cards: seq<Card>, r: seq<nat>, x: nat)
    requires |cards| == 5 && r == SortedRanks(cards)
    ensures Count(cards, x) == Times(r, x)
  {
    SortedRanksFall(cards);
    TimesIs(r, x);
  }

  predicate Falls5(r: seq<nat>) {
    |r| == 5 && r[0] >= r[1] >= r[2] >= r[3] >= r[4]
  }

  lemma CountsAre(cards: seq<Card>, r: seq<nat>)
    requires |cards| == 5 && r == SortedRanks(cards)
    ensures Falls5(r) && forall x: nat {:trigger Count(cards, x)} :: Count(cards, x) == Times(r, x)
  {
    SortedRanksFall(cards);
    forall x: nat ensures Count(cards, x) == Times(r, x) {
      CountIs(cards, r, x);
    }
  }

  // --------------------------------------------------------------------- one hand at most

  /** The worth of five falling ranks, by which neighbours are equal. */
  function Reading(r: seq<nat>, suited: bool): Hand
    requires Falls5(r)
  {
    var top := StraightHigh(r);
    if r[1] == r[2] == r[3] then
      if r[0] == r[1] then Hand(FOUR_OF_A_KIND, [r[0], r[4]])
      else if r[3] == r[4] then Hand(FOUR_OF_A_KIND, [r[1], r[0]])
      else Hand(THREE_OF_A_KIND, [r[1], r[0], r[4]])
    else if r[0] == r[1] == r[2] then
      if r[3] == r[4] then Hand(FULL_HOUSE, [r[0], r[3]]) else Hand(THREE_OF_A_KIND, [r[0], r[3], r[4]])
    else if r[2] == r[3] == r[4] then
      if r[0] == r[1] then Hand(FULL_HOUSE, [r[2], r[0]]) else Hand(THREE_OF_A_KIND, [r[2], r[0], r[1]])
    else if r[0] == r[1] then
      if r[2] == r[3] then Hand(TWO_PAIR, [r[0], r[2], r[4]])
      else if r[3] == r[4] then Hand(TWO_PAIR, [r[0], r[3], r[2]])
      else Hand(ONE_PAIR, [r[0], r[2], r[3], r[4]])
    else if r[1] == r[2] then
      if r[3] == r[4] then Hand(TWO_PAIR, [r[1], r[3], r[0]]) else Hand(ONE_PAIR, [r[1], r[0], r[3], r[4]])
    else if r[2] == r[3] then Hand(ONE_PAIR, [r[2], r[0], r[1], r[4]])
    else if r[3] == r[4] then Hand(ONE_PAIR, [r[3], r[0], r[1], r[2]])
    else if suited then
      if top == ACE then Hand(ROYAL_FLUSH, [ACE])
      else if top > 0 then Hand(STRAIGHT_FLUSH, [top]) else Hand(FLUSH, r)
    else if top > 0 then Hand(STRAIGHT, [top]) else Hand(HIGH_CARD, r)
  }

  lemma StraightIsRead(cards: seq<Card>, r: seq<nat>, top: nat)
    requires |cards| == 5 && r == SortedRanks(cards)
    ensures Straight(cards, top) ==> StraightHigh(r) == top > 0 && r[0] > r[1] > r[2] > r[3] > r[4]
    ensures StraightHigh(r) == top > 0 && (forall i :: 0 <= i < 5 ==> r[i] >= 2) ==> Straight(cards, top)
  {
    CountsAre(cards, r);
  }

  lemma ReadFour(r: seq<nat>, k: seq<nat>, suited: bool)
    requires Falls5(r) && |k| == 2 && Times(r, k[0]) == 4 && Times(r, k[1]) == 1
    ensures Reading(r, suited) == Hand(FOUR_OF_A_KIND, k)
  {
  }

  lemma ReadFull(r: seq<nat>, k: seq<nat>, suited: bool)
    requires Falls5(r) && |k| == 2 && Times(r, k[0]) == 3 && Times(r, k[1]) == 2
    ensures Reading(r, suited) == Hand(FULL_HOUSE, k)
  {
  }

  lemma ReadThree(r: seq<nat>, k: seq<nat>, suited: bool)
    requires Falls5(r) && |k| == 3 && Times(r, k[0]) == 3 && Times(r, k[1]) == Times(r, k[2]) == 1 && k[1] > k[2]
    ensures Reading(r, suited) == Hand(THREE_OF_A_KIND, k)
  {
  }

  lemma ReadTwoPair(r: seq<nat>, k: seq<nat>, suited: bool)
    requires Falls5(r) && |k| == 3 && Times(r, k[0]) == Times(r, k[1]) == 2 && k[0] > k[1] && Times(r, k[2]) == 1
    ensures Reading(r, suited) == Hand(TWO_PAIR, k)
  {
  }

  lemma ReadPair(r: seq<nat>, k: seq<nat>, suited: bool)
    requires Falls5(r) && |k| == 4 && Times(r, k[0]) == 2 && k[1] > k[2] > k[3]
    requires Times(r, k[1]) == Times(r, k[2]) == Times(r, k[3]) == 1
    ensures Reading(r, suited) == Hand(ONE_PAIR, k)
  {
  }

  /** Five different ranks are read as they are. */
  lemma ReadFive(r: seq<nat>, k: seq<nat>)
    requires Falls5(r) && |k| == 5 && k[0] > k[1] > k[2] > k[3] > k[4]
    requires forall i :: 0 <= i < 5 ==> Times(r, k[i]) == 1
    ensures r == k
  {
  }

  lemma ReadRun(r: seq<nat>, suited: bool)
    requires Falls5(r) && r[0] > r[1] > r[2] > r[3] > r[4] && StraightHigh(r) > 0
    ensures Reading(r, suited) == if !suited then Hand(STRAIGHT, [StraightHigh(r)])
                                  else if StraightHigh(r) == ACE then Hand(ROYAL_FLUSH, [ACE])
                                  else Hand(STRAIGHT_FLUSH, [StraightHigh(r)])
  {
  }

  lemma ReadNoRun(cards: seq<Card>, r: seq<nat>)
    requires |cards| == 5 && FromDeck(cards) && r == SortedRanks(cards)
    ensures AnyStraight(cards) <==> StraightHigh(r) > 0
  {
    RanksAreReal(cards, r);
    if AnyStraight(cards) {
      var top :| Straight(cards, top);
      StraightIsRead(cards, r, top);
    }
    if StraightHigh(r) > 0 {
      StraightIsRead(cards, r, StraightHigh(r));
    }
  }

  lemma RanksAreReal(cards: seq<Card>, r: seq<nat>)
    requires FromDeck(cards) && r == SortedRanks(cards)
    ensures forall i :: 0 <= i < |r| ==> 2 <= r[i] <= ACE
  {
    SortedHave(cards, x => 2 <= x <= ACE);
  }

  /** Five cards are worth at most one hand. */
  lemma WorthIsRead(cards: seq<Card>, r: seq<nat>, h: Hand)
    requires |cards| == 5 && FromDeck(cards) && r == SortedRanks(cards) && Worth(cards, h)
    ensures Falls5(r) && h == Reading(r, OneSuit(cards))
  {
    var k, suited := h.kickers, OneSuit(cards);
    CountsAre(cards, r);
    ReadNoRun(cards, r);
    if h.rank == ROYAL_FLUSH || h.rank == STRAIGHT_FLUSH || h.rank == STRAIGHT {
      StraightIsRead(cards, r, k[0]);
      ReadRun(r, suited);
    } else if h.rank == FOUR_OF_A_KIND {
      ReadFour(r, k, suited);
    } else if h.rank == FULL_HOUSE {
      ReadFull(r, k, suited);
    } else if h.rank == THREE_OF_A_KIND {
      ReadThree(r, k, suited);
    } else if h.rank == TWO_PAIR {
      ReadTwoPair(r, k, suited);
    } else if h.rank == ONE_PAIR {
      ReadPair(r, k, suited);
    } else {
      ReadFive(r, k);
    }
  }

  // -------------------------------------------------------------------------- the groups

  /** The groups are the ranks with how often they occur, larger groups and then higher ranks first. */
  predicate Grouped(r: seq<nat>, gs: seq<Group>) {
    && (forall k :: 0 <= k < |gs| ==> gs[k].count == multiset(r)[gs[k].rank])
    && forall i, j :: 0 <= i < j < |gs| ==> Precedes(gs[i], gs[j])
  }

  lemma {:induction false} InsertChain(g: Group, gs: seq<Group>)
    requires forall i, j :: 0 <= i < j < |gs| ==> Precedes(gs[i], gs[j])
    requires forall k :: 0 <= k < |gs| ==> gs[k].rank != g.rank
    ensures var r := InsertGroup(g, gs);
            && (forall i, j :: 0 <= i < j < |r| ==> Precedes(r[i], r[j]))
            && forall k :: 0 <= k < |r| ==> r[k] == g || r[k] in gs
  {
    var r := InsertGroup(g, gs);
    if gs != [] && !Precedes(g, gs[0]) {
      var rest := gs[1..];
      assert forall k :: 0 <= k < |rest| ==> rest[k] == gs[k + 1];
      InsertChain(g, rest);
      assert forall j :: 0 < j < |r| ==> r[j] == InsertGroup(g, rest)[j - 1];
      forall j | 0 < j < |r| ensures Precedes(r[0], r[j]) {
        if r[j] != g {
          var k :| 0 <= k < |rest| && rest[k] == r[j];
          assert Precedes(gs[0], gs[k + 1]);
        }
      }
    } else {
      assert forall j :: 0 < j < |r| ==> r[j] == gs[j - 1];
    }
  }

  lemma {:induction false} SameRankCount(r: seq<nat>, x: nat)
    requires forall i :: 0 <= i < |r| ==> r[i] == x
    ensures forall y: nat {:trigger multiset(r)[y]} :: multiset(r)[y] == if y == x then |r| else 0
  {
    if r != [] {
      assert r == [r[0]] + r[1..];
      SameRankCount(r[1..], x);
    }
  }

  /** The leading run holds all cards of its rank. */
  lemma RunCounts(r: seq<nat>, n: nat)
    requires Falling(r) && r != [] && n == RunLength(r)
    ensures multiset(r)[r[0]] == n && multiset(r[n..])[r[0]] == 0
    ensures forall y: nat {:trigger multiset(r)[y]} :: y != r[0] ==> multiset(r)[y] == multiset(r[n..])[y]
  {
    RunIsEqual(r);
    SameRankCount(r[..n], r[0]);
    assert r == r[..n] + r[n..];
    assert r[0] !in r[n..];
  }

  lemma {:induction false} GroupsCount(r: seq<nat>)
    requires Falling(r)
    ensures Grouped(r, Groups(r))
    decreases |r|
  {
    if r != [] {
      var n := RunLength(r);
      var rest := r[n..];
      GroupsCount(rest);
      RunCounts(r, n);
      GroupsAreOrdered(rest);
      InsertGrouped(r, n, rest, Groups(rest));
    }
  }

  lemma InsertGrouped(r: seq<nat>, n: nat, rest: seq<nat>, gs: seq<Group>)
    requires r != [] && Grouped(rest, gs) && forall k :: 0 <= k < |gs| ==> gs[k].count >= 1
    requires multiset(r)[r[0]] == n && multiset(rest)[r[0]] == 0
    requires forall y: nat {:trigger multiset(r)[y]} :: y != r[0] ==> multiset(r)[y] == multiset(rest)[y]
    ensures Grouped(r, InsertGroup(Group(r[0], n), gs))
  {
    var g := Group(r[0], n);
    InsertChain(g, gs);
    forall h | h == g || h in gs ensures h.count == multiset(r)[h.rank] {
      if h != g {
        var m :| 0 <= m < |gs| && gs[m] == h;
        assert h.rank != r[0];
      }
    }
  }

  lemma {:induction false} SumAt(gs: seq<Group>)
    requires GroupsOrdered(gs) && CountSum(gs) == 5
    ensures 1 <= |gs| <= 5
    ensures CountAt(gs, 0) + CountAt(gs, 1) + CountAt(gs, 2) + CountAt(gs, 3) + CountAt(gs, 4) == 5
  {
    TailCount(gs);
    if |gs| > 1 {
      TailCount(gs[1..]);
      assert gs[1..][1..] == gs[2..];
    }
    if |gs| > 2 {
      TailCount(gs[2..]);
      assert gs[2..][1..] == gs[3..];
    }
    if |gs| > 3 {
      TailCount(gs[3..]);
      assert gs[3..][1..] == gs[4..];
    }
    if |gs| > 4 {
      TailCount(gs[4..]);
    }
  }

  lemma TailCount(gs: seq<Group>)
    requires GroupsOrdered(gs) && gs != []
    ensures CountSum(gs) == gs[0].count + CountSum(gs[1..]) && GroupsOrdered(gs[1..])
    ensures CountSum(gs[1..]) >= |gs| - 1
  {
    assert forall i :: 0 <= i < |gs[1..]| ==> gs[1..][i] == gs[i + 1];
    EachCounts(gs[1..]);
  }

  lemma {:induction false} EachCounts(gs: seq<Group>)
    requires forall i :: 0 <= i < |gs| ==> gs[i].count >= 1
    ensures CountSum(gs) >= |gs|
  {
    if gs != [] {
      assert forall i :: 0 <= i < |gs[1..]| ==> gs[1..][i] == gs[i + 1];
      EachCounts(gs[1..]);
    }
  }

  // -------------------------------------------------------------------------- the theorem

  lemma SuitIs(cards: seq<Card>)
    requires |cards| == 5
    ensures OneSuit(cards) <==> IsFlush(cards)
  {
    if IsFlush(cards) {
      forall i, j | 0 <= i < 5 && 0 <= j < 5 ensures cards[i].suit == cards[j].suit {
        assert i > 0 ==> cards[i].suit == cards[0].suit;
        assert j > 0 ==> cards[j].suit == cards[0].suit;
      }
    }
  }

  /** Five different cards never have one rank. */
  lemma NotAllEqual(cards: seq<Card>, r: seq<nat>)
    requires |cards| == 5 && FromDeck(cards) && r == SortedRanks(cards) && Falls5(r)
    ensures r[0] != r[4]
  {
    var i, j := TwoOfASuit(cards);
    var top := r[0];
    SortedHave(cards, x => x == top);
  }

  /** Cards of one suit, and cards of a straight, have different ranks. */
  lemma RanksDifferIf(cards: seq<Card>, r: seq<nat>)
    requires |cards| == 5 && FromDeck(cards) && r == SortedRanks(cards)
    ensures Falls5(r) && (OneSuit(cards) || StraightHigh(r) > 0 ==> r[0] > r[1] > r[2] > r[3] > r[4])
  {
    SortedRanksFall(cards);
    SortedDiffer(cards);
    FallStrictly(r);
    if OneSuit(cards) {
      SuitedDiffer(cards);
    }
  }

  lemma SuitedDiffer(cards: seq<Card>)
    requires FromDeck(cards) && OneSuit(cards)
    ensures DistinctRanks(cards)
  {
  }

  /** How five cards that are not all different fall into groups. */
  lemma Shape(gs: seq<Group>)
    requires GroupsOrdered(gs) && CountSum(gs) == 5 && 2 <= CountAt(gs, 0) <= 4
    ensures |gs| == 2 ==> CountAt(gs, 0) + CountAt(gs, 1) == 5 && CountAt(gs, 1) <= 2
    ensures |gs| == 3 ==> CountAt(gs, 0) + CountAt(gs, 1) == 4 && CountAt(gs, 2) == 1
    ensures |gs| == 4 ==> CountAt(gs, 0) == 2 && CountAt(gs, 1) == CountAt(gs, 2) == CountAt(gs, 3) == 1
    ensures 2 <= |gs| <= 4
  {
    SumAt(gs);
  }

  /** What ByGroups makes of groups that are not all single. */
  lemma GroupsRead(r: seq<nat>, gs: seq<Group>, suited: bool)
    requires Falls5(r) && GroupsOrdered(gs) && CountSum(gs) == 5 && 2 <= CountAt(gs, 0) <= 4
    requires forall k :: 0 <= k < |gs| ==> Times(r, gs[k].rank) == gs[k].count
    requires forall i, j :: 0 <= i < j < |gs| ==> Precedes(gs[i], gs[j])
    ensures ByGroups(gs, r, false, 0) == Reading(r, suited)
  {
    Shape(gs);
    var a, b := gs[0].rank, gs[1].rank;
    assert Precedes(gs[0], gs[1]);
    if |gs| == 2 {
      if gs[0].count == 4 {
        ReadFour(r, [a, b], suited);
      } else {
        ReadFull(r, [a, b], suited);
      }
    } else if |gs| == 3 {
      if gs[0].count == 3 {
        ReadThree(r, [a, b, gs[2].rank], suited);
      } else {
        ReadTwoPair(r, [a, b, gs[2].rank], suited);
      }
    } else {
      FourRanks(gs);
      assert Precedes(gs[1], gs[2]) && Precedes(gs[2], gs[3]);
      ReadPair(r, [a, b, gs[2].rank, gs[3].rank], suited);
    }
  }

  lemma FourRanks(gs: seq<Group>)
    requires |gs| == 4
    ensures GroupRanks(gs) == [gs[0].rank, gs[1].rank, gs[2].rank, gs[3].rank]
  {
    assert GroupRanks(gs[4..]) == [];
    assert gs[3..][1..] == gs[4..] && gs[2..][1..] == gs[3..] && gs[1..][1..] == gs[2..];
    assert GroupRanks(gs[3..]) == [gs[3].rank] && GroupRanks(gs[2..]) == [gs[2].rank] + GroupRanks(gs[3..]);
    assert GroupRanks(gs[1..]) == [gs[1].rank] + GroupRanks(gs[2..]);
  }

  lemma PairedIsWorth(cards: seq<Card>, r: seq<nat>, h: Hand)
    requires |cards| == 5 && Falls5(r) && r[0] != r[4] && !(r[0] > r[1] > r[2] > r[3] > r[4])
    requires forall x: nat {:trigger Count(cards, x)} :: Count(cards, x) == Times(r, x)
    requires h == Reading(r, OneSuit(cards))
    ensures Worth(cards, h)
  {
  }

  lemma RunIsWorth(cards: seq<Card>, r: seq<nat>, top: nat)
    requires |cards| == 5 && Falls5(r) && r[0] > r[1] > r[2] > r[3] > r[4] && StraightHigh(r) == top > 0
    requires Straight(cards, top)
    ensures Worth(cards, Reading(r, OneSuit(cards)))
  {
    ReadRun(r, OneSuit(cards));
  }

  lemma ReadNothing(r: seq<nat>, suited: bool)
    requires Falls5(r) && r[0] > r[1] > r[2] > r[3] > r[4] && StraightHigh(r) == 0
    ensures Reading(r, suited) == Hand(if suited then FLUSH else HIGH_CARD, r)
  {
  }

  lemma FallIsWorth(cards: seq<Card>, r: seq<nat>)
    requires |cards| == 5 && Falls5(r) && r[0] > r[1] > r[2] > r[3] > r[4] && StraightHigh(r) == 0
    requires forall x: nat {:trigger Count(cards, x)} :: Count(cards, x) == Times(r, x)
    requires !AnyStraight(cards)
    ensures Worth(cards, Reading(r, OneSuit(cards)))
  {
    ReadNothing(r, OneSuit(cards));
    assert FiveFalling(cards, r);
  }

  lemma SinglesAreWorth(cards: seq<Card>, r: seq<nat>)
    requires |cards| == 5 && FromDeck(cards) && r == SortedRanks(cards)
    requires Falls5(r) && r[0] > r[1] > r[2] > r[3] > r[4]
    ensures Worth(cards, Reading(r, OneSuit(cards)))
  {
    CountsAre(cards, r);
    ReadNoRun(cards, r);
    if StraightHigh(r) > 0 {
      RanksAreReal(cards, r);
      StraightIsRead(cards, r, StraightHigh(r));
      RunIsWorth(cards, r, StraightHigh(r));
    } else {
      FallIsWorth(cards, r);
    }
  }

  /** The reading of five real cards is what they are worth. */
  lemma ReadingIsWorth(cards: seq<Card>, r: seq<nat>, h: Hand)
    requires |cards| == 5 && FromDeck(cards) && r == SortedRanks(cards) && Falls5(r) && r[0] != r[4]
    requires h == Reading(r, OneSuit(cards))
    ensures Worth(cards, h)
  {
    if r[0] > r[1] > r[2] > r[3] > r[4] {
      SinglesAreWorth(cards, r);
    } else {
      CountsAre(cards, r);
      PairedIsWorth(cards, r, h);
    }
  }

  lemma CountsOfGroups(cards: seq<Card>, r: seq<nat>, gs: seq<Group>)
    requires |cards| == 5 && r == SortedRanks(cards) && gs == Groups(r)
    ensures GroupsOrdered(gs) && forall i, j :: 0 <= i < j < |gs| ==> Precedes(gs[i], gs[j])
    ensures forall k :: 0 <= k < |gs| ==> Count(cards, gs[k].rank) == gs[k].count
  {
    SortedRanksFall(cards);
    GroupsAreOrdered(r);
    GroupsCount(r);
  }

  /** With all ranks different, the groups do not matter. */
  lemma SinglesRead(r: seq<nat>, gs: seq<Group>, suited: bool)
    requires Falls5(r) && r[0] > r[1] > r[2] > r[3] > r[4] && CountAt(gs, 0) == 1
    requires !(suited && StraightHigh(r) > 0)
    ensures ByGroups(gs, r, suited, StraightHigh(r)) == Reading(r, suited)
  {
  }

  lemma SuitedRunRead(cards: seq<Card>, r: seq<nat>)
    requires |cards| == 5 && r == SortedRanks(cards) && Falls5(r) && r[0] > r[1] > r[2] > r[3] > r[4]
    requires IsFlush(cards) && StraightHigh(r) > 0
    ensures Evaluate5(cards) == Reading(r, true)
  {
  }

  lemma FallStrictly(r: seq<nat>)
    requires Falls5(r)
    ensures Differing(r) <==> r[0] > r[1] > r[2] > r[3] > r[4]
  {
    if Differing(r) {
      assert r[0] != r[1] && r[1] != r[2] && r[2] != r[3] && r[3] != r[4];
    }
  }

  /** The evaluator reads off the sorted ranks. */
  lemma EvaluateIsReading(cards: seq<Card>, r: seq<nat>)
    requires |cards| == 5 && FromDeck(cards) && r == SortedRanks(cards)
    ensures Falls5(r) && r[0] != r[4] && Evaluate5(cards) == Reading(r, OneSuit(cards))
  {
    var gs := Groups(r);
    SuitIs(cards);
    RanksDifferIf(cards, r);
    NotAllEqual(cards, r);
    CountsOfGroups(cards, r, gs);
    SortedRanksFall(cards);
    LargestGroup(r);
    FallStrictly(r);
    if CountAt(gs, 0) == 1 {
      if IsFlush(cards) && StraightHigh(r) > 0 {
        SuitedRunRead(cards, r);
      } else {
        SinglesRead(r, gs, IsFlush(cards));
      }
    } else {
      CountsAre(cards, r);
      GroupsRead(r, gs, OneSuit(cards));
    }
  }

  /**
   * Five different cards are worth exactly what the evaluator says: each category is recognised
   * when and only when the cards have it, and its kickers are the ranks that decide a tie, in order.
   */
  lemma EvaluateExactly(cards: seq<Card>, h: Hand)
    requires |cards| == 5 && FromDeck(cards)
    ensures Evaluate5(cards) == h <==> Worth(cards, h)
  {
    var r := SortedRanks(cards);
    EvaluateIsReading(cards, r);
    ReadingIsWorth(cards, r, Evaluate5(cards));
    if Worth(cards, h) {
      WorthIsRead(cards, r, h);
    }
  }

  /** Category by category: it is recognised exactly if the cards have it. */
  lemma CategoryExactly(cards: seq<Card>, category: nat)
    requires |cards| == 5 && FromDeck(cards)
    ensures Evaluate5(cards).rank == category <==> exists k :: Worth(cards, Hand(category, k))
  {
    var h := Evaluate5(cards);
    EvaluateExactly(cards, h);
    if h.rank == category {
      assert h == Hand(category, h.kickers);
    }
    forall k | Worth(cards, Hand(category, k)) ensures h.rank == category {
      EvaluateExactly(cards, Hand(category, k));
    }
  }

  // ----------------------------------------------------------------------------- comparing

  /** The kickers agree before i, and a has the higher one there. */
  predicate HigherAt(a: seq<nat>, b: seq<nat>, i: int) {
    0 <= i < |a| && i < |b| && a[..i] == b[..i] && a[i] > b[i]
  }

  lemma HigherShifts(a: seq<nat>, b: seq<nat>, i: int)
    requires a != [] && b != [] && a[0] == b[0]
    ensures HigherAt(a, b, i) <==> i > 0 && HigherAt(a[1..], b[1..], i - 1)
  {
    if 0 < i < |a| && i < |b| {
      var k := i - 1;
      assert a[..i] == [a[0]] + a[1..][..k] && b[..i] == [b[0]] + b[1..][..k];
      assert a[1..][..k] == a[..i][1..] && b[1..][..k] == b[..i][1..];
    }
  }

  lemma HeadsAgree(a: seq<nat>, b: seq<nat>, i: int)
    requires 0 <= i <= |a| && i <= |b| && a[..i] == b[..i]
    ensures i > 0 ==> a[0] == b[0]
  {
    if i > 0 {
      assert a[0] == a[..i][0] && b[0] == b[..i][0];
    }
  }

  lemma {:induction false} KickersExactly(a: seq<nat>, b: seq<nat>)
    ensures CompareKickers(a, b) > 0 <==> exists i :: HigherAt(a, b, i)
  {
    if a != [] && b != [] {
      if a[0] == b[0] {
        KickersExactly(a[1..], b[1..]);
        forall i ensures HigherAt(a, b, i) <==> i > 0 && HigherAt(a[1..], b[1..], i - 1) {
          HigherShifts(a, b, i);
        }
        if j :| HigherAt(a[1..], b[1..], j) {
          assert HigherAt(a, b, j + 1);
        }
      } else {
        assert a[..0] == b[..0];
        assert a[0] > b[0] ==> HigherAt(a, b, 0);
        forall i | HigherAt(a, b, i) ensures i == 0 {
          HeadsAgree(a, b, i);
        }
      }
    }
  }

  /** A hand is better exactly if its category is higher, or the first kicker that differs is. */
  lemma CompareExactly(a: Hand, b: Hand)
    ensures Compare(a, b) > 0 <==>
            a.rank > b.rank || (a.rank == b.rank && exists i :: HigherAt(a.kickers, b.kickers, i))
  {
    KickersExactly(a.kickers, b.kickers);
  }
}
