// When the evaluator finds nothing in seven cards (internal/game/hand_eval.go:44-101): exactly
// when they hold no pair, no straight and no flush, and then all such hands tie.
module HighCards {
  import opened Cards
  import opened HandEval

  predicate DistinctRanks(cards: seq<Card>) {
    forall i, j :: 0 <= i < j < |cards| ==> cards[i].rank != cards[j].rank
  }

  /** No two ranks are more than four apart. */
  predicate Close(cards: seq<Card>) {
    forall i, j :: 0 <= i < |cards| && 0 <= j < |cards| ==> cards[i].rank <= cards[j].rank + 4
  }

  predicate WheelRank(r: nat) {
    r == ACE || 2 <= r <= 5
  }

  predicate WheelRanks(cards: seq<Card>) {
    forall i :: 0 <= i < |cards| ==> WheelRank(cards[i].rank)
  }

  /** Five cards of different ranks that make neither a straight nor a flush. */
  predicate Unmade(five: seq<Card>) {
    !IsFlush(five) && !Close(five) && !WheelRanks(five)
  }

  /** Different real cards. */
  predicate FromDeck(cards: seq<Card>) {
    && (forall i :: 0 <= i < |cards| ==> Dealt(cards[i]))
    && forall i, j :: 0 <= i < j < |cards| ==> cards[i] != cards[j]
  }

  // ----------------------------------------------------------------------- sorted ranks

  predicate Falling(r: seq<nat>) {
    forall i, j :: 0 <= i < j < |r| ==> r[i] >= r[j]
  }

  function Ranks(cards: seq<Card>): (r: seq<nat>)
    ensures |r| == |cards|
  {
    seq(|cards|, i requires 0 <= i < |cards| => cards[i].rank)
  }

  lemma {:induction false} InsertFalls(r: nat, s: seq<nat>)
    requires Falling(s)
    ensures Falling(InsertRank(r, s))
    ensures InsertRank(r, s)[0] == if s == [] || r >= s[0] then r else s[0]
  {
    if s != [] && r < s[0] {
      InsertFalls(r, s[1..]);
      var t := InsertRank(r, s[1..]);
      assert forall j :: 0 <= j < |t| ==> ([s[0]] + t)[j + 1] == t[j];
      assert forall j :: 0 <= j < |t| ==> t[j] <= t[0];
    }
  }

  lemma {:induction false} InsertContents(r: nat, s: seq<nat>)
    ensures multiset(InsertRank(r, s)) == multiset(s) + multiset{r}
  {
    if s != [] && r < s[0] {
      InsertContents(r, s[1..]);
      assert s == [s[0]] + s[1..];
    }
  }

  lemma {:induction false} SortedRanksFall(cards: seq<Card>)
    ensures Falling(SortedRanks(cards)) && multiset(SortedRanks(cards)) == multiset(Ranks(cards))
  {
    if cards != [] {
      SortedRanksFall(cards[1..]);
      InsertFalls(cards[0].rank, SortedRanks(cards[1..]));
      InsertContents(cards[0].rank, SortedRanks(cards[1..]));
      RanksTail(cards);
    }
  }

  lemma RanksTail(cards: seq<Card>)
    requires cards != []
    ensures multiset(Ranks(cards)) == multiset(Ranks(cards[1..])) + multiset{cards[0].rank}
  {
    assert Ranks(cards) == [cards[0].rank] + Ranks(cards[1..]);
  }

  predicate Differing(r: seq<nat>) {
    forall i, j :: 0 <= i < j < |r| ==> r[i] != r[j]
  }

  lemma {:induction false} DifferingIsCounted(r: seq<nat>)
    ensures Differing(r) <==> forall x :: multiset(r)[x] <= 1
  {
    if r != [] {
      var rest := r[1..];
      DifferingIsCounted(rest);
      assert r == [r[0]] + rest;
      assert forall i :: 0 <= i < |rest| ==> rest[i] == r[i + 1];
      assert forall x :: multiset(r)[x] == (if x == r[0] then 1 else 0) + multiset(rest)[x];
      if r[0] in rest {
        var k :| 0 <= k < |rest| && rest[k] == r[0];
        assert r[0] == r[k + 1] && multiset(r)[r[0]] >= 2;
      } else {
        DifferMore(r);
      }
    }
  }

  lemma DifferMore(r: seq<nat>)
    requires r != [] && r[0] !in r[1..]
    ensures Differing(r) <==> Differing(r[1..])
  {
    var rest := r[1..];
    assert forall i :: 0 <= i < |rest| ==> rest[i] == r[i + 1];
    if Differing(rest) {
      forall i, j | 0 <= i < j < |r| ensures r[i] != r[j] {
        assert r[j] == rest[j - 1] && (i > 0 ==> r[i] == rest[i - 1]);
      }
    }
  }

  lemma SortedDiffer(cards: seq<Card>)
    ensures Differing(SortedRanks(cards)) <==> DistinctRanks(cards)
  {
    SortedRanksFall(cards);
    DifferingIsCounted(SortedRanks(cards));
    DifferingIsCounted(Ranks(cards));
    RanksDiffer(cards);
  }

  lemma RanksDiffer(cards: seq<Card>)
    ensures DistinctRanks(cards) <==> Differing(Ranks(cards))
  {
    if Differing(Ranks(cards)) {
      forall i, j | 0 <= i < j < |cards| ensures cards[i].rank != cards[j].rank {
        assert Ranks(cards)[i] != Ranks(cards)[j];
      }
    }
  }

  lemma SameMembers(r: seq<nat>, s: seq<nat>)
    requires multiset(r) == multiset(s)
    ensures forall x :: x in r <==> x in s
  {
    forall x ensures x in r <==> x in s {
      assert x in r <==> x in multiset(r);
      assert x in s <==> x in multiset(s);
    }
  }

  /** A property of all sorted ranks is one of all cards. */
  lemma SortedHave(cards: seq<Card>, P: nat -> bool)
    ensures (forall i :: 0 <= i < |cards| ==> P(cards[i].rank)) <==> forall i :: 0 <= i < |cards| ==>
              P(SortedRanks(cards)[i])
  {
    var r, s := Ranks(cards), SortedRanks(cards);
    SortedRanksFall(cards);
    SameMembers(r, s);
    HaveAlike(r, s, P);
    assert forall i :: 0 <= i < |cards| ==> r[i] == cards[i].rank;
  }

  lemma HaveAlike(r: seq<nat>, s: seq<nat>, P: nat -> bool)
    requires forall x :: x in r <==> x in s
    ensures (forall i :: 0 <= i < |r| ==> P(r[i])) <==> forall i :: 0 <= i < |s| ==> P(s[i])
  {
    assert forall i :: 0 <= i < |r| ==> r[i] in s;
    assert forall i :: 0 <= i < |s| ==> s[i] in r;
  }

  // -------------------------------------------------------------------------- straights

  /** Five falling ranks make a straight exactly if they lie within five, or are the wheel. */
  lemma StraightIs(r: seq<nat>)
    requires |r| == 5 && Falling(r) && Differing(r)
    ensures StraightHigh(r) > 0 <==> r[0] <= r[4] + 4 || forall i :: 0 <= i < 5 ==> WheelRank(r[i])
  {
    assert r[0] > r[1] > r[2] > r[3] > r[4];
    if forall i :: 0 <= i < 5 ==> WheelRank(r[i]) {
      assert r == [ACE, 5, 4, 3, 2];
    }
  }

  lemma CloseIs(cards: seq<Card>, r: seq<nat>)
    requires |cards| == 5 && r == SortedRanks(cards)
    ensures Close(cards) <==> r[0] <= r[4] + 4
  {
    SortedRanksFall(cards);
    var top, low := r[0], r[4];
    SortedHave(cards, x => x <= top);
    SortedHave(cards, x => low <= x);
    assert top in multiset(r) && low in multiset(r);
    var i :| 0 <= i < 5 && Ranks(cards)[i] == top;
    var j :| 0 <= j < 5 && Ranks(cards)[j] == low;
    assert cards[i].rank == top && cards[j].rank == low;
  }

  lemma StraightOf(cards: seq<Card>)
    requires |cards| == 5 && DistinctRanks(cards)
    ensures StraightHigh(SortedRanks(cards)) > 0 <==> Close(cards) || WheelRanks(cards)
  {
    var r := SortedRanks(cards);
    SortedRanksFall(cards);
    SortedDiffer(cards);
    StraightIs(r);
    CloseIs(cards, r);
    SortedHave(cards, WheelRank);
  }

  // ----------------------------------------------------------------------------- groups

  lemma {:induction false} RunIsEqual(r: seq<nat>)
    requires Falling(r)
    ensures forall i :: 0 <= i < RunLength(r) ==> r[i] == r[0]
    ensures RunLength(r) < |r| ==> r[RunLength(r)] != r[0]
  {
    if |r| > 1 && r[1] == r[0] {
      RunIsEqual(r[1..]);
    }
  }

  lemma {:induction false} BiggestFirst(gs: seq<Group>, k: nat)
    requires GroupsOrdered(gs) && k < |gs|
    ensures gs[k].count <= gs[0].count
  {
    if k > 0 {
      BiggestFirst(gs, k - 1);
    }
  }

  lemma {:induction false} InsertHas(g: Group, gs: seq<Group>)
    ensures g in InsertGroup(g, gs) && forall h :: h in gs ==> h in InsertGroup(g, gs)
  {
    if gs != [] && !Precedes(g, gs[0]) {
      InsertHas(g, gs[1..]);
      assert gs == [gs[0]] + gs[1..];
    }
  }

  /** Equal ranks are in a group of two or more. */
  lemma {:induction false} RepeatsGroup(r: seq<nat>)
    requires Falling(r) && !Differing(r)
    ensures exists g :: g in Groups(r) && g.count >= 2
    decreases |r|
  {
    var n, rest := RunLength(r), r[RunLength(r)..];
    InsertHas(Group(r[0], n), Groups(rest));
    if n == 1 {
      RunIsEqual(r);
      assert Falling(rest) && !Differing(rest) by {
        var i, j :| 0 <= i < j < |r| && r[i] == r[j];
        assert forall k :: 0 <= k < |rest| ==> rest[k] == r[k + 1];
        assert i > 0;
      }
      RepeatsGroup(rest);
    }
  }

  lemma FirstIsNotAll(gs: seq<Group>)
    requires GroupsOrdered(gs)
    ensures |gs| > 1 ==> CountSum(gs) > gs[0].count
  {
    if |gs| > 1 {
      assert gs[1..][0] == gs[1];
    }
  }

  lemma OneGroup(r: seq<nat>)
    requires Falling(r) && r != [] && CountAt(Groups(r), 0) == |r|
    ensures forall i :: 0 <= i < |r| ==> r[i] == r[0]
  {
    GroupsAreOrdered(r);
    FirstIsNotAll(Groups(r));
    TwoGroups(r);
    RunIsEqual(r);
  }

  lemma TwoGroups(r: seq<nat>)
    requires r != []
    ensures RunLength(r) < |r| ==> |Groups(r)| >= 2
  {
    if RunLength(r) < |r| {
      assert r[RunLength(r)..] != [];
    }
  }

  /**
   * The largest group of five falling ranks has one card exactly if all ranks differ, and
   * five only if all are equal.
   */
  lemma LargestGroup(r: seq<nat>)
    requires |r| == 5 && Falling(r)
    ensures 1 <= CountAt(Groups(r), 0) <= 5
    ensures CountAt(Groups(r), 0) == 1 <==> Differing(r)
    ensures CountAt(Groups(r), 0) == 5 ==> forall i :: 0 <= i < 5 ==> r[i] == r[0]
  {
    var gs := Groups(r);
    GroupsAreOrdered(r);
    if Differing(r) {
      SinglesGroup(r);
    } else {
      RepeatsGroup(r);
      var g :| g in gs && g.count >= 2;
      var k :| 0 <= k < |gs| && gs[k] == g;
      BiggestFirst(gs, k);
    }
    if CountAt(gs, 0) == 5 {
      OneGroup(r);
    }
  }

  // ------------------------------------------------------------------------- five cards

  lemma TwoOfASuit(five: seq<Card>) returns (i: nat, j: nat)
    requires |five| == 5 && FromDeck(five)
    ensures i < j < 5 && five[i].suit == five[j].suit
  {
    assert exists i, j :: 0 <= i < j < 5 && five[i].suit == five[j].suit by {
      FourSuits(five[0].suit, five[1].suit, five[2].suit, five[3].suit, five[4].suit);
    }
    i, j :| i < j < 5 && five[i].suit == five[j].suit;
  }

  lemma FourSuits(a: nat, b: nat, c: nat, d: nat, e: nat)
    requires a <= 3 && b <= 3 && c <= 3 && d <= 3 && e <= 3
    ensures a == b || a == c || a == d || a == e || b == c || b == d || b == e || c == d || c == e || d == e
  {
  }

  lemma GroupedRank(gs: seq<Group>, ranks: seq<nat>, flush: bool, high: nat)
    ensures ByGroups(gs, ranks, flush, high).rank == HIGH_CARD <==> !flush && high == 0 && !(2 <= CountAt(gs, 0) <= 4)
  {
  }

  lemma HighCardMeans(five: seq<Card>)
    requires |five| == 5
    ensures Evaluate5(five).rank == HIGH_CARD <==>
            && !IsFlush(five) && StraightHigh(SortedRanks(five)) == 0
            && !(2 <= CountAt(Groups(SortedRanks(five)), 0) <= 4)
  {
    var ranks := SortedRanks(five);
    GroupedRank(Groups(ranks), ranks, IsFlush(five), StraightHigh(ranks));
  }

  /** Five cards are only a high card exactly if their ranks differ and they are neither a straight nor a flush. */
  lemma FiveIsHighCardExactly(five: seq<Card>)
    requires |five| == 5 && FromDeck(five)
    ensures Evaluate5(five).rank == HIGH_CARD <==> DistinctRanks(five) && Unmade(five)
  {
    var r := SortedRanks(five);
    HighCardMeans(five);
    SortedRanksFall(five);
    SortedDiffer(five);
    LargestGroup(r);
    var i, j := TwoOfASuit(five);
    assert five[i].rank != five[j].rank;
    var top := r[0];
    SortedHave(five, x => x == top);
    if DistinctRanks(five) {
      StraightOf(five);
    }
  }

  // ------------------------------------------------------------------------ seven cards

  lemma ChoiceOf(c: seq<Card>, x: nat, y: nat, m: nat)
    requires |c| == 7 && x < y < 7 && m < 5
    ensures KeptFrom(x, y, m) < 7 && FiveOf(c, x, y)[m] == c[KeptFrom(x, y, m)]
  {
    KeptAt(c, x, y, 7, m);
  }

  lemma ChoiceFromDeck(c: seq<Card>, x: nat, y: nat)
    requires |c| == 7 && FromDeck(c) && x < y < 7
    ensures FromDeck(FiveOf(c, x, y)) && (DistinctRanks(c) ==> DistinctRanks(FiveOf(c, x, y)))
  {
    var f := FiveOf(c, x, y);
    forall m | 0 <= m < 5 ensures KeptFrom(x, y, m) < 7 && f[m] == c[KeptFrom(x, y, m)] {
      ChoiceOf(c, x, y, m);
    }
  }

  /** A pair among seven cards is in some choice of five. */
  lemma PairIsChosen(c: seq<Card>, i: nat, j: nat) returns (x: nat, y: nat)
    requires |c| == 7 && i < j < 7 && c[i].rank == c[j].rank
    ensures x < y < 7 && !DistinctRanks(FiveOf(c, x, y))
  {
    x := if i > 0 then 0 else if j > 1 then 1 else 2;
    y := if j < 6 then 6 else if i < 5 then 5 else 4;
    var m := if i < x then i else if i < y then i - 1 else i - 2;
    var n := if j < x then j else if j < y then j - 1 else j - 2;
    ChoiceOf(c, x, y, m);
    ChoiceOf(c, x, y, n);
    assert KeptFrom(x, y, m) == i && KeptFrom(x, y, n) == j;
  }

  /** Seven cards without a pair of which no five make a straight or a flush. */
  ghost predicate NothingMade(c: seq<Card>)
    requires |c| == 7
  {
    DistinctRanks(c) && forall x: nat, y: nat :: x < y < 7 ==> Unmade(FiveOf(c, x, y))
  }

  /**
   * The evaluator returns a high card without kickers exactly when the seven cards hold no
   * pair, no straight and no flush.
   */
  lemma Best7IsNothingExactly(c: seq<Card>)
    requires |c| == 7 && FromDeck(c)
    ensures EvaluateBest7(c) == NOTHING <==> NothingMade(c)
  {
    Best7IsAttained(c);
    forall x: nat, y: nat | x < y < 7
      ensures FiveHands(c)(x, y).rank == HIGH_CARD <==> DistinctRanks(FiveOf(c, x, y)) && Unmade(FiveOf(c, x, y))
      ensures DistinctRanks(c) ==> DistinctRanks(FiveOf(c, x, y))
    {
      ChoiceFromDeck(c, x, y);
      FiveIsHighCardExactly(FiveOf(c, x, y));
    }
    if !DistinctRanks(c) {
      var i: nat, j: nat :| i < j < 7 && c[i].rank == c[j].rank;
      var x, y := PairIsChosen(c, i, j);
      assert FiveHands(c)(x, y).rank != HIGH_CARD;
    }
  }

  /** So the cards of two such hands are never compared: they tie, whichever has the higher cards. */
  lemma HighCardsTie(a: seq<Card>, b: seq<Card>)
    requires |a| == |b| == 7 && FromDeck(a) && FromDeck(b) && NothingMade(a) && NothingMade(b)
    ensures Compare(EvaluateBest7(a), EvaluateBest7(b)) == 0
  {
    Best7IsNothingExactly(a);
    Best7IsNothingExactly(b);
  }
}
