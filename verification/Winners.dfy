// Who wins a pot and how it is split (internal/game/machine.go:364-449).
module Winners {
  import opened Cards
  import opened GameState
  import opened HandEval
  import opened Pots
  import opened Rounds
  import opened Rules
  import opened Settlement
  import opened Wrappers

  /** The results are comparable: any two of the same rank carry the same number of kickers. */
  ghost predicate Comparable(ev: Evaluator) {
    forall s: seq<Card> {:trigger ev(s)} :: |s| == 7 ==> Shaped(ev(s))
  }

  lemma Best7IsComparable()
    ensures Comparable(BEST7)
  {
    forall s: seq<Card> | |s| == 7 ensures Shaped(BEST7(s)) {
      Best7Unbeaten(s, 0, 1);
    }
  }

  predicate Contender(seats: seq<Seat>, eligible: seq<string>, i: nat) {
    i < |seats| && seats[i].id in eligible && seats[i].status != Folded
  }

  function HandOf(ev: Evaluator, seats: seq<Seat>, board: seq<Card>, i: nat): Hand
    requires i < |seats|
  {
    ev(Seven(seats[i], board))
  }

  ghost predicate Strongest(ev: Evaluator, seats: seq<Seat>, board: seq<Card>, eligible: seq<string>, i: nat) {
    && Contender(seats, eligible, i)
    && forall j: nat :: Contender(seats, eligible, j) ==>
        Compare(HandOf(ev, seats, board, j), HandOf(ev, seats, board, i)) <= 0
  }

  // ------------------------------------------------------------------- the candidates

  lemma {:induction false} CandidatesAre(ev: Evaluator, seats: seq<Seat>, board: seq<Card>, eligible: seq<string>,
      i: nat)
    requires DistinctIDs(seats) && i < |seats|
    ensures var cands := Candidates(ev, seats, board, eligible);
            && (Contender(seats, eligible, i) ==> Entry(i, HandOf(ev, seats, board, i)) in cands)
            && (forall k :: 0 <= k < |cands| && cands[k].seat == i ==>
                  Contender(seats, eligible, i) && cands[k].hand == HandOf(ev, seats, board, i))
  {
    if eligible != [] {
      CandidatesAre(ev, seats, board, eligible[1..], i);
      SeatIndexFromIs(seats, eligible[0], 0);
      SeatIndexOf(seats, i);
      var rest := Candidates(ev, seats, board, eligible[1..]);
      var cands := Candidates(ev, seats, board, eligible);
      forall k | 0 <= k < |cands| && cands[k].seat == i
        ensures Contender(seats, eligible, i) && cands[k].hand == HandOf(ev, seats, board, i)
      {
        if cands != rest && k > 0 {
          assert cands[k] == rest[k - 1];
        }
      }
    }
  }

  ghost predicate AllShaped(cands: seq<Entry>) {
    forall k :: 0 <= k < |cands| ==> Shaped(cands[k].hand)
  }

  lemma {:induction false} CandidatesShaped(ev: Evaluator, seats: seq<Seat>, board: seq<Card>, eligible: seq<string>)
    requires Comparable(ev)
    ensures AllShaped(Candidates(ev, seats, board, eligible))
  {
    if eligible != [] {
      CandidatesShaped(ev, seats, board, eligible[1..]);
      SeatIndexFromIs(seats, eligible[0], 0);
    }
  }

  /** The scan ends with a hand that no candidate beats. */
  lemma {:induction false} BestIsTop(cands: seq<Entry>, best: Hand)
    requires AllShaped(cands) && Shaped(best)
    ensures Shaped(BestOf(cands, best)) && Compare(best, BestOf(cands, best)) <= 0
    ensures forall k :: 0 <= k < |cands| ==> Compare(cands[k].hand, BestOf(cands, best)) <= 0
    decreases |cands|
  {
    if cands == [] {
      CompareTotalPreorder(best, best, best);
    } else {
      var h := cands[0].hand;
      var next := if Compare(h, best) > 0 then h else best;
      assert forall k :: 0 <= k < |cands[1..]| ==> cands[1..][k] == cands[k + 1];
      BestIsTop(cands[1..], next);
      var top := BestOf(cands, best);
      CompareTotalPreorder(h, next, top);
      CompareTotalPreorder(best, next, top);
      CompareTotalPreorder(h, best, h);
      CompareTotalPreorder(best, h, best);
      CompareTotalPreorder(h, h, h);
      CompareTotalPreorder(best, best, best);
    }
  }

  lemma {:induction false} MatchingAre(cands: seq<Entry>, best: Hand, i: nat)
    ensures i in Matching(cands, best) <==>
              exists k :: 0 <= k < |cands| && cands[k].seat == i && Compare(cands[k].hand, best) == 0
    decreases |cands|
  {
    if cands != [] {
      MatchingAre(cands[1..], best, i);
      assert forall k :: 0 <= k < |cands[1..]| ==> cands[1..][k] == cands[k + 1];
      if k :| 0 <= k < |cands| && cands[k].seat == i && Compare(cands[k].hand, best) == 0 {
        assert k > 0 ==> cands[1..][k - 1] == cands[k];
      }
    }
  }

  ghost predicate Unbeaten(cands: seq<Entry>, h: Hand) {
    forall j :: 0 <= j < |cands| ==> Compare(cands[j].hand, h) <= 0
  }

  lemma TiesWithTop(cands: seq<Entry>, k: nat)
    requires k < |cands| && AllShaped(cands)
    ensures Compare(cands[k].hand, BestOf(cands[1..], cands[0].hand)) == 0 <==>
            Unbeaten(cands, cands[k].hand)
  {
    var best := BestOf(cands[1..], cands[0].hand);
    assert forall j :: 0 <= j < |cands[1..]| ==> cands[1..][j] == cands[j + 1];
    BestIsTop(cands[1..], cands[0].hand);
    BestIsOne(cands[1..], cands[0].hand);
    forall j | 0 <= j < |cands| ensures Compare(cands[j].hand, best) <= 0 {
      assert j > 0 ==> cands[1..][j - 1] == cands[j];
    }
    if Compare(cands[k].hand, best) == 0 {
      forall j | 0 <= j < |cands| ensures Compare(cands[j].hand, cands[k].hand) <= 0 {
        CompareTotalPreorder(cands[j].hand, best, cands[k].hand);
        CompareTotalPreorder(best, cands[k].hand, best);
      }
    } else if Unbeaten(cands, cands[k].hand) {
      var m := 0;
      if best != cands[0].hand {
        var j :| 0 <= j < |cands[1..]| && cands[1..][j].hand == best;
        m := j + 1;
      }
      assert Compare(cands[m].hand, cands[k].hand) <= 0;
      CompareTotalPreorder(best, cands[k].hand, best);
      assert false;
    }
  }

  lemma EntriesAre(ev: Evaluator, seats: seq<Seat>, board: seq<Card>, eligible: seq<string>, cands: seq<Entry>)
    requires DistinctIDs(seats) && cands == Candidates(ev, seats, board, eligible)
    ensures forall j: nat :: j < |seats| && Contender(seats, eligible, j) ==>
              Entry(j, HandOf(ev, seats, board, j)) in cands
    ensures forall m :: 0 <= m < |cands| ==>
              && Contender(seats, eligible, cands[m].seat)
              && cands[m].hand == HandOf(ev, seats, board, cands[m].seat)
  {
    forall j: nat | j < |seats| && Contender(seats, eligible, j)
        ensures Entry(j, HandOf(ev, seats, board, j)) in cands {
      CandidatesAre(ev, seats, board, eligible, j);
    }
    forall m | 0 <= m < |cands|
      ensures Contender(seats, eligible, cands[m].seat) && cands[m].hand == HandOf(ev, seats, board, cands[m].seat)
    {
      CandidatesAre(ev, seats, board, eligible, cands[m].seat);
    }
  }

  /** The winners of a pot are exactly its unfolded eligible seats that no other such seat beats. */
  lemma WinnersAreStrongest(ev: Evaluator, seats: seq<Seat>, board: seq<Card>, eligible: seq<string>, i: nat)
    requires DistinctIDs(seats) && Comparable(ev)
    ensures i in PotWinners(ev, seats, board, eligible) <==> Strongest(ev, seats, board, eligible, i)
  {
    var cands := Candidates(ev, seats, board, eligible);
    CandidatesShaped(ev, seats, board, eligible);
    EntriesAre(ev, seats, board, eligible, cands);
    if cands != [] {
      MatchingAre(cands, BestOf(cands[1..], cands[0].hand), i);
      forall k | 0 <= k < |cands| && cands[k].seat == i
        ensures Compare(cands[k].hand, BestOf(cands[1..], cands[0].hand)) == 0 <==>
                  Strongest(ev, seats, board, eligible, i)
      {
        TiesWithTop(cands, k);
        StrongestAmong(ev, seats, board, eligible, cands, k, i);
      }
      if Strongest(ev, seats, board, eligible, i) {
        var k :| 0 <= k < |cands| && cands[k] == Entry(i, HandOf(ev, seats, board, i));
        assert cands[k].seat == i;
      }
    }
  }

  lemma StrongestAmong(ev: Evaluator, seats: seq<Seat>, board: seq<Card>, eligible: seq<string>, cands: seq<Entry>,
      k: nat, i: nat)
    requires k < |cands| && cands[k].seat == i && forall m :: 0 <= m < |cands| ==> cands[m].seat < |seats|
    requires forall j: nat :: j < |seats| && Contender(seats, eligible, j) ==>
              Entry(j, HandOf(ev, seats, board, j)) in cands
    requires forall m :: 0 <= m < |cands| ==>
               Contender(seats, eligible, cands[m].seat) && cands[m].hand == HandOf(ev, seats, board, cands[m].seat)
    ensures Unbeaten(cands, cands[k].hand) <==> Strongest(ev, seats, board, eligible, i)
  {
    if Unbeaten(cands, cands[k].hand) {
      forall j: nat | Contender(seats, eligible, j)
        ensures Compare(HandOf(ev, seats, board, j), HandOf(ev, seats, board, i)) <= 0
      {
        var m :| 0 <= m < |cands| && cands[m] == Entry(j, HandOf(ev, seats, board, j));
        assert Compare(cands[m].hand, cands[k].hand) <= 0;
      }
    } else if Strongest(ev, seats, board, eligible, i) {
      forall j | 0 <= j < |cands| ensures Compare(cands[j].hand, cands[k].hand) <= 0 {
        assert Contender(seats, eligible, cands[j].seat);
      }
    }
  }

  // ------------------------------------------------------------------------ the shares

  predicate NamedOnce(s: seq<string>) {
    forall i, j :: 0 <= i < j < |s| ==> s[i] != s[j]
  }

  predicate SeatedOnce(s: seq<nat>) {
    forall i, j :: 0 <= i < j < |s| ==> s[i] != s[j]
  }

  predicate EntriesOnce(cands: seq<Entry>) {
    forall k, l :: 0 <= k < l < |cands| ==> cands[k].seat != cands[l].seat
  }

  predicate EntriesNamed(seats: seq<Seat>, cands: seq<Entry>, ids: seq<string>) {
    forall k :: 0 <= k < |cands| ==> cands[k].seat < |seats| && seats[cands[k].seat].id in ids
  }

  lemma {:induction false} CandidatesDistinct(ev: Evaluator, seats: seq<Seat>, board: seq<Card>, eligible: seq<string>)
    requires NamedOnce(eligible)
    ensures EntriesNamed(seats, Candidates(ev, seats, board, eligible), eligible)
    ensures EntriesOnce(Candidates(ev, seats, board, eligible))
  {
    if eligible != [] {
      assert forall i :: 0 <= i < |eligible[1..]| ==> eligible[1..][i] == eligible[i + 1];
      CandidatesDistinct(ev, seats, board, eligible[1..]);
      SeatIndexFromIs(seats, eligible[0], 0);
      assert eligible[0] !in eligible[1..];
      var rest := Candidates(ev, seats, board, eligible[1..]);
      forall k | 0 <= k < |rest| ensures seats[rest[k].seat].id in eligible && seats[rest[k].seat].id != eligible[0] {
        assert seats[rest[k].seat].id in eligible[1..];
      }
      var idx := SeatIndex(seats, eligible[0]);
      if idx != -1 && seats[idx].status != Folded {
        assert Candidates(ev, seats, board, eligible) == [Entry(idx, HandOf(ev, seats, board, idx))] + rest;
      } else {
        assert Candidates(ev, seats, board, eligible) == rest;
      }
    }
  }

  lemma {:induction false} MatchingDistinct(cands: seq<Entry>, best: Hand)
    requires EntriesOnce(cands)
    ensures SeatedOnce(Matching(cands, best))
    decreases |cands|
  {
    if cands != [] {
      assert forall i :: 0 <= i < |cands[1..]| ==> cands[1..][i] == cands[i + 1];
      MatchingDistinct(cands[1..], best);
      MatchingAre(cands[1..], best, cands[0].seat);
    }
  }

  lemma {:induction false} SharesGo(b: Bank, winners: seq<nat>, share: int, i: nat)
    requires SeatedOnce(winners) && i < |b.seats| && forall k :: 0 <= k < |winners| ==> winners[k] < |b.seats|
    ensures PayEach(b, winners, share).seats[i].stack == b.seats[i].stack + if i in winners then share else 0
    decreases |winners|
  {
    if winners != [] {
      assert forall k :: 0 <= k < |winners[1..]| ==> winners[1..][k] == winners[k + 1];
      SharesGo(PayOne(b, winners[0], share), winners[1..], share, i);
    }
  }

  /** Of the winners, the nearest to the dealer's left. */
  predicate NearestLeft(dealer: nat, winners: seq<nat>, n: nat, c: nat) {
    c in winners && forall k :: 0 <= k < |winners| ==> Gap(dealer, c, n) <= Gap(dealer, winners[k], n)
  }

  lemma {:induction false} ClosestFromIs(seats: seq<Seat>, dealer: nat, winners: seq<nat>, i: nat)
    requires winners != [] && DistinctIDs(seats) && dealer < |seats| && 1 <= i <= |seats| + 1
    requires forall k :: 0 <= k < |winners| ==> winners[k] < |seats| && Gap(dealer, winners[k], |seats|) >= i
    ensures NearestLeft(dealer, winners, |seats|, ClosestFrom(seats, dealer, winners, i))
    decreases |seats| + 1 - i
  {
    assert i <= Gap(dealer, winners[0], |seats|) <= |seats|;
    if i > |seats| {
      assert false;
    } else {
      var idx := Around(dealer, i, |seats|);
      AroundIs(dealer, i, |seats|);
      SeatIndexOf(seats, idx);
      var w := WinnerWithID(seats, winners, seats[idx].id);
      if w.Some? {
        SeatIndexOf(seats, w.value);
      } else {
        forall k | 0 <= k < |winners| ensures Gap(dealer, winners[k], |seats|) >= i + 1 {
          assert winners[k] != idx;
        }
        ClosestFromIs(seats, dealer, winners, i + 1);
      }
    }
  }

  /** What seat i gains from a pot. */
  function Gain(pot: Pot, winners: seq<nat>, closest: nat, i: nat): int
    requires winners != []
  {
    if i !in winners then 0
    else pot.amount / |winners| + if i == closest then pot.amount % |winners| else 0
  }

  /** A pot is split equally among its winners; what does not divide goes to the first of them left of the dealer. */
  lemma PotIsSplit(ev: Evaluator, dealer: nat, board: seq<Card>, b: Bank, pot: Pot, i: nat) returns (closest: nat)
    requires DistinctIDs(b.seats) && dealer < |b.seats| && i < |b.seats| && NamedOnce(pot.eligible)
    requires !Dead(b.seats, pot)
    ensures var winners := PotWinners(ev, b.seats, board, pot.eligible);
            && winners != [] && SeatedOnce(winners) && NearestLeft(dealer, winners, |b.seats|, closest)
            && PayPot(ev, dealer, board, b, pot).seats[i].stack == b.seats[i].stack + Gain(pot, winners, closest, i)
  {
    WinnersExist(ev, b.seats, board, pot);
    var cands := Candidates(ev, b.seats, board, pot.eligible);
    var winners := PotWinners(ev, b.seats, board, pot.eligible);
    CandidatesDistinct(ev, b.seats, board, pot.eligible);
    MatchingDistinct(cands, BestOf(cands[1..], cands[0].hand));
    closest := WinnersSplit(dealer, b, winners, pot.amount / |winners|, pot.amount % |winners|, i);
    DivMod(pot.amount, |winners|);
  }

  lemma WinnersSplit(dealer: nat, b: Bank, winners: seq<nat>, share: int, remainder: int, i: nat) returns (closest: nat)
    requires DistinctIDs(b.seats) && dealer < |b.seats| && i < |b.seats| && remainder >= 0
    requires winners != [] && SeatedOnce(winners) && forall k :: 0 <= k < |winners| ==> winners[k] < |b.seats|
    ensures NearestLeft(dealer, winners, |b.seats|, closest)
    ensures PayWinners(dealer, b, winners, share, remainder).seats[i].stack ==
            b.seats[i].stack + (if i in winners then share else 0) + (if i == closest then remainder else 0)
  {
    var paid := PayEach(b, winners, share);
    PayEachIs(b, winners, share);
    SameIDs(b.seats, paid.seats);
    SharesGo(b, winners, share, i);
    forall k | 0 <= k < |winners| ensures Gap(dealer, winners[k], |b.seats|) >= 1 {
    }
    ClosestFromIs(paid.seats, dealer, winners, 1);
    closest := ClosestLeft(paid.seats, dealer, winners);
  }

  lemma {:induction false} LayersDistinct(cs: seq<Contrib>, prev: int)
    requires DistinctContribs(cs)
    ensures forall j :: 0 <= j < |Layers(cs, prev)| ==> NamedOnce(Layers(cs, prev)[j].eligible)
  {
    if cs != [] {
      assert forall i :: 0 <= i < |cs[1..]| ==> cs[1..][i] == cs[i + 1];
      LayersDistinct(cs[1..], if cs[0].bet == prev then prev else cs[0].bet);
    }
  }

  /** The eligible lists that CalculatePots makes name each seat at most once. */
  lemma PotsNameOnce(seats: seq<Seat>)
    requires DistinctIDs(seats)
    ensures forall j :: 0 <= j < |CalculatePots(seats)| ==> NamedOnce(CalculatePots(seats)[j].eligible)
  {
    MergeIsIdentity(seats);
    ContribsDistinct(seats);
    DistinctBySort(Contribs(seats));
    LayersDistinct(SortByBet(Contribs(seats)), 0);
  }
}
