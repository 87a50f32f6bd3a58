// Paying out (internal/game/machine.go:332-449): where the chips of a hand go.
module Settlement {
  import opened Cards
  import opened GameState
  import opened HandEval
  import opened Pots
  import opened Rules
  import opened Wrappers

  /** b is a but for the stacks. */
  predicate SameButStacks(a: seq<Seat>, b: seq<Seat>) {
    |a| == |b| && forall i :: 0 <= i < |a| ==> b[i] == a[i].(stack := b[i].stack)
  }

  /** Every stack has grown by what the payouts record says its owner won. */
  predicate RecordsGains(a: Bank, b: Bank) {
    && SameButStacks(a.seats, b.seats)
    && forall i :: 0 <= i < |a.seats| ==>
         b.seats[i].stack - a.seats[i].stack == PaidTo(b, a.seats[i].id) - PaidTo(a, a.seats[i].id)
  }

  function PaidTo(b: Bank, id: string): int {
    if id in b.payouts then b.payouts[id] else 0
  }

  lemma PayOneIs(b: Bank, i: nat, x: int)
    requires i < |b.seats| && DistinctIDs(b.seats)
    ensures var r := PayOne(b, i, x); Stacks(r.seats) == Stacks(b.seats) + x && RecordsGains(b, r)
  {
    SumUpdate(Stack, b.seats, i, b.seats[i].(stack := b.seats[i].stack + x));
    forall j | 0 <= j < |b.seats| && j != i ensures b.seats[j].id != b.seats[i].id {
      assert b.seats[if i < j then i else j].id != b.seats[if i < j then j else i].id;
    }
  }

  lemma GainsTrans(a: Bank, b: Bank, c: Bank)
    requires RecordsGains(a, b) && RecordsGains(b, c)
    ensures RecordsGains(a, c)
  {
  }

  lemma SameIDs(a: seq<Seat>, b: seq<Seat>)
    requires SameButStacks(a, b) && DistinctIDs(a)
    ensures DistinctIDs(b)
  {
  }

  lemma {:induction false} PayEachIs(b: Bank, winners: seq<nat>, share: int)
    requires DistinctIDs(b.seats) && forall k :: 0 <= k < |winners| ==> winners[k] < |b.seats|
    ensures var r := PayEach(b, winners, share);
            Stacks(r.seats) == Stacks(b.seats) + share * |winners| && RecordsGains(b, r)
    decreases |winners|
  {
    if winners != [] {
      var one := PayOne(b, winners[0], share);
      PayOneIs(b, winners[0], share);
      SameIDs(b.seats, one.seats);
      PayEachIs(one, winners[1..], share);
      var all := PayEach(one, winners[1..], share);
      GainsTrans(b, one, all);
      OneShareMore(share, |winners[1..]|, |winners|);
    }
  }

  lemma OneShareMore(share: int, k: nat, n: nat)
    requires n == k + 1
    ensures share * n == share * k + share
  {
  }

  lemma DivMod(x: int, n: nat)
    requires n > 0
    ensures x / n * n + x % n == x && x % n >= 0
  {
  }

  /** The winners of a pot get exactly the pot. */
  lemma PayWinnersIs(dealer: nat, b: Bank, winners: seq<nat>, amount: int)
    requires DistinctIDs(b.seats) && winners != [] && forall k :: 0 <= k < |winners| ==> winners[k] < |b.seats|
    ensures var r := PayWinners(dealer, b, winners, amount / |winners|, amount % |winners|);
            Stacks(r.seats) == Stacks(b.seats) + amount && RecordsGains(b, r)
  {
    var share, remainder := amount / |winners|, amount % |winners|;
    DivMod(amount, |winners|);
    var paid := PayEach(b, winners, share);
    PayEachIs(b, winners, share);
    SameIDs(b.seats, paid.seats);
    if remainder > 0 {
      var c := ClosestLeft(paid.seats, dealer, winners);
      PayOneIs(paid, c, remainder);
      GainsTrans(b, paid, PayOne(paid, c, remainder));
    }
  }

  // --------------------------------------------------------------- a pot that is dead

  /** Nobody who could win the pot is still unfolded. */
  predicate Dead(seats: seq<Seat>, pot: Pot) {
    forall i :: 0 <= i < |seats| && seats[i].id in pot.eligible ==> seats[i].status == Folded
  }

  function DeadChips(seats: seq<Seat>, pots: seq<Pot>): int {
    if pots == [] then 0 else (if Dead(seats, pots[0]) then pots[0].amount else 0) + DeadChips(seats, pots[1..])
  }

  lemma {:induction false} NoCandidates(ev: Evaluator, seats: seq<Seat>, board: seq<Card>, eligible: seq<string>)
    requires DistinctIDs(seats)
    ensures Candidates(ev, seats, board, eligible) == [] <==>
            forall i :: 0 <= i < |seats| && seats[i].id in eligible ==> seats[i].status == Folded
  {
    if eligible != [] {
      NoCandidates(ev, seats, board, eligible[1..]);
      SeatIndexFromIs(seats, eligible[0], 0);
      forall i | 0 <= i < |seats| && seats[i].id == eligible[0] ensures SeatIndex(seats, eligible[0]) == i {
        SeatIndexOf(seats, i);
      }
    }
  }

  lemma {:induction false} KickersSelf(a: seq<nat>)
    ensures CompareKickers(a, a) == 0
  {
    if a != [] {
      KickersSelf(a[1..]);
    }
  }

  lemma {:induction false} BestIsOne(cands: seq<Entry>, best: Hand)
    ensures BestOf(cands, best) == best || exists j :: 0 <= j < |cands| && cands[j].hand == BestOf(cands, best)
    decreases |cands|
  {
    if cands != [] {
      var next := if Compare(cands[0].hand, best) > 0 then cands[0].hand else best;
      BestIsOne(cands[1..], next);
      if j :| 0 <= j < |cands[1..]| && cands[1..][j].hand == BestOf(cands[1..], next) {
        assert cands[j + 1] == cands[1..][j];
      }
    }
  }

  lemma {:induction false} MatchFound(cands: seq<Entry>, best: Hand, j: nat)
    requires j < |cands| && Compare(cands[j].hand, best) == 0
    ensures Matching(cands, best) != []
    decreases |cands|
  {
    if j > 0 {
      MatchFound(cands[1..], best, j - 1);
    }
  }

  lemma StrongestMatches(cands: seq<Entry>)
    requires cands != []
    ensures Matching(cands, BestOf(cands[1..], cands[0].hand)) != []
  {
    var best := BestOf(cands[1..], cands[0].hand);
    BestIsOne(cands[1..], cands[0].hand);
    KickersSelf(best.kickers);
    var j := 0;
    if best != cands[0].hand {
      var m :| 0 <= m < |cands[1..]| && cands[1..][m].hand == best;
      j := m + 1;
    }
    assert cands[j].hand == best;
    MatchFound(cands, best, j);
  }

  /** A pot has winners unless it is dead. */
  lemma WinnersExist(ev: Evaluator, seats: seq<Seat>, board: seq<Card>, pot: Pot)
    requires DistinctIDs(seats)
    ensures PotWinners(ev, seats, board, pot.eligible) == [] <==> Dead(seats, pot)
  {
    NoCandidates(ev, seats, board, pot.eligible);
    var cands := Candidates(ev, seats, board, pot.eligible);
    if cands != [] {
      StrongestMatches(cands);
    }
  }

  lemma PayPotIs(ev: Evaluator, dealer: nat, board: seq<Card>, b: Bank, pot: Pot)
    requires DistinctIDs(b.seats)
    ensures var r := PayPot(ev, dealer, board, b, pot);
            && Stacks(r.seats) == Stacks(b.seats) + (if Dead(b.seats, pot) then 0 else pot.amount)
            && RecordsGains(b, r)
  {
    WinnersExist(ev, b.seats, board, pot);
    var winners := PotWinners(ev, b.seats, board, pot.eligible);
    if winners != [] {
      PayWinnersIs(dealer, b, winners, pot.amount);
    }
  }

  lemma DeadSame(a: seq<Seat>, b: seq<Seat>, pot: Pot)
    requires SameButStacks(a, b)
    ensures Dead(a, pot) == Dead(b, pot)
  {
  }

  lemma {:induction false} DeadChipsSame(a: seq<Seat>, b: seq<Seat>, pots: seq<Pot>)
    requires SameButStacks(a, b)
    ensures DeadChips(a, pots) == DeadChips(b, pots)
  {
    if pots != [] {
      DeadSame(a, b, pots[0]);
      DeadChipsSame(a, b, pots[1..]);
    }
  }

  /** All pots but the dead ones are paid out, and the record says to whom. */
  lemma {:induction false} PayPotsIs(ev: Evaluator, dealer: nat, board: seq<Card>, b: Bank, pots: seq<Pot>)
    requires DistinctIDs(b.seats)
    ensures var r := PayPots(ev, dealer, board, b, pots);
            && Stacks(r.seats) == Stacks(b.seats) + TotalPot(pots) - DeadChips(b.seats, pots)
            && RecordsGains(b, r)
    decreases |pots|
  {
    if pots != [] {
      var one := PayPot(ev, dealer, board, b, pots[0]);
      PayPotIs(ev, dealer, board, b, pots[0]);
      SameIDs(b.seats, one.seats);
      DeadChipsSame(b.seats, one.seats, pots[1..]);
      PayPotsIs(ev, dealer, board, one, pots[1..]);
      GainsTrans(b, one, PayPots(ev, dealer, board, one, pots[1..]));
    }
  }

  // ---------------------------------------------------------- when chips are not lost

  /** Some unfolded seat has bet at least as much as every seat. */
  ghost predicate TopIsLive(seats: seq<Seat>) {
    exists u :: 0 <= u < |seats| && seats[u].status != Folded && IsTop(seats, u)
  }

  predicate IsTop(seats: seq<Seat>, u: nat)
    requires u < |seats|
  {
    forall i :: 0 <= i < |seats| ==> seats[i].totalBet <= seats[u].totalBet
  }

  lemma {:induction false} TopExists(seats: seq<Seat>) returns (u: nat)
    requires seats != []
    ensures u < |seats| && IsTop(seats, u)
  {
    u := 0;
    if |seats| > 1 {
      var v := TopExists(seats[1..]);
      assert forall i :: 0 < i < |seats| ==> seats[i] == seats[1..][i - 1];
      u := if seats[0].totalBet >= seats[v + 1].totalBet then 0 else v + 1;
      assert seats[v + 1] == seats[1..][v];
    }
  }

  lemma {:induction false} NoneDead(seats: seq<Seat>, pots: seq<Pot>)
    requires forall j :: 0 <= j < |pots| ==> !Dead(seats, pots[j])
    ensures DeadChips(seats, pots) == 0
  {
    if pots != [] {
      assert forall j :: 0 <= j < |pots[1..]| ==> pots[1..][j] == pots[j + 1];
      NoneDead(seats, pots[1..]);
    }
  }

  lemma {:induction false} DeadAtEnd(seats: seq<Seat>, pots: seq<Pot>)
    requires pots != [] && Dead(seats, pots[|pots| - 1]) && forall j :: 0 <= j < |pots| ==> pots[j].amount > 0
    ensures DeadChips(seats, pots) > 0
    decreases |pots|
  {
    DeadIsSome(seats, pots);
    if |pots| > 1 {
      assert forall j :: 0 <= j < |pots[1..]| ==> pots[1..][j] == pots[j + 1];
      DeadAtEnd(seats, pots[1..]);
    }
  }

  lemma {:induction false} DeadIsSome(seats: seq<Seat>, pots: seq<Pot>)
    requires forall j :: 0 <= j < |pots| ==> pots[j].amount > 0
    ensures DeadChips(seats, pots) >= 0
  {
    if pots != [] {
      assert forall j :: 0 <= j < |pots[1..]| ==> pots[1..][j] == pots[j + 1];
      DeadIsSome(seats, pots[1..]);
    }
  }

  lemma LiveTopKeepsAll(seats: seq<Seat>)
    requires Betted(seats) && TopIsLive(seats)
    ensures DeadChips(seats, CalculatePots(seats)) == 0
  {
    var u :| 0 <= u < |seats| && seats[u].status != Folded && IsTop(seats, u);
    TopSeatEligible(seats, u);
    NoneDead(seats, CalculatePots(seats));
  }

  lemma FoldedTopIsDead(seats: seq<Seat>, u: nat)
    requires DistinctIDs(seats) && u < |seats| && IsTop(seats, u) && seats[u].totalBet > 0 && !TopIsLive(seats)
    ensures var pots := CalculatePots(seats); pots != [] && Dead(seats, pots[|pots| - 1])
  {
    var pots := CalculatePots(seats);
    TopPotIsForTop(seats, u, seats[u].id);
    forall i | 0 <= i < |seats| && seats[i].id in pots[|pots| - 1].eligible ensures seats[i].status == Folded {
      TopPotIsForTop(seats, u, seats[i].id);
      var j :| 0 <= j < |seats| && seats[j].id == seats[i].id && seats[j].totalBet == seats[u].totalBet;
      SeatIndexOf(seats, i);
      SeatIndexOf(seats, j);
      assert IsTop(seats, j);
    }
  }

  lemma EmptyTopIsLive(seats: seq<Seat>, u: nat)
    requires Betted(seats) && u < |seats| && IsTop(seats, u)
    requires exists i :: 0 <= i < |seats| && seats[i].status != Folded
    ensures seats[u].totalBet == 0 ==> TopIsLive(seats)
  {
    var i :| 0 <= i < |seats| && seats[i].status != Folded;
    if seats[u].totalBet == 0 {
      assert IsTop(seats, i);
    }
  }

  /** Chips go missing at a showdown exactly when only folded seats have bet the most. */
  lemma DeadChipsExact(seats: seq<Seat>)
    requires Betted(seats) && DistinctIDs(seats) && seats != []
    requires exists i :: 0 <= i < |seats| && seats[i].status != Folded
    ensures DeadChips(seats, CalculatePots(seats)) >= 0
    ensures DeadChips(seats, CalculatePots(seats)) == 0 <==> TopIsLive(seats)
  {
    var pots := CalculatePots(seats);
    MergeIsIdentity(seats);
    SortedContribs(seats);
    LayersPositive(SortByBet(Contribs(seats)), 0);
    DeadIsSome(seats, pots);
    if TopIsLive(seats) {
      LiveTopKeepsAll(seats);
    } else {
      var u := TopExists(seats);
      EmptyTopIsLive(seats, u);
      FoldedTopIsDead(seats, u);
      DeadAtEnd(seats, pots);
    }
  }

  /** Showdown: stacks grow by all the bets, less what sits in dead pots. */
  lemma DistributeIs(ev: Evaluator, t: Table)
    requires DistinctIDs(t.seats) && Betted(t.seats) && t.pots == CalculatePots(t.seats)
    requires DistributePots(ev, t).err.None?
    ensures var r := DistributePots(ev, t).t;
            && r.phase == Settled
            && Stacks(r.seats) == Stacks(t.seats) + TotalBets(t.seats) - DeadChips(t.seats, t.pots)
            && RecordsGains(Bank(t.seats, t.payouts), Bank(r.seats, r.payouts))
  {
    PayPotsIs(ev, t.dealer, t.board, Bank(t.seats, t.payouts), t.pots);
    PotsHoldAllBets(t.seats);
  }

  lemma {:induction false} CountInHandIs(seats: seq<Seat>)
    ensures CountInHand(seats) <= |seats|
    ensures CountInHand(seats) >= 1 <==> exists j :: 0 <= j < |seats| && InHand(seats[j])
  {
    if seats != [] {
      CountInHandIs(seats[1..]);
      assert forall j :: 0 <= j < |seats[1..]| ==> seats[1..][j] == seats[j + 1];
      if j :| 0 <= j < |seats| && InHand(seats[j]) {
        assert j > 0 ==> seats[1..][j - 1] == seats[j];
      }
    }
  }

  /** The last seat in the hand takes everything. */
  lemma SingleWinnerIs(t: Table)
    requires DistinctIDs(t.seats) && Betted(t.seats) && OnlyOneRemaining(t)
    ensures var r := ResolveSingleWinner(t).t;
            && r.phase == Settled
            && Stacks(r.seats) == Stacks(t.seats) + TotalBets(t.seats)
            && RecordsGains(Bank(t.seats, t.payouts), Bank(r.seats, r.payouts))
  {
    CountInHandIs(t.seats);
    PotsHoldAllBets(t.seats);
    PayOneIs(Bank(t.seats, t.payouts), FirstInHand(t.seats).value, TotalPot(CalculatePots(t.seats)));
  }
}
