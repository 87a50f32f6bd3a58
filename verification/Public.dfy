// What every replica can see of a table: everything but the hole cards and the deck. The
// reducer never looks further until pots are paid out.
module Public {
  import opened Cards
  import opened GameState
  import opened Pots
  import opened Rules
  import opened Wrappers

  /** The same seats but for hole cards. */
  predicate SameSeats(a: seq<Seat>, b: seq<Seat>) {
    |a| == |b| && forall i :: 0 <= i < |a| ==> b[i] == a[i].(hole := b[i].hole)
  }

  /** The same table but for hole cards and the deck. */
  predicate SamePublic(a: Table, b: Table) {
    b == a.(deck := b.deck, seats := b.seats) && SameSeats(a.seats, b.seats)
  }

  lemma Tails(a: seq<Seat>, b: seq<Seat>)
    requires SameSeats(a, b) && a != []
    ensures SameSeats(a[1..], b[1..])
  {
    assert forall i :: 0 <= i < |a[1..]| ==> a[1..][i] == a[i + 1] && b[1..][i] == b[i + 1];
  }

  lemma {:induction false} SameCounts(a: seq<Seat>, b: seq<Seat>)
    requires SameSeats(a, b)
    ensures CountCanAct(a) == CountCanAct(b) && CountInHand(a) == CountInHand(b)
    ensures Contribs(a) == Contribs(b)
  {
    if a != [] {
      Tails(a, b);
      SameCounts(a[1..], b[1..]);
    }
  }

  lemma {:induction false} SameFirstInHand(a: seq<Seat>, b: seq<Seat>)
    requires SameSeats(a, b)
    ensures FirstInHand(a) == FirstInHand(b)
  {
    if a != [] {
      Tails(a, b);
      SameFirstInHand(a[1..], b[1..]);
    }
  }

  lemma {:induction false} SameNextFrom(a: seq<Seat>, b: seq<Seat>, from: nat, i: nat)
    requires SameSeats(a, b) && a != []
    ensures NextActiveFrom(a, from, i) == NextActiveFrom(b, from, i)
    decreases |a| + 1 - i
  {
    if i <= |a| {
      SameNextFrom(a, b, from, i + 1);
    }
  }

  lemma SameNext(a: seq<Seat>, b: seq<Seat>, from: nat)
    requires SameSeats(a, b) && a != []
    ensures NextActive(a, from) == NextActive(b, from)
  {
    SameNextFrom(a, b, from, 1);
  }

  // --------------------------------------------------------------------------- actions

  lemma SamePerform(a: Table, b: Table, x: Action)
    requires SamePublic(a, b) && 0 <= a.actionIdx < |a.seats|
    ensures Perform(a, x).err == Perform(b, x).err && SamePublic(Perform(a, x).t, Perform(b, x).t)
    ensures forall i :: 0 <= i < |a.seats| ==> Perform(a, x).t.seats[i].hole == a.seats[i].hole
  {
    var i := a.actionIdx;
    match x.kind
    case Fold =>
    case Check =>
    case Call => SameBet(a, b, i, a.currentBet - a.seats[i].currentBet);
    case Raise => SameBet(a, b, i, a.currentBet - a.seats[i].currentBet + x.amount);
    case GoAllIn => SameBetAll(a, b);
    case Unknown =>
  }

  lemma SameBet(a: Table, b: Table, i: nat, amount: int)
    requires SamePublic(a, b) && i < |a.seats|
    ensures SamePublic(Bet(a, i, amount), Bet(b, i, amount))
    ensures forall j :: 0 <= j < |a.seats| ==> Bet(a, i, amount).seats[j].hole == a.seats[j].hole
  {
  }

  lemma SameBetAll(a: Table, b: Table)
    requires SamePublic(a, b) && 0 <= a.actionIdx < |a.seats|
    ensures SamePublic(BetAll(a), BetAll(b))
    ensures forall j :: 0 <= j < |a.seats| ==> BetAll(a).seats[j].hole == a.seats[j].hole
  {
  }

  lemma SameEndsRound(a: Table, b: Table)
    requires SamePublic(a, b) && 0 <= a.actionIdx < |a.seats|
    ensures EndsRound(a) == EndsRound(b) && NextActive(a.seats, a.actionIdx) == NextActive(b.seats, b.actionIdx)
    ensures OnlyOneRemaining(a) == OnlyOneRemaining(b)
  {
    SameNext(a.seats, b.seats, a.actionIdx);
    SameCounts(a.seats, b.seats);
  }

  lemma SamePots(a: Table, b: Table)
    requires SamePublic(a, b)
    ensures SamePublic(WithPots(a), WithPots(b))
  {
    SameCounts(a.seats, b.seats);
  }

  lemma SameSingleWinner(a: Table, b: Table)
    requires SamePublic(a, b)
    ensures SamePublic(ResolveSingleWinner(a).t, ResolveSingleWinner(b).t)
  {
    SamePots(a, b);
    SameFirstInHand(a.seats, b.seats);
  }

  /** A new round opens in the same way. */
  lemma SameFreshRound(a: Table, b: Table)
    requires SamePublic(a, b)
    ensures SamePublic(FreshRound(a), FreshRound(b))
    ensures a.seats != [] ==> NextActive(FreshRound(a).seats, a.dealer) == NextActive(FreshRound(b).seats, b.dealer)
    ensures CountCanAct(FreshRound(a).seats) == CountCanAct(FreshRound(b).seats)
  {
    SameCounts(FreshRound(a).seats, FreshRound(b).seats);
    if a.seats != [] {
      SameNext(FreshRound(a).seats, FreshRound(b).seats, a.dealer);
    }
  }

  // ---------------------------------------------------------------------------- payouts

  /** Seats that may still win show the same cards. */
  predicate SameShown(a: seq<Seat>, b: seq<Seat>) {
    SameSeats(a, b) && forall i :: 0 <= i < |a| && a[i].status != Folded ==> a[i].hole == b[i].hole
  }

  predicate SameBank(a: Bank, b: Bank) {
    SameShown(a.seats, b.seats) && a.payouts == b.payouts
  }

  lemma {:induction false} SameIndex(a: seq<Seat>, b: seq<Seat>, id: string, i: nat)
    requires SameSeats(a, b) && i <= |a|
    ensures SeatIndexFrom(a, id, i) == SeatIndexFrom(b, id, i)
    decreases |a| - i
  {
    if i < |a| {
      SameIndex(a, b, id, i + 1);
    }
  }

  lemma {:induction false} SameCandidates(ev: Evaluator, a: seq<Seat>, b: seq<Seat>, board: seq<Card>,
      eligible: seq<string>)
    requires SameShown(a, b)
    ensures Candidates(ev, a, board, eligible) == Candidates(ev, b, board, eligible)
  {
    if eligible != [] {
      SameCandidates(ev, a, b, board, eligible[1..]);
      SameIndex(a, b, eligible[0], 0);
      SeatIndexFromIs(a, eligible[0], 0);
    }
  }

  lemma {:induction false} SamePayEach(a: Bank, b: Bank, winners: seq<nat>, share: int)
    requires SameBank(a, b) && forall k :: 0 <= k < |winners| ==> winners[k] < |a.seats|
    ensures SameBank(PayEach(a, winners, share), PayEach(b, winners, share))
    decreases |winners|
  {
    if winners != [] {
      SamePayEach(PayOne(a, winners[0], share), PayOne(b, winners[0], share), winners[1..], share);
    }
  }

  lemma {:induction false} SameWinnerWithID(a: seq<Seat>, b: seq<Seat>, winners: seq<nat>, id: string)
    requires SameSeats(a, b) && forall k :: 0 <= k < |winners| ==> winners[k] < |a|
    ensures WinnerWithID(a, winners, id) == WinnerWithID(b, winners, id)
    decreases |winners|
  {
    if winners != [] {
      SameWinnerWithID(a, b, winners[..|winners| - 1], id);
    }
  }

  lemma {:induction false} SameClosest(a: seq<Seat>, b: seq<Seat>, dealer: nat, winners: seq<nat>, i: nat)
    requires SameSeats(a, b) && winners != [] && forall k :: 0 <= k < |winners| ==> winners[k] < |a|
    ensures ClosestFrom(a, dealer, winners, i) == ClosestFrom(b, dealer, winners, i)
    decreases |a| + 1 - i
  {
    if i <= |a| {
      assert winners[0] < |a|;
      SameWinnerWithID(a, b, winners, a[Around(dealer, i, |a|)].id);
      SameClosest(a, b, dealer, winners, i + 1);
    }
  }

  lemma SamePayWinners(dealer: nat, a: Bank, b: Bank, winners: seq<nat>, share: int, remainder: int)
    requires SameBank(a, b) && winners != [] && forall k :: 0 <= k < |winners| ==> winners[k] < |a.seats|
    ensures SameBank(PayWinners(dealer, a, winners, share, remainder), PayWinners(dealer, b, winners, share, remainder))
  {
    SamePayEach(a, b, winners, share);
    SameClosest(PayEach(a, winners, share).seats, PayEach(b, winners, share).seats, dealer, winners, 1);
  }

  lemma SamePayPot(ev: Evaluator, dealer: nat, board: seq<Card>, a: Bank, b: Bank, pot: Pot)
    requires SameBank(a, b)
    ensures SameBank(PayPot(ev, dealer, board, a, pot), PayPot(ev, dealer, board, b, pot))
  {
    SameCandidates(ev, a.seats, b.seats, board, pot.eligible);
    var winners := PotWinners(ev, a.seats, board, pot.eligible);
    if winners != [] {
      SamePayWinners(dealer, a, b, winners, pot.amount / |winners|, pot.amount % |winners|);
    }
  }

  lemma {:induction false} SamePayPots(ev: Evaluator, dealer: nat, board: seq<Card>, a: Bank, b: Bank, pots: seq<Pot>)
    requires SameBank(a, b)
    ensures SameBank(PayPots(ev, dealer, board, a, pots), PayPots(ev, dealer, board, b, pots))
    decreases |pots|
  {
    if pots != [] {
      SamePayPot(ev, dealer, board, a, b, pots[0]);
      SamePayPots(ev, dealer, board, PayPot(ev, dealer, board, a, pots[0]), PayPot(ev, dealer, board, b, pots[0]),
          pots[1..]);
    }
  }

  /** Two tables that agree in public and on the hands still in it pay out alike. */
  lemma SameDistribution(ev: Evaluator, a: Table, b: Table)
    requires SamePublic(a, b) && SameShown(a.seats, b.seats)
    requires DistributePots(ev, a).err.None? && DistributePots(ev, b).err.None?
    ensures SamePublic(DistributePots(ev, a).t, DistributePots(ev, b).t)
  {
    SamePayPots(ev, a.dealer, a.board, Bank(a.seats, a.payouts), Bank(b.seats, b.payouts), a.pots);
  }
}
