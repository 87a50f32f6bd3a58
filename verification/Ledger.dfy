// Chip conservation without any assumption on raises: exactly when a hand loses chips, and
// a hand that does (internal/game/machine.go:85, 366).
module Ledger {
  import opened Cards
  import opened Conservation
  import opened GameState
  import opened Hand
  import opened HandEval
  import opened Opening
  import opened Pots
  import opened Rounds
  import opened Rules
  import opened Settlement
  import opened Wrappers

  /**
   * Until the hand is settled all chips are on the table; then all are in the stacks, or the
   * top bets were all folded.
   */
  ghost predicate Tallied(t: Table, total: int) {
    && DistinctIDs(t.seats) && Solvent(t.seats)
    && if t.phase == Settled then
         && Stacks(t.seats) <= total
         && (Stacks(t.seats) == total <==> OnlyOneRemaining(t) || TopIsLive(t.seats))
       else
         && Chips(t.seats) == total && CountInHand(t.seats) >= 2
         && (t.phase == Showdown ==> t.pots == CalculatePots(t.seats))
  }

  lemma PerformTallies(t: Table, a: Action, k: int, e: int)
    requires TurnOf(t, k, e) && Solvent(t.seats) && CountInHand(t.seats) >= 2 && Perform(t, a).err.None?
    ensures var r := Perform(t, a).t;
            && Chips(r.seats) == Chips(t.seats) && Solvent(r.seats) && CountInHand(r.seats) >= 1
            && (DistinctIDs(t.seats) ==> DistinctIDs(r.seats))
  {
    var i, r := t.actionIdx, Perform(t, a).t;
    PerformMoves(t, a, k, e);
    ChipsMove(t.seats, i, r.seats[i]);
    CountUpdate(t.seats, i, r.seats[i]);
  }

  lemma {:induction false} StacksCount(a: seq<Seat>, b: seq<Seat>)
    requires SameButStacks(a, b)
    ensures CountInHand(a) == CountInHand(b)
  {
    if a != [] {
      assert forall i :: 0 <= i < |a[1..]| ==> a[1..][i] == a[i + 1] && b[1..][i] == b[i + 1];
      StacksCount(a[1..], b[1..]);
    }
  }

  lemma StacksTop(a: seq<Seat>, b: seq<Seat>)
    requires SameButStacks(a, b)
    ensures TopIsLive(a) <==> TopIsLive(b)
  {
    forall u | 0 <= u < |a| ensures IsTop(a, u) <==> IsTop(b, u) {
    }
  }

  lemma {:induction false} SharesSolvent(b: Bank, winners: seq<nat>, share: int)
    requires Solvent(b.seats) && share >= 0 && forall k :: 0 <= k < |winners| ==> winners[k] < |b.seats|
    ensures Solvent(PayEach(b, winners, share).seats)
    decreases |winners|
  {
    if winners != [] {
      SharesSolvent(PayOne(b, winners[0], share), winners[1..], share);
    }
  }

  lemma {:induction false} PotsSolvent(ev: Evaluator, dealer: nat, board: seq<Card>, b: Bank, pots: seq<Pot>)
    requires Solvent(b.seats) && forall j :: 0 <= j < |pots| ==> pots[j].amount >= 0
    ensures Solvent(PayPots(ev, dealer, board, b, pots).seats)
    decreases |pots|
  {
    if pots != [] {
      assert forall j :: 0 <= j < |pots[1..]| ==> pots[1..][j] == pots[j + 1];
      PotSolvent(ev, dealer, board, b, pots[0]);
      PotsSolvent(ev, dealer, board, PayPot(ev, dealer, board, b, pots[0]), pots[1..]);
    }
  }

  lemma PotSolvent(ev: Evaluator, dealer: nat, board: seq<Card>, b: Bank, pot: Pot)
    requires Solvent(b.seats) && pot.amount >= 0
    ensures Solvent(PayPot(ev, dealer, board, b, pot).seats)
  {
    var winners := PotWinners(ev, b.seats, board, pot.eligible);
    if winners != [] {
      ShareSign(pot.amount, |winners|);
      SharesSolvent(b, winners, pot.amount / |winners|);
    }
  }

  lemma ShareSign(x: int, n: nat)
    requires x >= 0 && n > 0
    ensures x / n >= 0 && x % n >= 0
  {
  }

  lemma DistributeTallies(ev: Evaluator, t: Table)
    requires DistinctIDs(t.seats) && Solvent(t.seats) && CountInHand(t.seats) >= 2 && t.pots == CalculatePots(t.seats)
    requires DistributePots(ev, t).err.None?
    ensures DistributePots(ev, t).t.phase == Settled && Tallied(DistributePots(ev, t).t, Chips(t.seats))
  {
    var r := DistributePots(ev, t).t;
    DistributeIs(ev, t);
    CountInHandIs(t.seats);
    DeadChipsExact(t.seats);
    SameIDs(t.seats, r.seats);
    StacksCount(t.seats, r.seats);
    StacksTop(t.seats, r.seats);
    MergeIsIdentity(t.seats);
    SortedContribs(t.seats);
    LayersPositive(SortByBet(Contribs(t.seats)), 0);
    PotsSolvent(ev, t.dealer, t.board, Bank(t.seats, t.payouts), t.pots);
  }

  lemma StakesTally(a: Table, b: Table, total: int)
    requires SameStakes(a.seats, b.seats) && a.phase != Settled && Tallied(a, total)
    ensures DistinctIDs(b.seats) && Solvent(b.seats) && Chips(b.seats) == total && CountInHand(b.seats) >= 2
    ensures CalculatePots(a.seats) == CalculatePots(b.seats)
  {
    StakesCount(a.seats, b.seats);
    StakesChips(a.seats, b.seats);
    StakesContribs(a.seats, b.seats);
  }

  lemma ExitTallies(ev: Evaluator, t: Table, s: Table, o: Outcome, total: int)
    requires Kin(t, s) && RoundExit(ev, s, o) && BettingPhase(t.phase) && Tallied(t, total)
    ensures Tallied(o.t, total)
  {
    StakesTally(t, s, total);
    if o == Outcome(s, None) && (FreshTurn(s) || s.phase == AwaitingStreet) {
    } else {
      var w := WithPots(s.(phase := Showdown));
      if !(CryptoMode(w) && HolesIncomplete(w)) {
        DistributeTallies(ev, w);
      }
    }
  }

  lemma AfterActionTallies(ev: Evaluator, t: Table, total: int)
    requires BettingPhase(t.phase) && CardsFit(t) && DistinctIDs(t.seats) && 0 <= t.actionIdx < |t.seats|
    requires Chips(t.seats) == total && Solvent(t.seats) && CountInHand(t.seats) >= 1
    ensures Tallied(AfterAction(ev, t).t, total)
  {
    if OnlyOneRemaining(t) {
      var r := ResolveSingleWinner(t).t;
      SingleWinnerIs(t);
      SameIDs(t.seats, r.seats);
      StacksCount(t.seats, r.seats);
      SingleSolvent(t);
    } else if EndsRound(t) {
      var s := EndShape(ev, t);
      ExitTallies(ev, t, s, EndBettingRound(ev, t), total);
    }
  }

  lemma SingleSolvent(t: Table)
    requires DistinctIDs(t.seats) && Solvent(t.seats) && OnlyOneRemaining(t)
    ensures Solvent(ResolveSingleWinner(t).t.seats)
  {
    PotsHoldAllBets(t.seats);
    BetsPositive(t.seats);
  }

  lemma {:induction false} BetsPositive(seats: seq<Seat>)
    requires Solvent(seats)
    ensures TotalBets(seats) >= 0
  {
    if seats != [] {
      assert forall i :: 0 <= i < |seats[1..]| ==> seats[1..][i] == seats[i + 1];
      BetsPositive(seats[1..]);
    }
  }

  lemma PlayTallies(ev: Evaluator, t: Table, a: Action, total: int)
    requires TurnsInOrder(t) && Tallied(t, total) && BettingPhase(t.phase) && 0 <= t.actionIdx < |t.seats|
    ensures Tallied(Act(ev, t, a).t, total)
  {
    var k, e :| TurnOf(t, k, e);
    if Perform(t, a).err.None? {
      PerformTallies(t, a, k, e);
      PerformKeepsCards(t, a);
      AfterActionTallies(ev, Recorded(Perform(t, a).t, a), total);
    }
  }

  lemma StreetTallies(ev: Evaluator, t: Table, cards: seq<Card>, total: int)
    requires TurnsInOrder(t) && Tallied(t, total)
    ensures Tallied(ApplyStreet(ev, t, cards).t, total)
  {
    if ApplyStreet(ev, t, cards).t != t {
      var board := t.board + cards;
      var s := t.(board := board, phase := if |board| == 3 then Flop else if |board| == 4 then Turn else River);
      var f := OpenShape(ev, s);
      ExitTallies(ev, s, f, StartNewBettingRound(ev, s), total);
    }
  }

  lemma ShowTallies(ev: Evaluator, t: Table, id: string, hole: (Card, Card), total: int)
    requires TurnsInOrder(t) && Tallied(t, total)
    ensures Tallied(ApplyHoleReveal(ev, t, id, hole).t, total)
  {
    SeatIndexFromIs(t.seats, id, 0);
    if ApplyHoleReveal(ev, t, id, hole).t != t {
      var idx := SeatIndex(t.seats, id);
      var r := t.(seats := t.seats[idx := t.seats[idx].(hole := hole)]);
      var s := if HoleDealt(t.seats[idx]) then t else r;
      StakesTally(t, s, total);
      if !HolesIncomplete(s) {
        DistributeTallies(ev, s);
      }
    }
  }

  /** Whatever is fed to the machine, funded or not, the tally holds. */
  lemma {:induction false} RunTallies(ev: Evaluator, t: Table, inputs: seq<Input>, total: int)
    requires TurnsInOrder(t) && Tallied(t, total)
    ensures TurnsInOrder(Run(ev, t, inputs)) && Tallied(Run(ev, t, inputs), total)
    decreases |inputs|
  {
    if inputs != [] {
      var next := Step(ev, t, inputs[0]).t;
      RunKeepsTurns(ev, t, [inputs[0]]);
      assert Run(ev, t, [inputs[0]]) == Run(ev, next, [inputs[0]][1..]) == next;
      match inputs[0] {
        case Play(a) =>
          if next != t {
            PlayTallies(ev, t, a, total);
          }
        case Street(cards) => StreetTallies(ev, t, cards, total);
        case Show(id, hole) => ShowTallies(ev, t, id, hole, total);
      }
      RunTallies(ev, next, inputs[1..], total);
    }
  }

  lemma PostedTallies(t: Table, sb: nat, bb: nat, p: Table, o: Table)
    requires Ready(t) && sb < |t.seats| && bb < |t.seats| && sb != bb && SameButCards(PostBlindsAt(t, sb, bb), p)
    requires o.seats == p.seats && o.phase == PreFlop
    ensures Tallied(o, Stacks(t.seats))
  {
    BlindsBacked(t, sb, bb);
    StakesCount(PostBlindsAt(t, sb, bb).seats, p.seats);
    StakesChips(PostBlindsAt(t, sb, bb).seats, p.seats);
  }

  lemma OpenedTallies(t: Table, p: Table)
    requires Ready(t) && SameButCards(PostBlinds(t), p)
    ensures Tallied(OpenPreFlop(p), Stacks(t.seats))
  {
    BlindsAdjacent(t);
    PostedTallies(t, SmallBlindIndex(t), BigBlindIndex(t), p, OpenPreFlop(p));
  }

  /** All the chips are in the stacks, or everyone with the highest total bet folded and more than one seat stayed. */
  ghost predicate ConservesExactly(before: seq<Seat>, r: Table) {
    && Stacks(r.seats) <= Stacks(before)
    && (Stacks(r.seats) == Stacks(before) <==> OnlyOneRemaining(r) || TopIsLive(r.seats))
  }

  /**
   * A crypto hand ends with all its chips in the stacks if and only if everyone but one
   * folded or some seat with the highest total bet did not fold.
   */
  lemma CryptoHandConservesExactly(ev: Evaluator, t: Table, inputs: seq<Input>)
    requires Ready(t)
    requires Run(ev, StartHandCrypto(t).t, inputs).phase == Settled
    ensures ConservesExactly(t.seats, Run(ev, StartHandCrypto(t).t, inputs))
  {
    var c := t.(deck := None);
    StartCryptoConserves(t);
    OpenedTallies(c, PostBlinds(c));
    RunTallies(ev, StartHandCrypto(t).t, inputs, Stacks(t.seats));
  }

  /** The same in plaintext mode. */
  lemma PlaintextHandConservesExactly(ev: Evaluator, t: Table, shuffled: seq<Card>, inputs: seq<Input>)
    requires Ready(t) && t.deck.Some? && |shuffled| >= 2 * |t.seats| + CardsNeeded(PreFlop)
    requires Run(ev, StartHand(t, shuffled).t, inputs).phase == Settled
    ensures ConservesExactly(t.seats, Run(ev, StartHand(t, shuffled).t, inputs))
  {
    var d := t.(deck := Some(shuffled));
    StartConserves(t, shuffled);
    DealHolesKeeps(PostBlinds(d), 0);
    OpenedTallies(d, DealHolesFrom(PostBlinds(d), 0).t);
    RunTallies(ev, StartHand(t, shuffled).t, inputs, Stacks(t.seats));
  }

  // ---------------------------------------------------------- the condition before the payout

  /** The table as the input leaves it before anything is paid. */
  function Entering(t: Table, i: Input): Table {
    match i
    case Play(a) => if 0 <= t.actionIdx < |t.seats| then Perform(t, a).t else t
    case _ => t
  }

  /** The same seats have folded, and all have put in the same. */
  predicate SameFate(a: seq<Seat>, b: seq<Seat>) {
    |a| == |b| && forall i :: 0 <= i < |a| ==> b[i].status == a[i].status && b[i].totalBet == a[i].totalBet
  }

  lemma {:induction false} FateCount(a: seq<Seat>, b: seq<Seat>)
    requires SameFate(a, b)
    ensures CountInHand(a) == CountInHand(b)
  {
    if a != [] {
      assert forall i :: 0 <= i < |a[1..]| ==> a[1..][i] == a[i + 1] && b[1..][i] == b[i + 1];
      FateCount(a[1..], b[1..]);
    }
  }

  lemma FateTop(a: seq<Seat>, b: seq<Seat>)
    requires SameFate(a, b)
    ensures TopIsLive(a) <==> TopIsLive(b)
  {
    forall u | 0 <= u < |a| ensures IsTop(a, u) <==> IsTop(b, u) {
    }
  }

  lemma PayoutKeepsFate(ev: Evaluator, w: Table, a: seq<Seat>)
    requires DistinctIDs(w.seats) && Betted(w.seats) && w.pots == CalculatePots(w.seats) && SameFate(a, w.seats)
    ensures SameFate(a, DistributePots(ev, w).t.seats)
  {
    if DistributePots(ev, w).err.None? {
      DistributeIs(ev, w);
    }
  }

  lemma ExitKeepsFate(ev: Evaluator, t: Table, s: Table, o: Outcome, total: int)
    requires Kin(t, s) && RoundExit(ev, s, o) && BettingPhase(t.phase) && Tallied(t, total)
    ensures SameFate(t.seats, o.t.seats)
  {
    StakesTally(t, s, total);
    if !(o == Outcome(s, None)) {
      var w := WithPots(s.(phase := Showdown));
      if !(CryptoMode(w) && HolesIncomplete(w)) {
        PayoutKeepsFate(ev, w, t.seats);
      }
    }
  }

  lemma AfterActionKeepsFate(ev: Evaluator, t: Table, total: int)
    requires BettingPhase(t.phase) && CardsFit(t) && DistinctIDs(t.seats) && 0 <= t.actionIdx < |t.seats|
    requires Chips(t.seats) == total && Solvent(t.seats) && CountInHand(t.seats) >= 1
    ensures SameFate(t.seats, AfterAction(ev, t).t.seats)
  {
    if OnlyOneRemaining(t) {
      SingleWinnerIs(t);
    } else if EndsRound(t) {
      var s := EndShape(ev, t);
      ExitKeepsFate(ev, t, s, EndBettingRound(ev, t), total);
    }
  }

  lemma PlayKeepsFate(ev: Evaluator, t: Table, a: Action, total: int)
    requires TurnsInOrder(t) && Tallied(t, total) && BettingPhase(t.phase) && 0 <= t.actionIdx < |t.seats|
    requires Perform(t, a).err.None?
    ensures SameFate(Perform(t, a).t.seats, Act(ev, t, a).t.seats)
  {
    var k, e :| TurnOf(t, k, e);
    PerformTallies(t, a, k, e);
    PerformKeepsCards(t, a);
    AfterActionKeepsFate(ev, Recorded(Perform(t, a).t, a), total);
  }

  lemma StreetKeepsFate(ev: Evaluator, t: Table, cards: seq<Card>, total: int)
    requires TurnsInOrder(t) && Tallied(t, total)
    ensures SameFate(t.seats, ApplyStreet(ev, t, cards).t.seats)
  {
    if ApplyStreet(ev, t, cards).t != t {
      var board := t.board + cards;
      var s := t.(board := board, phase := if |board| == 3 then Flop else if |board| == 4 then Turn else River);
      var f := OpenShape(ev, s);
      ExitKeepsFate(ev, s, f, StartNewBettingRound(ev, s), total);
    }
  }

  lemma ShowKeepsFate(ev: Evaluator, t: Table, id: string, hole: (Card, Card), total: int)
    requires TurnsInOrder(t) && Tallied(t, total)
    ensures SameFate(t.seats, ApplyHoleReveal(ev, t, id, hole).t.seats)
  {
    SeatIndexFromIs(t.seats, id, 0);
    if ApplyHoleReveal(ev, t, id, hole).t != t {
      var idx := SeatIndex(t.seats, id);
      var r := t.(seats := t.seats[idx := t.seats[idx].(hole := hole)]);
      var s := if HoleDealt(t.seats[idx]) then t else r;
      StakesTally(t, s, total);
      if !HolesIncomplete(s) {
        PayoutKeepsFate(ev, s, t.seats);
      }
    }
  }

  /**
   * What a caller can test before the pots are paid. The input that settles a hand leaves
   * all the chips in the stacks exactly if, on the table as that input leaves it before the
   * payout, only one seat is left in the hand or some seat with the highest total bet is.
   */
  lemma SettlingKeepsChipsExactly(ev: Evaluator, t: Table, i: Input, total: int)
    requires TurnsInOrder(t) && Tallied(t, total) && t.phase != Settled && Step(ev, t, i).t.phase == Settled
    ensures Stacks(Step(ev, t, i).t.seats) == total <==>
            OnlyOneRemaining(Entering(t, i)) || TopIsLive(Entering(t, i).seats)
  {
    var q, r := Entering(t, i), Step(ev, t, i).t;
    RunTallies(ev, t, [i], total);
    assert Run(ev, t, [i]) == Run(ev, r, [i][1..]) == r;
    match i {
      case Play(a) => PlayKeepsFate(ev, t, a, total);
      case Street(cards) => StreetKeepsFate(ev, t, cards, total);
      case Show(id, hole) => ShowKeepsFate(ev, t, id, hole, total);
    }
    FateCount(q.seats, r.seats);
    FateTop(q.seats, r.seats);
  }

  // ------------------------------------------------------------- a hand that loses chips

  /** What is at stake at seat i. */
  predicate At(t: Table, i: nat, id: string, stack: int, status: Status, currentBet: int, totalBet: int) {
    i < |t.seats| && t.seats[i] == Seat(id, stack, t.seats[i].hole, status, currentBet, totalBet)
  }

  lemma {:induction false} TwoInHand(seats: seq<Seat>, i: nat, j: nat)
    requires i < j < |seats| && InHand(seats[i]) && InHand(seats[j])
    ensures CountInHand(seats) >= 2
  {
    if i == 0 {
      CountInHandIs(seats[1..]);
      assert seats[1..][j - 1] == seats[j];
    } else {
      TwoInHand(seats[1..], i - 1, j - 1);
    }
  }

  /** An action after which seat next, still owing chips, is the nearest that can act. */
  lemma PassesTo(ev: Evaluator, t: Table, a: Action, next: nat)
    requires BettingPhase(t.phase) && 0 <= t.actionIdx < |t.seats| && a.player == t.seats[t.actionIdx].id
    requires Perform(t, a).err.None?
    requires var r := Perform(t, a).t;
             && next < |r.seats| && CountInHand(r.seats) >= 2 && CanAct(r.seats[next])
                 && r.seats[next].currentBet < r.currentBet
             && forall j :: 0 <= j < |r.seats| && CanAct(r.seats[j]) ==>
                  j == next || Gap(t.actionIdx, j, |r.seats|) > Gap(t.actionIdx, next, |r.seats|)
    ensures ApplyAction(ev, t, a) == Outcome(Recorded(Perform(t, a).t, a).(actionIdx := next), None)
  {
    NextActiveIs(Perform(t, a).t.seats, t.actionIdx);
  }

  const THREE := [Seat("D", 10, (BLANK, BLANK), Active, 0, 0), Seat("S", 16, (BLANK, BLANK), Active, 0, 0),
      Seat("B", 20, (BLANK, BLANK), Active, 0, 0)]

  /** The dealer's raise puts it all in; the small blind calls. */
  lemma FirstRaise(ev: Evaluator, t: Table) returns (r: Table)
    requires t.phase == PreFlop && |t.seats| == 3 && t.actionIdx == 0 && t.currentBet == 2 && t.minRaise == 2
    requires At(t, 0, "D", 10, Active, 0, 0) && At(t, 1, "S", 15, Active, 1, 1) && At(t, 2, "B", 18, Active, 2, 2)
    ensures r == Run(ev, t, [Play(Action("D", Raise, 8)), Play(Action("S", Call, 0))])
    ensures r.phase == PreFlop && |r.seats| == 3 && r.actionIdx == 2 && r.currentBet == 10 && r.minRaise == 8
    ensures r.deck == t.deck
    ensures At(r, 0, "D", 0, AllIn, 10, 10) && At(r, 1, "S", 6, Active, 10, 10) && At(r, 2, "B", 18, Active, 2, 2)
  {
    var raise, call := Action("D", Raise, 8), Action("S", Call, 0);
    TwoInHand(Perform(t, raise).t.seats, 1, 2);
    PassesTo(ev, t, raise, 1);
    var m := ApplyAction(ev, t, raise).t;
    TwoInHand(Perform(m, call).t.seats, 1, 2);
    PassesTo(ev, m, call, 2);
    r := ApplyAction(ev, m, call).t;
    assert [Play(raise), Play(call)][1..] == [Play(call)];
    assert Run(ev, m, [Play(call)]) == Run(ev, r, []);
  }

  /** The big blind raises; the small blind's raise needs 16, has 6, and passes the check against 16. */
  lemma SecondRaise(ev: Evaluator, t: Table) returns (r: Table)
    requires t.phase == PreFlop && |t.seats| == 3 && t.actionIdx == 2 && t.currentBet == 10 && t.minRaise == 8
    requires At(t, 0, "D", 0, AllIn, 10, 10) && At(t, 1, "S", 6, Active, 10, 10) && At(t, 2, "B", 18, Active, 2, 2)
    ensures r == Run(ev, t, [Play(Action("B", Raise, 8)), Play(Action("S", Raise, 8))])
    ensures r.phase == PreFlop && |r.seats| == 3 && r.actionIdx == 2 && r.currentBet == 26 && r.deck == t.deck
    ensures At(r, 0, "D", 0, AllIn, 10, 10) && At(r, 1, "S", 0, AllIn, 16, 16) && At(r, 2, "B", 2, Active, 18, 18)
  {
    var first, second := Action("B", Raise, 8), Action("S", Raise, 8);
    TwoInHand(Perform(t, first).t.seats, 1, 2);
    PassesTo(ev, t, first, 1);
    var m := ApplyAction(ev, t, first).t;
    TwoInHand(Perform(m, second).t.seats, 1, 2);
    PassesTo(ev, m, second, 2);
    r := ApplyAction(ev, m, second).t;
    assert [Play(first), Play(second)][1..] == [Play(second)];
    assert Run(ev, m, [Play(second)]) == Run(ev, r, []);
  }

  lemma LosingShowdown(ev: Evaluator, s: Table)
    requires |s.seats| == 3 && s.deck.Some?
    requires s.seats[0].id == "D" && s.seats[0].totalBet == 10 && InHand(s.seats[0])
    requires s.seats[1].id == "S" && s.seats[1].totalBet == 16 && InHand(s.seats[1])
    requires s.seats[2].id == "B" && s.seats[2].totalBet == 18 && s.seats[2].status == Folded
    ensures var r := StartShowdown(ev, s).t;
            r.phase == Settled && !OnlyOneRemaining(r) && !TopIsLive(r.seats)
  {
    var w, r := WithPots(s.(phase := Showdown)), StartShowdown(ev, s).t;
    assert DistinctIDs(w.seats) && Betted(w.seats);
    DistributeIs(ev, w);
    TwoInHand(w.seats, 0, 1);
    StacksCount(w.seats, r.seats);
    forall u | 0 <= u < 3 && r.seats[u].status != Folded ensures !IsTop(r.seats, u) {
      assert r.seats[2].totalBet == 18;
    }
  }

  /** The big blind folds its 18 and nobody is left to act: the showdown is between 10 and 16. */
  lemma TopFolds(ev: Evaluator, t: Table) returns (r: Table)
    requires t.phase == PreFlop && |t.seats| == 3 && t.actionIdx == 2 && t.deck.Some? && |t.deck.value| >= 8
    requires At(t, 0, "D", 0, AllIn, 10, 10) && At(t, 1, "S", 0, AllIn, 16, 16) && At(t, 2, "B", 2, Active, 18, 18)
    ensures r == Run(ev, t, [Play(Action("B", Fold, 0))])
    ensures r.phase == Settled && !OnlyOneRemaining(r) && !TopIsLive(r.seats)
  {
    var fold := Action("B", Fold, 0);
    var f := Recorded(Perform(t, fold).t, fold);
    TwoInHand(f.seats, 0, 1);
    NextActiveIs(f.seats, 2);
    var s := EndShape(ev, f);
    CountCanActIs(s.seats);
    r := ApplyAction(ev, t, fold).t;
    assert Run(ev, t, [Play(fold)]) == Run(ev, r, [Play(fold)][1..]) == r;
    LosingShowdown(ev, s);
  }

  lemma {:induction false} RunSplits(ev: Evaluator, t: Table, a: seq<Input>, b: seq<Input>)
    ensures Run(ev, t, a + b) == Run(ev, Run(ev, t, a), b)
    decreases |a|
  {
    if a == [] {
      assert a + b == b;
    } else {
      assert (a + b)[1..] == a[1..] + b;
      RunSplits(ev, Step(ev, t, a[0]).t, a[1..], b);
    }
  }

  /** Without the assumption on raises chips can be lost: an accepted run of five actions that does it. */
  lemma UnderfundedRaiseLosesChips(ev: Evaluator, shuffled: seq<Card>) returns (inputs: seq<Input>)
    requires |shuffled| >= 14
    ensures var t := NewTable(THREE, 0, 1, 2);
            && Ready(t) && Run(ev, StartHand(t, shuffled).t, inputs).phase == Settled
            && Stacks(Run(ev, StartHand(t, shuffled).t, inputs).seats) < Stacks(t.seats)
  {
    var t := NewTable(THREE, 0, 1, 2);
    var start := OpeningSpot(t, shuffled);
    var m := FirstRaise(ev, start);
    var n := SecondRaise(ev, m);
    var r := TopFolds(ev, n);
    var a, b, c := [Play(Action("D", Raise, 8)), Play(Action("S", Call, 0))],
                   [Play(Action("B", Raise, 8)), Play(Action("S", Raise, 8))], [Play(Action("B", Fold, 0))];
    RunSplits(ev, start, a, b);
    RunSplits(ev, start, a + b, c);
    inputs := a + b + c;
    PlaintextHandConservesExactly(ev, t, shuffled, inputs);
  }

  lemma ThreeSpots(t: Table)
    requires |t.seats| == 3 && t.dealer == 0
    ensures SmallBlindIndex(t) == 1 && BigBlindIndex(t) == 2
  {
  }

  lemma ThreeBlinds(t: Table, p: Table)
    requires t.seats == THREE && t.smallBlind == 1 && t.bigBlind == 2 && p == PostBlindsAt(t, 1, 2)
    ensures At(p, 0, "D", 10, Active, 0, 0) && At(p, 1, "S", 15, Active, 1, 1) && At(p, 2, "B", 18, Active, 2, 2)
    ensures p.currentBet == 2 && p.minRaise == t.minRaise && p.deck == t.deck && p.dealer == t.dealer
  {
  }

  lemma FirstToAct(t: Table)
    requires |t.seats| == 3 && At(t, 0, "D", 10, Active, 0, 0)
    ensures NextActive(t.seats, 2) == 0
  {
    NextActiveIs(t.seats, 2);
    assert CanAct(t.seats[0]);
  }

  lemma ThreeReady(t: Table)
    requires t == NewTable(THREE, 0, 1, 2)
    ensures Ready(t) && t.seats == THREE && t.dealer == 0 && t.smallBlind == 1 && t.bigBlind == 2 && t.deck.Some?
  {
    NewTableIsReady(THREE, 0, 1, 2);
  }

  lemma ThreeDealt(p: Table, q: Table)
    requires SameButCards(p, q) && |p.seats| == 3 && p.dealer == 0 && p.currentBet == 2 && p.minRaise == 2
    requires At(p, 0, "D", 10, Active, 0, 0) && At(p, 1, "S", 15, Active, 1, 1) && At(p, 2, "B", 18, Active, 2, 2)
    ensures var s := OpenPreFlop(q);
            && s.phase == PreFlop && |s.seats| == 3 && s.actionIdx == 0 && s.currentBet == 2 && s.minRaise == 2
                && s.deck == q.deck && s.dealer == 0 && s.lastRaiser == 2
            && At(s, 0, "D", 10, Active, 0, 0) && At(s, 1, "S", 15, Active, 1, 1) && At(s, 2, "B", 18, Active, 2, 2)
  {
    ThreeSpots(q);
    FirstToAct(q);
  }

  lemma OpeningSpot(t: Table, shuffled: seq<Card>) returns (s: Table)
    requires |shuffled| >= 14 && t == NewTable(THREE, 0, 1, 2)
    ensures Ready(t) && s == StartHand(t, shuffled).t && s.deck.Some? && |s.deck.value| >= 8
    ensures s.dealer == 0 && s.lastRaiser == 2
    ensures s.phase == PreFlop && |s.seats| == 3 && s.actionIdx == 0 && s.currentBet == 2 && s.minRaise == 2
    ensures At(s, 0, "D", 10, Active, 0, 0) && At(s, 1, "S", 15, Active, 1, 1) && At(s, 2, "B", 18, Active, 2, 2)
  {
    ThreeReady(t);
    var d := t.(deck := Some(shuffled));
    ThreeSpots(d);
    var p := PostBlindsAt(d, 1, 2);
    ThreeBlinds(d, p);
    var q := StartHandIs(t, shuffled, p);
    ThreeDealt(p, q);
    s := OpenPreFlop(q);
  }
}
