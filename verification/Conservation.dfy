// Chip conservation over whole hands (internal/game/machine.go, pot.go).
module Conservation {
  import opened Cards
  import opened GameState
  import opened Hand
  import opened Pots
  import opened Rounds
  import opened Rules
  import opened Settlement
  import opened Wrappers

  function Chips(seats: seq<Seat>): int {
    Stacks(seats) + TotalBets(seats)
  }

  /** A raise that the actor's stack covers in full, as the input box of the client demands. */
  predicate Funded(t: Table, i: Input) {
    i.Play? && i.action.kind == Raise && 0 <= t.actionIdx < |t.seats| ==>
      t.currentBet - t.seats[t.actionIdx].currentBet + i.action.amount <= t.seats[t.actionIdx].stack
  }

  predicate FundedRun(ev: Evaluator, t: Table, inputs: seq<Input>)
    decreases |inputs|
  {
    inputs != [] ==> Funded(t, inputs[0]) && FundedRun(ev, Step(ev, t, inputs[0]).t, inputs[1..])
  }

  // ---------------------------------------------------------------------- the invariant

  predicate Solvent(seats: seq<Seat>) {
    forall j :: 0 <= j < |seats| ==> seats[j].stack >= 0 && seats[j].totalBet >= 0
  }

  /** Some seat still in the hand has put in the line or more. */
  ghost predicate Topped(seats: seq<Seat>, line: int) {
    exists u :: 0 <= u < |seats| && InHand(seats[u]) && seats[u].totalBet >= line
  }

  /** No folded seat has put in more than the line. */
  predicate Bounded(seats: seq<Seat>, line: int) {
    forall j :: 0 <= j < |seats| && seats[j].status == Folded ==> seats[j].totalBet <= line
  }

  /** If the actor folds, the hand is over or some other seat has put in the line. */
  ghost predicate Covered(t: Table, line: int) {
    || CountInHand(t.seats) <= 2
    || exists u :: 0 <= u < |t.seats| && u != t.actionIdx && InHand(t.seats[u]) && t.seats[u].totalBet >= line
  }

  ghost predicate Backed(seats: seq<Seat>, line: int) {
    Solvent(seats) && Bounded(seats, line) && Topped(seats, line) && CountInHand(seats) >= 2
  }

  /** The bets are backed on the actor's turn; k + t.currentBet is what a matched seat has put in. */
  ghost predicate BackedTurn(t: Table, k: int, e: int) {
    TurnOf(t, k, e) && Backed(t.seats, k + t.currentBet) && Covered(t, k + t.currentBet)
  }

  ghost predicate BackedBetween(t: Table, line: int) {
    Level(t, line) && Backed(t.seats, line)
  }

  /** The chips on the table are total and the invariant behind it holds. */
  ghost predicate Conserving(t: Table, total: int) {
    && t.bigBlind > 0 && t.dealer < |t.seats| && CardsFit(t) && DistinctIDs(t.seats)
    && match t.phase
       case Waiting => false
       case Settled => Stacks(t.seats) == total
       case Showdown => Chips(t.seats) == total && t.pots == CalculatePots(t.seats) && exists line ::
           BackedBetween(t, line)
       case AwaitingStreet => Chips(t.seats) == total && exists line :: BackedBetween(t, line)
       case _ => Chips(t.seats) == total && (t.actionIdx == -1 || exists k, e :: BackedTurn(t, k, e))
  }

  // ------------------------------------------------------------------------- one action

  lemma {:induction false} CountUpdate(seats: seq<Seat>, i: nat, s: Seat)
    requires i < |seats|
    ensures CountInHand(seats[i := s])
        == CountInHand(seats) - (if InHand(seats[i]) then 1 else 0) + (if InHand(s) then 1 else 0)
  {
    if i == 0 {
      assert seats[0 := s][1..] == seats[1..];
    } else {
      CountUpdate(seats[1..], i - 1, s);
      assert seats[i := s][1..] == seats[1..][i - 1 := s];
    }
  }

  /** What any accepted action does to the actor's seat. */
  predicate Moved(before: Seat, after: Seat) {
    && after == before.(stack := after.stack, status := after.status, currentBet := after.currentBet,
        totalBet := after.totalBet)
    && after.stack + after.totalBet == before.stack + before.totalBet
    && after.totalBet >= before.totalBet && after.stack >= 0
    && (after.status == Folded ==> after.totalBet == before.totalBet)
    && (after.status == Folded || InHand(after))
  }

  lemma PerformMoves(t: Table, a: Action, k: int, e: int)
    requires TurnOf(t, k, e) && Solvent(t.seats) && Perform(t, a).err.None?
    ensures var i, r := t.actionIdx, Perform(t, a).t;
            && |r.seats| == |t.seats| && r.seats == t.seats[i := r.seats[i]] && Moved(t.seats[i], r.seats[i])
            && r.currentBet >= t.currentBet
            && (r.currentBet > t.currentBet || r.seats[i].status != Folded || r == t.(seats := r.seats))
  {
    if a.kind == GoAllIn {
      assert BetAll(t) == Bet(t, t.actionIdx, t.seats[t.actionIdx].stack);
    }
  }

  /** After a raise that the stack covers, the raiser has put in the new line. */
  lemma FundedRaiseTops(t: Table, a: Action, k: int, e: int)
    requires TurnOf(t, k, e) && Perform(t, a).err.None? && Funded(t, Play(a))
    ensures var i, r := t.actionIdx, Perform(t, a).t;
            r.currentBet > t.currentBet ==> InHand(r.seats[i]) && r.seats[i].totalBet == k + r.currentBet
  {
    if a.kind == GoAllIn {
      assert BetAll(t) == Bet(t, t.actionIdx, t.seats[t.actionIdx].stack);
    }
  }

  lemma ChipsMove(seats: seq<Seat>, i: nat, s: Seat)
    requires i < |seats| && Moved(seats[i], s)
    ensures Chips(seats[i := s]) == Chips(seats)
  {
    SumUpdate(Stack, seats, i, s);
    SumUpdate(Bets, seats, i, s);
  }

  lemma PerformKeepsBacked(t: Table, a: Action, k: int, e: int)
    requires BackedTurn(t, k, e) && Perform(t, a).err.None? && Funded(t, Play(a))
    ensures var r := Perform(t, a).t;
            && Chips(r.seats) == Chips(t.seats) && Solvent(r.seats) && Bounded(r.seats, k + r.currentBet)
            && CountInHand(r.seats) >= 1 && (CountInHand(r.seats) >= 2 ==> Topped(r.seats, k + r.currentBet))
  {
    var i, r := t.actionIdx, Perform(t, a).t;
    PerformMoves(t, a, k, e);
    FundedRaiseTops(t, a, k, e);
    ChipsMove(t.seats, i, r.seats[i]);
    CountUpdate(t.seats, i, r.seats[i]);
    if r.currentBet == t.currentBet && CountInHand(r.seats) >= 2 {
      if r.seats[i].status == Folded {
        var u :| 0 <= u < |t.seats| && u != i && InHand(t.seats[u]) && t.seats[u].totalBet >= k + t.currentBet;
        assert r.seats[u] == t.seats[u];
      } else {
        var u :| 0 <= u < |t.seats| && InHand(t.seats[u]) && t.seats[u].totalBet >= k + t.currentBet;
        assert InHand(r.seats[u]) && r.seats[u].totalBet >= t.seats[u].totalBet;
      }
    }
  }

  /** The seat that gets the turn is covered: it owes chips, or another seat can act too. */
  lemma NextIsCovered(t: Table, k: int, e: int)
    requires 0 <= t.actionIdx < |t.seats| && ArcPast(t, e) && Base(t, k) && t.roundActions > 0
    requires Topped(t.seats, k + t.currentBet) && !EndsRound(t)
    ensures Covered(t.(actionIdx := NextActive(t.seats, t.actionIdx)), k + t.currentBet)
  {
    var next := NextActive(t.seats, t.actionIdx);
    NextActiveIs(t.seats, t.actionIdx);
    ShiftArc(t, e, next);
    if t.seats[next].currentBet < t.currentBet {
      var u :| 0 <= u < |t.seats| && InHand(t.seats[u]) && t.seats[u].totalBet >= k + t.currentBet;
      assert u != next;
    } else {
      var j := AnotherCanAct(t.seats, next);
      assert InHand(t.seats[j]) && t.seats[j].totalBet >= k + t.currentBet;
    }
  }

  // ------------------------------------------------------------------- ends of rounds

  /** Seats that agree in all that the invariant speaks of between rounds. */
  predicate SameStakes(a: seq<Seat>, b: seq<Seat>) {
    && |a| == |b|
    && forall i :: 0 <= i < |a| ==> b[i] == a[i].(currentBet := b[i].currentBet, hole := b[i].hole)
  }

  lemma {:induction false} StakesCount(a: seq<Seat>, b: seq<Seat>)
    requires SameStakes(a, b)
    ensures CountInHand(a) == CountInHand(b)
  {
    if a != [] {
      assert forall i :: 0 <= i < |a[1..]| ==> a[1..][i] == a[i + 1] && b[1..][i] == b[i + 1];
      StakesCount(a[1..], b[1..]);
    }
  }

  lemma StakesChips(a: seq<Seat>, b: seq<Seat>)
    requires SameStakes(a, b)
    ensures Chips(a) == Chips(b)
  {
    SumSame(Stack, a, b);
    SumSame(Bets, a, b);
  }

  lemma StakesBacked(a: Table, b: Table, line: int)
    requires SameStakes(a.seats, b.seats) && BackedBetween(a, line)
    ensures BackedBetween(b, line)
  {
    StakesCount(a.seats, b.seats);
    var u :| 0 <= u < |a.seats| && InHand(a.seats[u]) && a.seats[u].totalBet >= line;
    assert InHand(b.seats[u]) && b.seats[u].totalBet >= line;
  }

  lemma StakesIDs(a: seq<Seat>, b: seq<Seat>)
    requires SameStakes(a, b) && DistinctIDs(a)
    ensures DistinctIDs(b)
  {
  }

  lemma {:induction false} StakesContribs(a: seq<Seat>, b: seq<Seat>)
    requires SameStakes(a, b)
    ensures Contribs(a) == Contribs(b)
  {
    if a != [] {
      assert forall i :: 0 <= i < |a[1..]| ==> a[1..][i] == a[i + 1] && b[1..][i] == b[i + 1];
      StakesContribs(a[1..], b[1..]);
    }
  }

  lemma BackedIsLive(t: Table, line: int)
    requires BackedBetween(t, line)
    ensures TopIsLive(t.seats)
  {
    var v := TopExists(t.seats);
    if t.seats[v].status == Folded {
      var u :| 0 <= u < |t.seats| && InHand(t.seats[u]) && t.seats[u].totalBet >= line;
      assert IsTop(t.seats, u);
    }
  }

  lemma DistributeConserves(ev: Evaluator, t: Table, line: int)
    requires BackedBetween(t, line) && DistinctIDs(t.seats) && t.pots == CalculatePots(t.seats)
    requires DistributePots(ev, t).err.None?
    ensures var r := DistributePots(ev, t).t;
            r.phase == Settled && Stacks(r.seats) == Chips(t.seats) && DistinctIDs(r.seats) && |r.seats| == |t.seats|
  {
    DistributeIs(ev, t);
    BackedIsLive(t, line);
    LiveTopKeepsAll(t.seats);
    SameIDs(t.seats, DistributePots(ev, t).t.seats);
  }

  lemma ShowdownConserves(ev: Evaluator, s: Table, line: int, total: int)
    requires BackedBetween(s, line) && DistinctIDs(s.seats) && Chips(s.seats) == total && s.bigBlind > 0
    requires s.dealer < |s.seats|
    requires CryptoMode(s) ==> |s.board| == 5
    ensures Conserving(StartShowdown(ev, s).t, total)
  {
    var w := WithPots(s.(phase := Showdown));
    assert BackedBetween(w, line);
    if !(CryptoMode(w) && HolesIncomplete(w)) {
      DistributeConserves(ev, w, line);
    }
  }

  lemma FreshTurnIsBacked(s: Table, line: int)
    requires FreshTurn(s) && s.dealer < |s.seats| && s.bigBlind > 0 && BackedBetween(s, line)
    ensures BackedTurn(s, line, 0)
  {
    FreshTurnIsTurn(s, line);
    var j := AnotherCanAct(s.seats, s.actionIdx);
    assert InHand(s.seats[j]) && s.seats[j].totalBet >= line;
  }

  lemma ExitConserves(ev: Evaluator, s: Table, o: Outcome, line: int, total: int)
    requires RoundExit(ev, s, o) && CardsFit(s) && BackedBetween(s, line) && DistinctIDs(s.seats)
    requires Chips(s.seats) == total
    requires s.bigBlind > 0 && s.dealer < |s.seats|
    ensures Conserving(o.t, total)
  {
    if o == Outcome(s, None) && FreshTurn(s) {
      FreshTurnIsBacked(s, line);
    } else if o == Outcome(s, None) && s.phase == AwaitingStreet {
    } else {
      ShowdownConserves(ev, s, line, total);
    }
  }

  lemma KinConserves(t: Table, s: Table, line: int)
    requires Kin(t, s) && BackedBetween(t, line) && DistinctIDs(t.seats)
    ensures BackedBetween(s, line) && DistinctIDs(s.seats) && Chips(s.seats) == Chips(t.seats)
  {
    StakesBacked(t, s, line);
    StakesIDs(t.seats, s.seats);
    StakesChips(t.seats, s.seats);
  }

  // ---------------------------------------------------------------------- whole hands

  lemma RoundEndConserves(ev: Evaluator, t: Table, k: int, total: int)
    requires BettingPhase(t.phase) && t.bigBlind > 0 && t.dealer < |t.seats| && CardsFit(t) && DistinctIDs(t.seats)
    requires BackedBetween(t, k + t.currentBet) && Chips(t.seats) == total && Level(t, k + t.currentBet)
    ensures Conserving(EndBettingRound(ev, t).t, total)
  {
    var s := EndShape(ev, t);
    KinConserves(t, s, k + t.currentBet);
    ExitConserves(ev, s, EndBettingRound(ev, t), k + t.currentBet, total);
  }

  lemma AfterActionConserves(ev: Evaluator, t: Table, k: int, e: int, total: int)
    requires BettingPhase(t.phase) && t.bigBlind > 0 && t.dealer < |t.seats| && CardsFit(t) && DistinctIDs(t.seats)
    requires 0 <= t.actionIdx < |t.seats| && ArcPast(t, e) && Base(t, k) && t.minRaise > 0 && t.roundActions > 0
    requires Chips(t.seats) == total && Solvent(t.seats) && Bounded(t.seats, k + t.currentBet)
    requires CountInHand(t.seats) >= 1
    requires CountInHand(t.seats) >= 2 ==> Topped(t.seats, k + t.currentBet)
    ensures Conserving(AfterAction(ev, t).t, total)
  {
    if OnlyOneRemaining(t) {
      SingleWinnerIs(t);
      SameIDs(t.seats, ResolveSingleWinner(t).t.seats);
    } else {
      var e' := RoundEndsMatched(t, k, e);
      if EndsRound(t) {
        RoundEndConserves(ev, t, k, total);
      } else {
        NextIsCovered(t, k, e);
        assert BackedTurn(t.(actionIdx := NextActive(t.seats, t.actionIdx)), k, e');
      }
    }
  }

  lemma PlayConserves(ev: Evaluator, t: Table, a: Action, total: int)
    requires Conserving(t, total) && BettingPhase(t.phase) && 0 <= t.actionIdx < |t.seats| && Funded(t, Play(a))
    ensures Conserving(Act(ev, t, a).t, total)
  {
    var k, e :| BackedTurn(t, k, e);
    if Perform(t, a).err.None? {
      PerformKeepsBacked(t, a, k, e);
      PerformMoves(t, a, k, e);
      PerformKeepsCards(t, a);
      var r, e' := PerformTurn(t, a, k, e);
      AfterActionConserves(ev, r, k, e', total);
    }
  }

  lemma StreetConserves(ev: Evaluator, t: Table, cards: seq<Card>, total: int)
    requires Conserving(t, total)
    ensures Conserving(ApplyStreet(ev, t, cards).t, total)
  {
    if ApplyStreet(ev, t, cards).t != t {
      var line :| BackedBetween(t, line);
      var board := t.board + cards;
      var s := t.(board := board, phase := if |board| == 3 then Flop else if |board| == 4 then Turn else River);
      var f := OpenShape(ev, s);
      assert BackedBetween(s, line);
      KinConserves(s, f, line);
      ExitConserves(ev, f, StartNewBettingRound(ev, s), line, total);
    }
  }

  lemma ShowConserves(ev: Evaluator, t: Table, id: string, hole: (Card, Card), total: int)
    requires Conserving(t, total)
    ensures Conserving(ApplyHoleReveal(ev, t, id, hole).t, total)
  {
    SeatIndexFromIs(t.seats, id, 0);
    var o := ApplyHoleReveal(ev, t, id, hole);
    if o.t != t {
      var line :| BackedBetween(t, line);
      var idx := SeatIndex(t.seats, id);
      var r := t.(seats := t.seats[idx := t.seats[idx].(hole := hole)]);
      var s := if HoleDealt(t.seats[idx]) then t else r;
      StakesBacked(t, s, line);
      StakesChips(t.seats, s.seats);
      StakesContribs(t.seats, s.seats);
      StakesIDs(t.seats, s.seats);
      if !HolesIncomplete(s) {
        DistributeConserves(ev, s, line);
      }
    }
  }

  /**
   * Whatever is fed to the machine, as long as raises are funded, the stacks at the end of
   * the hand add up to the chips on the table at its start.
   */
  lemma {:induction false} RunConserves(ev: Evaluator, t: Table, inputs: seq<Input>, total: int)
    requires Conserving(t, total) && FundedRun(ev, t, inputs)
    ensures Conserving(Run(ev, t, inputs), total)
    decreases |inputs|
  {
    if inputs != [] {
      match inputs[0] {
        case Play(a) =>
          if Step(ev, t, inputs[0]).t != t {
            PlayConserves(ev, t, a, total);
          }
        case Street(cards) => StreetConserves(ev, t, cards, total);
        case Show(id, hole) => ShowConserves(ev, t, id, hole, total);
      }
      RunConserves(ev, Step(ev, t, inputs[0]).t, inputs[1..], total);
    }
  }
}
