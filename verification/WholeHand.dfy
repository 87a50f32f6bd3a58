// Statements about every hand from its start, in either mode, whatever is fed to the machine
// (internal/game/machine.go:48-146, 158-186, 240-295, 451-476).
module WholeHand {
  import opened Conservation
  import opened GameState
  import opened Hand
  import opened Ledger
  import opened Opening
  import opened Rounds
  import opened Rules
  import opened Termination
  import opened Wrappers

  /** t is what StartHand, on a deck that can serve the table, or StartHandCrypto makes of a ready table. */
  ghost predicate Started(t0: Table, t: Table) {
    && Ready(t0)
    && (|| t == StartHandCrypto(t0).t
        || (t0.deck.Some? && exists shuffled ::
            |shuffled| >= 2 * |t0.seats| + CardsNeeded(PreFlop) && t == StartHand(t0, shuffled).t))
  }

  lemma StartedWell(t0: Table, t: Table)
    requires Started(t0, t)
    ensures TurnsInOrder(t) && Tallied(t, Stacks(t0.seats)) && |t.seats| == |t0.seats| && t.phase == PreFlop
  {
    if t == StartHandCrypto(t0).t {
      var c := t0.(deck := None);
      StartCryptoConserves(t0);
      OpenedTallies(c, PostBlinds(c));
    } else {
      var shuffled :| |shuffled| >= 2 * |t0.seats| + CardsNeeded(PreFlop) && t == StartHand(t0, shuffled).t;
      var d := t0.(deck := Some(shuffled));
      StartConserves(t0, shuffled);
      var q := StartHandIs(t0, shuffled, PostBlinds(d));
      OpenedTallies(d, q);
    }
  }

  lemma {:induction false} RoomIsStacked(seats: seq<Seat>)
    requires Solvent(seats)
    ensures SumOf(Room, seats) <= Stacks(seats) + |seats| && SumOf(Bets, seats) >= 0
  {
    if seats != [] {
      assert forall i :: 0 <= i < |seats[1..]| ==> seats[1..][i] == seats[i + 1];
      RoomIsStacked(seats[1..]);
    }
  }

  /** A bound on the accepted actions and streets of a hand, from the chips brought to the table. */
  function HandBound(chips: int, n: nat): int {
    (chips + n + 7) * (n + 1) + n
  }

  lemma AheadIsBounded(t0: Table, t: Table)
    requires Started(t0, t)
    ensures Ahead(t) <= Stacks(t0.seats) + |t0.seats| + 7 && |t.seats| == |t0.seats|
  {
    StartedWell(t0, t);
    RoomIsStacked(t.seats);
    ChipsAreStacksAndBets(t.seats);
  }

  lemma SupplyIsBounded(t: Table, chips: int, n: nat)
    requires Ahead(t) <= chips + n + 7 && |t.seats| == n
    ensures Supply(t) <= HandBound(chips, n)
  {
    var a, b := Ahead(t), chips + n + 7;
    assert a * (n + 1) <= b * (n + 1);
  }

  lemma StartIsBounded(t0: Table, t: Table)
    requires Started(t0, t)
    ensures Supply(t) <= HandBound(Stacks(t0.seats), |t0.seats|)
  {
    AheadIsBounded(t0, t);
    SupplyIsBounded(t, Stacks(t0.seats), |t0.seats|);
  }

  /** Every hand is finite: from the start of any hand, no run has more accepted actions and streets than the bound. */
  lemma HandIsBounded(ev: Evaluator, t0: Table, t: Table, inputs: seq<Input>)
    requires Started(t0, t)
    ensures Accepted(ev, t, inputs) <= HandBound(Stacks(t0.seats), |t0.seats|)
  {
    StartedWell(t0, t);
    RunIsBounded(ev, t, inputs, Stacks(t0.seats));
    StartIsBounded(t0, t);
  }

  lemma ChipsAreStacksAndBets(seats: seq<Seat>)
    ensures Chips(seats) == Stacks(seats) + SumOf(Bets, seats)
  {
  }

  /** All seats that can act have put in the same amount. */
  predicate EqualStakes(seats: seq<Seat>) {
    forall i, j :: 0 <= i < |seats| && 0 <= j < |seats| && CanAct(seats[i]) && CanAct(seats[j]) ==>
        seats[i].totalBet == seats[j].totalBet
  }

  lemma LevelIsEqual(t: Table, k: int)
    requires Level(t, k)
    ensures EqualStakes(t.seats)
  {
  }

  /**
   * A betting round that goes on to another street or the showdown ends with every seat
   * that can act having matched the bet, and so with the same total bet.
   */
  lemma RoundsEndMatched(ev: Evaluator, t0: Table, t: Table, inputs: seq<Input>, s: Table, a: Action)
    requires Started(t0, t) && s == Run(ev, t, inputs) && ApplyAction(ev, s, a).err.None?
    ensures 0 <= s.actionIdx < |s.seats|
    ensures var r := Recorded(Perform(s, a).t, a);
            0 <= r.actionIdx < |r.seats| && (EndsRound(r) ==> AllMatched(r) && EqualStakes(r.seats))
  {
    StartedWell(t0, t);
    RunKeepsTurns(ev, t, inputs);
    var k, e :| TurnOf(s, k, e);
    var r, e' := PerformTurn(s, a, k, e);
    var _ := RoundEndsMatched(r, k, e');
    if EndsRound(r) {
      LevelIsEqual(r, k + r.currentBet);
    }
  }

  /** Whenever a street or the reveals are awaited, all seats that can act carry the same total bet. */
  lemma StreetsOpenLevel(ev: Evaluator, t0: Table, t: Table, inputs: seq<Input>, s: Table)
    requires Started(t0, t) && s == Run(ev, t, inputs) && (s.phase == AwaitingStreet || s.phase == Showdown)
    ensures EqualStakes(s.seats)
  {
    StartedWell(t0, t);
    RunKeepsTurns(ev, t, inputs);
    var k :| Level(s, k);
    LevelIsEqual(s, k);
  }

  /** The seat whose turn it is can always fold. Whether there is such a seat is the subject of Progress. */
  lemma TurnCanFold(ev: Evaluator, t0: Table, t: Table, inputs: seq<Input>, s: Table)
    requires Started(t0, t) && s == Run(ev, t, inputs) && BettingPhase(s.phase) && 0 <= s.actionIdx < |s.seats|
    ensures ApplyAction(ev, s, Action(s.seats[s.actionIdx].id, Fold, 0)).err.None?
  {
    StartedWell(t0, t);
    RunKeepsTurns(ev, t, inputs);
    RunTallies(ev, t, inputs, Stacks(t0.seats));
    FoldIsAccepted(ev, s, Stacks(t0.seats));
  }

  /** The branch of an all-in that would raise the bet is never taken. */
  lemma AllInNeverRaises(ev: Evaluator, t0: Table, t: Table, inputs: seq<Input>, s: Table)
    requires Started(t0, t) && s == Run(ev, t, inputs) && BettingPhase(s.phase) && 0 <= s.actionIdx < |s.seats|
    ensures var p := s.seats[s.actionIdx]; p.currentBet + p.stack <= s.currentBet + p.stack
    ensures BetAll(s) == Bet(s, s.actionIdx, s.seats[s.actionIdx].stack)
  {
    StartedWell(t0, t);
    RunKeepsTurns(ev, t, inputs);
    var k, e :| TurnOf(s, k, e);
  }
}
