// Which seats post the blinds and who has the turn (internal/game/machine.go:20-46, 120-132,
// 240-266, 269-295, 451-476), by the order of the seats around the table.
module SeatOrder {
  import opened Cards
  import opened GameState
  import opened Hand
  import opened Opening
  import opened Rounds
  import opened Rules
  import Termination
  import opened WholeHand
  import opened Wrappers

  /** Seat i can act, and of the seats that can it is the first one reached from a seat to its left. */
  predicate FirstLeft(seats: seq<Seat>, from: int, i: int) {
    && 0 <= i < |seats| && CanAct(seats[i])
    && forall j :: 0 <= j < |seats| && CanAct(seats[j]) ==> Gap(from, i, |seats|) <= Gap(from, j, |seats|)
  }

  function Least(a: int, b: int): int {
    if a < b then a else b
  }

  /** s is a seat that waited, with a blind posted: no more than its stack, and all in if that is all of it. */
  predicate Posted(was: Seat, s: Seat, blind: int) {
    && s.id == was.id && s.stack == was.stack - Least(blind, was.stack)
    && s.currentBet == s.totalBet == Least(blind, was.stack) && (CanAct(s) <==> blind < was.stack) && Remaining(s)
  }

  predicate Untouched(was: Seat, s: Seat) {
    s == was.(hole := s.hole)
  }

  /** The blinds have been posted by seats sb and bb and by nobody else. */
  predicate BlindsPosted(t0: Table, t: Table, sb: nat, bb: nat) {
    && |t.seats| == |t0.seats| && sb < |t.seats| && bb < |t.seats| && sb != bb
    && Posted(t0.seats[sb], t.seats[sb], t0.smallBlind) && Posted(t0.seats[bb], t.seats[bb], t0.bigBlind)
    && (forall i :: 0 <= i < |t.seats| && i != sb && i != bb ==> Untouched(t0.seats[i], t.seats[i]))
    && t.log == t0.log + [Action(t0.seats[sb].id, Raise, t.seats[sb].totalBet),
                          Action(t0.seats[bb].id, Raise, t.seats[bb].totalBet)]
  }

  /** The small blind is left of the dealer and the big blind left of it; heads up the dealer posts the small one. */
  predicate BlindSeats(n: int, dealer: int, sb: int, bb: int) {
    if n == 2 then sb == dealer && Gap(dealer, bb, n) == 1 else Gap(dealer, sb, n) == 1 && Gap(dealer, bb, n) == 2
  }

  lemma BlindSeatsAre(t: Table)
    requires |t.seats| >= 2 && t.dealer < |t.seats|
    ensures BlindSeats(|t.seats|, t.dealer, SmallBlindIndex(t), BigBlindIndex(t))
  {
    AroundIs(t.dealer, 1, |t.seats|);
    AroundIs(t.dealer, 2, |t.seats|);
  }

  lemma OpenIs(t: Table, q: Table, sb: nat, bb: nat)
    requires Ready(t) && SameButCards(PostBlinds(t), q) && sb == SmallBlindIndex(t) && bb == BigBlindIndex(t)
    ensures var o := OpenPreFlop(q);
            && BlindsPosted(t, o, sb, bb) && o.lastRaiser == bb && o.roundActions == 0
            && (o.actionIdx == -1 || FirstLeft(o.seats, bb, o.actionIdx))
  {
    BlindsAdjacent(t);
    PostIs(t, sb, bb);
    NextActiveIs(q.seats, bb);
  }

  /** A hand starts with the blinds posted and the turn with the first seat left of the big blind that can act. */
  lemma StartsLeftOfBlind(t0: Table, t: Table) returns (sb: nat, bb: nat)
    requires Started(t0, t)
    ensures BlindSeats(|t0.seats|, t0.dealer, sb, bb) && BlindsPosted(t0, t, sb, bb)
    ensures t.currentBet ==
            if t.seats[sb].totalBet > t.seats[bb].totalBet then t.seats[sb].totalBet else t.seats[bb].totalBet
    ensures t.actionIdx == -1 || FirstLeft(t.seats, bb, t.actionIdx)
  {
    sb, bb := SmallBlindIndex(t0), BigBlindIndex(t0);
    BlindSeatsAre(t0);
    if t == StartHandCrypto(t0).t {
      var c := t0.(deck := None);
      OpenIs(c, PostBlinds(c), sb, bb);
    } else {
      var shuffled :| |shuffled| >= 2 * |t0.seats| + CardsNeeded(PreFlop) && t == StartHand(t0, shuffled).t;
      var d := t0.(deck := Some(shuffled));
      var q := StartHandIs(t0, shuffled, PostBlinds(d));
      OpenIs(d, q, sb, bb);
    }
  }

  // ------------------------------------------------------------------- from turn to turn

  /** A betting round has opened: nothing is bet in it, and the turn is left of the dealer. */
  predicate RoundOpened(o: Table) {
    && o.currentBet == 0 && o.minRaise == o.bigBlind && o.roundActions == 0 && o.lastRaiser == -1
    && (forall i :: 0 <= i < |o.seats| && Remaining(o.seats[i]) ==> o.seats[i].currentBet == 0)
    && FirstLeft(o.seats, o.dealer, o.actionIdx)
    && exists j :: 0 <= j < |o.seats| && CanAct(o.seats[j]) && j != o.actionIdx
  }

  lemma FreshIsOpened(s: Table)
    requires FreshTurn(s) && s.dealer < |s.seats|
    ensures RoundOpened(s)
  {
    NextActiveIs(s.seats, s.dealer);
    var j := AnotherCanAct(s.seats, s.actionIdx);
    assert CanAct(s.seats[j]);
  }

  lemma PassedTurn(r: Table)
    requires 0 <= r.actionIdx < |r.seats| && !EndsRound(r)
    ensures FirstLeft(r.seats, r.actionIdx, NextActive(r.seats, r.actionIdx))
  {
    NextActiveIs(r.seats, r.actionIdx);
  }

  lemma AfterActionTurn(ev: Evaluator, r: Table, o: Table)
    requires BettingPhase(r.phase) && CardsFit(r) && 0 <= r.actionIdx < |r.seats| && r.dealer < |r.seats|
    requires o == AfterAction(ev, r).t && BettingPhase(o.phase)
    ensures if o.phase == r.phase then FirstLeft(o.seats, r.actionIdx, o.actionIdx) else RoundOpened(o)
  {
    if !OnlyOneRemaining(r) {
      if EndsRound(r) {
        var s := EndShape(ev, r);
        FreshIsOpened(s);
      } else {
        PassedTurn(r);
      }
    }
  }

  lemma PlayTurn(ev: Evaluator, t: Table, a: Action, o: Table)
    requires TurnsInOrder(t) && ApplyAction(ev, t, a) == Outcome(o, None) && BettingPhase(o.phase)
    ensures if o.phase == t.phase then FirstLeft(o.seats, t.actionIdx, o.actionIdx) else RoundOpened(o)
  {
    PerformKeepsCards(t, a);
    AfterActionTurn(ev, Recorded(Perform(t, a).t, a), o);
  }

  lemma OpenTurn(ev: Evaluator, s: Table, o: Table)
    requires BettingPhase(s.phase) && CardsFit(s) && s.dealer < |s.seats|
    requires StartNewBettingRound(ev, s).t == o && BettingPhase(o.phase)
    ensures RoundOpened(o)
  {
    var f := OpenShape(ev, s);
    FreshIsOpened(f);
  }

  lemma StreetTurn(ev: Evaluator, t: Table, cards: seq<Card>, o: Table)
    requires TurnsInOrder(t) && ApplyStreet(ev, t, cards) == Outcome(o, None) && BettingPhase(o.phase)
    ensures t.phase == AwaitingStreet && RoundOpened(o)
  {
    var board := t.board + cards;
    var s := t.(board := board, phase := if |board| == 3 then Flop else if |board| == 4 then Turn else River);
    OpenTurn(ev, s, o);
  }

  /**
   * Over every run of every hand: as long as a round goes on the turn passes to the first seat
   * left of the actor that can act, and a round opens with the first one left of the dealer.
   */
  lemma TurnGoesLeft(ev: Evaluator, t0: Table, t: Table, inputs: seq<Input>, s: Table, i: Input, o: Table)
    requires Started(t0, t) && s == Run(ev, t, inputs) && Step(ev, s, i) == Outcome(o, None) && BettingPhase(o.phase)
    ensures if o.phase == s.phase then i.Play? && FirstLeft(o.seats, s.actionIdx, o.actionIdx) else RoundOpened(o)
  {
    StartedWell(t0, t);
    RunKeepsTurns(ev, t, inputs);
    match i {
      case Play(a) => PlayTurn(ev, s, a, o);
      case Street(cards) => StreetTurn(ev, s, cards, o);
      case Show(id, hole) => Termination.ShowUses(ev, s, id, hole);
    }
  }
}
