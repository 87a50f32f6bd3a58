// What a raise must be at least (internal/game/machine.go:79-92, 96-104, 240-246): the big blind and every
// earlier raise of the betting round.
module Raises {
  import opened Cards
  import opened GameState
  import opened Hand
  import opened Ledger
  import opened Opening
  import opened Rounds
  import opened Rules
  import opened Termination
  import opened WholeHand
  import opened Wrappers

  // An accepted raise and the betting round it was made in.
  datatype Made = Made(round: Phase, amount: int)

  function MadeBy(ev: Evaluator, t: Table, i: Input): seq<Made> {
    if i.Play? && i.action.kind == Raise && Step(ev, t, i).err.None? then [Made(t.phase, i.action.amount)] else []
  }

  /** The accepted raises of a run, in order. */
  function RaisesMade(ev: Evaluator, t: Table, inputs: seq<Input>): seq<Made>
    decreases |inputs|
  {
    if inputs == [] then []
    else MadeBy(ev, t, inputs[0]) + RaisesMade(ev, Step(ev, t, inputs[0]).t, inputs[1..])
  }

  /** The amount is at least the big blind and at least every one of the raises made in the round. */
  predicate Tops(amount: int, bb: int, round: Phase, made: seq<Made>) {
    amount >= bb && forall i :: 0 <= i < |made| && made[i].round == round ==> made[i].amount <= amount
  }

  /** No raise is below the big blind or below an earlier one of its round. */
  predicate NeverLess(bb: int, made: seq<Made>) {
    forall i :: 0 <= i < |made| ==> Tops(made[i].amount, bb, made[i].round, made[..i])
  }

  function RoundStage(p: Phase): nat {
    match p
    case PreFlop => 7
    case Flop => 5
    case Turn => 3
    case River => 1
    case _ => 0
  }

  /** While the hand goes on, the minimum raise is the largest raise of the round, or the big blind. */
  predicate LineSet(t: Table, bb: int, made: seq<Made>) {
    Stage(t) > 0 ==>
      && t.bigBlind == bb && (forall i :: 0 <= i < |made| ==> RoundStage(made[i].round) >= Stage(t))
      && (BettingPhase(t.phase) ==>
            && Tops(t.minRaise, bb, t.phase, made)
            && (t.minRaise == bb || exists i :: 0 <= i < |made| && made[i] == Made(t.phase, t.minRaise)))
  }

  /** A raise tops all of them exactly if it is no less than the minimum raise. */
  lemma LineTops(t: Table, bb: int, made: seq<Made>, amount: int)
    requires LineSet(t, bb, made) && BettingPhase(t.phase)
    ensures amount >= t.minRaise <==> Tops(amount, bb, t.phase, made)
  {
    assert Stage(t) > 0;
  }

  /** A table on which a round has opened, or none is on. */
  lemma FreshLine(t: Table, s: Table, bb: int, made: seq<Made>)
    requires LineSet(t, bb, made) && Stage(t) > Stage(s) && s.bigBlind == t.bigBlind
    requires BettingPhase(s.phase) ==> s.minRaise == s.bigBlind
    ensures LineSet(s, bb, made)
  {
  }

  lemma ExitLine(ev: Evaluator, t: Table, s: Table, o: Outcome, bb: int, made: seq<Made>)
    requires LineSet(t, bb, made) && RoundExit(ev, s, o) && s.bigBlind == t.bigBlind
    requires o == StartShowdown(ev, s) || Stage(s) < Stage(t)
    ensures LineSet(o.t, bb, made) && o.err.None?
  {
    if o == StartShowdown(ev, s) {
      assert Stage(o.t) == 0;
    } else {
      FreshLine(t, s, bb, made);
    }
  }

  lemma AfterActionLine(ev: Evaluator, r: Table, bb: int, made: seq<Made>)
    requires LineSet(r, bb, made) && BettingPhase(r.phase) && CardsFit(r) && 0 <= r.actionIdx < |r.seats|
    ensures LineSet(AfterAction(ev, r).t, bb, made) && AfterAction(ev, r).err.None?
  {
    if OnlyOneRemaining(r) {
      assert Stage(AfterAction(ev, r).t) == 0;
    } else if EndsRound(r) {
      var s := EndShape(ev, r);
      ExitLine(ev, r, s, EndBettingRound(ev, r), bb, made);
    }
  }

  /** What an action makes of the minimum raise. */
  lemma PerformMin(t: Table, a: Action, k: int, e: int)
    requires TurnOf(t, k, e) && Perform(t, a).err.None?
    ensures Recorded(Perform(t, a).t, a).minRaise == if a.kind == Raise then a.amount else t.minRaise
    ensures a.kind == Raise ==> a.amount >= t.minRaise
  {
    if a.kind == GoAllIn {
      assert BetAll(t) == Bet(t, t.actionIdx, t.seats[t.actionIdx].stack);
    }
  }

  lemma RaisedLine(t: Table, r: Table, bb: int, made: seq<Made>)
    requires LineSet(t, bb, made) && BettingPhase(t.phase) && r.minRaise >= t.minRaise
    requires r.phase == t.phase && r.bigBlind == t.bigBlind && r.board == t.board
    ensures LineSet(r, bb, made + [Made(t.phase, r.minRaise)])
  {
    var all := made + [Made(t.phase, r.minRaise)];
    assert all[|made|] == Made(t.phase, r.minRaise);
    assert Stage(t) > 0;
  }

  function MadeIf(t: Table, a: Action): seq<Made> {
    if a.kind == Raise then [Made(t.phase, a.amount)] else []
  }

  lemma EnactLine(t: Table, a: Action, bb: int, made: seq<Made>, k: int, e: int) returns (r: Table)
    requires LineSet(t, bb, made) && TurnOf(t, k, e) && CardsFit(t) && Perform(t, a).err.None? && BettingPhase(t.phase)
    ensures r == Recorded(Perform(t, a).t, a) && LineSet(r, bb, made + MadeIf(t, a))
    ensures a.kind == Raise ==> Tops(a.amount, bb, t.phase, made)
    ensures r.phase == t.phase && CardsFit(r) && 0 <= r.actionIdx < |r.seats|
  {
    r := Recorded(Perform(t, a).t, a);
    PerformMin(t, a, k, e);
    PerformKeepsCards(t, a);
    if a.kind == Raise {
      LineTops(t, bb, made, a.amount);
      RaisedLine(t, r, bb, made);
    } else {
      assert made + [] == made;
      assert Stage(r) == Stage(t);
    }
  }

  lemma PlayLine(ev: Evaluator, t: Table, a: Action, bb: int, made: seq<Made>)
    requires LineSet(t, bb, made) && TurnsInOrder(t)
    ensures LineSet(ApplyAction(ev, t, a).t, bb, made + MadeBy(ev, t, Play(a)))
    ensures MadeBy(ev, t, Play(a)) != [] ==> BettingPhase(t.phase) && Tops(a.amount, bb, t.phase, made)
  {
    if BettingPhase(t.phase) && 0 <= t.actionIdx < |t.seats| && t.seats[t.actionIdx].id == a.player
        && Perform(t, a).err.None? {
      var k, e :| TurnOf(t, k, e);
      var r := EnactLine(t, a, bb, made, k, e);
      AfterActionLine(ev, r, bb, made + MadeIf(t, a));
    } else {
      assert made + [] == made;
    }
  }

  lemma OpenLine(ev: Evaluator, t: Table, s: Table, bb: int, made: seq<Made>)
    requires LineSet(t, bb, made) && BettingPhase(s.phase) && CardsFit(s)
    requires Stage(s) < Stage(t) && s.bigBlind == t.bigBlind
    ensures LineSet(StartNewBettingRound(ev, s).t, bb, made)
  {
    var f := OpenShape(ev, s);
    ExitLine(ev, t, f, StartNewBettingRound(ev, s), bb, made);
  }

  lemma StreetLine(ev: Evaluator, t: Table, cards: seq<Card>, bb: int, made: seq<Made>)
    requires LineSet(t, bb, made) && CardsFit(t)
    ensures LineSet(ApplyStreet(ev, t, cards).t, bb, made)
  {
    if ApplyStreet(ev, t, cards).t != t {
      var board := t.board + cards;
      var s := t.(board := board, phase := if |board| == 3 then Flop else if |board| == 4 then Turn else River);
      OpenLine(ev, t, s, bb, made);
    }
  }

  lemma StepLine(ev: Evaluator, t: Table, i: Input, bb: int, made: seq<Made>)
    requires LineSet(t, bb, made) && TurnsInOrder(t)
    ensures LineSet(Step(ev, t, i).t, bb, made + MadeBy(ev, t, i))
    ensures forall m :: m in MadeBy(ev, t, i) ==> Tops(m.amount, bb, m.round, made)
    ensures |MadeBy(ev, t, i)| <= 1
  {
    match i {
      case Play(a) => PlayLine(ev, t, a, bb, made);
      case Street(cards) =>
        StreetLine(ev, t, cards, bb, made);
        assert made + [] == made;
      case Show(id, hole) =>
        ShowUses(ev, t, id, hole);
        assert made + [] == made;
    }
  }

  lemma NeverLessMore(bb: int, made: seq<Made>, more: seq<Made>)
    requires NeverLess(bb, made) && |more| <= 1 && forall m :: m in more ==> Tops(m.amount, bb, m.round, made)
    ensures NeverLess(bb, made + more)
  {
    var all := made + more;
    forall i | 0 <= i < |all| ensures Tops(all[i].amount, bb, all[i].round, all[..i]) {
      if i < |made| {
        assert all[..i] == made[..i];
      } else {
        assert all[..i] == made && all[i] == more[0] && more[0] in more;
      }
    }
  }

  lemma RaisesFollow(ev: Evaluator, t: Table, inputs: seq<Input>, o: Table, one: seq<Made>, rest: seq<Input>)
    requires inputs != [] && o == Step(ev, t, inputs[0]).t && one == MadeBy(ev, t, inputs[0]) && rest == inputs[1..]
    ensures RaisesMade(ev, t, inputs) == one + RaisesMade(ev, o, rest) && Run(ev, t, inputs) == Run(ev, o, rest)
  {
  }

  lemma StepKeepsTurns(ev: Evaluator, t: Table, i: Input)
    requires TurnsInOrder(t)
    ensures TurnsInOrder(Step(ev, t, i).t)
  {
    RunKeepsTurns(ev, t, [i]);
    var o := Step(ev, t, i).t;
    assert Run(ev, t, [i]) == Run(ev, o, [i][1..]) == o;
  }

  /** What is carried from step to step. */
  ghost predicate Lined(t: Table, bb: int, made: seq<Made>) {
    LineSet(t, bb, made) && TurnsInOrder(t) && NeverLess(bb, made)
  }

  lemma StepLined(ev: Evaluator, t: Table, i: Input, bb: int, made: seq<Made>)
    requires Lined(t, bb, made)
    ensures Lined(Step(ev, t, i).t, bb, made + MadeBy(ev, t, i))
  {
    StepLine(ev, t, i, bb, made);
    NeverLessMore(bb, made, MadeBy(ev, t, i));
    StepKeepsTurns(ev, t, i);
  }

  lemma MadeInOrder(made: seq<Made>, one: seq<Made>, more: seq<Made>)
    ensures made + (one + more) == made + one + more
  {
  }

  lemma {:induction false} RunLined(ev: Evaluator, t: Table, inputs: seq<Input>, bb: int, made: seq<Made>,
      all: seq<Made>)
    requires Lined(t, bb, made) && all == made + RaisesMade(ev, t, inputs)
    ensures Lined(Run(ev, t, inputs), bb, all)
    decreases |inputs|
  {
    if inputs == [] {
      assert made + [] == made;
    } else {
      var o, one, rest := Step(ev, t, inputs[0]).t, MadeBy(ev, t, inputs[0]), inputs[1..];
      StepLined(ev, t, inputs[0], bb, made);
      RaisesFollow(ev, t, inputs, o, one, rest);
      MadeInOrder(made, one, RaisesMade(ev, o, rest));
      RunLined(ev, o, rest, bb, made + one, all);
    }
  }

  // ------------------------------------------------------------------------ whole hands

  lemma StartLine(t0: Table, t: Table)
    requires Started(t0, t)
    ensures Lined(t, t0.bigBlind, [])
  {
    StartedWell(t0, t);
    if t != StartHandCrypto(t0).t {
      var shuffled :| |shuffled| >= 2 * |t0.seats| + CardsNeeded(PreFlop) && t == StartHand(t0, shuffled).t;
      var _ := StartHandIs(t0, shuffled, PostBlinds(t0.(deck := Some(shuffled))));
    }
    assert t.bigBlind == t.minRaise == t0.bigBlind;
  }

  lemma HandIsLined(ev: Evaluator, t0: Table, t: Table, inputs: seq<Input>)
    requires Started(t0, t)
    ensures Lined(Run(ev, t, inputs), t0.bigBlind, RaisesMade(ev, t, inputs))
  {
    StartLine(t0, t);
    var all := RaisesMade(ev, t, inputs);
    assert [] + all == all;
    RunLined(ev, t, inputs, t0.bigBlind, [], all);
  }

  /**
   * Over every run of every hand, each raise that is accepted is at least the big blind and at
   * least every raise accepted before it in the same betting round.
   */
  lemma RaisesNeverShrink(ev: Evaluator, t0: Table, t: Table, inputs: seq<Input>, i: nat, j: nat)
    requires Started(t0, t) && i <= j < |RaisesMade(ev, t, inputs)|
    ensures var made := RaisesMade(ev, t, inputs);
            && made[j].amount >= t0.bigBlind && (made[i].round == made[j].round ==> made[i].amount <= made[j].amount)
  {
    HandIsLined(ev, t0, t, inputs);
    var made := RaisesMade(ev, t, inputs);
    if i < j {
      assert made[..j][i] == made[i];
    }
  }

  /** What the rules ask of an action of the seat that has the turn, when made are the raises so far. */
  predicate Allowed(s: Table, a: Action, bb: int, made: seq<Made>)
    requires 0 <= s.actionIdx < |s.seats|
  {
    var seat := s.seats[s.actionIdx];
    match a.kind
    case Fold => true
    case Check => seat.currentBet == s.currentBet
    case Call => seat.currentBet < s.currentBet
    case Raise =>
      Tops(a.amount, bb, s.phase, made) && s.currentBet + a.amount <= seat.stack + 2 * seat.currentBet
    case GoAllIn => true
    case Unknown => false
  }

  lemma PerformsExactly(s: Table, a: Action, bb: int, made: seq<Made>, k: int, e: int)
    requires LineSet(s, bb, made) && BettingPhase(s.phase) && TurnOf(s, k, e)
    ensures Perform(s, a).err.None? <==> Allowed(s, a, bb, made)
  {
    LineTops(s, bb, made, a.amount);
  }

  lemma PerformedIsAccepted(ev: Evaluator, s: Table, a: Action, total: int)
    requires TurnsInOrder(s) && Tallied(s, total) && BettingPhase(s.phase) && 0 <= s.actionIdx < |s.seats|
    ensures Act(ev, s, a).err.None? <==> Perform(s, a).err.None?
  {
    if Perform(s, a).err.None? {
      ActionUses(ev, s, a, total);
    }
  }

  predicate InTurn(s: Table, a: Action) {
    BettingPhase(s.phase) && 0 <= s.actionIdx < |s.seats| && s.seats[s.actionIdx].id == a.player
  }

  /** Who is in turn and what is carried out decide. */
  lemma AcceptedIs(ev: Evaluator, s: Table, a: Action)
    ensures ApplyAction(ev, s, a).err.None? <==> InTurn(s, a) && Act(ev, s, a).err.None?
  {
  }

  /**
   * After any run, an action is accepted exactly if it is in turn and allowed. A raise has to
   * top the big blind and the raises of the round, and to meet the test of the stack as the
   * source has it, which counts the seat's bet twice.
   */
  lemma AcceptedExactly(ev: Evaluator, t0: Table, t: Table, inputs: seq<Input>, s: Table, a: Action)
    requires Started(t0, t) && s == Run(ev, t, inputs)
    ensures ApplyAction(ev, s, a).err.None? <==>
              InTurn(s, a) && Allowed(s, a, t0.bigBlind, RaisesMade(ev, t, inputs))
  {
    AcceptedIs(ev, s, a);
    if InTurn(s, a) {
      HandIsLined(ev, t0, t, inputs);
      StartedWell(t0, t);
      RunTallies(ev, t, inputs, Stacks(t0.seats));
      var k, e :| TurnOf(s, k, e);
      PerformsExactly(s, a, t0.bigBlind, RaisesMade(ev, t, inputs), k, e);
      PerformedIsAccepted(ev, s, a, Stacks(t0.seats));
    }
  }
}
