// Whole hands: runs of inputs to the machine, and what holds of every reachable table.
module Hand {
  import opened Cards
  import opened GameState
  import opened Rounds
  import opened Rules
  import opened Wrappers

  // Everything that can be fed to a machine once the hand has started.
  datatype Input = Play(action: Action) | Street(cards: seq<Card>) | Show(id: string, hole: (Card, Card))

  function Step(ev: Evaluator, t: Table, i: Input): Outcome {
    match i
    case Play(a) => ApplyAction(ev, t, a)
    case Street(cards) => ApplyStreet(ev, t, cards)
    case Show(id, hole) => ApplyHoleReveal(ev, t, id, hole)
  }

  /** The table after a run; a refused input may occur anywhere in it. */
  function Run(ev: Evaluator, t: Table, inputs: seq<Input>): Table
    decreases |inputs|
  {
    if inputs == [] then t else Run(ev, Step(ev, t, inputs[0]).t, inputs[1..])
  }

  // ----------------------------------------------------------- cards still to be dealt

  /** Cards the deck must hold for the streets to come: a burn and the street's cards each. */
  function CardsNeeded(p: Phase): nat {
    match p
    case PreFlop => 8
    case Flop => 4
    case Turn => 2
    case _ => 0
  }

  predicate BoardFits(p: Phase, board: nat) {
    match p
    case PreFlop => board == 0
    case Flop => board == 3
    case Turn => board == 4
    case River => board == 5
    case AwaitingStreet => board == 0 || board == 3 || board == 4
    case Showdown => board == 5
    case _ => true
  }

  /** In crypto mode the board fits the phase; in plaintext mode the deck suffices. */
  predicate CardsFit(t: Table) {
    if CryptoMode(t) then BoardFits(t.phase, |t.board|)
    else t.phase != AwaitingStreet && |t.deck.value| >= CardsNeeded(t.phase)
  }

  // ------------------------------------------------------------- how a round can end

  /** s is t but for streets dealt and bets reset. */
  predicate Kin(t: Table, s: Table) {
    && s.smallBlind == t.smallBlind && s.bigBlind == t.bigBlind && s.dealer == t.dealer
    && s.payouts == t.payouts && s.log == t.log && s.deck.Some? == t.deck.Some?
    && (s.seats == t.seats || s.seats == ResetBets(t.seats))
  }

  /** A betting round has just opened and two seats or more can act. */
  predicate FreshTurn(s: Table) {
    && BettingPhase(s.phase) && s.currentBet == 0 && s.minRaise == s.bigBlind && s.roundActions == 0
        && s.lastRaiser == -1
    && s.seats == ResetBets(s.seats) && s.seats != [] && s.actionIdx == NextActive(s.seats, s.dealer)
        && s.actionIdx != -1
    && CountCanAct(s.seats) >= 2
  }

  /** What the end of a round leads to: showdown, a wait for the next street, or a new round. */
  predicate RoundExit(ev: Evaluator, s: Table, o: Outcome) {
    || (o == StartShowdown(ev, s) && (CryptoMode(s) ==> |s.board| == 5))
    || (o == Outcome(s, None) && (FreshTurn(s) || s.phase == AwaitingStreet))
  }

  /** Streets and waits between the table and its showdown. */
  function Stage(t: Table): nat {
    match t.phase
    case PreFlop => 7
    case Flop => 5
    case Turn => 3
    case River => 1
    case AwaitingStreet => if |t.board| == 0 then 6 else if |t.board| == 3 then 4 else 2
    case Waiting => 8
    case _ => 0
  }

  lemma ResetTwice(seats: seq<Seat>)
    ensures ResetBets(ResetBets(seats)) == ResetBets(seats)
  {
  }

  lemma {:induction false} DrawsFit(t: Table, n: nat)
    requires t.deck.Some? && |t.deck.value| >= n
    ensures var o := DrawCards(t, n);
            && o.err.None? && o.t == t.(deck := o.t.deck, board := o.t.board)
            && o.t.deck.Some? && |o.t.deck.value| == |t.deck.value| - n
    decreases n
  {
    if n > 0 {
      DrawsFit(DrawCard(t, true).t, n - 1);
    }
  }

  lemma StreetFits(t: Table, n: nat)
    requires t.deck.Some? && |t.deck.value| >= n + 1
    ensures var o := DrawStreet(t, n);
            && o.err.None? && o.t == t.(deck := o.t.deck, board := o.t.board)
            && o.t.deck.Some? && |o.t.deck.value| == |t.deck.value| - n - 1
  {
    DrawsFit(DrawCard(t, false).t, n);
  }

  /** The table on which the next betting round opens in plaintext mode. */
  function AfterDeal(t: Table): Table
    requires t.phase == PreFlop || t.phase == Flop || t.phase == Turn
  {
    DrawStreet(t, if t.phase == PreFlop then 3 else 1).t.(phase := NextStreet(t.phase))
  }

  lemma DealtFits(t: Table)
    requires t.phase == PreFlop || t.phase == Flop || t.phase == Turn
    requires !CryptoMode(t) && CardsFit(t)
    ensures forall ev :: DealStreet(ev, t) == StartNewBettingRound(ev, AfterDeal(t))
    ensures Kin(t, AfterDeal(t)) && CardsFit(AfterDeal(t)) && BettingPhase(AfterDeal(t).phase)
  {
    StreetFits(t, if t.phase == PreFlop then 3 else 1);
  }

  /** Every way a betting round can end. */
  lemma {:induction false} EndShape(ev: Evaluator, t: Table) returns (s: Table)
    requires BettingPhase(t.phase) && CardsFit(t)
    ensures Kin(t, s) && CardsFit(s) && RoundExit(ev, s, EndBettingRound(ev, t))
    ensures EndBettingRound(ev, t) == StartShowdown(ev, s) || Stage(s) < Stage(t)
    decreases StreetsLeft(t.phase), 1
  {
    var p := WithPots(t);
    if CryptoMode(t) && t.phase != River {
      s := p.(phase := AwaitingStreet);
    } else if t.phase == River {
      s := p;
    } else {
      DealtFits(p);
      s := OpenShape(ev, AfterDeal(p));
      ResetTwice(t.seats);
    }
  }

  lemma {:induction false} OpenShape(ev: Evaluator, t: Table) returns (s: Table)
    requires BettingPhase(t.phase) && CardsFit(t)
    ensures Kin(t, s) && CardsFit(s) && RoundExit(ev, s, StartNewBettingRound(ev, t))
    ensures StartNewBettingRound(ev, t) == StartShowdown(ev, s) || Stage(s) <= Stage(t)
    decreases StreetsLeft(t.phase), 2
  {
    var f := FreshRound(t);
    var first := if f.seats == [] then -1 else NextActive(f.seats, f.dealer);
    ResetTwice(t.seats);
    var r := if first == -1 then f else f.(actionIdx := first);
    if first == -1 && !CryptoMode(f) {
      s := f;
    } else if first == -1 || CountCanAct(r.seats) <= 1 {
      s := EndShape(ev, r);
    } else {
      s := r;
    }
  }

  // ------------------------------------------------------------- turns over whole runs

  /**
   * On every reachable table: while a round is on, some seat that can act has the turn and
   * the seats that owe chips form an arc from it; between rounds nobody owes anything.
   * The turn is nobody's (-1) when posting the blinds left no seat that can act.
   */
  ghost predicate TurnsInOrder(t: Table) {
    && t.bigBlind > 0 && t.dealer < |t.seats| && CardsFit(t)
    && match t.phase
       case Waiting => false
       case Showdown => exists k :: Level(t, k)
       case AwaitingStreet => exists k :: Level(t, k)
       case Settled => true
       case _ => t.actionIdx == -1 || exists k, e :: TurnOf(t, k, e)
  }

  lemma FreshTurnIsTurn(s: Table, k: int)
    requires FreshTurn(s) && s.dealer < |s.seats| && s.bigBlind > 0 && Level(s, k)
    ensures TurnOf(s, k, 0)
  {
    NextActiveIs(s.seats, s.dealer);
  }

  lemma ExitKeepsTurns(ev: Evaluator, s: Table, o: Outcome, k: int)
    requires RoundExit(ev, s, o) && CardsFit(s) && Level(s, k) && s.bigBlind > 0 && s.dealer < |s.seats|
    ensures TurnsInOrder(o.t)
  {
    if FreshTurn(s) && o == Outcome(s, None) {
      FreshTurnIsTurn(s, k);
    } else {
      assert Level(o.t, k) || o.t.phase == Settled;
    }
  }

  lemma AfterActionKeepsTurns(ev: Evaluator, t: Table, k: int, e: int)
    requires BettingPhase(t.phase) && t.bigBlind > 0 && t.dealer < |t.seats| && CardsFit(t)
    requires 0 <= t.actionIdx < |t.seats| && ArcPast(t, e) && Base(t, k) && t.minRaise > 0
    ensures TurnsInOrder(AfterAction(ev, t).t)
  {
    if !OnlyOneRemaining(t) {
      var e' := RoundEndsMatched(t, k, e);
      if EndsRound(t) {
        var s := EndShape(ev, t);
        assert Level(s, k + t.currentBet);
        ExitKeepsTurns(ev, s, EndBettingRound(ev, t), k + t.currentBet);
      }
    }
  }

  lemma PerformKeepsCards(t: Table, a: Action)
    requires 0 <= t.actionIdx < |t.seats|
    ensures var r := Recorded(Perform(t, a).t, a);
            && r.deck == t.deck && r.board == t.board && r.phase == t.phase && r.dealer == t.dealer
            && r.bigBlind == t.bigBlind && r.smallBlind == t.smallBlind && r.payouts == t.payouts
            && |r.seats| == |t.seats| && r.actionIdx == t.actionIdx
  {
    BetKeepsCards(t, t.currentBet - t.seats[t.actionIdx].currentBet);
    BetKeepsCards(t, t.currentBet - t.seats[t.actionIdx].currentBet + a.amount);
    BetAllKeepsCards(t);
  }

  /** All that a bet changes. */
  lemma BetKeepsCards(t: Table, amount: int)
    requires 0 <= t.actionIdx < |t.seats|
    ensures var r := Bet(t, t.actionIdx, amount); r == t.(seats := r.seats) && |r.seats| == |t.seats|
  {
  }

  lemma BetAllKeepsCards(t: Table)
    requires 0 <= t.actionIdx < |t.seats|
    ensures var r := BetAll(t);
            && r == t.(seats := r.seats, minRaise := r.minRaise, currentBet := r.currentBet, lastRaiser := r.lastRaiser)
            && |r.seats| == |t.seats|
  {
  }

  lemma PerformTurn(t: Table, a: Action, k: int, e: int) returns (r: Table, e': int)
    requires TurnOf(t, k, e) && Perform(t, a).err.None? && CardsFit(t)
    ensures r == Recorded(Perform(t, a).t, a) && CardsFit(r) && r.actionIdx == t.actionIdx && |r.seats| == |t.seats|
    ensures ArcPast(r, e') && Base(r, k) && r.minRaise > 0
  {
    e' := PerformKeepsArc(t, a, k, e);
    r := Recorded(Perform(t, a).t, a);
    PerformKeepsCards(t, a);
  }

  lemma PlayKeepsTurns(ev: Evaluator, t: Table, a: Action)
    requires TurnsInOrder(t) && BettingPhase(t.phase) && 0 <= t.actionIdx < |t.seats|
    ensures TurnsInOrder(Act(ev, t, a).t)
  {
    var k, e :| TurnOf(t, k, e);
    if Perform(t, a).err.None? {
      var r, e' := PerformTurn(t, a, k, e);
      AfterActionKeepsTurns(ev, r, k, e');
    }
  }

  lemma StreetKeepsTurns(ev: Evaluator, t: Table, cards: seq<Card>)
    requires TurnsInOrder(t)
    ensures TurnsInOrder(ApplyStreet(ev, t, cards).t)
  {
    if ApplyStreet(ev, t, cards).t != t {
      var k :| Level(t, k);
      var board := t.board + cards;
      var s := t.(board := board, phase := if |board| == 3 then Flop else if |board| == 4 then Turn else River);
      var f := OpenShape(ev, s);
      assert Level(f, k);
      ExitKeepsTurns(ev, f, StartNewBettingRound(ev, s), k);
    }
  }

  lemma ShowKeepsTurns(ev: Evaluator, t: Table, id: string, hole: (Card, Card))
    requires TurnsInOrder(t)
    ensures TurnsInOrder(ApplyHoleReveal(ev, t, id, hole).t)
  {
    var r := ApplyHoleReveal(ev, t, id, hole).t;
    SeatIndexFromIs(t.seats, id, 0);
    if r != t && r.phase == Showdown {
      var k :| Level(t, k);
      assert Level(r, k);
    }
  }

  /** Whatever is fed to the machine, the turn order holds after it. */
  lemma {:induction false} RunKeepsTurns(ev: Evaluator, t: Table, inputs: seq<Input>)
    requires TurnsInOrder(t)
    ensures TurnsInOrder(Run(ev, t, inputs))
    decreases |inputs|
  {
    if inputs != [] {
      match inputs[0] {
        case Play(a) =>
          if Step(ev, t, inputs[0]).t != t {
            PlayKeepsTurns(ev, t, a);
          }
        case Street(cards) => StreetKeepsTurns(ev, t, cards);
        case Show(id, hole) => ShowKeepsTurns(ev, t, id, hole);
      }
      RunKeepsTurns(ev, Step(ev, t, inputs[0]).t, inputs[1..]);
    }
  }
}
