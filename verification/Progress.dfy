// When a hand can get stuck, and what it waits for when it is not
// (internal/game/machine.go:40-59, 240-295, 451-476).
module Progress {
  import opened Cards
  import opened GameState
  import opened Hand
  import JointDeck
  import opened Ledger
  import opened Opening
  import opened Rounds
  import opened Rules
  import opened WholeHand
  import opened Wrappers

  /** Heads up, and each blind takes its seat's whole stack. */
  predicate BlindsTakeAll(t: Table)
    requires |t.seats| >= 2 && t.dealer < |t.seats|
  {
    && |t.seats| == 2
    && t.seats[SmallBlindIndex(t)].stack <= t.smallBlind && t.seats[BigBlindIndex(t)].stack <= t.bigBlind
  }

  /** A seat that posts neither blind, if there are three seats or more. */
  lemma ThirdSeat(n: nat, sb: nat, bb: nat) returns (j: nat)
    requires n >= 3
    ensures j < n && j != sb && j != bb
  {
    j := if sb != 0 && bb != 0 then 0 else if sb != 1 && bb != 1 then 1 else 2;
  }

  lemma NobodyCanActExactly(t: Table)
    requires Ready(t)
    ensures (forall j :: 0 <= j < |t.seats| ==> !CanAct(PostBlinds(t).seats[j])) <==> BlindsTakeAll(t)
  {
    BlindsAdjacent(t);
    var n, sb, bb := |t.seats|, SmallBlindIndex(t), BigBlindIndex(t);
    PostIs(t, sb, bb);
    var p := PostBlinds(t);
    assert CanAct(p.seats[sb]) <==> t.smallBlind < t.seats[sb].stack;
    assert CanAct(p.seats[bb]) <==> t.bigBlind < t.seats[bb].stack;
    if n >= 3 {
      var j := ThirdSeat(n, sb, bb);
      assert CanAct(p.seats[j]);
    }
  }

  lemma OpensExactly(t: Table, q: Table)
    requires Ready(t) && SameButCards(PostBlinds(t), q)
    ensures OpenPreFlop(q).actionIdx == -1 <==> BlindsTakeAll(t)
  {
    NobodyCanActExactly(t);
    NextActiveIs(q.seats, BigBlindIndex(q));
    forall j | 0 <= j < |t.seats| ensures CanAct(q.seats[j]) <==> CanAct(PostBlinds(t).seats[j]) {
    }
  }

  /** Nobody has the turn at the start exactly if there are two players and the blinds take both their stacks. */
  lemma StartsStuckExactly(t0: Table, t: Table)
    requires Started(t0, t)
    ensures t.phase == PreFlop && (t.actionIdx == -1 <==> BlindsTakeAll(t0))
  {
    if t == StartHandCrypto(t0).t {
      var c := t0.(deck := None);
      OpensExactly(c, PostBlinds(c));
    } else {
      var shuffled :| |shuffled| >= 2 * |t0.seats| + CardsNeeded(PreFlop) && t == StartHand(t0, shuffled).t;
      var d := t0.(deck := Some(shuffled));
      var q := StartHandIs(t0, shuffled, PostBlinds(d));
      OpensExactly(d, q);
    }
  }

  lemma OpensBroke(t: Table, q: Table)
    requires Ready(t) && SameButCards(PostBlinds(t), q) && BlindsTakeAll(t)
    ensures forall i :: 0 <= i < |q.seats| ==> q.seats[i].stack == 0
  {
    BlindsAdjacent(t);
    PostIs(t, SmallBlindIndex(t), BigBlindIndex(t));
    assert forall i :: 0 <= i < |q.seats| ==> q.seats[i].stack == PostBlinds(t).seats[i].stack;
  }

  /** All chips are then bet. */
  lemma StuckIsBroke(t0: Table, t: Table)
    requires Started(t0, t) && BlindsTakeAll(t0)
    ensures forall i :: 0 <= i < |t.seats| ==> t.seats[i].stack == 0
  {
    if t == StartHandCrypto(t0).t {
      var c := t0.(deck := None);
      OpensBroke(c, PostBlinds(c));
    } else {
      var shuffled :| |shuffled| >= 2 * |t0.seats| + CardsNeeded(PreFlop) && t == StartHand(t0, shuffled).t;
      var d := t0.(deck := Some(shuffled));
      var q := StartHandIs(t0, shuffled, PostBlinds(d));
      OpensBroke(d, q);
    }
  }

  /** A table on which nobody has the turn refuses everything. */
  lemma {:induction false} NothingMoves(ev: Evaluator, t: Table, inputs: seq<Input>)
    requires BettingPhase(t.phase) && t.actionIdx == -1
    ensures Run(ev, t, inputs) == t && forall i :: Step(ev, t, i) == Outcome(t, Step(ev, t, i).err)
    ensures forall i :: Step(ev, t, i).err.Some?
    decreases |inputs|
  {
    if inputs != [] {
      NothingMoves(ev, t, inputs[1..]);
    }
  }

  // ------------------------------------------------------------------------- going on

  /** Somebody has the turn, a street or a hand is awaited, or the hand is over. */
  predicate Awaits(t: Table) {
    match t.phase
    case Waiting => false
    case AwaitingStreet => CryptoMode(t) && PendingStreetCount(|t.board|) > 0
    case Showdown => CryptoMode(t) && HolesIncomplete(t)
    case Settled => true
    case _ => 0 <= t.actionIdx < |t.seats| && CanAct(t.seats[t.actionIdx])
  }

  /** What of it has to be carried from step to step. */
  predicate Going(t: Table) {
    && (BettingPhase(t.phase) ==> t.actionIdx != -1)
    && (t.phase == Showdown ==> CryptoMode(t) && HolesIncomplete(t))
  }

  lemma GoingAwaits(t: Table)
    requires TurnsInOrder(t) && Going(t)
    ensures Awaits(t)
  {
  }

  lemma ExitGoesOn(ev: Evaluator, s: Table, o: Outcome)
    requires RoundExit(ev, s, o)
    ensures Going(o.t) && o.err.None?
  {
  }

  lemma PlayGoesOn(ev: Evaluator, t: Table, a: Action)
    requires CardsFit(t) && Going(t)
    ensures Going(ApplyAction(ev, t, a).t)
  {
    if BettingPhase(t.phase) && 0 <= t.actionIdx < |t.seats| && Perform(t, a).err.None? {
      var r := Recorded(Perform(t, a).t, a);
      PerformKeepsCards(t, a);
      if !OnlyOneRemaining(r) && EndsRound(r) {
        var s := EndShape(ev, r);
        ExitGoesOn(ev, s, EndBettingRound(ev, r));
      }
    }
  }

  lemma StreetGoesOn(ev: Evaluator, t: Table, cards: seq<Card>)
    requires CardsFit(t) && Going(t)
    ensures Going(ApplyStreet(ev, t, cards).t)
    ensures t.phase == AwaitingStreet && CryptoMode(t) && |cards| == PendingStreetCount(|t.board|) ==>
              ApplyStreet(ev, t, cards).err == StreetRefusal(cards, KnownCards(t))
  {
    if CryptoMode(t) && t.phase == AwaitingStreet && |cards| == PendingStreetCount(|t.board|)
        && StreetRefusal(cards, KnownCards(t)).None? {
      var board := t.board + cards;
      var s := t.(board := board, phase := if |board| == 3 then Flop else if |board| == 4 then Turn else River);
      var f := OpenShape(ev, s);
      ExitGoesOn(ev, f, StartNewBettingRound(ev, s));
    }
  }

  lemma ShowGoesOn(ev: Evaluator, t: Table, id: string, hole: (Card, Card))
    requires Going(t)
    ensures Going(ApplyHoleReveal(ev, t, id, hole).t)
  {
    SeatIndexFromIs(t.seats, id, 0);
  }

  lemma {:induction false} RunGoesOn(ev: Evaluator, t: Table, inputs: seq<Input>)
    requires TurnsInOrder(t) && Going(t)
    ensures TurnsInOrder(Run(ev, t, inputs)) && Going(Run(ev, t, inputs))
    decreases |inputs|
  {
    if inputs != [] {
      var next := Step(ev, t, inputs[0]).t;
      match inputs[0] {
        case Play(a) => PlayGoesOn(ev, t, a);
        case Street(cards) => StreetGoesOn(ev, t, cards);
        case Show(id, hole) => ShowGoesOn(ev, t, id, hole);
      }
      RunKeepsTurns(ev, t, [inputs[0]]);
      assert Run(ev, t, [inputs[0]]) == Run(ev, next, [inputs[0]][1..]) == next;
      RunGoesOn(ev, next, inputs[1..]);
    }
  }

  /**
   * A hand never gets stuck, whatever is fed to it, exactly if it does not start heads up
   * with blinds that take both stacks; such a hand stays where it is and its chips stay in the pot.
   */
  lemma HandGoesOnExactly(ev: Evaluator, t0: Table, t: Table)
    requires Started(t0, t)
    ensures (forall inputs :: Awaits(Run(ev, t, inputs))) <==> !BlindsTakeAll(t0)
    ensures BlindsTakeAll(t0) ==>
              && !Awaits(t) && (forall inputs :: Run(ev, t, inputs) == t)
              && forall i :: 0 <= i < |t.seats| ==> t.seats[i].stack == 0
  {
    StartsStuckExactly(t0, t);
    StartedWell(t0, t);
    if BlindsTakeAll(t0) {
      StuckIsBroke(t0, t);
      forall inputs ensures Run(ev, t, inputs) == t {
        NothingMoves(ev, t, inputs);
      }
      assert !Awaits(Run(ev, t, []));
    } else {
      forall inputs ensures Awaits(Run(ev, t, inputs)) {
        RunGoesOn(ev, t, inputs);
        GoingAwaits(Run(ev, t, inputs));
      }
    }
  }

  const SHORT := [Seat("A", 1, (BLANK, BLANK), Active, 0, 0), Seat("B", 2, (BLANK, BLANK), Active, 0, 0)]

  /** Stacks of 1 and 2 against blinds of 1 and 2: the hand starts and then nothing is accepted any more. */
  lemma ShortStacksStick(ev: Evaluator, inputs: seq<Input>)
    ensures var t0 := NewTable(SHORT, 0, 1, 2);
            Ready(t0) && Run(ev, StartHandCrypto(t0).t, inputs).phase == PreFlop
            && forall i :: Step(ev, StartHandCrypto(t0).t, i).err.Some?
  {
    var t0 := NewTable(SHORT, 0, 1, 2);
    NewTableIsReady(SHORT, 0, 1, 2);
    BlindsAdjacent(t0);
    assert t0.seats == SHORT && BlindsTakeAll(t0);
    StartsStuckExactly(t0, StartHandCrypto(t0).t);
    NothingMoves(ev, StartHandCrypto(t0).t, inputs);
  }

  // ----------------------------------------------------------- what is awaited is accepted

  /** Real cards that are not known on the table and all different. */
  predicate NewCards(t: Table, cards: seq<Card>) {
    AllDealt(cards) && NoRepeats(cards) && forall k :: 0 <= k < |cards| ==> cards[k] !in KnownCards(t)
  }

  /** A seat whose hand is awaited. */
  predicate Hidden(s: Table, i: nat) {
    i < |s.seats| && Remaining(s.seats[i]) && !HoleDealt(s.seats[i])
  }

  /** The seat that has the turn may fold. */
  predicate FoldServed(ev: Evaluator, s: Table) {
    0 <= s.actionIdx < |s.seats| && ApplyAction(ev, s, Action(s.seats[s.actionIdx].id, Fold, 0)).err.None?
  }

  /** Any new cards do for a street. */
  ghost predicate StreetServed(ev: Evaluator, s: Table) {
    && PendingStreetCount(|s.board|) > 0
    && forall cards :: |cards| == PendingStreetCount(|s.board|) && NewCards(s, cards) ==>
         ApplyStreet(ev, s, cards).err.None?
  }

  /** Some hand is hidden, and any new cards do for it. */
  ghost predicate RevealServed(ev: Evaluator, s: Table) {
    && (exists i: nat :: Hidden(s, i))
    && forall i: nat, x, y :: Hidden(s, i) && NewCards(s, [x, y]) ==>
         ApplyHoleReveal(ev, s, s.seats[i].id, (x, y)).err.None?
  }

  lemma StreetIsServed(ev: Evaluator, s: Table)
    requires TurnsInOrder(s) && Going(s) && s.phase == AwaitingStreet
    ensures StreetServed(ev, s)
  {
    forall cards | |cards| == PendingStreetCount(|s.board|) && NewCards(s, cards)
      ensures ApplyStreet(ev, s, cards).err.None?
    {
      JointDeck.RefusalExactly(cards, KnownCards(s));
      StreetGoesOn(ev, s, cards);
    }
  }

  lemma OneRevealServed(ev: Evaluator, s: Table, i: nat, x: Card, y: Card)
    requires s.phase == Showdown && CryptoMode(s) && DistinctIDs(s.seats) && Hidden(s, i) && NewCards(s, [x, y])
    ensures ApplyHoleReveal(ev, s, s.seats[i].id, (x, y)).err.None?
  {
    SeatIndexOf(s.seats, i);
    var cards := [x, y];
    assert cards[0] == x && cards[1] == y;
  }

  lemma RevealIsServed(ev: Evaluator, s: Table)
    requires s.phase == Showdown && Going(s) && DistinctIDs(s.seats)
    ensures RevealServed(ev, s)
  {
    JointDeck.NoneMissing(s.seats);
    var i :| 0 <= i < |s.seats| && Remaining(s.seats[i]) && !HoleDealt(s.seats[i]);
    assert Hidden(s, i);
    forall i: nat, x, y | Hidden(s, i) && NewCards(s, [x, y])
      ensures ApplyHoleReveal(ev, s, s.seats[i].id, (x, y)).err.None?
    {
      OneRevealServed(ev, s, i, x, y);
    }
  }

  /** What a started hand waits for is accepted when it comes. */
  lemma AwaitedIsAccepted(ev: Evaluator, t0: Table, t: Table, inputs: seq<Input>, s: Table)
    requires Started(t0, t) && !BlindsTakeAll(t0) && s == Run(ev, t, inputs)
    ensures BettingPhase(s.phase) ==> FoldServed(ev, s)
    ensures s.phase == AwaitingStreet ==> StreetServed(ev, s)
    ensures s.phase == Showdown ==> RevealServed(ev, s)
    ensures BettingPhase(s.phase) || s.phase == AwaitingStreet || s.phase == Showdown || s.phase == Settled
  {
    StartsStuckExactly(t0, t);
    StartedWell(t0, t);
    RunGoesOn(ev, t, inputs);
    RunTallies(ev, t, inputs, Stacks(t0.seats));
    if BettingPhase(s.phase) {
      TurnCanFold(ev, t0, t, inputs, s);
    }
    if s.phase == AwaitingStreet {
      StreetIsServed(ev, s);
    }
    if s.phase == Showdown {
      RevealIsServed(ev, s);
    }
  }
}
