// What a hand never takes back (internal/game/machine.go:48-118, 158-238, 508-650): the log, the board and
// the hands that are known; and which cards a crypto table accepts.
module History {
  import opened Cards
  import opened GameState
  import opened Hand
  import JointDeck
  import opened Ledger
  import opened Opening
  import opened Progress
  import opened Raises
  import opened Replicas
  import opened Rules
  import opened WholeHand
  import opened Wrappers

  // ------------------------------------------------------------------- the end of a round

  /** The hands and the log are as before, and the board has at most grown; in crypto mode it is the same. */
  predicate Onward(t: Table, r: Table) {
    && SameHands(t.seats, r.seats) && t.board <= r.board && r.log == t.log && CryptoMode(r) == CryptoMode(t)
    && (CryptoMode(t) ==> r.board == t.board)
  }

  lemma OnwardAlong(a: Table, b: Table, c: Table)
    requires Onward(a, b) && Onward(b, c)
    ensures Onward(a, c)
  {
  }

  lemma ShowdownOnward(ev: Evaluator, t: Table)
    ensures Onward(t, StartShowdown(ev, t).t)
  {
    var s := WithPots(t.(phase := Showdown));
    PayingKeeps(s.seats, ev, s.dealer, s.board, Bank(s.seats, s.payouts), s.pots);
  }

  lemma {:induction false} DrawsOnward(t: Table, n: nat)
    ensures var r := DrawCards(t, n).t;
            && r == t.(deck := r.deck, board := r.board) && t.board <= r.board && r.deck.Some? == t.deck.Some?
            && (t.deck.None? ==> r == t)
    decreases n
  {
    if n > 0 && DrawCard(t, true).err.None? {
      DrawsOnward(DrawCard(t, true).t, n - 1);
    }
  }

  lemma StreetOnward(t: Table, n: nat)
    ensures Onward(t, DrawStreet(t, n).t) && DrawStreet(t, n).t.phase == t.phase
  {
    DrawsOnward(DrawCard(t, false).t, n);
  }

  lemma {:induction false} EndOnward(ev: Evaluator, t: Table)
    ensures Onward(t, EndBettingRound(ev, t).t)
    decreases StreetsLeft(t.phase), 1
  {
    var s := WithPots(t);
    if CryptoMode(s) || s.phase == River {
      ShowdownOnward(ev, s);
    } else if s.phase == PreFlop || s.phase == Flop || s.phase == Turn {
      var o := DrawStreet(s, if s.phase == PreFlop then 3 else 1);
      StreetOnward(s, if s.phase == PreFlop then 3 else 1);
      if o.err.None? {
        var next := o.t.(phase := NextStreet(s.phase));
        RoundOnward(ev, next);
        OnwardAlong(t, next, StartNewBettingRound(ev, next).t);
      }
    }
  }

  lemma {:induction false} RoundOnward(ev: Evaluator, t: Table)
    ensures Onward(t, StartNewBettingRound(ev, t).t)
    decreases StreetsLeft(t.phase), 2
  {
    var s := FreshRound(t);
    var first := if s.seats == [] then -1 else NextActive(s.seats, s.dealer);
    ShowdownOnward(ev, s);
    EndOnward(ev, s);
    EndOnward(ev, s.(actionIdx := first));
    OnwardAlong(t, s, EndBettingRound(ev, s).t);
  }

  lemma AfterActionOnward(ev: Evaluator, t: Table)
    requires 0 <= t.actionIdx < |t.seats|
    ensures Onward(t, AfterAction(ev, t).t)
  {
    if !OnlyOneRemaining(t) {
      EndOnward(ev, t);
    }
  }

  // -------------------------------------------------------------------------- one input

  lemma PlayOnward(ev: Evaluator, t: Table, a: Action, o: Outcome)
    requires o == ApplyAction(ev, t, a)
    ensures SameHands(t.seats, o.t.seats) && t.board <= o.t.board && CryptoMode(o.t) == CryptoMode(t)
    ensures CryptoMode(t) ==> o.t.board == t.board
    ensures o.t.log == if InTurn(t, a) && Perform(t, a).err.None? then t.log + [a] else t.log
  {
    if InTurn(t, a) {
      var r := Perform(t, a).t;
      PerformHands(t, a);
      PerformLog(t, a);
      AfterActionOnward(ev, Recorded(r, a));
    }
  }

  lemma PerformLog(t: Table, a: Action)
    requires 0 <= t.actionIdx < |t.seats|
    ensures Perform(t, a).t.log == t.log && (Perform(t, a).err.Some? ==> Perform(t, a).t == t)
  {
  }

  /** An accepted street goes onto the board, and nothing else changes that a hand never takes back. */
  lemma StreetGrows(ev: Evaluator, t: Table, cards: seq<Card>, o: Outcome)
    requires o == ApplyStreet(ev, t, cards)
    ensures SameHands(t.seats, o.t.seats) && o.t.log == t.log && CryptoMode(o.t) == CryptoMode(t)
    ensures o.t == t || (CryptoMode(t) && o.t.board == t.board + cards && NewCards(t, cards))
  {
    if CryptoMode(t) && t.phase == AwaitingStreet && |cards| == PendingStreetCount(|t.board|)
        && StreetRefusal(cards, KnownCards(t)).None? {
      var board := t.board + cards;
      var s := t.(board := board, phase := if |board| == 3 then Flop else if |board| == 4 then Turn else River);
      JointDeck.RefusalExactly(cards, KnownCards(t));
      RoundOnward(ev, s);
    }
  }

  // ---------------------------------------------------------------- cards that are out

  predicate Holds(s: Seat, c: Card) {
    s.hole.0 == c || s.hole.1 == c
  }

  /** The card is on the board or in a hand that is known here. */
  predicate Out(t: Table, c: Card) {
    c in t.board || exists i :: 0 <= i < |t.seats| && Holds(t.seats[i], c)
  }

  lemma {:induction false} HoldersKnown(seats: seq<Seat>, c: Card)
    ensures c in DealtHoles(seats) <==> Dealt(c) && exists i :: 0 <= i < |seats| && Holds(seats[i], c)
  {
    if seats != [] {
      var rest := seats[1..];
      HoldersKnown(rest, c);
      if exists i :: 0 <= i < |rest| && Holds(rest[i], c) {
        var i :| 0 <= i < |rest| && Holds(rest[i], c);
        assert Holds(seats[i + 1], c);
      }
      if i :| 0 <= i < |seats| && Holds(seats[i], c) {
        assert i > 0 ==> Holds(rest[i - 1], c);
      }
    }
  }

  lemma KnownIsOut(t: Table, c: Card)
    ensures c in KnownCards(t) <==> Dealt(c) && Out(t, c)
  {
    HoldersKnown(t.seats, c);
  }

  /** No card is in two places. */
  ghost predicate Different(t: Table) {
    && NoRepeats(t.board) && AllDealt(t.board)
    && (forall i :: 0 <= i < |t.seats| && Dealt(t.seats[i].hole.0) ==> t.seats[i].hole.0 != t.seats[i].hole.1)
    && (forall i, c :: 0 <= i < |t.seats| && c in t.board ==> !Holds(t.seats[i], c))
    && (forall i, j, c :: 0 <= i < j < |t.seats| && Dealt(c) && Holds(t.seats[i], c) ==> !Holds(t.seats[j], c))
  }

  lemma SameDifferent(t: Table, r: Table)
    requires Different(t) && SameHands(t.seats, r.seats) && r.board == t.board
    ensures Different(r)
  {
  }

  lemma StreetDifferent(t: Table, r: Table, cards: seq<Card>)
    requires Different(t) && SameHands(t.seats, r.seats) && r.board == t.board + cards && NewCards(t, cards)
    ensures Different(r)
  {
    forall k | 0 <= k < |cards| ensures !Out(t, cards[k]) {
      KnownIsOut(t, cards[k]);
    }
    forall i, k | 0 <= i < |t.seats| && 0 <= k < |cards| ensures !Holds(t.seats[i], cards[k]) {
      assert !Out(t, cards[k]);
    }
    forall i, j | 0 <= i < j < |r.board| ensures r.board[i] != r.board[j] {
      if i < |t.board| <= j {
        assert r.board[i] in t.board && !Out(t, cards[j - |t.board|]);
      } else if i >= |t.board| {
        assert cards[i - |t.board|] != cards[j - |t.board|];
      }
    }
  }

  /** Two real cards that are not out. */
  predicate NewHand(t: Table, hole: (Card, Card)) {
    Dealt(hole.0) && Dealt(hole.1) && hole.0 != hole.1 && !Out(t, hole.0) && !Out(t, hole.1)
  }

  lemma ShowDifferent(t: Table, i: nat, hole: (Card, Card), r: Table)
    requires Different(t) && i < |t.seats| && NewHand(t, hole)
    requires r == t.(seats := t.seats[i := t.seats[i].(hole := hole)])
    ensures Different(r)
  {
    assert forall c :: Holds(r.seats[i], c) <==> c == hole.0 || c == hole.1;
    forall j, c | 0 <= j < |t.seats| && Holds(t.seats[j], c) ensures c != hole.0 && c != hole.1 {
      assert Out(t, c);
    }
  }

  // --------------------------------------------------------------------------- reveals

  /** The hand shown fits seat i: the one that is known, or real cards that are nowhere else. */
  predicate Fits(t: Table, i: nat, hole: (Card, Card))
    requires i < |t.seats|
  {
    && Remaining(t.seats[i]) && if HoleDealt(t.seats[i]) then t.seats[i].hole == hole && hole.0 != hole.1
                                else NewHand(t, hole)
  }

  /** A reveal is accepted exactly if it is for a remaining seat at a crypto showdown and fits it. */
  lemma RevealExactly(ev: Evaluator, t: Table, i: nat, hole: (Card, Card), o: Outcome)
    requires DistinctIDs(t.seats) && i < |t.seats| && o == ApplyHoleReveal(ev, t, t.seats[i].id, hole)
    ensures o.err.None? <==> CryptoMode(t) && t.phase == Showdown && Fits(t, i, hole)
    ensures o.err.None? ==>
              SameHands(t.seats[i := t.seats[i].(hole := hole)], o.t.seats) && o.t.board == t.board && o.t.log == t.log
    ensures o.err.Some? ==> o.t == t
  {
    SeatIndexOf(t.seats, i);
    KnownIsOut(t, hole.0);
    KnownIsOut(t, hole.1);
    var r := t.(seats := t.seats[i := t.seats[i].(hole := hole)]);
    PayingKeeps(r.seats, ev, r.dealer, r.board, Bank(r.seats, r.payouts), r.pots);
    assert HoleDealt(t.seats[i]) && t.seats[i].hole == hole ==> r.seats == t.seats;
  }

  // ------------------------------------------------------------------------- whole runs

  /** Names are as before, known hands too, and the board has at most grown. */
  predicate Since(t: Table, r: Table) {
    && |r.seats| == |t.seats| && t.board <= r.board && CryptoMode(r) == CryptoMode(t)
    && forall i :: 0 <= i < |t.seats| ==>
         r.seats[i].id == t.seats[i].id && (HoleDealt(t.seats[i]) ==> r.seats[i].hole == t.seats[i].hole)
  }

  lemma SinceAlong(a: Table, b: Table, c: Table)
    requires Since(a, b) && Since(b, c)
    ensures Since(a, c)
  {
  }

  lemma SinceNames(t: Table, r: Table)
    requires Since(t, r) && DistinctIDs(t.seats)
    ensures DistinctIDs(r.seats)
  {
  }

  lemma ShowSince(ev: Evaluator, t: Table, id: string, hole: (Card, Card), o: Outcome)
    requires DistinctIDs(t.seats) && o == ApplyHoleReveal(ev, t, id, hole)
    ensures Since(t, o.t) && o.t.log == t.log && (Different(t) ==> Different(o.t))
  {
    var i := SeatIndex(t.seats, id);
    SeatIndexFromIs(t.seats, id, 0);
    if i != -1 {
      RevealExactly(ev, t, i, hole, o);
      var r := t.(seats := t.seats[i := t.seats[i].(hole := hole)]);
      if o.err.None? && Different(t) {
        if HoleDealt(t.seats[i]) {
          assert r.seats == t.seats;
        } else {
          ShowDifferent(t, i, hole, r);
        }
        SameDifferent(r, o.t);
      }
    }
  }

  lemma StepSince(ev: Evaluator, t: Table, i: Input, o: Outcome)
    requires DistinctIDs(t.seats) && o == Step(ev, t, i)
    ensures Since(t, o.t) && (CryptoMode(t) && Different(t) ==> Different(o.t))
    ensures o.t.log == match i
              case Play(a) => if InTurn(t, a) && Perform(t, a).err.None? then t.log + [a] else t.log
              case _ => t.log
  {
    match i {
      case Play(a) =>
        PlayOnward(ev, t, a, o);
        if CryptoMode(t) && Different(t) {
          SameDifferent(t, o.t);
        }
      case Street(cards) =>
        StreetGrows(ev, t, cards, o);
        if o.t != t && Different(t) {
          StreetDifferent(t, o.t, cards);
        }
      case Show(id, hole) => ShowSince(ev, t, id, hole, o);
    }
  }

  lemma {:induction false} RunSince(ev: Evaluator, t: Table, inputs: seq<Input>, r: Table)
    requires DistinctIDs(t.seats) && r == Run(ev, t, inputs)
    ensures Since(t, r) && (CryptoMode(t) && Different(t) ==> Different(r))
    decreases |inputs|
  {
    if inputs != [] {
      var o := Step(ev, t, inputs[0]);
      StepSince(ev, t, inputs[0], o);
      SinceNames(t, o.t);
      RunSince(ev, o.t, inputs[1..], r);
      SinceAlong(t, o.t, r);
    }
  }

  /** Whatever is fed to a hand, what was on the board or in a known hand at some point is there ever after. */
  lemma NothingTakenBack(ev: Evaluator, t: Table, before: seq<Input>, after: seq<Input>)
    requires DistinctIDs(t.seats)
    ensures Since(Run(ev, t, before), Run(ev, t, before + after))
  {
    var s := Run(ev, t, before);
    RunSince(ev, t, before, s);
    SinceNames(t, s);
    RunSplits(ev, t, before, after);
    RunSince(ev, s, after, Run(ev, s, after));
  }

  /** Over every crypto hand, whatever streets and reveals are fed to it, no card is in two places. */
  lemma CardsStayDifferent(ev: Evaluator, t0: Table, inputs: seq<Input>)
    requires Ready(t0) && Different(t0)
    ensures Different(Run(ev, StartHandCrypto(t0).t, inputs))
  {
    var t := StartHandCrypto(t0).t;
    assert Started(t0, t);
    StartedWell(t0, t);
    StartKeepsHands(t0);
    SameDifferent(t0, t);
    RunSince(ev, t, inputs, Run(ev, t, inputs));
  }

  lemma StartKeepsHands(t0: Table)
    requires Ready(t0)
    ensures var t := StartHandCrypto(t0).t; SameHands(t0.seats, t.seats) && t.board == t0.board && CryptoMode(t)
  {
    BlindsAdjacent(t0);
    PostIs(t0.(deck := None), SmallBlindIndex(t0), BigBlindIndex(t0));
  }

  // --------------------------------------------------------------------------- the log

  /** The accepted actions of a run, in order. */
  function Actions(ev: Evaluator, t: Table, inputs: seq<Input>): seq<Action>
    decreases |inputs|
  {
    if inputs == [] then [] else ActionOf(ev, t, inputs[0]) + Actions(ev, Step(ev, t, inputs[0]).t, inputs[1..])
  }

  function ActionOf(ev: Evaluator, t: Table, i: Input): seq<Action> {
    if i.Play? && Step(ev, t, i).err.None? then [i.action] else []
  }

  lemma StepLogs(ev: Evaluator, t: Table, i: Input, total: int)
    requires TurnsInOrder(t) && Tallied(t, total)
    ensures Step(ev, t, i).t.log == t.log + ActionOf(ev, t, i)
  {
    StepSince(ev, t, i, Step(ev, t, i));
    assert t.log + [] == t.log;
    if i.Play? {
      AcceptedIs(ev, t, i.action);
      if InTurn(t, i.action) {
        PerformedIsAccepted(ev, t, i.action, total);
      }
    }
  }

  lemma ActionsFollow(ev: Evaluator, t: Table, i: Input, o: Table, rest: seq<Input>, inputs: seq<Input>)
    requires inputs == [i] + rest && o == Step(ev, t, i).t
    ensures Actions(ev, t, inputs) == ActionOf(ev, t, i) + Actions(ev, o, rest)
    ensures Run(ev, t, inputs) == Run(ev, o, rest)
  {
    assert inputs[1..] == rest;
  }

  lemma LogsNext(ev: Evaluator, t: Table, i: Input, o: Table, total: int, more: seq<Action>)
    requires TurnsInOrder(t) && Tallied(t, total) && o == Step(ev, t, i).t
    ensures o.log + more == t.log + (ActionOf(ev, t, i) + more) && TurnsInOrder(o) && Tallied(o, total)
  {
    StepLogs(ev, t, i, total);
    StepKeepsTurns(ev, t, i);
    StepTallies(ev, t, i, total);
    assert t.log + (ActionOf(ev, t, i) + more) == t.log + ActionOf(ev, t, i) + more;
  }

  lemma {:induction false} RunLogs(ev: Evaluator, t: Table, inputs: seq<Input>, total: int, all: seq<Action>)
    requires TurnsInOrder(t) && Tallied(t, total) && all == t.log + Actions(ev, t, inputs)
    ensures Run(ev, t, inputs).log == all
    decreases |inputs|
  {
    if inputs == [] {
      assert t.log + [] == t.log;
    } else {
      var i, o, rest := inputs[0], Step(ev, t, inputs[0]).t, inputs[1..];
      ActionsFollow(ev, t, i, o, rest, inputs);
      LogsNext(ev, t, i, o, total, Actions(ev, o, rest));
      RunLogs(ev, o, rest, total, all);
    }
  }

  lemma StepTallies(ev: Evaluator, t: Table, i: Input, total: int)
    requires TurnsInOrder(t) && Tallied(t, total)
    ensures Tallied(Step(ev, t, i).t, total)
  {
    RunTallies(ev, t, [i], total);
    var o := Step(ev, t, i).t;
    assert Run(ev, t, [i]) == Run(ev, o, [i][1..]) == o;
  }

  /** The log of a hand is what it started with, the blinds, and then the accepted actions in order. */
  lemma LogIsActions(ev: Evaluator, t0: Table, t: Table, inputs: seq<Input>)
    requires Started(t0, t)
    ensures Run(ev, t, inputs).log == t.log + Actions(ev, t, inputs)
  {
    StartedWell(t0, t);
    RunLogs(ev, t, inputs, Stacks(t0.seats), t.log + Actions(ev, t, inputs));
  }
}
