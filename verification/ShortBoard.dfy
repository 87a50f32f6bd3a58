// A hand on which the two dealing modes part (internal/game/machine.go:254-258): both players
// are all in before the flop.
module ShortBoard {
  import opened Cards
  import opened GameState
  import opened JointDeck
  import opened Ledger
  import opened ModeRefinement
  import opened Opening
  import opened Public
  import opened Rounds
  import opened Rules
  import opened Wrappers

  const TWO := [Seat("A", 10, (BLANK, BLANK), Active, 0, 0), Seat("B", 10, (BLANK, BLANK), Active, 0, 0)]

  // A raises by 8 to its whole stack, B calls with its whole stack.
  const SHOVE := Action("A", Raise, 8)
  const CALL := Action("B", Call, 0)

  lemma TwoReady(t: Table, d: seq<Card>)
    requires t == NewTable(TWO, 0, 1, 2) && GoodDeck(d, 2)
    ensures Ready(t) && t.seats == TWO && t.dealer == 0 && t.smallBlind == 1 && t.bigBlind == 2 && t.deck.Some?
    ensures SamePublic(t, t) && Knows(t, d)
  {
    NewTableIsReady(TWO, 0, 1, 2);
    assert t.board == Board(d, 2)[..0];
  }

  lemma TwoBlinds(t: Table, p: Table)
    requires t.seats == TWO && t.smallBlind == 1 && t.bigBlind == 2 && p == PostBlindsAt(t, 0, 1)
    ensures At(p, 0, "A", 9, Active, 1, 1) && At(p, 1, "B", 8, Active, 2, 2)
    ensures p.currentBet == 2 && p.minRaise == t.minRaise && p.deck == t.deck && p.dealer == t.dealer
  {
  }

  lemma TwoSpots(t: Table)
    requires |t.seats| == 2 && t.dealer == 0
    ensures SmallBlindIndex(t) == 0 && BigBlindIndex(t) == 1
  {
  }

  lemma TwoOpen(t: Table, d: seq<Card>) returns (s: Table)
    requires t == NewTable(TWO, 0, 1, 2) && GoodDeck(d, 2)
    ensures s == StartHand(t, d).t && s.phase == PreFlop && |s.seats| == 2 && s.actionIdx == 0
    ensures s.currentBet == 2 && s.minRaise == 2
    ensures At(s, 0, "A", 9, Active, 1, 1) && At(s, 1, "B", 8, Active, 2, 2)
  {
    TwoReady(t, d);
    var dealt := t.(deck := Some(d));
    TwoSpots(dealt);
    var p := PostBlindsAt(dealt, 0, 1);
    TwoBlinds(dealt, p);
    var q := StartHandIs(t, d, p);
    TwoSpots(q);
    NextActiveIs(q.seats, 1);
    s := OpenPreFlop(q);
  }

  /** A is all in and B has to answer. */
  lemma Shoved(ev: Evaluator, s: Table) returns (r: Table)
    requires s.phase == PreFlop && |s.seats| == 2 && s.actionIdx == 0 && s.currentBet == 2 && s.minRaise == 2
    requires At(s, 0, "A", 9, Active, 1, 1) && At(s, 1, "B", 8, Active, 2, 2)
    ensures r == ApplyAction(ev, s, SHOVE).t && BoardGoesOn(s, SHOVE)
    ensures r.phase == PreFlop && |r.seats| == 2 && r.actionIdx == 1 && r.currentBet == 10
    ensures At(r, 0, "A", 0, AllIn, 10, 10) && At(r, 1, "B", 8, Active, 2, 2)
  {
    TwoInHand(Perform(s, SHOVE).t.seats, 0, 1);
    PassesTo(ev, s, SHOVE, 1);
    NextActiveIs(Enact(s, SHOVE).seats, 0);
    r := ApplyAction(ev, s, SHOVE).t;
  }

  /** B's call leaves nobody who can act. */
  lemma Called(r: Table)
    requires r.phase == PreFlop && |r.seats| == 2 && r.actionIdx == 1 && r.currentBet == 10
    requires At(r, 0, "A", 0, AllIn, 10, 10) && At(r, 1, "B", 8, Active, 2, 2)
    ensures r.seats[1].id == CALL.player && Perform(r, CALL).err.None?
    ensures var p := Enact(r, CALL);
            !OnlyOneRemaining(p) && EndsRound(p) && p.phase == PreFlop && !SomeoneCanAct(p.seats)
  {
    var p := Enact(r, CALL);
    TwoInHand(p.seats, 0, 1);
    NextActiveIs(p.seats, 1);
  }

  /** What the call does on both machines. */
  lemma CalledOnBoth(ev: Evaluator, p: Table, c: Table, d: seq<Card>)
    requires Mirror(p, c, d) && p.phase == PreFlop && |p.seats| == 2 && p.actionIdx == 1 && p.currentBet == 10
    requires At(p, 0, "A", 0, AllIn, 10, 10) && At(p, 1, "B", 8, Active, 2, 2)
    ensures var o, r := ApplyAction(ev, p, CALL).t, Advance(ev, ApplyAction(ev, c, CALL).t, d, 3);
            !BoardGoesOn(p, CALL) && o.phase == r.phase == Settled && |o.board| == 3 && |r.board| == 5
  {
    Called(p);
    var o, oc := ApplyAction(ev, p, CALL), ApplyAction(ev, c, CALL);
    AcceptedAlike(p, c, CALL, d);
    var pp := TurnTaken(ev, p, CALL, o);
    var cc := TurnTaken(ev, c, CALL, oc);
    BothTakeTurns(p, c, CALL, d, pp, cc);
    StopsShort(ev, pp, cc, d, o, oc, Advance(ev, oc.t, d, 3));
  }

  lemma ShovedOnBoth(ev: Evaluator, s: Table, c: Table, d: seq<Card>) returns (r: Table, cr: Table)
    requires Mirror(s, c, d)
    requires s.phase == PreFlop && |s.seats| == 2 && s.actionIdx == 0 && s.currentBet == 2 && s.minRaise == 2
    requires At(s, 0, "A", 9, Active, 1, 1) && At(s, 1, "B", 8, Active, 2, 2)
    ensures r == ApplyAction(ev, s, SHOVE).t && cr == Advance(ev, ApplyAction(ev, c, SHOVE).t, d, 3)
    ensures Mirror(r, cr, d) && r.phase == PreFlop && |r.seats| == 2 && r.actionIdx == 1 && r.currentBet == 10
    ensures At(r, 0, "A", 0, AllIn, 10, 10) && At(r, 1, "B", 8, Active, 2, 2)
  {
    r := Shoved(ev, s);
    var oc := ApplyAction(ev, c, SHOVE);
    cr := Advance(ev, oc.t, d, 3);
    ActionRefines(ev, s, c, SHOVE, d, ApplyAction(ev, s, SHOVE), oc, cr);
  }

  lemma TwoActions(ev: Evaluator, p: Table, c: Table, x: Action, y: Action, d: seq<Card>, p1: Table, c1: Table)
    requires p1 == ApplyAction(ev, p, x).t && c1 == Advance(ev, ApplyAction(ev, c, x).t, d, 3)
    ensures PlainRun(ev, p, [x, y]) == ApplyAction(ev, p1, y).t
    ensures CryptoRun(ev, c, [x, y], d) == Advance(ev, ApplyAction(ev, c1, y).t, d, 3)
    ensures !BoardGoesOn(p1, y) ==> !BoardGoesOnAlong(ev, p, [x, y])
  {
    assert [x, y][1..] == [y] && [y][1..] == [];
    var p2, c2 := ApplyAction(ev, p1, y).t, Advance(ev, ApplyAction(ev, c1, y).t, d, 3);
    assert PlainRun(ev, p1, [y]) == PlainRun(ev, p2, []);
    assert CryptoRun(ev, c1, [y], d) == CryptoRun(ev, c2, [], d);
  }

  /**
   * The condition of the refinement theorem can fail: two players all in before the flop.
   * From any deck the plaintext hand settles on three board cards and the crypto hand on five.
   */
  lemma ModesPartAllIn(ev: Evaluator, d: seq<Card>)
    requires GoodDeck(d, 2)
    ensures var t := NewTable(TWO, 0, 1, 2);
            && Ready(t) && Knows(t, d)
            && !BoardGoesOnAlong(ev, StartHand(t, d).t, [SHOVE, CALL])
            && var p, c := PlainRun(ev, StartHand(t, d).t, [SHOVE, CALL]),
                   CryptoRun(ev, StartHandCrypto(t).t, [SHOVE, CALL], d);
            p.phase == c.phase == Settled && |p.board| == 3 && |c.board| == 5
  {
    var t := NewTable(TWO, 0, 1, 2);
    TwoReady(t, d);
    var s := TwoOpen(t, d);
    var c := StartHandCrypto(t).t;
    StartsMirror(t, t, d);
    var r, cr := ShovedOnBoth(ev, s, c, d);
    CalledOnBoth(ev, r, cr, d);
    TwoActions(ev, s, c, SHOVE, CALL, d, r, cr);
  }
}
