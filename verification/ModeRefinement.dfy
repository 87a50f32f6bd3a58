// Crypto mode against plaintext mode (internal/game/machine.go:158-238, 297-312, 451-476,
// 532-620): a crypto machine fed from a deck goes where a plaintext machine that deals from
// the same deck goes, exactly as long as the plaintext machine deals the whole board.
module ModeRefinement {
  import opened Cards
  import Deal
  import opened GameState
  import opened Hand
  import opened JointDeck
  import opened Opening
  import opened Public
  import opened Replicas
  import opened Rounds
  import opened Rules
  import opened Wrappers

  // ----------------------------------------------------------------- the advance loop

  /** The street loop of AdvanceCrypto, for at most m streets. */
  function FeedStreets(ev: Evaluator, t: Table, d: seq<Card>, m: nat): Table
    decreases m
  {
    if m == 0 || t.phase != AwaitingStreet || !Knows(t, d) then t
    else FeedStreets(ev, Replicas.Street(ev, t, d).t, d, m - 1)
  }

  /** AdvanceCrypto on a dealt deck: pending streets, then the reveals if any hand is missing. */
  function Advance(ev: Evaluator, t: Table, d: seq<Card>, m: nat): Table {
    var s := FeedStreets(ev, t, d, m);
    if s.phase == Showdown && HolesIncomplete(s) then RevealLoop(ev, s, d, RemainingIDs(s.seats)) else s
  }

  // ----------------------------------------------------------------------- the relation

  /** Cards used when a betting round of this phase is on. */
  function Used(p: Phase, n: nat): nat {
    2 * n + match p case PreFlop => 0 case Flop => 4 case Turn => 6 case _ => 8
  }

  /** p deals from d what c is fed from it; both are in the same betting round. */
  predicate Mirror(p: Table, c: Table, d: seq<Card>) {
    && CryptoMode(c) && p.deck.Some? && SamePublic(p, c) && Knows(c, d)
    && BettingPhase(p.phase) && BoardFits(p.phase, |p.board|)
    && p.deck.value == d[Used(p.phase, |p.seats|)..]
    && forall i :: 0 <= i < |p.seats| ==> p.seats[i].hole == HoleFor(d, |p.seats|, p.dealer, i)
  }

  /** Both are still at the same point, or have settled alike. */
  predicate Refines(p: Table, c: Table, d: seq<Card>) {
    Mirror(p, c, d) || (p.phase == c.phase == Settled && SamePublic(p, c))
  }

  ghost predicate SomeoneCanAct(seats: seq<Seat>) {
    exists i :: 0 <= i < |seats| && CanAct(seats[i])
  }

  /** The relation looks at hands, the deck and the public state only. */
  lemma MirrorMoves(p: Table, c: Table, rp: Table, rc: Table, d: seq<Card>)
    requires Mirror(p, c, d) && SamePublic(rp, rc) && SameHands(p.seats, rp.seats) && SameHands(c.seats, rc.seats)
    requires rp.deck == p.deck && rp.phase == p.phase && rp.board == p.board && rp.dealer == p.dealer
    requires rc.deck == c.deck
    ensures Mirror(rp, rc, d)
  {
    HandsKnow(c, rc, d);
  }

  // -------------------------------------------------------------------------- showdown

  /** However many hands it knew, the crypto machine pays out on the hands that the deck dealt. */
  lemma CryptoShowdown(ev: Evaluator, c: Table, d: seq<Card>, m: nat)
    requires CryptoMode(c) && Knows(c, d)
    ensures var w := WithPots(c.(phase := Showdown));
            && Knows(w, d) && DistributePots(ev, Shown(w, d)).err.None?
            && Advance(ev, StartShowdown(ev, c).t, d, m) == DistributePots(ev, Shown(w, d)).t
  {
    ShowdownFinal(ev, c, d);
    var r := StartShowdown(ev, c).t;
    if r.phase == Showdown {
      LoopIsFinal(ev, r, d);
    }
  }

  lemma PlainShowdown(ev: Evaluator, p: Table)
    requires p.deck.Some?
    ensures var w := WithPots(p.(phase := Showdown));
            && StartShowdown(ev, p) == DistributePots(ev, w) && DistributePots(ev, w).err.None?
            && StartShowdown(ev, p).t.phase == Settled
  {
  }

  lemma HandsShown(p: Table, c: Table, d: seq<Card>)
    requires SamePublic(p, c) && Knows(c, d)
    requires forall i :: 0 <= i < |p.seats| ==> p.seats[i].hole == HoleFor(d, |p.seats|, p.dealer, i)
    ensures SamePublic(p, Shown(c, d)) && SameShown(p.seats, Shown(c, d).seats)
  {
  }

  lemma ShowdownRefines(ev: Evaluator, p: Table, c: Table, d: seq<Card>, m: nat)
    requires CryptoMode(c) && p.deck.Some? && SamePublic(p, c) && Knows(c, d)
    requires forall i :: 0 <= i < |p.seats| ==> p.seats[i].hole == HoleFor(d, |p.seats|, p.dealer, i)
    ensures StartShowdown(ev, p).err.None?
    ensures Refines(StartShowdown(ev, p).t, Advance(ev, StartShowdown(ev, c).t, d, m), d)
  {
    CryptoShowdown(ev, c, d, m);
    PlainShowdown(ev, p);
    var wp, wc := WithPots(p.(phase := Showdown)), WithPots(c.(phase := Showdown));
    SamePots(p.(phase := Showdown), c.(phase := Showdown));
    HandsShown(wp, wc, d);
    SameDistribution(ev, wp, Shown(wc, d));
  }

  // --------------------------------------------------------------------------- streets

  lemma {:induction false} DrawsAre(t: Table, k: nat)
    requires t.deck.Some? && |t.deck.value| >= k
    ensures DrawCards(t, k) == Outcome(t.(deck := Some(t.deck.value[k..]), board := t.board + t.deck.value[..k]), None)
    decreases k
  {
    if k == 0 {
      assert t.board + t.deck.value[..0] == t.board;
    } else {
      var one := DrawCard(t, true).t;
      DrawsAre(one, k - 1);
      assert one.board + one.deck.value[..k - 1] == t.board + t.deck.value[..k];
      assert one.deck.value[k - 1..] == t.deck.value[k..];
    }
  }

  /** What a burn and k cards take off a deck that is d from q on. */
  lemma DealsFrom(t: Table, d: seq<Card>, q: nat, k: nat)
    requires t.deck.Some? && q + k + 1 <= |d| && t.deck.value == d[q..]
    ensures DrawStreet(t, k) == Outcome(t.(deck := Some(d[q + k + 1..]), board := t.board + d[q + 1..q + 1 + k]), None)
  {
    var burned := DrawCard(t, false).t;
    assert burned.deck.value == d[q + 1..];
    DrawsAre(burned, k);
    assert d[q + 1..][k..] == d[q + k + 1..] && d[q + 1..][..k] == d[q + 1..q + 1 + k];
  }

  lemma StreetIsDealt(d: seq<Card>, n: nat, p: Phase, board: nat)
    requires GoodDeck(d, n) && (p == PreFlop || p == Flop || p == Turn) && BoardFits(p, board)
    ensures var q, k := Used(p, n), if p == PreFlop then 3 else 1;
            && NextCards(d, n, board) == d[q + 1..q + 1 + k] && q + k + 1 == Used(NextStreet(p), n)
  {
    var q, k := Used(p, n), if p == PreFlop then 3 else 1;
    var cards, off := NextCards(d, n, board), d[q + 1..q + 1 + k];
    forall j | 0 <= j < k ensures cards[j] == off[j] {
      NextCardAt(d, n, board, j);
      BoardAt(d, n, board + j);
      assert BoardPos(n, board + j) == q + 1 + j;
    }
    assert |cards| == |off|;
  }

  /** The crypto machine after it has been fed the street that the plaintext machine dealt. */
  function Fed(c: Table, d: seq<Card>): Table
    requires Knows(c, d) && BoardFits(c.phase, |c.board|) && (c.phase == PreFlop || c.phase == Flop || c.phase == Turn)
  {
    c.(board := c.board + NextCards(d, |c.seats|, |c.board|), phase := NextStreet(c.phase))
  }

  lemma StreetOffDeck(p: Table, d: seq<Card>, next: Phase, q: nat)
    requires p.deck.Some? && q <= |d| && (p.phase == PreFlop || p.phase == Flop || p.phase == Turn)
    requires next == NextStreet(p.phase)
    requires GoodDeck(d, |p.seats|) && BoardFits(p.phase, |p.board|) && p.deck.value == d[Used(p.phase, |p.seats|)..]
    requires q == Used(next, |p.seats|)
    ensures AfterDeal(p)
        == p.(deck := Some(d[q..]), board := p.board + NextCards(d, |p.seats|, |p.board|), phase := next)
  {
    StreetIsDealt(d, |p.seats|, p.phase, |p.board|);
    DealsFrom(p, d, Used(p.phase, |p.seats|), if p.phase == PreFlop then 3 else 1);
  }

  lemma StreetMirrors(p: Table, c: Table, d: seq<Card>)
    requires Mirror(p, c, d) && p.phase != River
    ensures Mirror(AfterDeal(p), Fed(c, d), d) && CardsFit(p) && Fed(c, d).phase == NextStreet(c.phase)
  {
    StreetOffDeck(p, d, NextStreet(p.phase), Used(NextStreet(p.phase), |p.seats|));
    StreetAccepted(c, d);
    BoardKnows(c, Fed(c, d), d);
  }

  lemma BoardKnows(t: Table, r: Table, d: seq<Card>)
    requires Knows(t, d) && r.seats == t.seats && r.dealer == t.dealer
    requires |r.board| <= 5 && r.board == Board(d, |t.seats|)[..|r.board|]
    ensures Knows(r, d)
  {
  }

  lemma FeedStep(ev: Evaluator, t: Table, d: seq<Card>, m: nat, k: nat, next: Table)
    requires Knows(t, d) && t.phase == AwaitingStreet && m == k + 1 && next == Replicas.Street(ev, t, d).t
    ensures Advance(ev, t, d, m) == Advance(ev, next, d, k)
  {
  }

  lemma FeedOne(ev: Evaluator, c: Table, d: seq<Card>, m: nat, k: nat)
    requires Knows(c, d) && CryptoMode(c) && BoardFits(c.phase, |c.board|)
    requires (c.phase == PreFlop || c.phase == Flop || c.phase == Turn)
    requires m == k + 1
    ensures Advance(ev, c.(phase := AwaitingStreet), d, m) == Advance(ev, StartNewBettingRound(ev, Fed(c, d)).t, d, k)
  {
    var w := c.(phase := AwaitingStreet);
    StreetAccepted(w, d);
    assert Knows(w, d);
    FeedStep(ev, w, d, m, k, StartNewBettingRound(ev, Fed(c, d)).t);
  }

  lemma PotsMirror(p: Table, c: Table, d: seq<Card>)
    requires Mirror(p, c, d)
    ensures Mirror(WithPots(p), WithPots(c), d)
  {
    SamePots(p, c);
  }

  /** The plaintext machine ends its round in o, the crypto machine in oc and, fed up to m streets, in r. */
  ghost predicate RoundOver(ev: Evaluator, p: Table, c: Table, d: seq<Card>, m: nat, o: Outcome, oc: Table, r: Table) {
    o == EndBettingRound(ev, p) && oc == EndBettingRound(ev, c).t && r == Advance(ev, oc, d, m)
  }

  /** The same when both machines open a round. */
  ghost predicate RoundOpened(ev: Evaluator, p: Table, c: Table, d: seq<Card>, m: nat, o: Outcome, oc: Table,
      r: Table) {
    o == StartNewBettingRound(ev, p) && oc == StartNewBettingRound(ev, c).t && r == Advance(ev, oc, d, m)
  }

  /** Before the river both machines go on to the next street. */
  lemma EndUnfolds(ev: Evaluator, p: Table, c: Table, d: seq<Card>, m: nat, k: nat, o: Outcome, oc: Table, r: Table)
    returns (p2: Table, c2: Table, oc2: Table)
    requires Mirror(p, c, d) && StreetsLeft(p.phase) >= 1 && m == k + 1
    requires RoundOver(ev, p, c, d, m, o, oc, r)
    ensures Mirror(p2, c2, d) && StreetsLeft(p2.phase) == StreetsLeft(p.phase) - 1
    ensures p.phase == Turn || SomeoneCanAct(p.seats) ==> p2.phase == River || SomeoneCanAct(p2.seats)
    ensures RoundOpened(ev, p2, c2, d, k, o, oc2, r)
  {
    var wp, wc := WithPots(p), WithPots(c);
    PotsMirror(p, c, d);
    StreetMirrors(wp, wc, d);
    DealtFits(wp);
    FeedOne(ev, wc, d, m, k);
    p2, c2 := AfterDeal(wp), Fed(wc, d);
    StreetKeepsSeats(wp, d);
    oc2 := StartNewBettingRound(ev, c2).t;
    assert oc == wc.(phase := AwaitingStreet);
  }

  lemma StreetKeepsSeats(p: Table, d: seq<Card>)
    requires (p.phase == PreFlop || p.phase == Flop || p.phase == Turn) && p.deck.Some? && CardsFit(p)
    ensures AfterDeal(p).seats == p.seats && AfterDeal(p).phase == NextStreet(p.phase)
  {
    StreetFits(p, if p.phase == PreFlop then 3 else 1);
  }

  lemma RiverRefines(ev: Evaluator, p: Table, c: Table, d: seq<Card>, m: nat, o: Outcome, oc: Table, r: Table)
    requires Mirror(p, c, d) && p.phase == River
    requires RoundOver(ev, p, c, d, m, o, oc, r)
    ensures o.err.None? && Refines(o.t, r, d)
  {
    PotsMirror(p, c, d);
    ShowdownRefines(ev, WithPots(p), WithPots(c), d, m);
  }

  /** A round ends while someone can act, or late enough, with the streets that may be missing. */
  ghost predicate EndsWell(ev: Evaluator, p: Table, c: Table, d: seq<Card>, m: nat, o: Outcome, oc: Table, r: Table) {
    && Mirror(p, c, d) && m >= StreetsLeft(p.phase) && RoundOver(ev, p, c, d, m, o, oc, r)
    && (p.phase == Turn || p.phase == River || SomeoneCanAct(p.seats))
  }

  ghost predicate OpensWell(ev: Evaluator, p: Table, c: Table, d: seq<Card>, m: nat, o: Outcome, oc: Table, r: Table) {
    && Mirror(p, c, d) && m >= StreetsLeft(p.phase) && RoundOpened(ev, p, c, d, m, o, oc, r)
    && (p.phase == River || SomeoneCanAct(p.seats))
  }

  predicate EndsAlike(o: Outcome, r: Table, d: seq<Card>) {
    o.err.None? && Refines(o.t, r, d)
  }

  lemma RiverEndsAlike(ev: Evaluator, p: Table, c: Table, d: seq<Card>, m: nat, o: Outcome, oc: Table, r: Table)
    requires EndsWell(ev, p, c, d, m, o, oc, r) && p.phase == River
    ensures EndsAlike(o, r, d)
  {
    RiverRefines(ev, p, c, d, m, o, oc, r);
  }

  lemma EndSettles(ev: Evaluator, p: Table, c: Table, d: seq<Card>, m: nat, o: Outcome, oc: Table, r: Table)
    returns (p2: Table, c2: Table, k: nat, oc2: Table, opens: bool)
    requires EndsWell(ev, p, c, d, m, o, oc, r)
    ensures opens ==> k < m && OpensWell(ev, p2, c2, d, k, o, oc2, r)
    ensures !opens ==> EndsAlike(o, r, d)
  {
    if p.phase == River {
      RiverEndsAlike(ev, p, c, d, m, o, oc, r);
      p2, c2, k, oc2, opens := p, c, m, oc, false;
    } else {
      k, opens := m - 1, true;
      p2, c2, oc2 := EndUnfolds(ev, p, c, d, m, k, o, oc, r);
    }
  }

  /** The rest of the hand after a round: the plaintext machine at once, the crypto machine street by street. */
  lemma {:induction false} EndRefines(ev: Evaluator, p: Table, c: Table, d: seq<Card>, m: nat, o: Outcome, oc: Table,
      r: Table)
    requires EndsWell(ev, p, c, d, m, o, oc, r)
    ensures EndsAlike(o, r, d)
    decreases m, 1
  {
    var p2, c2, k, oc2, opens := EndSettles(ev, p, c, d, m, o, oc, r);
    if opens {
      OpenRefines(ev, p2, c2, d, k, o, oc2, r);
    }
  }

  lemma FreshMirrors(p: Table, c: Table, d: seq<Card>)
    requires Mirror(p, c, d)
    ensures Mirror(FreshRound(p), FreshRound(c), d)
    ensures NextActive(FreshRound(p).seats, p.dealer) == NextActive(FreshRound(c).seats, c.dealer)
    ensures CountCanAct(FreshRound(p).seats) == CountCanAct(FreshRound(c).seats)
  {
    SameFreshRound(p, c);
    MirrorMoves(p, c, FreshRound(p), FreshRound(c), d);
  }

  lemma StillSomeone(p: Table)
    requires p.dealer < |p.seats|
    ensures SomeoneCanAct(p.seats) <==> SomeoneCanAct(FreshRound(p).seats)
    ensures SomeoneCanAct(p.seats) <==> NextActive(FreshRound(p).seats, p.dealer) != -1
  {
    NextActiveIs(FreshRound(p).seats, p.dealer);
    forall i | 0 <= i < |p.seats| ensures CanAct(p.seats[i]) <==> CanAct(FreshRound(p).seats[i]) {
    }
    if SomeoneCanAct(p.seats) {
      var i :| 0 <= i < |p.seats| && CanAct(p.seats[i]);
      assert CanAct(FreshRound(p).seats[i]);
    }
  }

  /** A new round opens alike; either both wait for an action or both rounds end at once. */
  lemma OpenUnfolds(ev: Evaluator, p: Table, c: Table, d: seq<Card>, m: nat, o: Outcome, oc: Table, r: Table)
    returns (rp: Table, rc: Table, ended: bool)
    requires Mirror(p, c, d) && NextActive(FreshRound(p).seats, p.dealer) != -1
    requires RoundOpened(ev, p, c, d, m, o, oc, r)
    ensures Mirror(rp, rc, d) && rp.phase == p.phase && rp.seats == FreshRound(p).seats
    ensures ended ==> RoundOver(ev, rp, rc, d, m, o, oc, r)
    ensures !ended ==> o == Outcome(rp, None) && oc == rc
  {
    var fp, fc := FreshRound(p), FreshRound(c);
    var first := NextActive(fp.seats, fp.dealer);
    FreshMirrors(p, c, d);
    rp, rc := fp.(actionIdx := first), fc.(actionIdx := first);
    MirrorMoves(fp, fc, rp, rc, d);
    ended := CountCanAct(rp.seats) <= 1;
  }

  lemma WaitsAlike(ev: Evaluator, p: Table, c: Table, d: seq<Card>, m: nat)
    requires Mirror(p, c, d)
    ensures Refines(p, Advance(ev, c, d, m), d)
  {
  }

  lemma OpenSettles(ev: Evaluator, p: Table, c: Table, d: seq<Card>, m: nat, o: Outcome, oc: Table, r: Table)
    returns (rp: Table, rc: Table, ended: bool)
    requires OpensWell(ev, p, c, d, m, o, oc, r)
    ensures ended ==> EndsWell(ev, rp, rc, d, m, o, oc, r)
    ensures !ended ==> EndsAlike(o, r, d)
  {
    StillSomeone(p);
    if NextActive(FreshRound(p).seats, p.dealer) == -1 {
      NobodyOnRiver(ev, p, c, d, m);
      rp, rc, ended := p, c, false;
    } else {
      rp, rc, ended := OpenUnfolds(ev, p, c, d, m, o, oc, r);
      if !ended {
        WaitsAlike(ev, rp, rc, d, m);
      }
    }
  }

  lemma {:induction false} OpenRefines(ev: Evaluator, p: Table, c: Table, d: seq<Card>, m: nat, o: Outcome, oc: Table,
      r: Table)
    requires OpensWell(ev, p, c, d, m, o, oc, r)
    ensures EndsAlike(o, r, d)
    decreases m, 2
  {
    var rp, rc, ended := OpenSettles(ev, p, c, d, m, o, oc, r);
    if ended {
      EndRefines(ev, rp, rc, d, m, o, oc, r);
    }
  }

  lemma NobodyOnRiver(ev: Evaluator, p: Table, c: Table, d: seq<Card>, m: nat)
    requires Mirror(p, c, d) && p.phase == River && NextActive(FreshRound(p).seats, p.dealer) == -1
    ensures StartNewBettingRound(ev, p).err.None?
    ensures Refines(StartNewBettingRound(ev, p).t, Advance(ev, StartNewBettingRound(ev, c).t, d, m), d)
  {
    FreshMirrors(p, c, d);
    LateShowdown(ev, FreshRound(p), FreshRound(c), d, m);
  }

  /** On the river the crypto machine refreshes its pots once more before the showdown. */
  lemma LateShowdown(ev: Evaluator, p: Table, c: Table, d: seq<Card>, m: nat)
    requires Mirror(p, c, d) && p.phase == River
    ensures StartShowdown(ev, p).err.None?
    ensures Refines(StartShowdown(ev, p).t, Advance(ev, EndBettingRound(ev, c).t, d, m), d)
  {
    assert StartShowdown(ev, WithPots(c)) == StartShowdown(ev, c);
    ShowdownRefines(ev, p, c, d, m);
  }

  // --------------------------------------------------------------------------- actions

  lemma PerformMirrors(p: Table, c: Table, x: Action, d: seq<Card>)
    requires Mirror(p, c, d) && 0 <= p.actionIdx < |p.seats|
    ensures Perform(p, x).err == Perform(c, x).err
    ensures Mirror(Recorded(Perform(p, x).t, x), Recorded(Perform(c, x).t, x), d)
    ensures Perform(p, x).t.actionIdx == p.actionIdx
  {
    SamePerform(p, c, x);
    PerformHands(p, x);
    PerformHands(c, x);
    MirrorMoves(p, c, Recorded(Perform(p, x).t, x), Recorded(Perform(c, x).t, x), d);
  }

  /** The action does not end a round before the turn with nobody left to act. */
  ghost predicate BoardGoesOn(p: Table, x: Action) {
    BettingPhase(p.phase) && 0 <= p.actionIdx < |p.seats| && p.seats[p.actionIdx].id == x.player
        && Perform(p, x).err.None? ==>
      var r := Enact(p, x);
      OnlyOneRemaining(r) || !EndsRound(r) || r.phase == Turn || r.phase == River || SomeoneCanAct(r.seats)
  }

  lemma AfterRefines(ev: Evaluator, p: Table, c: Table, d: seq<Card>, o: Outcome, oc: Table, r: Table)
    requires Mirror(p, c, d) && 0 <= p.actionIdx < |p.seats|
    requires OnlyOneRemaining(p) || !EndsRound(p) || p.phase == Turn || p.phase == River || SomeoneCanAct(p.seats)
    requires o == AfterAction(ev, p) && oc == AfterAction(ev, c).t && r == Advance(ev, oc, d, 3)
    ensures o.err.None? && Refines(o.t, r, d)
  {
    SameEndsRound(p, c);
    if OnlyOneRemaining(p) {
      SameSingleWinner(p, c);
    } else if EndsRound(p) {
      EndRefines(ev, p, c, d, 3, o, oc, r);
    } else {
      var next := NextActive(p.seats, p.actionIdx);
      MirrorMoves(p, c, p.(actionIdx := next), c.(actionIdx := next), d);
      WaitsAlike(ev, p.(actionIdx := next), c.(actionIdx := next), d, 3);
    }
  }

  lemma RefusedIs(t: Table, x: Action)
    requires 0 <= t.actionIdx < |t.seats|
    ensures Perform(t, x).err.Some? ==> Perform(t, x).t == t
  {
  }

  lemma ApplyIs(ev: Evaluator, t: Table, x: Action)
    requires BettingPhase(t.phase) && 0 <= t.actionIdx < |t.seats| && t.seats[t.actionIdx].id == x.player
    ensures ApplyAction(ev, t, x) == if Perform(t, x).err.None? then AfterAction(ev, Enact(t, x))
        else Outcome(t, Perform(t, x).err)
  {
    RefusedIs(t, x);
  }

  lemma DoneAlike(ev: Evaluator, p: Table, c: Table, d: seq<Card>)
    requires Refines(p, c, d)
    ensures Refines(p, Advance(ev, c, d, 3), d)
  {
  }

  lemma BoardStays(p: Table, x: Action)
    requires BettingPhase(p.phase) && 0 <= p.actionIdx < |p.seats| && p.seats[p.actionIdx].id == x.player
    requires BoardGoesOn(p, x) && Perform(p, x).err.None?
    ensures var r := Enact(p, x);
            OnlyOneRemaining(r) || !EndsRound(r) || r.phase == Turn || r.phase == River || SomeoneCanAct(r.seats)
  {
  }

  /** An accepted action, in turn, leads to tt and then on. */
  lemma TurnTaken(ev: Evaluator, t: Table, x: Action, o: Outcome) returns (tt: Table)
    requires BettingPhase(t.phase) && 0 <= t.actionIdx < |t.seats| && t.seats[t.actionIdx].id == x.player
    requires Perform(t, x).err.None? && o == ApplyAction(ev, t, x)
    ensures tt == Enact(t, x) && o == AfterAction(ev, tt)
  {
    ApplyIs(ev, t, x);
    tt := Enact(t, x);
  }

  lemma BothTakeTurns(p: Table, c: Table, x: Action, d: seq<Card>, pp: Table, cc: Table)
    requires Mirror(p, c, d) && 0 <= p.actionIdx < |p.seats| && pp == Enact(p, x) && cc == Enact(c, x)
    ensures Mirror(pp, cc, d) && 0 <= pp.actionIdx < |pp.seats|
  {
    PerformMirrors(p, c, x, d);
  }

  lemma AcceptedAlike(p: Table, c: Table, x: Action, d: seq<Card>)
    requires Mirror(p, c, d) && 0 <= p.actionIdx < |p.seats|
    ensures 0 <= c.actionIdx < |c.seats| && Perform(p, x).err == Perform(c, x).err
    ensures c.phase == p.phase && c.seats[c.actionIdx].id == p.seats[p.actionIdx].id
  {
    PerformMirrors(p, c, x, d);
  }

  /** In turn and accepted: both go on from tables that mirror each other. */
  lemma ActUnfolds(ev: Evaluator, p: Table, c: Table, x: Action, d: seq<Card>, o: Outcome,
      oc: Outcome) returns (pp: Table, cc: Table)
    requires Mirror(p, c, d) && 0 <= p.actionIdx < |p.seats| && p.seats[p.actionIdx].id == x.player
    requires Perform(p, x).err.None? && BoardGoesOn(p, x) && o == ApplyAction(ev, p, x) && oc == ApplyAction(ev, c, x)
    ensures Mirror(pp, cc, d) && 0 <= pp.actionIdx < |pp.seats| && o == AfterAction(ev, pp) && oc == AfterAction(ev, cc)
    ensures OnlyOneRemaining(pp) || !EndsRound(pp) || pp.phase == Turn || pp.phase == River || SomeoneCanAct(pp.seats)
  {
    AcceptedAlike(p, c, x, d);
    pp := TurnTaken(ev, p, x, o);
    cc := TurnTaken(ev, c, x, oc);
    BoardStays(p, x);
    BothTakeTurns(p, c, x, d, pp, cc);
  }

  lemma BothRefuse(ev: Evaluator, p: Table, c: Table, x: Action, d: seq<Card>)
    requires Mirror(p, c, d) && 0 <= p.actionIdx < |p.seats| && p.seats[p.actionIdx].id == x.player
    requires Perform(p, x).err.Some?
    ensures ApplyAction(ev, p, x).t == p && ApplyAction(ev, c, x).t == c
  {
    SamePerform(p, c, x);
    ApplyIs(ev, p, x);
    ApplyIs(ev, c, x);
  }

  /** One action on both machines, the crypto machine then fed what it waits for. */
  lemma ActionRefines(ev: Evaluator, p: Table, c: Table, x: Action, d: seq<Card>, o: Outcome, oc: Outcome, r: Table)
    requires Refines(p, c, d) && BoardGoesOn(p, x)
    requires o == ApplyAction(ev, p, x) && oc == ApplyAction(ev, c, x) && r == Advance(ev, oc.t, d, 3)
    ensures Refines(o.t, r, d)
  {
    if Mirror(p, c, d) && 0 <= p.actionIdx < |p.seats| && p.seats[p.actionIdx].id == x.player {
      if Perform(p, x).err.None? {
        var pp, cc := ActUnfolds(ev, p, c, x, d, o, oc);
        AfterRefines(ev, pp, cc, d, o, oc.t, r);
      } else {
        BothRefuse(ev, p, c, x, d);
        DoneAlike(ev, p, c, d);
      }
    } else {
      DoneAlike(ev, p, c, d);
    }
  }

  // ---------------------------------------------------------------------- whole hands

  function PlainRun(ev: Evaluator, p: Table, xs: seq<Action>): Table
    decreases |xs|
  {
    if xs == [] then p else PlainRun(ev, ApplyAction(ev, p, xs[0]).t, xs[1..])
  }

  function CryptoRun(ev: Evaluator, c: Table, xs: seq<Action>, d: seq<Card>): Table
    decreases |xs|
  {
    if xs == [] then c else CryptoRun(ev, Advance(ev, ApplyAction(ev, c, xs[0]).t, d, 3), xs[1..], d)
  }

  ghost predicate BoardGoesOnAlong(ev: Evaluator, p: Table, xs: seq<Action>)
    decreases |xs|
  {
    xs != [] ==> BoardGoesOn(p, xs[0]) && BoardGoesOnAlong(ev, ApplyAction(ev, p, xs[0]).t, xs[1..])
  }

  // --------------------------------------------------------------------------- opening

  /** The first pos cards of the deck are where they belong. */
  predicate DealtTo(t: Table, d: seq<Card>, pos: nat) {
    && GoodDeck(d, |t.seats|) && t.dealer < |t.seats| && pos <= 2 * |t.seats|
    && t.deck == Some(d[pos..])
    && forall i :: 0 <= i < |t.seats| ==> HoleTo(t, d, pos, i)
  }

  predicate HoleTo(t: Table, d: seq<Card>, pos: nat, i: nat)
    requires GoodDeck(d, |t.seats|) && t.dealer < |t.seats| && i < |t.seats|
  {
    var p0, p1 := Deal.HolePos(|t.seats|, t.dealer, i, 0), Deal.HolePos(|t.seats|, t.dealer, i, 1);
    (p0 < pos ==> t.seats[i].hole.0 == d[p0]) && (p1 < pos ==> t.seats[i].hole.1 == d[p1])
  }

  lemma DealOne(t: Table, d: seq<Card>, pos: nat)
    requires DealtTo(t, d, pos) && pos < 2 * |t.seats|
    ensures DealtTo(DealHole(t, pos), d, pos + 1)
  {
    var n, at := |t.seats|, HoleSeat(t.dealer, pos, |t.seats|);
    var r := DealHole(t, pos);
    HoleSeatIs(t.dealer, pos, n);
    var next := pos + 1;
    forall i | 0 <= i < n ensures HoleTo(r, d, next, i) {
      var round := if pos < n then 0 else 1;
      if Deal.HolePos(n, t.dealer, i, 0) == pos {
        Deal.HolePosDistinct(n, t.dealer, i, 0, at, round);
      }
      if Deal.HolePos(n, t.dealer, i, 1) == pos {
        Deal.HolePosDistinct(n, t.dealer, i, 1, at, round);
      }
      assert HoleTo(t, d, pos, i);
    }
    assert d[pos..][1..] == d[pos + 1..];
  }

  lemma {:induction false} DealAll(t: Table, d: seq<Card>, pos: nat)
    requires DealtTo(t, d, pos)
    ensures DealHolesFrom(t, pos).err.None? && DealtTo(DealHolesFrom(t, pos).t, d, 2 * |t.seats|)
    decreases 2 * |t.seats| - pos
  {
    if pos < 2 * |t.seats| {
      DealOne(t, d, pos);
      DealAll(DealHole(t, pos), d, pos + 1);
    }
  }

  /** The plaintext table once the blinds are posted and the hole cards dealt. */
  lemma PlainStarts(t: Table, d: seq<Card>) returns (p: Table)
    requires Ready(t) && t.deck.Some? && GoodDeck(d, |t.seats|)
    ensures |p.seats| == |t.seats| && p.dealer == t.dealer && DealtTo(p, d, 2 * |p.seats|)
    ensures StartHand(t, d) == Outcome(OpenPreFlop(p), None) && SameButCards(PostBlinds(t.(deck := Some(d))), p)
  {
    var start := PostBlinds(t.(deck := Some(d)));
    assert d[0..] == d;
    assert DealtTo(start, d, 0);
    DealAll(start, d, 0);
    DealHolesKeeps(start, 0);
    p := DealHolesFrom(start, 0).t;
  }

  /** Both start the hand: plaintext with the deck in order d, crypto knowing some of d's hands. */
  lemma StartsMirror(t: Table, c: Table, d: seq<Card>)
    requires Ready(t) && t.deck.Some? && SamePublic(t, c) && Knows(c, d)
    ensures StartHand(t, d).err.None? && StartHandCrypto(c).err.None?
    ensures Mirror(StartHand(t, d).t, StartHandCrypto(c).t, d)
  {
    var p := PlainStarts(t, d);
    SameStart(c, t.(deck := None), d);
    HolesInOrder(p, d);
    StartsAlike(t, c, d, p);
    MirrorStart(OpenPreFlop(p), StartHandCrypto(c).t, d);
  }

  lemma MirrorStart(p: Table, c: Table, d: seq<Card>)
    requires CryptoMode(c) && SamePublic(p, c) && Knows(c, d) && p.phase == PreFlop && p.board == []
    requires p.deck == Some(d[2 * |p.seats|..])
    requires forall i :: 0 <= i < |p.seats| ==> p.seats[i].hole == HoleFor(d, |p.seats|, p.dealer, i)
    ensures Mirror(p, c, d)
  {
  }

  lemma HolesInOrder(t: Table, d: seq<Card>)
    requires DealtTo(t, d, 2 * |t.seats|)
    ensures forall i :: 0 <= i < |t.seats| ==> t.seats[i].hole == HoleFor(d, |t.seats|, t.dealer, i)
  {
    forall i | 0 <= i < |t.seats| ensures t.seats[i].hole == HoleFor(d, |t.seats|, t.dealer, i) {
      assert HoleTo(t, d, 2 * |t.seats|, i);
    }
  }

  lemma StartsAlike(t: Table, c: Table, d: seq<Card>, p: Table)
    requires Ready(t) && t.deck.Some? && SamePublic(t, c) && Knows(c, d)
    requires SameButCards(PostBlinds(t.(deck := Some(d))), p)
    ensures SamePublic(OpenPreFlop(p), StartHandCrypto(c).t)
  {
    var sb, bb := SmallBlindIndex(t), BigBlindIndex(t);
    BlindsInRange(t);
    SamePost(t.(deck := Some(d)), c.(deck := None), sb, bb);
    OpensAlike(p, PostBlindsAt(c.(deck := None), sb, bb));
  }

  lemma OpensAlike(a: Table, b: Table)
    requires SamePublic(a, b) && |a.seats| >= 2 && a.dealer < |a.seats|
    ensures SamePublic(OpenPreFlop(a), OpenPreFlop(b))
  {
    SameNext(a.seats, b.seats, BigBlindIndex(a));
  }

  // -------------------------------------------------------------------- when it does not

  lemma NobodyFresh(t: Table)
    requires t.dealer < |t.seats| && !SomeoneCanAct(t.seats)
    ensures !SomeoneCanAct(FreshRound(t).seats) && NextActive(FreshRound(t).seats, t.dealer) == -1
  {
    StillSomeone(t);
  }

  lemma NobodyOpens(ev: Evaluator, t: Table)
    requires CryptoMode(t) && t.dealer < |t.seats| && !SomeoneCanAct(t.seats)
    ensures StartNewBettingRound(ev, t) == EndBettingRound(ev, FreshRound(t))
  {
    NobodyFresh(t);
  }

  lemma FedFresh(w: Table, d: seq<Card>) returns (c2: Table)
    requires CryptoMode(w) && Knows(w, d) && BettingPhase(w.phase) && BoardFits(w.phase, |w.board|)
    requires !SomeoneCanAct(w.seats) && StreetsLeft(w.phase) >= 1
    ensures c2 == FreshRound(Fed(w, d)) && CryptoMode(c2) && Knows(c2, d) && BettingPhase(c2.phase)
    ensures BoardFits(c2.phase, |c2.board|) && !SomeoneCanAct(c2.seats)
    ensures StreetsLeft(c2.phase) == StreetsLeft(w.phase) - 1
  {
    var f := Fed(w, d);
    StreetAccepted(w, d);
    NobodyFresh(f);
    BoardKnows(w, f, d);
    c2 := FreshRound(f);
    HandsKnow(f, c2, d);
  }

  /** A crypto machine on which nobody can act goes on to the next street. */
  lemma RunsOutUnfolds(ev: Evaluator, c: Table, d: seq<Card>, m: nat, k: nat, oc: Table, r: Table) returns (c2: Table,
      oc2: Table)
    requires CryptoMode(c) && Knows(c, d) && BettingPhase(c.phase) && BoardFits(c.phase, |c.board|)
    requires !SomeoneCanAct(c.seats) && StreetsLeft(c.phase) >= 1 && m == k + 1 && oc == EndBettingRound(ev, c).t
    requires r == Advance(ev, oc, d, m)
    ensures CryptoMode(c2) && Knows(c2, d) && BettingPhase(c2.phase) && BoardFits(c2.phase, |c2.board|)
    ensures !SomeoneCanAct(c2.seats) && StreetsLeft(c2.phase) == StreetsLeft(c.phase) - 1
    ensures oc2 == EndBettingRound(ev, c2).t
    ensures r == Advance(ev, oc2, d, k)
  {
    var w := WithPots(c);
    FeedOne(ev, w, d, m, k);
    c2 := FedFresh(w, d);
    oc2 := EndBettingRound(ev, c2).t;
    assert oc == w.(phase := AwaitingStreet);
    NobodyOpens(ev, Fed(w, d));
  }

  lemma RiverRunsOut(ev: Evaluator, c: Table, d: seq<Card>, m: nat, oc: Table, r: Table)
    requires CryptoMode(c) && Knows(c, d) && c.phase == River && |c.board| == 5
    requires oc == EndBettingRound(ev, c).t && r == Advance(ev, oc, d, m)
    ensures r.phase == Settled && |r.board| == 5
  {
    CryptoShowdown(ev, WithPots(c), d, m);
  }

  /** Nobody left to act: the crypto machine still gets the whole board. */
  lemma {:induction false} CryptoRunsOut(ev: Evaluator, c: Table, d: seq<Card>, m: nat, oc: Table, r: Table)
    requires CryptoMode(c) && Knows(c, d) && BettingPhase(c.phase) && BoardFits(c.phase, |c.board|)
    requires !SomeoneCanAct(c.seats) && m >= StreetsLeft(c.phase)
    requires oc == EndBettingRound(ev, c).t && r == Advance(ev, oc, d, m)
    ensures r.phase == Settled && |r.board| == 5
    decreases StreetsLeft(c.phase)
  {
    if c.phase == River {
      RiverRunsOut(ev, c, d, m, oc, r);
    } else {
      var k := m - 1;
      var c2, oc2 := RunsOutUnfolds(ev, c, d, m, k, oc, r);
      CryptoRunsOut(ev, c2, d, k, oc2, r);
    }
  }

  /** Nobody left to act: the plaintext machine settles on the street it deals next. */
  lemma PlainStopsShort(ev: Evaluator, p: Table, o: Outcome)
    requires p.deck.Some? && CardsFit(p) && (p.phase == PreFlop || p.phase == Flop) && BoardFits(p.phase, |p.board|)
    requires !SomeoneCanAct(p.seats) && p.dealer < |p.seats| && o == EndBettingRound(ev, p)
    ensures o.err.None? && o.t.phase == Settled && |o.t.board| == if p.phase == PreFlop then 3 else 4
  {
    var w := WithPots(p);
    DealtFits(w);
    StreetKeepsSeats(w, []);
    var a := AfterDeal(w);
    NobodyFresh(a);
    ShortStreet(w);
    PlainShowdown(ev, FreshRound(a));
  }

  lemma ShortStreet(p: Table)
    requires p.deck.Some? && CardsFit(p) && (p.phase == PreFlop || p.phase == Flop) && BoardFits(p.phase, |p.board|)
    ensures |AfterDeal(p).board| == if p.phase == PreFlop then 3 else 4
    ensures AfterDeal(p).deck.Some? && AfterDeal(p).dealer == p.dealer
  {
    var k := if p.phase == PreFlop then 3 else 1;
    DrawsAre(DrawCard(p, false).t, k);
    StreetFits(p, k);
  }

  /**
   * The condition is exact: an action after which nobody can act before the turn settles the
   * plaintext hand on three or four board cards and the crypto hand on five.
   */
  lemma ActionRefinesExactly(ev: Evaluator, p: Table, c: Table, x: Action, d: seq<Card>)
    requires Mirror(p, c, d)
    ensures Refines(ApplyAction(ev, p, x).t, Advance(ev, ApplyAction(ev, c, x).t, d, 3), d) <==> BoardGoesOn(p, x)
  {
    var o, oc := ApplyAction(ev, p, x), ApplyAction(ev, c, x);
    var r := Advance(ev, oc.t, d, 3);
    if BoardGoesOn(p, x) {
      ActionRefines(ev, p, c, x, d, o, oc, r);
    } else {
      AcceptedAlike(p, c, x, d);
      var pp := TurnTaken(ev, p, x, o);
      var cc := TurnTaken(ev, c, x, oc);
      BothTakeTurns(p, c, x, d, pp, cc);
      StopsShort(ev, pp, cc, d, o, oc, r);
    }
  }

  lemma {:induction false} StopsShort(ev: Evaluator, pp: Table, cc: Table, d: seq<Card>, o: Outcome, oc: Outcome,
      r: Table)
    requires Mirror(pp, cc, d) && 0 <= pp.actionIdx < |pp.seats|
    requires !OnlyOneRemaining(pp) && EndsRound(pp) && pp.phase != Turn && pp.phase != River && !SomeoneCanAct(pp.seats)
    requires o == AfterAction(ev, pp) && oc == AfterAction(ev, cc) && r == Advance(ev, oc.t, d, 3)
    ensures o.t.phase == Settled && r.phase == Settled && |r.board| == 5
    ensures |o.t.board| == if pp.phase == PreFlop then 3 else 4
  {
    SameEndsRound(pp, cc);
    PlainStopsShort(ev, pp, o);
    forall i | 0 <= i < |cc.seats| ensures !CanAct(cc.seats[i]) {
      assert !CanAct(pp.seats[i]);
    }
    CryptoRunsOut(ev, cc, d, 3, oc.t, r);
  }

  // ------------------------------------------------------------------ whole hands, exactly

  lemma {:induction false} PlainStaysSettled(ev: Evaluator, p: Table, xs: seq<Action>)
    requires p.phase == Settled
    ensures PlainRun(ev, p, xs) == p
    decreases |xs|
  {
    if xs != [] {
      PlainStaysSettled(ev, p, xs[1..]);
    }
  }

  lemma {:induction false} CryptoStaysSettled(ev: Evaluator, c: Table, xs: seq<Action>, d: seq<Card>)
    requires c.phase == Settled
    ensures CryptoRun(ev, c, xs, d) == c
    decreases |xs|
  {
    if xs != [] {
      CryptoStaysSettled(ev, c, xs[1..], d);
    }
  }

  lemma StopsShortForGood(ev: Evaluator, p: Table, c: Table, x: Action, xs: seq<Action>, d: seq<Card>, o: Outcome,
      r: Table)
    requires Mirror(p, c, d) && !BoardGoesOn(p, x)
    requires o == ApplyAction(ev, p, x) && r == Advance(ev, ApplyAction(ev, c, x).t, d, 3)
    ensures !SamePublic(PlainRun(ev, o.t, xs), CryptoRun(ev, r, xs, d))
  {
    var oc := ApplyAction(ev, c, x);
    AcceptedAlike(p, c, x, d);
    var pp := TurnTaken(ev, p, x, o);
    var cc := TurnTaken(ev, c, x, oc);
    BothTakeTurns(p, c, x, d, pp, cc);
    StopsShort(ev, pp, cc, d, o, oc, r);
    PlainStaysSettled(ev, o.t, xs);
    CryptoStaysSettled(ev, r, xs, d);
  }

  lemma {:induction false} RunRefinesExactly(ev: Evaluator, p: Table, c: Table, xs: seq<Action>, d: seq<Card>)
    requires Refines(p, c, d)
    ensures SamePublic(PlainRun(ev, p, xs), CryptoRun(ev, c, xs, d)) <==> BoardGoesOnAlong(ev, p, xs)
    decreases |xs|
  {
    if xs != [] {
      var o, oc := ApplyAction(ev, p, xs[0]), ApplyAction(ev, c, xs[0]);
      var r := Advance(ev, oc.t, d, 3);
      if BoardGoesOn(p, xs[0]) {
        ActionRefines(ev, p, c, xs[0], d, o, oc, r);
        RunRefinesExactly(ev, o.t, r, xs[1..], d);
      } else {
        StopsShortForGood(ev, p, c, xs[0], xs[1..], d, o, r);
      }
    }
  }

  /**
   * Crypto mode refines plaintext mode, exactly. From one deck and one sequence of actions,
   * fed as the advance loop does, the crypto machine ends up in the same public state as
   * the plaintext machine, stacks and payouts included, however many hands it knew at the
   * start, if and only if no accepted action leaves nobody to act before the turn.
   */
  lemma CryptoRefinesPlaintext(ev: Evaluator, t: Table, c: Table, xs: seq<Action>, d: seq<Card>)
    requires Ready(t) && t.deck.Some? && SamePublic(t, c) && Knows(c, d)
    ensures SamePublic(PlainRun(ev, StartHand(t, d).t, xs), CryptoRun(ev, StartHandCrypto(c).t, xs, d)) <==>
            BoardGoesOnAlong(ev, StartHand(t, d).t, xs)
  {
    StartsMirror(t, c, d);
    RunRefinesExactly(ev, StartHand(t, d).t, StartHandCrypto(c).t, xs, d);
  }
}
