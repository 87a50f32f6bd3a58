// The end of a crypto hand (internal/network/crypto_hand.go:519-546): at the showdown the loop
// begins the reveal of each remaining hand and hands the opened cards to the machine.
module Settling {
  import opened AdvanceLoop
  import opened Cards
  import opened DealSafety
  import opened DealSession
  import opened GameState
  import opened JointDeck
  import opened Lockstep
  import Opening
  import Replicas
  import opened Rules
  import opened Wrappers

  /**
   * One turn of the reveal loop: the reveal is begun, peels arrive, and its cards go to the
   * machine if it still wants them.
   */
  function RevealOne(ev: Evaluator, c: DealConfig, l: Local, id: string, peels: seq<Call>): Local
    requires ValidDeal(c)
  {
    var calls := l.calls + [CallReveal(id)] + peels;
    var pair := RevealedHoles(c, RunCalls(c, calls), id);
    Local(if pair.Err? || l.t.phase != Showdown then l.t else ApplyHoleReveal(ev, l.t, id, pair.value).t, calls, false)
  }

  /** The reveal loop over the players ids; peels[i] are the calls with peels made while the i-th reveal is awaited. */
  function Reveals(ev: Evaluator, c: DealConfig, l: Local, ids: seq<string>, peels: seq<seq<Call>>): Local
    requires ValidDeal(c) && |peels| == |ids|
    decreases |ids|
  {
    if ids == [] then l else Reveals(ev, c, RevealOne(ev, c, l, ids[0], peels[0]), ids[1..], peels[1..])
  }

  /** Each wait lasts until its reveal is done. */
  predicate WaitsOut(ev: Evaluator, c: DealConfig, l: Local, ids: seq<string>, peels: seq<seq<Call>>)
    requires ValidDeal(c) && |peels| == |ids|
    decreases |ids|
  {
    ids != [] ==>
      && RunCalls(c, RevealOne(ev, c, l, ids[0], peels[0]).calls).flags.revealDone
      && WaitsOut(ev, c, RevealOne(ev, c, l, ids[0], peels[0]), ids[1..], peels[1..])
  }

  predicate AllPeels(peels: seq<seq<Call>>) {
    forall i, j :: 0 <= i < |peels| && 0 <= j < |peels[i]| ==> PeelCall(peels[i][j])
  }

  /** No reveal of these players has been begun. */
  predicate NoneBegun(calls: seq<Call>, ids: seq<string>) {
    forall i :: 0 <= i < |ids| ==> CallReveal(ids[i]) !in calls
  }

  predicate Different(ids: seq<string>) {
    forall i, j :: 0 <= i < j < |ids| ==> ids[i] != ids[j]
  }

  // -------------------------------------------------------------------------- one reveal

  lemma PaidKeepsNames(ev: Evaluator, t: Table, s: Table)
    requires SameNames(t, s)
    ensures SameNames(t, DistributePots(ev, s).t)
  {
    PayoutKeepsNames(ev, s);
  }

  lemma ShowKeepsNames(ev: Evaluator, t: Table, id: string, hole: (Card, Card))
    ensures SameNames(t, ApplyHoleReveal(ev, t, id, hole).t)
  {
    SeatIndexFromIs(t.seats, id, 0);
    var idx := SeatIndex(t.seats, id);
    PaidKeepsNames(ev, t, t);
    if 0 <= idx < |t.seats| {
      PaidKeepsNames(ev, t, t.(seats := t.seats[idx := t.seats[idx].(hole := hole)]));
    }
  }

  lemma ShowKnows(ev: Evaluator, t: Table, d: seq<Card>, who: nat)
    requires Knows(t, d) && who < |t.seats|
    ensures var r := ApplyHoleReveal(ev, t, t.seats[who].id, DealtPair(t, d, t.seats[who].id)).t;
            r.phase == Showdown ==> Knows(r, d)
  {
    SeatIndexOf(t.seats, who);
    var r := t.(seats := t.seats[who := t.seats[who].(hole := HoleFor(d, |t.seats|, t.dealer, who))]);
    assert Knows(r, d);
  }

  /** The session is idle between reveals. */
  predicate Between(c: DealConfig, s: DealState) {
    s.run.kind == Idle && s.flags.holesDone
  }

  /**
   * The reveal is not refused, and when it is done the session is idle again and has the
   * pair that the deck holds for the player.
   */
  lemma RevealOpensPair(c: DealConfig, k: Keys, deck: seq<nat>, calls: seq<Call>, who: nat, peels: seq<Call>,
      s: DealState, r: DealState)
    requires HonestSession(c, k, deck) && forall j :: 0 <= j < |peels| ==> PeelCall(peels[j])
    requires s == RunCalls(c, calls) && Between(c, s) && who < |c.order| && CallReveal(c.order[who]) !in calls
    requires r == RunCalls(c, calls + [CallReveal(c.order[who])] + peels) && r.flags.revealDone
    requires CallsOk(c, TRUTH(c, k, PlainOf(deck, c.p)), calls + [CallReveal(c.order[who])] + peels)
    ensures BeginReveal(c, s, c.order[who]).s.run.revealID == c.order[who] && Between(c, r)
    ensures RevealedHoles(c, r, c.order[who]) == Ok(HandAt(c, deck, who))
  {
    var id := c.order[who];
    SeatFound(c.order, who);
    NothingUnbegun(c, calls);
    RevealJustAsked(c, s, id);
    RevealStaysUnderWay(c, calls, s, id, peels, r);
    RevealedWhole(c, calls + [CallReveal(id)] + peels, r, id);
    RevealedIsDealt(c, k, deck, calls + [CallReveal(id)] + peels, r, who);
  }

  // ---------------------------------------------------------------------------- the loop

  lemma {:induction false} CallsPrefix(c: DealConfig, P: Policy, calls: seq<Call>, more: seq<Call>)
    requires ValidDeal(c) && CallsOk(c, P, calls + more)
    ensures CallsOk(c, P, calls)
    decreases |more|
  {
    if more == [] {
      assert calls + more == calls;
    } else {
      assert (calls + more)[..|calls + more| - 1] == calls + more[..|more| - 1];
      CallsPrefix(c, P, calls, more[..|more| - 1]);
    }
  }

  lemma {:induction false} RevealsExtend(ev: Evaluator, c: DealConfig, l: Local, ids: seq<string>,
      peels: seq<seq<Call>>)
    requires ValidDeal(c) && |peels| == |ids|
    ensures l.calls <= Reveals(ev, c, l, ids, peels).calls
    decreases |ids|
  {
    if ids != [] {
      RevealsExtend(ev, c, RevealOne(ev, c, l, ids[0], peels[0]), ids[1..], peels[1..]);
    }
  }

  /** Where the loop stands: idle, no reveal of the rest begun, and the machine on the table unless it has settled. */
  ghost predicate LoopFits(c: DealConfig, deck: seq<nat>, l: Local, ids: seq<string>) {
    && ValidDeal(c) && Between(c, RunCalls(c, l.calls)) && NoneBegun(l.calls, ids) && Different(ids)
    && (forall i :: 0 <= i < |ids| ==> ids[i] in c.order)
    && Seats(l.t, c) && (l.t.phase == Showdown ==> Knows(l.t, DeckOf(deck)))
  }

  lemma NoneBegunAfter(calls: seq<Call>, ids: seq<string>, peels: seq<Call>)
    requires ids != [] && NoneBegun(calls, ids) && Different(ids) && forall j :: 0 <= j < |peels| ==> PeelCall(peels[j])
    ensures NoneBegun(calls + [CallReveal(ids[0])] + peels, ids[1..]) && Different(ids[1..])
  {
    var all := calls + [CallReveal(ids[0])] + peels;
    assert forall i :: 0 <= i < |ids[1..]| ==> ids[1..][i] == ids[i + 1];
    forall i | 0 <= i < |ids[1..]| ensures CallReveal(ids[1..][i]) !in all {
      assert ids[i + 1] != ids[0] && CallReveal(ids[i + 1]) !in calls;
    }
  }

  /** The session begins the reveal and, when it is done, hands over its pair. */
  ghost predicate Goes(c: DealConfig, l: Local, id: string, next: Local)
    requires ValidDeal(c)
  {
    BeginReveal(c, RunCalls(c, l.calls), id).s.run.revealID == id && RevealedHoles(c, RunCalls(c, next.calls), id).Ok?
  }

  /** No turn of the loop fails. */
  ghost predicate AllGo(ev: Evaluator, c: DealConfig, l: Local, ids: seq<string>, peels: seq<seq<Call>>)
    requires ValidDeal(c) && |peels| == |ids|
    decreases |ids|
  {
    ids != [] ==>
      Goes(c, l, ids[0], RevealOne(ev, c, l, ids[0], peels[0]))
          && AllGo(ev, c, RevealOne(ev, c, l, ids[0], peels[0]), ids[1..], peels[1..])
  }

  lemma OneRevealFits(ev: Evaluator, c: DealConfig, k: Keys, deck: seq<nat>, l: Local, ids: seq<string>,
      peels: seq<Call>, next: Local)
    requires HonestSession(c, k, deck) && LoopFits(c, deck, l, ids) && ids != []
    requires forall j :: 0 <= j < |peels| ==> PeelCall(peels[j])
    requires next == RevealOne(ev, c, l, ids[0], peels) && RunCalls(c, next.calls).flags.revealDone
    requires CallsOk(c, TRUTH(c, k, PlainOf(deck, c.p)), next.calls)
    ensures Goes(c, l, ids[0], next) && LoopFits(c, deck, next, ids[1..])
    ensures next.t == if l.t.phase == Showdown
        then ApplyHoleReveal(ev, l.t, ids[0], DealtPair(l.t, DeckOf(deck), ids[0])).t else l.t
  {
    assert ids[0] in c.order;
    var who :| 0 <= who < |c.order| && c.order[who] == ids[0];
    assert CallReveal(ids[0]) !in l.calls;
    RevealOpensPair(c, k, deck, l.calls, who, peels, RunCalls(c, l.calls), RunCalls(c, next.calls));
    NoneBegunAfter(l.calls, ids, peels);
    if l.t.phase == Showdown {
      ShownFits(ev, c, deck, l.t, who, ids[0], ApplyHoleReveal(ev, l.t, ids[0], HandAt(c, deck, who)).t);
    }
  }

  lemma ShownFits(ev: Evaluator, c: DealConfig, deck: seq<nat>, t: Table, who: nat, id: string, r: Table)
    requires ValidDeal(c) && Seats(t, c) && Knows(t, DeckOf(deck)) && |deck| == |c.cards| && Roomy(c)
    requires who < |c.order| && c.order[who] == id && r == ApplyHoleReveal(ev, t, id, HandAt(c, deck, who)).t
    ensures Seats(r, c) && (r.phase == Showdown ==> Knows(r, DeckOf(deck)))
    ensures HandAt(c, deck, who) == DealtPair(t, DeckOf(deck), id)
  {
    HandIsPair(c, deck, t, who);
    ShowKnows(ev, t, DeckOf(deck), who);
    ShowKeepsNames(ev, t, id, DealtPair(t, DeckOf(deck), id));
  }

  /** The loop runs from l to f on true peels, each wait lasting until its reveal is done. */
  ghost predicate LoopRuns(ev: Evaluator, c: DealConfig, k: Keys, deck: seq<nat>, l: Local, ids: seq<string>,
      peels: seq<seq<Call>>, f: Local) {
    && HonestSession(c, k, deck) && |peels| == |ids| && AllPeels(peels)
    && f == Reveals(ev, c, l, ids, peels) && WaitsOut(ev, c, l, ids, peels)
    && CallsOk(c, TRUTH(c, k, PlainOf(deck, c.p)), f.calls)
  }

  lemma LoopSteps(ev: Evaluator, c: DealConfig, k: Keys, deck: seq<nat>, l: Local, ids: seq<string>,
      peels: seq<seq<Call>>, f: Local)
    returns (next: Local)
    requires LoopRuns(ev, c, k, deck, l, ids, peels, f) && ids != []
    ensures next == RevealOne(ev, c, l, ids[0], peels[0]) && RunCalls(c, next.calls).flags.revealDone
    ensures CallsOk(c, TRUTH(c, k, PlainOf(deck, c.p)), next.calls)
    ensures LoopRuns(ev, c, k, deck, next, ids[1..], peels[1..], f)
  {
    next := RevealOne(ev, c, l, ids[0], peels[0]);
    RevealsExtend(ev, c, next, ids[1..], peels[1..]);
    assert next.calls + f.calls[|next.calls|..] == f.calls;
    CallsPrefix(c, TRUTH(c, k, PlainOf(deck, c.p)), next.calls, f.calls[|next.calls|..]);
    assert AllPeels(peels[1..]);
  }

  lemma TableSteps(ev: Evaluator, t: Table, d: seq<Card>, ids: seq<string>, next: Table)
    requires ids != []
    requires next == if t.phase == Showdown then ApplyHoleReveal(ev, t, ids[0], DealtPair(t, d, ids[0])).t else t
    ensures RevealLoop(ev, t, d, ids) == RevealLoop(ev, next, d, ids[1..])
  {
  }

  /** The loop over session and machine does what RevealLoop does on the dealt deck. */
  lemma {:induction false} RevealsAreLoop(ev: Evaluator, c: DealConfig, k: Keys, deck: seq<nat>, l: Local,
      ids: seq<string>, peels: seq<seq<Call>>, f: Local)
    requires LoopFits(c, deck, l, ids) && LoopRuns(ev, c, k, deck, l, ids, peels, f)
    ensures AllGo(ev, c, l, ids, peels) && f.t == RevealLoop(ev, l.t, DeckOf(deck), ids)
    decreases |ids|
  {
    if ids != [] {
      var next := LoopSteps(ev, c, k, deck, l, ids, peels, f);
      OneRevealFits(ev, c, k, deck, l, ids, peels[0], next);
      TableSteps(ev, l.t, DeckOf(deck), ids, next.t);
      RevealsAreLoop(ev, c, k, deck, next, ids[1..], peels[1..], f);
    }
  }

  // ------------------------------------------------------------------------- whole hands

  lemma {:induction false} RemainingAreSeats(seats: seq<Seat>)
    requires DistinctIDs(seats)
    ensures Different(RemainingIDs(seats))
    ensures forall id :: id in RemainingIDs(seats) ==> exists i :: 0 <= i < |seats| && seats[i].id == id
  {
    if seats != [] {
      assert forall i :: 0 <= i < |seats[1..]| ==> seats[1..][i] == seats[i + 1];
      RemainingAreSeats(seats[1..]);
      var rest := RemainingIDs(seats[1..]);
      forall i | 0 <= i < |rest| ensures rest[i] != seats[0].id {
        assert rest[i] in rest;
      }
    }
  }

  lemma {:induction false} BeatsBeginNoReveal(ev: Evaluator, c: DealConfig, l: Local, beats: seq<Beat>)
    requires ValidDeal(c) && OnlyPeels(beats) && forall id :: CallReveal(id) !in l.calls
    ensures forall id :: CallReveal(id) !in TurnsAll(ev, c, l, beats).calls
    decreases |beats|
  {
    if beats != [] {
      BeatsBeginNoReveal(ev, c, l, beats[..|beats| - 1]);
    }
  }

  /** At a showdown with no reveal begun, the reveals settle the hand. */
  lemma ShowdownSettles(ev: Evaluator, c: DealConfig, k: Keys, deck: seq<nat>, r: Local, ids: seq<string>,
      peels: seq<seq<Call>>, f: Local)
    requires ids == RemainingIDs(r.t.seats) && LoopRuns(ev, c, k, deck, r, ids, peels, f)
    requires TableFits(ev, r.t, DeckOf(deck), c) && SessionFits(r, RunCalls(c, r.calls)) && !r.waiting
    requires r.t.phase == Showdown
    requires forall id :: CallReveal(id) !in r.calls
    ensures AllGo(ev, c, r, RemainingIDs(r.t.seats), peels)
    ensures Knows(r.t, DeckOf(deck)) && f.t == Replicas.Final(ev, r.t, DeckOf(deck)) && f.t.phase == Settled
  {
    RemainingAreSeats(r.t.seats);
    forall i | 0 <= i < |ids| ensures ids[i] in c.order {
      assert ids[i] in ids;
      var j :| 0 <= j < |r.t.seats| && r.t.seats[j].id == ids[i];
    }
    RevealsAreLoop(ev, c, k, deck, r, ids, peels, f);
    Replicas.LoopIsFinal(ev, r.t, DeckOf(deck));
  }

  lemma LoopSettlesHand(ev: Evaluator, c: DealConfig, k: Keys, deck: seq<nat>, start: Local, beats: seq<Beat>, r: Local,
    peels: seq<seq<Call>>, f: Local)
    requires LoopRuns(ev, c, k, deck, r, RemainingIDs(r.t.seats), peels, f) && OnlyPeels(beats)
    requires TableFits(ev, start.t, DeckOf(deck), c) && SessionFits(start, RunCalls(c, start.calls))
    requires forall id :: CallReveal(id) !in start.calls
    requires r == TurnsAll(ev, c, start, beats) && !r.waiting && r.t.phase == Showdown
    ensures AllGo(ev, c, r, RemainingIDs(r.t.seats), peels)
    ensures Knows(r.t, DeckOf(deck)) && f.t == Replicas.Final(ev, r.t, DeckOf(deck)) && f.t.phase == Settled
  {
    RevealsExtend(ev, c, r, RemainingIDs(r.t.seats), peels);
    assert r.calls + f.calls[|r.calls|..] == f.calls;
    CallsPrefix(c, TRUTH(c, k, PlainOf(deck, c.p)), r.calls, f.calls[|r.calls|..]);
    BeatsKeepFit(ev, c, k, deck, start, beats, r);
    BeatsBeginNoReveal(ev, c, start, beats);
    ShowdownSettles(ev, c, k, deck, r, RemainingIDs(r.t.seats), peels, f);
  }

  /**
   * A crypto hand settles. Whatever players did and in whatever order true peels arrived: at
   * the showdown no reveal is refused and each hands over its pair, and when the last one is
   * done the machine has paid out the pots on the hands that the deck dealt.
   */
  lemma HandSettles(ev: Evaluator, c: DealConfig, k: Keys, deck: seq<nat>, t: Table, calls: seq<Call>, beats: seq<Beat>,
                    r: Local, peels: seq<seq<Call>>, f: Local)
    requires HonestSession(c, k, deck) && OnlyPeels(beats) && Opening.Ready(t) && Knows(t, DeckOf(deck)) && Seats(t, c)
    requires RunCalls(c, calls).flags.holesDone && RunCalls(c, calls).flags.lastStreet == 0
    requires RunCalls(c, calls).run.kind == Idle
    requires forall id :: CallReveal(id) !in calls
    requires r == TurnsAll(ev, c, Local(StartHandCrypto(t).t, calls, false), beats) && !r.waiting
    requires r.t.phase == Showdown
    requires LoopRuns(ev, c, k, deck, r, RemainingIDs(r.t.seats), peels, f)
    ensures AllGo(ev, c, r, RemainingIDs(r.t.seats), peels)
    ensures Knows(r.t, DeckOf(deck)) && f.t == Replicas.Final(ev, r.t, DeckOf(deck)) && f.t.phase == Settled
  {
    StartFits(ev, c, t, DeckOf(deck), calls);
    LoopSettlesHand(ev, c, k, deck, Local(StartHandCrypto(t).t, calls, false), beats, r, peels, f);
  }
}
