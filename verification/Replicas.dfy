// Two replicas of one hand (internal/game/machine.go:347-384, 508-640): each knows only some
// of the hands, both see the same actions and streets, and both pay out alike.
module Replicas {
  import opened Cards
  import opened GameState
  import opened JointDeck
  import opened Public
  import opened Rules
  import opened Wrappers

  /** What a table comes to once the reveals are in. */
  function Final(ev: Evaluator, t: Table, d: seq<Card>): Table
    requires Knows(t, d)
  {
    if t.phase == Showdown then DistributePots(ev, Shown(t, d)).t else t
  }

  predicate Over(t: Table) {
    t.phase == Showdown || t.phase == Settled
  }

  /** A replica in crypto mode that waits at a showdown only for hands it does not know. */
  predicate Replica(t: Table, d: seq<Card>) {
    CryptoMode(t) && Knows(t, d) && (t.phase == Showdown ==> HolesIncomplete(t))
  }

  /** Until the hand is over the replicas agree in public, and they will agree on its result. */
  predicate Agree(ev: Evaluator, a: Table, b: Table, d: seq<Card>) {
    && Replica(a, d) && Replica(b, d)
    && SamePublic(Final(ev, a, d), Final(ev, b, d))
    && (SamePublic(a, b) || (Over(a) && Over(b)))
  }

  // ------------------------------------------------------------------------ the result

  lemma ShownAlike(a: Table, b: Table, d: seq<Card>)
    requires Knows(a, d) && Knows(b, d) && SamePublic(a, b)
    ensures SamePublic(Shown(a, d), Shown(b, d)) && SameShown(Shown(a, d).seats, Shown(b, d).seats)
  {
  }

  lemma CompleteIsFinal(ev: Evaluator, t: Table, d: seq<Card>)
    requires Knows(t, d) && !HolesIncomplete(t)
    ensures Shown(t, d) == t
  {
    assert ShownTo(t, d, 0).seats == t.seats;
    CompleteIsShown(t, d, 0);
  }

  /** Paying out keeps what a replica knows. */
  lemma {:induction false} PayingKeeps(a: seq<Seat>, ev: Evaluator, dealer: nat, board: seq<Card>, b: Bank,
      pots: seq<Pot>)
    requires SamePlaces(a, b.seats)
    ensures SamePlaces(a, PayPots(ev, dealer, board, b, pots).seats)
    decreases |pots|
  {
    if pots != [] {
      PotKeeps(a, ev, dealer, board, b, pots[0]);
      PayingKeeps(a, ev, dealer, board, PayPot(ev, dealer, board, b, pots[0]), pots[1..]);
    }
  }

  /** Identifiers, statuses and hands as before. */
  predicate SamePlaces(a: seq<Seat>, b: seq<Seat>) {
    |a| == |b| && forall i :: 0 <= i < |a| ==>
        b[i].id == a[i].id && b[i].hole == a[i].hole && b[i].status == a[i].status
  }

  lemma PotKeeps(a: seq<Seat>, ev: Evaluator, dealer: nat, board: seq<Card>, b: Bank, pot: Pot)
    requires SamePlaces(a, b.seats)
    ensures SamePlaces(a, PayPot(ev, dealer, board, b, pot).seats)
  {
    var winners := PotWinners(ev, b.seats, board, pot.eligible);
    if winners != [] {
      SharesKeep(a, b, winners, pot.amount / |winners|);
    }
  }

  lemma {:induction false} SharesKeep(a: seq<Seat>, b: Bank, winners: seq<nat>, share: int)
    requires SamePlaces(a, b.seats) && forall k :: 0 <= k < |winners| ==> winners[k] < |b.seats|
    ensures SamePlaces(a, PayEach(b, winners, share).seats)
    decreases |winners|
  {
    if winners != [] {
      SharesKeep(a, PayOne(b, winners[0], share), winners[1..], share);
    }
  }

  lemma PlacesKnow(t: Table, r: Table, d: seq<Card>)
    requires Knows(t, d) && SamePlaces(t.seats, r.seats) && r.dealer == t.dealer && r.board == t.board
    ensures Knows(r, d)
  {
  }

  lemma DistributedKnows(ev: Evaluator, t: Table, d: seq<Card>)
    requires Knows(t, d)
    ensures Knows(DistributePots(ev, t).t, d)
  {
    PayingKeeps(t.seats, ev, t.dealer, t.board, Bank(t.seats, t.payouts), t.pots);
    PlacesKnow(t, DistributePots(ev, t).t, d);
  }

  lemma ShowdownFinal(ev: Evaluator, t: Table, d: seq<Card>)
    requires Knows(t, d) && CryptoMode(t)
    ensures var w, r := WithPots(t.(phase := Showdown)), StartShowdown(ev, t);
            && r.err.None? && Knows(w, d) && Replica(r.t, d) && Over(r.t)
            && DistributePots(ev, Shown(w, d)).err.None? && Final(ev, r.t, d) == DistributePots(ev, Shown(w, d)).t
  {
    var w := WithPots(t.(phase := Showdown));
    CompleteIsShown(w, d, |w.seats|);
    if !HolesIncomplete(w) {
      CompleteIsFinal(ev, w, d);
      DistributedKnows(ev, w, d);
    }
  }

  /** Both go to showdown: whatever each of them knows, the result is the same. */
  lemma ShowdownAlike(ev: Evaluator, a: Table, b: Table, d: seq<Card>)
    requires Knows(a, d) && Knows(b, d) && CryptoMode(a) && CryptoMode(b) && SamePublic(a, b)
    ensures StartShowdown(ev, a).err == StartShowdown(ev, b).err == None
    ensures Agree(ev, StartShowdown(ev, a).t, StartShowdown(ev, b).t, d)
  {
    ShowdownFinal(ev, a, d);
    ShowdownFinal(ev, b, d);
    var wa, wb := WithPots(a.(phase := Showdown)), WithPots(b.(phase := Showdown));
    SamePots(a.(phase := Showdown), b.(phase := Showdown));
    ShownAlike(wa, wb, d);
    SameDistribution(ev, Shown(wa, d), Shown(wb, d));
  }

  // -------------------------------------------------------------------- rounds, streets

  /** Where the end of a round leads in crypto mode. */
  lemma EndsTo(ev: Evaluator, t: Table, p: Table)
    requires CryptoMode(t) && BettingPhase(t.phase) && p == WithPots(t)
    ensures EndBettingRound(ev, t) == if t.phase == River then StartShowdown(ev, p)
                                      else Outcome(p.(phase := AwaitingStreet), None)
  {
  }

  lemma EndAlike(ev: Evaluator, a: Table, b: Table, d: seq<Card>)
    requires Knows(a, d) && Knows(b, d) && CryptoMode(a) && CryptoMode(b) && SamePublic(a, b) && BettingPhase(a.phase)
    ensures EndBettingRound(ev, a).err == EndBettingRound(ev, b).err
    ensures Agree(ev, EndBettingRound(ev, a).t, EndBettingRound(ev, b).t, d)
  {
    SamePots(a, b);
    var pa, pb := WithPots(a), WithPots(b);
    EndsTo(ev, a, pa);
    EndsTo(ev, b, pb);
    if a.phase == River {
      ShowdownAlike(ev, pa, pb, d);
    } else {
      WaitAlike(ev, pa.(phase := AwaitingStreet), pb.(phase := AwaitingStreet), d);
    }
  }

  /** Before the showdown, agreeing in public is enough. */
  lemma WaitAlike(ev: Evaluator, a: Table, b: Table, d: seq<Card>)
    requires Knows(a, d) && Knows(b, d) && CryptoMode(a) && CryptoMode(b) && SamePublic(a, b) && a.phase != Showdown
    ensures Agree(ev, a, b, d)
  {
  }

  /** Identifiers and hands as before, and nobody has started to sit out. */
  predicate SameHands(a: seq<Seat>, b: seq<Seat>) {
    |a| == |b| && forall i :: 0 <= i < |a| ==>
      b[i].id == a[i].id && b[i].hole == a[i].hole && (b[i].status == SittingOut ==> a[i].status == SittingOut)
  }

  lemma HandsKnow(t: Table, r: Table, d: seq<Card>)
    requires Knows(t, d) && SameHands(t.seats, r.seats) && r.dealer == t.dealer && r.board == t.board
    ensures Knows(r, d)
  {
  }

  lemma PerformHands(t: Table, x: Action)
    requires 0 <= t.actionIdx < |t.seats|
    ensures var r := Perform(t, x).t;
            && SameHands(t.seats, r.seats) && r.dealer == t.dealer && r.board == t.board && r.deck == t.deck
            && r.phase == t.phase && r.actionIdx == t.actionIdx
  {
  }

  lemma PerformKnows(t: Table, x: Action, d: seq<Card>)
    requires Knows(t, d) && 0 <= t.actionIdx < |t.seats|
    ensures Knows(Recorded(Perform(t, x).t, x), d) && CryptoMode(Perform(t, x).t) == CryptoMode(t)
    ensures Perform(t, x).t.phase == t.phase && Perform(t, x).t.actionIdx == t.actionIdx
  {
    PerformHands(t, x);
    HandsKnow(t, Recorded(Perform(t, x).t, x), d);
  }

  lemma FreshAlike(a: Table, b: Table, d: seq<Card>) returns (fa: Table, fb: Table)
    requires Knows(a, d) && Knows(b, d) && CryptoMode(a) && CryptoMode(b) && SamePublic(a, b)
    ensures fa == FreshRound(a) && fb == FreshRound(b) && fa.phase == a.phase && fa.seats != []
    ensures SamePublic(fa, fb) && Knows(fa, d) && Knows(fb, d) && CryptoMode(fa) && CryptoMode(fb)
    ensures NextActive(fa.seats, fa.dealer) == NextActive(fb.seats, fb.dealer)
    ensures CountCanAct(fa.seats) == CountCanAct(fb.seats)
  {
    fa, fb := FreshRound(a), FreshRound(b);
    SameFreshRound(a, b);
    HandsKnow(a, fa, d);
    HandsKnow(b, fb, d);
  }

  /** Where the opening of a round leads in crypto mode. */
  lemma OpensTo(ev: Evaluator, t: Table, f: Table, first: int)
    requires CryptoMode(t) && f == FreshRound(t) && f.seats != [] && first == NextActive(f.seats, f.dealer)
    ensures StartNewBettingRound(ev, t) == if first == -1 then EndBettingRound(ev, f)
                                           else if CountCanAct(f.seats) <= 1
                                             then EndBettingRound(ev, f.(actionIdx := first))
                                           else Outcome(f.(actionIdx := first), None)
  {
  }

  lemma OpenAlike(ev: Evaluator, a: Table, b: Table, d: seq<Card>)
    requires Knows(a, d) && Knows(b, d) && CryptoMode(a) && CryptoMode(b) && SamePublic(a, b) && BettingPhase(a.phase)
    ensures StartNewBettingRound(ev, a).err == StartNewBettingRound(ev, b).err
    ensures Agree(ev, StartNewBettingRound(ev, a).t, StartNewBettingRound(ev, b).t, d)
  {
    var fa, fb := FreshAlike(a, b, d);
    var first := NextActive(fa.seats, fa.dealer);
    OpensTo(ev, a, fa, first);
    OpensTo(ev, b, fb, first);
    var oa, ob := StartNewBettingRound(ev, a), StartNewBettingRound(ev, b);
    FreshOpens(ev, fa, fb, first, d, oa, ob);
  }

  lemma FreshOpens(ev: Evaluator, fa: Table, fb: Table, first: int, d: seq<Card>, oa: Outcome, ob: Outcome)
    requires Knows(fa, d) && Knows(fb, d) && CryptoMode(fa) && CryptoMode(fb) && SamePublic(fa, fb)
    requires BettingPhase(fa.phase)
    requires var one := first != -1 && CountCanAct(fa.seats) <= 1;
             var ga, gb := fa.(actionIdx := first), fb.(actionIdx := first);
             if first == -1 then oa == EndBettingRound(ev, fa) && ob == EndBettingRound(ev, fb)
             else if one then oa == EndBettingRound(ev, ga) && ob == EndBettingRound(ev, gb)
             else oa == Outcome(ga, None) && ob == Outcome(gb, None)
    ensures oa.err == ob.err && Agree(ev, oa.t, ob.t, d)
  {
    if first == -1 {
      EndAlike(ev, fa, fb, d);
    } else if CountCanAct(fa.seats) <= 1 {
      EndAlike(ev, fa.(actionIdx := first), fb.(actionIdx := first), d);
    } else {
      WaitAlike(ev, fa.(actionIdx := first), fb.(actionIdx := first), d);
    }
  }

  lemma SingleKnows(t: Table, d: seq<Card>)
    requires Knows(t, d)
    ensures Knows(ResolveSingleWinner(t).t, d)
  {
    PlacesKnow(t, ResolveSingleWinner(t).t, d);
  }

  lemma AfterAlike(ev: Evaluator, a: Table, b: Table, d: seq<Card>)
    requires Knows(a, d) && Knows(b, d) && CryptoMode(a) && CryptoMode(b) && SamePublic(a, b) && BettingPhase(a.phase)
    requires 0 <= a.actionIdx < |a.seats|
    ensures AfterAction(ev, a).err == AfterAction(ev, b).err
    ensures Agree(ev, AfterAction(ev, a).t, AfterAction(ev, b).t, d)
  {
    SameEndsRound(a, b);
    if OnlyOneRemaining(a) {
      SameSingleWinner(a, b);
      SingleKnows(a, d);
      SingleKnows(b, d);
    } else if EndsRound(a) {
      EndAlike(ev, a, b, d);
    } else {
      var next := NextActive(a.seats, a.actionIdx);
      WaitAlike(ev, a.(actionIdx := next), b.(actionIdx := next), d);
    }
  }

  lemma ActAlike(ev: Evaluator, a: Table, b: Table, x: Action, d: seq<Card>)
    requires Replica(a, d) && Replica(b, d) && SamePublic(a, b) && BettingPhase(a.phase) && 0 <= a.actionIdx < |a.seats|
    ensures Act(ev, a, x).err == Act(ev, b, x).err
    ensures if Perform(a, x).err.Some? then Act(ev, a, x).t == a && Act(ev, b, x).t == b
            else Agree(ev, Act(ev, a, x).t, Act(ev, b, x).t, d)
  {
    SamePerform(a, b, x);
    PerformKnows(a, x, d);
    PerformKnows(b, x, d);
    var pa, pb := Perform(a, x), Perform(b, x);
    if pa.err.None? {
      RecordedAlike(pa.t, pb.t, x);
      AfterAlike(ev, Recorded(pa.t, x), Recorded(pb.t, x), d);
    } else {
      RefusedStays(a, x);
      RefusedStays(b, x);
    }
  }

  lemma RefusedStays(t: Table, x: Action)
    requires 0 <= t.actionIdx < |t.seats| && Perform(t, x).err.Some?
    ensures Perform(t, x).t == t
  {
  }

  lemma RecordedAlike(a: Table, b: Table, x: Action)
    requires SamePublic(a, b)
    ensures SamePublic(Recorded(a, x), Recorded(b, x))
  {
  }

  /** The same action is accepted or refused alike and leads to the same public state. */
  lemma PlayAlike(ev: Evaluator, a: Table, b: Table, x: Action, d: seq<Card>)
    requires Agree(ev, a, b, d)
    ensures ApplyAction(ev, a, x).err == ApplyAction(ev, b, x).err
    ensures Agree(ev, ApplyAction(ev, a, x).t, ApplyAction(ev, b, x).t, d)
  {
    if SamePublic(a, b) && BettingPhase(a.phase) && 0 <= a.actionIdx < |a.seats|
        && a.seats[a.actionIdx].id == x.player {
      assert b.seats[b.actionIdx].id == x.player;
      ActAlike(ev, a, b, x, d);
    } else {
      OutOfTurnAlike(ev, a, b, x);
    }
  }

  lemma OutOfTurnAlike(ev: Evaluator, a: Table, b: Table, x: Action)
    requires SamePublic(a, b) || (Over(a) && Over(b))
    requires !(SamePublic(a, b) && BettingPhase(a.phase) && 0 <= a.actionIdx < |a.seats|
                 && a.seats[a.actionIdx].id == x.player)
    ensures ApplyAction(ev, a, x).err == ApplyAction(ev, b, x).err
    ensures ApplyAction(ev, a, x).t == a && ApplyAction(ev, b, x).t == b
  {
  }

  /** The street that the deck holds next, put to a replica. */
  function Street(ev: Evaluator, t: Table, d: seq<Card>): Outcome
    requires Knows(t, d)
  {
    var k := |t.board|;
    ApplyStreet(ev, t, if k == 0 || k == 3 || k == 4 then NextCards(d, |t.seats|, k) else [])
  }

  lemma StreetAlike(ev: Evaluator, a: Table, b: Table, d: seq<Card>)
    requires Agree(ev, a, b, d)
    ensures Street(ev, a, d).err == Street(ev, b, d).err
    ensures Agree(ev, Street(ev, a, d).t, Street(ev, b, d).t, d)
  {
    var k := |a.board|;
    if SamePublic(a, b) && a.phase == AwaitingStreet && (k == 0 || k == 3 || k == 4) {
      StreetAccepted(a, d);
      StreetAccepted(b, d);
      var board := a.board + NextCards(d, |a.seats|, k);
      var phase := if |board| == 3 then Flop else if |board| == 4 then Turn else River;
      OpenAlike(ev, a.(board := board, phase := phase), b.(board := board, phase := phase), d);
    }
  }

  // ---------------------------------------------------------------------- whole hands

  // What both replicas see: an action, or that the next street has been peeled.
  datatype Event = Played(action: Action) | StreetOut

  function Observe(ev: Evaluator, t: Table, d: seq<Card>, e: Event): Outcome
    requires Knows(t, d)
  {
    match e
    case Played(x) => ApplyAction(ev, t, x)
    case StreetOut => Street(ev, t, d)
  }

  function ObserveAll(ev: Evaluator, t: Table, d: seq<Card>, es: seq<Event>): Table
    decreases |es|
  {
    if es == [] || !Knows(t, d) then t else ObserveAll(ev, Observe(ev, t, d, es[0]).t, d, es[1..])
  }

  lemma {:induction false} RunsAgree(ev: Evaluator, a: Table, b: Table, d: seq<Card>, es: seq<Event>)
    requires Agree(ev, a, b, d)
    ensures Agree(ev, ObserveAll(ev, a, d, es), ObserveAll(ev, b, d, es), d)
    decreases |es|
  {
    if es != [] {
      match es[0] {
        case Played(x) => PlayAlike(ev, a, b, x, d);
        case StreetOut => StreetAlike(ev, a, b, d);
      }
      RunsAgree(ev, Observe(ev, a, d, es[0]).t, Observe(ev, b, d, es[0]).t, d, es[1..]);
    }
  }

  lemma LoopIsFinal(ev: Evaluator, t: Table, d: seq<Card>)
    requires Replica(t, d) && Over(t)
    ensures RevealLoop(ev, t, d, RemainingIDs(t.seats)) == Final(ev, t, d) && Final(ev, t, d).phase == Settled
  {
    if t.phase == Showdown {
      RevealsSettle(ev, t, d);
    } else {
      LoopSkips(ev, t, d, RemainingIDs(t.seats));
    }
  }

  lemma SamePost(a: Table, b: Table, sb: nat, bb: nat)
    requires SamePublic(a, b) && sb < |a.seats| && bb < |a.seats|
    ensures SamePublic(PostBlindsAt(a, sb, bb), PostBlindsAt(b, sb, bb))
    ensures forall i :: 0 <= i < |a.seats| ==>
              var s := PostBlindsAt(a, sb, bb).seats[i];
              s.id == a.seats[i].id && s.hole == a.seats[i].hole && (s.status == a.seats[i].status || s.status == AllIn)
  {
  }

  lemma SameStart(a: Table, b: Table, d: seq<Card>)
    requires SamePublic(a, b) && Knows(a, d)
    ensures StartHandCrypto(a).err == StartHandCrypto(b).err
    ensures SamePublic(StartHandCrypto(a).t, StartHandCrypto(b).t) && Knows(StartHandCrypto(a).t, d)
    ensures StartHandCrypto(a).err.None? ==> StartHandCrypto(a).t.deck == None && StartHandCrypto(a).t.phase == PreFlop
  {
    if StartHandCrypto(a).err.None? {
      var sb, bb := SmallBlindIndex(a), BigBlindIndex(a);
      var ca, cb := a.(deck := None), b.(deck := None);
      assert SmallBlindIndex(b) == sb && BigBlindIndex(b) == bb;
      BlindsInRange(a);
      SamePost(ca, cb, sb, bb);
      SameNext(PostBlindsAt(ca, sb, bb).seats, PostBlindsAt(cb, sb, bb).seats, bb);
      assert Knows(PostBlindsAt(ca, sb, bb), d);
    }
  }

  lemma BlindsInRange(t: Table)
    requires |t.seats| >= 2 && t.dealer < |t.seats|
    ensures SmallBlindIndex(t) < |t.seats| && BigBlindIndex(t) < |t.seats|
  {
  }

  /**
   * Two replicas that know different hands of one deck and observe the same events are in
   * the same public state until the hand is over, and after the reveals in table order both
   * have settled with the same stacks and payouts.
   */
  lemma ReplicasSettleAlike(ev: Evaluator, a: Table, b: Table, d: seq<Card>, es: seq<Event>)
    requires SamePublic(a, b) && Knows(a, d) && Knows(b, d) && StartHandCrypto(a).err.None?
    ensures var ra, rb := ObserveAll(ev, StartHandCrypto(a).t, d, es), ObserveAll(ev, StartHandCrypto(b).t, d, es);
            && (SamePublic(ra, rb) || (Over(ra) && Over(rb)))
            && (Over(ra) ==>
                  var fa, fb := RevealLoop(ev, ra, d, RemainingIDs(ra.seats)),
                      RevealLoop(ev, rb, d, RemainingIDs(rb.seats));
                  fa.phase == fb.phase == Settled && SamePublic(fa, fb))
  {
    SameStart(a, b, d);
    SameStart(b, a, d);
    var sa, sb := StartHandCrypto(a).t, StartHandCrypto(b).t;
    assert Agree(ev, sa, sb, d);
    RunsAgree(ev, sa, sb, d, es);
    var ra, rb := ObserveAll(ev, sa, d, es), ObserveAll(ev, sb, d, es);
    if Over(ra) {
      LoopIsFinal(ev, ra, d);
      LoopIsFinal(ev, rb, d);
    }
  }
}
