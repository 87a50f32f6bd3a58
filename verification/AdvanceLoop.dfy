// AdvanceCrypto over a whole hand (internal/network/crypto_hand.go:440-547): players act, peels
// arrive, and the loop begins the streets that the machine waits for and hands over their cards.
module AdvanceLoop {
  import opened Cards
  import opened DealSafety
  import opened DealSession
  import opened GameState
  import Hand
  import opened JointDeck
  import opened Lockstep
  import Opening
  import Replicas
  import opened Rules
  import opened Wrappers

  // One thing that happens: an action, a call to the session with a peel, a turn of the loop.
  datatype Beat = Acted(action: Action) | Peeled(call: Call) | LoopTurns

  // A table, the calls made to its session so far, and whether the loop waits for a street's cards.
  datatype Local = Local(t: Table, calls: seq<Call>, waiting: bool)

  function Turns(ev: Evaluator, c: DealConfig, l: Local, b: Beat): Local
    requires ValidDeal(c)
  {
    match b
    case Acted(a) => l.(t := ApplyAction(ev, l.t, a).t)
    case Peeled(call) => l.(calls := l.calls + [call])
    case LoopTurns => if l.waiting then TakeStreet(ev, c, l) else AskStreet(l)
  }

  function AskStreet(l: Local): Local {
    var street := StreetFromPending(l.t);
    if street.Err? then l else Local(l.t, l.calls + [CallStreet(street.value)], true)
  }

  function TakeStreet(ev: Evaluator, c: DealConfig, l: Local): Local
    requires ValidDeal(c)
  {
    var s := RunCalls(c, l.calls);
    var cards := NewCommunityCards(c, s, |l.t.board|);
    if !s.flags.streetDone || cards.Err? then l else Local(ApplyStreet(ev, l.t, cards.value).t, l.calls, false)
  }

  function TurnsAll(ev: Evaluator, c: DealConfig, l: Local, beats: seq<Beat>): Local
    requires ValidDeal(c)
    decreases |beats|
  {
    if beats == [] then l else Turns(ev, c, TurnsAll(ev, c, l, beats[..|beats| - 1]), beats[|beats| - 1])
  }

  /** Only peels reach the session besides the streets that the loop asks for. */
  predicate OnlyPeels(beats: seq<Beat>) {
    forall i :: 0 <= i < |beats| && beats[i].Peeled? ==> PeelCall(beats[i].call)
  }

  // ------------------------------------------------------------------------- invariant

  /** The street asked for is under way, or done and its cards not yet taken. */
  predicate StreetPending(t: Table, s: DealState) {
    && t.phase == AwaitingStreet && s.flags.lastStreet <= 3
    && if s.run.kind == StreetPeels then
         && s.run.street == s.flags.lastStreet + 1 <= 3 && !s.flags.streetDone
         && |t.board| == BoardCount(s.flags.lastStreet)
       else
         && s.run.kind == Idle && s.flags.streetDone && s.flags.lastStreet >= 1
         && |t.board| == BoardCount(s.flags.lastStreet - 1)
  }

  predicate SessionFits(l: Local, s: DealState) {
    && s.flags.holesDone
    && if l.waiting then StreetPending(l.t, s) else s.run.kind == Idle && InStep(l.t, s)
  }

  /** The table seats the players of the deal in its order. */
  predicate Seats(t: Table, c: DealConfig) {
    |t.seats| == |c.order| && t.dealer == c.dealer && forall i :: 0 <= i < |t.seats| ==> t.seats[i].id == c.order[i]
  }

  ghost predicate TableFits(ev: Evaluator, t: Table, d: seq<Card>, c: DealConfig) {
    Hand.TurnsInOrder(t) && Replicas.Agree(ev, t, t, d) && Seats(t, c)
  }

  // --------------------------------------------------------------------------- one beat

  predicate SameNames(a: Table, b: Table) {
    |a.seats| == |b.seats| && b.dealer == a.dealer && forall i :: 0 <= i < |a.seats| ==> b.seats[i].id == a.seats[i].id
  }

  lemma PayoutKeepsNames(ev: Evaluator, t: Table)
    ensures SameNames(t, DistributePots(ev, t).t)
  {
    Replicas.PayingKeeps(t.seats, ev, t.dealer, t.board, Bank(t.seats, t.payouts), t.pots);
  }

  lemma CryptoEndKeepsNames(ev: Evaluator, t: Table)
    requires CryptoMode(t)
    ensures SameNames(t, EndBettingRound(ev, t).t)
  {
    PayoutKeepsNames(ev, WithPots(WithPots(t).(phase := Showdown)));
  }

  lemma CryptoRoundKeepsNames(ev: Evaluator, t: Table)
    requires CryptoMode(t)
    ensures SameNames(t, StartNewBettingRound(ev, t).t)
  {
    var f := FreshRound(t);
    CryptoEndKeepsNames(ev, f);
    if f.seats != [] {
      CryptoEndKeepsNames(ev, f.(actionIdx := NextActive(f.seats, f.dealer)));
    }
  }

  lemma AfterActionKeepsNames(ev: Evaluator, t: Table)
    requires CryptoMode(t) && 0 <= t.actionIdx < |t.seats|
    ensures SameNames(t, AfterAction(ev, t).t)
  {
    CryptoEndKeepsNames(ev, t);
  }

  lemma ActionKeepsNames(ev: Evaluator, t: Table, a: Action)
    requires CryptoMode(t)
    ensures SameNames(t, ApplyAction(ev, t, a).t)
  {
    if 0 <= t.actionIdx < |t.seats| {
      Replicas.PerformHands(t, a);
      AfterActionKeepsNames(ev, Recorded(Perform(t, a).t, a));
    }
  }

  lemma ActionFits(ev: Evaluator, t: Table, a: Action, d: seq<Card>, c: DealConfig, r: Table)
    requires TableFits(ev, t, d, c) && r == ApplyAction(ev, t, a).t
    ensures TableFits(ev, r, d, c) && CryptoMode(r) && r.board == t.board && Hand.CardsFit(r)
    ensures t.phase == AwaitingStreet ==> r == t
  {
    if r != t {
      Hand.PlayKeepsTurns(ev, t, a);
    }
    Replicas.PlayAlike(ev, t, t, a, d);
    ActionKeepsNames(ev, t, a);
    ActionKeepsBoard(ev, t, a);
  }

  lemma StreetFits(ev: Evaluator, t: Table, cards: seq<Card>, d: seq<Card>, c: DealConfig, r: Outcome)
    requires TableFits(ev, t, d, c) && t.phase == AwaitingStreet
    requires r == ApplyStreet(ev, t, cards) == Replicas.Street(ev, t, d)
    requires |cards| == PendingStreetCount(|t.board|) && StreetRefusal(cards, KnownCards(t)) == None
    ensures TableFits(ev, r.t, d, c) && CryptoMode(r.t) && Hand.CardsFit(r.t) && |r.t.board| == |t.board| + |cards|
  {
    Hand.StreetKeepsTurns(ev, t, cards);
    Replicas.StreetAlike(ev, t, t, d);
    var board := t.board + cards;
    var s := t.(board := board, phase := if |board| == 3 then Flop else if |board| == 4 then Turn else River);
    CryptoRoundKeepsNames(ev, s);
    CryptoRoundKeepsBoard(ev, s);
  }

  lemma PeelKeepsFit(c: DealConfig, l: Local, call: Call, s: DealState)
    requires ValidDeal(c) && PeelCall(call) && SessionFits(l, s)
    ensures SessionFits(l, DoCall(c, s, call))
  {
    PeelCallMoves(c, s, call);
  }

  lemma AskKeepsFit(c: DealConfig, l: Local, s: DealState)
    requires ValidDeal(c) && Roomy(c) && SessionFits(l, s) && !l.waiting && l.t.phase == AwaitingStreet
    ensures StreetFromPending(l.t) == Ok(s.flags.lastStreet + 1)
    ensures StreetPending(l.t, DoCall(c, s, CallStreet(s.flags.lastStreet + 1)))
    ensures DoCall(c, s, CallStreet(s.flags.lastStreet + 1)).flags.holesDone
  {
    AwaitedStreet(l.t, s);
    StreetMoves(c, s, s.flags.lastStreet + 1);
  }

  // ---------------------------------------------------------------------- every beat

  lemma RunCallsSnoc(c: DealConfig, P: Policy, calls: seq<Call>, call: Call)
    requires ValidDeal(c)
    ensures RunCalls(c, calls + [call]) == DoCall(c, RunCalls(c, calls), call)
    ensures CallsOk(c, P, calls + [call]) ==> CallsOk(c, P, calls)
  {
    assert (calls + [call])[..|calls|] == calls;
  }

  /** A street that the session is done with is the next one of the deck. */
  lemma StreetIsReady(ev: Evaluator, c: DealConfig, k: Keys, ids: seq<nat>, l: Local, s: DealState)
    returns (cards: seq<Card>)
    requires HonestSession(c, k, ids) && CallsOk(c, TRUTH(c, k, PlainOf(ids, c.p)), l.calls)
    requires TableFits(ev, l.t, DeckOf(ids), c) && s == RunCalls(c, l.calls) && SessionFits(l, s) && l.waiting
    requires s.flags.streetDone
    ensures NewCommunityCards(c, s, |l.t.board|) == Ok(cards)
    ensures ApplyStreet(ev, l.t, cards) == Replicas.Street(ev, l.t, DeckOf(ids))
    ensures |cards| == PendingStreetCount(|l.t.board|) && StreetRefusal(cards, KnownCards(l.t)) == None
    ensures cards == NextCards(DeckOf(ids), |l.t.seats|, |l.t.board|)
  {
    BoardFollowsStreets(c, l.calls);
    NewCardsAreNextStreet(ev, c, k, ids, l.calls, l.t, s);
    StreetAccepted(l.t, DeckOf(ids));
    cards := NewCommunityCards(c, s, |l.t.board|).value;
  }

  lemma TakeKeepsFit(ev: Evaluator, c: DealConfig, k: Keys, ids: seq<nat>, l: Local, r: Local)
    requires HonestSession(c, k, ids) && CallsOk(c, TRUTH(c, k, PlainOf(ids, c.p)), l.calls)
    requires TableFits(ev, l.t, DeckOf(ids), c) && SessionFits(l, RunCalls(c, l.calls)) && l.waiting
    requires r == TakeStreet(ev, c, l)
    ensures TableFits(ev, r.t, DeckOf(ids), c) && SessionFits(r, RunCalls(c, r.calls))
    ensures r.calls == l.calls && r.waiting == !RunCalls(c, l.calls).flags.streetDone
  {
    var s := RunCalls(c, l.calls);
    if s.flags.streetDone {
      var cards := StreetIsReady(ev, c, k, ids, l, s);
      StreetFits(ev, l.t, cards, DeckOf(ids), c, ApplyStreet(ev, l.t, cards));
    }
  }

  /**
   * Whatever players do and in whatever order true peels arrive: the loop always asks for the
   * street the session is ready to begin, and always gets the cards the machine waits for.
   */
  lemma {:induction false} BeatsKeepFit(ev: Evaluator, c: DealConfig, k: Keys, ids: seq<nat>, l: Local,
      beats: seq<Beat>, r: Local)
    requires HonestSession(c, k, ids) && OnlyPeels(beats)
    requires TableFits(ev, l.t, DeckOf(ids), c) && SessionFits(l, RunCalls(c, l.calls))
    requires r == TurnsAll(ev, c, l, beats) && CallsOk(c, TRUTH(c, k, PlainOf(ids, c.p)), r.calls)
    ensures TableFits(ev, r.t, DeckOf(ids), c) && SessionFits(r, RunCalls(c, r.calls))
    decreases |beats|
  {
    if beats != [] {
      var q := TurnsAll(ev, c, l, beats[..|beats| - 1]);
      OneBeatPrefix(ev, c, k, ids, q, beats[|beats| - 1], r);
      BeatsKeepFit(ev, c, k, ids, l, beats[..|beats| - 1], q);
      BeatKeepsFit(ev, c, k, ids, q, beats[|beats| - 1], r);
    }
  }

  lemma OneBeatPrefix(ev: Evaluator, c: DealConfig, k: Keys, ids: seq<nat>, l: Local, b: Beat, r: Local)
    requires ValidDeal(c) && r == Turns(ev, c, l, b) && CallsOk(c, TRUTH(c, k, PlainOf(ids, c.p)), r.calls)
    ensures CallsOk(c, TRUTH(c, k, PlainOf(ids, c.p)), l.calls)
  {
    if r.calls != l.calls {
      RunCallsSnoc(c, TRUTH(c, k, PlainOf(ids, c.p)), l.calls, r.calls[|l.calls|]);
    }
  }

  lemma BeatKeepsFit(ev: Evaluator, c: DealConfig, k: Keys, ids: seq<nat>, l: Local, b: Beat, r: Local)
    requires HonestSession(c, k, ids) && CallsOk(c, TRUTH(c, k, PlainOf(ids, c.p)), l.calls)
    requires (b.Peeled? ==> PeelCall(b.call))
    requires TableFits(ev, l.t, DeckOf(ids), c) && SessionFits(l, RunCalls(c, l.calls)) && r == Turns(ev, c, l, b)
    ensures TableFits(ev, r.t, DeckOf(ids), c) && SessionFits(r, RunCalls(c, r.calls))
  {
    match b
    case Acted(a) => ActionFits(ev, l.t, a, DeckOf(ids), c, r.t);
    case Peeled(call) =>
      RunCallsSnoc(c, ANYTHING, l.calls, call);
      PeelKeepsFit(c, l, call, RunCalls(c, l.calls));
    case LoopTurns =>
      if l.waiting {
        TakeKeepsFit(ev, c, k, ids, l, r);
      } else if l.t.phase == AwaitingStreet {
        AskKeepsFit(c, l, RunCalls(c, l.calls));
        RunCallsSnoc(c, ANYTHING, l.calls, CallStreet(RunCalls(c, l.calls).flags.lastStreet + 1));
      }
  }

  lemma StartKeepsNames(t: Table)
    requires Opening.Ready(t)
    ensures SameNames(t, StartHandCrypto(t).t)
  {
    var sb, bb := SmallBlindIndex(t), BigBlindIndex(t);
    Replicas.BlindsInRange(t);
    PostKeepsNames(t.(deck := None), sb, bb);
  }

  lemma PostKeepsNames(t: Table, sb: nat, bb: nat)
    requires sb < |t.seats| && bb < |t.seats|
    ensures SameNames(t, PostBlindsAt(t, sb, bb))
  {
  }

  lemma StartedFits(ev: Evaluator, c: DealConfig, t: Table, o: Table, d: seq<Card>, calls: seq<Call>, s: DealState)
    requires ValidDeal(c) && Seats(t, c) && SameNames(t, o)
    requires Hand.TurnsInOrder(o) && CryptoMode(o) && Knows(o, d) && o.phase == PreFlop
    requires s.flags.holesDone && s.flags.lastStreet == 0 && s.run.kind == Idle
    ensures TableFits(ev, o, d, c) && SessionFits(Local(o, calls, false), s)
  {
  }

  lemma StartGives(t: Table, d: seq<Card>) returns (o: Table)
    requires Opening.Ready(t) && Knows(t, d)
    ensures o == StartHandCrypto(t).t && SameNames(t, o)
    ensures Hand.TurnsInOrder(o) && CryptoMode(o) && Knows(o, d) && o.phase == PreFlop
  {
    Opening.StartCryptoConserves(t);
    Replicas.SameStart(t, t, d);
    StartKeepsNames(t);
    o := StartHandCrypto(t).t;
  }

  /** A hand that has just started, beside a session that has just dealt the holes. */
  lemma StartFits(ev: Evaluator, c: DealConfig, t: Table, d: seq<Card>, calls: seq<Call>)
    requires ValidDeal(c) && Opening.Ready(t) && Knows(t, d) && Seats(t, c)
    requires RunCalls(c, calls).flags.holesDone && RunCalls(c, calls).flags.lastStreet == 0
    requires RunCalls(c, calls).run.kind == Idle
    ensures TableFits(ev, StartHandCrypto(t).t, d, c)
    ensures SessionFits(Local(StartHandCrypto(t).t, calls, false), RunCalls(c, calls))
  {
    var o := StartGives(t, d);
    StartedFits(ev, c, t, o, d, calls, RunCalls(c, calls));
  }

  lemma RoundEndsWell(ev: Evaluator, t: Table, d: seq<Card>)
    requires CryptoMode(t) && Knows(t, d) && BettingPhase(t.phase)
    ensures EndBettingRound(ev, t).err.None?
  {
    Replicas.ShowdownFinal(ev, WithPots(t), d);
  }

  lemma RoundOpensWell(ev: Evaluator, t: Table, d: seq<Card>)
    requires CryptoMode(t) && Knows(t, d) && BettingPhase(t.phase)
    ensures StartNewBettingRound(ev, t).err.None?
  {
    var f, _ := Replicas.FreshAlike(t, t, d);
    var first := NextActive(f.seats, f.dealer);
    if first == -1 {
      RoundEndsWell(ev, f, d);
    } else if CountCanAct(f.seats) <= 1 {
      RoundEndsWell(ev, f.(actionIdx := first), d);
    }
  }

  lemma StreetEndsWell(ev: Evaluator, t: Table, d: seq<Card>)
    requires CryptoMode(t) && Knows(t, d) && t.phase == AwaitingStreet && PendingStreetCount(|t.board|) > 0
    ensures Replicas.Street(ev, t, d).err.None?
  {
    StreetAccepted(t, d);
    var board := t.board + NextCards(d, |t.seats|, |t.board|);
    RoundOpensWell(ev, t.(board := board, phase := if |board| == 3 then Flop else if |board| == 4 then Turn else River),
        d);
  }

  lemma IdleInStep(ev: Evaluator, c: DealConfig, k: Keys, ids: seq<nat>, r: Local, s: DealState)
    requires HonestSession(c, k, ids) && CallsOk(c, TRUTH(c, k, PlainOf(ids, c.p)), r.calls)
    requires TableFits(ev, r.t, DeckOf(ids), c) && s == RunCalls(c, r.calls) && SessionFits(r, s) && !r.waiting
    ensures CommunityCards(c, s) == Ok(r.t.board) && s.run.kind == Idle
    ensures r.t.phase == AwaitingStreet ==> StreetFromPending(r.t) == Ok(s.flags.lastStreet + 1) && s.flags.holesDone
    ensures r.t.phase == Showdown ==> |r.t.board| == 5 && s.flags.lastStreet == 3
  {
    SessionBoard(c, k, ids, r.calls, s);
    BoardFollowsStreets(c, r.calls);
    if r.t.phase == AwaitingStreet {
      AwaitedStreet(r.t, s);
    }
  }

  /**
   * The machine and its deal session stay in lockstep through the whole hand. Between streets
   * the machine's board is exactly what the session has opened, and a street that the machine
   * waits for is the session's next; when the session has peeled it, the machine accepts its
   * cards; and at the showdown the board has five cards.
   */
  lemma HandStaysInLockstep(ev: Evaluator, c: DealConfig, k: Keys, ids: seq<nat>, t: Table, calls: seq<Call>,
      beats: seq<Beat>, r: Local, s: DealState)
    requires HonestSession(c, k, ids) && OnlyPeels(beats) && Opening.Ready(t) && Knows(t, DeckOf(ids)) && Seats(t, c)
    requires RunCalls(c, calls).flags.holesDone && RunCalls(c, calls).flags.lastStreet == 0
    requires RunCalls(c, calls).run.kind == Idle
    requires r == TurnsAll(ev, c, Local(StartHandCrypto(t).t, calls, false), beats) && s == RunCalls(c, r.calls)
    requires CallsOk(c, TRUTH(c, k, PlainOf(ids, c.p)), r.calls)
    ensures !r.waiting ==> CommunityCards(c, s) == Ok(r.t.board) && s.run.kind == Idle
    ensures !r.waiting && r.t.phase == AwaitingStreet ==>
              StreetFromPending(r.t) == Ok(s.flags.lastStreet + 1) && s.flags.holesDone
    ensures r.waiting && s.flags.streetDone ==>
              && NewCommunityCards(c, s, |r.t.board|).Ok?
              && ApplyStreet(ev, r.t, NewCommunityCards(c, s, |r.t.board|).value).err.None?
    ensures r.t.phase == Showdown ==> |r.t.board| == 5 && s.flags.lastStreet == 3
  {
    StartFits(ev, c, t, DeckOf(ids), calls);
    BeatsKeepFit(ev, c, k, ids, Local(StartHandCrypto(t).t, calls, false), beats, r);
    if !r.waiting {
      IdleInStep(ev, c, k, ids, r, s);
    } else if s.flags.streetDone {
      var cards := StreetIsReady(ev, c, k, ids, r, s);
      StreetEndsWell(ev, r.t, DeckOf(ids));
    }
  }
}
