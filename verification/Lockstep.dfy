// The machine and the deal session in step (internal/network/crypto_hand.go:274-294, 426-547):
// the street that the machine waits for is the one that the session may begin, and what the
// session then hands over is what the machine wants.
module Lockstep {
  import opened Cards
  import opened DealSafety
  import opened DealSession
  import opened GameState
  import opened Hand
  import opened JointDeck
  import Opening
  import Params
  import Replicas
  import opened Rules
  import ShuffleSession
  import Sra
  import opened Wrappers

  /** StreetFromPending: 1 flop, 2 turn, 3 river. */
  function StreetFromPending(t: Table): Result<nat> {
    var already := |t.board|;
    var n := if t.phase == AwaitingStreet then PendingStreetCount(already) else 0;
    if t.phase != AwaitingStreet then Err(WrongStreet)
    else if n == 3 && already == 0 then Ok(1)
    else if n == 1 && already == 3 then Ok(2)
    else if n == 1 && already == 4 then Ok(3)
    else Err(WrongStreet)
  }

  /** NewCommunityCards: the opened board cards from the given count on. */
  function NewCommunityCards(c: DealConfig, s: DealState, already: nat): Result<seq<Card>>
    requires c.p > 0
  {
    var all := CommunityCards(c, s);
    if all.Err? then all else if already > |all.value| then Err(BadIndex) else Ok(all.value[already..])
  }

  /** The machine's board is as long as the session's last street says. */
  predicate InStep(t: Table, s: DealState) {
    CryptoMode(t) && CardsFit(t) && s.flags.lastStreet <= 3 && |t.board| == BoardCount(s.flags.lastStreet)
  }

  predicate PeelCall(call: Call) {
    call.CallPeel? || call.CallDelegate? || call.CallCollect?
  }

  /** A street sequence begun on flags f is in progress, or over and marked. */
  predicate StreetUnderWay(f: Flags, street: nat, s: DealState) {
    || (s.run.kind == StreetPeels && s.run.street == street && s.flags == f)
    || (s.run.kind == Idle && s.flags == f.(streetDone := true, lastStreet := street))
  }

  lemma MessageMoves(c: DealConfig, s: DealState, m: PeelMessage)
    requires ValidDeal(c)
    ensures FlagsMove(s, HandlePeel(c, s, m).s)
  {
    AfterMoves(c, s.(work := Apply(c, s.work, m).0));
  }

  lemma BehalfMoves(c: DealConfig, s: DealState, id: string, key: Sra.Key)
    requires ValidDeal(c) && key.p == c.p
    ensures FlagsMove(s, PeelOnBehalf(c, s, id, key).s)
  {
    var pd := PeelAs(c, s, id, key);
    if pd.Ok? {
      AfterMoves(c, s.(work := Apply(c, s.work, PeelMessage(c.hand, pd.value)).0));
    }
  }

  lemma PeelCallMoves(c: DealConfig, s: DealState, call: Call)
    requires ValidDeal(c) && PeelCall(call)
    ensures FlagsMove(s, DoCall(c, s, call))
  {
    if call.CallPeel? {
      MessageMoves(c, s, call.m);
    } else if call.CallDelegate? && call.key.p == c.p {
      BehalfMoves(c, s, call.id, call.key);
    }
  }

  lemma StreetJustAsked(c: DealConfig, s: DealState, street: nat)
    requires ValidDeal(c) && Roomy(c) && s.run.kind == Idle && s.flags.holesDone
    requires street == s.flags.lastStreet + 1 <= 3
    ensures StreetUnderWay(s.flags.(streetDone := false), street, DoCall(c, s, CallStreet(street)))
  {
    StreetMoves(c, s, street);
  }

  lemma StaysUnderWay(c: DealConfig, f: Flags, street: nat, s: DealState, call: Call)
    requires ValidDeal(c) && PeelCall(call) && StreetUnderWay(f, street, s)
    ensures StreetUnderWay(f, street, DoCall(c, s, call))
  {
    PeelCallMoves(c, s, call);
  }

  /** Whatever peels arrive, the street stays under way until it is done. */
  lemma {:induction false} StreetStaysUnderWay(c: DealConfig, calls: seq<Call>, s: DealState, street: nat,
      peels: seq<Call>, r: DealState)
    requires ValidDeal(c) && Roomy(c) && forall i :: 0 <= i < |peels| ==> PeelCall(peels[i])
    requires s == RunCalls(c, calls) && s.run.kind == Idle && s.flags.holesDone && street == s.flags.lastStreet + 1 <= 3
    requires r == RunCalls(c, calls + [CallStreet(street)] + peels)
    ensures StreetUnderWay(s.flags.(streetDone := false), street, r)
    decreases |peels|
  {
    var all := calls + [CallStreet(street)] + peels;
    if peels == [] {
      assert all[..|all| - 1] == calls && all[|all| - 1] == CallStreet(street);
      StreetJustAsked(c, s, street);
    } else {
      var before, last := peels[..|peels| - 1], peels[|peels| - 1];
      assert all[..|all| - 1] == calls + [CallStreet(street)] + before && all[|all| - 1] == last;
      var q := RunCalls(c, calls + [CallStreet(street)] + before);
      StreetStaysUnderWay(c, calls, s, street, before, q);
      StaysUnderWay(c, s.flags.(streetDone := false), street, q, last);
    }
  }

  /** A reveal begun on flags f is in progress, or over and marked. */
  predicate RevealUnderWay(f: Flags, id: string, s: DealState) {
    && s.run.revealID == id
    && ((s.run.kind == RevealPeels && s.flags == f) || (s.run.kind == Idle && s.flags == f.(revealDone := true)))
  }

  lemma RevealJustAsked(c: DealConfig, s: DealState, id: string)
    requires ValidDeal(c) && Roomy(c) && s.run.kind == Idle && s.flags.holesDone
    requires ShuffleSession.SeatOf(c.order, id).Some? && id !in s.got.revealed
    ensures RevealUnderWay(s.flags.(revealDone := false), id, DoCall(c, s, CallReveal(id)))
  {
    RevealMoves(c, s, id);
  }

  lemma RevealStays(c: DealConfig, f: Flags, id: string, s: DealState, call: Call)
    requires ValidDeal(c) && PeelCall(call) && RevealUnderWay(f, id, s)
    ensures RevealUnderWay(f, id, DoCall(c, s, call))
  {
    PeelCallMoves(c, s, call);
  }

  /** Whatever peels arrive, the reveal stays under way until it is done. */
  lemma {:induction false} RevealStaysUnderWay(c: DealConfig, calls: seq<Call>, s: DealState, id: string,
      peels: seq<Call>, r: DealState)
    requires ValidDeal(c) && Roomy(c) && forall i :: 0 <= i < |peels| ==> PeelCall(peels[i])
    requires s == RunCalls(c, calls) && s.run.kind == Idle && s.flags.holesDone
    requires ShuffleSession.SeatOf(c.order, id).Some? && id !in s.got.revealed
    requires r == RunCalls(c, calls + [CallReveal(id)] + peels)
    ensures RevealUnderWay(s.flags.(revealDone := false), id, r)
    decreases |peels|
  {
    var all := calls + [CallReveal(id)] + peels;
    if peels == [] {
      assert all[..|all| - 1] == calls && all[|all| - 1] == CallReveal(id);
      RevealJustAsked(c, s, id);
    } else {
      var before, last := peels[..|peels| - 1], peels[|peels| - 1];
      assert all[..|all| - 1] == calls + [CallReveal(id)] + before && all[|all| - 1] == last;
      var q := RunCalls(c, calls + [CallReveal(id)] + before);
      RevealStaysUnderWay(c, calls, s, id, before, q);
      RevealStays(c, s.flags.(revealDone := false), id, q, last);
    }
  }

  /** The machine waits for the session's next street. */
  lemma AwaitedStreet(t: Table, s: DealState)
    requires InStep(t, s) && t.phase == AwaitingStreet
    ensures s.flags.lastStreet + 1 <= 3 && StreetFromPending(t) == Ok(s.flags.lastStreet + 1)
    ensures |t.board| + PendingStreetCount(|t.board|) == BoardCount(s.flags.lastStreet + 1)
  {
  }

  lemma {:induction false} NewCardsCount(c: DealConfig, values: seq<int>)
    requires c.p > 0
    ensures AllPublic(values, c.p).Ok? ==> |AllPublic(values, c.p).value| == |values|
    decreases |values|
  {
    if values != [] { NewCardsCount(c, values[1..]); }
  }

  /** A street under way has its own sequence running, or is done with all its cards opened. */
  lemma StreetIsReady(c: DealConfig, t: Table, f: Flags, r: DealState)
    requires c.p > 0 && StreetUnderWay(f.(streetDone := false), f.lastStreet + 1, r) && f.holesDone
    requires |t.board| + PendingStreetCount(|t.board|) == BoardCount(f.lastStreet + 1)
    requires r.run.kind != StreetPeels ==> |r.got.community| == BoardCount(r.flags.lastStreet)
    ensures if r.flags.streetDone then r.run.kind == Idle && r.flags.lastStreet == f.lastStreet + 1 && r.flags.holesDone
            else r.run.kind == StreetPeels && r.run.street == f.lastStreet + 1
    ensures r.flags.streetDone ==>
              |r.got.community| == |t.board| + PendingStreetCount(|t.board|) == BoardCount(r.flags.lastStreet)
    ensures r.flags.streetDone ==> NewCommunityCards(c, r, |t.board|).Ok? ==>
              |NewCommunityCards(c, r, |t.board|).value| == PendingStreetCount(|t.board|)
  {
    NewCardsCount(c, r.got.community);
  }

  /**
   * One turn of the street loop of AdvanceCrypto. The machine waits for the session's next
   * street, the session begins it, and once it is done, whatever was received meanwhile,
   * there are exactly as many new cards as the machine wants.
   */
  lemma StreetLoopInStep(c: DealConfig, t: Table, calls: seq<Call>, peels: seq<Call>, s: DealState, r: DealState)
    requires ValidDeal(c) && Roomy(c) && forall i :: 0 <= i < |peels| ==> PeelCall(peels[i])
    requires s == RunCalls(c, calls) && s.run.kind == Idle && s.flags.holesDone && InStep(t, s)
    requires t.phase == AwaitingStreet
    requires r == RunCalls(c, calls + [CallStreet(s.flags.lastStreet + 1)] + peels)
    ensures StreetFromPending(t) == Ok(s.flags.lastStreet + 1)
    ensures !r.flags.streetDone ==> r.run.kind == StreetPeels && r.run.street == s.flags.lastStreet + 1
    ensures r.flags.streetDone ==>
              r.run.kind == Idle && r.flags.lastStreet == s.flags.lastStreet + 1 && r.flags.holesDone
    ensures r.flags.streetDone ==>
              |r.got.community| == |t.board| + PendingStreetCount(|t.board|) == BoardCount(r.flags.lastStreet)
    ensures r.flags.streetDone ==> NewCommunityCards(c, r, |t.board|).Ok? ==>
              |NewCommunityCards(c, r, |t.board|).value| == PendingStreetCount(|t.board|)
  {
    AwaitedStreet(t, s);
    StreetStaysUnderWay(c, calls, s, s.flags.lastStreet + 1, peels, r);
    BoardFollowsStreets(c, calls + [CallStreet(s.flags.lastStreet + 1)] + peels);
    StreetIsReady(c, t, s.flags, r);
  }

  // --------------------------------------------------------------- the machine's board

  lemma CryptoEndKeepsBoard(ev: Evaluator, t: Table)
    requires CryptoMode(t)
    ensures EndBettingRound(ev, t).t.board == t.board && CryptoMode(EndBettingRound(ev, t).t)
  {
  }

  lemma CryptoRoundKeepsBoard(ev: Evaluator, t: Table)
    requires CryptoMode(t)
    ensures EndBettingRound(ev, t).t.board == t.board && CryptoMode(EndBettingRound(ev, t).t)
    ensures StartNewBettingRound(ev, t).t.board == t.board && CryptoMode(StartNewBettingRound(ev, t).t)
  {
    var f := FreshRound(t);
    CryptoEndKeepsBoard(ev, t);
    CryptoEndKeepsBoard(ev, f);
    if f.seats != [] {
      CryptoEndKeepsBoard(ev, f.(actionIdx := NextActive(f.seats, f.dealer)));
    }
  }

  /** Players' actions never touch the board in crypto mode. */
  lemma ActionKeepsBoard(ev: Evaluator, t: Table, a: Action)
    requires CryptoMode(t)
    ensures ApplyAction(ev, t, a).t.board == t.board && CryptoMode(ApplyAction(ev, t, a).t)
  {
    if 0 <= t.actionIdx < |t.seats| {
      PerformKeepsCards(t, a);
      CryptoRoundKeepsBoard(ev, Recorded(Perform(t, a).t, a));
    }
  }

  /** A crypto hand gets to its showdown only with five cards on the board. */
  lemma CryptoShowdownHasFullBoard(ev: Evaluator, t: Table, inputs: seq<Input>)
    requires Opening.Ready(t) && Hand.Run(ev, StartHandCrypto(t).t, inputs).phase == Showdown
    requires CryptoMode(Hand.Run(ev, StartHandCrypto(t).t, inputs))
    ensures |Hand.Run(ev, StartHandCrypto(t).t, inputs).board| == 5
  {
    Opening.StartCryptoConserves(t);
    RunKeepsTurns(ev, StartHandCrypto(t).t, inputs);
  }

  // ------------------------------------------------------------- the cards themselves

  /** The deck that an honest deal lays out. */
  function DeckOf(ids: seq<nat>): (d: seq<Card>)
    ensures |d| == |ids|
  {
    seq(|ids|, i requires 0 <= i < |ids| => CardFromID(ids[i]))
  }

  ghost predicate DealtIDs(ids: seq<nat>) {
    (forall i :: 0 <= i < |ids| ==> ids[i] <= 51) && forall i, j :: 0 <= i < j < |ids| ==> ids[i] != ids[j]
  }

  lemma DeckIsGood(ids: seq<nat>, n: nat)
    requires DealtIDs(ids) && n >= 2 && |ids| >= 2 * n + 8
    ensures GoodDeck(DeckOf(ids), n)
  {
    forall i | 0 <= i < |ids| ensures Dealt(DeckOf(ids)[i]) && CardID(DeckOf(ids)[i]) == ids[i] {
      CardIDBijection(ids[i], BLANK);
    }
  }

  ghost predicate HonestSession(c: DealConfig, k: Keys, ids: seq<nat>) {
    && ValidDeal(c) && Roomy(c) && Params.BigPrime(c.p) && |ids| == |c.cards| && DealtIDs(ids)
    && HonestCards(c, k, PlainOf(ids, c.p))
  }

  lemma BoardFromCards(ids: seq<nat>, n: nat, cards: seq<Card>)
    requires GoodDeck(DeckOf(ids), n) && |cards| <= 5
    requires forall j :: 0 <= j < |cards| ==> cards[j] == CardAt(ids, BoardPos(n, j))
    ensures cards == Board(DeckOf(ids), n)[..|cards|]
  {
    forall j | 0 <= j < |cards| ensures cards[j] == Board(DeckOf(ids), n)[j] {
      BoardAt(DeckOf(ids), n, j);
    }
  }

  /** The session's board is the deck's board, as far as it goes. */
  lemma SessionBoard(c: DealConfig, k: Keys, ids: seq<nat>, calls: seq<Call>, s: DealState)
    requires HonestSession(c, k, ids) && CallsOk(c, TRUTH(c, k, PlainOf(ids, c.p)), calls) && s == RunCalls(c, calls)
    ensures GoodDeck(DeckOf(ids), |c.order|) && |s.got.community| <= 5
    ensures CommunityCards(c, s) == Ok(Board(DeckOf(ids), |c.order|)[..|s.got.community|])
  {
    DeckIsGood(ids, |c.order|);
    CardsAreDealt(c, k, ids, calls, s);
    BoardFromCards(ids, |c.order|, CommunityCards(c, s).value);
  }

  /** When peels are true decryptions, the new cards are the deck's next street, and the machine accepts them. */
  lemma NewCardsAreNextStreet(ev: Evaluator, c: DealConfig, k: Keys, ids: seq<nat>, calls: seq<Call>, t: Table,
      r: DealState)
    requires HonestSession(c, k, ids) && CallsOk(c, TRUTH(c, k, PlainOf(ids, c.p)), calls) && r == RunCalls(c, calls)
    requires Knows(t, DeckOf(ids)) && |t.seats| == |c.order| && CryptoMode(t) && t.phase == AwaitingStreet
    requires PendingStreetCount(|t.board|) > 0 && |r.got.community| == |t.board| + PendingStreetCount(|t.board|)
    ensures NewCommunityCards(c, r, |t.board|) == Ok(NextCards(DeckOf(ids), |c.order|, |t.board|))
    ensures ApplyStreet(ev, t, NewCommunityCards(c, r, |t.board|).value) == Replicas.Street(ev, t, DeckOf(ids))
    ensures StreetRefusal(NewCommunityCards(c, r, |t.board|).value, KnownCards(t)) == None
  {
    SessionBoard(c, k, ids, calls, r);
    StreetAccepted(t, DeckOf(ids));
  }

  /** A hand that is revealed whole is the one that the deal laid out for its seat. */
  lemma RevealedIsDealt(c: DealConfig, k: Keys, ids: seq<nat>, calls: seq<Call>, r: DealState, who: nat)
    requires HonestSession(c, k, ids) && CallsOk(c, TRUTH(c, k, PlainOf(ids, c.p)), calls) && r == RunCalls(c, calls)
    requires who < |c.order| && c.order[who] in r.got.revealed && FullPair(r.got.revealed[c.order[who]])
    ensures RevealedHoles(c, r, c.order[who]) == Ok(HandAt(c, ids, who))
  {
    var P := TRUTH(c, k, PlainOf(ids, c.p));
    TruthIsFair(c, k, PlainOf(ids, c.p));
    RunKeeps(c, P, calls);
    assert RevealFits(c, P, r.got, c.order[who]);
    SeatFound(c.order, who);
    PairIsHand(c, P, ids, r.got.revealed[c.order[who]], who, k);
  }

  /** And that is the pair that the machine's deck holds for the player. */
  lemma HandIsPair(c: DealConfig, ids: seq<nat>, t: Table, who: nat)
    requires ValidDeal(c) && Knows(t, DeckOf(ids)) && |t.seats| == |c.order| && t.dealer == c.dealer
    requires who < |c.order| && t.seats[who].id == c.order[who]
    ensures HandAt(c, ids, who) == JointDeck.DealtPair(t, DeckOf(ids), c.order[who])
  {
    SeatIndexOf(t.seats, who);
  }

  /** A reveal that is done has opened both cards of its hand. */
  lemma RevealedWhole(c: DealConfig, calls: seq<Call>, s: DealState, id: string)
    requires ValidDeal(c) && Roomy(c) && s == RunCalls(c, calls) && s.run.kind == Idle && s.run.revealID == id
    requires id in c.order
    ensures id in s.got.revealed && FullPair(s.got.revealed[id])
  {
    AnythingGoes(c, calls);
    RunKeeps(c, ANYTHING, calls);
    var x :| 0 <= x < |c.order| && c.order[x] == id;
  }
}
