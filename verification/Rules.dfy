// The hand as a reducer over table values (internal/game/machine.go): what each call
// of the machine does to the table and which error it returns.
module Rules {
  import opened Cards
  import opened GameState
  import opened HandEval
  import opened Pots
  import opened Wrappers

  // ------------------------------------------------------------------ small queries

  function CountCanAct(seats: seq<Seat>): nat {
    if seats == [] then 0 else (if CanAct(seats[0]) then 1 else 0) + CountCanAct(seats[1..])
  }

  function CountInHand(seats: seq<Seat>): nat {
    if seats == [] then 0 else (if InHand(seats[0]) then 1 else 0) + CountInHand(seats[1..])
  }

  predicate OnlyOneRemaining(t: Table) {
    CountInHand(t.seats) == 1
  }

  /** Identifiers of remaining seats whose hole cards are not known here. */
  function MissingRevealIDs(seats: seq<Seat>): seq<string> {
    if seats == [] then []
    else (if Remaining(seats[0]) && !HoleDealt(seats[0]) then [seats[0].id] else []) + MissingRevealIDs(seats[1..])
  }

  lemma MissingFrom(seats: seq<Seat>, i: nat)
    requires i < |seats|
    ensures MissingRevealIDs(seats[i..]) ==
            (if Remaining(seats[i]) && !HoleDealt(seats[i]) then [seats[i].id]
                else []) + MissingRevealIDs(seats[i + 1..])
  {
    assert seats[i..][1..] == seats[i + 1..];
  }

  predicate HolesIncomplete(t: Table) {
    MissingRevealIDs(t.seats) != []
  }

  function PendingStreetCount(board: nat): nat {
    if board == 0 then 3 else if board == 3 || board == 4 then 1 else 0
  }

  function DealtOf(cs: seq<Card>): set<Card> {
    set c | c in cs && Dealt(c)
  }

  function DealtHoles(seats: seq<Seat>): set<Card> {
    if seats == [] then {} else DealtOf([seats[0].hole.0, seats[0].hole.1]) + DealtHoles(seats[1..])
  }

  /** Every real card on the board or in a hand that is known here. */
  function KnownCards(t: Table): set<Card> {
    DealtOf(t.board) + DealtHoles(t.seats)
  }

  // ----------------------------------------------------------------- paying the pots

  /** The seven cards of a seat: its hole cards and up to five of the board; the rest stay blank. */
  function Seven(s: Seat, board: seq<Card>): (r: seq<Card>)
    ensures |r| == 7
  {
    [s.hole.0, s.hole.1] + seq(5, i requires 0 <= i < 5 => if i < |board| then board[i] else BLANK)
  }

  /** The machine's evaluator. */
  const BEST7: Evaluator := (cards: seq<Card>) => if |cards| == 7 then EvaluateBest7(cards) else NOTHING

  // A player still entitled to a pot, by seat index, and the strength of the seven cards.
  datatype Entry = Entry(seat: nat, hand: Hand)

  /** The eligible players who have not folded, in the pot's order. */
  function Candidates(ev: Evaluator, seats: seq<Seat>, board: seq<Card>, eligible: seq<string>): (r: seq<Entry>)
    ensures forall k :: 0 <= k < |r| ==> r[k].seat < |seats| && seats[r[k].seat].status != Folded
  {
    if eligible == [] then [] else
    var rest := Candidates(ev, seats, board, eligible[1..]);
    var idx := SeatIndex(seats, eligible[0]);
    SeatIndexFromIs(seats, eligible[0], 0);
    if idx == -1 || seats[idx].status == Folded then rest else [Entry(idx, ev(Seven(seats[idx], board)))] + rest
  }

  lemma CandidatesFrom(ev: Evaluator, seats: seq<Seat>, board: seq<Card>, eligible: seq<string>, i: nat, idx: int)
    requires i < |eligible| && idx == SeatIndex(seats, eligible[i]) && -1 <= idx < |seats|
    ensures Candidates(ev, seats, board, eligible[i..]) ==
            (if idx == -1 || seats[idx].status == Folded then [] else [Entry(idx, ev(Seven(seats[idx], board)))])
            + Candidates(ev, seats, board, eligible[i + 1..])
  {
    assert eligible[i..][1..] == eligible[i + 1..];
  }

  /** The scan for the strongest candidate. */
  function BestOf(cands: seq<Entry>, best: Hand): Hand
    decreases |cands|
  {
    if cands == [] then best
    else BestOf(cands[1..], if Compare(cands[0].hand, best) > 0 then cands[0].hand else best)
  }

  /** The seats whose hands tie with the strongest. */
  function Matching(cands: seq<Entry>, best: Hand): (r: seq<nat>)
    ensures forall k :: 0 <= k < |r| ==> exists j :: 0 <= j < |cands| && cands[j].seat == r[k]
    decreases |cands|
  {
    if cands == [] then []
    else
      var rest := Matching(cands[1..], best);
      assert forall j :: 0 <= j < |cands[1..]| ==> cands[1..][j] == cands[j + 1];
      (if Compare(cands[0].hand, best) == 0 then [cands[0].seat] else []) + rest
  }

  lemma MatchingFrom(cands: seq<Entry>, i: nat, best: Hand)
    requires i < |cands|
    ensures Matching(cands[i..], best) ==
            (if Compare(cands[i].hand, best) == 0 then [cands[i].seat] else []) + Matching(cands[i + 1..], best)
  {
    assert cands[i..][1..] == cands[i + 1..];
  }

  /** potWinners: the candidates that tie with the strongest one. */
  function PotWinners(ev: Evaluator, seats: seq<Seat>, board: seq<Card>, eligible: seq<string>): (r: seq<nat>)
    ensures forall k :: 0 <= k < |r| ==> r[k] < |seats|
  {
    var cands := Candidates(ev, seats, board, eligible);
    if cands == [] then [] else Matching(cands, BestOf(cands[1..], cands[0].hand))
  }

  function AddPayout(payouts: map<string, int>, id: string, x: int): map<string, int> {
    payouts[id := (if id in payouts then payouts[id] else 0) + x]
  }

  // Stacks and the record of what was paid out.
  datatype Bank = Bank(seats: seq<Seat>, payouts: map<string, int>)

  function PayOne(b: Bank, i: nat, x: int): (r: Bank)
    requires i < |b.seats|
    ensures |r.seats| == |b.seats|
  {
    Bank(b.seats[i := b.seats[i].(stack := b.seats[i].stack + x)], AddPayout(b.payouts, b.seats[i].id, x))
  }

  function PayEach(b: Bank, winners: seq<nat>, share: int): (r: Bank)
    requires forall k :: 0 <= k < |winners| ==> winners[k] < |b.seats|
    ensures |r.seats| == |b.seats|
    decreases |winners|
  {
    if winners == [] then b else PayEach(PayOne(b, winners[0], share), winners[1..], share)
  }

  /** The last winner with this identifier. */
  function WinnerWithID(seats: seq<Seat>, winners: seq<nat>, id: string): (r: Option<nat>)
    requires forall k :: 0 <= k < |winners| ==> winners[k] < |seats|
    ensures r.Some? ==> r.value < |seats| && r.value in winners && seats[r.value].id == id
    ensures r.None? ==> forall k :: 0 <= k < |winners| ==> seats[winners[k]].id != id
    decreases |winners|
  {
    if winners == [] then None
    else if seats[winners[|winners| - 1]].id == id then Some(winners[|winners| - 1])
    else WinnerWithID(seats, winners[..|winners| - 1], id)
  }

  /** closestLeftOfDealer, looking at the i-th seat after the dealer and beyond. */
  function ClosestFrom(seats: seq<Seat>, dealer: nat, winners: seq<nat>, i: nat): (r: nat)
    requires winners != [] && forall k :: 0 <= k < |winners| ==> winners[k] < |seats|
    ensures r in winners
    decreases |seats| + 1 - i
  {
    if i > |seats| then winners[0] else
    assert winners[0] < |seats|;
    var w := WinnerWithID(seats, winners, seats[Around(dealer, i, |seats|)].id);
    if w.Some? then w.value else ClosestFrom(seats, dealer, winners, i + 1)
  }

  function ClosestLeft(seats: seq<Seat>, dealer: nat, winners: seq<nat>): (r: nat)
    requires winners != [] && forall k :: 0 <= k < |winners| ==> winners[k] < |seats|
    ensures r in winners
  {
    ClosestFrom(seats, dealer, winners, 1)
  }

  /** Equal shares to the winners, the odd chips to the first of them left of the dealer. */
  function PayWinners(dealer: nat, b: Bank, winners: seq<nat>, share: int, remainder: int): (r: Bank)
    requires winners != [] && forall k :: 0 <= k < |winners| ==> winners[k] < |b.seats|
    ensures |r.seats| == |b.seats|
  {
    var paid := PayEach(b, winners, share);
    if remainder > 0 then PayOne(paid, ClosestLeft(paid.seats, dealer, winners), remainder) else paid
  }

  function PayPot(ev: Evaluator, dealer: nat, board: seq<Card>, b: Bank, pot: Pot): (r: Bank)
    ensures |r.seats| == |b.seats|
  {
    var winners := PotWinners(ev, b.seats, board, pot.eligible);
    if winners == [] then b else PayWinners(dealer, b, winners, pot.amount / |winners|, pot.amount % |winners|)
  }

  function PayPots(ev: Evaluator, dealer: nat, board: seq<Card>, b: Bank, pots: seq<Pot>): (r: Bank)
    ensures |r.seats| == |b.seats|
    decreases |pots|
  {
    if pots == [] then b else PayPots(ev, dealer, board, PayPot(ev, dealer, board, b, pots[0]), pots[1..])
  }

  /** distributePots. */
  function DistributePots(ev: Evaluator, t: Table): Outcome {
    if CryptoMode(t) && HolesIncomplete(t) then Outcome(t, Some(HolesMissing)) else
    var b := PayPots(ev, t.dealer, t.board, Bank(t.seats, t.payouts), t.pots);
    Outcome(t.(seats := b.seats, payouts := b.payouts, phase := Settled), None)
  }

  function WithPots(t: Table): Table {
    t.(pots := CalculatePots(t.seats))
  }

  function StartShowdown(ev: Evaluator, t: Table): Outcome {
    var s := WithPots(t.(phase := Showdown));
    if CryptoMode(s) && HolesIncomplete(s) then Outcome(s, None) else DistributePots(ev, s)
  }

  /** The first seat still in the hand. */
  function FirstInHand(seats: seq<Seat>): (r: Option<nat>)
    ensures r.Some? ==> r.value < |seats| && InHand(seats[r.value])
    ensures r.None? ==> forall i :: 0 <= i < |seats| ==> !InHand(seats[i])
  {
    if seats == [] then None
    else if InHand(seats[0]) then Some(0)
    else
      var rest := FirstInHand(seats[1..]);
      assert forall i :: 0 < i < |seats| ==> seats[i] == seats[1..][i - 1];
      if rest.None? then None else Some(rest.value + 1)
  }

  /** resolveSingleWinner: everything goes to the one seat left. */
  function ResolveSingleWinner(t: Table): Outcome {
    var s := WithPots(t);
    var w := FirstInHand(s.seats);
    var b := if w.None? then Bank(s.seats, s.payouts) else PayOne(Bank(s.seats, s.payouts), w.value, TotalPot(s.pots));
    Outcome(s.(seats := b.seats, payouts := b.payouts, phase := Settled), None)
  }

  // ------------------------------------------------------------------ dealing streets

  /** Take the top card off the deck, onto the board or as a burn. */
  function DrawCard(t: Table, toBoard: bool): Outcome {
    if t.deck.None? then Outcome(t, Some(NoDeck))
    else if t.deck.value == [] then Outcome(t, Some(EmptyDeck))
    else Outcome(t.(deck := Some(t.deck.value[1..]), board := if toBoard then t.board + [t.deck.value[0]] else t.board),
        None)
  }

  function DrawCards(t: Table, n: nat): Outcome
    decreases n
  {
    if n == 0 then Outcome(t, None) else
    var o := DrawCard(t, true);
    if o.err.Some? then o else DrawCards(o.t, n - 1)
  }

  /** A burn, then the street's cards. */
  function DrawStreet(t: Table, n: nat): Outcome {
    var o := DrawCard(t, false);
    if o.err.Some? then o else DrawCards(o.t, n)
  }

  // ----------------------------------------------------------------------- the streets

  /** How many streets may still come. */
  function StreetsLeft(p: Phase): nat {
    match p
    case Waiting => 4
    case PreFlop => 3
    case Flop => 2
    case Turn => 1
    case _ => 0
  }

  function NextStreet(p: Phase): Phase
    requires p == PreFlop || p == Flop || p == Turn
  {
    if p == PreFlop then Flop else if p == Flop then Turn else River
  }

  function ResetBets(seats: seq<Seat>): (r: seq<Seat>)
    ensures |r| == |seats|
  {
    seq(|seats|, i requires 0 <= i < |seats| => if Remaining(seats[i]) then ResetForNewRound(seats[i]) else seats[i])
  }

  /** endBettingRound. */
  function EndBettingRound(ev: Evaluator, t: Table): Outcome
    decreases StreetsLeft(t.phase), 1
  {
    var s := WithPots(t);
    if CryptoMode(s) then
      match s.phase
      case PreFlop => Outcome(s.(phase := AwaitingStreet), None)
      case Flop => Outcome(s.(phase := AwaitingStreet), None)
      case Turn => Outcome(s.(phase := AwaitingStreet), None)
      case River => StartShowdown(ev, s)
      case _ => Outcome(s, Some(UnexpectedPhase))
    else
      match s.phase
      case PreFlop => DealStreet(ev, s)
      case Flop => DealStreet(ev, s)
      case Turn => DealStreet(ev, s)
      case River => StartShowdown(ev, s)
      case _ => Outcome(s, None)
  }

  /** dealFlop, dealTurn, dealRiver. */
  function DealStreet(ev: Evaluator, t: Table): Outcome
    requires t.phase == PreFlop || t.phase == Flop || t.phase == Turn
    decreases StreetsLeft(t.phase), 0
  {
    var o := DrawStreet(t, if t.phase == PreFlop then 3 else 1);
    if o.err.Some? then o else StartNewBettingRound(ev, o.t.(phase := NextStreet(t.phase)))
  }

  function FreshRound(t: Table): Table {
    t.(currentBet := 0, minRaise := t.bigBlind, roundActions := 0, lastRaiser := -1, seats := ResetBets(t.seats))
  }

  /** startNewBettingRound. */
  function StartNewBettingRound(ev: Evaluator, t: Table): Outcome
    decreases StreetsLeft(t.phase), 2
  {
    var s := FreshRound(t);
    var first := if s.seats == [] then -1 else NextActive(s.seats, s.dealer);
    if first == -1 then
      if CryptoMode(s) then EndBettingRound(ev, s) else StartShowdown(ev, s)
    else
      var r := s.(actionIdx := first);
      if CountCanAct(r.seats) <= 1 then EndBettingRound(ev, r) else Outcome(r, None)
  }

  // -------------------------------------------------------------------------- actions

  /** bettingRoundComplete. */
  predicate RoundComplete(t: Table, next: nat)
    requires next < |t.seats|
  {
    t.seats[next].currentBet >= t.currentBet &&
    ((t.roundActions > 0 && next == t.lastRaiser) || t.roundActions >= CountCanAct(t.seats))
  }

  /** The action just taken ends the betting round: nobody is left to act, or the next seat closes it. */
  predicate EndsRound(t: Table)
    requires 0 <= t.actionIdx < |t.seats|
  {
    var next := NextActive(t.seats, t.actionIdx);
    !(0 <= next < |t.seats|) || !CanAct(t.seats[next]) || RoundComplete(t, next)
  }

  /** advanceAction. */
  function AdvanceAction(ev: Evaluator, t: Table): Outcome
    requires 0 <= t.actionIdx < |t.seats|
  {
    if EndsRound(t) then EndBettingRound(ev, t) else Outcome(t.(actionIdx := NextActive(t.seats, t.actionIdx)), None)
  }

  predicate BettingPhase(p: Phase) {
    p == PreFlop || p == Flop || p == Turn || p == River
  }

  /** Seat i bets. */
  function Bet(t: Table, i: nat, amount: int): (r: Table)
    requires i < |t.seats|
    ensures |r.seats| == |t.seats|
  {
    t.(seats := t.seats[i := PlaceBet(t.seats[i], amount)])
  }

  function RaiseBy(t: Table, amount: int): Outcome
    requires 0 <= t.actionIdx < |t.seats|
  {
    var s := t.seats[t.actionIdx];
    var needed := t.currentBet - s.currentBet + amount;
    if amount < t.minRaise then Outcome(t, Some(RaiseTooSmall))
    else if needed > s.stack + s.currentBet then Outcome(t, Some(InsufficientStack))
    else Outcome(Bet(t, t.actionIdx, needed).(minRaise := amount, currentBet := t.currentBet + amount,
        lastRaiser := t.actionIdx), None)
  }

  /** The all-in bet. The branch that would lift the table's bet compares with the stack counted twice. */
  function BetAll(t: Table): Table
    requires 0 <= t.actionIdx < |t.seats|
  {
    var s := t.seats[t.actionIdx];
    var total := s.currentBet + s.stack;
    var r := if total > t.currentBet + s.stack then
               t.(minRaise := if total - t.currentBet > t.minRaise then total - t.currentBet else t.minRaise,
                  currentBet := total, lastRaiser := t.actionIdx)
             else t;
    Bet(r, t.actionIdx, s.stack)
  }

  /** The actor's part of an action: the table with the action carried out, or the refusal. */
  function Perform(t: Table, a: Action): Outcome
    requires 0 <= t.actionIdx < |t.seats|
  {
    var i := t.actionIdx;
    var toCall := t.currentBet - t.seats[i].currentBet;
    match a.kind
    case Fold => Outcome(t.(seats := t.seats[i := t.seats[i].(status := Folded)]), None)
    case Check => if toCall != 0 then Outcome(t, Some(CannotCheck)) else Outcome(t, None)
    case Call => if toCall <= 0 then Outcome(t, Some(NothingToCall)) else Outcome(Bet(t, i, toCall), None)
    case Raise => RaiseBy(t, a.amount)
    case GoAllIn => Outcome(BetAll(t), None)
    case Unknown => Outcome(t, Some(UnknownAction))
  }

  /** ApplyAction: the action, then the end of the hand, of the round, or the next seat. */
  function ApplyAction(ev: Evaluator, t: Table, a: Action): Outcome {
    if !BettingPhase(t.phase) then Outcome(t, Some(NotAllowedInPhase))
    else if !(0 <= t.actionIdx < |t.seats|) then Outcome(t, Some(NoCurrentPlayer))
    else if t.seats[t.actionIdx].id != a.player then Outcome(t, Some(NotYourTurn))
    else Act(ev, t, a)
  }

  function Recorded(t: Table, a: Action): Table {
    t.(log := t.log + [a], roundActions := t.roundActions + 1)
  }

  /** The table that the action leads to if it is carried out, before the turn moves on. */
  function Enact(t: Table, a: Action): (r: Table)
    requires 0 <= t.actionIdx < |t.seats|
    ensures r.actionIdx == t.actionIdx && |r.seats| == |t.seats|
  {
    Recorded(Perform(t, a).t, a)
  }

  function Act(ev: Evaluator, t: Table, a: Action): Outcome
    requires 0 <= t.actionIdx < |t.seats|
  {
    var o := Perform(t, a);
    if o.err.Some? then o else AfterAction(ev, Recorded(o.t, a))
  }

  function AfterAction(ev: Evaluator, t: Table): Outcome
    requires 0 <= t.actionIdx < |t.seats|
  {
    if OnlyOneRemaining(t) then ResolveSingleWinner(t) else AdvanceAction(ev, t)
  }

  // --------------------------------------------------------------------------- starting

  function SmallBlindIndex(t: Table): nat
    requires |t.seats| >= 2 && t.dealer < |t.seats|
  {
    if |t.seats| == 2 then t.dealer else Around(t.dealer, 1, |t.seats|)
  }

  function BigBlindIndex(t: Table): nat
    requires |t.seats| >= 2 && t.dealer < |t.seats|
  {
    if |t.seats| == 2 then Around(t.dealer, 1, |t.seats|) else Around(t.dealer, 2, |t.seats|)
  }

  function PostBlindsAt(t: Table, sb: nat, bb: nat): (r: Table)
    requires sb < |t.seats| && bb < |t.seats|
    ensures |r.seats| == |t.seats|
  {
    var t1 := Bet(t, sb, t.smallBlind);
    var sbAmount, bbAmount := Placed(t.seats[sb], t.smallBlind), Placed(t1.seats[bb], t.bigBlind);
    Bet(t1, bb, t.bigBlind).(
      currentBet := if sbAmount > bbAmount then sbAmount else bbAmount,
      log := t.log + [Action(t.seats[sb].id, Raise, sbAmount), Action(t.seats[bb].id, Raise, bbAmount)])
  }

  /** postBlinds. */
  function PostBlinds(t: Table): (r: Table)
    requires |t.seats| >= 2 && t.dealer < |t.seats|
    ensures |r.seats| == |t.seats|
  {
    PostBlindsAt(t, SmallBlindIndex(t), BigBlindIndex(t))
  }

  /** The turn goes to the first seat after the big blind. */
  function OpenPreFlop(t: Table): Table
    requires |t.seats| >= 2 && t.dealer < |t.seats|
  {
    t.(actionIdx := NextActive(t.seats, BigBlindIndex(t)), lastRaiser := BigBlindIndex(t), roundActions := 0,
        phase := PreFlop)
  }

  /** The seat that the pos-th hole card goes to, walking left of the dealer twice. */
  function HoleSeat(dealer: nat, pos: nat, n: nat): (i: nat)
    requires n > 0
    ensures i < n
  {
    (dealer + 1 + pos % n) % n
  }

  function TakeHole(s: Seat, second: bool, c: Card): Seat {
    s.(hole := if second then (s.hole.0, c) else (c, s.hole.1))
  }

  /** dealHoleCards: deal the pos-th card and the rest. */
  function DealHolesFrom(t: Table, pos: nat): Outcome
    requires t.seats != [] && t.deck.Some? && pos <= 2 * |t.seats|
    decreases 2 * |t.seats| - pos
  {
    if pos == 2 * |t.seats| then Outcome(t, None)
    else if t.deck.value == [] then Outcome(t, Some(EmptyDeck))
    else DealHolesFrom(DealHole(t, pos), pos + 1)
  }

  function DealHole(t: Table, pos: nat): (r: Table)
    requires t.seats != [] && t.deck.Some? && t.deck.value != [] && pos < 2 * |t.seats|
    ensures |r.seats| == |t.seats| && r.deck.Some?
  {
    var i := HoleSeat(t.dealer, pos, |t.seats|);
    t.(deck := Some(t.deck.value[1..]), seats := t.seats[i := TakeHole(t.seats[i], pos >= |t.seats|, t.deck.value[0])])
  }

  /** StartHand, with the deck in the order that the shuffle left it in. */
  function StartHand(t: Table, shuffled: seq<Card>): Outcome
    requires t.dealer < |t.seats| || |t.seats| < 2
  {
    if t.phase != Waiting then Outcome(t, Some(UnexpectedPhase))
    else if |t.seats| < 2 then Outcome(t, Some(TooFewSeats))
    else if t.deck.None? then Outcome(t, Some(NoDeck))
    else
      var o := DealHolesFrom(PostBlinds(t.(deck := Some(shuffled))), 0);
      if o.err.Some? then o else
      DealHolesKeeps(PostBlinds(t.(deck := Some(shuffled))), 0);
      Outcome(OpenPreFlop(o.t), None)
  }

  /** Two tables that differ at most in the deck and in hole cards. */
  predicate SameButCards(a: Table, b: Table) {
    && |a.seats| == |b.seats| && a.deck.Some? == b.deck.Some?
    && b == a.(deck := b.deck, seats := b.seats)
    && forall i :: 0 <= i < |a.seats| ==> b.seats[i] == a.seats[i].(hole := b.seats[i].hole)
  }

  lemma {:induction false} DealHolesKeeps(t: Table, pos: nat)
    requires t.seats != [] && t.deck.Some? && pos <= 2 * |t.seats|
    ensures SameButCards(t, DealHolesFrom(t, pos).t)
    decreases 2 * |t.seats| - pos
  {
    if pos < 2 * |t.seats| && t.deck.value != [] {
      var next := DealHole(t, pos);
      DealHolesKeeps(next, pos + 1);
      assert SameButCards(t, next);
    }
  }

  /** StartHandCrypto. */
  function StartHandCrypto(t: Table): Outcome
    requires t.dealer < |t.seats| || |t.seats| < 2
  {
    if t.phase != Waiting then Outcome(t, Some(UnexpectedPhase))
    else if |t.seats| < 2 then Outcome(t, Some(TooFewSeats))
    else if t.board != [] then Outcome(t, Some(BoardNotEmpty))
    else Outcome(OpenPreFlop(PostBlinds(t.(deck := None))), None)
  }

  // ---------------------------------------------------------------- cards as inputs

  /** The first reason to refuse cards i, i+1, ...: not a real card, or seen before. */
  function StreetRefusal(cards: seq<Card>, seen: set<Card>): Option<GameError> {
    if cards == [] then None
    else if !Dealt(cards[0]) then Some(NotDealt)
    else if cards[0] in seen then Some(DuplicateCard)
    else StreetRefusal(cards[1..], seen + {cards[0]})
  }

  /** ApplyStreet. */
  function ApplyStreet(ev: Evaluator, t: Table, cards: seq<Card>): Outcome {
    if !CryptoMode(t) then Outcome(t, Some(NotCryptoMode))
    else if t.phase != AwaitingStreet then Outcome(t, Some(UnexpectedPhase))
    else
      var want := PendingStreetCount(|t.board|);
      if want == 0 then Outcome(t, Some(if |t.board| >= 5 then BoardComplete else UnexpectedBoard))
      else if |cards| != want then Outcome(t, Some(WrongCardCount))
      else
        var bad := StreetRefusal(cards, KnownCards(t));
        if bad.Some? then Outcome(t, bad) else
        var board := t.board + cards;
        var s := t.(board := board, phase := if |board| == 3 then Flop else if |board| == 4 then Turn else River);
        StartNewBettingRound(ev, s)
  }

  /** ApplyHoleReveal. */
  function ApplyHoleReveal(ev: Evaluator, t: Table, id: string, cards: (Card, Card)): Outcome {
    if !CryptoMode(t) then Outcome(t, Some(NotCryptoMode))
    else if t.phase != Showdown then Outcome(t, Some(UnexpectedPhase))
    else
      var idx := SeatIndex(t.seats, id);
      SeatIndexFromIs(t.seats, id, 0);
      if idx == -1 then Outcome(t, Some(UnknownSeat))
      else
        var s := t.seats[idx];
        if !Remaining(s) then Outcome(t, Some(NotRemaining))
        else if !Dealt(cards.0) || !Dealt(cards.1) then Outcome(t, Some(NotDealt))
        else if cards.0 == cards.1 then Outcome(t, Some(DuplicateCard))
        else if HoleDealt(s) then
          if s.hole == cards then
            if !HolesIncomplete(t) then DistributePots(ev, t) else Outcome(t, None)
          else Outcome(t, Some(Equivocation))
        else if cards.0 in KnownCards(t) || cards.1 in KnownCards(t) then Outcome(t, Some(DuplicateCard))
        else
          var r := t.(seats := t.seats[idx := s.(hole := cards)]);
          if !HolesIncomplete(r) then DistributePots(ev, r) else Outcome(r, None)
  }
}
