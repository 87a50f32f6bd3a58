// The hand machine as the program runs it (internal/game/machine.go, player.go, state.go):
// players and the game state are updated in place, and every method is proved against the
// reducer of module Rules.
module Machine {
  import opened Cards
  import opened GameState
  import opened HandEval
  import opened ModArith
  import opened Pots
  import opened Rules
  import opened Wrappers

  class Player {
    const id: string
    var stack: int
    var hole: (Card, Card)
    var status: Status
    var currentBet: int
    var totalBet: int

    constructor (id: string, stack: int)
      ensures Value() == Seat(id, stack, (BLANK, BLANK), Active, 0, 0)
    {
      this.id, this.stack := id, stack;
      hole, status, currentBet, totalBet := (BLANK, BLANK), Active, 0, 0;
    }

    function Value(): Seat
      reads this
    {
      Seat(id, stack, hole, status, currentBet, totalBet)
    }

    method PlaceBet(amount: int) returns (placed: int)
      modifies this
      ensures Value() == GameState.PlaceBet(old(Value()), amount)
      ensures placed == Placed(old(Value()), amount)
    {
      placed := amount;
      if placed >= stack {
        placed := stack;
        status := AllIn;
      }
      stack := stack - placed;
      currentBet := currentBet + placed;
      totalBet := totalBet + placed;
    }

    method ResetForNewHand()
      modifies this
      ensures Value() == GameState.ResetForNewHand(old(Value()))
    {
      hole, status, currentBet, totalBet := (BLANK, BLANK), Active, 0, 0;
    }

    method ResetForNewRound()
      modifies this`currentBet
      ensures Value() == GameState.ResetForNewRound(old(Value()))
    {
      currentBet := 0;
    }
  }

  predicate Distinct(ps: seq<Player>) {
    forall i, j :: 0 <= i < j < |ps| ==> ps[i] != ps[j]
  }

  lemma Apart(ps: seq<Player>, i: nat)
    requires Distinct(ps) && i < |ps|
    ensures forall j :: 0 <= j < |ps| && j != i ==> ps[j] != ps[i]
  {
    forall j | 0 <= j < |ps| && j != i ensures ps[j] != ps[i] {
      assert ps[if i < j then i else j] != ps[if i < j then j else i];
    }
  }

  function Values(ps: seq<Player>): (r: seq<Seat>)
    reads ps
    ensures |r| == |ps| && forall i :: 0 <= i < |ps| ==> r[i] == ps[i].Value()
  {
    seq(|ps|, i requires 0 <= i < |ps| reads ps => ps[i].Value())
  }

  /** Changing one player changes one value. */
  lemma OneChanged(ps: seq<Player>, i: nat, before: seq<Seat>)
    requires i < |ps| && |before| == |ps|
    requires forall j :: 0 <= j < |ps| && j != i ==> ps[j].Value() == before[j]
    ensures Values(ps) == before[i := ps[i].Value()]
  {
  }

  class Machine {
    const ev: Evaluator
    const smallBlind: int
    const bigBlind: int
    const players: seq<Player>
    const dealer: nat
    var actionIdx: int
    var lastRaiser: int
    var phase: Phase
    var board: seq<Card>
    var deck: Option<seq<Card>>
    var pots: seq<Pot>
    var currentBet: int
    var minRaise: int
    var roundActions: nat
    var log: seq<Action>
    var payouts: map<string, int>

    function View(): Table
      reads this, players
    {
      Table(smallBlind, bigBlind, Values(players), dealer, actionIdx, lastRaiser, phase, board, deck, pots,
            currentBet, minRaise, roundActions, log, payouts)
    }

    /** NewGameState and NewMachine. */
    constructor (players: seq<Player>, dealer: nat, smallBlind: int, bigBlind: int)
      requires Distinct(players)
      modifies players
      ensures this.players == players && ev == BEST7
      ensures View() == NewTable(old(Values(players)), dealer, smallBlind, bigBlind)
    {
      this.ev, this.players, this.dealer, this.smallBlind, this.bigBlind := BEST7, players, dealer, smallBlind,
          bigBlind;
      actionIdx, lastRaiser, roundActions, phase := 0, 0, 0, Waiting;
      board, deck, pots, log, payouts := [], Some(NewDeck()), [], [], map[];
      currentBet, minRaise := 0, bigBlind;
      new;
      for i := 0 to |players|
        modifies players
        invariant forall j :: 0 <= j < |players| ==>
          players[j].Value() == if j < i then GameState.ResetForNewHand(old(players[j].Value()))
              else old(players[j].Value())
      {
        Apart(players, i);
        players[i].ResetForNewHand();
      }
      assert Values(players) == NewTable(old(Values(players)), dealer, smallBlind, bigBlind).seats;
    }

    // ------------------------------------------------------------------------ queries

    method CountCanAct() returns (n: nat)
      ensures n == Rules.CountCanAct(Values(players))
    {
      n := 0;
      var i := 0;
      while i < |players|
        invariant 0 <= i <= |players|
        invariant Rules.CountCanAct(Values(players)) == n + Rules.CountCanAct(Values(players)[i..])
      {
        assert Values(players)[i..][1..] == Values(players)[i + 1..];
        if players[i].status == Active {
          n := n + 1;
        }
        i := i + 1;
      }
    }

    method OnlyOneRemaining() returns (r: bool)
      ensures r == Rules.OnlyOneRemaining(View())
    {
      var n := 0;
      var i := 0;
      while i < |players|
        invariant 0 <= i <= |players|
        invariant CountInHand(Values(players)) == n + CountInHand(Values(players)[i..])
      {
        assert Values(players)[i..][1..] == Values(players)[i + 1..];
        if players[i].status != Folded && players[i].status != SittingOut {
          n := n + 1;
        }
        i := i + 1;
      }
      return n == 1;
    }

    method MissingRevealIDs() returns (ids: seq<string>)
      ensures ids == Rules.MissingRevealIDs(Values(players))
    {
      ids := [];
      var i := 0;
      while i < |players|
        invariant 0 <= i <= |players|
        invariant Rules.MissingRevealIDs(Values(players)) == ids + Rules.MissingRevealIDs(Values(players)[i..])
      {
        MissingFrom(Values(players), i);
        var p := players[i];
        if (p.status == Active || p.status == AllIn) && !(Dealt(p.hole.0) && Dealt(p.hole.1)) {
          ghost var rest := Rules.MissingRevealIDs(Values(players)[i + 1..]);
          assert ids + ([p.id] + rest) == (ids + [p.id]) + rest;
          ids := ids + [p.id];
        } else {
          assert [] + Rules.MissingRevealIDs(Values(players)[i + 1..])
              == Rules.MissingRevealIDs(Values(players)[i + 1..]);
        }
        i := i + 1;
      }
    }

    method NextActiveIndex(from: nat) returns (r: int)
      requires players != []
      ensures r == NextActive(Values(players), from)
    {
      var n := |players|;
      var i := 1;
      while i <= n
        invariant 1 <= i <= n + 1
        invariant NextActive(Values(players), from) == NextActiveFrom(Values(players), from, i)
      {
        if players[(from + i) % n].status == Active {
          return (from + i) % n;
        }
        i := i + 1;
      }
      return -1;
    }

    method SeatIndex(id: string) returns (r: int)
      ensures r == GameState.SeatIndex(Values(players), id)
      ensures -1 <= r < |players|
    {
      SeatIndexFromIs(Values(players), id, 0);
      var i := 0;
      while i < |players|
        invariant 0 <= i <= |players|
        invariant GameState.SeatIndex(Values(players), id) == SeatIndexFrom(Values(players), id, i)
      {
        if players[i].id == id {
          return i;
        }
        i := i + 1;
      }
      return -1;
    }

    method KnownDealtCards() returns (seen: set<Card>)
      ensures seen == KnownCards(View())
    {
      seen := {};
      var i := 0;
      while i < |board|
        invariant 0 <= i <= |board|
        invariant seen == DealtOf(board[..i])
      {
        if Dealt(board[i]) {
          seen := seen + {board[i]};
        }
        i := i + 1;
      }
      assert board[..|board|] == board;
      i := 0;
      while i < |players|
        invariant 0 <= i <= |players|
        invariant KnownCards(View()) == seen + DealtHoles(Values(players)[i..])
      {
        assert Values(players)[i..][1..] == Values(players)[i + 1..];
        var hole := players[i].hole;
        assert DealtOf([hole.0, hole.1])
            == (if Dealt(hole.0) then {hole.0} else {}) + (if Dealt(hole.1) then {hole.1} else {});
        if Dealt(hole.0) {
          seen := seen + {hole.0};
        }
        if Dealt(hole.1) {
          seen := seen + {hole.1};
        }
        i := i + 1;
      }
    }

    // ------------------------------------------------------------------ paying the pots

    method SevenOf(p: Player) returns (seven: seq<Card>)
      ensures seven == Seven(p.Value(), board)
    {
      seven := [p.hole.0, p.hole.1, BLANK, BLANK, BLANK, BLANK, BLANK];
      for i := 0 to |board|
        invariant |seven| == 7 && seven[0] == p.hole.0 && seven[1] == p.hole.1
        invariant forall k :: 2 <= k < 7 ==> seven[k] == if k - 2 < i then board[k - 2] else BLANK
      {
        if i + 2 < 7 {
          seven := seven[i + 2 := board[i]];
        }
      }
    }

    method FindCandidates(pot: Pot) returns (cands: seq<Entry>)
      ensures cands == Candidates(ev, Values(players), board, pot.eligible)
    {
      cands := [];
      var i := 0;
      ghost var seats, all := Values(players), Candidates(ev, Values(players), board, pot.eligible);
      assert pot.eligible[0..] == pot.eligible;
      while i < |pot.eligible|
        invariant 0 <= i <= |pot.eligible|
        invariant cands + Candidates(ev, seats, board, pot.eligible[i..]) == all
      {
        var idx := SeatIndex(pot.eligible[i]);
        CandidatesFrom(ev, seats, board, pot.eligible, i, idx);
        if idx != -1 && players[idx].status != Folded {
          var seven := SevenOf(players[idx]);
          cands := cands + [Entry(idx, ev(seven))];
        }
        i := i + 1;
      }
    }

    static method FindBest(cands: seq<Entry>) returns (best: Hand)
      requires cands != []
      ensures best == BestOf(cands[1..], cands[0].hand)
    {
      best := cands[0].hand;
      var i := 1;
      while i < |cands|
        invariant 1 <= i <= |cands|
        invariant BestOf(cands[1..], cands[0].hand) == BestOf(cands[i..], best)
      {
        MatchingFrom(cands, i, best);
        var c := CompareHands(cands[i].hand, best);
        if c > 0 {
          best := cands[i].hand;
        }
        i := i + 1;
      }
    }

    static method FindTies(cands: seq<Entry>, best: Hand) returns (winners: seq<nat>)
      ensures winners == Matching(cands, best)
    {
      winners := [];
      var i := 0;
      while i < |cands|
        invariant 0 <= i <= |cands|
        invariant Matching(cands, best) == winners + Matching(cands[i..], best)
      {
        MatchingFrom(cands, i, best);
        var c := CompareHands(cands[i].hand, best);
        if c == 0 {
          ghost var rest := Matching(cands[i + 1..], best);
          assert winners + ([cands[i].seat] + rest) == (winners + [cands[i].seat]) + rest;
          winners := winners + [cands[i].seat];
        } else {
          assert [] + Matching(cands[i + 1..], best) == Matching(cands[i + 1..], best);
        }
        i := i + 1;
      }
    }

    method PotWinners(pot: Pot) returns (winners: seq<nat>)
      ensures winners == Rules.PotWinners(ev, Values(players), board, pot.eligible)
    {
      var cands := FindCandidates(pot);
      if cands == [] {
        return [];
      }
      var best := FindBest(cands);
      winners := FindTies(cands, best);
    }

    method ClosestLeftOfDealer(winners: seq<nat>) returns (r: nat)
      requires winners != [] && forall k :: 0 <= k < |winners| ==> winners[k] < |players|
      ensures r == ClosestLeft(Values(players), dealer, winners)
    {
      var winSet: map<string, nat> := map[];
      var i := 0;
      while i < |winners|
        invariant 0 <= i <= |winners|
        invariant forall id ::
          WinnerWithID(Values(players), winners[..i], id) == if id in winSet then Some(winSet[id]) else None
      {
        assert winners[..i + 1][..i] == winners[..i];
        winSet := winSet[players[winners[i]].id := winners[i]];
        i := i + 1;
      }
      assert winners[..|winners|] == winners;
      var n := |players|;
      assert winners[0] < n;
      i := 1;
      while i <= n
        invariant 1 <= i <= n + 1
        invariant ClosestLeft(Values(players), dealer, winners) == ClosestFrom(Values(players), dealer, winners, i)
      {
        var id := players[(dealer + i) % n].id;
        assert Values(players)[Around(dealer, i, n)].id == id;
        if id in winSet {
          return winSet[id];
        }
        i := i + 1;
      }
      return winners[0];
    }

    method Pay(i: nat, x: int)
      requires Distinct(players) && i < |players|
      modifies this`payouts, players
      ensures Bank(Values(players), payouts) == PayOne(old(Bank(Values(players), payouts)), i, x)
    {
      var p := players[i];
      p.stack := p.stack + x;
      var paid := if p.id in payouts then payouts[p.id] else 0;
      payouts := payouts[p.id := paid + x];
    }

    method PayShares(winners: seq<nat>, share: int)
      requires Distinct(players) && forall k :: 0 <= k < |winners| ==> winners[k] < |players|
      modifies this`payouts, players
      ensures Bank(Values(players), payouts) == PayEach(old(Bank(Values(players), payouts)), winners, share)
    {
      ghost var start := Bank(Values(players), payouts);
      var i := 0;
      while i < |winners|
        invariant 0 <= i <= |winners|
        invariant PayEach(Bank(Values(players), payouts), winners[i..], share) == PayEach(start, winners, share)
      {
        assert winners[i..][1..] == winners[i + 1..];
        Pay(winners[i], share);
        i := i + 1;
      }
    }

    method SharePot(winners: seq<nat>, share: int, remainder: int)
      requires Distinct(players) && winners != [] && forall k :: 0 <= k < |winners| ==> winners[k] < |players|
      modifies this`payouts, players
      ensures Bank(Values(players), payouts)
          == PayWinners(dealer, old(Bank(Values(players), payouts)), winners, share, remainder)
    {
      PayShares(winners, share);
      if remainder > 0 {
        var closest := ClosestLeftOfDealer(winners);
        Pay(closest, remainder);
      }
    }

    method PayOnePot(pot: Pot)
      requires Distinct(players)
      modifies this`payouts, players
      ensures Bank(Values(players), payouts) == PayPot(ev, dealer, board, old(Bank(Values(players), payouts)), pot)
    {
      var winners := PotWinners(pot);
      if winners != [] {
        SharePot(winners, pot.amount / |winners|, pot.amount % |winners|);
      }
    }

    method DistributePots() returns (err: Option<GameError>)
      requires Distinct(players)
      modifies this, players
      ensures Outcome(View(), err) == Rules.DistributePots(ev, old(View()))
    {
      var missing := MissingRevealIDs();
      if deck.None? && missing != [] {
        return Some(HolesMissing);
      }
      ghost var start := Bank(Values(players), payouts);
      var i := 0;
      while i < |pots|
        invariant 0 <= i <= |pots|
        invariant View() == old(View()).(seats := Values(players), payouts := payouts)
        invariant PayPots(ev, dealer, board, Bank(Values(players), payouts), pots[i..]) ==
                  PayPots(ev, dealer, board, start, pots)
      {
        assert pots[i..][1..] == pots[i + 1..];
        PayOnePot(pots[i]);
        i := i + 1;
      }
      phase := Settled;
      return None;
    }

    method RefreshPots()
      modifies this`pots
      ensures View() == WithPots(old(View()))
    {
      pots := ComputePots(Values(players));
    }

    method StartShowdown() returns (err: Option<GameError>)
      requires Distinct(players)
      modifies this, players
      ensures Outcome(View(), err) == Rules.StartShowdown(ev, old(View()))
    {
      phase := Showdown;
      RefreshPots();
      var missing := MissingRevealIDs();
      if deck.None? && missing != [] {
        return None;
      }
      err := DistributePots();
    }

    method FirstRemaining() returns (r: Option<nat>)
      ensures r == FirstInHand(Values(players))
    {
      ghost var v := Values(players);
      var i := 0;
      while i < |players|
        invariant 0 <= i <= |players|
        invariant FirstInHand(v) == var r := FirstInHand(v[i..]); if r.None? then None else Some(r.value + i)
      {
        assert v[i..][1..] == v[i + 1..];
        if players[i].status != Folded && players[i].status != SittingOut {
          return Some(i);
        }
        i := i + 1;
      }
      return None;
    }

    method ResolveSingleWinner() returns (err: Option<GameError>)
      requires Distinct(players)
      modifies this, players
      ensures Outcome(View(), err) == Rules.ResolveSingleWinner(old(View()))
    {
      ghost var t0 := View();
      RefreshPots();
      ghost var t := View();
      var total := SumPots(pots);
      var winner := FirstRemaining();
      if winner.Some? {
        Pay(winner.value, total);
      }
      SingleWinnerLeads(t0, t, winner, total, Bank(Values(players), payouts));
      phase := Settled;
      return None;
    }

    // ------------------------------------------------------------------------ streets

    method Draw(toBoard: bool) returns (err: Option<GameError>)
      modifies this`deck, this`board
      ensures Outcome(View(), err) == DrawCard(old(View()), toBoard)
    {
      if deck.None? {
        return Some(NoDeck);
      }
      if deck.value == [] {
        return Some(EmptyDeck);
      }
      if toBoard {
        board := board + [deck.value[0]];
      }
      deck := Some(deck.value[1..]);
      return None;
    }

    method DrawForStreet(n: nat) returns (err: Option<GameError>)
      modifies this`deck, this`board
      ensures Outcome(View(), err) == DrawStreet(old(View()), n)
    {
      err := Draw(false);
      if err.Some? {
        return;
      }
      var i := 0;
      while i < n
        invariant 0 <= i <= n && err.None?
        invariant DrawStreet(old(View()), n) == DrawCards(View(), n - i)
      {
        err := Draw(true);
        if err.Some? {
          return;
        }
        i := i + 1;
      }
    }

    method EndBettingRound() returns (err: Option<GameError>)
      requires Distinct(players)
      modifies this, players
      ensures Outcome(View(), err) == Rules.EndBettingRound(ev, old(View()))
      decreases StreetsLeft(phase), 1
    {
      RefreshPots();
      if deck.None? {
        if phase == PreFlop || phase == Flop || phase == Turn {
          phase := AwaitingStreet;
          return None;
        }
        if phase == River {
          err := StartShowdown();
          return;
        }
        return Some(UnexpectedPhase);
      }
      if phase == PreFlop || phase == Flop || phase == Turn {
        err := DealNextStreet();
      } else if phase == River {
        err := StartShowdown();
      } else {
        err := None;
      }
    }

    method DealNextStreet() returns (err: Option<GameError>)
      requires Distinct(players) && (phase == PreFlop || phase == Flop || phase == Turn)
      modifies this, players
      ensures Outcome(View(), err) == DealStreet(ev, old(View()))
      decreases StreetsLeft(phase), 0
    {
      ghost var t := View();
      var n := if phase == PreFlop then 3 else 1;
      err := DrawForStreet(n);
      if err.Some? {
        return;
      }
      phase := NextStreet(phase);
      assert View() == DrawStreet(t, n).t.(phase := NextStreet(t.phase));
      err := StartNewBettingRound();
    }

    method ResetRoundBets()
      requires Distinct(players)
      modifies players
      ensures Values(players) == ResetBets(old(Values(players)))
    {
      for i := 0 to |players|
        invariant forall j :: 0 <= j < |players| ==>
          players[j].Value() == if j < i then ResetBets(old(Values(players)))[j] else old(players[j].Value())
      {
        Apart(players, i);
        if players[i].status == Active || players[i].status == AllIn {
          players[i].ResetForNewRound();
        }
      }
    }

    method ResetRound()
      requires Distinct(players)
      modifies this, players
      ensures View() == FreshRound(old(View()))
    {
      currentBet, minRaise, roundActions, lastRaiser := 0, bigBlind, 0, -1;
      ResetRoundBets();
    }

    method StartNewBettingRound() returns (err: Option<GameError>)
      requires Distinct(players)
      modifies this, players
      ensures Outcome(View(), err) == Rules.StartNewBettingRound(ev, old(View()))
      decreases StreetsLeft(phase), 2
    {
      ResetRound();
      var first := -1;
      if players != [] {
        first := NextActiveIndex(dealer);
      }
      if first == -1 {
        if deck.None? {
          err := EndBettingRound();
        } else {
          err := StartShowdown();
        }
        return;
      }
      actionIdx := first;
      var n := CountCanAct();
      if n <= 1 {
        err := EndBettingRound();
      } else {
        err := None;
      }
    }

    // ------------------------------------------------------------------------ actions

    method BettingRoundComplete(next: nat) returns (r: bool)
      requires next < |players|
      ensures r == RoundComplete(View(), next)
    {
      if players[next].currentBet < currentBet {
        return false;
      }
      if roundActions > 0 && next == lastRaiser {
        return true;
      }
      var active := CountCanAct();
      return roundActions >= active;
    }

    method AdvanceAction() returns (err: Option<GameError>)
      requires Distinct(players) && 0 <= actionIdx < |players|
      modifies this, players
      ensures Outcome(View(), err) == Rules.AdvanceAction(ev, old(View()))
    {
      var next := NextActiveIndex(actionIdx);
      if !(0 <= next < |players|) || players[next].status != Active {
        err := EndBettingRound();
        return;
      }
      var done := BettingRoundComplete(next);
      if done {
        err := EndBettingRound();
        return;
      }
      actionIdx := next;
      return None;
    }

    method BetBy(i: nat, amount: int) returns (placed: int)
      requires Distinct(players) && i < |players|
      modifies players
      ensures View() == Bet(old(View()), i, amount)
      ensures placed == Placed(old(players[i].Value()), amount)
    {
      ghost var before := Values(players);
      Apart(players, i);
      placed := players[i].PlaceBet(amount);
      OneChanged(players, i, before);
    }

    method CarryRaise(amount: int) returns (err: Option<GameError>)
      requires Distinct(players) && 0 <= actionIdx < |players|
      modifies this, players
      ensures Outcome(View(), err) == RaiseBy(old(View()), amount)
    {
      var current := players[actionIdx];
      var totalNeeded := currentBet - current.currentBet + amount;
      if amount < minRaise {
        return Some(RaiseTooSmall);
      }
      if totalNeeded > current.stack + current.currentBet {
        return Some(InsufficientStack);
      }
      minRaise := amount;
      currentBet := currentBet + amount;
      var _ := BetBy(actionIdx, totalNeeded);
      lastRaiser := actionIdx;
      return None;
    }

    method CarryAllIn()
      requires Distinct(players) && 0 <= actionIdx < |players|
      modifies this, players
      ensures View() == BetAll(old(View()))
    {
      var allin := players[actionIdx].stack;
      var total := players[actionIdx].currentBet + allin;
      if total > currentBet + allin {
        var raise := total - currentBet;
        if raise > minRaise {
          minRaise := raise;
        }
        currentBet := total;
        lastRaiser := actionIdx;
      }
      var _ := BetBy(actionIdx, allin);
    }

    /** The switch of ApplyAction. */
    method Carry(a: Action) returns (err: Option<GameError>)
      requires Distinct(players) && 0 <= actionIdx < |players|
      modifies this, players
      ensures Outcome(View(), err) == Perform(old(View()), a)
    {
      var current := players[actionIdx];
      var toCall := currentBet - current.currentBet;
      match a.kind
      case Fold =>
        ghost var before := Values(players);
        Apart(players, actionIdx);
        current.status := Folded;
        OneChanged(players, actionIdx, before);
        return None;
      case Check =>
        return if toCall != 0 then Some(CannotCheck) else None;
      case Call =>
        if toCall <= 0 {
          return Some(NothingToCall);
        }
        var _ := BetBy(actionIdx, toCall);
        return None;
      case Raise =>
        err := CarryRaise(a.amount);
      case GoAllIn =>
        CarryAllIn();
        return None;
      case Unknown =>
        return Some(UnknownAction);
    }

    method ApplyAction(a: Action) returns (err: Option<GameError>)
      requires Distinct(players)
      modifies this, players
      ensures Outcome(View(), err) == Rules.ApplyAction(ev, old(View()), a)
    {
      if phase == Showdown || phase == Settled || phase == Waiting || phase == AwaitingStreet {
        return Some(NotAllowedInPhase);
      }
      if !(0 <= actionIdx < |players|) {
        return Some(NoCurrentPlayer);
      }
      if players[actionIdx].id != a.player {
        return Some(NotYourTurn);
      }
      err := ApplyInTurn(a);
    }

    method ApplyInTurn(a: Action) returns (err: Option<GameError>)
      requires Distinct(players) && 0 <= actionIdx < |players|
      modifies this, players
      ensures Outcome(View(), err) == Act(ev, old(View()), a)
    {
      err := Carry(a);
      if err.None? {
        Record(a);
        err := SettleOrAdvance();
      }
    }

    method Record(a: Action)
      modifies this`log, this`roundActions
      ensures View() == Recorded(old(View()), a)
    {
      log := log + [a];
      roundActions := roundActions + 1;
    }

    method SettleOrAdvance() returns (err: Option<GameError>)
      requires Distinct(players) && 0 <= actionIdx < |players|
      modifies this, players
      ensures Outcome(View(), err) == AfterAction(ev, old(View()))
    {
      var one := OnlyOneRemaining();
      if one {
        err := ResolveSingleWinner();
      } else {
        err := AdvanceAction();
      }
    }

    // ------------------------------------------------------------------------ starting

    method BlindIndexes() returns (sbIdx: nat, bbIdx: nat)
      requires |players| >= 2 && dealer < |players|
      ensures sbIdx == SmallBlindIndex(View()) && bbIdx == BigBlindIndex(View())
      ensures sbIdx < |players| && bbIdx < |players|
    {
      var n := |players|;
      sbIdx, bbIdx := (dealer + 1) % n, (dealer + 2) % n;
      if n == 2 {
        sbIdx, bbIdx := dealer, (dealer + 1) % n;
      }
    }

    method PostAt(sbIdx: nat, bbIdx: nat)
      requires Distinct(players) && sbIdx < |players| && bbIdx < |players|
      modifies this`currentBet, this`log, players
      ensures View() == PostBlindsAt(old(View()), sbIdx, bbIdx)
    {
      var sbAmount := BetBy(sbIdx, smallBlind);
      var bbAmount := BetBy(bbIdx, bigBlind);
      currentBet := bbAmount;
      if sbAmount > currentBet {
        currentBet := sbAmount;
      }
      log := log + [Action(players[sbIdx].id, Raise, sbAmount), Action(players[bbIdx].id, Raise, bbAmount)];
    }

    method PostBlinds()
      requires Distinct(players) && |players| >= 2 && dealer < |players|
      modifies this`currentBet, this`log, players
      ensures View() == Rules.PostBlinds(old(View()))
    {
      var sbIdx, bbIdx := BlindIndexes();
      PostAt(sbIdx, bbIdx);
    }

    method HoleIndex(round: nat, i: nat) returns (idx: nat)
      requires round < 2 && i < |players|
      ensures idx == HoleSeat(dealer, HolePlace(round, i, |players|), |players|)
    {
      var n := |players|;
      var start := (dealer + 1) % n;
      WalkLeft(dealer, round, i, n);
      return (start + i) % n;
    }

    method DealOneHole(round: nat, i: nat)
      requires Distinct(players) && round < 2 && i < |players| && deck.Some? && deck.value != []
      modifies this`deck, players
      ensures View() == DealHole(old(View()), HolePlace(round, i, |players|))
    {
      var idx := HoleIndex(round, i);
      ghost var before := Values(players);
      Apart(players, idx);
      var c := deck.value[0];
      deck := Some(deck.value[1..]);
      var p := players[idx];
      p.hole := if round == 0 then (c, p.hole.1) else (p.hole.0, c);
      OneChanged(players, idx, before);
    }

    method DealRound(round: nat) returns (err: Option<GameError>)
      requires Distinct(players) && players != [] && deck.Some? && round < 2
      modifies this`deck, players
      ensures deck.Some?
      ensures var o := DealHolesFrom(old(View()), HolePlace(round, 0, |players|));
              if err.Some? then Outcome(View(), err) == o
                  else DealHolesFrom(View(), HolePlace(round + 1, 0, |players|)) == o
    {
      ghost var t, o := View(), DealHolesFrom(View(), HolePlace(round, 0, |players|));
      var i := 0;
      while i < |players|
        invariant 0 <= i <= |players| && deck.Some? && t == View()
        invariant DealHolesFrom(t, HolePlace(round, i, |players|)) == o
      {
        PlaceAfter(round, i, |players|);
        HolesStep(t, HolePlace(round, i, |players|), HolePlace(round, i + 1, |players|));
        if deck.value == [] {
          return Some(EmptyDeck);
        }
        DealOneHole(round, i);
        t, i := View(), i + 1;
      }
      RoundOver(round, i);
      return None;
    }

    method DealHoleCards() returns (err: Option<GameError>)
      requires Distinct(players) && players != [] && deck.Some?
      modifies this`deck, players
      ensures Outcome(View(), err) == DealHolesFrom(old(View()), 0)
    {
      err := DealRound(0);
      if err.None? {
        err := DealRound(1);
      }
    }

    method StartHand(shuffled: seq<Card>) returns (err: Option<GameError>)
      requires Distinct(players) && (dealer < |players| || |players| < 2)
      modifies this, players
      ensures Outcome(View(), err) == Rules.StartHand(old(View()), shuffled)
    {
      if phase != Waiting {
        return Some(UnexpectedPhase);
      }
      if |players| < 2 {
        return Some(TooFewSeats);
      }
      if deck.None? {
        return Some(NoDeck);
      }
      deck := Some(shuffled);
      PostBlinds();
      err := DealHoleCards();
      if err.None? {
        OpenTheHand();
      }
    }

    method OpenTheHand()
      requires |players| >= 2 && dealer < |players|
      modifies this
      ensures View() == OpenPreFlop(old(View()))
    {
      var _, bbIdx := BlindIndexes();
      actionIdx := NextActiveIndex(bbIdx);
      lastRaiser := bbIdx;
      roundActions := 0;
      phase := PreFlop;
    }

    method StartHandCrypto() returns (err: Option<GameError>)
      requires Distinct(players) && (dealer < |players| || |players| < 2)
      modifies this, players
      ensures Outcome(View(), err) == Rules.StartHandCrypto(old(View()))
    {
      if phase != Waiting {
        return Some(UnexpectedPhase);
      }
      if |players| < 2 {
        return Some(TooFewSeats);
      }
      if board != [] {
        return Some(BoardNotEmpty);
      }
      deck := None;
      PostBlinds();
      OpenTheHand();
      return None;
    }

    // --------------------------------------------------------------- cards as inputs

    method RefuseStreet(cards: seq<Card>) returns (err: Option<GameError>)
      ensures err == StreetRefusal(cards, KnownCards(View()))
    {
      var seen := KnownDealtCards();
      var i := 0;
      while i < |cards|
        invariant 0 <= i <= |cards|
        invariant StreetRefusal(cards, KnownCards(View())) == StreetRefusal(cards[i..], seen)
      {
        assert cards[i..][1..] == cards[i + 1..];
        if !Dealt(cards[i]) {
          return Some(NotDealt);
        }
        if cards[i] in seen {
          return Some(DuplicateCard);
        }
        seen := seen + {cards[i]};
        i := i + 1;
      }
      return None;
    }

    method ApplyStreet(cards: seq<Card>) returns (err: Option<GameError>)
      requires Distinct(players)
      modifies this, players
      ensures Outcome(View(), err) == Rules.ApplyStreet(ev, old(View()), cards)
    {
      if deck.Some? {
        return Some(NotCryptoMode);
      }
      if phase != AwaitingStreet {
        return Some(UnexpectedPhase);
      }
      var want := PendingStreetCount(|board|);
      if want == 0 {
        return Some(if |board| >= 5 then BoardComplete else UnexpectedBoard);
      }
      if |cards| != want {
        return Some(WrongCardCount);
      }
      err := RefuseStreet(cards);
      if err.Some? {
        return;
      }
      board := board + cards;
      phase := if |board| == 3 then Flop else if |board| == 4 then Turn else River;
      err := StartNewBettingRound();
    }

    method ApplyHoleReveal(id: string, cards: (Card, Card)) returns (err: Option<GameError>)
      requires Distinct(players)
      modifies this, players
      ensures Outcome(View(), err) == Rules.ApplyHoleReveal(ev, old(View()), id, cards)
    {
      if deck.Some? {
        return Some(NotCryptoMode);
      }
      if phase != Showdown {
        return Some(UnexpectedPhase);
      }
      var idx := SeatIndex(id);
      if idx == -1 {
        return Some(UnknownSeat);
      }
      var p := players[idx];
      if p.status != Active && p.status != AllIn {
        return Some(NotRemaining);
      }
      if !Dealt(cards.0) || !Dealt(cards.1) {
        return Some(NotDealt);
      }
      if cards.0 == cards.1 {
        return Some(DuplicateCard);
      }
      if Dealt(p.hole.0) && Dealt(p.hole.1) {
        if p.hole != cards {
          return Some(Equivocation);
        }
      } else {
        var seen := KnownDealtCards();
        if cards.0 in seen || cards.1 in seen {
          return Some(DuplicateCard);
        }
        ghost var before := Values(players);
        Apart(players, idx);
        p.hole := cards;
        OneChanged(players, idx, before);
      }
      var missing := MissingRevealIDs();
      if missing == [] {
        err := DistributePots();
      } else {
        err := None;
      }
    }
  }

  /** The place in the walk of the i-th card of a round. */
  function HolePlace(round: nat, i: nat, n: nat): nat {
    if round == 0 then i else if round == 1 then n + i else 2 * n + i
  }

  lemma RoundOver(round: nat, n: nat)
    requires round < 2
    ensures HolePlace(round, n, n) == HolePlace(round + 1, 0, n)
  {
  }

  lemma PlaceAfter(round: nat, i: nat, n: nat)
    requires round < 2 && i < n
    ensures HolePlace(round, i + 1, n) == HolePlace(round, i, n) + 1 && HolePlace(round, i, n) < 2 * n
  {
  }

  /** What resolveSingleWinner comes to, step by step. */
  lemma SingleWinnerLeads(t0: Table, t: Table, winner: Option<nat>, total: int, b: Bank)
    requires t == WithPots(t0) && winner == FirstInHand(t.seats) && total == TotalPot(t.pots)
    requires b == var paid := Bank(t.seats, t.payouts);
                  if winner.None? then paid else PayOne(paid, winner.value, total)
    ensures Rules.ResolveSingleWinner(t0)
        == Outcome(t.(seats := b.seats, payouts := b.payouts, phase := Settled), None)
  {
  }

  /** One turn of the loop of dealHoleCards. */
  lemma HolesStep(t: Table, place: nat, next: nat)
    requires t.deck.Some? && place < 2 * |t.seats| && next == place + 1
    ensures DealHolesFrom(t, place) == if t.deck.value == [] then Outcome(t, Some(EmptyDeck))
                                       else DealHolesFrom(DealHole(t, place), next)
  {
  }

  /** The walk of dealHoleCards visits the seat that HoleSeat names. */
  lemma WalkLeft(dealer: nat, round: nat, i: nat, n: nat)
    requires n > 0 && round < 2 && i < n
    ensures ((dealer + 1) % n + i) % n == HoleSeat(dealer, HolePlace(round, i, n), n)
  {
    CongMod(dealer + 1, n);
    CongAdd((dealer + 1) % n, dealer + 1, i, i, n);
    ModIs(HolePlace(round, i, n), n, round, i);
  }
}
