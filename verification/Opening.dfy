// How a hand opens (internal/game/machine.go:20-46, 269-320, 451-476): the blinds put the
// first actor at the head of the arc of seats that owe chips, in both dealing modes.
module Opening {
  import opened Cards
  import opened Conservation
  import opened GameState
  import opened Hand
  import opened Rounds
  import opened Rules
  import opened Wrappers

  /** A table before its hand: every seat in, nothing bet, sensible blinds. */
  predicate Ready(t: Table) {
    && t.phase == Waiting && t.board == [] && |t.seats| >= 2 && t.dealer < |t.seats| && DistinctIDs(t.seats)
    && 0 <= t.smallBlind <= t.bigBlind && 0 < t.bigBlind == t.minRaise
    && forall i :: 0 <= i < |t.seats| ==> Waits(t.seats[i])
  }

  predicate Waits(s: Seat) {
    s.status == Active && s.currentBet == 0 && s.totalBet == 0 && s.stack >= 0
  }

  lemma NewTableIsReady(seats: seq<Seat>, dealer: nat, sb: int, bb: int)
    requires |seats| >= 2 && dealer < |seats| && DistinctIDs(seats) && 0 <= sb <= bb && 0 < bb
    requires forall i :: 0 <= i < |seats| ==> seats[i].stack >= 0
    ensures Ready(NewTable(seats, dealer, sb, bb)) && Stacks(NewTable(seats, dealer, sb, bb).seats) == Stacks(seats)
  {
    SumSame(Stack, seats, NewTable(seats, dealer, sb, bb).seats);
  }

  /** The big blind sits next to the small blind. */
  lemma BlindsAdjacent(t: Table)
    requires |t.seats| >= 2 && t.dealer < |t.seats|
    ensures var n, sb, bb := |t.seats|, SmallBlindIndex(t), BigBlindIndex(t);
            0 <= sb < n && 0 <= bb < n && sb != bb && Gap(sb, bb, n) == 1
  {
    AroundIs(t.dealer, 1, |t.seats|);
    AroundIs(t.dealer, 2, |t.seats|);
  }

  // ---------------------------------------------------------------------- the blinds

  lemma PostIs(t: Table, sb: nat, bb: nat)
    requires Ready(t) && sb < |t.seats| && bb < |t.seats| && sb != bb
    ensures var p := PostBlindsAt(t, sb, bb);
            && p.seats[sb] == PlaceBet(t.seats[sb], t.smallBlind) && p.seats[bb] == PlaceBet(t.seats[bb], t.bigBlind)
            && (forall j :: 0 <= j < |t.seats| && j != sb && j != bb ==> p.seats[j] == t.seats[j])
            && p.currentBet == (if p.seats[sb].totalBet > p.seats[bb].totalBet then p.seats[sb].totalBet
                else p.seats[bb].totalBet)
            && p == t.(seats := p.seats, currentBet := p.currentBet, log := p.log)
  {
  }

  /** After the blinds the seats that owe chips are next in line. */
  lemma BlindsArc(t: Table, sb: nat, bb: nat) returns (e: int)
    requires Ready(t) && sb < |t.seats| && bb < |t.seats| && Gap(sb, bb, |t.seats|) == 1 && sb != bb
    ensures var p := PostBlindsAt(t, sb, bb).(actionIdx := bb); ArcPast(p, e) && Base(p, 0)
  {
    PostIs(t, sb, bb);
    var n, p := |t.seats|, PostBlindsAt(t, sb, bb).(actionIdx := bb);
    e := if p.currentBet == 0 then 1 else if p.seats[sb].currentBet == p.currentBet then n - 1 else n;
    forall j | 0 <= j < n ensures Gap(bb, j, n) == n <==> j == bb {
    }
    forall j | 0 <= j < n ensures Gap(bb, j, n) == n - 1 <==> j == sb {
    }
  }

  lemma {:induction false} AllInHand(seats: seq<Seat>)
    requires forall i :: 0 <= i < |seats| ==> InHand(seats[i])
    ensures CountInHand(seats) == |seats|
  {
    if seats != [] {
      assert forall i :: 0 <= i < |seats[1..]| ==> seats[1..][i] == seats[i + 1];
      AllInHand(seats[1..]);
    }
  }

  lemma {:induction false} NothingBet(seats: seq<Seat>)
    requires forall i :: 0 <= i < |seats| ==> Waits(seats[i])
    ensures TotalBets(seats) == 0
  {
    if seats != [] {
      assert forall i :: 0 <= i < |seats[1..]| ==> seats[1..][i] == seats[i + 1];
      NothingBet(seats[1..]);
    }
  }

  /** Posting the blinds moves chips from stacks to bets, and one blind holds the line. */
  lemma BlindsBacked(t: Table, sb: nat, bb: nat)
    requires Ready(t) && sb < |t.seats| && bb < |t.seats| && sb != bb
    ensures var p := PostBlindsAt(t, sb, bb);
            Backed(p.seats, p.currentBet) && Chips(p.seats) == Stacks(t.seats) && DistinctIDs(p.seats)
  {
    var p := PostBlindsAt(t, sb, bb);
    var one := Bet(t, sb, t.smallBlind).seats;
    PostIs(t, sb, bb);
    NothingBet(t.seats);
    ChipsMove(t.seats, sb, PlaceBet(t.seats[sb], t.smallBlind));
    ChipsMove(one, bb, PlaceBet(one[bb], t.bigBlind));
    AllInHand(p.seats);
    var u := if p.seats[sb].totalBet > p.seats[bb].totalBet then sb else bb;
    assert InHand(p.seats[u]) && p.seats[u].totalBet >= p.currentBet;
  }

  /** With three seats or more, the first actor has posted nothing, so a blind covers the line. */
  lemma BlindsCovered(t: Table, sb: nat, bb: nat, o: Table)
    requires Ready(t) && sb < |t.seats| && bb < |t.seats| && Gap(sb, bb, |t.seats|) == 1 && sb != bb
    requires SameStakes(PostBlindsAt(t, sb, bb).seats, o.seats) && o.currentBet == PostBlindsAt(t, sb, bb).currentBet
    requires o.actionIdx == NextActive(o.seats, bb)
    ensures Covered(o, o.currentBet)
  {
    var n, p := |t.seats|, PostBlindsAt(t, sb, bb);
    PostIs(t, sb, bb);
    AllInHand(p.seats);
    StakesCount(p.seats, o.seats);
    if n > 2 {
      var first := if bb + 1 < n then bb + 1 else 0;
      assert Gap(bb, first, n) == 1 && CanAct(o.seats[first]) && first != sb;
      NextActiveIs(o.seats, bb);
      var u := if p.seats[sb].totalBet > p.seats[bb].totalBet then sb else bb;
      assert Gap(bb, u, n) > 1;
      assert InHand(o.seats[u]) && o.seats[u].totalBet >= o.currentBet;
    }
  }

  lemma StakesArc(a: Table, b: Table, e: int)
    requires ArcPast(a, e) && Base(a, 0) && |a.seats| == |b.seats| && a.currentBet == b.currentBet
    requires a.actionIdx == b.actionIdx
    requires forall i :: 0 <= i < |a.seats| ==> b.seats[i] == a.seats[i].(hole := b.seats[i].hole)
    ensures ArcPast(b, e) && Base(b, 0)
  {
  }

  lemma OpeningArc(q: Table, e0: int, next: int) returns (e: int)
    requires 0 <= q.actionIdx < |q.seats| && ArcPast(q, e0) && Base(q, 0) && q.minRaise > 0
    requires next == NextActive(q.seats, q.actionIdx) && next != -1
    ensures TurnOf(q.(actionIdx := next), 0, e)
  {
    NextActiveIs(q.seats, q.actionIdx);
    ShiftArc(q, e0, next);
    e := if q.seats[next].currentBet < q.currentBet then e0 - Gap(q.actionIdx, next, |q.seats|) else 0;
  }

  /** The opening turn: b has the blinds posted, p perhaps the hole cards dealt as well. */
  lemma OpeningTurn(b: Table, bb: nat, e0: int, p: Table, o: Table) returns (e: int)
    requires bb < |b.seats| && ArcPast(b.(actionIdx := bb), e0) && Base(b, 0) && b.minRaise > 0
    requires Backed(b.seats, b.currentBet)
    requires SameButCards(b, p)
    requires o.seats == p.seats && o.currentBet == p.currentBet && o.minRaise == p.minRaise
    requires o.actionIdx == NextActive(p.seats, bb)
    requires Covered(o, o.currentBet)
    ensures o.actionIdx == -1 || BackedTurn(o, 0, e)
  {
    var q := p.(actionIdx := bb);
    StakesArc(b.(actionIdx := bb), q, e0);
    ToppedSame(b.seats, p.seats, p.currentBet);
    StakesCount(b.seats, p.seats);
    e := 0;
    if o.actionIdx != -1 {
      e := OpeningArc(q, e0, o.actionIdx);
    }
  }

  lemma ToppedSame(a: seq<Seat>, b: seq<Seat>, line: int)
    requires SameStakes(a, b) && Topped(a, line)
    ensures Topped(b, line)
  {
    var u :| 0 <= u < |a| && InHand(a[u]) && a[u].totalBet >= line;
    assert InHand(b[u]) && b[u].totalBet >= line;
  }

  // ------------------------------------------------------------------ both ways to start

  lemma OpenedConserves(t: Table, p: Table)
    requires Ready(t) && SameButCards(PostBlinds(t), p) && CardsFit(OpenPreFlop(p))
    ensures Conserving(OpenPreFlop(p), Stacks(t.seats)) && TurnsInOrder(OpenPreFlop(p))
  {
    BlindsAdjacent(t);
    BlindsBacked(t, SmallBlindIndex(t), BigBlindIndex(t));
    StakesChips(PostBlinds(t).seats, p.seats);
    StakesIDs(PostBlinds(t).seats, p.seats);
    var sb, bb, o := SmallBlindIndex(t), BigBlindIndex(t), OpenPreFlop(p);
    var e0 := BlindsArc(t, sb, bb);
    BlindsCovered(t, sb, bb, o);
    var e := OpeningTurn(PostBlinds(t), bb, e0, p, o);
    if OpenPreFlop(p).actionIdx != -1 {
      assert TurnOf(OpenPreFlop(p), 0, e);
    }
  }

  lemma StartCryptoConserves(t: Table)
    requires Ready(t)
    ensures var o := StartHandCrypto(t);
            && o.err.None? && CryptoMode(o.t)
            && TurnsInOrder(o.t) && Conserving(o.t, Stacks(t.seats))
  {
    var c := t.(deck := None);
    OpenedConserves(c, PostBlinds(c));
  }

  lemma {:induction false} HolesFit(t: Table, pos: nat)
    requires t.seats != [] && t.deck.Some? && pos <= 2 * |t.seats| && |t.deck.value| >= 2 * |t.seats| - pos
    ensures var o := DealHolesFrom(t, pos);
            o.err.None? && o.t.deck.Some? && |o.t.deck.value| == |t.deck.value| - (2 * |t.seats| - pos)
    decreases 2 * |t.seats| - pos
  {
    if pos < 2 * |t.seats| {
      HolesFit(DealHole(t, pos), pos + 1);
    }
  }

  /** What StartHand comes to when the deck suffices: the blinds, some hole cards, and the first turn. */
  lemma StartHandIs(t: Table, shuffled: seq<Card>, p: Table) returns (q: Table)
    requires Ready(t) && t.deck.Some? && |shuffled| >= 2 * |t.seats| && p == PostBlinds(t.(deck := Some(shuffled)))
    ensures |q.seats| == |t.seats| && q.dealer == t.dealer
    ensures SameButCards(p, q) && q.deck.Some? && |q.deck.value| == |shuffled| - 2 * |t.seats|
    ensures StartHand(t, shuffled) == Outcome(OpenPreFlop(q), None)
  {
    HolesFit(p, 0);
    DealHolesKeeps(p, 0);
    q := DealHolesFrom(p, 0).t;
  }

  lemma StartConserves(t: Table, shuffled: seq<Card>)
    requires Ready(t) && t.deck.Some? && |shuffled| >= 2 * |t.seats| + CardsNeeded(PreFlop)
    ensures var o := StartHand(t, shuffled);
            && o.err.None? && !CryptoMode(o.t)
            && TurnsInOrder(o.t) && Conserving(o.t, Stacks(t.seats))
  {
    var d := t.(deck := Some(shuffled));
    var q := StartHandIs(t, shuffled, PostBlinds(d));
    OpenedConserves(d, q);
  }

  /** Crypto mode: over any hand with funded raises, the stacks add up to what they were. */
  lemma CryptoHandConserves(ev: Evaluator, t: Table, inputs: seq<Input>)
    requires Ready(t)
    requires FundedRun(ev, StartHandCrypto(t).t, inputs)
    requires Run(ev, StartHandCrypto(t).t, inputs).phase == Settled
    ensures Stacks(Run(ev, StartHandCrypto(t).t, inputs).seats) == Stacks(t.seats)
  {
    StartCryptoConserves(t);
    RunConserves(ev, StartHandCrypto(t).t, inputs, Stacks(t.seats));
  }

  /** Plaintext mode, with a deck that can serve the table. */
  lemma PlaintextHandConserves(ev: Evaluator, t: Table, shuffled: seq<Card>, inputs: seq<Input>)
    requires Ready(t) && t.deck.Some? && |shuffled| >= 2 * |t.seats| + CardsNeeded(PreFlop)
    requires FundedRun(ev, StartHand(t, shuffled).t, inputs)
    requires Run(ev, StartHand(t, shuffled).t, inputs).phase == Settled
    ensures Stacks(Run(ev, StartHand(t, shuffled).t, inputs).seats) == Stacks(t.seats)
  {
    StartConserves(t, shuffled);
    RunConserves(ev, StartHand(t, shuffled).t, inputs, Stacks(t.seats));
  }
}
