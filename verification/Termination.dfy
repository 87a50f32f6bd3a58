// No hand goes on forever (internal/game/machine.go:48-146, 240-266): every accepted action
// or street uses up part of a finite supply.
module Termination {
  import opened Cards
  import opened Conservation
  import opened GameState
  import opened Hand
  import opened HandEval
  import opened Ledger
  import opened Rounds
  import opened Rules
  import opened Wrappers

  /** What a seat can still put in, and its right to act. */
  const Room: Seat -> int := (s: Seat) => if CanAct(s) then s.stack + 1 else 0

  /** Actions left before everyone has acted in the round. */
  function ToAct(t: Table): nat {
    if t.roundActions < |t.seats| then |t.seats| - t.roundActions else 0
  }

  /** Stages to the showdown and chips that can still be bet. */
  function Ahead(t: Table): int {
    if Stage(t) == 0 then 0 else SumOf(Room, t.seats) + Stage(t)
  }

  function Left(t: Table): nat {
    if Stage(t) == 0 then 0 else ToAct(t)
  }

  /** The lexicographic order that every accepted action or street descends. */
  predicate Below(r: Table, t: Table) {
    && |r.seats| == |t.seats| && 0 <= Ahead(r)
    && (Ahead(r) < Ahead(t) || (Ahead(r) == Ahead(t) && Left(r) < Left(t)))
  }

  /** A bound on how many steps that order leaves: a full round of checks for each unit ahead. */
  function Supply(t: Table): int {
    Ahead(t) * (|t.seats| + 1) + Left(t)
  }

  lemma {:induction false} RoomPositive(seats: seq<Seat>)
    requires Solvent(seats)
    ensures SumOf(Room, seats) >= 0
  {
    if seats != [] {
      assert forall i :: 0 <= i < |seats[1..]| ==> seats[1..][i] == seats[i + 1];
      RoomPositive(seats[1..]);
    }
  }

  /** A check needs a matched bet; any other accepted action uses up room. */
  lemma PerformUsesRoom(t: Table, a: Action, k: int, e: int)
    requires TurnOf(t, k, e) && Solvent(t.seats) && Perform(t, a).err.None?
    ensures var r := Perform(t, a).t;
            if a.kind == Check then r == t && AllMatched(t) else SumOf(Room, r.seats) < SumOf(Room, t.seats)
  {
    var i, r := t.actionIdx, Perform(t, a).t;
    if a.kind == GoAllIn {
      assert BetAll(t) == Bet(t, i, t.seats[i].stack);
    }
    if a.kind != Check {
      SumUpdate(Room, t.seats, i, r.seats[i]);
      assert r.seats == t.seats[i := r.seats[i]];
    }
  }

  /** A check that does not end the round leaves someone who has not acted. */
  lemma CheckKeepsSomeone(t: Table)
    requires 0 <= t.actionIdx < |t.seats| && AllMatched(t) && !EndsRound(t)
    ensures t.roundActions < |t.seats|
  {
    NextActiveIs(t.seats, t.actionIdx);
    CountCanActIs(t.seats);
  }

  lemma ExitUses(ev: Evaluator, t: Table, s: Table, o: Outcome, stage: nat)
    requires Kin(t, s) && RoundExit(ev, s, o) && Solvent(t.seats)
    requires o == StartShowdown(ev, s) || Stage(s) <= stage
    ensures 0 <= Ahead(o.t) <= SumOf(Room, t.seats) + stage && |o.t.seats| == |t.seats|
  {
    SumSame(Room, t.seats, s.seats);
    RoomPositive(t.seats);
    if o == StartShowdown(ev, s) {
      assert Stage(o.t) == 0;
    }
  }

  /** Every accepted action draws on the supply, and none of them fails half-way. */
  lemma ActionUses(ev: Evaluator, t: Table, a: Action, total: int)
    requires TurnsInOrder(t) && Tallied(t, total) && BettingPhase(t.phase) && 0 <= t.actionIdx < |t.seats|
    requires Perform(t, a).err.None?
    ensures Act(ev, t, a).err.None? && Below(Act(ev, t, a).t, t)
  {
    var k, e :| TurnOf(t, k, e);
    PerformUsesRoom(t, a, k, e);
    PerformTallies(t, a, k, e);
    PerformKeepsCards(t, a);
    var r := Recorded(Perform(t, a).t, a);
    RoundUses(ev, t, r);
  }

  lemma RoundUses(ev: Evaluator, t: Table, r: Table)
    requires BettingPhase(t.phase) && Solvent(t.seats) && Solvent(r.seats) && CardsFit(r)
    requires r.phase == t.phase && r.board == t.board && |r.seats| == |t.seats|
    requires 0 <= r.actionIdx < |r.seats| && r.roundActions == t.roundActions + 1
    requires SumOf(Room, r.seats) < SumOf(Room, t.seats) || (r.seats == t.seats && AllMatched(r))
    ensures AfterAction(ev, r).err.None? && Below(AfterAction(ev, r).t, t)
  {
    RoomPositive(t.seats);
    RoomPositive(r.seats);
    if !OnlyOneRemaining(r) {
      if EndsRound(r) {
        EndUses(ev, t, r);
      } else if r.seats == t.seats && AllMatched(r) {
        CheckKeepsSomeone(r);
      }
    }
  }

  lemma EndUses(ev: Evaluator, t: Table, r: Table)
    requires BettingPhase(t.phase) && Solvent(t.seats) && Solvent(r.seats) && CardsFit(r)
    requires r.phase == t.phase && r.board == t.board && |r.seats| == |t.seats|
    requires SumOf(Room, r.seats) <= SumOf(Room, t.seats)
    ensures EndBettingRound(ev, r).err.None? && Below(EndBettingRound(ev, r).t, t)
  {
    var s := EndShape(ev, r);
    ExitUses(ev, r, s, EndBettingRound(ev, r), Stage(r) - 1);
  }

  lemma StreetUses(ev: Evaluator, t: Table, cards: seq<Card>, total: int)
    requires TurnsInOrder(t) && Tallied(t, total) && ApplyStreet(ev, t, cards).err.None?
    ensures Below(ApplyStreet(ev, t, cards).t, t)
  {
    var board := t.board + cards;
    var s := t.(board := board, phase := if |board| == 3 then Flop else if |board| == 4 then Turn else River);
    var f := OpenShape(ev, s);
    assert Stage(s) + 1 == Stage(t);
    ExitUses(ev, s, f, StartNewBettingRound(ev, s), Stage(s));
  }

  lemma PayoutSettles(ev: Evaluator, t: Table)
    requires t.phase == Showdown
    ensures |DistributePots(ev, t).t.seats| == |t.seats| && Stage(DistributePots(ev, t).t) == 0
  {
  }

  /** A reveal is refused or sets one hand at the showdown, and may lead to the payout. */
  lemma ShowIs(ev: Evaluator, t: Table, id: string, hole: (Card, Card)) returns (u: Table)
    ensures u == t || (exists i :: 0 <= i < |t.seats| && u == t.(seats := t.seats[i := t.seats[i].(hole := hole)]))
    ensures |u.seats| == |t.seats| && u.phase == t.phase
    ensures var r := ApplyHoleReveal(ev, t, id, hole).t;
            r == t || (t.phase == Showdown && (r == u || r == DistributePots(ev, u).t))
  {
    SeatIndexFromIs(t.seats, id, 0);
    var idx := SeatIndex(t.seats, id);
    u := if 0 <= idx < |t.seats| && !HoleDealt(t.seats[idx])
         then t.(seats := t.seats[idx := t.seats[idx].(hole := hole)]) else t;
  }

  lemma ShowUses(ev: Evaluator, t: Table, id: string, hole: (Card, Card))
    ensures var r := ApplyHoleReveal(ev, t, id, hole).t;
            r == t || (Stage(r) == Stage(t) == 0 && |r.seats| == |t.seats|)
  {
    var u := ShowIs(ev, t, id, hole);
    if t.phase == Showdown {
      PayoutSettles(ev, u);
    }
  }

  /** How many of the inputs are actions or streets that the machine accepts. */
  function Accepted(ev: Evaluator, t: Table, inputs: seq<Input>): nat
    decreases |inputs|
  {
    if inputs == [] then 0 else
    var o := Step(ev, t, inputs[0]);
    (if o.err.None? && !inputs[0].Show? then 1 else 0) + Accepted(ev, o.t, inputs[1..])
  }

  /** However long the run, no more inputs are accepted than the supply at its start. */
  lemma {:induction false} RunIsBounded(ev: Evaluator, t: Table, inputs: seq<Input>, total: int)
    requires TurnsInOrder(t) && Tallied(t, total)
    ensures Accepted(ev, t, inputs) <= Supply(t)
    decreases |inputs|
  {
    RoomPositive(t.seats);
    SupplyPositive(t);
    if inputs != [] {
      var o := Step(ev, t, inputs[0]);
      RunTallies(ev, t, [inputs[0]], total);
      assert Run(ev, t, [inputs[0]]) == Run(ev, o.t, [inputs[0]][1..]) == o.t;
      RunIsBounded(ev, o.t, inputs[1..], total);
      StepUses(ev, t, inputs[0], total);
    }
  }

  lemma SupplyPositive(t: Table)
    requires Ahead(t) >= 0
    ensures Supply(t) >= 0
  {
    assert Ahead(t) * (|t.seats| + 1) >= 0;
  }

  lemma BelowCosts(r: Table, t: Table)
    requires Below(r, t)
    ensures Supply(r) < Supply(t)
  {
    var n, d := |t.seats| + 1, Ahead(t) - Ahead(r);
    assert Left(r) < n;
    assert Ahead(t) * n == Ahead(r) * n + d * n;
    if d >= 1 {
      assert d * n >= n;
    } else {
      assert d * n == 0;
    }
  }

  lemma StepUses(ev: Evaluator, t: Table, i: Input, total: int)
    requires TurnsInOrder(t) && Tallied(t, total)
    ensures var o := Step(ev, t, i);
            if o.err.None? && !i.Show? then Supply(o.t) < Supply(t) else Supply(o.t) <= Supply(t)
  {
    var o := Step(ev, t, i);
    if i.Show? {
      ShowUses(ev, t, i.id, i.hole);
    } else if o.err.None? {
      AcceptedUses(ev, t, i, total);
      BelowCosts(o.t, t);
    } else {
      RefusedKeeps(ev, t, i, total);
    }
  }

  lemma AcceptedUses(ev: Evaluator, t: Table, i: Input, total: int)
    requires TurnsInOrder(t) && Tallied(t, total) && Step(ev, t, i).err.None? && !i.Show?
    ensures Below(Step(ev, t, i).t, t)
  {
    match i
    case Play(a) => ActionUses(ev, t, a, total);
    case Street(cards) => StreetUses(ev, t, cards, total);
    case Show(id, hole) => assert false;
  }

  /** A refused action or street changes nothing. */
  lemma RefusedKeeps(ev: Evaluator, t: Table, i: Input, total: int)
    requires TurnsInOrder(t) && Tallied(t, total) && Step(ev, t, i).err.Some? && !i.Show?
    ensures Step(ev, t, i).t == t
  {
    match i
    case Play(a) =>
      if BettingPhase(t.phase) && 0 <= t.actionIdx < |t.seats| && t.seats[t.actionIdx].id == a.player {
        if Perform(t, a).err.None? {
          ActionUses(ev, t, a, total);
        }
      }
    case Street(cards) => StreetRefused(ev, t, cards, total);
    case Show(id, hole) => assert false;
  }

  lemma StreetRefused(ev: Evaluator, t: Table, cards: seq<Card>, total: int)
    requires TurnsInOrder(t) && Tallied(t, total) && ApplyStreet(ev, t, cards).err.Some?
    ensures ApplyStreet(ev, t, cards).t == t
  {
    if CryptoMode(t) && t.phase == AwaitingStreet && |cards| == PendingStreetCount(|t.board|) > 0
        && StreetRefusal(cards, KnownCards(t)).None? {
      var board := t.board + cards;
      var s := t.(board := board, phase := if |board| == 3 then Flop else if |board| == 4 then Turn else River);
      var f := OpenShape(ev, s);
      assert false;
    }
  }

  /** The seat whose turn it is can always act: folding is never refused. */
  lemma FoldIsAccepted(ev: Evaluator, t: Table, total: int)
    requires TurnsInOrder(t) && Tallied(t, total) && BettingPhase(t.phase) && 0 <= t.actionIdx < |t.seats|
    ensures ApplyAction(ev, t, Action(t.seats[t.actionIdx].id, Fold, 0)).err.None?
  {
    ActionUses(ev, t, Action(t.seats[t.actionIdx].id, Fold, 0), total);
  }
}
