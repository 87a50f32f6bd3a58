// Whose turn it is and when a betting round is over (internal/game/machine.go:120-146,
// 240-266): the seats that still owe chips sit in one arc that starts at the actor.
module Rounds {
  import opened GameState
  import opened ModArith
  import opened Rules
  import opened Wrappers

  // ------------------------------------------------------------------ around the table

  /** How many seats past a, 1 to n, one has to walk to reach j. */
  function Gap(a: int, j: int, n: int): int {
    if j > a then j - a else j - a + n
  }

  /** The same walk, 0 for a itself. */
  function After(a: int, j: int, n: int): int {
    if j >= a then j - a else j - a + n
  }

  lemma AroundIs(a: nat, i: nat, n: nat)
    requires a < n && 1 <= i <= n
    ensures 0 <= Around(a, i, n) < n && Gap(a, Around(a, i, n), n) == i
  {
    if a + i < n {
      ModIs(a + i, n, 0, a + i);
    } else {
      ModIs(a + i, n, 1, a + i - n);
    }
  }

  lemma {:induction false} NextActiveFromIs(seats: seq<Seat>, from: nat, i: nat)
    requires from < |seats| && 1 <= i <= |seats| + 1
    ensures var r := NextActiveFrom(seats, from, i);
            && (r == -1 ==> forall j :: 0 <= j < |seats| && Gap(from, j, |seats|) >= i ==> !CanAct(seats[j]))
            && (r != -1 ==> 0 <= r < |seats| && CanAct(seats[r]) && Gap(from, r, |seats|) >= i
                            && forall j :: 0 <= j < |seats| && CanAct(seats[j]) && Gap(from, j, |seats|) >= i ==>
                                 Gap(from, j, |seats|) >= Gap(from, r, |seats|))
    decreases |seats| + 1 - i
  {
    if i <= |seats| {
      AroundIs(from, i, |seats|);
      if !CanAct(seats[Around(from, i, |seats|)]) {
        NextActiveFromIs(seats, from, i + 1);
        assert forall j :: 0 <= j < |seats| && Gap(from, j, |seats|) == i ==> j == Around(from, i, |seats|);
      }
    }
  }

  /** nextActiveIndex finds the nearest seat that can act, itself last; -1 means there is none. */
  lemma NextActiveIs(seats: seq<Seat>, from: nat)
    requires from < |seats|
    ensures var r := NextActive(seats, from);
            && (r == -1 <==> forall j :: 0 <= j < |seats| ==> !CanAct(seats[j]))
            && (r != -1 ==> 0 <= r < |seats| && CanAct(seats[r])
                            && forall j :: 0 <= j < |seats| && CanAct(seats[j]) ==>
                                Gap(from, j, |seats|) >= Gap(from, r, |seats|))
  {
    NextActiveFromIs(seats, from, 1);
  }

  // ------------------------------------------------------------------------- counting

  lemma {:induction false} CountCanActIs(seats: seq<Seat>)
    ensures CountCanAct(seats) <= |seats|
    ensures CountCanAct(seats) >= 1 <==> exists j :: 0 <= j < |seats| && CanAct(seats[j])
  {
    if seats != [] {
      CountCanActIs(seats[1..]);
      assert forall j :: 0 <= j < |seats[1..]| ==> seats[1..][j] == seats[j + 1];
      if j :| 0 <= j < |seats| && CanAct(seats[j]) {
        assert j > 0 ==> seats[1..][j - 1] == seats[j];
      }
    }
  }

  lemma {:induction false} AnotherCanAct(seats: seq<Seat>, i: nat) returns (j: nat)
    requires i < |seats| && CountCanAct(seats) >= 2
    ensures j < |seats| && j != i && CanAct(seats[j])
  {
    if i == 0 || !CanAct(seats[0]) {
      CountCanActIs(seats[1..]);
      var k :| 0 <= k < |seats[1..]| && CanAct(seats[1..][k]);
      j := k + 1;
      if j == i {
        var k := AnotherCanAct(seats[1..], i - 1);
        j := k + 1;
      }
    } else {
      j := 0;
    }
  }

  // ---------------------------------------------------------------------- the invariant

  /** The seats that can act and have not matched the bet are those fewer than e past the actor. */
  predicate Arc(t: Table, e: int) {
    && 0 <= e <= |t.seats|
    && forall j :: 0 <= j < |t.seats| && CanAct(t.seats[j]) ==>
         if After(t.actionIdx, j, |t.seats|) < e then t.seats[j].currentBet < t.currentBet
         else t.seats[j].currentBet == t.currentBet
  }

  /** The same once the actor has acted, seen from the seats that come next. */
  predicate ArcPast(t: Table, e: int) {
    && 1 <= e <= |t.seats|
    && forall j :: 0 <= j < |t.seats| && CanAct(t.seats[j]) ==>
         if Gap(t.actionIdx, j, |t.seats|) < e then t.seats[j].currentBet < t.currentBet
         else t.seats[j].currentBet == t.currentBet
  }

  predicate AllMatched(t: Table) {
    forall j :: 0 <= j < |t.seats| && CanAct(t.seats[j]) ==> t.seats[j].currentBet == t.currentBet
  }

  /** Seats that can act have put in the same amount, k, in the earlier rounds. */
  predicate Base(t: Table, k: int) {
    forall j :: 0 <= j < |t.seats| && CanAct(t.seats[j]) ==> t.seats[j].totalBet == k + t.seats[j].currentBet
  }

  /** Between rounds: seats that can act have all put in k. */
  predicate Level(t: Table, k: int) {
    forall j :: 0 <= j < |t.seats| && CanAct(t.seats[j]) ==> t.seats[j].totalBet == k
  }

  /** It is the turn of a seat that can act, in a round over base k. */
  predicate TurnOf(t: Table, k: int, e: int) {
    && 0 <= t.actionIdx < |t.seats| && CanAct(t.seats[t.actionIdx])
    && t.minRaise > 0
    && Arc(t, e) && Base(t, k)
  }

  // -------------------------------------------------------------------------- one action

  lemma BetKeepsArc(t: Table, amount: int, k: int, e: int)
    requires TurnOf(t, k, e) && amount == t.currentBet - t.seats[t.actionIdx].currentBet
    ensures ArcPast(Bet(t, t.actionIdx, amount), if e == 0 then 1 else e) && Base(Bet(t, t.actionIdx, amount), k)
  {
  }

  lemma RaiseMovesArc(t: Table, amount: int, k: int, e: int)
    requires TurnOf(t, k, e) && RaiseBy(t, amount).err.None?
    ensures ArcPast(RaiseBy(t, amount).t, |t.seats|) && Base(RaiseBy(t, amount).t, k)
  {
  }

  /** An accepted action leaves an arc of debtors that starts at the next seat. */
  lemma PerformKeepsArc(t: Table, a: Action, k: int, e: int) returns (e': int)
    requires TurnOf(t, k, e) && Perform(t, a).err.None?
    ensures var r := Perform(t, a).t;
            ArcPast(r, e') && Base(r, k) && r.minRaise > 0 && r.actionIdx == t.actionIdx && |r.seats| == |t.seats|
  {
    e' := if e == 0 then 1 else e;
    match a.kind
    case Fold =>
    case Check =>
    case Call =>
      BetKeepsArc(t, t.currentBet - t.seats[t.actionIdx].currentBet, k, e);
    case Raise =>
      RaiseMovesArc(t, a.amount, k, e);
      e' := |t.seats|;
    case GoAllIn =>
      assert BetAll(t) == Bet(t, t.actionIdx, t.seats[t.actionIdx].stack);
    case Unknown =>
      assert false;
  }

  lemma ShiftArc(t: Table, e: int, next: nat)
    requires 0 <= t.actionIdx < |t.seats| && ArcPast(t, e) && next < |t.seats| && CanAct(t.seats[next])
    requires forall j :: 0 <= j < |t.seats| && CanAct(t.seats[j]) ==>
               Gap(t.actionIdx, j, |t.seats|) >= Gap(t.actionIdx, next, |t.seats|)
    ensures t.seats[next].currentBet >= t.currentBet ==> AllMatched(t)
    ensures t.seats[next].currentBet < t.currentBet ==>
              Arc(t.(actionIdx := next), e - Gap(t.actionIdx, next, |t.seats|))
  {
    var n, a := |t.seats|, t.actionIdx;
    forall j | 0 <= j < n && CanAct(t.seats[j]) ensures After(next, j, n) == Gap(a, j, n) - Gap(a, next, n) {
    }
  }

  /**
   * A betting round ends only when every seat that can act has matched the bet; and while
   * it goes on, the turn passes to a seat for which the invariant holds again.
   */
  lemma RoundEndsMatched(t: Table, k: int, e: int) returns (e': int)
    requires 0 <= t.actionIdx < |t.seats| && ArcPast(t, e) && Base(t, k) && t.minRaise > 0
    ensures EndsRound(t) ==> AllMatched(t) && Level(t, k + t.currentBet)
    ensures !EndsRound(t) ==> TurnOf(t.(actionIdx := NextActive(t.seats, t.actionIdx)), k, e')
  {
    var next := NextActive(t.seats, t.actionIdx);
    NextActiveIs(t.seats, t.actionIdx);
    e' := 0;
    if next != -1 {
      ShiftArc(t, e, next);
      e' := if t.seats[next].currentBet < t.currentBet then e - Gap(t.actionIdx, next, |t.seats|) else 0;
    }
  }
}
