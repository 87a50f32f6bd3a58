// Who gets to act before a betting round is closed (internal/game/machine.go:40-44, 120-156, 240-266).
module StreetEnds {
  import opened Cards
  import opened GameState
  import opened Hand
  import opened Ledger
  import opened Opening
  import opened Rounds
  import opened Rules
  import opened WholeHand
  import opened Wrappers

  // ------------------------------------------------------------- the actions of a round

  /** The action is in turn and carried out. */
  predicate Takes(t: Table, a: Action) {
    && BettingPhase(t.phase) && 0 <= t.actionIdx < |t.seats| && t.seats[t.actionIdx].id == a.player
    && Perform(t, a).err.None?
  }

  function PassTurn(t: Table): Table
    requires 0 <= t.actionIdx < |t.seats|
  {
    t.(actionIdx := NextActive(t.seats, t.actionIdx))
  }

  /** The table after actions of one round. */
  function AfterTurns(t: Table, xs: seq<Action>): Table {
    if xs == [] then t else
    var s := AfterTurns(t, xs[..|xs| - 1]);
    if 0 <= s.actionIdx < |s.seats| then PassTurn(Enact(s, xs[|xs| - 1])) else s
  }

  /** All actions are accepted and none of them ends the round or the hand. */
  predicate Within(t: Table, xs: seq<Action>) {
    xs == [] ||
    (&& Within(t, xs[..|xs| - 1])
     && var s := AfterTurns(t, xs[..|xs| - 1]);
       && Takes(s, xs[|xs| - 1])
       && var r := Enact(s, xs[|xs| - 1]); !OnlyOneRemaining(r) && !EndsRound(r))
  }

  /** The last of the actions ends the round, and no earlier one does. */
  predicate Closes(t: Table, xs: seq<Action>) {
    && xs != [] && Within(t, xs[..|xs| - 1])
    && var s := AfterTurns(t, xs[..|xs| - 1]);
      && Takes(s, xs[|xs| - 1])
      && var r := Enact(s, xs[|xs| - 1]); !OnlyOneRemaining(r) && EndsRound(r)
  }

  /** The table on which the round is over. */
  function Closing(t: Table, xs: seq<Action>): Table
    requires Closes(t, xs)
  {
    Enact(AfterTurns(t, xs[..|xs| - 1]), xs[|xs| - 1])
  }

  /** The seats that have had the turn. */
  function Acted(t: Table, xs: seq<Action>): set<int> {
    if xs == [] then {} else Acted(t, xs[..|xs| - 1]) + {AfterTurns(t, xs[..|xs| - 1]).actionIdx}
  }

  predicate Raised(xs: seq<Action>) {
    exists i :: 0 <= i < |xs| && xs[i].kind == Raise
  }

  function Plays(xs: seq<Action>): seq<Input> {
    seq(|xs|, i requires 0 <= i < |xs| => Play(xs[i]))
  }

  /** These are the machine's own steps. */
  lemma {:induction false} TurnsAreRun(ev: Evaluator, t: Table, xs: seq<Action>)
    requires Within(t, xs)
    ensures Run(ev, t, Plays(xs)) == AfterTurns(t, xs)
  {
    if xs != [] {
      var front, last := xs[..|xs| - 1], Play(xs[|xs| - 1]);
      TurnsAreRun(ev, t, front);
      PlaysSnoc(xs, front);
      RunSplits(ev, t, Plays(front), [last]);
      TurnIsStep(ev, AfterTurns(t, front), xs[|xs| - 1], AfterTurns(t, xs));
    }
  }

  lemma PlaysSnoc(xs: seq<Action>, front: seq<Action>)
    requires xs != [] && front == xs[..|xs| - 1]
    ensures Plays(xs) == Plays(front) + [Play(xs[|xs| - 1])]
  {
  }

  lemma TurnIsStep(ev: Evaluator, s: Table, a: Action, r: Table)
    requires Takes(s, a) && !OnlyOneRemaining(Enact(s, a)) && !EndsRound(Enact(s, a)) && r == PassTurn(Enact(s, a))
    ensures Run(ev, s, [Play(a)]) == r
  {
    assert Step(ev, s, Play(a)).t == r;
    assert Run(ev, s, [Play(a)]) == Run(ev, r, [Play(a)][1..]);
  }

  /** And the closing action leads to the machine's end of the round. */
  lemma CloseIsEnd(ev: Evaluator, t: Table, xs: seq<Action>)
    requires Closes(t, xs)
    ensures var front := xs[..|xs| - 1];
            && Run(ev, t, Plays(front)) == AfterTurns(t, front)
            && ApplyAction(ev, AfterTurns(t, front), xs[|xs| - 1]) == EndBettingRound(ev, Closing(t, xs))
  {
    TurnsAreRun(ev, t, xs[..|xs| - 1]);
  }

  // ------------------------------------------------------------------------ one action

  /** What an accepted action changes, in turn. */
  lemma EnactIs(s: Table, a: Action, k: int, e: int)
    requires TurnOf(s, k, e) && Perform(s, a).err.None?
    ensures var i, r := s.actionIdx, Enact(s, a);
            && r.seats == s.seats[i := r.seats[i]] && r.roundActions == s.roundActions + 1
            && (if a.kind == Raise then r.currentBet > s.currentBet && r.lastRaiser == i
                else r.currentBet == s.currentBet && r.lastRaiser == s.lastRaiser)
            && (a.kind == Check ==> r.seats == s.seats && s.seats[i].currentBet == s.currentBet)
            && (a.kind == Fold || a.kind == GoAllIn ==> !CanAct(r.seats[i]))
            && (a.kind == Call ==> s.seats[i].currentBet < s.currentBet)
            && a.kind != Unknown
            && r.actionIdx == i && r.phase == s.phase && r.dealer == s.dealer
  {
    if a.kind == GoAllIn {
      assert BetAll(s) == Bet(s, s.actionIdx, s.seats[s.actionIdx].stack);
    }
  }

  lemma PassKeeps(s: Table, a: Action, k: int, e: int) returns (e': int)
    requires TurnOf(s, k, e) && Perform(s, a).err.None?
    ensures EndsRound(Enact(s, a)) ==> AllMatched(Enact(s, a))
    ensures !EndsRound(Enact(s, a)) ==> TurnOf(PassTurn(Enact(s, a)), k, e')
  {
    var e1 := PerformKeepsArc(s, a, k, e);
    e' := RoundEndsMatched(Enact(s, a), k, e1);
  }

  /** What holds while a round that opened at t goes on. */
  predicate Course(t: Table, xs: seq<Action>, s: Table) {
    && |s.seats| == |t.seats| && s.phase == t.phase && s.dealer == t.dealer
    && s.roundActions == t.roundActions + |xs| && s.currentBet >= t.currentBet
    && (if Raised(xs) then s.currentBet > t.currentBet
        else s.currentBet == t.currentBet && s.lastRaiser == t.lastRaiser)
    && forall j :: 0 <= j < |t.seats| && j !in Acted(t, xs) ==> s.seats[j] == t.seats[j]
  }

  lemma RaisedSnoc(xs: seq<Action>, x: Action)
    ensures Raised(xs + [x]) <==> Raised(xs) || x.kind == Raise
  {
    if Raised(xs) {
      var i :| 0 <= i < |xs| && xs[i].kind == Raise;
      assert (xs + [x])[i].kind == Raise;
    }
    if x.kind == Raise {
      assert (xs + [x])[|xs|].kind == Raise;
    }
  }

  lemma CourseSteps(t: Table, xs: seq<Action>, x: Action, s: Table, k: int, e: int)
    requires Course(t, xs, s) && s == AfterTurns(t, xs) && TurnOf(s, k, e) && Perform(s, x).err.None?
    ensures Course(t, xs + [x], Enact(s, x))
  {
    EnactIs(s, x, k, e);
    RaisedSnoc(xs, x);
    assert (xs + [x])[..|xs|] == xs;
  }

  lemma {:induction false} TurnsKeepCourse(t: Table, xs: seq<Action>, k: int, e: int) returns (e': int)
    requires TurnOf(t, k, e) && Within(t, xs)
    ensures Course(t, xs, AfterTurns(t, xs)) && TurnOf(AfterTurns(t, xs), k, e')
  {
    e' := e;
    if xs != [] {
      var front, x := xs[..|xs| - 1], xs[|xs| - 1];
      var e0 := TurnsKeepCourse(t, front, k, e);
      var s := AfterTurns(t, front);
      CourseSteps(t, front, x, s, k, e0);
      assert front + [x] == xs;
      e' := PassKeeps(s, x, k, e0);
    }
  }

  /**
   * When a betting round is closed, a seat that can act and has not had the turn has matched
   * the bet from the start, and nobody has raised.
   */
  lemma UnactedWasMatched(t: Table, xs: seq<Action>, k: int, e: int)
    requires TurnOf(t, k, e) && Closes(t, xs)
    ensures Course(t, xs, Closing(t, xs))
    ensures forall j :: 0 <= j < |t.seats| && CanAct(Closing(t, xs).seats[j]) && j !in Acted(t, xs) ==>
              !Raised(xs) && t.seats[j].currentBet == t.currentBet
  {
    var front, x := xs[..|xs| - 1], xs[|xs| - 1];
    var e0 := TurnsKeepCourse(t, front, k, e);
    var s := AfterTurns(t, front);
    CourseSteps(t, front, x, s, k, e0);
    assert front + [x] == xs;
    var _ := PassKeeps(s, x, k, e0);
  }

  // ------------------------------------------------------------- a round without a raise

  function ActiveSet(seats: seq<Seat>): set<int> {
    set j | 0 <= j < |seats| && CanAct(seats[j])
  }

  lemma {:induction false} CountSnoc(seats: seq<Seat>, x: Seat)
    ensures CountCanAct(seats + [x]) == CountCanAct(seats) + (if CanAct(x) then 1 else 0)
  {
    if seats == [] {
      assert ([] + [x])[1..] == [];
    } else {
      assert (seats + [x])[1..] == seats[1..] + [x];
      CountSnoc(seats[1..], x);
    }
  }

  lemma {:induction false} CountIsSize(seats: seq<Seat>)
    ensures CountCanAct(seats) == |ActiveSet(seats)|
  {
    if seats == [] {
      assert ActiveSet(seats) == {};
    } else {
      var front, k := seats[..|seats| - 1], |seats| - 1;
      CountIsSize(front);
      CountSnoc(front, seats[k]);
      ActiveSnoc(front, seats[k]);
      assert front + [seats[k]] == seats;
    }
  }

  lemma ActiveSnoc(seats: seq<Seat>, x: Seat)
    ensures |ActiveSet(seats + [x])| == |ActiveSet(seats)| + (if CanAct(x) then 1 else 0)
  {
    var all := seats + [x];
    assert forall j :: 0 <= j < |seats| ==> all[j] == seats[j];
    assert ActiveSet(all) == ActiveSet(seats) + if CanAct(x) then {|seats|} else {};
  }

  lemma SubsetSize(a: set<int>, b: set<int>)
    requires a <= b
    ensures |a| <= |b| && (|a| == |b| <==> a == b)
  {
    assert b == a + (b - a);
  }

  /** With nothing bet, a round is over once there have been as many actions as there are seats left to act. */
  lemma EndsByCount(r: Table)
    requires 0 <= r.actionIdx < |r.seats| && AllMatched(r) && r.lastRaiser == -1
    ensures EndsRound(r) <==> r.roundActions >= |ActiveSet(r.seats)|
  {
    CountIsSize(r.seats);
    NextActiveIs(r.seats, r.actionIdx);
    CountCanActIs(r.seats);
  }

  /** Walking on from i, the seats beyond i come before those already passed. */
  lemma GapFrom(d: int, i: int, j: int, n: int)
    requires 0 <= d < n && 0 <= i < n && 0 <= j < n && i != j
    ensures Gap(i, j, n) == Gap(d, j, n) - Gap(d, i, n) + if Gap(d, j, n) > Gap(d, i, n) then 0 else n
  {
  }

  /** The seats that have had the turn are those before the one that has it, each once. */
  predicate InOrder(t: Table, xs: seq<Action>, at: int)
    requires t.dealer < |t.seats|
  {
    && Acted(t, xs) <= ActiveSet(t.seats) && |Acted(t, xs)| == |xs| && at in ActiveSet(t.seats)
    && forall j :: j in ActiveSet(t.seats) ==>
         (j in Acted(t, xs) <==> Gap(t.dealer, j, |t.seats|) < Gap(t.dealer, at, |t.seats|))
  }

  /** The turn passes to the nearest seat that has not had it, as long as there is one. */
  lemma NextUnacted(t: Table, done: set<int>, i: int, r: Table)
    requires t.dealer < |t.seats| == |r.seats| && 0 <= i < |t.seats| && r.actionIdx == i
    requires i in done && done <= ActiveSet(t.seats) && |done| < |ActiveSet(r.seats)|
    requires forall j :: j in ActiveSet(t.seats) ==>
               (j in done <==> Gap(t.dealer, j, |t.seats|) <= Gap(t.dealer, i, |t.seats|))
    requires forall j :: 0 <= j < |t.seats| && j !in done ==> r.seats[j] == t.seats[j]
    ensures var next := NextActive(r.seats, i);
            && next in ActiveSet(t.seats) && next !in done
            && forall j :: j in ActiveSet(t.seats) ==>
                 (j in done <==> Gap(t.dealer, j, |t.seats|) < Gap(t.dealer, next, |t.seats|))
  {
    var n, next := |t.seats|, NextActive(r.seats, i);
    if ActiveSet(r.seats) <= done {
      SubsetSize(ActiveSet(r.seats), done);
    }
    var j0 :| j0 in ActiveSet(r.seats) && j0 !in done;
    NextActiveIs(r.seats, i);
    assert j0 in ActiveSet(t.seats);
    GapFrom(t.dealer, i, j0, n);
    if next != i {
      GapFrom(t.dealer, i, next, n);
    }
    forall j | j in ActiveSet(t.seats) && j !in done
      ensures Gap(t.dealer, j, n) >= Gap(t.dealer, next, n)
    {
      assert CanAct(r.seats[j]);
      GapFrom(t.dealer, i, j, n);
    }
  }

  /** The first m actions, or all if they are fewer, are checks. */
  predicate AllChecks(xs: seq<Action>, m: int) {
    forall i :: 0 <= i < |xs| && i < m ==> xs[i].kind == Check
  }

  /** What a round without a raise leaves of the seats. */
  predicate Quiet(t: Table, xs: seq<Action>, r: Table) {
    && AllMatched(r) && ActiveSet(r.seats) <= ActiveSet(t.seats)
    && (if AllChecks(xs, |xs|) then r.seats == t.seats else ActiveSet(r.seats) != ActiveSet(t.seats))
  }

  lemma QuietSteps(t: Table, xs: seq<Action>, x: Action, s: Table, k: int, e: int)
    requires Quiet(t, xs, s) && TurnOf(s, k, e) && Perform(s, x).err.None? && x.kind != Raise
    requires |s.seats| == |t.seats|
    ensures Quiet(t, xs + [x], Enact(s, x))
  {
    var i, r := s.actionIdx, Enact(s, x);
    EnactIs(s, x, k, e);
    assert x.kind != Call;
    assert (xs + [x])[|xs|] == x && forall j :: 0 <= j < |xs| ==> (xs + [x])[j] == xs[j];
    if x.kind != Check {
      assert i in ActiveSet(s.seats) && i !in ActiveSet(r.seats);
      assert !AllChecks(xs + [x], |xs + [x]|);
    }
    assert ActiveSet(r.seats) <= ActiveSet(s.seats);
  }

  lemma ActedSnoc(t: Table, xs: seq<Action>, x: Action, at: int)
    requires t.dealer < |t.seats| && InOrder(t, xs, at) && AfterTurns(t, xs).actionIdx == at
    ensures var done := Acted(t, xs + [x]);
            && done == Acted(t, xs) + {at} && |done| == |xs| + 1 && done <= ActiveSet(t.seats)
            && forall j :: j in ActiveSet(t.seats) ==>
                 (j in done <==> Gap(t.dealer, j, |t.seats|) <= Gap(t.dealer, at, |t.seats|))
  {
    assert (xs + [x])[..|xs|] == xs;
    forall j | j in ActiveSet(t.seats) && Gap(t.dealer, j, |t.seats|) == Gap(t.dealer, at, |t.seats|)
      ensures j == at
    {
    }
  }

  /** A betting round opens with nothing bet. */
  lemma FreshIsMatched(t: Table)
    requires FreshTurn(t)
    ensures AllMatched(t)
  {
  }

  lemma OpensInOrder(t: Table)
    requires FreshTurn(t) && t.dealer < |t.seats|
    ensures InOrder(t, [], t.actionIdx)
  {
    NextActiveIs(t.seats, t.dealer);
  }

  /** One more action in a round without a raise. */
  lemma QuietTurn(t: Table, xs: seq<Action>, x: Action, s: Table, k: int, e: int)
    requires FreshTurn(t) && t.dealer < |t.seats| && s == AfterTurns(t, xs) && TurnOf(s, k, e)
    requires InOrder(t, xs, s.actionIdx) && Quiet(t, xs, s) && Course(t, xs, s) && !Raised(xs)
    requires Perform(s, x).err.None? && x.kind != Raise
    ensures var r := Enact(s, x);
            && Quiet(t, xs + [x], r) && Course(t, xs + [x], r)
            && (EndsRound(r) <==> |xs| + 1 >= |ActiveSet(r.seats)|)
            && (!EndsRound(r) ==> InOrder(t, xs + [x], NextActive(r.seats, r.actionIdx)))
  {
    var r := Enact(s, x);
    QuietSteps(t, xs, x, s, k, e);
    CourseSteps(t, xs, x, s, k, e);
    RaisedSnoc(xs, x);
    EnactIs(s, x, k, e);
    EndsByCount(r);
    ActedSnoc(t, xs, x, s.actionIdx);
    if !EndsRound(r) {
      NextUnacted(t, Acted(t, xs + [x]), s.actionIdx, r);
    }
  }

  lemma PassStays(t: Table, xs: seq<Action>, p: Table, next: int)
    requires Quiet(t, xs, p) && Course(t, xs, p)
    ensures Quiet(t, xs, p.(actionIdx := next)) && Course(t, xs, p.(actionIdx := next))
  {
  }

  lemma WithinSnoc(t: Table, front: seq<Action>, x: Action, xs: seq<Action>, s: Table, r: Table)
    requires xs == front + [x] && Within(t, xs) && s == AfterTurns(t, front) && r == AfterTurns(t, xs)
    ensures Within(t, front) && 0 <= s.actionIdx < |s.seats| && Perform(s, x).err.None?
    ensures !EndsRound(Enact(s, x)) && r == PassTurn(Enact(s, x))
  {
    assert xs[..|xs| - 1] == front;
  }

  lemma QuietStep(t: Table, xs: seq<Action>, x: Action, s: Table, r: Table, k: int, e: int) returns (e': int)
    requires FreshTurn(t) && t.dealer < |t.seats| && s == AfterTurns(t, xs) && TurnOf(s, k, e)
    requires InOrder(t, xs, s.actionIdx) && Quiet(t, xs, s) && Course(t, xs, s) && !Raised(xs)
    requires Perform(s, x).err.None? && x.kind != Raise
    requires !EndsRound(Enact(s, x)) && r == PassTurn(Enact(s, x))
    ensures InOrder(t, xs + [x], r.actionIdx) && Quiet(t, xs + [x], r) && Course(t, xs + [x], r)
    ensures |xs + [x]| < |ActiveSet(r.seats)| && TurnOf(r, k, e')
  {
    QuietTurn(t, xs, x, s, k, e);
    PassStays(t, xs + [x], Enact(s, x), NextActive(Enact(s, x).seats, s.actionIdx));
    e' := PassKeeps(s, x, k, e);
  }

  lemma {:induction false} QuietCourse(t: Table, xs: seq<Action>, s: Table, k: int, e: int) returns (e': int)
    requires FreshTurn(t) && t.dealer < |t.seats| && TurnOf(t, k, e) && Within(t, xs) && !Raised(xs)
    requires s == AfterTurns(t, xs)
    ensures TurnOf(s, k, e') && InOrder(t, xs, s.actionIdx) && Quiet(t, xs, s) && Course(t, xs, s)
    ensures xs != [] ==> |xs| < |ActiveSet(s.seats)|
    decreases |xs|
  {
    if xs == [] {
      e' := TurnsKeepCourse(t, xs, k, e);
      FreshIsMatched(t);
      OpensInOrder(t);
    } else {
      var front, x := xs[..|xs| - 1], xs[|xs| - 1];
      var s0 := AfterTurns(t, front);
      assert front + [x] == xs;
      RaisedSnoc(front, x);
      WithinSnoc(t, front, x, xs, s0, s);
      var e0 := QuietCourse(t, front, s0, k, e);
      e' := QuietStep(t, front, x, s0, s, k, e0);
    }
  }

  /** The closing action of a round without a raise. */
  lemma QuietCloses(t: Table, front: seq<Action>, x: Action, xs: seq<Action>, k: int, e: int)
    returns (s: Table, r: Table)
    requires FreshTurn(t) && t.dealer < |t.seats| && TurnOf(t, k, e)
    requires xs == front + [x] && Closes(t, xs) && !Raised(xs)
    ensures Quiet(t, front, s) && (front != [] ==> |front| < |ActiveSet(s.seats)|)
    ensures r == Closing(t, xs) && Quiet(t, xs, r) && Course(t, xs, r) && |xs| >= |ActiveSet(r.seats)|
    ensures Acted(t, xs) <= ActiveSet(t.seats) && |Acted(t, xs)| == |xs|
  {
    assert xs[..|xs| - 1] == front;
    RaisedSnoc(front, x);
    s := AfterTurns(t, front);
    var e0 := QuietCourse(t, front, s, k, e);
    r := Enact(s, x);
    QuietTurn(t, front, x, s, k, e0);
    ActedSnoc(t, front, x, s.actionIdx);
  }

  /** The counting: s seats can act before the last action and r after it, n at the start. */
  lemma FewActExactly(front: seq<Action>, x: Action, xs: seq<Action>, n: nat, s: nat, r: nat)
    requires xs == front + [x] && r <= |xs| <= n && n >= 2 && (front != [] ==> |front| < s)
    requires s <= n && (AllChecks(front, |front|) <==> s == n) && (AllChecks(xs, |xs|) ==> r == n)
    ensures |xs| < n <==> !AllChecks(xs, n - 1)
  {
    assert forall i :: 0 <= i < |front| ==> front[i] == xs[i];
    if |xs| < n {
      assert AllChecks(xs, n - 1) ==> AllChecks(xs, |xs|);
    }
  }

  /** How many seats can act before and after the closing action. */
  lemma QuietNumbers(t: Table, front: seq<Action>, x: Action, xs: seq<Action>, k: int, e: int)
    returns (before: nat, left: nat)
    requires FreshTurn(t) && t.dealer < |t.seats| && TurnOf(t, k, e)
    requires xs == front + [x] && Closes(t, xs) && !Raised(xs)
    ensures var n := |ActiveSet(t.seats)|;
            && n >= 2 && left <= |xs| && (front != [] ==> |front| < before) && before <= n
            && (AllChecks(front, |front|) <==> before == n) && (AllChecks(xs, |xs|) ==> left == n)
    ensures Acted(t, xs) <= ActiveSet(t.seats) && |Acted(t, xs)| == |xs|
  {
    CountIsSize(t.seats);
    var s, r := QuietCloses(t, front, x, xs, k, e);
    QuietCounts(t, front, s);
    QuietCounts(t, xs, r);
    before, left := |ActiveSet(s.seats)|, |ActiveSet(r.seats)|;
  }

  /** A round without a raise closes before everyone has acted exactly if not all but the last in line check. */
  lemma QuietClose(t: Table, front: seq<Action>, x: Action, xs: seq<Action>, k: int, e: int)
    requires FreshTurn(t) && t.dealer < |t.seats| && TurnOf(t, k, e)
    requires xs == front + [x] && Closes(t, xs) && !Raised(xs)
    ensures Acted(t, xs) <= ActiveSet(t.seats) && |Acted(t, xs)| == |xs| <= |ActiveSet(t.seats)|
    ensures |xs| < |ActiveSet(t.seats)| <==> !AllChecks(xs, |ActiveSet(t.seats)| - 1)
  {
    var before, left := QuietNumbers(t, front, x, xs, k, e);
    SubsetSize(Acted(t, xs), ActiveSet(t.seats));
    FewActExactly(front, x, xs, |ActiveSet(t.seats)|, before, left);
  }

  lemma QuietCounts(t: Table, xs: seq<Action>, r: Table)
    requires Quiet(t, xs, r)
    ensures |ActiveSet(r.seats)| <= |ActiveSet(t.seats)|
    ensures AllChecks(xs, |xs|) <==> |ActiveSet(r.seats)| == |ActiveSet(t.seats)|
  {
    SubsetSize(ActiveSet(r.seats), ActiveSet(t.seats));
  }

  /** Every seat that can act when the round is closed has had the turn in it. */
  predicate AllActed(t: Table, xs: seq<Action>)
    requires Closes(t, xs)
  {
    ActiveSet(Closing(t, xs).seats) <= Acted(t, xs)
  }

  lemma QuietActs(t: Table, front: seq<Action>, x: Action, xs: seq<Action>, k: int, e: int)
    requires FreshTurn(t) && t.dealer < |t.seats| && TurnOf(t, k, e)
    requires xs == front + [x] && Closes(t, xs) && !Raised(xs)
    ensures AllActed(t, xs) <==> AllChecks(xs, |ActiveSet(t.seats)| - 1)
  {
    QuietClose(t, front, x, xs, k, e);
    UnactedStay(t, front, x, xs, k, e);
    SubsetSize(Acted(t, xs), ActiveSet(t.seats));
  }

  /** Seats that have not had the turn can act as before; nobody who could not act can. */
  lemma UnactedStay(t: Table, front: seq<Action>, x: Action, xs: seq<Action>, k: int, e: int)
    requires FreshTurn(t) && t.dealer < |t.seats| && TurnOf(t, k, e)
    requires xs == front + [x] && Closes(t, xs) && !Raised(xs)
    ensures ActiveSet(t.seats) - Acted(t, xs) <= ActiveSet(Closing(t, xs).seats) <= ActiveSet(t.seats)
  {
    var _, _ := QuietCloses(t, front, x, xs, k, e);
  }

  lemma RaisedActs(t: Table, xs: seq<Action>, k: int, e: int)
    requires TurnOf(t, k, e) && Closes(t, xs) && Raised(xs)
    ensures AllActed(t, xs)
  {
    UnactedWasMatched(t, xs, k, e);
  }

  /**
   * In the rounds after the flop everyone who can still act has had the turn when the round is
   * closed exactly if somebody raised or all but the last seat in line checked. A fold or an
   * all-in ahead of it closes the round before the last seat has acted.
   */
  lemma EveryoneActsExactly(t: Table, xs: seq<Action>)
    requires TurnsInOrder(t) && FreshTurn(t) && Closes(t, xs)
    ensures AllActed(t, xs) <==> Raised(xs) || AllChecks(xs, |ActiveSet(t.seats)| - 1)
  {
    var k, e :| TurnOf(t, k, e);
    if Raised(xs) {
      RaisedActs(t, xs, k, e);
    } else {
      assert xs == xs[..|xs| - 1] + [xs[|xs| - 1]];
      QuietActs(t, xs[..|xs| - 1], xs[|xs| - 1], xs, k, e);
    }
  }

  // -------------------------------------------------------------------- before the flop

  /** The big blind counts as the first raise, and its seat, if it can act, has matched the bet. */
  lemma BigBlindStands(t0: Table, t: Table, b: nat)
    requires b < |t.seats| && Started(t0, t) && b == BigBlindIndex(t0) && CanAct(t.seats[b])
    ensures t.lastRaiser == b && t.seats[b].currentBet == t.currentBet && t.roundActions == 0
  {
    if t == StartHandCrypto(t0).t {
      var c := t0.(deck := None);
      BigBlindTops(c, PostBlinds(c), b);
    } else {
      var shuffled :| |shuffled| >= 2 * |t0.seats| + CardsNeeded(PreFlop) && t == StartHand(t0, shuffled).t;
      var d := t0.(deck := Some(shuffled));
      var q := StartHandIs(t0, shuffled, PostBlinds(d));
      BigBlindTops(d, q, b);
    }
  }

  lemma BigBlindTops(t: Table, q: Table, b: nat)
    requires Ready(t) && SameButCards(PostBlinds(t), q) && b == BigBlindIndex(t) && CanAct(q.seats[b])
    ensures q.seats[b].currentBet == q.currentBet
  {
    BlindsAdjacent(t);
    PostIs(t, SmallBlindIndex(t), b);
  }

  /** Were the turn to come to the last raiser, the round would be over. */
  lemma StepAvoids(t: Table, xs: seq<Action>, x: Action, s: Table, b: nat, k: int, e: int)
    requires s == AfterTurns(t, xs) && TurnOf(s, k, e) && Course(t, xs, s) && !Raised(xs)
    requires b < |t.seats| && s.actionIdx != b && b !in Acted(t, xs)
    requires CanAct(t.seats[b]) && t.lastRaiser == b && t.seats[b].currentBet == t.currentBet
    requires Perform(s, x).err.None? && x.kind != Raise && !EndsRound(Enact(s, x))
    ensures b !in Acted(t, xs + [x]) && NextActive(Enact(s, x).seats, s.actionIdx) != b
  {
    EnactIs(s, x, k, e);
    assert (xs + [x])[..|xs|] == xs;
    assert Enact(s, x).seats[b] == t.seats[b];
  }

  /** As long as nobody raises, the turn does not come to b. */
  lemma {:induction false} TurnAvoids(t: Table, xs: seq<Action>, b: nat, k: int, e: int) returns (e': int)
    requires TurnOf(t, k, e) && Within(t, xs) && !Raised(xs) && b < |t.seats| && t.actionIdx != b
    requires CanAct(t.seats[b]) && t.lastRaiser == b && t.seats[b].currentBet == t.currentBet
    ensures b !in Acted(t, xs) && AfterTurns(t, xs).actionIdx != b && TurnOf(AfterTurns(t, xs), k, e')
    ensures Course(t, xs, AfterTurns(t, xs))
  {
    e' := TurnsKeepCourse(t, xs, k, e);
    if xs != [] {
      var front, x := xs[..|xs| - 1], xs[|xs| - 1];
      assert front + [x] == xs;
      RaisedSnoc(front, x);
      var e0 := TurnAvoids(t, front, b, k, e);
      StepAvoids(t, front, x, AfterTurns(t, front), b, k, e0);
    }
  }

  lemma FirstTurn(t0: Table, t: Table) returns (k: int, e: int)
    requires Started(t0, t) && t.actionIdx >= 0
    ensures TurnOf(t, k, e)
  {
    StartedWell(t0, t);
    k, e :| TurnOf(t, k, e);
  }

  /** A seat that counts as the last raiser and has matched the bet gets the turn exactly if somebody raises. */
  lemma StandingActsExactly(t: Table, front: seq<Action>, x: Action, xs: seq<Action>, b: nat, k: int, e: int)
    requires TurnOf(t, k, e) && xs == front + [x] && Closes(t, xs) && b < |t.seats| && t.actionIdx != b
    requires CanAct(t.seats[b]) && t.lastRaiser == b && t.seats[b].currentBet == t.currentBet
    ensures b in Acted(t, xs) <==> Raised(xs)
  {
    assert xs[..|xs| - 1] == front;
    UnactedWasMatched(t, xs, k, e);
    if !Raised(xs) {
      RaisedSnoc(front, x);
      var _ := TurnAvoids(t, front, b, k, e);
    }
  }

  /**
   * Before the flop the big blind has no option: if it can act and somebody else opens, it gets
   * the turn before the round is closed exactly if somebody raises.
   */
  lemma BigBlindActsExactly(t0: Table, t: Table, xs: seq<Action>, b: nat)
    requires b < |t.seats| && Started(t0, t) && b == BigBlindIndex(t0) && CanAct(t.seats[b])
    requires 0 <= t.actionIdx != b && Closes(t, xs)
    ensures b in Acted(t, xs) <==> Raised(xs)
  {
    BigBlindStands(t0, t, b);
    var k, e := FirstTurn(t0, t);
    assert xs == xs[..|xs| - 1] + [xs[|xs| - 1]];
    StandingActsExactly(t, xs[..|xs| - 1], xs[|xs| - 1], xs, b, k, e);
  }

  // -------------------------------------------------------- a seat that is passed over

  lemma {:induction false} AllCount(seats: seq<Seat>)
    requires forall j :: 0 <= j < |seats| ==> CanAct(seats[j])
    ensures CountCanAct(seats) == CountInHand(seats) == |seats|
  {
    if seats != [] {
      assert forall j :: 0 <= j < |seats[1..]| ==> seats[1..][j] == seats[j + 1];
      AllCount(seats[1..]);
    }
  }

  lemma {:induction false} FoldCounts(seats: seq<Seat>, i: nat, x: Seat)
    requires i < |seats| && CanAct(seats[i]) && x.status == Folded
    ensures CountCanAct(seats[i := x]) == CountCanAct(seats) - 1
    ensures CountInHand(seats[i := x]) == CountInHand(seats) - 1
  {
    if i == 0 {
      assert seats[0 := x][1..] == seats[1..];
    } else {
      assert seats[i := x][1..] == seats[1..][i - 1 := x];
      FoldCounts(seats[1..], i - 1, x);
    }
  }

  lemma FirstFolds(t: Table, x: Action) returns (s: Table)
    requires FreshTurn(t) && 0 <= t.actionIdx < |t.seats| == 3 && AllMatched(t)
    requires x == Action(t.seats[t.actionIdx].id, Fold, 0) && forall j :: 0 <= j < 3 ==> CanAct(t.seats[j])
    ensures Within(t, [x]) && s == AfterTurns(t, [x]) && BettingPhase(s.phase)
    ensures 0 <= s.actionIdx < |s.seats| == 3 && CanAct(s.seats[s.actionIdx]) && AllMatched(s)
    ensures s.lastRaiser == -1 && s.roundActions == 1 && CountInHand(s.seats) == |ActiveSet(s.seats)| == 2
  {
    var r := Enact(t, x);
    AllCount(t.seats);
    FoldCounts(t.seats, t.actionIdx, r.seats[t.actionIdx]);
    CountIsSize(r.seats);
    EndsByCount(r);
    assert [x][..0] == [];
    assert Within(t, []) && AfterTurns(t, []) == t;
    NextActiveIs(r.seats, r.actionIdx);
    s := AfterTurns(t, [x]);
  }

  lemma CheckCloses(t: Table, x: Action, s: Table, y: Action)
    requires Within(t, [x]) && s == AfterTurns(t, [x]) && BettingPhase(s.phase)
    requires 0 <= s.actionIdx < |s.seats| && CanAct(s.seats[s.actionIdx]) && AllMatched(s)
    requires s.lastRaiser == -1 && s.roundActions == 1 && CountInHand(s.seats) == |ActiveSet(s.seats)| == 2
    requires y == Action(s.seats[s.actionIdx].id, Check, 0)
    ensures Closes(t, [x, y])
  {
    EndsByCount(Enact(s, y));
    assert [x, y][..1] == [x];
  }

  /** Three players at the opening of a street: the first folds, the second checks, the third never acts. */
  lemma FoldThenCheck(t: Table) returns (xs: seq<Action>)
    requires TurnsInOrder(t) && FreshTurn(t) && |t.seats| == 3
    requires forall j :: 0 <= j < 3 ==> CanAct(t.seats[j])
    ensures |xs| == 2 && xs[0].kind == Fold && xs[1].kind == Check && Closes(t, xs) && !AllActed(t, xs)
  {
    var x := Action(t.seats[t.actionIdx].id, Fold, 0);
    FreshIsMatched(t);
    var s := FirstFolds(t, x);
    var y := Action(s.seats[s.actionIdx].id, Check, 0);
    CheckCloses(t, x, s, y);
    xs := [x, y];
    ThreeActive(t.seats);
    FoldIsNoCheck(xs);
    EveryoneActsExactly(t, xs);
  }

  lemma ThreeActive(seats: seq<Seat>)
    requires |seats| == 3 && forall j :: 0 <= j < 3 ==> CanAct(seats[j])
    ensures |ActiveSet(seats)| == 3
  {
    assert ActiveSet(seats) == {0, 1, 2};
  }

  lemma FoldIsNoCheck(xs: seq<Action>)
    requires |xs| == 2 && xs[0].kind == Fold && xs[1].kind == Check
    ensures !AllChecks(xs, 2) && !Raised(xs)
  {
    assert xs[0].kind != Check;
  }

  // -------------------------------------------------------- a hand in which this happens

  predicate AllCanAct(seats: seq<Seat>) {
    forall j :: 0 <= j < |seats| ==> CanAct(seats[j])
  }

  lemma OpensFresh(ev: Evaluator, t: Table) returns (r: Table)
    requires BettingPhase(t.phase) && |t.seats| >= 2 && t.dealer < |t.seats| && AllCanAct(t.seats)
    ensures StartNewBettingRound(ev, t) == Outcome(r, None) && FreshTurn(r)
    ensures |r.seats| == |t.seats| && AllCanAct(r.seats)
  {
    var f := FreshRound(t);
    AllCount(f.seats);
    NextActiveIs(f.seats, f.dealer);
    ResetTwice(t.seats);
    assert CanAct(f.seats[0]);
    r := f.(actionIdx := NextActive(f.seats, f.dealer));
  }

  /** In plaintext mode the end of the first round deals the flop and opens the next. */
  lemma FlopOpens(ev: Evaluator, t: Table) returns (r: Table)
    requires t.phase == PreFlop && t.deck.Some? && |t.deck.value| >= 8
    requires |t.seats| >= 2 && t.dealer < |t.seats| && AllCanAct(t.seats)
    ensures EndBettingRound(ev, t) == Outcome(r, None) && FreshTurn(r)
    ensures |r.seats| == |t.seats| && AllCanAct(r.seats)
  {
    var w := WithPots(t);
    DealtFits(w);
    r := OpensFresh(ev, AfterDeal(w));
  }

  /** The dealer calls. */
  lemma DealerCalls(ev: Evaluator, s: Table, x: Action) returns (m: Table)
    requires s.phase == PreFlop && |s.seats| == 3 && s.actionIdx == 0 && s.currentBet == 2 && x == Action("D", Call, 0)
    requires At(s, 0, "D", 10, Active, 0, 0) && At(s, 1, "S", 15, Active, 1, 1) && At(s, 2, "B", 18, Active, 2, 2)
    ensures m == Run(ev, s, [Play(x)]) && m == s.(seats := m.seats, log := m.log, roundActions := m.roundActions,
                actionIdx := 1)
    ensures |m.seats| == 3 && m.roundActions > 0
    ensures At(m, 0, "D", 8, Active, 2, 2) && At(m, 1, "S", 15, Active, 1, 1) && At(m, 2, "B", 18, Active, 2, 2)
  {
    TwoInHand(Perform(s, x).t.seats, 1, 2);
    PassesTo(ev, s, x, 1);
    m := ApplyAction(ev, s, x).t;
    assert Run(ev, s, [Play(x)]) == Run(ev, m, [Play(x)][1..]);
  }

  /** The small blind calls, and the street is dealt before the big blind has acted. */
  lemma SmallBlindCalls(ev: Evaluator, m: Table, y: Action) returns (r: Table)
    requires m.phase == PreFlop && |m.seats| == 3 && m.actionIdx == 1 && m.currentBet == 2 && m.dealer == 0
    requires y == Action("S", Call, 0)
    requires m.lastRaiser == 2 && m.roundActions > 0 && m.deck.Some? && |m.deck.value| >= 8
    requires At(m, 0, "D", 8, Active, 2, 2) && At(m, 1, "S", 15, Active, 1, 1) && At(m, 2, "B", 18, Active, 2, 2)
    ensures r == Run(ev, m, [Play(y)]) && FreshTurn(r) && |r.seats| == 3 && AllCanAct(r.seats)
  {
    var e := Enact(m, y);
    TwoInHand(e.seats, 0, 1);
    NextActiveIs(e.seats, 1);
    assert CanAct(e.seats[2]) && AllCanAct(e.seats);
    AllCount(e.seats);
    r := FlopOpens(ev, e);
    assert ApplyAction(ev, m, y) == EndBettingRound(ev, e);
    assert Run(ev, m, [Play(y)]) == Run(ev, r, [Play(y)][1..]);
  }

  lemma LimpStarts(t0: Table, shuffled: seq<Card>) returns (s: Table)
    requires |shuffled| >= 14 && t0 == NewTable(THREE, 0, 1, 2)
    ensures Ready(t0) && s == StartHand(t0, shuffled).t && TurnsInOrder(s)
    ensures s.deck.Some? && |s.deck.value| >= 8 && s.dealer == 0 && s.lastRaiser == 2
    ensures s.phase == PreFlop && |s.seats| == 3 && s.actionIdx == 0 && s.currentBet == 2
    ensures At(s, 0, "D", 10, Active, 0, 0) && At(s, 1, "S", 15, Active, 1, 1) && At(s, 2, "B", 18, Active, 2, 2)
  {
    s := OpeningSpot(t0, shuffled);
    ThreeReady(t0);
    StartConserves(t0, shuffled);
  }

  lemma LimpedFlop(ev: Evaluator, s: Table) returns (t: Table, inputs: seq<Input>)
    requires s.deck.Some? && |s.deck.value| >= 8 && s.dealer == 0 && s.lastRaiser == 2
    requires s.phase == PreFlop && |s.seats| == 3 && s.actionIdx == 0 && s.currentBet == 2
    requires At(s, 0, "D", 10, Active, 0, 0) && At(s, 1, "S", 15, Active, 1, 1) && At(s, 2, "B", 18, Active, 2, 2)
    ensures t == Run(ev, s, inputs) && FreshTurn(t) && |t.seats| == 3 && AllCanAct(t.seats)
  {
    var x, y := Action("D", Call, 0), Action("S", Call, 0);
    var m := DealerCalls(ev, s, x);
    t := SmallBlindCalls(ev, m, y);
    inputs := [Play(x)] + [Play(y)];
    RunSplits(ev, s, [Play(x)], [Play(y)]);
  }

  /**
   * Three players, two calls before the flop; then the first folds and the second checks, and
   * the third has not had the turn when the round is closed.
   */
  lemma SomeoneIsPassedOver(ev: Evaluator, shuffled: seq<Card>) returns (t: Table, inputs: seq<Input>, xs: seq<Action>)
    requires |shuffled| >= 14
    ensures Ready(NewTable(THREE, 0, 1, 2))
    ensures t == Run(ev, StartHand(NewTable(THREE, 0, 1, 2), shuffled).t, inputs)
    ensures FreshTurn(t) && Closes(t, xs) && !AllActed(t, xs)
  {
    var s := LimpStarts(NewTable(THREE, 0, 1, 2), shuffled);
    t, inputs := LimpedFlop(ev, s);
    RunKeepsTurns(ev, s, inputs);
    xs := FoldThenCheck(t);
  }
}
