// The action sequencer that restores the order of players' actions before the machine sees
// them (cmd/poker/main.go:384-404, 721-757).
module Sequencer {
  import opened Cards
  import opened GameState
  import Replicas
  import opened Rules

  // An action with its sequence number, as broadcast by the player who took it.
  datatype Message = Message(number: int, action: Action)

  datatype State = State(next: int, pending: map<int, Message>)

  datatype Released = Released(s: State, out: seq<Message>)

  const FRESH := State(1, map[])

  /** Everything that is next in order leaves the buffer. */
  function Drain(s: State): Released
    decreases |s.pending|
  {
    if s.next !in s.pending then Released(s, [])
    else
      var r := Drain(State(s.next + 1, s.pending - {s.next}));
      Released(r.s, [s.pending[s.next]] + r.out)
  }

  function PushOn(s: State, m: Message): Released {
    Drain(s.(pending := s.pending[m.number := m]))
  }

  class ActionSequencer {
    var nextSeq: int
    var pending: map<int, Message>

    function View(): State
      reads this
    {
      State(nextSeq, pending)
    }

    constructor ()
      ensures View() == FRESH
    {
      nextSeq, pending := 1, map[];
    }

    method Push(msg: Message) returns (out: seq<Message>)
      modifies this
      ensures Released(View(), out) == PushOn(old(View()), msg)
    {
      pending := pending[msg.number := msg];
      out := [];
      ghost var r := Drain(View());
      while nextSeq in pending
        invariant Drain(View()).s == r.s && out + Drain(View()).out == r.out
        decreases |pending|
      {
        out := out + [pending[nextSeq]];
        pending := pending - {nextSeq};
        nextSeq := nextSeq + 1;
      }
    }

    method Reset()
      modifies this
      ensures View() == FRESH
    {
      nextSeq, pending := 1, map[];
    }
  }

  // ------------------------------------------------------------------ a hand's arrivals

  /** All that a fresh sequencer has let out after the arrivals, and what it then holds. */
  function Arrive(ms: seq<Message>): Released {
    if ms == [] then Released(FRESH, [])
    else
      var before := Arrive(ms[..|ms| - 1]);
      var last := PushOn(before.s, ms[|ms| - 1]);
      Released(last.s, before.out + last.out)
  }

  predicate Arrived(ms: seq<Message>, n: int) {
    exists i :: 0 <= i < |ms| && ms[i].number == n
  }

  /** What has been let out is numbered 1, 2, 3 and so on; what is held has arrived. */
  ghost predicate Tracks(ms: seq<Message>, r: Released) {
    && r.s.next == |r.out| + 1
    && (forall i :: 0 <= i < |r.out| ==> r.out[i].number == i + 1 && r.out[i] in ms)
    && (forall n :: n in r.s.pending ==> r.s.pending[n].number == n && r.s.pending[n] in ms)
    && (forall i :: 0 <= i < |ms| ==> 1 <= ms[i].number < r.s.next || ms[i].number in r.s.pending)
  }

  lemma {:induction false} DrainTracks(ms: seq<Message>, r: Released)
    requires Tracks(ms, r)
    ensures var d := Drain(r.s); Tracks(ms, Released(d.s, r.out + d.out)) && d.s.next !in d.s.pending
    decreases |r.s.pending|
  {
    var n := r.s.next;
    if n in r.s.pending {
      var r' := Released(State(n + 1, r.s.pending - {n}), r.out + [r.s.pending[n]]);
      DrainTracks(ms, r');
      assert r'.out + Drain(r'.s).out == r.out + Drain(r.s).out;
    } else {
      assert r.out + [] == r.out;
    }
  }

  lemma {:induction false} ArriveTracks(ms: seq<Message>)
    ensures Tracks(ms, Arrive(ms)) && Arrive(ms).s.next !in Arrive(ms).s.pending
  {
    if ms != [] {
      var before, m := Arrive(ms[..|ms| - 1]), ms[|ms| - 1];
      ArriveTracks(ms[..|ms| - 1]);
      DrainTracks(ms, Released(before.s.(pending := before.s.pending[m.number := m]), before.out));
    }
  }

  /**
   * Whatever arrives in whatever order: the actions let out are numbered 1, 2, 3 and so on
   * without gap or repetition, each of them has arrived, and number n is out exactly when
   * all of 1 to n have arrived.
   */
  lemma OutIsPrefix(ms: seq<Message>, n: nat)
    ensures var out := Arrive(ms).out;
            && (forall i :: 0 <= i < |out| ==> out[i].number == i + 1 && out[i] in ms)
            && (n <= |out| <==> forall k :: 1 <= k <= n ==> Arrived(ms, k))
  {
    ArriveTracks(ms);
    var r := Arrive(ms);
    if n <= |r.out| {
      forall k | 1 <= k <= n ensures Arrived(ms, k) {
        assert r.out[k - 1] in ms;
      }
    } else {
      assert !Arrived(ms, r.s.next);
    }
  }

  predicate SameMessages(a: seq<Message>, b: seq<Message>) {
    (forall m :: m in a ==> m in b) && forall m :: m in b ==> m in a
  }

  /** However the messages are reordered and repeated, the same actions come out. */
  ghost predicate OrderImmaterial(ms: seq<Message>) {
    forall b :: SameMessages(ms, b) ==> Arrive(b).out == Arrive(ms).out
  }

  /** No two different messages share a number that will come out. */
  ghost predicate Determined(ms: seq<Message>) {
    forall x, y :: x in ms && y in ms && x.number == y.number && Due(ms, x.number) ==> x == y
  }

  /** Everything up to number n has arrived. */
  predicate Due(ms: seq<Message>, n: int) {
    n >= 1 && forall k :: 1 <= k <= n ==> Arrived(ms, k)
  }

  lemma NotBehind(a: seq<Message>, b: seq<Message>)
    requires SameMessages(a, b)
    ensures |Arrive(a).out| <= |Arrive(b).out|
  {
    var n := |Arrive(a).out|;
    OutIsPrefix(a, n);
    OutIsPrefix(b, n);
    forall k | 1 <= k <= n ensures Arrived(b, k) {
      assert Arrive(a).out[k - 1] in b;
    }
  }

  lemma DeterminedOut(a: seq<Message>, b: seq<Message>)
    requires Determined(a) && SameMessages(a, b)
    ensures Arrive(a).out == Arrive(b).out
  {
    NotBehind(a, b);
    NotBehind(b, a);
    forall i | 0 <= i < |Arrive(a).out| ensures Arrive(a).out[i] == Arrive(b).out[i] {
      OutIsPrefix(a, i + 1);
      OutIsPrefix(b, i + 1);
      assert Arrive(a).out[i] in a && Arrive(b).out[i] in a && Due(a, i + 1);
    }
  }

  // Message x is the one that will come out under its number: it is held, or already out.
  predicate Chosen(r: Released, x: Message) {
    && x.number >= 1 && r.s.next == |r.out| + 1
    && if x.number <= |r.out| then r.out[x.number - 1] == x else x.number in r.s.pending && r.s.pending[x.number] == x
  }

  lemma {:induction false} DrainKeepsChosen(r: Released, x: Message)
    requires Chosen(r, x)
    ensures Chosen(Released(Drain(r.s).s, r.out + Drain(r.s).out), x)
    decreases |r.s.pending|
  {
    var n := r.s.next;
    if n in r.s.pending {
      var r' := Released(State(n + 1, r.s.pending - {n}), r.out + [r.s.pending[n]]);
      DrainKeepsChosen(r', x);
      assert r'.out + Drain(r'.s).out == r.out + Drain(r.s).out;
    } else {
      assert r.out + [] == r.out;
    }
  }

  lemma {:induction false} RestKeepsChosen(before: seq<Message>, rest: seq<Message>, x: Message)
    requires Chosen(Arrive(before), x)
    requires x.number <= |Arrive(before).out| || forall i :: 0 <= i < |rest| ==> rest[i].number != x.number
    ensures Chosen(Arrive(before + rest), x) && |Arrive(before + rest).out| >= |Arrive(before).out|
    decreases |rest|
  {
    if rest == [] {
      assert before + rest == before;
    } else {
      var all, m := before + rest, rest[|rest| - 1];
      var r := Arrive(before + rest[..|rest| - 1]);
      RestKeepsChosen(before, rest[..|rest| - 1], x);
      assert all[..|all| - 1] == before + rest[..|rest| - 1] && all[|all| - 1] == m;
      DrainKeepsChosen(Released(r.s.(pending := r.s.pending[m.number := m]), r.out), x);
    }
  }

  /** The messages with number n, or all the others, in their order. */
  function Numbered(ms: seq<Message>, n: int, same: bool): (r: seq<Message>)
    ensures forall m :: m in r <==> m in ms && (m.number == n) == same
  {
    if ms == [] then [] else (if (ms[0].number == n) == same then [ms[0]] else []) + Numbered(ms[1..], n, same)
  }

  lemma {:induction false} NothingDue(ms: seq<Message>, x: Message)
    requires x.number > 1 && x in ms && ms[|ms| - 1] == x && forall i :: 0 <= i < |ms| ==> ms[i].number == x.number
    ensures Chosen(Arrive(ms), x)
  {
    OnlyHeld(ms[..|ms| - 1], x.number);
    var s := State(1, Arrive(ms[..|ms| - 1]).s.pending[x.number := x]);
    assert 1 !in s.pending && Drain(s) == Released(s, []);
  }

  lemma {:induction false} OnlyHeld(ms: seq<Message>, n: int)
    requires n > 1 && forall i :: 0 <= i < |ms| ==> ms[i].number == n
    ensures Arrive(ms).out == [] && Arrive(ms).s.next == 1 && 1 !in Arrive(ms).s.pending
  {
    if ms != [] {
      OnlyHeld(ms[..|ms| - 1], n);
    }
  }

  /** Any message whose number will come out can be made to come out by the order of arrival. */
  lemma OrderFor(ms: seq<Message>, x: Message) returns (b: seq<Message>)
    requires x in ms && Due(ms, x.number)
    ensures SameMessages(ms, b) && x.number <= |Arrive(b).out| && Arrive(b).out[x.number - 1] == x
  {
    if x.number == 1 {
      b := [x] + ms;
      assert [x][..0] == [];
      var s := State(1, map[1 := x]);
      assert s.pending - {1} == map[];
      assert Drain(State(2, map[])).out == [] && Drain(s).out == [x];
      RestKeepsChosen([x], ms, x);
    } else {
      var front, rest := Numbered(ms, x.number, true) + [x], Numbered(ms, x.number, false);
      b := front + rest;
      NothingDue(front, x);
      RestKeepsChosen(front, rest, x);
    }
    OutIsPrefix(b, x.number);
    forall k | 1 <= k <= x.number ensures Arrived(b, k) {
      assert Arrived(ms, k);
      var i :| 0 <= i < |ms| && ms[i].number == k;
      assert ms[i] in b;
    }
  }

  /**
   * Reordering and repetition are harmless exactly when no two different messages share a
   * number that will come out. Different copies behind a gap never matter.
   */
  lemma OrderImmaterialExactly(ms: seq<Message>)
    ensures OrderImmaterial(ms) <==> Determined(ms)
  {
    if OrderImmaterial(ms) {
      forall x, y | x in ms && y in ms && x.number == y.number && Due(ms, x.number) ensures x == y {
        var forX := OrderFor(ms, x);
        var forY := OrderFor(ms, y);
        assert Arrive(forX).out == Arrive(ms).out == Arrive(forY).out;
      }
    }
    if Determined(ms) {
      forall b | SameMessages(ms, b) ensures Arrive(b).out == Arrive(ms).out {
        DeterminedOut(ms, b);
      }
    }
  }

  /** Two different actions under number 1: whichever arrives first is the one that is played. */
  lemma FirstCopyWins(a: Action, b: Action)
    ensures var x, y := Message(1, a), Message(1, b);
            && Arrive([x, y]).out == [x] && Arrive([y, x]).out == [y] && SameMessages([x, y], [y, x])
            && (a != b ==> !OrderImmaterial([x, y]) && !Determined([x, y]))
  {
    var x, y := Message(1, a), Message(1, b);
    FirstOut(x, y);
    FirstOut(y, x);
    OrderImmaterialExactly([x, y]);
  }

  lemma FirstOut(x: Message, y: Message)
    requires x.number == y.number == 1
    ensures Arrive([x, y]).out == [x]
  {
    assert [x][..0] == [] && [x, y][..1] == [x];
    assert map[1 := x] - {1} == map[];
    assert Drain(State(2, map[])) == Released(State(2, map[]), []);
    assert Drain(State(1, map[1 := x])) == Released(State(2, map[]), [x]);
    assert Arrive([x]) == Released(State(2, map[]), [x]);
    assert Drain(State(2, map[1 := y])) == Released(State(2, map[1 := y]), []);
  }

  /** Once everything broadcast has arrived, in any order and with any repetitions, it is out once each and in order. */
  lemma EverythingComesOut(script: seq<Message>, ms: seq<Message>)
    requires forall i :: 0 <= i < |script| ==> script[i].number == i + 1
    requires SameMessages(script, ms)
    ensures Arrive(ms).out == script
  {
    OutIsPrefix(ms, |script|);
    OutIsPrefix(ms, |script| + 1);
    forall k | 1 <= k <= |script| ensures Arrived(ms, k) {
      assert script[k - 1] in ms;
    }
    var out := Arrive(ms).out;
    assert forall i :: 0 <= i < |ms| ==> ms[i] in script;
    assert !Arrived(ms, |script| + 1);
    assert forall i :: 0 <= i < |out| ==> out[i] in script;
  }

  // -------------------------------------------------------------- a replica's own actions

  // A message from another replica, or an action taken here: by the local player, or a fold for a seat that is gone.
  datatype Event = Pushed(m: Message) | Took(action: Action)

  /** An action taken here gets the next number and is played at once; nothing is let out of the buffer. */
  function Occur(r: Released, e: Event): Released {
    match e
    case Pushed(m) => var p := PushOn(r.s, m); Released(p.s, r.out + p.out)
    case Took(a) => Released(r.s.(next := r.s.next + 1), r.out + [Message(r.s.next, a)])
  }

  /** What has been played after the events, and what is then held. */
  function OccurAll(es: seq<Event>): Released {
    if es == [] then Released(FRESH, []) else Occur(OccurAll(es[..|es| - 1]), es[|es| - 1])
  }

  function Pushes(es: seq<Event>): seq<Message> {
    if es == [] then []
    else Pushes(es[..|es| - 1]) + match es[|es| - 1] case Pushed(m) => [m] case Took(_) => []
  }

  /**
   * The actions are one numbered script: received messages are entries of it, and an action
   * taken here is its next entry.
   */
  predicate Scripted(script: seq<Message>, es: seq<Event>) {
    && (forall i :: 0 <= i < |script| ==> script[i].number == i + 1)
    && (es != [] ==>
          && Scripted(script, es[..|es| - 1])
          && match es[|es| - 1]
             case Pushed(m) => m in script
             case Took(a) =>
               var next := OccurAll(es[..|es| - 1]).s.next;
               1 <= next <= |script| && script[next - 1].action == a)
  }

  ghost predicate FollowsScript(script: seq<Message>, ms: seq<Message>, r: Released) {
    && |r.out| <= |script| && r.s.next == |r.out| + 1 && r.out == script[..|r.out|]
    && (forall n :: n in r.s.pending ==> 1 <= n <= |script| && r.s.pending[n] == script[n - 1])
    && (forall i :: 0 <= i < |ms| ==> 1 <= ms[i].number < r.s.next || ms[i].number in r.s.pending)
  }

  lemma {:induction false} DrainFollows(script: seq<Message>, ms: seq<Message>, r: Released)
    requires FollowsScript(script, ms, r)
    ensures var d := Drain(r.s); FollowsScript(script, ms, Released(d.s, r.out + d.out)) && d.s.next !in d.s.pending
    decreases |r.s.pending|
  {
    var n := r.s.next;
    if n in r.s.pending {
      var r' := Released(State(n + 1, r.s.pending - {n}), r.out + [r.s.pending[n]]);
      DrainFollows(script, ms, r');
      assert r'.out + Drain(r'.s).out == r.out + Drain(r.s).out;
    } else {
      assert r.out + [] == r.out;
    }
  }

  /**
   * Whatever the order, with a replica's own actions among the received ones, what has been
   * played is the script so far.
   */
  lemma {:induction false} PlayedIsPrefix(script: seq<Message>, es: seq<Event>)
    requires Scripted(script, es)
    ensures FollowsScript(script, Pushes(es), OccurAll(es))
  {
    if es != [] {
      var before, last := es[..|es| - 1], es[|es| - 1];
      PlayedIsPrefix(script, before);
      var r := OccurAll(before);
      match last {
        case Pushed(m) =>
          var k :| 0 <= k < |script| && script[k] == m;
          DrainFollows(script, Pushes(es), Released(r.s.(pending := r.s.pending[m.number := m]), r.out));
        case Took(a) =>
          assert script[r.s.next - 1] == Message(r.s.next, a);
      }
    }
  }

  lemma {:induction false} DrainOnlyRemoves(s: State, n: int)
    ensures n in Drain(s).s.pending ==> n in s.pending && Drain(s).s.pending[n] == s.pending[n]
    decreases |s.pending|
  {
    if s.next in s.pending {
      DrainOnlyRemoves(State(s.next + 1, s.pending - {s.next}), n);
    }
  }

  /** What is held has been received. */
  lemma {:induction false} HeldPushed(es: seq<Event>, n: int)
    requires n in OccurAll(es).s.pending
    ensures OccurAll(es).s.pending[n] in Pushes(es)
  {
    var before, last := es[..|es| - 1], es[|es| - 1];
    var r := OccurAll(before);
    match last {
      case Pushed(m) =>
        DrainOnlyRemoves(r.s.(pending := r.s.pending[m.number := m]), n);
        if n != m.number {
          HeldPushed(before, n);
        }
      case Took(_) => HeldPushed(before, n);
    }
  }

  /**
   * The next message of the script has been received and yet not been played exactly if the
   * last event was an action taken here while its successor was already held.
   */
  lemma PlayedExactly(script: seq<Message>, es: seq<Event>)
    requires Scripted(script, es) && |OccurAll(es).out| < |script|
    ensures script[|OccurAll(es).out|] in Pushes(es) <==>
            && es != [] && es[|es| - 1].Took?
            && var before := OccurAll(es[..|es| - 1]).s; before.next + 1 in before.pending
  {
    PlayedIsPrefix(script, es);
    var next := OccurAll(es).s.next;
    if script[next - 1] in Pushes(es) {
      if es != [] && es[|es| - 1].Pushed? {
        PushDrains(script, es);
      }
    }
    if next in OccurAll(es).s.pending {
      HeldPushed(es, next);
    }
  }

  /** The second of two messages comes first, and the first is this replica's own action: the second stays held. */
  lemma SuccessorLeftBehind(first: Action, second: Action)
    ensures var script := [Message(1, first), Message(2, second)];
            var es := [Pushed(script[1]), Took(first)];
            && Scripted(script, es) && script[1] in Pushes(es)
            && OccurAll(es).out == [script[0]] && OccurAll(es).s.pending == map[2 := script[1]]
            && OccurAll(es + [Pushed(script[1])]).out == script
  {
    var m1, m2 := Message(1, first), Message(2, second);
    var script, es := [m1, m2], [Pushed(m2), Took(first)];
    var one := [Pushed(m2)];
    assert es[..1] == one && one[..0] == [] && (es + one)[..2] == es;
    assert Drain(State(1, map[2 := m2])) == Released(State(1, map[2 := m2]), []);
    assert OccurAll(one) == Released(State(1, map[2 := m2]), []);
    assert Scripted(script, []) && Scripted(script, one);
    assert OccurAll(es) == Released(State(2, map[2 := m2]), [m1]);
    assert Pushes(one) == [] + [m2] == [m2];
    NextPushCatchesUp(script, es, m2, 2);
    PlayedIsPrefix(script, es + one);
  }

  lemma PushDrains(script: seq<Message>, es: seq<Event>)
    requires Scripted(script, es) && es != [] && es[|es| - 1].Pushed?
    ensures OccurAll(es).s.next !in OccurAll(es).s.pending
  {
    var before, m := es[..|es| - 1], es[|es| - 1].m;
    PlayedIsPrefix(script, before);
    var r := OccurAll(before);
    var k :| 0 <= k < |script| && script[k] == m;
    DrainFollows(script, Pushes(es), Released(r.s.(pending := r.s.pending[m.number := m]), r.out));
  }

  lemma ReceivedIsKnown(script: seq<Message>, es: seq<Event>, i: nat)
    requires Scripted(script, es) && i < |script|
    ensures script[i] in Pushes(es) ==> i < |OccurAll(es).out| || i + 1 in OccurAll(es).s.pending
  {
    PlayedIsPrefix(script, es);
    assert script[i].number == i + 1;
  }

  lemma PushesSnoc(es: seq<Event>, m: Message)
    ensures Pushes(es + [Pushed(m)]) == Pushes(es) + [m]
  {
    assert (es + [Pushed(m)])[..|es|] == es;
  }

  /** Whatever was left behind is played with the next push, new or repeated. */
  lemma NextPushCatchesUp(script: seq<Message>, es: seq<Event>, m: Message, k: nat)
    requires Scripted(script, es) && m in script && k <= |script|
    requires forall i :: |OccurAll(es).out| <= i < k ==> script[i] in Pushes(es)
    ensures |OccurAll(es + [Pushed(m)]).out| >= k
  {
    var all := es + [Pushed(m)];
    assert all[..|es|] == es;
    PushDrains(script, all);
    PlayedIsPrefix(script, all);
    PushesSnoc(es, m);
    if |OccurAll(all).out| < |script| {
      ReceivedIsKnown(script, all, |OccurAll(all).out|);
    }
  }

  // -------------------------------------------------------------------------- the table

  /** The messages' actions put to the machine one after another; refused ones leave no trace. */
  function PlayAll(ev: Evaluator, t: Table, ms: seq<Message>): Table
    decreases |ms|
  {
    if ms == [] then t else PlayAll(ev, ApplyAction(ev, t, ms[0].action).t, ms[1..])
  }

  /** The table of a replica: an arrival plays all that is ready, an action taken here is played at once. */
  function Handle(ev: Evaluator, t: Table, es: seq<Event>): Table {
    if es == [] then t
    else
      var before := Handle(ev, t, es[..|es| - 1]);
      match es[|es| - 1]
      case Pushed(m) => PlayAll(ev, before, PushOn(OccurAll(es[..|es| - 1]).s, m).out)
      case Took(a) => ApplyAction(ev, before, a).t
  }

  lemma {:induction false} PlayConcat(ev: Evaluator, t: Table, a: seq<Message>, b: seq<Message>)
    ensures PlayAll(ev, t, a + b) == PlayAll(ev, PlayAll(ev, t, a), b)
    decreases |a|
  {
    if a == [] {
      assert a + b == b;
    } else {
      assert (a + b)[1..] == a[1..] + b;
      PlayConcat(ev, ApplyAction(ev, t, a[0].action).t, a[1..], b);
    }
  }

  lemma {:induction false} HandlePlaysOut(ev: Evaluator, t: Table, es: seq<Event>)
    ensures Handle(ev, t, es) == PlayAll(ev, t, OccurAll(es).out)
  {
    if es != [] {
      var before := OccurAll(es[..|es| - 1]);
      HandlePlaysOut(ev, t, es[..|es| - 1]);
      match es[|es| - 1] {
        case Pushed(m) => PlayConcat(ev, t, before.out, PushOn(before.s, m).out);
        case Took(a) =>
          var own := Message(before.s.next, a);
          PlayConcat(ev, t, before.out, [own]);
          assert [own][1..] == [];
      }
    }
  }

  /** Every replica's table is the one that the script leads to, as far as the replica has got. */
  lemma TablesConverge(ev: Evaluator, t: Table, script: seq<Message>, es: seq<Event>)
    requires Scripted(script, es)
    ensures |OccurAll(es).out| <= |script| && Handle(ev, t, es) == PlayAll(ev, t, script[..|OccurAll(es).out|])
  {
    HandlePlaysOut(ev, t, es);
    PlayedIsPrefix(script, es);
  }

  lemma {:induction false} PlayedAlike(ev: Evaluator, a: Table, b: Table, d: seq<Card>, ms: seq<Message>)
    requires Replicas.Agree(ev, a, b, d)
    ensures Replicas.Agree(ev, PlayAll(ev, a, ms), PlayAll(ev, b, ms), d)
    decreases |ms|
  {
    if ms != [] {
      Replicas.PlayAlike(ev, a, b, ms[0].action, d);
      PlayedAlike(ev, ApplyAction(ev, a, ms[0].action).t, ApplyAction(ev, b, ms[0].action).t, d, ms[1..]);
    }
  }

  /**
   * Replicas that know different hands of one deck, each with its own order of arrivals and
   * its own actions in it, agree whenever they have played equally many actions.
   */
  lemma ReplicasConverge(ev: Evaluator, a: Table, b: Table, d: seq<Card>, script: seq<Message>, ea: seq<Event>,
      eb: seq<Event>)
    requires Replicas.Agree(ev, a, b, d) && Scripted(script, ea) && Scripted(script, eb)
    requires |OccurAll(ea).out| == |OccurAll(eb).out|
    ensures Replicas.Agree(ev, Handle(ev, a, ea), Handle(ev, b, eb), d)
  {
    TablesConverge(ev, a, script, ea);
    TablesConverge(ev, b, script, eb);
    PlayedAlike(ev, a, b, d, OccurAll(ea).out);
    PlayedIsPrefix(script, ea);
  }
}
