// One honest shuffle replica: handed any steps of the hand in any order, it applies
// them in seat order, never fails, and publishes its own step exactly at its turn.
module ShuffleReplica {
  import opened Shuffle
  import opened ShuffleSession
  import opened Wrappers

  // ------------------------------------------------------- the script of one hand

  // A script lists the one step that each seat publishes, in seat order.

  /** The deck that seat k shuffles. */
  function DeckBefore(c: Config, script: seq<Message>, k: nat): seq<int>
    requires k <= |script|
  {
    if k == 0 then c.initial else script[k - 1].deck
  }

  /** Seat i's replica accepts every step of the script, and its own step is script[i]. */
  ghost predicate Follows(c: Config, script: seq<Message>, i: nat) {
    && ValidConfig(c) && |script| == |c.order| && i < |script| && c.local == c.order[i]
    && (forall k :: 0 <= k < |script| ==> script[k].player == c.order[k] && Acceptable(c, script[k]))
    && ExecutesTo(c, DeckBefore(c, script, i), script[i])
  }

  ghost predicate Acceptable(c: Config, m: Message) {
    Rejection(c, m) == None && VerifyDeck(c.h, m.commitment, m.deck)
  }

  /** The local step on this deck is m. */
  ghost predicate ExecutesTo(c: Config, deck: seq<int>, m: Message)
    requires ValidConfig(c)
  {
    var step := StepOf(c.h, |c.initial|, c.local, deck, c.key, c.perm, c.nonce);
    step.Ok? && m == Message(c.hand, c.local, step.value.output, step.value.commitment)
  }

  // ---------------------------------------------------------- one honest replica

  /** The replica has applied exactly the steps before next and buffered only later ones. */
  ghost predicate Tracks(c: Config, script: seq<Message>, i: nat, s: State)
  {
    && s.started && s.next <= |script| && s.current == DeckBefore(c, script, s.next)
    && (forall k: nat :: k in s.applied <==> k < s.next)
    && (forall k: nat :: k in s.applied ==> s.applied[k] == script[k])
    && (forall k: nat :: k in s.pending ==> s.next <= k < |script| && k != i && s.pending[k] == script[k])
  }

  /** Nothing more can be done without another message. */
  ghost predicate Settled(i: nat, s: State) {
    s.next != i && s.next !in s.pending
  }

  ghost predicate Good(c: Config, script: seq<Message>, i: nat, s: State) {
    s == FRESH || (Tracks(c, script, i, s) && Settled(i, s))
  }

  /** Seat k's step has been applied or buffered. */
  predicate Knows(s: State, k: nat) {
    k < s.next || k in s.pending
  }

  ghost predicate Advances(s: State, s': State) {
    s.next <= s'.next && forall k: nat :: Knows(s, k) ==> Knows(s', k)
  }

  /** The reply of a settled replica that published its own step exactly when it passed its turn. */
  ghost predicate GoodReply(c: Config, script: seq<Message>, i: nat, s: State, r: Reply)
    requires i < |script|
  {
    && Tracks(c, script, i, r.s) && Settled(i, r.s) && Advances(s, r.s)
    && r.out == Ok(if s.next <= i < r.s.next then Some(script[i]) else None)
  }

  lemma SameSeat(c: Config, script: seq<Message>, i: nat, k: nat)
    requires Follows(c, script, i) && k < |script|
    ensures script[k].player == c.order[k]
    ensures c.order[k] == c.local <==> k == i
    ensures SeatOf(c.order, script[k].player) == Some(k)
  {
    var r := SeatOf(c.order, c.order[k]);
  }

  lemma TrackNext(c: Config, script: seq<Message>, i: nat, s: State)
    requires Tracks(c, script, i, s) && s.next < |script| && s.next !in s.pending
    ensures var s' := s.(applied := s.applied[s.next := script[s.next]], current := script[s.next].deck,
        next := s.next + 1);
            Tracks(c, script, i, s') && Advances(s, s')
  {
  }

  lemma AdoptStep(c: Config, script: seq<Message>, i: nat, s: State)
    requires Follows(c, script, i) && Tracks(c, script, i, s) && s.next < |script| && s.next !in s.pending
    ensures var a := Adopt(c, s, script[s.next]);
            a.Ok? && Tracks(c, script, i, a.value) && a.value.next == s.next + 1 && Advances(s, a.value)
  {
    assert Acceptable(c, script[s.next]);
    TrackNext(c, script, i, s);
  }

  /** Taking the next buffered step out and adopting it. */
  lemma AdoptBuffered(c: Config, script: seq<Message>, i: nat, s: State)
    requires Follows(c, script, i) && Tracks(c, script, i, s) && s.next in s.pending
    ensures s.next < |script| && s.pending[s.next] == script[s.next]
    ensures var a := Adopt(c, s.(pending := s.pending - {s.next}), script[s.next]);
            a.Ok? && Tracks(c, script, i, a.value) && a.value.next == s.next + 1 && Advances(s, a.value)
  {
    AdoptStep(c, script, i, s.(pending := s.pending - {s.next}));
  }

  lemma {:induction false} DrainSettles(c: Config, script: seq<Message>, i: nat, s: State)
    requires Follows(c, script, i) && Tracks(c, script, i, s)
    ensures var d := Drain(c, s);
            && d.1 == None && Tracks(c, script, i, d.0) && Advances(s, d.0)
            && (d.0.next == i || Settled(i, d.0))
            && (s.next <= i ==> d.0.next <= i)
    decreases |script| - s.next
  {
    if !Done(c, s) {
      SameSeat(c, script, i, s.next);
      if s.next != i && s.next in s.pending {
        AdoptBuffered(c, script, i, s);
        var a := Adopt(c, s.(pending := s.pending - {s.next}), script[s.next]).value;
        DrainSettles(c, script, i, a);
      }
    }
  }

  /** Our own turn: the step succeeds and the replica settles beyond it. */
  lemma ExecuteSettles(c: Config, script: seq<Message>, i: nat, s: State)
    requires Follows(c, script, i) && Tracks(c, script, i, s) && s.next == i
    ensures GoodReply(c, script, i, s, ExecuteLocal(c, s)) && ExecuteLocal(c, s).s.next > i
  {
    SameSeat(c, script, i, i);
    var mine := s.(localPerm := c.perm);
    AdoptStep(c, script, i, mine);
    DrainSettles(c, script, i, Adopt(c, mine, script[i]).value);
  }

  lemma AfterApplySettles(c: Config, script: seq<Message>, i: nat, s: State)
    requires Follows(c, script, i) && Tracks(c, script, i, s)
    ensures GoodReply(c, script, i, s, AfterApply(c, s))
  {
    DrainSettles(c, script, i, s);
    var d := Drain(c, s).0;
    if !Done(c, d) {
      SameSeat(c, script, i, d.next);
      if d.next == i {
        ExecuteSettles(c, script, i, d);
      }
    }
  }

  /** Starting never fails and leaves the replica settled. */
  lemma StartSettles(c: Config, script: seq<Message>, i: nat)
    requires Follows(c, script, i)
    ensures GoodReply(c, script, i, FRESH, Start(c, FRESH))
  {
    SameSeat(c, script, i, 0);
    var s := FRESH.(started := true, current := c.initial);
    assert FRESH.applied.Keys == {} && FRESH.pending.Keys == {};
    assert forall k: nat :: k !in s.applied && k !in s.pending;
    if i == 0 {
      ExecuteSettles(c, script, i, s);
    }
  }

  lemma BufferStep(c: Config, script: seq<Message>, i: nat, s: State, k: nat)
    requires Tracks(c, script, i, s) && Settled(i, s) && i < |script| && s.next < k < |script| && k != i
    ensures GoodReply(c, script, i, s, Reply(s.(pending := s.pending[k := script[k]]), Ok(None)))
  {
  }

  lemma HandleNext(c: Config, script: seq<Message>, i: nat, s: State)
    requires Follows(c, script, i) && s.next < |script| && s.next != i && Tracks(c, script, i, s) && Settled(i, s)
    ensures GoodReply(c, script, i, s, Handle(c, s, script[s.next])) && Knows(Handle(c, s, script[s.next]).s, s.next)
  {
    SameSeat(c, script, i, s.next);
    assert Acceptable(c, script[s.next]);
    AdoptStep(c, script, i, s);
    AfterApplySettles(c, script, i, Adopt(c, s, script[s.next]).value);
  }

  /** Handling any step of the script never fails and remembers it. */
  lemma HandleSettles(c: Config, script: seq<Message>, i: nat, s: State, k: nat)
    requires Follows(c, script, i) && k < |script| && Tracks(c, script, i, s) && Settled(i, s)
    requires k == i ==> i < s.next
    ensures GoodReply(c, script, i, s, Handle(c, s, script[k])) && Knows(Handle(c, s, script[k]).s, k)
  {
    if k == s.next {
      HandleNext(c, script, i, s);
    } else {
      SameSeat(c, script, i, k);
      assert Acceptable(c, script[k]);
      if k < s.next {
        assert s.applied[k] == script[k];
      } else if k !in s.pending {
        BufferStep(c, script, i, s, k);
      }
    }
  }
}
