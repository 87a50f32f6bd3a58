// What a shuffle session keeps whatever it is sent (internal/crypto/shuffle_session.go:108-325), and
// when it fails to publish its own step.
module ShuffleSafety {
  import opened Shuffle
  import opened ShuffleReplica
  import opened ShuffleSession
  import opened Sra
  import opened Wrappers

  datatype Call = Begin | Receive(m: Message)

  function Do(c: Config, s: State, call: Call): Reply
    requires ValidConfig(c)
  {
    match call
    case Begin => Start(c, s)
    case Receive(m) => Handle(c, s, m)
  }

  /** The session after any calls. */
  function After(c: Config, calls: seq<Call>): State
    requires ValidConfig(c)
  {
    if calls == [] then FRESH else Do(c, After(c, calls[..|calls| - 1]), calls[|calls| - 1]).s
  }

  // ----------------------------------------------------------------------- the invariant

  /** The deck that seat k had to shuffle. */
  function DeckAt(c: Config, applied: map<nat, Message>, k: nat): seq<int> {
    if k == 0 then c.initial else if k - 1 in applied then applied[k - 1].deck else []
  }

  /** m is a well-formed step of seat k. */
  predicate StepFrom(c: Config, k: nat, m: Message) {
    k < |c.order| && m.player == c.order[k] && |m.deck| == |c.initial| && m.hand == c.hand
  }

  /**
   * The steps applied are those of the seats before next, each with a commitment that opens to
   * its deck, and seat i's own is the one executed here.
   */
  ghost predicate AppliedWell(c: Config, i: nat, next: nat, applied: map<nat, Message>)
    requires ValidConfig(c)
  {
    && (forall k: nat :: k in applied <==> k < next)
    && (forall k: nat :: k in applied ==> StepFrom(c, k, applied[k]) && Acceptable(c, applied[k]))
    && (i in applied ==> ExecutesTo(c, DeckAt(c, applied, i), applied[i]))
  }

  /** Only steps of other seats that are still to come are held. */
  ghost predicate HeldWell(c: Config, i: nat, next: nat, pending: map<nat, Message>) {
    forall k: nat :: k in pending ==> next <= k && k != i && StepFrom(c, k, pending[k])
  }

  ghost predicate Safe(c: Config, i: nat, s: State)
    requires ValidConfig(c)
  {
    && (!s.started ==> s == FRESH) && s.next <= |c.order|
    && (s.started ==> s.current == DeckAt(c, s.applied, s.next))
    && AppliedWell(c, i, s.next, s.applied) && HeldWell(c, i, s.next, s.pending)
    && (i in s.applied ==> s.localPerm == c.perm)
  }

  /** Between calls the step awaited is not among those held. */
  ghost predicate Rests(c: Config, i: nat, s: State)
    requires ValidConfig(c)
  {
    Safe(c, i, s) && s.next !in s.pending
  }

  /** s' has all that s has applied. */
  ghost predicate Extends(s: State, s': State) {
    s.next <= s'.next && forall k: nat :: k in s.applied ==> k in s'.applied && s'.applied[k] == s.applied[k]
  }

  lemma ExtendsAlong(a: State, b: State, c: State)
    requires Extends(a, b) && Extends(b, c)
    ensures Extends(a, c)
  {
  }

  /** Seat i is the local one. */
  ghost predicate Local(c: Config, i: nat) {
    ValidConfig(c) && i < |c.order| && c.order[i] == c.local
  }

  lemma SeatIs(c: Config, i: nat, k: nat, id: string)
    requires Local(c, i) && k < |c.order|
    ensures c.order[k] == id ==> SeatOf(c.order, id) == Some(k)
    ensures c.order[k] == c.local <==> k == i
  {
    var r := SeatOf(c.order, id);
  }

  lemma AppliedMore(c: Config, i: nat, next: nat, applied: map<nat, Message>, m: Message, all: map<nat, Message>)
    requires ValidConfig(c) && AppliedWell(c, i, next, applied) && StepFrom(c, next, m) && Acceptable(c, m)
    requires next == i ==> ExecutesTo(c, DeckAt(c, applied, next), m)
    requires all == applied[next := m]
    ensures AppliedWell(c, i, next + 1, all) && DeckAt(c, all, next + 1) == m.deck
  {
    assert i <= next ==> DeckAt(c, all, i) == DeckAt(c, applied, i);
  }

  lemma HeldLater(c: Config, i: nat, next: nat, pending: map<nat, Message>)
    requires HeldWell(c, i, next, pending) && next !in pending
    ensures HeldWell(c, i, next + 1, pending)
  {
  }

  lemma AdoptSafe(c: Config, i: nat, s: State, m: Message)
    requires Local(c, i) && Safe(c, i, s) && s.started && s.next !in s.pending
    requires StepFrom(c, s.next, m) && VerifyDeck(c.h, m.commitment, m.deck)
    requires s.next == i ==> ExecutesTo(c, s.current, m) && s.localPerm == c.perm
    ensures var a := Adopt(c, s, m);
            && a == Ok(s.(applied := s.applied[s.next := m], current := m.deck, next := s.next + 1))
            && Safe(c, i, a.value) && Extends(s, a.value)
  {
    AppliedMore(c, i, s.next, s.applied, m, s.applied[s.next := m]);
    HeldLater(c, i, s.next, s.pending);
  }

  lemma HoldSafe(c: Config, i: nat, s: State, k: nat, m: Message)
    requires ValidConfig(c) && Rests(c, i, s) && s.started && k > s.next && k != i && StepFrom(c, k, m)
    ensures Rests(c, i, s.(pending := s.pending[k := m]))
  {
  }

  lemma ReleaseSafe(c: Config, i: nat, s: State)
    requires ValidConfig(c) && Safe(c, i, s) && s.started
    ensures Safe(c, i, s.(pending := s.pending - {s.next}))
  {
  }

  /** Draining stops at the local seat and loses nothing but a step that does not open. */
  lemma {:induction false} DrainSafe(c: Config, i: nat, s: State)
    requires Local(c, i) && Safe(c, i, s) && s.started
    ensures var d := Drain(c, s).0;
            && Rests(c, i, d) && d.started && Extends(s, d) && (s.next <= i ==> d.next <= i)
            && forall k: nat :: k > d.next ==> (k in d.pending <==> k in s.pending) && (k in d.pending ==>
                d.pending[k] == s.pending[k])
    decreases |c.order| - s.next
  {
    if !Done(c, s) && c.order[s.next] != c.local && s.next in s.pending {
      SeatIs(c, i, s.next, c.local);
      var m, rest := s.pending[s.next], s.(pending := s.pending - {s.next});
      ReleaseSafe(c, i, s);
      if VerifyDeck(c.h, m.commitment, m.deck) {
        AdoptSafe(c, i, rest, m);
        DrainSafe(c, i, Adopt(c, rest, m).value);
      }
    }
  }

  lemma ExecuteSafe(c: Config, i: nat, s: State)
    requires Local(c, i) && Rests(c, i, s) && s.started
    ensures var r := ExecuteLocal(c, s); Rests(c, i, r.s) && r.s.started && Extends(s, r.s)
  {
    if ExpectedPlayer(c, s) == c.local {
      LocalIsNamed(c);
      SeatIs(c, i, s.next, c.local);
      var step := StepOf(c.h, |c.initial|, c.local, s.current, c.key, c.perm, c.nonce);
      if step.Ok? {
        var m, mine := Message(c.hand, c.local, step.value.output, step.value.commitment), s.(localPerm := c.perm);
        AdoptSafe(c, i, mine, m);
        DrainSafe(c, i, Adopt(c, mine, m).value);
      }
    }
  }

  lemma AfterApplySafe(c: Config, i: nat, s: State)
    requires Local(c, i) && Safe(c, i, s) && s.started
    ensures var r := AfterApply(c, s); Rests(c, i, r.s) && r.s.started && Extends(s, r.s)
  {
    DrainSafe(c, i, s);
    var d := Drain(c, s).0;
    ExecuteSafe(c, i, d);
    ExtendsAlong(s, d, ExecuteLocal(c, d).s);
  }

  lemma StartSafe(c: Config, i: nat, s: State)
    requires Local(c, i) && Rests(c, i, s)
    ensures Rests(c, i, Start(c, s).s) && Extends(s, Start(c, s).s)
  {
    if !s.started {
      var t := s.(started := true, current := c.initial);
      assert Rests(c, i, t);
      ExecuteSafe(c, i, t);
    }
  }

  lemma NextSafe(c: Config, i: nat, s: State, m: Message)
    requires Local(c, i) && Rests(c, i, s) && s.started && s.next != i
    requires StepFrom(c, s.next, m) && VerifyDeck(c.h, m.commitment, m.deck)
    ensures var a := Adopt(c, s, m);
            && a.Ok? && Rests(c, i, AfterApply(c, a.value).s) && Extends(s, AfterApply(c, a.value).s)
            && s.next in AfterApply(c, a.value).s.applied && AfterApply(c, a.value).s.applied[s.next] == m
  {
    AdoptSafe(c, i, s, m);
    var a := Adopt(c, s, m).value;
    AfterApplySafe(c, i, a);
    ExtendsAlong(s, a, AfterApply(c, a).s);
    assert s.next in a.applied;
  }

  /** The call is refused and leaves the session as it was. */
  predicate Refused(s: State, r: Reply) {
    r.s == s && r.out.Err?
  }

  /** What comes of a well-formed step of seat k. */
  lemma HandleIs(c: Config, i: nat, s: State, k: nat, m: Message)
    requires Local(c, i) && Safe(c, i, s) && s.started && StepFrom(c, k, m)
    ensures k > s.next && k != i && k !in s.pending ==>
              Handle(c, s, m) == Reply(s.(pending := s.pending[k := m]), Ok(None))
    ensures k > s.next && k != i && k in s.pending ==>
              Handle(c, s, m) == Reply(s, if s.pending[k] == m then Ok(None) else Err(ConflictingBuffered))
    ensures k < s.next ==>
              Handle(c, s, m) == Reply(s, if s.applied[k] == m then Ok(None) else Err(ConflictingDuplicate))
    ensures k >= s.next && k == i ==> Refused(s, Handle(c, s, m))
    ensures k == s.next && k != i ==>
              Handle(c, s, m) == if VerifyDeck(c.h, m.commitment, m.deck) then AfterApply(c, Adopt(c, s, m).value)
                                 else Reply(s, Err(BadCommitment))
  {
    SeatIs(c, i, k, m.player);
    SeatIs(c, i, k, c.local);
  }

  lemma HandleSafe(c: Config, i: nat, s: State, m: Message)
    requires Local(c, i) && Rests(c, i, s)
    ensures Rests(c, i, Handle(c, s, m).s) && Extends(s, Handle(c, s, m).s)
  {
    var seat := SeatOf(c.order, m.player);
    if s.started && Rejection(c, m).None? && seat.Some? {
      var k := seat.value;
      HandleIs(c, i, s, k, m);
      if k == s.next && k != i {
        if VerifyDeck(c.h, m.commitment, m.deck) {
          NextSafe(c, i, s, m);
        }
      } else if k > s.next && k != i && k !in s.pending {
        HoldSafe(c, i, s, k, m);
      }
    }
  }

  lemma DoSafe(c: Config, i: nat, s: State, call: Call)
    requires Local(c, i) && Rests(c, i, s)
    ensures Rests(c, i, Do(c, s, call).s) && Extends(s, Do(c, s, call).s)
  {
    match call {
      case Begin => StartSafe(c, i, s);
      case Receive(m) => HandleSafe(c, i, s, m);
    }
  }

  /** Whatever a session is sent, in whatever order and by whomever, its state is safe. */
  lemma {:induction false} AfterIsSafe(c: Config, i: nat, calls: seq<Call>)
    requires Local(c, i)
    ensures Rests(c, i, After(c, calls))
  {
    if calls == [] {
      assert FRESH.applied == map[] && FRESH.pending == map[];
    } else {
      var front := calls[..|calls| - 1];
      AfterIsSafe(c, i, front);
      DoSafe(c, i, After(c, front), calls[|calls| - 1]);
    }
  }

  /** What has been applied stays applied, whatever comes later. */
  lemma {:induction false} AppliedForGood(c: Config, i: nat, calls: seq<Call>, all: seq<Call>)
    requires Local(c, i) && calls <= all
    ensures Extends(After(c, calls), After(c, all))
  {
    if calls != all {
      var front, last := all[..|all| - 1], all[|all| - 1];
      var s := After(c, front);
      AppliedForGood(c, i, calls, front);
      AfterIsSafe(c, i, front);
      DoSafe(c, i, s, last);
      ExtendsAlong(After(c, calls), s, Do(c, s, last).s);
    }
  }

  // ------------------------------------------------------------------- what is taken in

  /** The step of seat k that has been taken in. */
  function Known(s: State, k: nat): Message
    requires Knows(s, k) && forall j: nat :: j < s.next ==> j in s.applied
  {
    if k < s.next then s.applied[k] else s.pending[k]
  }

  /** A message that is no well-formed step of another seat is refused, or is the own step coming back. */
  lemma StrangersRefused(c: Config, i: nat, s: State, m: Message)
    requires Local(c, i) && Rests(c, i, s) && forall k: nat :: StepFrom(c, k, m) ==> k == i && i >= s.next
    ensures Refused(s, Handle(c, s, m))
  {
    var seat := SeatOf(c.order, m.player);
    if seat.Some? && Rejection(c, m).None? {
      assert StepFrom(c, seat.value, m);
      SeatIs(c, i, i, c.local);
    }
  }

  /** Of the steps that a seat sends, the first one taken in stands: copies are ignored, others refused. */
  lemma FirstStepStands(c: Config, i: nat, s: State, k: nat, m: Message)
    requires Local(c, i) && Rests(c, i, s) && s.started && Knows(s, k) && StepFrom(c, k, m)
    ensures if m == Known(s, k) then Handle(c, s, m) == Reply(s, Ok(None)) else Refused(s, Handle(c, s, m))
  {
    HandleIs(c, i, s, k, m);
  }

  /** A seat's first step is taken in exactly if it is not awaited yet or its commitment opens. */
  lemma NewStepTaken(c: Config, i: nat, s: State, k: nat, m: Message)
    requires Local(c, i) && Rests(c, i, s) && s.started && !Knows(s, k) && StepFrom(c, k, m) && k != i
    ensures var r := Handle(c, s, m);
            if k > s.next || VerifyDeck(c.h, m.commitment, m.deck)
            then Rests(c, i, r.s) && Knows(r.s, k) && Known(r.s, k) == m
            else Refused(s, r)
  {
    HandleIs(c, i, s, k, m);
    if k > s.next {
      HoldSafe(c, i, s, k, m);
    } else if VerifyDeck(c.h, m.commitment, m.deck) {
      NextSafe(c, i, s, m);
    }
  }

  // ------------------------------------------------------- when the own step is published

  /** The steps of seats k to n are all held. */
  ghost predicate HeldFrom<T>(pending: map<nat, T>, k: nat, n: nat) {
    k <= n && forall j: nat :: k <= j <= n ==> j in pending
  }

  /** The held steps from seat k on, up to the first that is missing, all open. */
  ghost predicate HeldOpen(c: Config, pending: map<nat, Message>, k: nat) {
    forall n: nat :: HeldFrom(pending, k, n) ==> VerifyDeck(c.h, pending[n].commitment, pending[n].deck)
  }

  lemma HeldFromRest<T>(pending: map<nat, T>, k: nat, n: nat, rest: map<nat, T>)
    requires k in pending && n > k && rest == pending - {k}
    ensures HeldFrom(rest, k + 1, n) <==> HeldFrom(pending, k, n)
  {
    if HeldFrom(rest, k + 1, n) {
      forall j: nat | k <= j <= n ensures j in pending {
        assert j == k || j in rest;
      }
    }
  }

  lemma HeldOpenSteps(c: Config, pending: map<nat, Message>, k: nat, rest: map<nat, Message>)
    requires k in pending && rest == pending - {k}
    ensures HeldOpen(c, pending, k) <==>
            VerifyDeck(c.h, pending[k].commitment, pending[k].deck) && HeldOpen(c, rest, k + 1)
  {
    assert HeldFrom(pending, k, k);
    forall n: nat | n > k ensures HeldFrom(rest, k + 1, n) <==> HeldFrom(pending, k, n) {
      HeldFromRest(pending, k, n, rest);
    }
    assert forall n: nat :: HeldFrom(pending, k, n) ==> n == k || HeldFrom(rest, k + 1, n);
  }

  /** Past the own turn, draining fails exactly if a held step that follows on does not open. */
  lemma {:induction false} DrainFailsExactly(c: Config, i: nat, s: State)
    requires Local(c, i) && Safe(c, i, s) && s.started && s.next > i
    ensures Drain(c, s).1 == if HeldOpen(c, s.pending, s.next) then None else Some(BadCommitment)
    decreases |c.order| - s.next
  {
    if s.next in s.pending {
      var m, rest := s.pending[s.next], s.(pending := s.pending - {s.next});
      HeldOpenSteps(c, s.pending, s.next, rest.pending);
      ReleaseSafe(c, i, s);
      DrainNext(c, i, s, m, rest);
      if VerifyDeck(c.h, m.commitment, m.deck) {
        AdoptSafe(c, i, rest, m);
        DrainFailsExactly(c, i, Adopt(c, rest, m).value);
      }
    }
  }

  lemma DrainNext(c: Config, i: nat, s: State, m: Message, rest: State)
    requires Local(c, i) && Safe(c, i, s) && s.next > i && s.next in s.pending && m == s.pending[s.next]
    requires rest == s.(pending := s.pending - {s.next})
    ensures StepFrom(c, s.next, m) && Drain(c, s) ==
            if VerifyDeck(c.h, m.commitment, m.deck) then Drain(c, Adopt(c, rest, m).value)
            else (rest, Some(BadCommitment))
  {
    assert StepFrom(c, s.next, m);
    SeatIs(c, i, s.next, c.local);
  }

  lemma HeldSame(c: Config, a: map<nat, Message>, b: map<nat, Message>, k: nat)
    requires forall n: nat :: n >= k ==> (n in a <==> n in b) && (n in a ==> a[n] == b[n])
    ensures HeldOpen(c, a, k) <==> HeldOpen(c, b, k)
  {
    assert forall n: nat :: HeldFrom(a, k, n) <==> HeldFrom(b, k, n);
  }

  /** The call hands out a step to publish. */
  predicate Publishes(r: Reply, m: Message) {
    r.out == Ok(Some(m))
  }

  ghost predicate PublishingIs(c: Config, i: nat, s: State, r: Reply)
    requires ValidConfig(c)
  {
    && ((exists m :: Publishes(r, m)) <==> i !in s.applied && i in r.s.applied && HeldOpen(c, s.pending, i + 1))
    && (forall m :: Publishes(r, m) ==> i in r.s.applied && m == r.s.applied[i])
    && (i !in s.applied && i in r.s.applied && !HeldOpen(c, s.pending, i + 1) ==> r.out == Err(BadCommitment))
  }

  lemma ExecutePublishes(c: Config, i: nat, s: State)
    requires Local(c, i) && Rests(c, i, s) && s.started && s.next == i
    ensures PublishingIs(c, i, s, ExecuteLocal(c, s))
  {
    LocalIsNamed(c);
    SeatIs(c, i, i, c.local);
    var r, step := ExecuteLocal(c, s), StepOf(c.h, |c.initial|, c.local, s.current, c.key, c.perm, c.nonce);
    if step.Ok? {
      var m, mine := Message(c.hand, c.local, step.value.output, step.value.commitment), s.(localPerm := c.perm);
      AdoptSafe(c, i, mine, m);
      var a := Adopt(c, mine, m).value;
      DrainSafe(c, i, a);
      DrainFailsExactly(c, i, a);
      assert i in a.applied && a.applied[i] == m;
      assert Publishes(r, m) <==> HeldOpen(c, s.pending, i + 1);
    }
  }

  lemma PublishingSame(c: Config, i: nat, s: State, d: State, r: Reply)
    requires ValidConfig(c) && PublishingIs(c, i, d, r) && (i in s.applied <==> i in d.applied)
    requires forall n: nat :: n > i ==> (n in s.pending <==> n in d.pending) && (n in s.pending ==>
        s.pending[n] == d.pending[n])
    ensures PublishingIs(c, i, s, r)
  {
    HeldSame(c, s.pending, d.pending, i + 1);
  }

  lemma AfterApplyPublishes(c: Config, i: nat, s: State)
    requires Local(c, i) && Safe(c, i, s) && s.started
    ensures PublishingIs(c, i, s, AfterApply(c, s))
  {
    DrainSafe(c, i, s);
    var d := Drain(c, s);
    if d.1.None? && !Done(c, d.0) && c.order[d.0.next] == c.local {
      SeatIs(c, i, d.0.next, c.local);
      ExecutePublishes(c, i, d.0);
      PublishingSame(c, i, s, d.0, ExecuteLocal(c, d.0));
    }
  }

  lemma StartPublishes(c: Config, i: nat, s: State)
    requires Local(c, i) && Rests(c, i, s)
    ensures PublishingIs(c, i, s, Start(c, s))
  {
    if !s.started {
      var t := s.(started := true, current := c.initial);
      if i == 0 {
        ExecutePublishes(c, i, t);
      } else {
        SeatIs(c, i, 0, c.local);
      }
    }
  }

  /**
   * A call hands out the local step exactly if it is the call that applies it and the held steps that
   * follow on all open. Otherwise the step is applied and an error is returned in its place, and no
   * later call hands it out.
   */
  lemma PublishesExactly(c: Config, i: nat, s: State, call: Call)
    requires Local(c, i) && Rests(c, i, s)
    ensures PublishingIs(c, i, s, Do(c, s, call))
  {
    match call {
      case Begin => StartPublishes(c, i, s);
      case Receive(m) =>
        var seat := SeatOf(c.order, m.player);
        if s.started && Rejection(c, m).None? && seat.Some? {
          HandleIs(c, i, s, seat.value, m);
          if seat.value == s.next && s.next != i && VerifyDeck(c.h, m.commitment, m.deck) {
            AdoptSafe(c, i, s, m);
            AfterApplyPublishes(c, i, Adopt(c, s, m).value);
            PublishingSame(c, i, s, Adopt(c, s, m).value, Handle(c, s, m));
          }
        }
    }
  }

  // A table of three with a commitment scheme in which a commitment opens if its hash is its nonce.
  const NONCE_HASH: DeckHash := (deck: seq<int>, nonce: Bytes) => nonce
  const THREE := Config(NONCE_HASH, ["A", "B", "C"], "B", Key(3, Some(3), 5), 1, [2], [0], [0])
  const GOOD := Message(1, "A", [3], Commitment([], []))
  const BAD := Message(1, "C", [2], Commitment([0], []))

  const HELD_BAD := State(true, 0, [2], map[2 := BAD], map[], [])

  lemma BadIsHeld()
    ensures ValidConfig(THREE) && Local(THREE, 1) && After(THREE, [Begin, Receive(BAD)]) == HELD_BAD
  {
    var begun := State(true, 0, [2], map[], map[], []);
    assert [Begin][..0] == [] && Do(THREE, FRESH, Begin).s == begun;
    assert [Begin, Receive(BAD)][..1] == [Begin];
    AfterIsSafe(THREE, 1, [Begin]);
    HandleIs(THREE, 1, begun, 2, BAD);
  }

  /** The third seat's bad step comes in first: the second seat applies its own step and keeps it to itself. */
  lemma OwnStepIsLost()
    ensures After(THREE, [Begin, Receive(BAD)]) == HELD_BAD
    ensures var r := Handle(THREE, HELD_BAD, GOOD); 1 in r.s.applied && r.s.next == 2 && r.out == Err(BadCommitment)
  {
    BadIsHeld();
    var a := Adopt(THREE, HELD_BAD, GOOD).value;
    assert Drain(THREE, a) == (a, None);
    var mine := a.(localPerm := [0]);
    var step := StepOf(THREE.h, 1, "B", [3], THREE.key, [0], [0]).value;
    var own := Adopt(THREE, mine, Message(1, "B", step.output, step.commitment)).value;
    assert Drain(THREE, own).1 == Some(BadCommitment);
  }
}
