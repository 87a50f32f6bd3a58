// One replica's turn-taking machine for the distributed shuffle
// (internal/crypto/shuffle_session.go): steps arrive in any order and more than once.
module ShuffleSession {
  import opened Shuffle
  import opened Sra
  import opened Wrappers

  datatype Message = Message(hand: int, player: string, deck: seq<int>, commitment: Commitment)

  // What a session is built from: the keyring, the hand, the plaintext deck, and the
  // random choices that this replica makes when its turn comes.
  datatype Config = Config(h: DeckHash, order: seq<string>, local: string, key: Key, hand: int,
                           initial: seq<int>, perm: seq<nat>, nonce: Bytes)

  ghost predicate ValidConfig(c: Config) {
    && |c.order| >= 2 && c.local in c.order && c.initial != []
    && (forall i, j :: 0 <= i < j < |c.order| ==> c.order[i] != c.order[j])
    && (forall i :: 0 <= i < |c.order| ==> c.order[i] != "")
    && Permutes(c.perm, |c.initial|)
  }

  // The mutable part of a session.
  datatype State = State(started: bool, next: nat, current: seq<int>, pending: map<nat, Message>,
                         applied: map<nat, Message>, localPerm: seq<nat>)

  // A new state and what the call returns: nothing, a step to publish, or an error.
  datatype Reply = Reply(s: State, out: Result<Option<Message>>)

  const FRESH := State(false, 0, [], map[], map[], [])

  function SeatOf(order: seq<string>, id: string): (r: Option<nat>)
    ensures r.Some? ==> r.value < |order| && order[r.value] == id
    ensures r.None? ==> id !in order
  {
    if order == [] then None
    else if order[0] == id then Some(0)
    else var rest := SeatOf(order[1..], id); if rest.None? then None else Some(rest.value + 1)
  }

  predicate Done(c: Config, s: State) {
    s.next >= |c.order|
  }

  function ExpectedPlayer(c: Config, s: State): string {
    if Done(c, s) then "" else c.order[s.next]
  }

  function Rejection(c: Config, m: Message): Option<Error> {
    if m.player == "" then Some(EmptyPlayerID)
    else if |m.deck| != |c.initial| then Some(WrongDeckSize)
    else if m.hand != c.hand then Some(WrongHand)
    else None
  }

  /** verifyAndAdopt: a step with a good commitment becomes the current deck. */
  function Adopt(c: Config, s: State, m: Message): Result<State> {
    if !VerifyDeck(c.h, m.commitment, m.deck) then Err(BadCommitment)
    else Ok(s.(applied := s.applied[s.next := m], current := m.deck, next := s.next + 1))
  }

  /** drainPending: adopt buffered steps while they follow on and it is not our turn. */
  function Drain(c: Config, s: State): (State, Option<Error>)
    decreases |c.order| - s.next
  {
    if Done(c, s) || ExpectedPlayer(c, s) == c.local || s.next !in s.pending then (s, None) else
    var m := s.pending[s.next];
    var rest := s.(pending := s.pending - {s.next});
    var a := Adopt(c, rest, m);
    if a.Err? then (rest, Some(a.error)) else Drain(c, a.value)
  }

  /** executeLocal: our own encrypt-and-permute step, applied here and returned for publishing. */
  function ExecuteLocal(c: Config, s: State): Reply
    requires ValidConfig(c)
  {
    if ExpectedPlayer(c, s) != c.local then Reply(s, Err(NotOurTurn)) else
    var step := StepOf(c.h, |c.initial|, c.local, s.current, c.key, c.perm, c.nonce);
    if step.Err? then Reply(s, Err(step.error)) else
    var m := Message(c.hand, c.local, step.value.output, step.value.commitment);
    var mine := s.(localPerm := c.perm);
    var a := Adopt(c, mine, m);
    if a.Err? then Reply(mine, Err(a.error)) else
    var d := Drain(c, a.value);
    Reply(d.0, if d.1.Some? then Err(d.1.value) else Ok(Some(m)))
  }

  function AfterApply(c: Config, s: State): Reply
    requires ValidConfig(c)
  {
    var d := Drain(c, s);
    if d.1.Some? then Reply(d.0, Err(d.1.value))
    else if !Done(c, d.0) && ExpectedPlayer(c, d.0) == c.local then ExecuteLocal(c, d.0)
    else Reply(d.0, Ok(None))
  }

  function Start(c: Config, s: State): Reply
    requires ValidConfig(c)
  {
    if s.started || s.next != 0 then Reply(s, Err(AlreadyStarted)) else
    var s' := s.(started := true, current := c.initial);
    if ExpectedPlayer(c, s') == c.local then ExecuteLocal(c, s') else Reply(s', Ok(None))
  }

  function Handle(c: Config, s: State, m: Message): Reply
    requires ValidConfig(c)
  {
    if !s.started then Reply(s, Err(NotStarted)) else
    var bad := Rejection(c, m);
    if bad.Some? then Reply(s, Err(bad.value)) else
    var seat := SeatOf(c.order, m.player);
    if seat.None? then Reply(s, Err(UnknownPlayer))
    else if seat.value < s.next then
      Reply(s, if seat.value in s.applied && s.applied[seat.value] == m then Ok(None) else Err(ConflictingDuplicate))
    else if seat.value == s.next then
      if m.player == c.local then Reply(s, Err(LocalMessage)) else
      var a := Adopt(c, s, m);
      if a.Err? then Reply(s, Err(a.error)) else AfterApply(c, a.value)
    else if m.player == c.local then Reply(s, Err(WrongSeat))
    else if seat.value in s.pending then
      Reply(s, if s.pending[seat.value] == m then Ok(None) else Err(ConflictingBuffered))
    else Reply(s.(pending := s.pending[seat.value := m]), Ok(None))
  }

  // ------------------------------------------------------------ the session object

  class Session {
    const config: Config
    var started: bool
    var nextIndex: nat
    var current: seq<int>
    var pending: map<nat, Message>
    var applied: map<nat, Message>
    var localPerm: seq<nat>

    ghost function View(): State
      reads this
    {
      State(started, nextIndex, current, pending, applied, localPerm)
    }

    constructor (c: Config)
      requires ValidConfig(c)
      ensures config == c && View() == FRESH
    {
      config := c;
      started, nextIndex, current := false, 0, [];
      pending, applied, localPerm := map[], map[], [];
    }

    method StartSession() returns (r: Result<Option<Message>>)
      requires ValidConfig(config)
      modifies this
      ensures Reply(View(), r) == Start(config, old(View()))
    {
      if started || nextIndex != 0 {
        return Err(AlreadyStarted);
      }
      started := true;
      current := config.initial;
      if config.order[nextIndex] == config.local {
        r := ExecuteLocalStep();
      } else {
        r := Ok(None);
      }
    }

    method HandleMessage(m: Message) returns (r: Result<Option<Message>>)
      requires ValidConfig(config)
      modifies this
      ensures Reply(View(), r) == Handle(config, old(View()), m)
    {
      if !started {
        return Err(NotStarted);
      }
      var bad := Rejection(config, m);
      if bad.Some? {
        return Err(bad.value);
      }
      var found := SeatOf(config.order, m.player);
      if found.None? {
        return Err(UnknownPlayer);
      }
      var seat := found.value;
      if seat < nextIndex {
        if seat in applied && applied[seat] == m {
          return Ok(None);
        }
        return Err(ConflictingDuplicate);
      }
      if seat == nextIndex {
        if m.player == config.local {
          return Err(LocalMessage);
        }
        var e := VerifyAndAdopt(m);
        if e.Some? {
          return Err(e.value);
        }
        r := AfterApplyStep();
        return;
      }
      if m.player == config.local {
        return Err(WrongSeat);
      }
      if seat in pending {
        if pending[seat] == m {
          return Ok(None);
        }
        return Err(ConflictingBuffered);
      }
      pending := pending[seat := m];
      return Ok(None);
    }

    method VerifyAndAdopt(m: Message) returns (e: Option<Error>)
      modifies this
      ensures var a := Adopt(config, old(View()), m);
              if a.Err? then View() == old(View()) && e == Some(a.error) else View() == a.value && e == None
    {
      if !VerifyDeck(config.h, m.commitment, m.deck) {
        return Some(BadCommitment);
      }
      applied := applied[nextIndex := m];
      current := m.deck;
      nextIndex := nextIndex + 1;
      return None;
    }

    method DrainPending() returns (e: Option<Error>)
      modifies this
      ensures (View(), e) == Drain(config, old(View()))
    {
      while true
        invariant Drain(config, View()) == Drain(config, old(View()))
        decreases |config.order| - nextIndex
      {
        if nextIndex >= |config.order| || config.order[nextIndex] == config.local || nextIndex !in pending {
          return None;
        }
        var m := pending[nextIndex];
        pending := pending - {nextIndex};
        var failed := VerifyAndAdopt(m);
        if failed.Some? {
          return failed;
        }
      }
    }

    method ExecuteLocalStep() returns (r: Result<Option<Message>>)
      requires ValidConfig(config)
      modifies this
      ensures Reply(View(), r) == ExecuteLocal(config, old(View()))
    {
      if nextIndex >= |config.order| || config.order[nextIndex] != config.local {
        LocalIsNamed(config);
        return Err(NotOurTurn);
      }
      var step := ExecuteStep(config.h, |config.initial|, config.local, current, config.key, config.perm, config.nonce);
      if step.Err? {
        return Err(step.error);
      }
      localPerm := config.perm;
      var m := Message(config.hand, config.local, step.value.output, step.value.commitment);
      var e := VerifyAndAdopt(m);
      if e != None {
        return Err(BadCommitment);
      }
      e := DrainPending();
      if e.Some? {
        return Err(e.value);
      }
      return Ok(Some(m));
    }

    method AfterApplyStep() returns (r: Result<Option<Message>>)
      requires ValidConfig(config)
      modifies this
      ensures Reply(View(), r) == AfterApply(config, old(View()))
    {
      var e := DrainPending();
      if e.Some? {
        return Err(e.value);
      }
      if nextIndex < |config.order| && config.order[nextIndex] == config.local {
        r := ExecuteLocalStep();
      } else {
        r := Ok(None);
      }
    }
  }

  lemma LocalIsNamed(c: Config)
    requires ValidConfig(c)
    ensures c.local != ""
  {
    var i :| 0 <= i < |c.order| && c.order[i] == c.local;
  }
}
