// n shuffle replicas over a network that delivers published steps to anyone, in any
// order and any number of times: agreement, freedom from errors, and no stuck state.
module ShuffleNetwork {
  import opened Deal
  import opened Params
  import opened Shuffle
  import opened ShuffleReplica
  import opened ShuffleSession
  import opened Sra
  import opened TurnNetwork

  /** One replica per seat, all following one script. */
  ghost predicate Scripted(cs: seq<Config>, script: seq<Message>) {
    && |cs| == |script| >= 2
    && forall i :: 0 <= i < |cs| ==> Follows(cs[i], script, i)
  }

  function Published(r: Reply): (State, set<Message>) {
    (r.s, if r.out.Ok? && r.out.value.Some? then {r.out.value.value} else {})
  }

  /** The shuffle session of every seat as a turn-taking machine. */
  ghost function ShuffleProtocol(cs: seq<Config>, script: seq<Message>): Protocol<State, Message>
    requires Scripted(cs, script)
  {
    Protocol(
      script,
      |script|,
      (k: nat) => k,
      (i: nat, s: State, input: Input<Message>) =>
        if i >= |cs| || input.Nudge? then (s, {}) else
        assert Follows(cs[i], script, i);
        Published(if input.Begin? then Start(cs[i], s) else Handle(cs[i], s, input.m)),
      (i: nat, s: State) => i < |cs| && Good(cs[i], script, i, s),
      (s: State) => s.started,
      (s: State) => s.next,
      (s: State, k: nat) => Knows(s, k),
      (i: nat, s: State) => true)
  }

  /** A seat's only duty is its own step. */
  lemma OwnDuty(cs: seq<Config>, script: seq<Message>, i: nat, from: nat, to: nat)
    requires Scripted(cs, script) && i < |cs|
    ensures Duties(ShuffleProtocol(cs, script), i, from, to) == if from <= i < to then {script[i]} else {}
  {
  }

  lemma BeginMoves(cs: seq<Config>, script: seq<Message>, i: nat, s: State)
    requires Scripted(cs, script) && i < |cs| && Good(cs[i], script, i, s) && !s.started
    ensures Moved(ShuffleProtocol(cs, script), i, s, ShuffleProtocol(cs, script).react(i, s, Begin))
    ensures s.next == 0 && forall k: nat :: !Knows(s, k)
  {
    assert Follows(cs[i], script, i);
    StartSettles(cs[i], script, i);
    assert FRESH.pending.Keys == {};
    var P := ShuffleProtocol(cs, script);
    assert s == FRESH;
    assert P.react(i, s, Begin) == Published(Start(cs[i], s));
    var r := Published(Start(cs[i], s));
    OwnDuty(cs, script, i, s.next, r.0.next);
    assert P.good(i, r.0) && P.started(r.0) && P.turn(s) == s.next && P.turn(r.0) == r.0.next;
  }

  /** What a started session does with a step of the script. */
  lemma HandlePublishes(c: Config, script: seq<Message>, i: nat, s: State, k: nat)
    requires Follows(c, script, i) && Good(c, script, i, s) && s.started && k < |script| && (k == i ==> i < s.next)
    ensures var r := Published(Handle(c, s, script[k]));
            && Good(c, script, i, r.0) && r.0.started && s.next <= r.0.next && Knows(r.0, k)
            && (forall l: nat :: Knows(s, l) ==> Knows(r.0, l))
            && r.1 == if s.next <= i < r.0.next then {script[i]} else {}
  {
    HandleSettles(c, script, i, s, k);
  }

  lemma StepMoved(cs: seq<Config>, script: seq<Message>, i: nat, s: State, r: (State, set<Message>))
    requires Scripted(cs, script) && i < |cs| && Good(cs[i], script, i, r.0) && r.0.started && s.next <= r.0.next
    requires forall l: nat :: Knows(s, l) ==> Knows(r.0, l)
    requires r.1 == if s.next <= i < r.0.next then {script[i]} else {}
    ensures Moved(ShuffleProtocol(cs, script), i, s, r)
  {
    OwnDuty(cs, script, i, s.next, r.0.next);
  }

  lemma HandleMoves(cs: seq<Config>, script: seq<Message>, i: nat, s: State, k: nat)
    requires Scripted(cs, script) && i < |cs| && Good(cs[i], script, i, s) && s.started
    requires k < |script| && (k == i ==> i < s.next)
    ensures var r := ShuffleProtocol(cs, script).react(i, s, Receive(script[k]));
            Moved(ShuffleProtocol(cs, script), i, s, r) && Knows(r.0, k)
  {
    assert Follows(cs[i], script, i);
    HandlePublishes(cs[i], script, i, s, k);
    StepMoved(cs, script, i, s, Published(Handle(cs[i], s, script[k])));
  }

  /** There is nothing that a shuffle session does unasked. */
  lemma ShuffleNudgesWell(cs: seq<Config>, script: seq<Message>)
    requires Scripted(cs, script)
    ensures NudgesWell(ShuffleProtocol(cs, script))
  {
    var P := ShuffleProtocol(cs, script);
    forall i: nat, s | i < P.machines && P.good(i, s) && P.started(s) ensures Moved(P, i, s, P.react(i, s, Nudge)) {
      OwnDuty(cs, script, i, s.next, s.next);
    }
  }

  lemma StepsDiffer(cs: seq<Config>, script: seq<Message>, k: nat, l: nat)
    requires Scripted(cs, script) && k < l < |script|
    ensures script[k] != script[l]
  {
    assert Follows(cs[0], script, 0);
    SameSeat(cs[0], script, 0, k);
    SameSeat(cs[0], script, 0, l);
  }

  lemma ShuffleBeginsWell(cs: seq<Config>, script: seq<Message>)
    requires Scripted(cs, script)
    ensures BeginsWell(ShuffleProtocol(cs, script))
  {
    var P := ShuffleProtocol(cs, script);
    forall i: nat, s | i < |script| && P.good(i, s) && !P.started(s)
      ensures Moved(P, i, s, P.react(i, s, Begin)) && P.turn(s) == 0 && forall k: nat :: !P.knows(s, k)
    {
      BeginMoves(cs, script, i, s);
    }
  }

  lemma ShuffleReceivesWell(cs: seq<Config>, script: seq<Message>)
    requires Scripted(cs, script)
    ensures ReceivesWell(ShuffleProtocol(cs, script))
  {
    var P := ShuffleProtocol(cs, script);
    forall i: nat, s, k: nat | i < |script| && P.good(i, s) && P.started(s) && k < |script|
        && (P.agent(k) == i ==> k < P.turn(s))
      ensures var r := P.react(i, s, Receive(script[k])); Moved(P, i, s, r) && P.knows(r.0, k)
    {
      HandleMoves(cs, script, i, s, k);
    }
  }

  lemma ShuffleIgnoresRest(cs: seq<Config>, script: seq<Message>)
    requires Scripted(cs, script)
    ensures IgnoresRest(ShuffleProtocol(cs, script))
  {
    var P := ShuffleProtocol(cs, script);
    forall i: nat, s | i < |script| && P.good(i, s) && P.started(s) ensures P.react(i, s, Begin) == (s, {}) {
      assert Follows(cs[i], script, i);
      assert P.react(i, s, Begin) == Published(Start(cs[i], s));
    }
    forall i: nat, s, x: Input<Message> | i < |script| && P.good(i, s) && !P.started(s) && !x.Begin?
      ensures P.react(i, s, x) == (s, {})
    {
      assert Follows(cs[i], script, i);
      if x.Receive? {
        assert P.react(i, s, x) == Published(Handle(cs[i], s, x.m));
      }
    }
  }

  lemma ShuffleWaitsForOthers(cs: seq<Config>, script: seq<Message>)
    requires Scripted(cs, script)
    ensures WaitsForOthers(ShuffleProtocol(cs, script))
  {
  }

  lemma ShuffleProtocolSound(cs: seq<Config>, script: seq<Message>)
    requires Scripted(cs, script)
    ensures Sound(ShuffleProtocol(cs, script))
  {
    forall k, l | 0 <= k < l < |script| ensures script[k] != script[l] {
      StepsDiffer(cs, script, k, l);
    }
    ShuffleBeginsWell(cs, script);
    ShuffleReceivesWell(cs, script);
    ShuffleNudgesWell(cs, script);
    ShuffleIgnoresRest(cs, script);
    ShuffleWaitsForOthers(cs, script);
  }

  ghost function ShuffleRun(cs: seq<Config>, script: seq<Message>, events: seq<Event<Message>>): (net: Net<State,
      Message>)
    requires Scripted(cs, script)
    ensures |net.reps| == |net.heard| == |cs|
  {
    RunNet(ShuffleProtocol(cs, script), seq(|cs|, _ => FRESH), events)
  }

  lemma ReplicasStayGood(cs: seq<Config>, script: seq<Message>, events: seq<Event<Message>>)
    requires Scripted(cs, script)
    ensures NetInv(ShuffleProtocol(cs, script), ShuffleRun(cs, script, events))
    ensures forall i :: 0 <= i < |cs| ==> Good(cs[i], script, i, ShuffleRun(cs, script, events).reps[i])
  {
    var P := ShuffleProtocol(cs, script);
    ShuffleProtocolSound(cs, script);
    RunKeepsInv(P, seq(|cs|, _ => FRESH), events);
    forall i | 0 <= i < |cs| ensures Good(cs[i], script, i, ShuffleRun(cs, script, events).reps[i]) {
      assert P.good(i, ShuffleRun(cs, script, events).reps[i]);
    }
  }

  // --------------------------------------------------------------------- theorems

  lemma GoodAgree(c: Config, c': Config, script: seq<Message>, i: nat, j: nat, a: State, b: State)
    requires Good(c, script, i, a) && Good(c', script, j, b) && c.initial == c'.initial
    ensures forall k :: k in a.applied && k in b.applied ==> a.applied[k] == b.applied[k]
    ensures a.started && b.started && a.next == b.next ==> a.current == b.current
    ensures a.next <= b.next ==> a.applied.Keys <= b.applied.Keys
  {
    assert FRESH.applied.Keys == {};
  }

  /** In every reachable state any two replicas agree on every step both have applied, and on the deck. */
  lemma ShuffleAgreement(cs: seq<Config>, script: seq<Message>, events: seq<Event<Message>>, i: nat, j: nat)
    requires Scripted(cs, script) && i < |cs| && j < |cs| && cs[i].initial == cs[j].initial
    ensures var a, b := ShuffleRun(cs, script, events).reps[i], ShuffleRun(cs, script, events).reps[j];
            && (forall k :: k in a.applied && k in b.applied ==> a.applied[k] == b.applied[k])
            && (a.started && b.started && a.next == b.next ==> a.current == b.current)
            && (a.next <= b.next ==> a.applied.Keys <= b.applied.Keys)
  {
    ReplicasStayGood(cs, script, events);
    var net := ShuffleRun(cs, script, events);
    GoodAgree(cs[i], cs[j], script, i, j, net.reps[i], net.reps[j]);
  }

  lemma PublishedIsScript(cs: seq<Config>, script: seq<Message>, events: seq<Event<Message>>, i: nat,
      m: Message) returns (k: nat)
    requires Scripted(cs, script) && i < |cs| && m in ShuffleRun(cs, script, events).sent
    ensures k < |script| && m == script[k] && (k == i ==> i < ShuffleRun(cs, script, events).reps[i].next)
  {
    ReplicasStayGood(cs, script, events);
    var P := ShuffleProtocol(cs, script);
    k :| 0 <= k < |script| && m == script[k];
    assert P.turn(ShuffleRun(cs, script, events).reps[i]) == ShuffleRun(cs, script, events).reps[i].next;
  }

  lemma GoodAccepts(c: Config, script: seq<Message>, i: nat, s: State, k: nat)
    requires Follows(c, script, i) && Good(c, script, i, s) && s.started && k < |script| && (k == i ==> i < s.next)
    ensures Handle(c, s, script[k]).out.Ok?
  {
    HandleSettles(c, script, i, s, k);
  }

  /** In every reachable state, handing a started replica anything that was published is accepted. */
  lemma NoHonestStepRejected(cs: seq<Config>, script: seq<Message>, events: seq<Event<Message>>, i: nat, m: Message)
    requires Scripted(cs, script) && i < |cs|
    requires ShuffleRun(cs, script, events).reps[i].started && m in ShuffleRun(cs, script, events).sent
    ensures ValidConfig(cs[i]) && Handle(cs[i], ShuffleRun(cs, script, events).reps[i], m).out.Ok?
  {
    assert Follows(cs[i], script, i);
    var k := PublishedIsScript(cs, script, events, i, m);
    ReplicasStayGood(cs, script, events);
    GoodAccepts(cs[i], script, i, ShuffleRun(cs, script, events).reps[i], k);
  }

  lemma EveryoneFinishes(cs: seq<Config>, script: seq<Message>, events: seq<Event<Message>>, i: nat)
    requires Scripted(cs, script) && i < |cs|
    requires FullyDelivered(ShuffleProtocol(cs, script), ShuffleRun(cs, script, events))
    ensures ShuffleRun(cs, script, events).reps[i].started && ShuffleRun(cs, script, events).reps[i].next >= |script|
  {
    var P := ShuffleProtocol(cs, script);
    var s := ShuffleRun(cs, script, events).reps[i];
    ShuffleProtocolSound(cs, script);
    EveryTurnPasses(P, seq(|cs|, _ => FRESH), events, i);
    assert P.started(s) && P.turn(s) == s.next;
  }

  lemma GoodFinish(c: Config, script: seq<Message>, i: nat, s: State)
    requires Follows(c, script, i) && Good(c, script, i, s) && s.started && s.next >= |script|
    ensures Done(c, s) && s.current == script[|script| - 1].deck
  {
  }

  /** No stuck state: once everything published has reached everyone, all are done with the last step's deck. */
  lemma NoStuckState(cs: seq<Config>, script: seq<Message>, events: seq<Event<Message>>, i: nat)
    requires Scripted(cs, script) && i < |cs|
    requires FullyDelivered(ShuffleProtocol(cs, script), ShuffleRun(cs, script, events))
    ensures var s := ShuffleRun(cs, script, events).reps[i];
            s.started && Done(cs[i], s) && s.current == script[|script| - 1].deck
  {
    EveryoneFinishes(cs, script, events, i);
    ReplicasStayGood(cs, script, events);
    assert Follows(cs[i], script, i);
    GoodFinish(cs[i], script, i, ShuffleRun(cs, script, events).reps[i]);
  }

  // --------------------------------------------------------------- honest tables

  /** One replica per seat, built from the same hand, order, hash and plaintext deck, with valid keys. */
  ghost predicate HonestTable(cs: seq<Config>, p: int) {
    && |cs| >= 2 && p > 2
    && (forall i :: 0 <= i < |cs| ==>
        SameHand(cs[0], cs[i]) && ValidConfig(cs[i]) && KeyPair(cs[i].key) && cs[i].key.p == p)
    && |cs[0].order| == |cs| && AllInRange(cs[0].initial, p)
    && (forall i :: 0 <= i < |cs| ==> cs[i].local == cs[0].order[i])
  }

  ghost predicate SameHand(a: Config, b: Config) {
    a.order == b.order && a.h == b.h && a.hand == b.hand && a.initial == b.initial
  }

  function Keys(cs: seq<Config>): (r: seq<Key>)
    ensures |r| == |cs|
  {
    seq(|cs|, i requires 0 <= i < |cs| => cs[i].key)
  }

  function Perms(cs: seq<Config>): (r: seq<seq<nat>>)
    ensures |r| == |cs|
  {
    seq(|cs|, i requires 0 <= i < |cs| => cs[i].perm)
  }

  ghost predicate PermsOk(cs: seq<Config>) {
    cs != [] && forall j :: 0 <= j < |cs| ==> Permutes(Perms(cs)[j], |cs[0].initial|)
  }

  /** The deck after the first k seats' steps. */
  ghost function ShuffledDeck(cs: seq<Config>, k: nat): seq<int>
    requires PermsOk(cs) && k <= |cs|
  {
    DeckAfter(Keys(cs), Perms(cs), cs[0].initial, k)
  }

  /** The steps of a hand in which every seat shuffles with its own key, permutation and nonce. */
  ghost function ScriptOf(cs: seq<Config>): (script: seq<Message>)
    requires PermsOk(cs)
    ensures |script| == |cs|
  {
    seq(|cs|, k requires 0 <= k < |cs| =>
      var d := ShuffledDeck(cs, k + 1);
      Message(cs[0].hand, cs[k].local, d, Commitment(cs[0].h(d, cs[k].nonce), cs[k].nonce)))
  }

  lemma HonestKeys(cs: seq<Config>, p: int)
    requires HonestTable(cs, p)
    ensures PermsOk(cs) && KeyRing(Keys(cs), p)
  {
    forall j | 0 <= j < |cs|
        ensures Permutes(Perms(cs)[j], |cs[0].initial|) && KeyPair(Keys(cs)[j]) && Keys(cs)[j].p == p {
      assert SameHand(cs[0], cs[j]) && ValidConfig(cs[j]);
    }
  }

  /** Seat i's own step, executed on the deck of the seats before it, is the script's. */
  lemma HonestExecutes(cs: seq<Config>, p: int, i: nat)
    requires HonestTable(cs, p) && i < |cs|
    ensures PermsOk(cs) && ValidConfig(cs[i]) && ExecutesTo(cs[i], ShuffledDeck(cs, i), ScriptOf(cs)[i])
  {
    HonestKeys(cs, p);
    assert SameHand(cs[0], cs[i]) && ValidConfig(cs[i]);
    ShuffleStaysInRange(Keys(cs), Perms(cs), cs[0].initial, i, p);
    assert Keys(cs)[i] == cs[i].key && Perms(cs)[i] == cs[i].perm;
    assert ShuffledDeck(cs, i + 1) == StepDeck(cs[i].key, ShuffledDeck(cs, i), cs[i].perm);
  }

  /** Every step of the script passes every replica's checks. */
  lemma HonestAcceptable(cs: seq<Config>, p: int, i: nat, k: nat)
    requires HonestTable(cs, p) && i < |cs| && k < |cs|
    ensures PermsOk(cs) && ScriptOf(cs)[k].player == cs[i].order[k] && Acceptable(cs[i], ScriptOf(cs)[k])
  {
    HonestKeys(cs, p);
    assert SameHand(cs[0], cs[i]) && SameHand(cs[0], cs[k]) && ValidConfig(cs[k]);
    assert |ShuffledDeck(cs, k + 1)| == |cs[0].initial|;
  }

  /** An honest table follows its script. */
  lemma HonestTableScripted(cs: seq<Config>, p: int)
    requires HonestTable(cs, p)
    ensures PermsOk(cs) && Scripted(cs, ScriptOf(cs))
  {
    HonestKeys(cs, p);
    var script := ScriptOf(cs);
    forall i | 0 <= i < |cs| ensures Follows(cs[i], script, i) {
      HonestExecutes(cs, p, i);
      assert SameHand(cs[0], cs[i]);
      assert DeckBefore(cs[i], script, i) == ShuffledDeck(cs, i);
      forall k | 0 <= k < |script| ensures script[k].player == cs[i].order[k] && Acceptable(cs[i], script[k]) {
        HonestAcceptable(cs, p, i, k);
      }
    }
  }

  lemma FinalDeckIsHonest(cs: seq<Config>, p: int, dp: DealProtocol) returns (ids: seq<nat>)
    requires HonestTable(cs, p) && BigPrime(p) && cs[0].initial == PlaintextDeck(p) && PermsOk(cs)
    requires dp.deck == ShuffledDeck(cs, |cs|)
    requires dp.p == p && dp.session != [] && dp.players == cs[0].order && dp.keys == Keys(cs)
    ensures HonestDeal(dp, ids) && Permutes(ids, 52)
  {
    HonestKeys(cs, p);
    assert SameHand(cs[0], cs[0]) && ValidConfig(cs[0]);
    ids := ShuffledDeckIsHonest(dp, Perms(cs));
  }

  /** The deck on which a fully delivered honest table ends is an honest deal of the 52 cards. */
  lemma FinishedDeckIsHonest(cs: seq<Config>, script: seq<Message>, p: int, events: seq<Event<Message>>, i: nat,
      dp: DealProtocol) returns (ids: seq<nat>)
    requires HonestTable(cs, p) && i < |cs| && BigPrime(p) && cs[0].initial == PlaintextDeck(p)
    requires PermsOk(cs) && script == ScriptOf(cs) && Scripted(cs, script)
    requires FullyDelivered(ShuffleProtocol(cs, script), ShuffleRun(cs, script, events))
    requires dp.deck == ShuffleRun(cs, script, events).reps[i].current
    requires dp.p == p && dp.session != [] && dp.players == cs[0].order && dp.keys == Keys(cs)
    ensures HonestDeal(dp, ids) && Permutes(ids, 52)
  {
    assert script[|script| - 1].deck == ShuffledDeck(cs, |cs|);
    NoStuckState(cs, script, events, i);
    ids := FinalDeckIsHonest(cs, p, dp);
  }
}
