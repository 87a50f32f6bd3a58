// Turn-taking machines over a network that hands published messages to anyone, in any
// order and any number of times. Turn k has one message, script[k], to be published by the
// machine agent(k) when that turn comes.
module TurnNetwork {

  // Nudge lets a machine do what it can do without a message.
  datatype Input<M> = Begin | Receive(m: M) | Nudge

  // How one machine reacts, and the observations on its state that the argument needs. An
  // idle machine is one that a nudge leaves as it is.
  datatype Protocol<!S, !M> = Protocol(
    script: seq<M>,
    machines: nat,
    agent: nat -> nat,
    react: (nat, S, Input<M>) -> (S, set<M>),
    good: (nat, S) -> bool,
    started: S -> bool,
    turn: S -> nat,
    knows: (S, nat) -> bool,
    idle: (nat, S) -> bool)

  /** The messages of machine i for the turns from one to another. */
  ghost function Duties<S, M>(P: Protocol<S, M>, i: nat, from: nat, to: nat): set<M> {
    set k | 0 <= k < |P.script| && from <= k < to && P.agent(k) == i :: P.script[k]
  }

  /** From s, machine i moved on to r.0 and published its messages for exactly the turns it passed. */
  ghost predicate Moved<S, M>(P: Protocol<S, M>, i: nat, s: S, r: (S, set<M>)) {
    && P.good(i, r.0) && P.started(r.0) && P.turn(s) <= P.turn(r.0)
    && (forall k: nat :: P.knows(s, k) ==> P.knows(r.0, k))
    && r.1 == Duties(P, i, P.turn(s), P.turn(r.0))
  }

  ghost predicate DistinctSteps<S, M>(P: Protocol<S, M>) {
    && (forall k, l :: 0 <= k < l < |P.script| ==> P.script[k] != P.script[l])
    && forall k :: 0 <= k < |P.script| ==> P.agent(k) < P.machines
  }

  /** A machine that has not started knows nothing and starts well. */
  ghost predicate BeginsWell<S(!new), M>(P: Protocol<S, M>) {
    forall i: nat, s {:trigger P.react(i, s, Begin)} :: i < P.machines && P.good(i, s) && !P.started(s) ==>
      Moved(P, i, s, P.react(i, s, Begin)) && P.turn(s) == 0 && forall k: nat :: !P.knows(s, k)
  }

  /** A started machine takes in any message of the script that can have been published. */
  ghost predicate ReceivesWell<S(!new), M>(P: Protocol<S, M>) {
    forall i: nat, s, k: nat {:trigger P.react(i, s, Receive(P.script[k]))} ::
        i < P.machines && P.good(i, s) && P.started(s) && k < |P.script| && (P.agent(k) == i ==> k < P.turn(s)) ==>
      var r := P.react(i, s, Receive(P.script[k])); Moved(P, i, s, r) && P.knows(r.0, k)
  }

  /** A started machine can be nudged at any time. */
  ghost predicate NudgesWell<S(!new), M>(P: Protocol<S, M>) {
    forall i: nat, s {:trigger P.react(i, s, Nudge)} :: i < P.machines && P.good(i, s) && P.started(s) ==>
      Moved(P, i, s, P.react(i, s, Nudge))
  }

  /** Starting twice, and receiving or nudging before the start, change nothing. */
  ghost predicate IgnoresRest<S(!new), M(!new)>(P: Protocol<S, M>) {
    && (forall i: nat, s {:trigger P.react(i, s, Begin)} :: i < P.machines && P.good(i, s) && P.started(s) ==>
        P.react(i, s, Begin) == (s, {}))
    && (forall i: nat, s, x: Input<M> {:trigger P.react(i, s, x)} ::
        i < P.machines && P.good(i, s) && !P.started(s) && !x.Begin? ==> P.react(i, s, x) == (s, {}))
  }

  /** A started machine waits only for a message that it does not have, and idly never for itself. */
  ghost predicate WaitsForOthers<S(!new), M>(P: Protocol<S, M>) {
    forall i: nat, s :: i < P.machines && P.good(i, s) && P.started(s) && P.turn(s) < |P.script| ==>
      !P.knows(s, P.turn(s)) && (P.idle(i, s) ==> P.agent(P.turn(s)) != i)
  }

  /** What each single machine guarantees. */
  ghost predicate Sound<S(!new), M(!new)>(P: Protocol<S, M>) {
    DistinctSteps(P) && BeginsWell(P) && ReceivesWell(P) && NudgesWell(P) && IgnoresRest(P) && WaitsForOthers(P)
  }

  // ------------------------------------------------------------------ the network

  // All machines, everything published so far, and what each was handed since it started.
  datatype Net<S, M> = Net(reps: seq<S>, sent: set<M>, heard: seq<set<M>>)

  datatype Event<M> = Event(i: nat, input: Input<M>)

  function NextNet<S, M(==)>(P: Protocol<S, M>, net: Net<S, M>, e: Event<M>): Net<S, M>
    requires |net.reps| == |net.heard|
  {
    if e.i >= |net.reps| || (e.input.Receive? && e.input.m !in net.sent) then net else
    var s := net.reps[e.i];
    var r := P.react(e.i, s, e.input);
    Net(net.reps[e.i := r.0], net.sent + r.1,
        if e.input.Receive? && P.started(s) then net.heard[e.i := net.heard[e.i] + {e.input.m}] else net.heard)
  }

  /** The network after a run: any events, in any order. */
  ghost function RunNet<S, M>(P: Protocol<S, M>, init: seq<S>, events: seq<Event<M>>): (net: Net<S, M>)
    ensures |net.reps| == |net.heard| == |init|
  {
    if events == [] then Net(init, {}, seq(|init|, _ => {}))
    else NextNet(P, RunNet(P, init, events[..|events| - 1]), events[|events| - 1])
  }

  ghost predicate Initial<S, M>(P: Protocol<S, M>, init: seq<S>) {
    |init| == P.machines && forall i :: 0 <= i < |init| ==> P.good(i, init[i]) && !P.started(init[i])
  }

  ghost predicate RepsGood<S, M>(P: Protocol<S, M>, reps: seq<S>) {
    |reps| == P.machines && forall i :: 0 <= i < |reps| ==> P.good(i, reps[i])
  }

  /** Exactly the messages whose turn has passed on the machine that makes them have been published. */
  ghost predicate SentExactly<S, M>(P: Protocol<S, M>, reps: seq<S>, sent: set<M>)
    requires |reps| == P.machines && DistinctSteps(P)
  {
    && (forall m :: m in sent ==> m in P.script)
    && (forall k :: 0 <= k < |P.script| ==> (P.script[k] in sent <==> k < P.turn(reps[P.agent(k)])))
  }

  ghost predicate HeardIsKnown<S, M>(P: Protocol<S, M>, s: S, heard: set<M>) {
    forall k :: 0 <= k < |P.script| && P.script[k] in heard ==> P.knows(s, k)
  }

  ghost predicate NetInv<S, M>(P: Protocol<S, M>, net: Net<S, M>) {
    && DistinctSteps(P)
    && RepsGood(P, net.reps)
    && SentExactly(P, net.reps, net.sent)
    && |net.heard| == |net.reps|
    && (forall i :: 0 <= i < |net.reps| ==> HeardIsKnown(P, net.reps[i], net.heard[i]))
  }

  lemma DutyIs<S, M>(P: Protocol<S, M>, i: nat, from: nat, to: nat, k: nat)
    requires DistinctSteps(P) && k < |P.script|
    ensures P.script[k] in Duties(P, i, from, to) <==> from <= k < to && P.agent(k) == i
  {
    if P.script[k] in Duties(P, i, from, to) {
      var l :| 0 <= l < |P.script| && from <= l < to && P.agent(l) == i && P.script[l] == P.script[k];
      assert l == k;
    }
  }

  lemma SentStaysExact<S, M>(P: Protocol<S, M>, reps: seq<S>, sent: set<M>, i: nat, r: (S, set<M>))
    requires DistinctSteps(P) && |reps| == P.machines && SentExactly(P, reps, sent) && i < |reps|
    requires P.turn(reps[i]) <= P.turn(r.0)
    requires r.1 == Duties(P, i, P.turn(reps[i]), P.turn(r.0))
    ensures SentExactly(P, reps[i := r.0], sent + r.1)
  {
    forall k | 0 <= k < |P.script|
      ensures P.script[k] in sent + r.1 <==> k < P.turn(reps[i := r.0][P.agent(k)])
    {
      DutyIs(P, i, P.turn(reps[i]), P.turn(r.0), k);
    }
  }

  lemma ScriptDistinct<S, M>(P: Protocol<S, M>, k: nat, l: nat)
    requires DistinctSteps(P) && k < |P.script| && l < |P.script| && k != l
    ensures P.script[k] != P.script[l]
  {
    var lo, hi := if l < k then l else k, if l < k then k else l;
    assert P.script[lo] != P.script[hi];
  }

  lemma MoveKeepsInv<S, M>(P: Protocol<S, M>, net: Net<S, M>, i: nat, r: (S, set<M>), heard: set<M>)
    requires NetInv(P, net) && i < P.machines && Moved(P, i, net.reps[i], r)
    requires HeardIsKnown(P, r.0, heard)
    ensures NetInv(P, Net(net.reps[i := r.0], net.sent + r.1, net.heard[i := heard]))
  {
    SentStaysExact(P, net.reps, net.sent, i, r);
  }

  lemma HearOne<S, M>(P: Protocol<S, M>, s: S, s': S, heard: set<M>, k: nat)
    requires DistinctSteps(P) && k < |P.script| && HeardIsKnown(P, s, heard)
    requires P.knows(s', k) && forall l: nat :: P.knows(s, l) ==> P.knows(s', l)
    ensures HeardIsKnown(P, s', heard + {P.script[k]})
  {
    forall l | 0 <= l < |P.script| && l != k ensures P.script[l] != P.script[k] {
      ScriptDistinct(P, k, l);
    }
  }

  /** A step that reads no message. */
  lemma OwnStepKeepsInv<S(!new), M(!new)>(P: Protocol<S, M>, net: Net<S, M>, i: nat, x: Input<M>)
    requires Sound(P) && NetInv(P, net) && i < P.machines && !x.Receive?
    ensures NetInv(P, NextNet(P, net, Event(i, x)))
  {
    var s := net.reps[i];
    var r := P.react(i, s, x);
    assert net.heard[i := net.heard[i]] == net.heard;
    if P.started(s) == x.Begin? {
      assert r == (s, {});
      assert net.reps[i := s] == net.reps && net.sent + {} == net.sent;
    } else {
      assert Moved(P, i, s, r);
      MoveKeepsInv(P, net, i, r, net.heard[i]);
    }
  }

  lemma ReceiveMoves<S(!new), M>(P: Protocol<S, M>, i: nat, s: S, k: nat)
    requires ReceivesWell(P) && i < P.machines && P.good(i, s) && P.started(s) && k < |P.script|
    requires P.agent(k) == i ==> k < P.turn(s)
    ensures var r := P.react(i, s, Receive(P.script[k])); Moved(P, i, s, r) && P.knows(r.0, k)
  {
  }

  lemma ReceiveKeepsInv<S(!new), M(!new)>(P: Protocol<S, M>, net: Net<S, M>, i: nat, m: M)
    requires Sound(P) && NetInv(P, net) && i < P.machines && m in net.sent
    ensures NetInv(P, NextNet(P, net, Event(i, Receive(m))))
  {
    var s := net.reps[i];
    var r := P.react(i, s, Receive(m));
    if P.started(s) {
      var k :| 0 <= k < |P.script| && m == P.script[k];
      ReceiveMoves(P, i, s, k);
      HearOne(P, s, r.0, net.heard[i], k);
      MoveKeepsInv(P, net, i, r, net.heard[i] + {m});
    } else {
      assert r == (s, {});
      assert net.reps[i := s] == net.reps && net.sent + {} == net.sent;
    }
  }

  lemma NothingSentYet<S(!new), M(!new)>(P: Protocol<S, M>, init: seq<S>)
    requires Sound(P) && Initial(P, init)
    ensures NetInv(P, RunNet(P, init, []))
  {
    forall i | 0 <= i < P.machines ensures P.turn(init[i]) == 0 {
      assert Moved(P, i, init[i], P.react(i, init[i], Begin));
    }
  }

  lemma {:induction false} RunKeepsInv<S(!new), M(!new)>(P: Protocol<S, M>, init: seq<S>, events: seq<Event<M>>)
    requires Sound(P) && Initial(P, init)
    ensures NetInv(P, RunNet(P, init, events))
  {
    if events == [] {
      NothingSentYet(P, init);
    } else {
      var before, e := RunNet(P, init, events[..|events| - 1]), events[|events| - 1];
      RunKeepsInv(P, init, events[..|events| - 1]);
      if e.i < P.machines {
        if e.input.Receive? {
          if e.input.m in before.sent {
            ReceiveKeepsInv(P, before, e.i, e.input.m);
          }
        } else {
          OwnStepKeepsInv(P, before, e.i, e.input);
        }
      }
    }
  }

  /** Every machine has started, has been handed every published message since, and would do nothing if nudged. */
  ghost predicate FullyDelivered<S, M>(P: Protocol<S, M>, net: Net<S, M>) {
    |net.reps| == |net.heard| && forall i :: 0 <= i < |net.reps| ==>
      P.started(net.reps[i]) && net.sent <= net.heard[i] && P.idle(i, net.reps[i])
  }

  /** No stuck state: once everything published has reached everyone, every turn has passed everywhere. */
  lemma EveryTurnPasses<S(!new), M(!new)>(P: Protocol<S, M>, init: seq<S>, events: seq<Event<M>>, i: nat)
    requires Sound(P) && Initial(P, init) && i < |init| && FullyDelivered(P, RunNet(P, init, events))
    ensures P.turn(RunNet(P, init, events).reps[i]) >= |P.script|
  {
    RunKeepsInv(P, init, events);
    var net := RunNet(P, init, events);
    var low := Slowest(P.turn, net.reps);
    var k := P.turn(net.reps[low]);
    if k < |P.script| {
      assert false;
    }
  }

  lemma Slowest<S>(turn: S -> nat, reps: seq<S>) returns (low: nat)
    requires reps != []
    ensures low < |reps| && forall i :: 0 <= i < |reps| ==> turn(reps[low]) <= turn(reps[i])
  {
    low := 0;
    for j := 1 to |reps|
      invariant low < |reps| && forall i :: 0 <= i < j ==> turn(reps[low]) <= turn(reps[i])
    {
      if turn(reps[j]) < turn(reps[low]) {
        low := j;
      }
    }
  }
}
