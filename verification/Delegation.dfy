// Peels made on behalf of seats that are gone (internal/network/crypto_hand.go:340-410,
// internal/network/liveness.go:16-26).
module Delegation {
  import opened DealSession
  import opened Sra
  import opened Wrappers

  /** collectPeels: a returned peel and everything waiting to go out. */
  function Collected(s: DealState, first: Option<PeelMessage>): seq<PeelMessage> {
    (if first.Some? then [first.value] else []) + s.outbound
  }

  function Emptied(s: DealState): DealState {
    s.(outbound := [])
  }

  // ------------------------------------------------------------------------ delegation

  /** DesignatedSurvivor: the first seat that is not gone. */
  function DesignatedSurvivor(order: seq<string>, gone: map<string, Key>): string {
    if order == [] then "" else if order[0] !in gone then order[0] else DesignatedSurvivor(order[1..], gone)
  }

  // A session after some peels on behalf of others, what they produced, and a failure if any.
  datatype Delegated = Delegated(s: DealState, produced: seq<PeelMessage>, err: Option<Error>)

  predicate SameModulus(c: DealConfig, gone: map<string, Key>) {
    forall id :: id in gone ==> gone[id].p == c.p
  }

  /** The loop of tryDelegatedPeels: peel for every awaited seat that is gone. */
  function DelegateLoop(c: DealConfig, s: DealState, gone: map<string, Key>): Delegated
    requires ValidDeal(c) && SameModulus(c, gone)
    decreases JobsLeft(s.run), PeelsLeft(s.work)
  {
    var peeler := ExpectedPeeler(s);
    if peeler == "" || peeler !in gone then Delegated(s, [], None) else
    var r := PeelOnBehalf(c, s, peeler, gone[peeler]);
    if r.out.Err? then Delegated(r.s, [], Some(r.out.error)) else
    var next := Emptied(r.s);
    if !Working(next) then Delegated(next, Collected(r.s, r.out.value), None) else
    DelegationProgress(c, s, peeler, gone[peeler]);
    var rest := DelegateLoop(c, next, gone);
    rest.(produced := Collected(r.s, r.out.value) + rest.produced)
  }

  /** What is still to come, behind what has been produced, makes the whole. */
  predicate Ahead(whole: Delegated, produced: seq<PeelMessage>, rest: Delegated) {
    whole.s == rest.s && whole.produced == produced + rest.produced && whole.err == rest.err
  }

  lemma DelegateStep(c: DealConfig, s: DealState, gone: map<string, Key>, peeler: string, r: DealReply,
      whole: Delegated, produced: seq<PeelMessage>)
    requires ValidDeal(c) && SameModulus(c, gone) && Ahead(whole, produced, DelegateLoop(c, s, gone))
    requires peeler == ExpectedPeeler(s) && peeler != "" && peeler in gone
    requires r == PeelOnBehalf(c, s, peeler, gone[peeler]) && r.out.Ok?
    ensures var next, more := Emptied(r.s), produced + Collected(r.s, r.out.value);
            if Working(next) then Ahead(whole, more, DelegateLoop(c, next, gone))
                else whole == Delegated(next, more, None)
  {
    var next, sent := Emptied(r.s), Collected(r.s, r.out.value);
    if Working(next) {
      var rest := DelegateLoop(c, next, gone);
      assert produced + (sent + rest.produced) == (produced + sent) + rest.produced;
    }
  }

  function TryDelegate(c: DealConfig, s: DealState, gone: map<string, Key>): Delegated
    requires ValidDeal(c) && SameModulus(c, gone)
  {
    if gone == map[] || DesignatedSurvivor(c.order, gone) != c.local then Delegated(s, [], None)
        else DelegateLoop(c, s, gone)
  }

  /** r is idle or nearer the end of its sequence than s, or as near. */
  predicate NotBack(s: DealState, r: DealState) {
    || r.run.kind == Idle
    || JobsLeft(r.run) < JobsLeft(s.run)
    || (JobsLeft(r.run) == JobsLeft(s.run) && PeelsLeft(r.work) <= PeelsLeft(s.work))
  }

  lemma {:induction false} ExecuteNotBack(c: DealConfig, s: DealState)
    requires c.p > 2 && c.key.p == c.p
    ensures ExecutePeel(c, s).out.Ok? ==> NotBack(s, ExecutePeel(c, s).s)
    decreases JobsLeft(s.run), PeelsLeft(s.work), 0
  {
    if !JobComplete(s.work) && NextPeeler(s.work) == c.local {
      var pd := PeelAs(c, s, c.local, c.key);
      if pd.Ok? {
        var a := Apply(c, s.work, PeelMessage(c.hand, pd.value));
        if a.1.None? {
          AfterNotBack(c, s.(work := a.0));
        }
      }
    }
  }

  lemma {:induction false} AfterNotBack(c: DealConfig, s: DealState)
    requires c.p > 2 && c.key.p == c.p
    ensures AfterPeel(c, s).out.Ok? ==> NotBack(s, AfterPeel(c, s).s)
    decreases JobsLeft(s.run), PeelsLeft(s.work), 2
  {
    var d := DrainPeels(c, s.work);
    var s' := s.(work := d.0);
    if d.1.None? {
      if JobComplete(d.0) {
        if FinishJob(c, s').1.None? {
          AdvanceNotBack(c, s'.(got := FinishJob(c, s').0));
        }
      } else if NextPeeler(d.0) == c.local {
        ExecuteNotBack(c, s');
      }
    }
  }

  lemma {:induction false} AdvanceNotBack(c: DealConfig, s: DealState)
    requires c.p > 2 && c.key.p == c.p
    ensures AdvanceSequence(c, s).out.Ok? ==>
              AdvanceSequence(c, s).s.run.kind == Idle || JobsLeft(AdvanceSequence(c, s).s.run) < JobsLeft(s.run)
    decreases JobsLeft(s.run), PeelsLeft(s.work), 1
  {
    var next := s.(run := s.run.(jobIdx := s.run.jobIdx + 1));
    if next.run.jobIdx < |next.run.jobs| {
      var w := InstallJob(c, next.run.jobs[next.run.jobIdx]);
      if w.Ok? && w.value.peelers[0] == c.local {
        ExecuteNotBack(c, next.(work := w.value));
      }
    }
  }

  /** A peel on behalf of the awaited seat leaves fewer peels in the sequence. */
  lemma DelegationProgress(c: DealConfig, s: DealState, id: string, key: Key)
    requires ValidDeal(c) && key.p == c.p && ExpectedPeeler(s) == id && PeelOnBehalf(c, s, id, key).out.Ok?
    ensures var r := PeelOnBehalf(c, s, id, key).s;
            || r.run.kind == Idle
            || JobsLeft(r.run) < JobsLeft(s.run)
                || (JobsLeft(r.run) == JobsLeft(s.run) && PeelsLeft(r.work) < PeelsLeft(s.work))
  {
    var m := PeelMessage(c.hand, PeelAs(c, s, id, key).value);
    AfterNotBack(c, s.(work := Apply(c, s.work, m).0));
  }

  /** The loop stops only when nobody is awaited, or somebody who is still there. */
  lemma {:induction false} DelegationStops(c: DealConfig, s: DealState, gone: map<string, Key>)
    requires ValidDeal(c) && SameModulus(c, gone)
    ensures var d := DelegateLoop(c, s, gone);
            d.err.None? ==> ExpectedPeeler(d.s) == "" || ExpectedPeeler(d.s) !in gone
    decreases JobsLeft(s.run), PeelsLeft(s.work)
  {
    var peeler := ExpectedPeeler(s);
    if peeler != "" && peeler in gone {
      var r := PeelOnBehalf(c, s, peeler, gone[peeler]);
      if r.out.Ok? && Working(Emptied(r.s)) {
        DelegationProgress(c, s, peeler, gone[peeler]);
        DelegationStops(c, Emptied(r.s), gone);
      }
    }
  }

  lemma {:induction false} SurvivorIs(order: seq<string>, gone: map<string, Key>)
    ensures var d := DesignatedSurvivor(order, gone);
            || (d in order && d !in gone)
            || (d == "" && forall id :: id in order ==> id in gone)
  {
    if order != [] && order[0] in gone {
      SurvivorIs(order[1..], gone);
    }
  }

  /** The seat that delegates is the first in seat order that is not gone. */
  lemma {:induction false} FirstLeftDelegates(order: seq<string>, gone: map<string, Key>, i: nat)
    requires i < |order| && order[i] !in gone && forall j :: 0 <= j < i ==> order[j] in gone
    ensures DesignatedSurvivor(order, gone) == order[i]
  {
    if i > 0 {
      assert order[0] in gone;
      assert forall j :: 0 <= j < i - 1 ==> order[1..][j] == order[j + 1];
      FirstLeftDelegates(order[1..], gone, i - 1);
    }
  }

  /** With the same seats gone everywhere, at most one replica delegates, and it is still there. */
  lemma OneDelegate(a: DealConfig, b: DealConfig, gone: map<string, Key>)
    requires ValidDeal(a) && ValidDeal(b) && a.order == b.order
    requires DesignatedSurvivor(a.order, gone) == a.local && DesignatedSurvivor(b.order, gone) == b.local
    ensures a.local == b.local && a.local !in gone
  {
    LocalIsNamed(a);
    SurvivorIs(a.order, gone);
  }

  /** A reply to a message that we made ourselves: if it is accepted the message is published in front. */
  function InFront(m: PeelMessage, r: DealReply): DealReply {
    if r.out.Ok? then Behind(m, r) else r
  }
}
