// The replicas of one peel job over a network that delivers published peels to anyone, in any
// order and any number of times (internal/crypto/deal_session.go:383-434). Seats may be gone:
// then the first one left makes their peels (internal/network/crypto_hand.go:374-410).
module JobNetwork {
  import opened DealJob
  import opened DealSession
  import opened Delegation
  import opened Sra
  import opened TurnNetwork
  import opened Wrappers
  import opened Zkp

  // A replica before the job, in it, and past it.
  datatype Rep = NotYet | Peeling(s: DealState) | Past(s: DealState)

  /** This replica peels for the seats that are gone. */
  predicate Stands(c: DealConfig, gone: map<string, Key>) {
    gone != map[] && DesignatedSurvivor(c.order, gone) == c.local
  }

  /** Peel k is this replica's to make: its own, or that of a gone seat for which it stands. */
  predicate Makes(c: DealConfig, base: DealState, gone: map<string, Key>, k: nat)
    requires base.run.jobIdx < |base.run.jobs| && InstallJob(c, JobOf(base)).Ok? && k < |Peelers(c, base)|
  {
    Own(c, base) == Some(k) || (Stands(c, gone) && Peelers(c, base)[k] in gone)
  }

  /** Peel k of the script is the one that this replica makes with the key of the gone seat. */
  predicate Substitutes(c: DealConfig, base: DealState, gone: map<string, Key>, script: seq<PeelMessage>, k: nat)
    requires ValidDeal(c) && SameModulus(c, gone)
    requires base.run.jobIdx < |base.run.jobs| && InstallJob(c, JobOf(base)).Ok?
    requires k < |script| == |Peelers(c, base)| && Peelers(c, base)[k] in gone
  {
    var j, id := JobOf(base), Peelers(c, base)[k];
    && gone[id].d.Some? && script[k].hand == c.hand
    && Peel(c.hash, gone[id], Before(c, j, script, k), j.cardIndex, id, c.session,
            c.nonces(id, base.run.kind, j.cardIndex)) == Ok(script[k].pd)
  }

  /** A replica that is still there, as peeler or recipient, and the peels that are its to make. */
  ghost predicate Seated(c: DealConfig, base: DealState, gone: map<string, Key>, agents: seq<nat>,
      script: seq<PeelMessage>, i: nat) {
    && Follows(c, base, script) && SameModulus(c, gone) && c.local !in gone && |agents| == |script|
    && base.outbound == [] && AllInstall(c, base.run.jobs) && PositionsApart(base.run.jobs)
    && Ending(c, base, script).out.Ok?
    && (forall k :: 0 <= k < |script| ==> (agents[k] == i <==> Makes(c, base, gone, k)))
    && (forall k :: 0 <= k < |script| && Stands(c, gone) && Peelers(c, base)[k] in gone ==>
          Substitutes(c, base, gone, script, k))
  }

  /** Every replica that is left follows one script, and each of its peels is somebody's to make. */
  ghost predicate Scripted(cs: seq<DealConfig>, bases: seq<DealState>, gone: map<string, Key>, agents: seq<nat>,
      script: seq<PeelMessage>) {
    && |cs| == |bases| && |agents| == |script|
    && (forall k :: 0 <= k < |agents| ==> agents[k] < |cs|)
    && forall i :: 0 <= i < |cs| ==> Seated(cs[i], bases[i], gone, agents, script, i)
  }

  function Placed(c: DealConfig, base: DealState, script: seq<PeelMessage>, s: DealState): Rep
    requires c.p > 2 && c.key.p == c.p && base.run.jobIdx < |base.run.jobs| && InstallJob(c, JobOf(base)).Ok?
  {
    if Gone(c, base, script, s) then Past(s) else Peeling(s)
  }

  function TurnOf(n: nat, r: Rep): nat {
    match r case NotYet => 0 case Peeling(s) => s.work.nextPeel case Past(s) => n
  }

  predicate Knows(n: nat, r: Rep, k: nat) {
    match r case NotYet => false case Peeling(s) => KnowsPeel(s.work, k) case Past(s) => k < n
  }

  /** No buffered peel is one that replica i makes. */
  ghost predicate OthersOnly(agents: seq<nat>, i: nat, had: set<nat>) {
    forall k :: k in had && k < |agents| ==> agents[k] != i
  }

  ghost predicate Good(c: DealConfig, base: DealState, agents: seq<nat>, script: seq<PeelMessage>, i: nat, r: Rep) {
    && Follows(c, base, script)
    && match r
       case NotYet => true
       case Peeling(s) => s == base.(work := s.work) && Tracks(c, base, script, s.work) && Waiting(c, s.work)
           && !Gone(c, base, script, s) && OthersOnly(agents, i, s.work.pending.Keys)
       case Past(s) => Gone(c, base, script, s) && s.outbound == []
  }

  /** The peels of the job that are replica i's and go out with the reply, for the turns passed. */
  function Sent(agents: seq<nat>, script: seq<PeelMessage>, i: nat, from: nat, to: nat,
      r: DealReply): set<PeelMessage> {
    if r.out.Err? then {} else
    set k | 0 <= k < |script| && k < |agents| && agents[k] == i && from <= k < to
        && script[k] in Collected(r.s, r.out.value) :: script[k]
  }

  /** The replica's new place once everything waiting has gone out, and its peels of this job among that. */
  function Moves(c: DealConfig, base: DealState, agents: seq<nat>, script: seq<PeelMessage>, i: nat, before: Rep,
      r: DealReply): (Rep, set<PeelMessage>)
    requires c.p > 2 && c.key.p == c.p && base.run.jobIdx < |base.run.jobs| && InstallJob(c, JobOf(base)).Ok?
  {
    var after := Placed(c, base, script, Emptied(r.s));
    (after, Sent(agents, script, i, TurnOf(|script|, before), TurnOf(|script|, after), r))
  }

  /** The replica is in the job, it stands for the gone seats, and one of them is awaited. */
  predicate Due(c: DealConfig, gone: map<string, Key>, rep: Rep) {
    rep.Peeling? && Stands(c, gone) && ExpectedPeeler(rep.s) in gone
  }

  /** A nudge is one round of the delegation loop. */
  function React(c: DealConfig, base: DealState, gone: map<string, Key>, agents: seq<nat>, script: seq<PeelMessage>,
      i: nat, rep: Rep, input: Input<PeelMessage>): (Rep, set<PeelMessage>)
    requires ValidDeal(c) && SameModulus(c, gone)
    requires base.run.jobIdx < |base.run.jobs| && InstallJob(c, JobOf(base)).Ok?
  {
    match input
    case Begin =>
      if rep.NotYet? then Moves(c, base, agents, script, i, rep, StartJob(c, Begun(c, base))) else (rep, {})
    case Receive(m) =>
      if rep.NotYet? then (rep, {}) else Moves(c, base, agents, script, i, rep, HandlePeel(c, rep.s, m))
    case Nudge =>
      if !Due(c, gone, rep) then (rep, {}) else
      var id := ExpectedPeeler(rep.s);
      Moves(c, base, agents, script, i, rep, PeelOnBehalf(c, rep.s, id, gone[id]))
  }

  /** The job as a turn-taking protocol of the replicas that are left. */
  ghost function JobProtocol(cs: seq<DealConfig>, bases: seq<DealState>, gone: map<string, Key>, agents: seq<nat>,
      script: seq<PeelMessage>): Protocol<Rep, PeelMessage>
    requires Scripted(cs, bases, gone, agents, script)
  {
    Protocol(
      script,
      |cs|,
      (k: nat) => if k < |agents| then agents[k] else 0,
      (i: nat, r: Rep, input: Input<PeelMessage>) =>
        if i >= |cs| then (r, {}) else
        assert Seated(cs[i], bases[i], gone, agents, script, i);
        React(cs[i], bases[i], gone, agents, script, i, r, input),
      (i: nat, r: Rep) => i < |cs| && Good(cs[i], bases[i], agents, script, i, r),
      (r: Rep) => !r.NotYet?,
      (r: Rep) => TurnOf(|script|, r),
      (r: Rep, k: nat) => Knows(|script|, r, k),
      (i: nat, r: Rep) => i < |cs| && !Due(cs[i], gone, r))
  }

  // ------------------------------------------------------------------ single replicas

  /** The peels of replica i for the turns from one to another. */
  ghost function Owed(agents: seq<nat>, script: seq<PeelMessage>, i: nat, from: nat, to: nat): set<PeelMessage> {
    set k | 0 <= k < |script| && k < |agents| && from <= k < to && agents[k] == i :: script[k]
  }

  ghost predicate StepOk(agents: seq<nat>, script: seq<PeelMessage>, i: nat, before: Rep, after: Rep,
      out: set<PeelMessage>) {
    && !after.NotYet? && TurnOf(|script|, before) <= TurnOf(|script|, after)
    && (forall k: nat :: Knows(|script|, before, k) ==> Knows(|script|, after, k))
    && out == Owed(agents, script, i, TurnOf(|script|, before), TurnOf(|script|, after))
  }

  /** Every peel that is replica i's in these turns goes out with the reply. */
  ghost predicate Covers(agents: seq<nat>, script: seq<PeelMessage>, i: nat, from: nat, to: nat, r: DealReply) {
    r.out.Ok? && forall k :: from <= k < to && k < |script| && k < |agents| && agents[k] == i ==>
      script[k] in Collected(r.s, r.out.value)
  }

  lemma SentAll(agents: seq<nat>, script: seq<PeelMessage>, i: nat, from: nat, to: nat, r: DealReply)
    requires Covers(agents, script, i, from, to, r)
    ensures Sent(agents, script, i, from, to, r) == Owed(agents, script, i, from, to)
  {
  }

  /** While the replica is in the job it has not left it. */
  lemma InJobNotGone(c: DealConfig, base: DealState, script: seq<PeelMessage>, s: DealState)
    requires Follows(c, base, script) && AllInstall(c, base.run.jobs) && Ending(c, base, script).out.Ok?
    requires s.run == base.run
    ensures !Gone(c, base, script, s)
  {
    var full := base.(work := Complete(c, base, script));
    var f := FinishJob(c, full);
    if f.1.None? {
      AdvanceOn(c, full.(got := f.0));
    }
  }

  lemma KnownInRange(c: DealConfig, base: DealState, script: seq<PeelMessage>, w: Work)
    requires Tracks(c, base, script, w)
    ensures w.nextPeel <= |script| && forall k: nat :: KnowsPeel(w, k) ==> k < |script|
  {
  }

  predicate At(before: Rep, w: Work) {
    match before case NotYet => w.nextPeel == 0 case Peeling(s) => s.work == w case Past(s) => false
  }

  /** The reply q leaves the replica in the job; r is q, perhaps behind a peel on behalf of another. */
  lemma WaitsMoves(c: DealConfig, base: DealState, agents: seq<nat>, script: seq<PeelMessage>, i: nat, w: Work,
      before: Rep, q: DealReply, r: DealReply)
    requires Follows(c, base, script) && AllInstall(c, base.run.jobs) && Ending(c, base, script).out.Ok?
    requires base.outbound == [] && At(before, w) && Waits(c, base, script, w, q)
    requires Emptied(r.s) == Emptied(q.s) && OthersOnly(agents, i, q.s.work.pending.Keys)
    requires Covers(agents, script, i, w.nextPeel, q.s.work.nextPeel, r)
    ensures var m := Moves(c, base, agents, script, i, before, r);
            && m.0 == Peeling(q.s) && Good(c, base, agents, script, i, m.0)
            && StepOk(agents, script, i, before, m.0, m.1)
  {
    InJobNotGone(c, base, script, q.s);
    SentAll(agents, script, i, w.nextPeel, q.s.work.nextPeel, r);
  }

  /** The reply q ends the job for the replica. */
  lemma EndedMoves(c: DealConfig, base: DealState, agents: seq<nat>, script: seq<PeelMessage>, i: nat, w: Work,
      before: Rep, q: DealReply, r: DealReply)
    requires Follows(c, base, script) && At(before, w) && Tracks(c, base, script, w)
    requires Ended(Ending(c, base, script), Own(c, base), script, w.nextPeel, q)
    requires Emptied(r.s) == Emptied(q.s) && Covers(agents, script, i, w.nextPeel, |script|, r)
    ensures var m := Moves(c, base, agents, script, i, before, r);
            && m.0 == Past(Emptied(q.s)) && Good(c, base, agents, script, i, m.0)
            && StepOk(agents, script, i, before, m.0, m.1)
  {
    EndedIsGone(c, base, script, w.nextPeel, q);
    KnownInRange(c, base, script, w);
    SentAll(agents, script, i, w.nextPeel, |script|, r);
  }

  /** Our own peel goes out with the reply that passes our turn. */
  lemma OwnGoesOut(c: DealConfig, base: DealState, script: seq<PeelMessage>, w: Work, had: set<nat>, q: DealReply,
      to: nat)
    requires Follows(c, base, script) && Ending(c, base, script).out.Ok?
    requires || (Waits(c, base, script, w, q) && to == q.s.work.nextPeel)
             || (Ended(Ending(c, base, script), Own(c, base), script, w.nextPeel, q) && to == |script|)
    ensures q.out.Ok?
    ensures Passes(Own(c, base), w.nextPeel, to) ==> script[Own(c, base).value] in Collected(q.s, q.out.value)
  {
  }

  lemma OwnCovers(c: DealConfig, base: DealState, agents: seq<nat>, script: seq<PeelMessage>, i: nat, w: Work,
      had: set<nat>, q: DealReply, to: nat)
    requires Follows(c, base, script) && q.out.Ok? && to <= |script|
    requires Passes(Own(c, base), w.nextPeel, to) ==> script[Own(c, base).value] in Collected(q.s, q.out.value)
    requires Reach(Own(c, base), w.nextPeel, to, had) && OthersOnly(agents, i, had)
    ensures Covers(agents, script, i, w.nextPeel, to, q)
  {
  }

  /** A reply that passes only our own turn and those of peels that we had. */
  lemma RepliedMoves(c: DealConfig, base: DealState, agents: seq<nat>, script: seq<PeelMessage>, i: nat, w: Work,
      before: Rep, had: set<nat>, q: DealReply)
    requires Follows(c, base, script) && AllInstall(c, base.run.jobs) && Ending(c, base, script).out.Ok?
    requires base.outbound == [] && At(before, w) && Tracks(c, base, script, w) && OthersOnly(agents, i, had)
    requires RepliesWith(c, base, script, Ending(c, base, script), w, had, q)
    ensures var m := Moves(c, base, agents, script, i, before, q);
            Good(c, base, agents, script, i, m.0) && StepOk(agents, script, i, before, m.0, m.1)
    ensures var m := Moves(c, base, agents, script, i, before, q);
            (m.0 == Peeling(q.s) && Waits(c, base, script, w, q)) || m.0.Past?
  {
    if Waits(c, base, script, w, q) && Reach(Own(c, base), w.nextPeel, q.s.work.nextPeel, had)
        && q.s.work.pending.Keys <= had {
      OwnGoesOut(c, base, script, w, had, q, q.s.work.nextPeel);
      OwnCovers(c, base, agents, script, i, w, had, q, q.s.work.nextPeel);
      WaitsMoves(c, base, agents, script, i, w, before, q, q);
    } else {
      OwnGoesOut(c, base, script, w, had, q, |script|);
      OwnCovers(c, base, agents, script, i, w, had, q, |script|);
      EndedMoves(c, base, agents, script, i, w, before, q, q);
    }
  }

  // ---------------------------------------------------------- starting and receiving

  lemma BeginMoves(c: DealConfig, base: DealState, gone: map<string, Key>, agents: seq<nat>,
      script: seq<PeelMessage>, i: nat, r: DealReply)
    requires Seated(c, base, gone, agents, script, i) && r == StartJob(c, Begun(c, base))
    ensures var m := Moves(c, base, agents, script, i, NotYet, r);
            Good(c, base, agents, script, i, m.0) && StepOk(agents, script, i, NotYet, m.0, m.1)
  {
    BegunTracks(c, base, script);
    StartTracks(c, base, script, r);
    var w := Begun(c, base).work;
    assert w.pending.Keys == {};
    RepliedMoves(c, base, agents, script, i, w, NotYet, {}, r);
  }

  /** The reply to peel k of the script, which is not ours or is an old one. */
  lemma HandledWith(c: DealConfig, base: DealState, gone: map<string, Key>, agents: seq<nat>,
      script: seq<PeelMessage>, i: nat, s: DealState, k: nat, r: DealReply) returns (had: set<nat>)
    requires Seated(c, base, gone, agents, script, i) && Good(c, base, agents, script, i, Peeling(s))
    requires k < |script| && (agents[k] == i ==> k < s.work.nextPeel) && r == HandlePeel(c, s, script[k])
    ensures RepliesWith(c, base, script, Ending(c, base, script), s.work, had, r) && OthersOnly(agents, i, had)
    ensures (Waits(c, base, script, s.work, r) && KnowsPeel(r.s.work, k))
        || Ended(Ending(c, base, script), Own(c, base), script, s.work.nextPeel, r)
  {
    if k < s.work.nextPeel {
      had := s.work.pending.Keys;
      HandleEarlier(c, base, script, s, k);
      StaysWaiting(c, base, script, s.work, r);
    } else {
      had := s.work.pending.Keys + {k};
      HandleTracks(c, base, script, s, k, r);
    }
  }

  lemma HandleMoves(c: DealConfig, base: DealState, gone: map<string, Key>, agents: seq<nat>,
      script: seq<PeelMessage>, i: nat, s: DealState, k: nat, r: DealReply)
    requires Seated(c, base, gone, agents, script, i) && Good(c, base, agents, script, i, Peeling(s))
    requires k < |script| && (agents[k] == i ==> k < s.work.nextPeel) && r == HandlePeel(c, s, script[k])
    ensures var m := Moves(c, base, agents, script, i, Peeling(s), r);
            Good(c, base, agents, script, i, m.0) && StepOk(agents, script, i, Peeling(s), m.0, m.1)
            && Knows(|script|, m.0, k)
  {
    var had := HandledWith(c, base, gone, agents, script, i, s, k, r);
    RepliedMoves(c, base, agents, script, i, s.work, Peeling(s), had, r);
    if Ended(Ending(c, base, script), Own(c, base), script, s.work.nextPeel, r) {
      EndedIsGone(c, base, script, s.work.nextPeel, r);
    }
  }

  lemma PastStays(c: DealConfig, base: DealState, gone: map<string, Key>, agents: seq<nat>,
      script: seq<PeelMessage>, i: nat, s: DealState, k: nat)
    requires Seated(c, base, gone, agents, script, i) && Gone(c, base, script, s) && s.outbound == [] && k < |script|
    ensures Moves(c, base, agents, script, i, Past(s), HandlePeel(c, s, script[k])) == (Past(s), {})
  {
    LateCopies(c, base, script, s, k);
    var r := HandlePeel(c, s, script[k]);
    assert Emptied(r.s) == s;
    assert Sent(agents, script, i, |script|, |script|, r) == {};
  }

  // ------------------------------------------------------------- standing for the gone

  lemma BehindCollects(m: PeelMessage, q: DealReply)
    requires q.out.Ok?
    ensures var r := Behind(m, q);
            && r.out == Ok(Some(m)) && m in Collected(r.s, r.out.value) && Emptied(r.s) == Emptied(q.s)
            && forall x :: x in Collected(q.s, q.out.value) ==> x in Collected(r.s, r.out.value)
  {
  }

  /** A peel on behalf of the awaited gone seat is the script's, and is taken in as if it had been received. */
  lemma OnBehalfIs(c: DealConfig, base: DealState, gone: map<string, Key>, agents: seq<nat>,
      script: seq<PeelMessage>, i: nat, s: DealState)
    requires Seated(c, base, gone, agents, script, i) && Good(c, base, agents, script, i, Peeling(s))
    requires Due(c, gone, Peeling(s))
    ensures var k, id := s.work.nextPeel, ExpectedPeeler(s);
            && k < |script| && Own(c, base) != Some(k) && agents[k] == i
            && PeelOnBehalf(c, s, id, gone[id]) == InFront(script[k], HandlePeel(c, s, script[k]))
  {
    var k, id := s.work.nextPeel, ExpectedPeeler(s);
    PlaceOf(c, base, script, k);
    assert id == Peelers(c, base)[k] && Substitutes(c, base, gone, script, k);
    assert PeelMessage(c.hand, PeelAs(c, s, id, gone[id]).value) == script[k];
    assert Acceptable(c, JobOf(base), script, k);
  }

  /** What goes out behind the peel on behalf: our own, if that is next. */
  lemma BehindCovers(own: Option<nat>, agents: seq<nat>, script: seq<PeelMessage>, i: nat, from: nat, to: nat,
      had: set<nat>, q: DealReply)
    requires q.out.Ok? && to <= |script| && from < |script|
    requires Passes(own, from, to) ==> script[own.value] in Collected(q.s, q.out.value)
    requires Reach(own, from, to, had + {from}) && OthersOnly(agents, i, had)
    ensures Covers(agents, script, i, from, to, Behind(script[from], q))
  {
    BehindCollects(script[from], q);
    var r := Behind(script[from], q);
    forall k | from <= k < to && k < |agents| && agents[k] == i ensures script[k] in Collected(r.s, r.out.value) {
      if k != from {
        assert own == Some(k);
      }
    }
  }

  /** The peel just made is not buffered any more. */
  lemma NextNotHeld(c: DealConfig, base: DealState, script: seq<PeelMessage>, w: Work, q: DealReply)
    requires Follows(c, base, script) && Waits(c, base, script, w, q)
    ensures w.nextPeel !in q.s.work.pending
  {
    PassedNotHeld(c.local, c.cards[JobOf(base).cardIndex], script, q.s.work, w.nextPeel);
  }

  lemma PassedNotHeld(local: string, start: int, script: seq<PeelMessage>, v: Work, k: nat)
    requires InStep(local, start, script, v) && v.nextPeel !in v.pending && k <= v.nextPeel
    ensures k !in v.pending
  {
  }

  lemma OthersStay(agents: seq<nat>, i: nat, had: set<nat>, now: set<nat>, k: nat)
    requires OthersOnly(agents, i, had) && now <= had + {k} && k !in now
    ensures OthersOnly(agents, i, now)
  {
  }

  lemma StandMoves(c: DealConfig, base: DealState, gone: map<string, Key>, agents: seq<nat>,
      script: seq<PeelMessage>, i: nat, s: DealState)
    requires Seated(c, base, gone, agents, script, i) && Good(c, base, agents, script, i, Peeling(s))
    requires Due(c, gone, Peeling(s))
    ensures var id := ExpectedPeeler(s);
            var m := Moves(c, base, agents, script, i, Peeling(s), PeelOnBehalf(c, s, id, gone[id]));
            Good(c, base, agents, script, i, m.0) && StepOk(agents, script, i, Peeling(s), m.0, m.1)
  {
    OnBehalfIs(c, base, gone, agents, script, i, s);
    var w, k, q := s.work, s.work.nextPeel, HandlePeel(c, s, script[s.work.nextPeel]);
    HandleNext(c, base, script, s, q);
    BehindMoves(c, base, agents, script, i, w, Peeling(s), q);
  }

  lemma BehindMoves(c: DealConfig, base: DealState, agents: seq<nat>, script: seq<PeelMessage>, i: nat, w: Work,
      before: Rep, q: DealReply)
    requires Follows(c, base, script) && AllInstall(c, base.run.jobs) && Ending(c, base, script).out.Ok?
    requires base.outbound == [] && At(before, w) && Tracks(c, base, script, w) && w.nextPeel < |script|
    requires OthersOnly(agents, i, w.pending.Keys)
    requires RepliesWith(c, base, script, Ending(c, base, script), w, w.pending.Keys + {w.nextPeel}, q)
    ensures q.out.Ok?
    ensures var m := Moves(c, base, agents, script, i, before, InFront(script[w.nextPeel], q));
            Good(c, base, agents, script, i, m.0) && StepOk(agents, script, i, before, m.0, m.1)
  {
    var had := w.pending.Keys + {w.nextPeel};
    var r := InFront(script[w.nextPeel], q);
    if Waits(c, base, script, w, q) && Reach(Own(c, base), w.nextPeel, q.s.work.nextPeel, had)
        && q.s.work.pending.Keys <= had {
      OwnGoesOut(c, base, script, w, had, q, q.s.work.nextPeel);
      BehindCollects(script[w.nextPeel], q);
      BehindCovers(Own(c, base), agents, script, i, w.nextPeel, q.s.work.nextPeel, w.pending.Keys, q);
      NextNotHeld(c, base, script, w, q);
      OthersStay(agents, i, w.pending.Keys, q.s.work.pending.Keys, w.nextPeel);
      WaitsMoves(c, base, agents, script, i, w, before, q, r);
    } else {
      OwnGoesOut(c, base, script, w, had, q, |script|);
      BehindCollects(script[w.nextPeel], q);
      BehindCovers(Own(c, base), agents, script, i, w.nextPeel, |script|, w.pending.Keys, q);
      EndedMoves(c, base, agents, script, i, w, before, q, r);
    }
  }

  // --------------------------------------------------------------- the protocol's duties

  lemma StepMoved(cs: seq<DealConfig>, bases: seq<DealState>, gone: map<string, Key>, agents: seq<nat>,
      script: seq<PeelMessage>, i: nat, before: Rep, m: (Rep, set<PeelMessage>))
    requires Scripted(cs, bases, gone, agents, script) && i < |cs| && Good(cs[i], bases[i], agents, script, i, m.0)
    requires StepOk(agents, script, i, before, m.0, m.1)
    ensures Moved(JobProtocol(cs, bases, gone, agents, script), i, before, m)
  {
    DutiesAreOwed(cs, bases, gone, agents, script, i, TurnOf(|script|, before), TurnOf(|script|, m.0));
  }

  lemma DutiesAreOwed(cs: seq<DealConfig>, bases: seq<DealState>, gone: map<string, Key>, agents: seq<nat>,
      script: seq<PeelMessage>, i: nat, from: nat, to: nat)
    requires Scripted(cs, bases, gone, agents, script)
    ensures Duties(JobProtocol(cs, bases, gone, agents, script), i, from, to) == Owed(agents, script, i, from, to)
  {
  }

  lemma JobBeginsWell(cs: seq<DealConfig>, bases: seq<DealState>, gone: map<string, Key>, agents: seq<nat>,
      script: seq<PeelMessage>)
    requires Scripted(cs, bases, gone, agents, script)
    ensures BeginsWell(JobProtocol(cs, bases, gone, agents, script))
  {
    var P := JobProtocol(cs, bases, gone, agents, script);
    forall i: nat, r | i < |cs| && P.good(i, r) && !P.started(r)
      ensures Moved(P, i, r, P.react(i, r, Begin)) && P.turn(r) == 0 && forall k: nat :: !P.knows(r, k)
    {
      assert Seated(cs[i], bases[i], gone, agents, script, i) && r == NotYet;
      var reply := StartJob(cs[i], Begun(cs[i], bases[i]));
      BeginMoves(cs[i], bases[i], gone, agents, script, i, reply);
      assert P.react(i, r, Begin) == Moves(cs[i], bases[i], agents, script, i, NotYet, reply);
      StepMoved(cs, bases, gone, agents, script, i, r, P.react(i, r, Begin));
    }
  }

  lemma ReplicaReceives(c: DealConfig, base: DealState, gone: map<string, Key>, agents: seq<nat>,
      script: seq<PeelMessage>, i: nat, r: Rep, k: nat)
    requires Seated(c, base, gone, agents, script, i) && Good(c, base, agents, script, i, r) && !r.NotYet?
    requires k < |script| && (agents[k] == i ==> k < TurnOf(|script|, r))
    ensures var m := Moves(c, base, agents, script, i, r, HandlePeel(c, r.s, script[k]));
            Good(c, base, agents, script, i, m.0) && StepOk(agents, script, i, r, m.0, m.1) && Knows(|script|, m.0, k)
  {
    if r.Past? {
      PastStays(c, base, gone, agents, script, i, r.s, k);
      assert Owed(agents, script, i, |script|, |script|) == {};
    } else {
      HandleMoves(c, base, gone, agents, script, i, r.s, k, HandlePeel(c, r.s, script[k]));
    }
  }

  lemma ReactsByMoves(cs: seq<DealConfig>, bases: seq<DealState>, gone: map<string, Key>, agents: seq<nat>,
      script: seq<PeelMessage>, i: nat, r: Rep, m: PeelMessage)
    requires Scripted(cs, bases, gone, agents, script) && i < |cs| && !r.NotYet?
    requires Seated(cs[i], bases[i], gone, agents, script, i)
    ensures JobProtocol(cs, bases, gone, agents, script).react(i, r, Receive(m))
        == Moves(cs[i], bases[i], agents, script, i, r, HandlePeel(cs[i], r.s, m))
  {
  }

  lemma ReceiveOne(cs: seq<DealConfig>, bases: seq<DealState>, gone: map<string, Key>, agents: seq<nat>,
      script: seq<PeelMessage>, i: nat, r: Rep, k: nat)
    requires Scripted(cs, bases, gone, agents, script) && i < |cs| && Good(cs[i], bases[i], agents, script, i, r)
    requires !r.NotYet? && k < |script| && (agents[k] == i ==> k < TurnOf(|script|, r))
    ensures var m := JobProtocol(cs, bases, gone, agents, script).react(i, r, Receive(script[k]));
            Moved(JobProtocol(cs, bases, gone, agents, script), i, r, m) && Knows(|script|, m.0, k)
  {
    assert Seated(cs[i], bases[i], gone, agents, script, i);
    var m := Moves(cs[i], bases[i], agents, script, i, r, HandlePeel(cs[i], r.s, script[k]));
    ReplicaReceives(cs[i], bases[i], gone, agents, script, i, r, k);
    StepMoved(cs, bases, gone, agents, script, i, r, m);
    ReactsByMoves(cs, bases, gone, agents, script, i, r, script[k]);
  }

  lemma JobReceivesWell(cs: seq<DealConfig>, bases: seq<DealState>, gone: map<string, Key>, agents: seq<nat>,
      script: seq<PeelMessage>)
    requires Scripted(cs, bases, gone, agents, script)
    ensures ReceivesWell(JobProtocol(cs, bases, gone, agents, script))
  {
    var P := JobProtocol(cs, bases, gone, agents, script);
    forall i: nat, r, k: nat | i < |cs| && P.good(i, r) && P.started(r) && k < |script|
        && (P.agent(k) == i ==> k < P.turn(r))
      ensures var m := P.react(i, r, Receive(script[k])); Moved(P, i, r, m) && P.knows(m.0, k)
    {
      ReceiveOne(cs, bases, gone, agents, script, i, r, k);
    }
  }

  lemma NudgeOne(cs: seq<DealConfig>, bases: seq<DealState>, gone: map<string, Key>, agents: seq<nat>,
      script: seq<PeelMessage>, i: nat, r: Rep)
    requires Scripted(cs, bases, gone, agents, script) && i < |cs| && Good(cs[i], bases[i], agents, script, i, r)
    requires !r.NotYet?
    ensures Moved(JobProtocol(cs, bases, gone, agents, script), i, r,
                JobProtocol(cs, bases, gone, agents, script).react(i, r, Nudge))
  {
    assert Seated(cs[i], bases[i], gone, agents, script, i);
    var m := React(cs[i], bases[i], gone, agents, script, i, r, Nudge);
    if Due(cs[i], gone, r) {
      StandMoves(cs[i], bases[i], gone, agents, script, i, r.s);
    } else {
      assert Owed(agents, script, i, TurnOf(|script|, r), TurnOf(|script|, r)) == {};
    }
    StepMoved(cs, bases, gone, agents, script, i, r, m);
  }

  lemma JobNudgesWell(cs: seq<DealConfig>, bases: seq<DealState>, gone: map<string, Key>, agents: seq<nat>,
      script: seq<PeelMessage>)
    requires Scripted(cs, bases, gone, agents, script)
    ensures NudgesWell(JobProtocol(cs, bases, gone, agents, script))
  {
    var P := JobProtocol(cs, bases, gone, agents, script);
    forall i: nat, r | i < |cs| && P.good(i, r) && P.started(r) ensures Moved(P, i, r, P.react(i, r, Nudge)) {
      NudgeOne(cs, bases, gone, agents, script, i, r);
    }
  }

  lemma JobIgnoresRest(cs: seq<DealConfig>, bases: seq<DealState>, gone: map<string, Key>, agents: seq<nat>,
      script: seq<PeelMessage>)
    requires Scripted(cs, bases, gone, agents, script)
    ensures IgnoresRest(JobProtocol(cs, bases, gone, agents, script))
  {
    var P := JobProtocol(cs, bases, gone, agents, script);
    forall i: nat, r | i < |cs| && P.good(i, r) && P.started(r) ensures P.react(i, r, Begin) == (r, {}) {
      assert Seated(cs[i], bases[i], gone, agents, script, i);
    }
    forall i: nat, r, x: Input<PeelMessage> | i < |cs| && P.good(i, r) && !P.started(r) && !x.Begin?
      ensures P.react(i, r, x) == (r, {})
    {
      assert Seated(cs[i], bases[i], gone, agents, script, i);
    }
  }

  /** A replica waits for a peel that it does not have, and only if nudged would it make that peel itself. */
  lemma WaitsForNext(c: DealConfig, base: DealState, gone: map<string, Key>, agents: seq<nat>,
      script: seq<PeelMessage>, i: nat, s: DealState)
    requires Seated(c, base, gone, agents, script, i) && Good(c, base, agents, script, i, Peeling(s))
    requires s.work.nextPeel < |script|
    ensures !KnowsPeel(s.work, s.work.nextPeel)
    ensures !Due(c, gone, Peeling(s)) ==> agents[s.work.nextPeel] != i
  {
    PlaceOf(c, base, script, s.work.nextPeel);
  }

  lemma JobWaitsForOthers(cs: seq<DealConfig>, bases: seq<DealState>, gone: map<string, Key>, agents: seq<nat>,
      script: seq<PeelMessage>)
    requires Scripted(cs, bases, gone, agents, script)
    ensures WaitsForOthers(JobProtocol(cs, bases, gone, agents, script))
  {
    var P := JobProtocol(cs, bases, gone, agents, script);
    forall i: nat, r | i < |cs| && P.good(i, r) && P.started(r) && P.turn(r) < |script|
      ensures !P.knows(r, P.turn(r)) && (P.idle(i, r) ==> P.agent(P.turn(r)) != i)
    {
      assert Seated(cs[i], bases[i], gone, agents, script, i);
      WaitsForNext(cs[i], bases[i], gone, agents, script, i, r.s);
    }
  }

  lemma PeelsDiffer(cs: seq<DealConfig>, bases: seq<DealState>, gone: map<string, Key>, agents: seq<nat>,
      script: seq<PeelMessage>, k: nat, l: nat)
    requires Scripted(cs, bases, gone, agents, script) && k < l < |script|
    ensures script[k] != script[l]
  {
    assert agents[k] < |cs|;
    assert Seated(cs[0], bases[0], gone, agents, script, 0);
    PlaceOf(cs[0], bases[0], script, k);
    PlaceOf(cs[0], bases[0], script, l);
  }

  lemma JobProtocolSound(cs: seq<DealConfig>, bases: seq<DealState>, gone: map<string, Key>, agents: seq<nat>,
      script: seq<PeelMessage>)
    requires Scripted(cs, bases, gone, agents, script)
    ensures Sound(JobProtocol(cs, bases, gone, agents, script))
  {
    forall k, l | 0 <= k < l < |script| ensures script[k] != script[l] {
      PeelsDiffer(cs, bases, gone, agents, script, k, l);
    }
    JobBeginsWell(cs, bases, gone, agents, script);
    JobReceivesWell(cs, bases, gone, agents, script);
    JobNudgesWell(cs, bases, gone, agents, script);
    JobIgnoresRest(cs, bases, gone, agents, script);
    JobWaitsForOthers(cs, bases, gone, agents, script);
  }

  // ------------------------------------------------------------------------ theorems

  ghost function JobRun(cs: seq<DealConfig>, bases: seq<DealState>, gone: map<string, Key>, agents: seq<nat>,
      script: seq<PeelMessage>, events: seq<Event<PeelMessage>>): (net: Net<Rep, PeelMessage>)
    requires Scripted(cs, bases, gone, agents, script)
    ensures |net.reps| == |net.heard| == |cs|
  {
    RunNet(JobProtocol(cs, bases, gone, agents, script), seq(|cs|, _ => NotYet), events)
  }

  lemma DeliveredIsPast(cs: seq<DealConfig>, bases: seq<DealState>, gone: map<string, Key>, agents: seq<nat>,
      script: seq<PeelMessage>, events: seq<Event<PeelMessage>>, i: nat)
    requires Scripted(cs, bases, gone, agents, script) && i < |cs|
    requires FullyDelivered(JobProtocol(cs, bases, gone, agents, script),
                 JobRun(cs, bases, gone, agents, script, events))
    ensures var r := JobRun(cs, bases, gone, agents, script, events).reps[i];
            Good(cs[i], bases[i], agents, script, i, r) && !r.NotYet? && TurnOf(|script|, r) >= |script|
  {
    var P := JobProtocol(cs, bases, gone, agents, script);
    var init := seq(|cs|, _ => NotYet);
    JobProtocolSound(cs, bases, gone, agents, script);
    RunKeepsInv(P, init, events);
    EveryTurnPasses(P, init, events, i);
    var r := JobRun(cs, bases, gone, agents, script, events).reps[i];
    assert P.good(i, r) && P.started(r) && P.turn(r) == TurnOf(|script|, r);
  }

  /**
   * No stuck job, whichever seats are gone as long as one is left: once everything published
   * has reached everyone and the one who stands for the gone has made the peels that were
   * awaited from them, every replica, recipient or peeler, has left the job in its one final state.
   */
  lemma EveryoneLeavesJob(cs: seq<DealConfig>, bases: seq<DealState>, gone: map<string, Key>, agents: seq<nat>,
      script: seq<PeelMessage>, events: seq<Event<PeelMessage>>, i: nat)
    requires Scripted(cs, bases, gone, agents, script) && i < |cs|
    requires FullyDelivered(JobProtocol(cs, bases, gone, agents, script),
                 JobRun(cs, bases, gone, agents, script, events))
    ensures var r := JobRun(cs, bases, gone, agents, script, events).reps[i];
            && Seated(cs[i], bases[i], gone, agents, script, i)
            && r.Past? && Gone(cs[i], bases[i], script, r.s)
  {
    assert Seated(cs[i], bases[i], gone, agents, script, i);
    DeliveredIsPast(cs, bases, gone, agents, script, events, i);
  }

  /** In every reachable state exactly the peels whose turn has passed on the replica that makes them are published. */
  lemma PeelsPublishedOnce(cs: seq<DealConfig>, bases: seq<DealState>, gone: map<string, Key>, agents: seq<nat>,
      script: seq<PeelMessage>, events: seq<Event<PeelMessage>>)
    requires Scripted(cs, bases, gone, agents, script)
    ensures var net := JobRun(cs, bases, gone, agents, script, events);
            && (forall m :: m in net.sent ==> m in script)
            && forall k :: 0 <= k < |script| ==>
                 (script[k] in net.sent <==> k < TurnOf(|script|, net.reps[agents[k]]))
  {
    var P := JobProtocol(cs, bases, gone, agents, script);
    var net := JobRun(cs, bases, gone, agents, script, events);
    JobProtocolSound(cs, bases, gone, agents, script);
    RunKeepsInv(P, seq(|cs|, _ => NotYet), events);
    SentIsPassed(cs, bases, gone, agents, script, net);
  }

  lemma SentIsPassed(cs: seq<DealConfig>, bases: seq<DealState>, gone: map<string, Key>, agents: seq<nat>,
      script: seq<PeelMessage>, net: Net<Rep, PeelMessage>)
    requires Scripted(cs, bases, gone, agents, script) && |net.reps| == |cs|
    requires NetInv(JobProtocol(cs, bases, gone, agents, script), net)
    ensures forall m :: m in net.sent ==> m in script
    ensures forall k :: 0 <= k < |script| ==>
              (script[k] in net.sent <==> k < TurnOf(|script|, net.reps[agents[k]]))
  {
    var P := JobProtocol(cs, bases, gone, agents, script);
    forall k | 0 <= k < |script| ensures script[k] in net.sent <==> k < TurnOf(|script|, net.reps[agents[k]]) {
      assert P.turn(net.reps[agents[k]]) == TurnOf(|script|, net.reps[agents[k]]);
    }
  }
}
