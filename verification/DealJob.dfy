// One peel job on one replica (internal/crypto/deal_session.go:383-434, 605-686): handed the
// job's honest peels in any order and any number of times, the replica always ends it in
// the same way.
module DealJob {
  import opened DealSession
  import opened DealSafety
  import ShuffleSession
  import opened Wrappers
  import opened Zkp

  // ------------------------------------------------------------ the script of one job

  /** The job that the state is about to install. */
  function JobOf(base: DealState): Job
    requires base.run.jobIdx < |base.run.jobs|
  {
    base.run.jobs[base.run.jobIdx]
  }

  /** The ciphertext that peeler k peels, from the deck's on. */
  function Left(start: int, script: seq<PeelMessage>, k: nat): int
    requires k <= |script|
  {
    if k == 0 then start else script[k - 1].pd.result
  }

  function Before(c: DealConfig, j: Job, script: seq<PeelMessage>, k: nat): int
    requires 0 <= j.cardIndex < |c.cards| && k <= |script|
  {
    Left(c.cards[j.cardIndex], script, k)
  }

  /** Peel k passes every replica's checks. */
  predicate Acceptable(c: DealConfig, j: Job, script: seq<PeelMessage>, k: nat)
    requires c.p > 2 && 0 <= j.cardIndex < |c.cards| && k < |script|
  {
    var m := script[k];
    && m.hand == c.hand && m.pd.cardIndex == j.cardIndex
    && VerifyAndApply(c.hash, Before(c, j, script, k), m.pd, c.p, c.session) == Ok(m.pd.result)
  }

  /** The peel that this replica makes when it is its turn. */
  function OwnPeel(c: DealConfig, base: DealState, current: int): Result<PartialDecryption>
    requires c.p > 2 && c.key.p == c.p && base.run.jobIdx < |base.run.jobs|
  {
    Peel(c.hash, c.key, current, JobOf(base).cardIndex, c.local, c.session,
        c.nonces(c.local, base.run.kind, JobOf(base).cardIndex))
  }

  /** script lists the one peel of each peeler of the job, in order; ours is the one we make. */
  ghost predicate Follows(c: DealConfig, base: DealState, script: seq<PeelMessage>) {
    && ValidDeal(c) && base.run.kind != Idle && base.run.jobIdx < |base.run.jobs|
    && var j := JobOf(base);
    && InstallJob(c, j).Ok?
    && var peelers := InstallJob(c, j).value.peelers;
    && |script| == |peelers| && Distinct(peelers) && "" !in peelers
    && (forall k :: 0 <= k < |script| ==> script[k].pd.player == peelers[k] && Acceptable(c, j, script, k))
    && (forall k :: 0 <= k < |script| && peelers[k] == c.local ==>
          OwnPeel(c, base, Before(c, j, script, k)) == Ok(script[k].pd) && script[k].hand == c.hand)
  }

  function Peelers(c: DealConfig, base: DealState): seq<string>
    requires base.run.jobIdx < |base.run.jobs| && InstallJob(c, JobOf(base)).Ok?
  {
    InstallJob(c, JobOf(base)).value.peelers
  }

  /** Our place among the peelers; a recipient has none. */
  function Own(c: DealConfig, base: DealState): Option<nat>
    requires base.run.jobIdx < |base.run.jobs| && InstallJob(c, JobOf(base)).Ok?
  {
    ShuffleSession.SeatOf(Peelers(c, base), c.local)
  }

  // ---------------------------------------------------------------- one honest replica

  /** Exactly the peels before nextPeel have been applied and only later ones, not ours, buffered. */
  ghost predicate InStep(local: string, start: int, script: seq<PeelMessage>, w: Work) {
    && |w.peelers| == |script| && w.nextPeel <= |script| && w.current == Left(start, script, w.nextPeel)
    && (forall k: nat :: k in w.applied <==> k < w.nextPeel)
    && (forall k: nat :: k in w.applied ==> w.applied[k] == script[k])
    && (forall k: nat :: k in w.pending ==>
        w.nextPeel <= k < |script| && w.peelers[k] != local && w.pending[k] == script[k])
  }

  ghost predicate Tracks(c: DealConfig, base: DealState, script: seq<PeelMessage>, w: Work) {
    && Follows(c, base, script)
    && w.busy && w.job == JobOf(base) && w.peelers == Peelers(c, base)
    && InStep(c.local, c.cards[JobOf(base).cardIndex], script, w)
  }

  /** Nothing more can be done without another message. */
  predicate Waiting(c: DealConfig, w: Work) {
    !JobComplete(w) && NextPeeler(w) != c.local && w.nextPeel !in w.pending
  }

  predicate KnowsPeel(w: Work, k: nat) {
    k < w.nextPeel || k in w.pending
  }

  ghost predicate Advances(w: Work, w': Work) {
    w.nextPeel <= w'.nextPeel && forall k: nat :: k < w.nextPeel || k in w.pending ==> KnowsPeel(w', k)
  }

  /** The job with every peel of the script applied. */
  function Complete(c: DealConfig, base: DealState, script: seq<PeelMessage>): Work
    requires c.p > 2 && base.run.jobIdx < |base.run.jobs| && InstallJob(c, JobOf(base)).Ok?
  {
    Work(true, JobOf(base), Peelers(c, base), |script|, Before(c, JobOf(base), script, |script|), map[],
         map k: nat | k < |script| :: script[k])
  }

  /** What follows the completed job, however it was completed. */
  function Ending(c: DealConfig, base: DealState, script: seq<PeelMessage>): DealReply
    requires c.p > 2 && c.key.p == c.p && base.run.jobIdx < |base.run.jobs| && InstallJob(c, JobOf(base)).Ok?
  {
    var s := base.(work := Complete(c, base, script));
    var f := FinishJob(c, s);
    if f.1.Some? then DealReply(s, Err(f.1.value)) else AdvanceSequence(c, s.(got := f.0))
  }

  /** Our turn lies between the two points. */
  predicate Passes(own: Option<nat>, from: nat, to: nat) {
    own.Some? && from <= own.value < to
  }

  /**
   * The reply of a replica that was at w: it waits further on in the job. Our own peel is
   * returned exactly if our turn has passed.
   */
  ghost predicate Waits(c: DealConfig, base: DealState, script: seq<PeelMessage>, w: Work, r: DealReply) {
    && r.s == base.(work := r.s.work)
    && Tracks(c, base, script, r.s.work) && Waiting(c, r.s.work) && Advances(w, r.s.work)
    && var own := Own(c, base);
       r.out == Ok(if Passes(own, w.nextPeel, r.s.work.nextPeel) then Some(script[own.value]) else None)
  }

  /**
   * The reply of a replica that was at peel from: the job has ended as in end, our own peel
   * in front if our turn has passed.
   */
  predicate Ended(end: DealReply, own: Option<nat>, script: seq<PeelMessage>, from: nat, r: DealReply) {
    r == if Passes(own, from, |script|) then Behind(script[own.value], end) else end
  }

  /** Every turn from one peel to another was our own or that of a peel that we had. */
  predicate Reach(own: Option<nat>, from: nat, to: nat, had: set<nat>) {
    forall k: nat :: from <= k < to ==> own == Some(k) || k in had
  }

  /** The reply of a replica that was at w and had these peels: it waits further on, or the job has ended. */
  ghost predicate RepliesWith(c: DealConfig, base: DealState, script: seq<PeelMessage>, end: DealReply, w: Work,
      had: set<nat>, r: DealReply)
    requires Follows(c, base, script)
  {
    || (&& Waits(c, base, script, w, r) && Reach(Own(c, base), w.nextPeel, r.s.work.nextPeel, had)
        && r.s.work.pending.Keys <= had)
    || (Ended(end, Own(c, base), script, w.nextPeel, r) && Reach(Own(c, base), w.nextPeel, |script|, had))
  }

  ghost predicate GoodReply(c: DealConfig, base: DealState, script: seq<PeelMessage>, end: DealReply, w: Work,
      r: DealReply)
    requires Follows(c, base, script)
  {
    RepliesWith(c, base, script, end, w, w.pending.Keys, r)
  }

  /** The same after peel k has been handed over, which the replica then knows. */
  ghost predicate GoodHandled(c: DealConfig, base: DealState, script: seq<PeelMessage>, end: DealReply, w: Work,
      k: nat, r: DealReply)
    requires Follows(c, base, script)
  {
    && RepliesWith(c, base, script, end, w, w.pending.Keys + {k}, r)
    && ((Waits(c, base, script, w, r) && KnowsPeel(r.s.work, k)) || Ended(end, Own(c, base), script, w.nextPeel, r))
  }

  lemma PlaceOf(c: DealConfig, base: DealState, script: seq<PeelMessage>, k: nat)
    requires Follows(c, base, script) && k < |script|
    ensures ShuffleSession.SeatOf(Peelers(c, base), script[k].pd.player) == Some(k)
    ensures Peelers(c, base)[k] == c.local <==> Own(c, base) == Some(k)
    ensures script[k].pd.player == Peelers(c, base)[k]
  {
    SeatFound(Peelers(c, base), k);
    var own := Own(c, base);
  }

  lemma NextVerifies(c: DealConfig, base: DealState, script: seq<PeelMessage>, w: Work)
    requires Tracks(c, base, script, w) && w.nextPeel < |script|
    ensures var m := script[w.nextPeel];
            && VerifyAndApply(c.hash, w.current, m.pd, c.p, c.session) == Ok(m.pd.result)
            && ShuffleSession.SeatOf(w.peelers, m.pd.player) == Some(w.nextPeel)
  {
    PlaceOf(c, base, script, w.nextPeel);
    assert Acceptable(c, JobOf(base), script, w.nextPeel);
  }

  lemma ApplyVerified(c: DealConfig, w: Work, m: PeelMessage)
    requires c.p > 2 && VerifyAndApply(c.hash, w.current, m.pd, c.p, c.session) == Ok(m.pd.result)
    requires ShuffleSession.SeatOf(w.peelers, m.pd.player) == Some(w.nextPeel)
    ensures Apply(c, w, m)
        == (w.(applied := w.applied[w.nextPeel := m], current := m.pd.result, nextPeel := w.nextPeel + 1), None)
  {
  }

  lemma ApplyNext(c: DealConfig, base: DealState, script: seq<PeelMessage>, w: Work)
    requires Tracks(c, base, script, w) && w.nextPeel < |script|
    ensures var m := script[w.nextPeel];
            Apply(c, w, m) == (w.(applied := w.applied[w.nextPeel := m], current := m.pd.result,
                nextPeel := w.nextPeel + 1), None)
  {
    NextVerifies(c, base, script, w);
    ApplyVerified(c, w, script[w.nextPeel]);
  }

  lemma NextInStep(local: string, start: int, script: seq<PeelMessage>, w: Work)
    requires InStep(local, start, script, w) && w.nextPeel < |script| && w.nextPeel !in w.pending
    ensures var m := script[w.nextPeel];
            var w' := w.(applied := w.applied[w.nextPeel := m], current := m.pd.result, nextPeel := w.nextPeel + 1);
            InStep(local, start, script, w') && Advances(w, w')
  {
  }

  /** Applying the next peel of the script. */
  lemma ApplyTracks(c: DealConfig, base: DealState, script: seq<PeelMessage>, w: Work)
    requires Tracks(c, base, script, w) && w.nextPeel < |script| && w.nextPeel !in w.pending
    ensures var a := Apply(c, w, script[w.nextPeel]);
            a.1 == None && Tracks(c, base, script, a.0) && a.0.nextPeel == w.nextPeel + 1 && Advances(w, a.0)
  {
    ApplyNext(c, base, script, w);
    NextInStep(c.local, c.cards[JobOf(base).cardIndex], script, w);
  }

  lemma TakeBuffered(c: DealConfig, base: DealState, script: seq<PeelMessage>, w: Work)
    requires Tracks(c, base, script, w) && w.nextPeel in w.pending
    ensures w.nextPeel < |script| && w.pending[w.nextPeel] == script[w.nextPeel]
    ensures var a := Apply(c, w.(pending := w.pending - {w.nextPeel}), script[w.nextPeel]);
            a.1 == None && Tracks(c, base, script, a.0) && a.0.nextPeel == w.nextPeel + 1 && Advances(w, a.0)
  {
    ApplyTracks(c, base, script, w.(pending := w.pending - {w.nextPeel}));
  }

  lemma {:induction false} DrainTracks(c: DealConfig, base: DealState, script: seq<PeelMessage>, w: Work)
    requires Tracks(c, base, script, w)
    ensures var d := DrainPeels(c, w);
            && d.1 == None && Tracks(c, base, script, d.0) && Advances(w, d.0)
            && (JobComplete(d.0) || NextPeeler(d.0) == c.local || Waiting(c, d.0))
            && !Passes(Own(c, base), w.nextPeel, d.0.nextPeel)
    decreases |script| - w.nextPeel
  {
    if !JobComplete(w) && NextPeeler(w) != c.local && w.nextPeel in w.pending {
      TakeBuffered(c, base, script, w);
      var next := Apply(c, w.(pending := w.pending - {w.nextPeel}), script[w.nextPeel]).0;
      DrainTracks(c, base, script, next);
      var d := DrainPeels(c, next);
      DrainUnfolds(c, w, script[w.nextPeel], next, d);
      PassesNot(c, base, script, w.nextPeel, d.0.nextPeel);
      AdvancesTrans(w, next, d.0);
    }
  }

  /** Draining uses up buffered peels only. */
  lemma {:induction false} DrainReach(c: DealConfig, w: Work)
    requires c.p > 2
    ensures var d := DrainPeels(c, w).0;
            Reach(None, w.nextPeel, d.nextPeel, w.pending.Keys) && d.pending.Keys <= w.pending.Keys
    decreases |w.peelers| - w.nextPeel
  {
    if !JobComplete(w) && NextPeeler(w) != c.local && w.nextPeel in w.pending {
      var a := Apply(c, w.(pending := w.pending - {w.nextPeel}), w.pending[w.nextPeel]);
      if a.1.None? {
        DrainReach(c, a.0);
      }
    }
  }

  /** One more turn at the front, our own or that of a peel that we had. */
  lemma ReachBack(own: Option<nat>, from: nat, to: nat, had: set<nat>)
    requires (own == Some(from) || from in had) && Reach(own, from + 1, to, had)
    ensures Reach(own, from, to, had)
  {
  }

  lemma ReachMore(own: Option<nat>, from: nat, mid: nat, to: nat, had: set<nat>, less: set<nat>)
    requires Reach(None, from, mid, had) && Reach(own, mid, to, less) && less <= had
    ensures Reach(own, from, to, had)
  {
  }

  lemma DrainUnfolds(c: DealConfig, w: Work, m: PeelMessage, next: Work, d: (Work, Option<Error>))
    requires c.p > 2 && !JobComplete(w) && NextPeeler(w) != c.local && w.nextPeel in w.pending
    requires m == w.pending[w.nextPeel] && Apply(c, w.(pending := w.pending - {w.nextPeel}), m) == (next, None)
    requires d == DrainPeels(c, next)
    ensures DrainPeels(c, w) == d
  {
  }

  lemma AdvancesTrans(a: Work, b: Work, c: Work)
    requires Advances(a, b) && Advances(b, c)
    ensures Advances(a, c)
  {
  }

  /** Passing someone else's turn is not passing ours. */
  lemma PassesNot(c: DealConfig, base: DealState, script: seq<PeelMessage>, from: nat, to: nat)
    requires Follows(c, base, script) && from < |script| && Peelers(c, base)[from] != c.local
    ensures Passes(Own(c, base), from, to) <==> Passes(Own(c, base), from + 1, to)
  {
    PlaceOf(c, base, script, from);
  }

  lemma AllApplied(script: seq<PeelMessage>, applied: map<nat, PeelMessage>, pending: map<nat, PeelMessage>)
    requires forall k: nat :: k in applied <==> k < |script|
    requires forall k: nat :: k in applied ==> applied[k] == script[k]
    requires forall k: nat :: k !in pending
    ensures applied == (map k: nat | k < |script| :: script[k]) && pending == map[]
  {
  }

  lemma CompleteInStep(local: string, start: int, script: seq<PeelMessage>, w: Work)
    requires InStep(local, start, script, w) && JobComplete(w)
    ensures w == Work(w.busy, w.job, w.peelers, |script|, Left(start, script, |script|), map[],
        map k: nat | k < |script| :: script[k])
  {
    AllApplied(script, w.applied, w.pending);
  }

  lemma CompleteIs(c: DealConfig, base: DealState, script: seq<PeelMessage>, w: Work)
    requires Tracks(c, base, script, w) && JobComplete(w)
    ensures w == Complete(c, base, script)
  {
    CompleteInStep(c.local, c.cards[JobOf(base).cardIndex], script, w);
  }

  /** A reply behind our own peel, seen from before that peel. */
  lemma OursInFront(c: DealConfig, base: DealState, script: seq<PeelMessage>, end: DealReply, w: Work, a: Work,
      behind: DealReply, r: DealReply)
    requires Follows(c, base, script) && w.nextPeel < |script| && Own(c, base) == Some(w.nextPeel)
    requires a.nextPeel == w.nextPeel + 1 && a.pending == w.pending && Advances(w, a)
    requires GoodReply(c, base, script, end, a, behind)
    requires r == Behind(script[w.nextPeel], behind)
    ensures GoodReply(c, base, script, end, w, r)
  {
    var own, had := Own(c, base), w.pending.Keys;
    if Waits(c, base, script, a, behind) && Reach(own, a.nextPeel, behind.s.work.nextPeel, had)
        && behind.s.work.pending.Keys <= had {
      ReachBack(own, w.nextPeel, behind.s.work.nextPeel, had);
      OursWaits(c, base, script, w, a, behind, r);
    } else {
      ReachBack(own, w.nextPeel, |script|, had);
      assert Ended(end, own, script, w.nextPeel, r);
    }
  }

  lemma OursWaits(c: DealConfig, base: DealState, script: seq<PeelMessage>, w: Work, a: Work, behind: DealReply,
      r: DealReply)
    requires Follows(c, base, script) && w.nextPeel < |script| && Own(c, base) == Some(w.nextPeel)
    requires a.nextPeel == w.nextPeel + 1 && Advances(w, a) && Waits(c, base, script, a, behind)
    requires r == Behind(script[w.nextPeel], behind)
    ensures Waits(c, base, script, w, r)
  {
    AdvancesTrans(w, a, behind.s.work);
  }

  lemma ExecuteIs(c: DealConfig, base: DealState, script: seq<PeelMessage>, s: DealState)
    requires s == base.(work := s.work) && Tracks(c, base, script, s.work) && !JobComplete(s.work)
    requires NextPeeler(s.work) == c.local
    ensures var m := script[s.work.nextPeel];
            ExecutePeel(c, s) == Behind(m, AfterPeel(c, s.(work := Apply(c, s.work, m).0)))
    ensures Own(c, base) == Some(s.work.nextPeel)
  {
    PlaceOf(c, base, script, s.work.nextPeel);
    assert PeelMessage(c.hand, PeelAs(c, s, c.local, c.key).value) == script[s.work.nextPeel];
    ApplyNext(c, base, script, s.work);
  }

  /** Our own turn: the peel is the script's and the replica goes on behind it. */
  lemma {:induction false} ExecuteTracks(c: DealConfig, base: DealState, script: seq<PeelMessage>, s: DealState,
      r: DealReply)
    requires Follows(c, base, script) && r == ExecutePeel(c, s)
    requires s == base.(work := s.work) && Tracks(c, base, script, s.work) && !JobComplete(s.work)
    requires NextPeeler(s.work) == c.local
    ensures GoodReply(c, base, script, Ending(c, base, script), s.work, r)
    decreases |script| - s.work.nextPeel, 0
  {
    ExecuteIs(c, base, script, s);
    OursNotBuffered(c, base, script, s.work);
    ApplyTracks(c, base, script, s.work);
    var a := Apply(c, s.work, script[s.work.nextPeel]).0;
    var behind := AfterPeel(c, s.(work := a));
    AfterTracks(c, base, script, s.(work := a), behind);
    OursInFront(c, base, script, Ending(c, base, script), s.work, a, behind, r);
  }

  lemma OursNotBuffered(c: DealConfig, base: DealState, script: seq<PeelMessage>, w: Work)
    requires Tracks(c, base, script, w) && !JobComplete(w) && NextPeeler(w) == c.local
    ensures w.nextPeel !in w.pending
  {
  }

  lemma {:induction false} AfterTracks(c: DealConfig, base: DealState, script: seq<PeelMessage>, s: DealState,
      r: DealReply)
    requires Follows(c, base, script) && r == AfterPeel(c, s)
    requires s == base.(work := s.work) && Tracks(c, base, script, s.work)
    ensures GoodReply(c, base, script, Ending(c, base, script), s.work, r)
    decreases |script| - s.work.nextPeel, 1
  {
    DrainTracks(c, base, script, s.work);
    DrainReach(c, s.work);
    var d := DrainPeels(c, s.work).0;
    var s' := s.(work := d);
    if JobComplete(d) {
      CompleteIs(c, base, script, d);
      assert r == Ending(c, base, script);
    } else if NextPeeler(d) == c.local {
      ExecuteTracks(c, base, script, s', r);
      FromEarlier(c, base, script, Ending(c, base, script), s.work, d, r);
    }
  }

  /** A reply seen from before some buffered peels. */
  lemma FromEarlier(c: DealConfig, base: DealState, script: seq<PeelMessage>, end: DealReply, w: Work, d: Work,
      r: DealReply)
    requires Follows(c, base, script) && Advances(w, d) && GoodReply(c, base, script, end, d, r)
    requires !Passes(Own(c, base), w.nextPeel, d.nextPeel)
    requires Reach(None, w.nextPeel, d.nextPeel, w.pending.Keys) && d.pending.Keys <= w.pending.Keys
    ensures GoodReply(c, base, script, end, w, r)
  {
    var own, had := Own(c, base), w.pending.Keys;
    if Waits(c, base, script, d, r) && Reach(own, d.nextPeel, r.s.work.nextPeel, d.pending.Keys)
        && r.s.work.pending.Keys <= d.pending.Keys {
      AdvancesTrans(w, d, r.s.work);
      ReachMore(own, w.nextPeel, d.nextPeel, r.s.work.nextPeel, had, d.pending.Keys);
    } else {
      ReachMore(own, w.nextPeel, d.nextPeel, |script|, had, d.pending.Keys);
      assert Ended(end, own, script, w.nextPeel, r);
    }
  }

  /** The job's first state. */
  function Begun(c: DealConfig, base: DealState): DealState
    requires base.run.jobIdx < |base.run.jobs| && InstallJob(c, JobOf(base)).Ok?
  {
    base.(work := InstallJob(c, JobOf(base)).value)
  }

  lemma BegunTracks(c: DealConfig, base: DealState, script: seq<PeelMessage>)
    requires Follows(c, base, script)
    ensures Tracks(c, base, script, Begun(c, base).work)
  {
    var w := Begun(c, base).work;
    assert w.applied.Keys == {} && w.pending.Keys == {};
  }

  lemma BegunWaits(c: DealConfig, base: DealState, script: seq<PeelMessage>, w: Work)
    requires Tracks(c, base, script, w) && w.nextPeel == 0 && w.pending == map[] && w.peelers != []
    requires w.peelers[0] != c.local
    ensures Waits(c, base, script, w, DealReply(base.(work := w), Ok(None)))
  {
  }

  /** Starting the job. */
  lemma StartTracks(c: DealConfig, base: DealState, script: seq<PeelMessage>, r: DealReply)
    requires Follows(c, base, script) && r == StartJob(c, Begun(c, base))
    ensures GoodReply(c, base, script, Ending(c, base, script), Begun(c, base).work, r)
  {
    BegunTracks(c, base, script);
    var s := Begun(c, base);
    if s.work.peelers[0] == c.local {
      ExecuteTracks(c, base, script, s, r);
    } else {
      BegunWaits(c, base, script, s.work);
    }
  }

  lemma BufferPeel(local: string, start: int, script: seq<PeelMessage>, w: Work, k: nat)
    requires InStep(local, start, script, w) && w.nextPeel < k < |script| && w.peelers[k] != local
    ensures var w' := w.(pending := w.pending[k := script[k]]); InStep(local, start, script, w') && Advances(w, w')
  {
  }

  lemma HandleNext(c: DealConfig, base: DealState, script: seq<PeelMessage>, s: DealState, r: DealReply)
    requires s == base.(work := s.work) && Tracks(c, base, script, s.work) && Waiting(c, s.work)
    requires r == HandlePeel(c, s, script[s.work.nextPeel])
    ensures GoodHandled(c, base, script, Ending(c, base, script), s.work, s.work.nextPeel, r)
  {
    var k := s.work.nextPeel;
    PlaceOf(c, base, script, k);
    assert Acceptable(c, JobOf(base), script, k);
    ApplyTracks(c, base, script, s.work);
    var a := Apply(c, s.work, script[k]).0;
    assert r == AfterPeel(c, s.(work := a));
    AfterTracks(c, base, script, s.(work := a), r);
    NotOurs(c, base, script, Ending(c, base, script), s.work, a, r);
  }

  /** A reply to the next peeler's peel, seen from before that peel. */
  lemma NotOurs(c: DealConfig, base: DealState, script: seq<PeelMessage>, end: DealReply, w: Work, a: Work,
      r: DealReply)
    requires Follows(c, base, script) && w.nextPeel < |script| && Peelers(c, base)[w.nextPeel] != c.local
    requires GoodReply(c, base, script, end, a, r)
    requires a.nextPeel == w.nextPeel + 1 && a.pending == w.pending && Advances(w, a)
    ensures GoodHandled(c, base, script, end, w, w.nextPeel, r)
  {
    var own, k, had := Own(c, base), w.nextPeel, w.pending.Keys + {w.nextPeel};
    if Waits(c, base, script, a, r) && Reach(own, a.nextPeel, r.s.work.nextPeel, w.pending.Keys)
        && r.s.work.pending.Keys <= w.pending.Keys {
      PassesNot(c, base, script, k, r.s.work.nextPeel);
      ReachBack(own, k, r.s.work.nextPeel, had);
      TheirsWaits(c, base, script, w, a, r);
    } else {
      PassesNot(c, base, script, k, |script|);
      ReachBack(own, k, |script|, had);
      assert Ended(end, own, script, k, r);
    }
  }

  lemma TheirsWaits(c: DealConfig, base: DealState, script: seq<PeelMessage>, w: Work, a: Work, r: DealReply)
    requires Follows(c, base, script) && w.nextPeel < |script|
    requires Passes(Own(c, base), w.nextPeel, r.s.work.nextPeel)
        <==> Passes(Own(c, base), w.nextPeel + 1, r.s.work.nextPeel)
    requires a.nextPeel == w.nextPeel + 1 && Advances(w, a) && Waits(c, base, script, a, r)
    ensures Waits(c, base, script, w, r) && KnowsPeel(r.s.work, w.nextPeel)
  {
    AdvancesTrans(w, a, r.s.work);
  }

  lemma HandleEarlier(c: DealConfig, base: DealState, script: seq<PeelMessage>, s: DealState, k: nat)
    requires s == base.(work := s.work) && Tracks(c, base, script, s.work) && Waiting(c, s.work) && k < s.work.nextPeel
    ensures HandlePeel(c, s, script[k]) == DealReply(s, Ok(None))
  {
    PlaceOf(c, base, script, k);
    assert Acceptable(c, JobOf(base), script, k);
    assert s.work.applied[k] == script[k];
  }

  lemma HandleLater(c: DealConfig, base: DealState, script: seq<PeelMessage>, s: DealState, k: nat)
    requires s == base.(work := s.work) && Tracks(c, base, script, s.work) && Waiting(c, s.work)
    requires s.work.nextPeel < k < |script|
    requires Own(c, base) != Some(k)
    ensures var w := s.work;
            HandlePeel(c, s, script[k]) ==
              DealReply(if k in w.pending then s else s.(work := w.(pending := w.pending[k := script[k]])), Ok(None))
  {
    PlaceOf(c, base, script, k);
    assert Acceptable(c, JobOf(base), script, k);
    assert script[k].pd.player != "";
  }

  lemma StaysWaiting(c: DealConfig, base: DealState, script: seq<PeelMessage>, w: Work, r: DealReply)
    requires Tracks(c, base, script, w) && Waiting(c, w) && r == DealReply(base.(work := w), Ok(None))
    ensures Waits(c, base, script, w, r)
  {
  }

  lemma WaitsOnBuffer(c: DealConfig, base: DealState, script: seq<PeelMessage>, w: Work, k: nat, r: DealReply)
    requires Tracks(c, base, script, w) && Waiting(c, w) && w.nextPeel < k < |script| && Own(c, base) != Some(k)
    requires r == DealReply(base.(work := w.(pending := w.pending[k := script[k]])), Ok(None))
    ensures Waits(c, base, script, w, r) && KnowsPeel(r.s.work, k)
  {
    PlaceOf(c, base, script, k);
    BufferPeel(c.local, c.cards[JobOf(base).cardIndex], script, w, k);
  }

  /** Any peel of the script but our own before its turn is accepted and remembered. */
  lemma HandleTracks(c: DealConfig, base: DealState, script: seq<PeelMessage>, s: DealState, k: nat, r: DealReply)
    requires s == base.(work := s.work) && Tracks(c, base, script, s.work) && Waiting(c, s.work) && k < |script|
    requires Own(c, base) == Some(k) ==> k < s.work.nextPeel
    requires r == HandlePeel(c, s, script[k])
    ensures GoodHandled(c, base, script, Ending(c, base, script), s.work, k, r)
  {
    var w := s.work;
    if k == w.nextPeel {
      HandleNext(c, base, script, s, r);
    } else if k < w.nextPeel {
      HandleEarlier(c, base, script, s, k);
      StaysWaiting(c, base, script, w, r);
    } else {
      HandleLater(c, base, script, s, k);
      if k in w.pending {
        StaysWaiting(c, base, script, w, r);
      } else {
        WaitsOnBuffer(c, base, script, w, k, r);
      }
    }
  }

  // ------------------------------------------------------------ once the job has ended

  /** r has gone on from s: it is idle, still in the job of s, or in a later job of the sequence. */
  predicate MovesOn(s: DealState, r: DealState) {
    || r.run.kind == Idle
    || (&& r.run.jobs == s.run.jobs && r.run.jobIdx >= s.run.jobIdx
        && (r.run.jobIdx == s.run.jobIdx ==> r.work.job == s.work.job)
        && (r.run.jobIdx > s.run.jobIdx ==> r.run.jobIdx < |r.run.jobs| && r.work.job == r.run.jobs[r.run.jobIdx]))
  }

  predicate AllInstall(c: DealConfig, jobs: seq<Job>) {
    forall k :: 0 <= k < |jobs| ==> InstallJob(c, jobs[k]).Ok?
  }

  lemma {:induction false} ExecuteOn(c: DealConfig, s: DealState)
    requires c.p > 2 && c.key.p == c.p && AllInstall(c, s.run.jobs)
    ensures MovesOn(s, ExecutePeel(c, s).s)
    decreases JobsLeft(s.run), PeelsLeft(s.work), 0
  {
    if !JobComplete(s.work) && NextPeeler(s.work) == c.local {
      var pd := PeelAs(c, s, c.local, c.key);
      if pd.Ok? {
        var a := Apply(c, s.work, PeelMessage(c.hand, pd.value));
        if a.1.None? {
          AfterOn(c, s.(work := a.0));
        }
      }
    }
  }

  lemma {:induction false} AfterOn(c: DealConfig, s: DealState)
    requires c.p > 2 && c.key.p == c.p && AllInstall(c, s.run.jobs)
    ensures MovesOn(s, AfterPeel(c, s).s)
    decreases JobsLeft(s.run), PeelsLeft(s.work), 2
  {
    var d := DrainPeels(c, s.work);
    var s' := s.(work := d.0);
    if d.1.None? {
      if JobComplete(d.0) {
        if FinishJob(c, s').1.None? {
          AdvanceOn(c, s'.(got := FinishJob(c, s').0));
        }
      } else if NextPeeler(d.0) == c.local {
        ExecuteOn(c, s');
      }
    }
  }

  lemma {:induction false} AdvanceOn(c: DealConfig, s: DealState)
    requires c.p > 2 && c.key.p == c.p && AllInstall(c, s.run.jobs)
    ensures var r := AdvanceSequence(c, s).s; MovesOn(s, r) && (r.run.kind == Idle || r.run.jobIdx > s.run.jobIdx)
    decreases JobsLeft(s.run), PeelsLeft(s.work), 1
  {
    var next := s.(run := s.run.(jobIdx := s.run.jobIdx + 1));
    if next.run.jobIdx < |next.run.jobs| {
      var w := InstallJob(c, next.run.jobs[next.run.jobIdx]).value;
      if w.peelers[0] == c.local {
        ExecuteOn(c, next.(work := w));
      }
    }
  }

  /** No two jobs of a sequence peel the same position. */
  predicate PositionsApart(jobs: seq<Job>) {
    forall i, j :: 0 <= i < j < |jobs| ==> jobs[i].cardIndex != jobs[j].cardIndex
  }

  /** The state in which the job has left the replica, up to what it still has to send. */
  predicate Gone(c: DealConfig, base: DealState, script: seq<PeelMessage>, s: DealState)
    requires c.p > 2 && c.key.p == c.p && base.run.jobIdx < |base.run.jobs| && InstallJob(c, JobOf(base)).Ok?
  {
    s == Ending(c, base, script).s.(outbound := s.outbound)
  }

  /** Late copies of the job's peels change nothing. */
  lemma LateCopies(c: DealConfig, base: DealState, script: seq<PeelMessage>, s: DealState, k: nat)
    requires Follows(c, base, script) && AllInstall(c, base.run.jobs) && PositionsApart(base.run.jobs) && k < |script|
    requires Gone(c, base, script, s)
    ensures HandlePeel(c, s, script[k]).s == s
  {
    var full := base.(work := Complete(c, base, script));
    var f := FinishJob(c, full);
    PlaceOf(c, base, script, k);
    assert Acceptable(c, JobOf(base), script, k);
    if f.1.None? {
      AdvanceOn(c, full.(got := f.0));
    }
  }

  // ----------------------------------------------------------------------- confluence

  /** The state after being handed these peels of the script, in this order. */
  function Handed(c: DealConfig, s: DealState, script: seq<PeelMessage>, ks: seq<nat>): DealState
    requires ValidDeal(c) && forall i :: 0 <= i < |ks| ==> ks[i] < |script|
  {
    if ks == [] then s
    else HandlePeel(c, Handed(c, s, script, ks[..|ks| - 1]), script[ks[|ks| - 1]]).s
  }

  /** The job is over, or the replica waits in it and remembers every peel it was handed. */
  ghost predicate AfterPeels(c: DealConfig, base: DealState, script: seq<PeelMessage>, ks: seq<nat>, s: DealState)
    requires Follows(c, base, script)
  {
    || Gone(c, base, script, s)
    || (&& s == base.(work := s.work) && Tracks(c, base, script, s.work) && Waiting(c, s.work)
        && forall k :: k in ks && Own(c, base) != Some(k) ==> KnowsPeel(s.work, k))
  }

  /** Our own peel coming back before we made it is refused. */
  lemma OwnRefused(c: DealConfig, base: DealState, script: seq<PeelMessage>, s: DealState, k: nat)
    requires s == base.(work := s.work) && Tracks(c, base, script, s.work) && Waiting(c, s.work) && k < |script|
    requires Own(c, base) == Some(k) && k >= s.work.nextPeel
    ensures HandlePeel(c, s, script[k]).s == s
  {
    PlaceOf(c, base, script, k);
    assert Acceptable(c, JobOf(base), script, k);
    PlaceOf(c, base, script, s.work.nextPeel);
  }

  lemma EndedIsGone(c: DealConfig, base: DealState, script: seq<PeelMessage>, from: nat, r: DealReply)
    requires Follows(c, base, script) && Ended(Ending(c, base, script), Own(c, base), script, from, r)
    ensures Gone(c, base, script, r.s)
  {
  }

  lemma {:induction false} HandedTracks(c: DealConfig, base: DealState, script: seq<PeelMessage>, ks: seq<nat>,
      s: DealState)
    requires Follows(c, base, script) && AllInstall(c, base.run.jobs) && PositionsApart(base.run.jobs)
    requires s == StartJob(c, Begun(c, base)).s && forall i :: 0 <= i < |ks| ==> ks[i] < |script|
    ensures AfterPeels(c, base, script, ks, Handed(c, s, script, ks))
  {
    if ks == [] {
      StartTracks(c, base, script, StartJob(c, Begun(c, base)));
      if Ended(Ending(c, base, script), Own(c, base), script, 0, StartJob(c, Begun(c, base))) {
        EndedIsGone(c, base, script, 0, StartJob(c, Begun(c, base)));
      }
    } else {
      var before, k := ks[..|ks| - 1], ks[|ks| - 1];
      HandedTracks(c, base, script, before, s);
      OneMore(c, base, script, before, k, Handed(c, s, script, before),
          HandlePeel(c, Handed(c, s, script, before), script[k]));
      assert forall x :: x in ks ==> x in before || x == k;
      assert AfterPeels(c, base, script, before + [k], Handed(c, s, script, ks));
    }
  }

  lemma OneMore(c: DealConfig, base: DealState, script: seq<PeelMessage>, ks: seq<nat>, k: nat, s: DealState,
      r: DealReply)
    requires Follows(c, base, script) && AllInstall(c, base.run.jobs) && PositionsApart(base.run.jobs)
    requires k < |script| && AfterPeels(c, base, script, ks, s) && r == HandlePeel(c, s, script[k])
    ensures AfterPeels(c, base, script, ks + [k], r.s)
  {
    if Gone(c, base, script, s) {
      LateCopies(c, base, script, s, k);
    } else if Own(c, base) == Some(k) && k >= s.work.nextPeel {
      OwnRefused(c, base, script, s, k);
    } else {
      HandleTracks(c, base, script, s, k, r);
      HandledAfter(c, base, script, ks, k, s, r);
    }
  }

  lemma HandledAfter(c: DealConfig, base: DealState, script: seq<PeelMessage>, ks: seq<nat>, k: nat, s: DealState,
      r: DealReply)
    requires Follows(c, base, script) && GoodHandled(c, base, script, Ending(c, base, script), s.work, k, r)
    requires forall x :: x in ks && Own(c, base) != Some(x) ==> KnowsPeel(s.work, x)
    ensures AfterPeels(c, base, script, ks + [k], r.s)
  {
    if Ended(Ending(c, base, script), Own(c, base), script, s.work.nextPeel, r) {
      EndedIsGone(c, base, script, s.work.nextPeel, r);
    } else {
      WaitsAfter(c, base, script, ks, k, s.work, r);
    }
  }

  lemma WaitsAfter(c: DealConfig, base: DealState, script: seq<PeelMessage>, ks: seq<nat>, k: nat, w: Work,
      r: DealReply)
    requires Follows(c, base, script) && Waits(c, base, script, w, r) && KnowsPeel(r.s.work, k)
    requires forall x :: x in ks && Own(c, base) != Some(x) ==> KnowsPeel(w, x)
    ensures AfterPeels(c, base, script, ks + [k], r.s)
  {
    forall x | x in ks + [k] && Own(c, base) != Some(x) ensures KnowsPeel(r.s.work, x) {
      assert x == k || KnowsPeel(w, x);
    }
  }

  /**
   * Confluence: a replica that has begun a job and been handed the job's peels from everyone
   * else, in any order, with any repetitions, with its own thrown in, has ended the job; and
   * its state, but for the order of what it still has to send, does not depend on the delivery.
   */
  lemma JobConfluence(c: DealConfig, base: DealState, script: seq<PeelMessage>, ks: seq<nat>)
    requires Follows(c, base, script) && AllInstall(c, base.run.jobs) && PositionsApart(base.run.jobs)
    requires forall i :: 0 <= i < |ks| ==> ks[i] < |script|
    requires forall k: nat :: k < |script| && Own(c, base) != Some(k) ==> k in ks
    ensures Gone(c, base, script, Handed(c, StartJob(c, Begun(c, base)).s, script, ks))
  {
    var s := Handed(c, StartJob(c, Begun(c, base)).s, script, ks);
    HandedTracks(c, base, script, ks, StartJob(c, Begun(c, base)).s);
    if !Gone(c, base, script, s) {
      PlaceOf(c, base, script, s.work.nextPeel);
      assert false;
    }
  }
}
