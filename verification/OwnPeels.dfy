// When a deal session fails to publish its own peel (internal/crypto/deal_session.go:612-651).
module OwnPeels {
  import opened DealSafety
  import opened DealSession
  import ShuffleSafety
  import opened Sra
  import opened Wrappers
  import opened Zkp

  // ------------------------------------------------------------------- peels that are held

  /** The peel is of this ciphertext and proved. */
  predicate ProvedOn(c: DealConfig, ciphertext: int, m: PeelMessage)
    requires c.p > 2
  {
    && m.pd.ciphertext == ciphertext
    && VerifyDecryption(c.hash, m.pd.proof, m.pd.ciphertext, m.pd.result, c.p, c.session)
  }

  /** What is left to peel when the n-th peel is the awaited one and those held before it have been applied. */
  function LeftAt(w: Work, n: nat): int {
    if n > w.nextPeel && n - 1 in w.pending then w.pending[n - 1].pd.result else w.current
  }

  /** The n-th peel, if all from the awaited one up to it are held, is proved on the last result. */
  ghost predicate HeldGood(c: DealConfig, w: Work, n: nat)
    requires c.p > 2
  {
    ShuffleSafety.HeldFrom(w.pending, w.nextPeel, n) ==> ProvedOn(c, LeftAt(w, n), w.pending[n])
  }

  /** The peels held from the awaited one on, up to the first that is missing, are each proved on the last result. */
  ghost predicate HeldProved(c: DealConfig, w: Work)
    requires c.p > 2
  {
    forall n: nat :: HeldGood(c, w, n)
  }

  lemma HeldProvedSteps(c: DealConfig, w: Work, m: PeelMessage, v: Work)
    requires c.p > 2 && w.nextPeel in w.pending && m == w.pending[w.nextPeel]
    requires v.pending == w.pending - {w.nextPeel} && v.nextPeel == w.nextPeel + 1 && v.current == m.pd.result
    ensures HeldProved(c, w) <==> ProvedOn(c, w.current, m) && HeldProved(c, v)
  {
    var k := w.nextPeel;
    assert HeldGood(c, w, k) <==> ProvedOn(c, w.current, m);
    forall n: nat | n > k ensures HeldGood(c, v, n) <==> HeldGood(c, w, n) {
      ShuffleSafety.HeldFromRest(w.pending, k, n, v.pending);
      if n > k + 1 && ShuffleSafety.HeldFrom(w.pending, k, n) {
        assert n - 1 in w.pending && n - 1 in v.pending;
      }
    }
    assert forall n: nat :: n <= k ==> HeldGood(c, v, n);
    assert forall n: nat :: n < k ==> HeldGood(c, w, n);
  }

  /** No seat that is still to peel is the local one. */
  predicate OwnPast(c: DealConfig, w: Work) {
    forall k :: w.nextPeel <= k < |w.peelers| ==> w.peelers[k] != c.local
  }

  /** Past the own turn, draining fails exactly if a held peel that follows on is not proved. */
  lemma {:induction false} DrainFailsExactly(c: DealConfig, w: Work)
    requires ValidDeal(c) && WorkOk(c, ANYTHING, w) && OwnPast(c, w)
    ensures DrainPeels(c, w).1.None? <==> HeldProved(c, w)
    decreases |w.peelers| - w.nextPeel
  {
    if w.nextPeel in w.pending {
      var m, rest := w.pending[w.nextPeel], w.(pending := w.pending - {w.nextPeel});
      assert w.nextPeel < |w.peelers| && m.pd.player == w.peelers[w.nextPeel];
      var a := Apply(c, rest, m);
      DrainPeelsStep(c, w, a.0, a.1);
      PeelersDistinct(c, ANYTHING, w);
      SeatFound(w.peelers, w.nextPeel);
      var next := w.(pending := rest.pending, nextPeel := w.nextPeel + 1, current := m.pd.result);
      HeldProvedSteps(c, w, m, next);
      if a.1.None? {
        DropPending(c, ANYTHING, w, w.nextPeel);
        ApplyExtends(c, ANYTHING, rest, m);
        DrainFailsExactly(c, a.0);
        assert a.0 == next.(applied := a.0.applied);
        HeldSame(c, a.0, next);
      }
    } else {
      assert forall n: nat :: HeldGood(c, w, n);
    }
  }

  lemma HeldSame(c: DealConfig, v: Work, w: Work)
    requires c.p > 2 && v.pending == w.pending && v.nextPeel == w.nextPeel && v.current == w.current
    ensures HeldProved(c, v) <==> HeldProved(c, w)
  {
    assert forall n: nat :: HeldGood(c, v, n) <==> HeldGood(c, w, n);
  }

  // --------------------------------------------------------------------- what follows a peel

  /** The local key is a key pair and all ciphertexts of the deck are in range. */
  ghost predicate Able(c: DealConfig) {
    KeyPair(c.key) && AllInRange(c.cards, c.p)
  }

  /** A job is under way. */
  ghost predicate UnderWay(c: DealConfig, s: DealState)
    requires ValidDeal(c)
  {
    DealInv(c, ANYTHING, s) && s.run.kind != Idle
  }

  /** The own peel in turn can be made and applied. */
  lemma OwnPeelApplies(c: DealConfig, s: DealState)
    requires ValidDeal(c) && Roomy(c) && Able(c) && UnderWay(c, s) && InRange(s.work.current, c.p)
    requires !JobComplete(s.work) && NextPeeler(s.work) == c.local
    ensures PeelAs(c, s, c.local, c.key).Ok?
    ensures var a := Apply(c, s.work, PeelMessage(c.hand, PeelAs(c, s, c.local, c.key).value));
            a.1.None? && UnderWay(c, s.(work := a.0)) && OwnPast(c, a.0) && a.0.job.recipient != c.local
  {
    LocalIsNamed(c);
    HonestPeelApplies(c.hash, c.key, s.work.current, s.work.job.cardIndex, c.local, c.session,
                      c.nonces(c.local, s.run.kind, s.work.job.cardIndex));
    PeelersDistinct(c, ANYTHING, s.work);
    SeatFound(s.work.peelers, s.work.nextPeel);
    ApplyExtends(c, ANYTHING, s.work, PeelMessage(c.hand, PeelAs(c, s, c.local, c.key).value));
    WithoutKeeps(c.order, s.work.job.recipient);
  }

  /** A job that has just been installed starts without an error. */
  lemma {:induction false} StartWorks(c: DealConfig, s: DealState)
    requires ValidDeal(c) && Roomy(c) && Able(c) && UnderWay(c, s) && s.work.peelers != []
    requires s.work.nextPeel == 0 && s.work.pending == map[]
    ensures StartJob(c, s).out.Ok?
    decreases JobsLeft(s.run), PeelsLeft(s.work), 1
  {
    if s.work.peelers[0] == c.local {
      OwnPeelApplies(c, s);
      var a := Apply(c, s.work, PeelMessage(c.hand, PeelAs(c, s, c.local, c.key).value)).0;
      assert HeldProved(c, a);
      AfterWorks(c, s.(work := a));
    }
  }

  /** What follows a peel fails exactly if a held peel that follows on is not proved. */
  lemma {:induction false} AfterWorks(c: DealConfig, s: DealState)
    requires ValidDeal(c) && Roomy(c) && Able(c) && UnderWay(c, s)
    requires OwnPast(c, s.work) && s.work.job.recipient != c.local
    ensures AfterPeel(c, s).out.Ok? <==> HeldProved(c, s.work)
    decreases JobsLeft(s.run), PeelsLeft(s.work), 3
  {
    var d := DrainPeels(c, s.work);
    var s' := s.(work := d.0);
    DrainFailsExactly(c, s.work);
    DrainExtends(c, ANYTHING, s.work);
    if d.1.None? && JobComplete(d.0) {
      AnythingGoes(c, []);
      FinishKeeps(c, ANYTHING, s');
      AdvanceWorks(c, s'.(got := FinishJob(c, s').0));
    }
  }

  lemma {:induction false} AdvanceWorks(c: DealConfig, s: DealState)
    requires ValidDeal(c) && Roomy(c) && Able(c) && s.run.kind != Idle && RunFits(c, s.run, s.flags)
    requires GotOk(c, ANYTHING, s.got, s.run, s.flags, s.run.jobIdx + 1) && s.run.jobIdx < |s.run.jobs|
    ensures AdvanceSequence(c, s).out.Ok?
    decreases JobsLeft(s.run), PeelsLeft(s.work), 2
  {
    var next := s.(run := s.run.(jobIdx := s.run.jobIdx + 1));
    if next.run.jobIdx < |next.run.jobs| {
      AnythingGoes(c, []);
      var w := NextInstalled(c, ANYTHING, next);
      AdvanceIs(c, s, next, w);
      StartWorks(c, next.(work := w));
    }
  }

  /** Draining keeps what has been applied. */
  lemma {:induction false} DrainKeepsApplied(c: DealConfig, w: Work, k: nat)
    requires ValidDeal(c) && WorkOk(c, ANYTHING, w) && k < w.nextPeel
    ensures var d := DrainPeels(c, w).0; k in d.applied && d.applied[k] == w.applied[k]
    decreases |w.peelers| - w.nextPeel
  {
    if !JobComplete(w) && NextPeeler(w) != c.local && w.nextPeel in w.pending {
      var m, rest := w.pending[w.nextPeel], w.(pending := w.pending - {w.nextPeel});
      var a := Apply(c, rest, m);
      DrainPeelsStep(c, w, a.0, a.1);
      PeelersDistinct(c, ANYTHING, w);
      SeatFound(w.peelers, w.nextPeel);
      DropPending(c, ANYTHING, w, w.nextPeel);
      ApplyExtends(c, ANYTHING, rest, m);
      if a.1.None? {
        DrainKeepsApplied(c, a.0, k);
      }
    }
  }

  lemma OwnIsApplied(c: DealConfig, s: DealState, own: PeelMessage, w: Work)
    requires ValidDeal(c) && UnderWay(c, s) && !JobComplete(s.work) && own.pd.player == NextPeeler(s.work)
    requires Apply(c, s.work, own) == (w, None) && WorkOk(c, ANYTHING, w)
    ensures var d := DrainPeels(c, w).0; s.work.nextPeel in d.applied && d.applied[s.work.nextPeel] == own
  {
    PeelersDistinct(c, ANYTHING, s.work);
    SeatFound(s.work.peelers, s.work.nextPeel);
    DrainKeepsApplied(c, w, s.work.nextPeel);
  }

  lemma ExecuteIs(c: DealConfig, s: DealState, own: PeelMessage, w: Work)
    requires ValidDeal(c) && !JobComplete(s.work) && NextPeeler(s.work) == c.local
    requires PeelAs(c, s, c.local, c.key).Ok? && own == PeelMessage(c.hand, PeelAs(c, s, c.local, c.key).value)
    requires Apply(c, s.work, own) == (w, None)
    ensures var r := AfterPeel(c, s.(work := w));
            if r.out.Ok? then ExecutePeel(c, s).out == Ok(Some(own)) else ExecutePeel(c, s) == r
    ensures DrainPeels(c, w).1.Some? ==> AfterPeel(c, s.(work := w)).s == s.(work := DrainPeels(c, w).0)
  {
  }

  /**
   * With the turn at the own seat and a ciphertext in range, the own peel is made and applied. It is
   * handed out for publishing exactly if the held peels that follow on are all proved; otherwise an
   * error is returned in its place, although the peel stays applied.
   */
  lemma OwnPeelPublishedExactly(c: DealConfig, s: DealState, own: PeelMessage, w: Work)
    requires ValidDeal(c) && Roomy(c) && Able(c) && UnderWay(c, s) && InRange(s.work.current, c.p)
    requires !JobComplete(s.work) && NextPeeler(s.work) == c.local
    requires PeelAs(c, s, c.local, c.key).Ok? ==> own == PeelMessage(c.hand, PeelAs(c, s, c.local, c.key).value)
    requires w == Apply(c, s.work, own).0
    ensures var r := ExecutePeel(c, s);
            if HeldProved(c, w) then r.out == Ok(Some(own))
            else r.out.Err? && s.work.nextPeel in r.s.work.applied && r.s.work.applied[s.work.nextPeel] == own
  {
    OwnPeelApplies(c, s);
    ExecuteIs(c, s, own, w);
    AfterWorks(c, s.(work := w));
    DrainFailsExactly(c, w);
    OwnIsApplied(c, s, own, w);
  }
}
