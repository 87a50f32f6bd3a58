// Honest tables follow a script: with key pairs for every seat and a deck that carries every
// seat's layer, each peel job has exactly one run of peels (internal/crypto/deal.go:27-82).
module HonestJob {
  import Deal
  import opened DealJob
  import opened DealSafety
  import opened DealSession
  import JointDeck
  import opened ModArith
  import opened Shuffle
  import ShuffleSession
  import opened Sra
  import opened Wrappers
  import opened Zkp

  /** What the seats of one hand share. */
  ghost predicate SameDeal(a: DealConfig, b: DealConfig) {
    && a.order == b.order && a.p == b.p && a.hash == b.hash && a.hand == b.hand && a.session == b.session
    && a.dealer == b.dealer && a.cards == b.cards
  }

  /** The ciphertext after the first i peelers have peeled. */
  function Cur(c: DealConfig, k: Keys, j: Job, peelers: seq<string>, i: nat): int
    requires c.p > 0 && 0 <= j.cardIndex < |c.cards| && i <= |peelers|
    requires forall x :: 0 <= x < |peelers| ==> IsPrivate(k(peelers[x]))
  {
    Peeled(c.cards[j.cardIndex], KeysOf(k, peelers[..i]), c.p)
  }

  lemma KeyOfSeat(c: DealConfig, k: Keys, plain: int -> int, id: string)
    requires ValidDeal(c) && HonestCards(c, k, plain) && id in c.order
    ensures KeyPair(k(id)) && k(id).p == c.p
  {
    var i :| 0 <= i < |c.order| && c.order[i] == id;
  }

  lemma DeckInRange(c: DealConfig, k: Keys, plain: int -> int, idx: int)
    requires ValidDeal(c) && HonestCards(c, k, plain) && 0 <= idx < |c.cards|
    ensures InRange(c.cards[idx], c.p)
  {
    RingOf(c, k, plain, c.order);
    var m := plain(idx);
    LayeredInRange(m, KeysOf(k, c.order), c.p);
  }

  /** Every ciphertext on the way is a valid message. */
  lemma {:induction false} CurInRange(c: DealConfig, k: Keys, plain: int -> int, j: Job, peelers: seq<string>, i: nat)
    requires ValidDeal(c) && HonestCards(c, k, plain) && 0 <= j.cardIndex < |c.cards| && i <= |peelers|
    requires forall x :: x in peelers ==> x in c.order
    ensures forall x :: 0 <= x < |peelers| ==> IsPrivate(k(peelers[x]))
    ensures InRange(Cur(c, k, j, peelers, i), c.p)
    ensures i < |peelers| ==>
              Cur(c, k, j, peelers, i + 1) == ModPow(Cur(c, k, j, peelers, i), k(peelers[i]).d.value, c.p)
  {
    forall x | 0 <= x < |peelers| ensures IsPrivate(k(peelers[x])) {
      KeyOfSeat(c, k, plain, peelers[x]);
    }
    RingOf(c, k, plain, peelers[..i]);
    if i == 0 {
      DeckInRange(c, k, plain, j.cardIndex);
      assert KeysOf(k, peelers[..0]) == [];
    } else {
      CurInRange(c, k, plain, j, peelers, i - 1);
      KeyOfSeat(c, k, plain, peelers[i - 1]);
      DecryptCloses(k(peelers[i - 1]), Cur(c, k, j, peelers, i - 1));
    }
    if i < |peelers| {
      assert KeysOf(k, peelers[..i + 1]) == KeysOf(k, peelers[..i]) + [k(peelers[i])];
      PeeledSnoc(c.cards[j.cardIndex], KeysOf(k, peelers[..i]), k(peelers[i]), c.p);
    }
  }

  // --------------------------------------------------------------------- honest peels

  /** Seat id's peel of this ciphertext with its own key and nonce. */
  function HonestPeel(c: DealConfig, k: Keys, kind: SeqKind, j: Job, id: string,
      current: int): Result<PartialDecryption>
    requires c.p > 2 && k(id).p == c.p
  {
    Peel(c.hash, k(id), current, j.cardIndex, id, c.session, c.nonces(id, kind, j.cardIndex))
  }

  lemma HonestPeelIs(c: DealConfig, k: Keys, plain: int -> int, kind: SeqKind, j: Job, id: string, current: int)
    requires ValidDeal(c) && HonestCards(c, k, plain) && id in c.order && InRange(current, c.p) && j.cardIndex >= 0
    ensures k(id).p == c.p && KeyPair(k(id))
    ensures var pd := HonestPeel(c, k, kind, j, id, current);
            && pd.Ok? && pd.value.player == id && pd.value.cardIndex == j.cardIndex
            && pd.value.result == ModPow(current, k(id).d.value, c.p)
            && VerifyAndApply(c.hash, current, pd.value, c.p, c.session) == Ok(pd.value.result)
  {
    KeyOfSeat(c, k, plain, id);
    HonestPeelApplies(c.hash, k(id), current, j.cardIndex, id, c.session, c.nonces(id, kind, j.cardIndex));
  }

  // One configuration per peeler of the job that run is at.
  ghost predicate HonestTable(cs: seq<DealConfig>, bases: seq<DealState>, k: Keys, plain: int -> int, run: Run) {
    && cs != [] && |bases| == |cs|
    && run.kind != Idle && run.jobIdx < |run.jobs|
    && (forall i :: 0 <= i < |cs| ==> HonestSeat(cs[0], cs[i], bases[i], k, plain, run))
    && InstallJob(cs[0], run.jobs[run.jobIdx]).Ok?
    && var peelers := InstallJob(cs[0], run.jobs[run.jobIdx]).value.peelers;
    && |peelers| == |cs| && forall i :: 0 <= i < |cs| ==> cs[i].local == peelers[i]
  }

  ghost predicate HonestSeat(first: DealConfig, c: DealConfig, base: DealState, k: Keys, plain: int -> int, run: Run) {
    && ValidDeal(c) && SameDeal(first, c) && HonestCards(c, k, plain) && Roomy(c)
    && base.run == run && RunFits(c, run, base.flags)
  }

  /** The script of an honest table's job. */
  ghost function HonestScript(cs: seq<DealConfig>, bases: seq<DealState>, k: Keys, plain: int -> int,
      run: Run): (script: seq<PeelMessage>)
    requires HonestTable(cs, bases, k, plain, run)
    ensures |script| == |cs|
  {
    seq(|cs|, i requires 0 <= i < |cs| => HonestMessage(cs, bases, k, plain, run, i))
  }

  ghost function HonestMessage(cs: seq<DealConfig>, bases: seq<DealState>, k: Keys, plain: int -> int, run: Run,
      i: nat): PeelMessage
    requires HonestTable(cs, bases, k, plain, run) && i < |cs|
  {
    var c, j := cs[i], run.jobs[run.jobIdx];
    TableJob(cs, bases, k, plain, run, i);
    var peelers := InstallJob(c, j).value.peelers;
    CurInRange(c, k, plain, j, peelers, i);
    HonestPeelIs(c, k, plain, run.kind, j, c.local, Cur(c, k, j, peelers, i));
    PeelMessage(c.hand, HonestPeel(c, k, run.kind, j, c.local, Cur(c, k, j, peelers, i)).value)
  }

  /** The job as seat i installs it. */
  lemma TableJob(cs: seq<DealConfig>, bases: seq<DealState>, k: Keys, plain: int -> int, run: Run, i: nat)
    requires HonestTable(cs, bases, k, plain, run) && i < |cs|
    ensures var c, j := cs[i], run.jobs[run.jobIdx];
            && HonestSeat(cs[0], c, bases[i], k, plain, run) && JobFits(c, j)
            && InstallJob(c, j) == InstallJob(cs[0], j)
            && var peelers := InstallJob(c, j).value.peelers;
            && |peelers| == |cs| && peelers[i] == c.local && Distinct(peelers)
            && (forall x :: x in peelers ==> x in c.order && x != "" && x != j.recipient)
            && forall x :: 0 <= x < |cs| ==> cs[x].local == peelers[x]
  {
    var c, j := cs[i], run.jobs[run.jobIdx];
    assert HonestSeat(cs[0], c, bases[i], k, plain, run);
    JobsFit(c, run, bases[i].flags);
    WithoutKeeps(c.order, j.recipient);
    forall x | x in c.order ensures x != "" {
      var y :| 0 <= y < |c.order| && c.order[y] == x;
    }
  }

  /** Message x of the script, as any seat i sees it. */
  lemma ScriptAt(cs: seq<DealConfig>, bases: seq<DealState>, k: Keys, plain: int -> int, run: Run, i: nat, x: nat)
    requires HonestTable(cs, bases, k, plain, run) && i < |cs| && x < |cs|
    ensures var c, j, m := cs[i], run.jobs[run.jobIdx], HonestScript(cs, bases, k, plain, run)[x];
            && ValidDeal(c) && 0 <= j.cardIndex < |c.cards| && InstallJob(c, j).Ok?
            && var peelers := InstallJob(c, j).value.peelers;
            && |peelers| == |cs| && (forall y :: 0 <= y < |peelers| ==> IsPrivate(k(peelers[y])))
            && m.hand == c.hand && m.pd.player == peelers[x] && m.pd.cardIndex == j.cardIndex
            && m.pd.result == Cur(c, k, j, peelers, x + 1)
            && VerifyAndApply(c.hash, Cur(c, k, j, peelers, x), m.pd, c.p, c.session) == Ok(m.pd.result)
  {
    var j := run.jobs[run.jobIdx];
    TableJob(cs, bases, k, plain, run, x);
    TableJob(cs, bases, k, plain, run, i);
    var peelers := InstallJob(cs[x], j).value.peelers;
    CurInRange(cs[x], k, plain, j, peelers, x);
    HonestPeelIs(cs[x], k, plain, run.kind, j, cs[x].local, Cur(cs[x], k, j, peelers, x));
    SameCur(cs[x], cs[i], k, j, peelers, x);
    SameCur(cs[x], cs[i], k, j, peelers, x + 1);
  }

  lemma SameCur(a: DealConfig, b: DealConfig, k: Keys, j: Job, peelers: seq<string>, i: nat)
    requires a.cards == b.cards && a.p == b.p && a.p > 0 && 0 <= j.cardIndex < |a.cards| && i <= |peelers|
    requires forall x :: 0 <= x < |peelers| ==> IsPrivate(k(peelers[x]))
    ensures Cur(a, k, j, peelers, i) == Cur(b, k, j, peelers, i)
  {
  }

  lemma BeforeIsCur(cs: seq<DealConfig>, bases: seq<DealState>, k: Keys, plain: int -> int, run: Run, i: nat, x: nat)
    requires HonestTable(cs, bases, k, plain, run) && i < |cs| && x < |cs|
    ensures var c, j, script := cs[i], run.jobs[run.jobIdx], HonestScript(cs, bases, k, plain, run);
            && ValidDeal(c) && 0 <= j.cardIndex < |c.cards| && InstallJob(c, j).Ok?
            && var peelers := InstallJob(c, j).value.peelers;
            && |peelers| == |cs| && (forall y :: 0 <= y < |peelers| ==> IsPrivate(k(peelers[y])))
            && Before(c, j, script, x) == Cur(c, k, j, peelers, x)
  {
    ScriptAt(cs, bases, k, plain, run, i, x);
    if x > 0 {
      ScriptAt(cs, bases, k, plain, run, i, x - 1);
    } else {
      var peelers := InstallJob(cs[i], run.jobs[run.jobIdx]).value.peelers;
      assert KeysOf(k, peelers[..0]) == [];
    }
  }

  lemma HonestFollows(cs: seq<DealConfig>, bases: seq<DealState>, k: Keys, plain: int -> int, run: Run, i: nat)
    requires HonestTable(cs, bases, k, plain, run) && i < |cs|
    ensures Follows(cs[i], bases[i], HonestScript(cs, bases, k, plain, run)) && Own(cs[i], bases[i]) == Some(i)
  {
    var c, j, script := cs[i], run.jobs[run.jobIdx], HonestScript(cs, bases, k, plain, run);
    TableJob(cs, bases, k, plain, run, i);
    var peelers := InstallJob(c, j).value.peelers;
    SeatFound(peelers, i);
    forall x | 0 <= x < |script| ensures script[x].pd.player == peelers[x] && Acceptable(c, j, script, x) {
      ScriptAt(cs, bases, k, plain, run, i, x);
      BeforeIsCur(cs, bases, k, plain, run, i, x);
    }
    forall x | 0 <= x < |script| && peelers[x] == c.local
      ensures OwnPeel(c, bases[i], Before(c, j, script, x)) == Ok(script[x].pd) && script[x].hand == c.hand
    {
      assert x == i;
      BeforeIsCur(cs, bases, k, plain, run, i, x);
      OwnIsScripted(cs, bases, k, plain, run, i);
    }
  }

  lemma OwnIsScripted(cs: seq<DealConfig>, bases: seq<DealState>, k: Keys, plain: int -> int, run: Run, i: nat)
    requires HonestTable(cs, bases, k, plain, run) && i < |cs|
    ensures var c, j := cs[i], run.jobs[run.jobIdx];
            && ValidDeal(c) && 0 <= j.cardIndex < |c.cards| && InstallJob(c, j).Ok? && bases[i].run == run
            && var peelers := InstallJob(c, j).value.peelers;
            && |peelers| == |cs| && (forall y :: 0 <= y < |peelers| ==> IsPrivate(k(peelers[y])))
            && OwnPeel(c, bases[i], Cur(c, k, j, peelers, i)) == Ok(HonestScript(cs, bases, k, plain, run)[i].pd)
  {
    var c, j := cs[i], run.jobs[run.jobIdx];
    TableJob(cs, bases, k, plain, run, i);
    var peelers := InstallJob(c, j).value.peelers;
    CurInRange(c, k, plain, j, peelers, i);
    HonestPeelIs(c, k, plain, run.kind, j, c.local, Cur(c, k, j, peelers, i));
  }

  // ---------------------------------------------------------- the rest of the sequence

  lemma SequenceApart(c: DealConfig, run: Run, f: Flags)
    requires ValidDeal(c) && Roomy(c) && RunFits(c, run, f) && run.kind != Idle
    ensures AllInstall(c, run.jobs) && PositionsApart(run.jobs)
  {
    JobsFit(c, run, f);
    forall x | 0 <= x < |run.jobs| ensures InstallJob(c, run.jobs[x]).Ok? {
      InstallStarts(c, ANYTHING, run.jobs[x]);
    }
    if run.kind == Holes {
      forall x, y | 0 <= x < y < |run.jobs| ensures run.jobs[x].cardIndex != run.jobs[y].cardIndex {
        JointDeck.HoleSeatIs(c.dealer, x, |c.order|);
        JointDeck.HoleSeatIs(c.dealer, y, |c.order|);
      }
    } else if run.kind == RevealPeels {
      JointDeck.RoundsApart(|c.order|, c.dealer, ShuffleSession.SeatOf(c.order, run.revealID).value);
    }
  }

  /** A job that has just been installed starts without error, and so do the jobs that our own peel completes. */
  lemma {:induction false} FreshStarts(c: DealConfig, k: Keys, plain: int -> int, s: DealState)
    requires ValidDeal(c) && HonestCards(c, k, plain) && s.run.jobIdx < |s.run.jobs|
    requires forall x :: 0 <= x < |s.run.jobs| ==> JobFits(c, s.run.jobs[x])
    requires Ok(s.work) == InstallJob(c, s.run.jobs[s.run.jobIdx])
    ensures StartJob(c, s).out.Ok?
    decreases JobsLeft(s.run), 0
  {
    if s.work.peelers[0] == c.local {
      var a := OwnFirst(c, k, plain, s);
      var s' := s.(work := a);
      if JobComplete(a) {
        AdvanceStarts(c, k, plain, s'.(got := FinishJob(c, s').0));
      }
      AfterOwn(c, s');
    }
  }

  lemma AfterOwn(c: DealConfig, s: DealState)
    requires ValidDeal(c) && DrainPeels(c, s.work) == (s.work, None)
    requires (!JobComplete(s.work) ==> NextPeeler(s.work) != c.local)
    requires FinishJob(c, s).1.None?
    ensures AfterPeel(c, s) == if JobComplete(s.work) then AdvanceSequence(c, s.(got := FinishJob(c, s).0))
        else DealReply(s, Ok(None))
  {
  }

  /** Going on from a finished job never fails. */
  lemma {:induction false} AdvanceStarts(c: DealConfig, k: Keys, plain: int -> int, s: DealState)
    requires ValidDeal(c) && HonestCards(c, k, plain) && s.run.jobIdx < |s.run.jobs|
    requires forall x :: 0 <= x < |s.run.jobs| ==> JobFits(c, s.run.jobs[x])
    ensures AdvanceSequence(c, s).out.Ok?
    decreases JobsLeft(s.run) - 1, 1
  {
    if s.run.jobIdx + 1 < |s.run.jobs| {
      var next := s.run.jobs[s.run.jobIdx + 1];
      InstallStarts(c, ANYTHING, next);
      var s' := s.(run := s.run.(jobIdx := s.run.jobIdx + 1), work := InstallJob(c, next).value);
      FreshStarts(c, k, plain, s');
      assert AdvanceSequence(c, s) == StartJob(c, s');
    }
  }

  lemma OwnFirst(c: DealConfig, k: Keys, plain: int -> int, s: DealState) returns (a: Work)
    requires ValidDeal(c) && HonestCards(c, k, plain) && s.run.jobIdx < |s.run.jobs|
    requires JobFits(c, s.run.jobs[s.run.jobIdx])
    requires Ok(s.work) == InstallJob(c, s.run.jobs[s.run.jobIdx]) && s.work.peelers != []
    requires s.work.peelers[0] == c.local
    ensures a.pending == map[] && a.nextPeel == 1 && a.peelers == s.work.peelers && a.job == s.work.job
    ensures DrainPeels(c, a) == (a, None) && (!JobComplete(a) ==> NextPeeler(a) != c.local)
    ensures FinishJob(c, s.(work := a)).1.None?
    ensures exists m :: ExecutePeel(c, s) == Behind(m, AfterPeel(c, s.(work := a)))
  {
    var j := s.work.job;
    WithoutKeeps(c.order, j.recipient);
    DeckInRange(c, k, plain, j.cardIndex);
    HonestPeelIs(c, k, plain, s.run.kind, j, c.local, s.work.current);
    var m := PeelMessage(c.hand, PeelAs(c, s, c.local, c.key).value);
    SeatFound(s.work.peelers, 0);
    a := Apply(c, s.work, m).0;
    assert ExecutePeel(c, s) == Behind(m, AfterPeel(c, s.(work := a)));
  }

  /** A peeler of a job finishes it without opening anything of its own, and goes on. */
  lemma PeelerGoesOn(c: DealConfig, base: DealState, script: seq<PeelMessage>, k: Keys, plain: int -> int)
    requires Follows(c, base, script) && HonestCards(c, k, plain) && JobOf(base).recipient != c.local
    requires forall x :: 0 <= x < |base.run.jobs| ==> JobFits(c, base.run.jobs[x])
    ensures Ending(c, base, script).out.Ok?
  {
    var full := base.(work := Complete(c, base, script));
    AdvanceStarts(c, k, plain, full.(got := FinishJob(c, full).0));
  }

  lemma PublicPeelers(c: DealConfig, j: Job)
    requires ValidDeal(c) && JobFits(c, j) && j.kind == PublicJob
    ensures InstallJob(c, j).Ok? && InstallJob(c, j).value.peelers == c.order
  {
  }

  lemma PublicSeats(cs: seq<DealConfig>, bases: seq<DealState>, k: Keys, plain: int -> int, run: Run, i: nat)
    requires HonestTable(cs, bases, k, plain, run) && i < |cs| && run.jobs[run.jobIdx].kind == PublicJob
    ensures HonestCards(cs[i], k, plain) && |cs[i].order| == |cs|
    ensures var job := InstallJob(cs[i], run.jobs[run.jobIdx]); job.Ok? && job.value.peelers == cs[i].order
  {
    TableJob(cs, bases, k, plain, run, i);
    PublicPeelers(cs[i], run.jobs[run.jobIdx]);
  }

  lemma LastResultIsPlain(cs: seq<DealConfig>, bases: seq<DealState>, k: Keys, plain: int -> int, run: Run, i: nat)
    requires HonestTable(cs, bases, k, plain, run) && i < |cs| && run.jobs[run.jobIdx].kind == PublicJob
    ensures HonestScript(cs, bases, k, plain, run)[|cs| - 1].pd.result == plain(run.jobs[run.jobIdx].cardIndex)
  {
    var c, j := cs[i], run.jobs[run.jobIdx];
    PublicSeats(cs, bases, k, plain, run, i);
    ScriptAt(cs, bases, k, plain, run, i, |cs| - 1);
    LastIsPlain(c, k, plain, j, c.order);
  }

  lemma CompleteIsPlain(cs: seq<DealConfig>, bases: seq<DealState>, k: Keys, plain: int -> int, run: Run, i: nat,
      script: seq<PeelMessage>)
    requires HonestTable(cs, bases, k, plain, run) && i < |cs| && run.jobs[run.jobIdx].kind == PublicJob
    requires script == HonestScript(cs, bases, k, plain, run) && bases[i].run == run
    requires 0 <= run.jobs[run.jobIdx].cardIndex < |cs[i].cards|
    ensures Before(cs[i], JobOf(bases[i]), script, |script|) == plain(run.jobs[run.jobIdx].cardIndex)
  {
    LastResultIsPlain(cs, bases, k, plain, run, i);
    assert Before(cs[i], run.jobs[run.jobIdx], script, |script|) == script[|cs| - 1].pd.result;
  }

  lemma PublicOpensCurrent(c: DealConfig, s: DealState)
    requires s.work.job.kind == PublicJob
    ensures var f := FinishJob(c, s);
            f.1.None? && s.work.job.cardIndex in f.0.decoded && f.0.decoded[s.work.job.cardIndex] == s.work.current
  {
  }

  /** What every seat opens when the job is public: the plaintext of the position. */
  lemma HonestJobOpens(cs: seq<DealConfig>, bases: seq<DealState>, k: Keys, plain: int -> int, run: Run, i: nat,
      script: seq<PeelMessage>)
    requires HonestTable(cs, bases, k, plain, run) && i < |cs| && run.jobs[run.jobIdx].kind == PublicJob
    requires script == HonestScript(cs, bases, k, plain, run)
    ensures Follows(cs[i], bases[i], script)
    ensures var f, idx := FinishJob(cs[i], bases[i].(work := Complete(cs[i], bases[i], script))),
        run.jobs[run.jobIdx].cardIndex;
            f.1.None? && idx in f.0.decoded && f.0.decoded[idx] == plain(idx)
  {
    assert HonestSeat(cs[0], cs[i], bases[i], k, plain, run);
    HonestFollows(cs, bases, k, plain, run, i);
    CompleteIsPlain(cs, bases, k, plain, run, i, script);
    PublicOpensCurrent(cs[i], bases[i].(work := Complete(cs[i], bases[i], script)));
  }

  lemma LastIsPlain(c: DealConfig, k: Keys, plain: int -> int, j: Job, peelers: seq<string>)
    requires ValidDeal(c) && HonestCards(c, k, plain) && 0 <= j.cardIndex < |c.cards| && peelers == c.order
    ensures forall x :: 0 <= x < |peelers| ==> IsPrivate(k(peelers[x]))
    ensures Cur(c, k, j, peelers, |peelers|) == plain(j.cardIndex)
  {
    CurInRange(c, k, plain, j, peelers, |peelers|);
    assert peelers[..|peelers|] == c.order;
    RingOf(c, k, plain, c.order);
    var m := plain(j.cardIndex);
    PeelAnyOrder(m, KeysOf(k, c.order), KeysOf(k, c.order), c.p);
  }

  // ----------------------------------------------------------------- the recipient's side

  lemma LastForRecipient(c: DealConfig, k: Keys, plain: int -> int, j: Job, peelers: seq<string>)
    requires ValidDeal(c) && HonestCards(c, k, plain) && 0 <= j.cardIndex < |c.cards|
    requires peelers == Deal.WithoutSeat(c.order, c.local)
    ensures forall x :: 0 <= x < |peelers| ==> IsPrivate(k(peelers[x]))
    ensures Decrypt(c.key, Cur(c, k, j, peelers, |peelers|)) == Ok(plain(j.cardIndex))
  {
    WithoutKeeps(c.order, c.local);
    LocalIsNamed(c);
    CurInRange(c, k, plain, j, peelers, |peelers|);
    assert peelers[..|peelers|] == peelers;
    RingOf(c, k, plain, c.order);
    RingOf(c, k, plain, peelers);
    RingOf(c, k, plain, [c.local]);
    assert KeysOf(k, [c.local])[0] == c.key;
    DecryptCloses(c.key, Cur(c, k, j, peelers, |peelers|));
    PeeledSnoc(c.cards[j.cardIndex], KeysOf(k, peelers), c.key, c.p);
    WithoutMultiset(k, c.order, c.local);
    PeelAnyOrder(plain(j.cardIndex), KeysOf(k, c.order), KeysOf(k, peelers) + [c.key], c.p);
  }

  /** The recipient of a hole job, at an honest table of its peelers. */
  ghost predicate HonestRecipient(cs: seq<DealConfig>, bases: seq<DealState>, k: Keys, plain: int -> int, run: Run,
      c: DealConfig, base: DealState) {
    && HonestTable(cs, bases, k, plain, run) && HonestSeat(cs[0], c, base, k, plain, run)
    && run.jobs[run.jobIdx].kind == HoleJob && run.jobs[run.jobIdx].recipient == c.local
  }

  lemma RecipientFollows(cs: seq<DealConfig>, bases: seq<DealState>, k: Keys, plain: int -> int, run: Run,
      c: DealConfig, base: DealState)
    requires HonestRecipient(cs, bases, k, plain, run, c, base)
    ensures Follows(c, base, HonestScript(cs, bases, k, plain, run)) && Own(c, base) == None
  {
    var j, script := run.jobs[run.jobIdx], HonestScript(cs, bases, k, plain, run);
    TableJob(cs, bases, k, plain, run, 0);
    var peelers := InstallJob(cs[0], j).value.peelers;
    assert InstallJob(c, j) == InstallJob(cs[0], j);
    LocalIsNamed(c);
    forall x | 0 <= x < |script| ensures script[x].pd.player == peelers[x] && Acceptable(c, j, script, x) {
      ScriptAt(cs, bases, k, plain, run, 0, x);
      BeforeIsCur(cs, bases, k, plain, run, 0, x);
    }
    NotSeated(peelers, c.local);
  }

  lemma {:induction false} NotSeated(seats: seq<string>, id: string)
    requires id !in seats
    ensures ShuffleSession.SeatOf(seats, id) == None
  {
  }

  /** The peelers of the recipient's job, seen from the recipient. */
  lemma HolePeelers(cs: seq<DealConfig>, bases: seq<DealState>, k: Keys, plain: int -> int, run: Run, c: DealConfig,
      base: DealState) returns (peelers: seq<string>)
    requires HonestRecipient(cs, bases, k, plain, run, c, base)
    ensures var j := run.jobs[run.jobIdx];
            && InstallJob(cs[0], j).Ok? && peelers == InstallJob(cs[0], j).value.peelers
            && peelers == Deal.WithoutSeat(c.order, c.local) && |peelers| == |cs|
            && 0 <= j.cardIndex < |c.cards| && ValidDeal(c) && HonestCards(c, k, plain)
            && c.cards == cs[0].cards && c.p == cs[0].p
  {
    TableJob(cs, bases, k, plain, run, 0);
    LocalIsNamed(c);
    peelers := InstallJob(cs[0], run.jobs[run.jobIdx]).value.peelers;
  }

  lemma HoleLastResult(cs: seq<DealConfig>, bases: seq<DealState>, k: Keys, plain: int -> int, run: Run, c: DealConfig,
      base: DealState)
    requires HonestRecipient(cs, bases, k, plain, run, c, base)
    ensures Decrypt(c.key, HonestScript(cs, bases, k, plain, run)[|cs| - 1].pd.result)
        == Ok(plain(run.jobs[run.jobIdx].cardIndex))
  {
    var j := run.jobs[run.jobIdx];
    var peelers := HolePeelers(cs, bases, k, plain, run, c, base);
    ScriptAt(cs, bases, k, plain, run, 0, |cs| - 1);
    SameCur(cs[0], c, k, j, peelers, |cs|);
    LastForRecipient(c, k, plain, j, peelers);
  }

  lemma HoleOpensCurrent(c: DealConfig, s: DealState, x: int)
    requires s.work.job.kind == HoleJob && s.work.job.recipient == c.local && Decrypt(c.key, s.work.current) == Ok(x)
    ensures var f := FinishJob(c, s);
            && f.1.None? && s.work.job.cardIndex in f.0.decoded && f.0.decoded[s.work.job.cardIndex] == x
            && f.0.localHoles == SetRound(s.got.localHoles, s.work.job.round, x)
  {
  }

  lemma LastIsCurrent(c: DealConfig, base: DealState, script: seq<PeelMessage>, j: Job)
    requires Follows(c, base, script) && j == JobOf(base) && script != []
    ensures Complete(c, base, script).current == script[|script| - 1].pd.result && Complete(c, base, script).job == j
  {
  }

  /**
   * What the recipient of a hole job opens: the plaintext of the position, kept as its card
   * of that round. By JobConfluence this is where every delivery of the peels leads.
   */
  lemma HoleJobOpens(cs: seq<DealConfig>, bases: seq<DealState>, k: Keys, plain: int -> int, run: Run, c: DealConfig,
      base: DealState, script: seq<PeelMessage>)
    requires HonestRecipient(cs, bases, k, plain, run, c, base) && script == HonestScript(cs, bases, k, plain, run)
    ensures Follows(c, base, script)
    ensures var j, f := run.jobs[run.jobIdx], FinishJob(c, base.(work := Complete(c, base, script)));
            && f.1.None? && j.cardIndex in f.0.decoded && f.0.decoded[j.cardIndex] == plain(j.cardIndex)
            && f.0.localHoles == SetRound(base.got.localHoles, j.round, plain(j.cardIndex))
  {
    RecipientFollows(cs, bases, k, plain, run, c, base);
    HoleLastResult(cs, bases, k, plain, run, c, base);
    var j := run.jobs[run.jobIdx];
    LastIsCurrent(c, base, script, j);
    HoleOpensCurrent(c, base.(work := Complete(c, base, script)), plain(j.cardIndex));
  }
}
