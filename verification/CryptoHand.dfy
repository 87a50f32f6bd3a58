// One replica's hand on the network (internal/network/crypto_hand.go:340-410): the deal session
// and the keys of seats that are gone, whose recovery the others do not notice.
module CryptoHand {
  import opened DealSafety
  import opened DealSession
  import opened Delegation
  import HonestJob
  import KeyRecovery
  import opened ModArith
  import Shamir
  import ShuffleSession
  import opened Sra
  import opened Wrappers
  import opened Zkp

  // ----------------------------------------------------------- recovery is transparent

  lemma NextIsSeat(c: DealConfig, P: Policy, w: Work)
    requires ValidDeal(c) && WorkOk(c, P, w) && !JobComplete(w)
    ensures ShuffleSession.SeatOf(w.peelers, NextPeeler(w)) == Some(w.nextPeel) && NextPeeler(w) in c.order
  {
    PeelersDistinct(c, P, w);
    SeatFound(w.peelers, w.nextPeel);
  }

  /** The awaited peeler of a job under way is a seat of the table, and the one in the awaited place. */
  lemma AwaitedSeat(c: DealConfig, P: Policy, s: DealState)
    requires ValidDeal(c) && DealInv(c, P, s) && Working(s) && ExpectedPeeler(s) != ""
    ensures ShuffleSession.SeatOf(s.work.peelers, ExpectedPeeler(s)) == Some(s.work.nextPeel)
    ensures ExpectedPeeler(s) in c.order
  {
    NextIsSeat(c, P, s.work);
  }

  /**
   * In every reachable state, whatever has been received: a peel on behalf of the awaited
   * seat does what the same peel received from that seat would have done, and publishes it
   * in front of whatever it leads to.
   */
  lemma DelegationIsOwnPeel(c: DealConfig, calls: seq<Call>, s: DealState, id: string, key: Key)
    requires ValidDeal(c) && Roomy(c) && s == RunCalls(c, calls) && key.p == c.p
    requires Working(s) && ExpectedPeeler(s) == id && id != "" && id != c.local && PeelAs(c, s, id, key).Ok?
    ensures var m := PeelMessage(c.hand, PeelAs(c, s, id, key).value);
            PeelOnBehalf(c, s, id, key) == InFront(m, HandlePeel(c, s, m))
  {
    AnythingGoes(c, calls);
    RunKeeps(c, ANYTHING, calls);
    AwaitedSeat(c, ANYTHING, s);
  }

  /** The states agree in everything but how the applied peels were proved. */
  predicate SameButProofs(s: DealState, t: DealState) {
    t == s.(work := s.work.(applied := t.work.applied))
  }

  predicate SameReplies(r: DealReply, q: DealReply) {
    r.out == q.out && SameButProofs(r.s, q.s)
  }

  lemma ApplyAlike(c: DealConfig, v: Work, w: Work, m: PeelMessage)
    requires c.p > 2 && w == v.(applied := w.applied)
    ensures var a, b := Apply(c, v, m), Apply(c, w, m); a.1 == b.1 && b.0 == a.0.(applied := b.0.applied)
  {
  }

  lemma {:induction false} DrainAlike(c: DealConfig, v: Work, w: Work)
    requires c.p > 2 && w == v.(applied := w.applied)
    ensures var a, b := DrainPeels(c, v), DrainPeels(c, w); a.1 == b.1 && b.0 == a.0.(applied := b.0.applied)
    decreases |v.peelers| - v.nextPeel
  {
    if !JobComplete(v) && NextPeeler(v) != c.local && v.nextPeel in v.pending {
      var v', w' := v.(pending := v.pending - {v.nextPeel}), w.(pending := w.pending - {w.nextPeel});
      var m := v.pending[v.nextPeel];
      ApplyAlike(c, v', w', m);
      if Apply(c, v', m).1.None? {
        DrainAlike(c, Apply(c, v', m).0, Apply(c, w', m).0);
      }
    }
  }

  lemma BehindAlike(m: PeelMessage, r: DealReply, q: DealReply)
    requires SameReplies(r, q)
    ensures SameReplies(Behind(m, r), Behind(m, q))
  {
  }

  lemma {:induction false} ExecuteAlike(c: DealConfig, s: DealState, t: DealState)
    requires c.p > 2 && c.key.p == c.p && SameButProofs(s, t)
    ensures SameReplies(ExecutePeel(c, s), ExecutePeel(c, t))
    decreases JobsLeft(s.run), PeelsLeft(s.work), 0
  {
    if !JobComplete(s.work) && NextPeeler(s.work) == c.local {
      var pd := PeelAs(c, s, c.local, c.key);
      if pd.Ok? {
        var m := PeelMessage(c.hand, pd.value);
        var a, b := Apply(c, s.work, m), Apply(c, t.work, m);
        ApplyAlike(c, s.work, t.work, m);
        if a.1.None? {
          AfterAlike(c, s.(work := a.0), t.(work := b.0));
          BehindAlike(m, AfterPeel(c, s.(work := a.0)), AfterPeel(c, t.(work := b.0)));
        }
      }
    }
  }

  lemma {:induction false} AfterAlike(c: DealConfig, s: DealState, t: DealState)
    requires c.p > 2 && c.key.p == c.p && SameButProofs(s, t)
    ensures SameReplies(AfterPeel(c, s), AfterPeel(c, t))
    decreases JobsLeft(s.run), PeelsLeft(s.work), 2
  {
    var d, e := DrainPeels(c, s.work), DrainPeels(c, t.work);
    DrainAlike(c, s.work, t.work);
    var s', t' := s.(work := d.0), t.(work := e.0);
    if d.1.None? {
      if JobComplete(d.0) {
        if FinishJob(c, s').1.None? {
          AdvanceAlike(c, s'.(got := FinishJob(c, s').0), t'.(got := FinishJob(c, t').0));
        }
      } else if NextPeeler(d.0) == c.local {
        ExecuteAlike(c, s', t');
      }
    }
  }

  lemma {:induction false} AdvanceAlike(c: DealConfig, s: DealState, t: DealState)
    requires c.p > 2 && c.key.p == c.p && SameButProofs(s, t)
    ensures SameReplies(AdvanceSequence(c, s), AdvanceSequence(c, t))
    decreases JobsLeft(s.run), PeelsLeft(s.work), 1
  {
  }

  /** With a seat's own key its awaited peel can always be made, and is accepted. */
  lemma HonestPeelPossible(c: DealConfig, k: Keys, plain: int -> int, calls: seq<Call>, s: DealState, id: string)
    requires ValidDeal(c) && Roomy(c) && HonestCards(c, k, plain) && CallsOk(c, TRUTH(c, k, plain), calls)
    requires s == RunCalls(c, calls)
    requires Working(s) && ExpectedPeeler(s) == id && id != ""
    ensures ShuffleSession.SeatOf(s.work.peelers, id) == Some(s.work.nextPeel) && s.work.job.cardIndex >= 0
    ensures k(id).p == c.p && k(id).d.Some? && PeelAs(c, s, id, k(id)).Ok?
    ensures var pd := PeelAs(c, s, id, k(id)).value;
            && pd.player == id && pd.cardIndex == s.work.job.cardIndex
            && VerifyAndApply(c.hash, s.work.current, pd, c.p, c.session)
                == Ok(ModPow(s.work.current, k(id).d.value, c.p))
  {
    var P, w := TRUTH(c, k, plain), s.work;
    TruthIsFair(c, k, plain);
    RunKeeps(c, P, calls);
    AwaitedSeat(c, P, s);
    CurrentIsPeeled(c, k, plain, calls);
    PeelersDistinct(c, P, w);
    HonestJob.CurInRange(c, k, plain, w.job, w.peelers, w.nextPeel);
    HonestJob.HonestPeelIs(c, k, plain, s.run.kind, w.job, id, w.current);
  }

  lemma SameResultAlike(c: DealConfig, s: DealState, id: string, own: PeelMessage, m: PeelMessage)
    requires ValidDeal(c) && Working(s) && ShuffleSession.SeatOf(s.work.peelers, id) == Some(s.work.nextPeel)
    requires id != "" && id != c.local && own.pd.player == m.pd.player == id && own.hand == m.hand == c.hand
    requires own.pd.cardIndex == m.pd.cardIndex == s.work.job.cardIndex
    requires VerifyAndApply(c.hash, s.work.current, own.pd, c.p, c.session).Ok?
    requires VerifyAndApply(c.hash, s.work.current, own.pd, c.p, c.session)
        == VerifyAndApply(c.hash, s.work.current, m.pd, c.p, c.session)
    ensures SameReplies(HandlePeel(c, s, own), HandlePeel(c, s, m))
  {
    var a, b := Apply(c, s.work, own).0, Apply(c, s.work, m).0;
    assert b == a.(applied := b.applied);
    AfterAlike(c, s.(work := a), s.(work := b));
  }

  /**
   * Recovery is transparent. In every state that a session reaches on true decryptions,
   * whatever valid proof the missing seat would have attached to its peel, a survivor's
   * peel with the seat's key is accepted and leaves the same ciphertext, the same opened
   * values and the same next moves; only the stored proof differs.
   */
  lemma RecoveryIsTransparent(c: DealConfig, k: Keys, plain: int -> int, calls: seq<Call>, s: DealState, id: string,
      own: PeelMessage)
    requires ValidDeal(c) && Roomy(c) && HonestCards(c, k, plain) && CallsOk(c, TRUTH(c, k, plain), calls)
    requires s == RunCalls(c, calls)
    requires Working(s) && ExpectedPeeler(s) == id && id != "" && id != c.local
    requires own.hand == c.hand && own.pd.player == id && own.pd.cardIndex == s.work.job.cardIndex
    requires Truthful(k, c.p, own)
    requires VerifyAndApply(c.hash, s.work.current, own.pd, c.p, c.session).Ok?
    ensures k(id).p == c.p && PeelAs(c, s, id, k(id)).Ok?
    ensures var m := PeelMessage(c.hand, PeelAs(c, s, id, k(id)).value);
            SameReplies(InFront(m, HandlePeel(c, s, own)), PeelOnBehalf(c, s, id, k(id)))
  {
    HonestPeelPossible(c, k, plain, calls, s, id);
    var m := PeelMessage(c.hand, PeelAs(c, s, id, k(id)).value);
    SameResultAlike(c, s, id, own, m);
    DelegationIsOwnPeel(c, calls, s, id, k(id));
    BehindAlike(m, HandlePeel(c, s, own), HandlePeel(c, s, m));
  }

  /** The key that enough shares rebuild is the owner's, so its peels are the owner's peels. */
  lemma RecoveredKeyPeelsAlike(c: DealConfig, s: DealState, id: string, shares: seq<Shamir.Share>, t: nat, n: nat,
      owner: Key, v: nat)
    requires c.p > 2 && owner.p == c.p && KeyRecovery.SharesOfKey(shares, t, n, owner)
    requires t <= |shares| && Shamir.IsSecret(shares[..t], c.p, v)
    ensures var e := ModInverse(v, c.p - 1);
            && e.Unit? && Key(e.value, Some(v), c.p) == owner
            && PeelAs(c, s, id, Key(e.value, Some(v), c.p)) == PeelAs(c, s, id, owner)
  {
    KeyRecovery.RecoversKey(shares, t, n, owner);
  }

  // ------------------------------------------------------------------ the hand object

  class Hand {
    const deal: Session
    var gone: map<string, Key>

    constructor (deal: Session)
      ensures this.deal == deal && gone == map[]
    {
      this.deal := deal;
      gone := map[];
    }

    method MarkGone(id: string, key: Key) returns (e: Option<Error>)
      modifies this
      ensures e == if id == "" then Some(EmptyPlayerID) else if key.d.None? then Some(MissingPrivateKey) else None
      ensures gone == if e.None? then old(gone)[id := key] else old(gone)
    {
      if id == "" {
        return Some(EmptyPlayerID);
      }
      if key.d.None? {
        return Some(MissingPrivateKey);
      }
      gone := gone[id := key];
      return None;
    }

    method CollectPeels(first: Option<PeelMessage>) returns (out: seq<PeelMessage>)
      modifies deal
      ensures out == Collected(old(deal.View()), first) && deal.View() == Emptied(old(deal.View()))
    {
      var rest := deal.TakeOutbound();
      out := (if first.Some? then [first.value] else []) + rest;
    }

    method TryDelegatedPeels() returns (produced: seq<PeelMessage>, err: Option<Error>)
      requires ValidDeal(deal.config) && SameModulus(deal.config, gone)
      modifies deal
      ensures Delegated(deal.View(), produced, err) == TryDelegate(deal.config, old(deal.View()), gone)
    {
      if gone == map[] || DesignatedSurvivor(deal.config.order, gone) != deal.config.local {
        return [], None;
      }
      produced, err := DelegateAll();
    }

    method DelegateAll() returns (produced: seq<PeelMessage>, err: Option<Error>)
      requires ValidDeal(deal.config) && SameModulus(deal.config, gone)
      modifies deal
      ensures Delegated(deal.View(), produced, err) == DelegateLoop(deal.config, old(deal.View()), gone)
    {
      ghost var c := deal.config;
      ghost var whole := DelegateLoop(c, deal.View(), gone);
      produced, err := [], None;
      var more := true;
      while more
        invariant err.None?
        invariant more ==> Ahead(whole, produced, DelegateLoop(c, deal.View(), gone))
        invariant !more ==> whole == Delegated(deal.View(), produced, None)
        decreases more, JobsLeft(deal.RunView()), PeelsLeft(deal.WorkView())
      {
        var peeler := ExpectedPeeler(deal.View());
        if peeler == "" || peeler !in gone {
          more := false;
        } else {
          ghost var before := deal.View();
          var msg := deal.PeelFor(peeler, gone[peeler]);
          if msg.Err? {
            return produced, Some(msg.error);
          }
          ghost var r := PeelOnBehalf(c, before, peeler, gone[peeler]);
          DelegationProgress(c, before, peeler, gone[peeler]);
          DelegateStep(c, before, gone, peeler, r, whole, produced);
          var sent := CollectPeels(msg.value);
          produced := produced + sent;
          more := deal.kind != Idle && deal.busy;
        }
      }
    }
  }
}
