// Which peels a job takes in, whatever has been received before (internal/crypto/deal_session.go:383-434).
module DealIntake {
  import Deal
  import opened DealSafety
  import opened DealSession
  import opened ModArith
  import opened Rounds
  import opened Rules
  import ShuffleSession
  import opened Sra
  import opened Wrappers
  import opened Zkp

  /** m is a peel by the job's k-th peeler, of the job's card and in the right hand. */
  predicate PeelFrom(c: DealConfig, w: Work, k: nat, m: PeelMessage) {
    k < |w.peelers| && m.pd.player == w.peelers[k] && m.hand == c.hand && m.pd.cardIndex == w.job.cardIndex
  }

  /** The k-th peel has been applied, or is held for later. */
  predicate Knows(w: Work, k: nat) {
    k < w.nextPeel || (k > w.nextPeel && k in w.pending)
  }

  function Known(w: Work, k: nat): PeelMessage
    requires Knows(w, k) && forall j: nat :: j < w.nextPeel ==> j in w.applied
  {
    if k < w.nextPeel then w.applied[k] else w.pending[k]
  }

  /** The message is refused and leaves the session as it was. */
  predicate Refused(s: DealState, r: DealReply) {
    r.s == s && r.out.Err?
  }

  /** What is known of the job in progress in every reachable state. */
  lemma JobIsSound(c: DealConfig, calls: seq<Call>, s: DealState)
    requires ValidDeal(c) && Roomy(c) && s == RunCalls(c, calls) && Working(s)
    ensures WorkOk(c, ANYTHING, s.work) && Distinct(s.work.peelers) && "" !in s.work.peelers
  {
    AnythingGoes(c, calls);
    RunKeeps(c, ANYTHING, calls);
    PeelersDistinct(c, ANYTHING, s.work);
  }

  /** A message that is no peel of a peeler of the job, or the own peel before it is made, is refused. */
  lemma StrangersRefused(c: DealConfig, calls: seq<Call>, s: DealState, m: PeelMessage)
    requires ValidDeal(c) && Roomy(c) && s == RunCalls(c, calls)
    requires !Working(s) || forall k: nat ::
               PeelFrom(c, s.work, k, m) ==> m.pd.player == c.local && k >= s.work.nextPeel
    ensures Refused(s, HandlePeel(c, s, m))
  {
    if Working(s) && PeelRejection(c, s.work, m) == None {
      var seat := ShuffleSession.SeatOf(s.work.peelers, m.pd.player);
      if seat.Some? {
        assert PeelFrom(c, s.work, seat.value, m);
      }
    }
  }

  /** Of a peeler's peels the first one taken in stands: copies are ignored, others refused. */
  lemma FirstPeelStands(c: DealConfig, calls: seq<Call>, s: DealState, k: nat, m: PeelMessage)
    requires ValidDeal(c) && Roomy(c) && s == RunCalls(c, calls) && Working(s)
    requires PeelFrom(c, s.work, k, m) && Knows(s.work, k) && (m.pd.player == c.local ==> k < s.work.nextPeel)
    ensures WorkOk(c, ANYTHING, s.work)
    ensures if m == Known(s.work, k) then HandlePeel(c, s, m) == DealReply(s, Ok(None))
            else Refused(s, HandlePeel(c, s, m))
  {
    JobIsSound(c, calls, s);
    SeatFound(s.work.peelers, k);
    KnownHandled(c, s, k, m, Known(s.work, k));
  }

  lemma KnownHandled(c: DealConfig, s: DealState, k: nat, m: PeelMessage, known: PeelMessage)
    requires ValidDeal(c) && Working(s) && PeelRejection(c, s.work, m) == None
    requires ShuffleSession.SeatOf(s.work.peelers, m.pd.player) == Some(k)
    requires if k < s.work.nextPeel then k in s.work.applied && known == s.work.applied[k]
             else k > s.work.nextPeel && k in s.work.pending && known == s.work.pending[k] && m.pd.player != c.local
    ensures if m == known then HandlePeel(c, s, m) == DealReply(s, Ok(None)) else Refused(s, HandlePeel(c, s, m))
  {
  }

  /** A peel of the ciphertext that is left, with a proof that it was peeled. */
  predicate Proved(c: DealConfig, w: Work, m: PeelMessage)
    requires c.p > 2
  {
    && m.pd.ciphertext == w.current
    && VerifyDecryption(c.hash, m.pd.proof, m.pd.ciphertext, m.pd.result, c.p, c.session)
  }

  /** A peeler's first peel is held if it comes early; the awaited one is applied exactly if it is proved. */
  lemma NewPeelTaken(c: DealConfig, calls: seq<Call>, s: DealState, k: nat, m: PeelMessage)
    requires ValidDeal(c) && Roomy(c) && s == RunCalls(c, calls) && Working(s)
    requires PeelFrom(c, s.work, k, m) && !Knows(s.work, k) && m.pd.player != c.local
    ensures var w, r := s.work, HandlePeel(c, s, m);
            if k > w.nextPeel then r == DealReply(s.(work := w.(pending := w.pending[k := m])), Ok(None))
            else if Proved(c, w, m) then
              r == AfterPeel(c, s.(work := w.(applied := w.applied[k := m], current := m.pd.result, nextPeel := k + 1)))
            else Refused(s, r)
  {
    JobIsSound(c, calls, s);
    SeatFound(s.work.peelers, k);
  }

  /** A peel on behalf of a seat is refused unless that seat, another one, is awaited and its private key is given. */
  lemma OnBehalfRefused(c: DealConfig, s: DealState, id: string, key: Key)
    requires ValidDeal(c) && key.p == c.p
    requires !Working(s) || ExpectedPeeler(s) != id || id == c.local || key.d.None?
    ensures Refused(s, PeelOnBehalf(c, s, id, key))
  {
  }

  /** The hole jobs peel the deck from its top, each for the seat that the walk left of the dealer has come to. */
  lemma HoleJobsInOrder(c: DealConfig, pos: nat)
    requires ValidDeal(c) && pos < 2 * |c.order|
    ensures var n, job := |c.order|, HoleJobs(c)[pos];
            && job.kind == HoleJob && job.cardIndex == pos && job.round == (if pos < n then 0 else 1)
            && exists who: nat :: who < n && job.recipient == c.order[who]
                                  && Gap(c.dealer, who, n) == (if pos < n then pos else pos - n) + 1
  {
    var n := |c.order|;
    var round, i := if pos < n then 0 else 1, if pos < n then pos else pos - n;
    ModIs(pos, n, round, i);
    var who := HoleSeat(c.dealer, pos, n);
    Deal.HolePosInverse(n, c.dealer, who, round, i);
    AroundIs(c.dealer, i + 1, n);
    assert HoleJobs(c)[pos] == HoleJobAt(c, pos);
  }

  /** The peelers of a hole job are the other seats, in seat order. */
  lemma {:induction false} OthersInOrder(seats: seq<string>, r: nat)
    requires Distinct(seats) && r < |seats|
    ensures Deal.WithoutSeat(seats, seats[r]) == seats[..r] + seats[r + 1..]
  {
    var rest := seats[1..];
    assert forall i :: 0 <= i < |rest| ==> rest[i] == seats[i + 1];
    if r == 0 {
      NothingWithout(rest, seats[0]);
      assert [] + rest == rest && seats[..0] + seats[1..] == rest;
    } else {
      OthersInOrder(rest, r - 1);
      assert seats[0] != seats[r];
      assert [seats[0]] + (rest[..r - 1] + rest[r..]) == seats[..r] + seats[r + 1..];
    }
  }
}
