// What holds of a deal session in every reachable state, whatever messages arrive in
// whatever order (internal/crypto/deal_session.go:185-299, 383-434, 582-738).
module DealSafety {
  import Cards
  import Deal
  import opened DealSession
  import JointDeck
  import opened Rules
  import opened ModArith
  import Params
  import opened Shuffle
  import ShuffleSession
  import opened Sra
  import opened Wrappers
  import opened Zkp

  // Everything that can be asked of a session.
  datatype Call = CallHoles | CallStreet(street: nat) | CallReveal(id: string) | CallPeel(m: PeelMessage)
                | CallDelegate(id: string, key: Key) | CallCollect

  function DoCall(c: DealConfig, s: DealState, call: Call): DealState
    requires ValidDeal(c)
  {
    match call
    case CallHoles => BeginHoles(c, s).s
    case CallStreet(street) => BeginStreet(c, s, street).s
    case CallReveal(id) => BeginReveal(c, s, id).s
    case CallPeel(m) => HandlePeel(c, s, m).s
    case CallDelegate(id, key) => if key.p == c.p then PeelOnBehalf(c, s, id, key).s else s
    case CallCollect => s.(outbound := [])
  }

  // What is asked of the messages, and what then holds of the values that are opened.
  datatype Policy = Policy(ok: PeelMessage -> bool, value: (int, int) -> bool)

  // ------------------------------------------------------------------------- one job

  /** The ciphertext after the first i peels. */
  function Head(c: DealConfig, w: Work, i: nat): int
    requires 0 <= w.job.cardIndex < |c.cards| && (i > 0 ==> i - 1 in w.applied)
  {
    if i == 0 then c.cards[w.job.cardIndex] else w.applied[i - 1].pd.result
  }

  /** Peel i was made by peeler i on what the peels before it had left, and was verified. */
  predicate Link(c: DealConfig, P: Policy, w: Work, i: nat)
    requires 0 <= w.job.cardIndex < |c.cards| && c.p > 2
  {
    && i in w.applied && i < |w.peelers| && (i > 0 ==> i - 1 in w.applied)
    && var m := w.applied[i];
    && m.pd.player == w.peelers[i] && m.pd.ciphertext == Head(c, w, i)
    && VerifyDecryption(c.hash, m.pd.proof, m.pd.ciphertext, m.pd.result, c.p, c.session)
    && P.ok(m)
  }

  /** Exactly the peelers before nextPeel have been applied, each on the last one's result. */
  ghost predicate WorkOk(c: DealConfig, P: Policy, w: Work) {
    && c.p > 2 && 0 <= w.job.cardIndex < |c.cards|
    && Deal.PeelOrder(c.order, w.job.recipient) == Ok(w.peelers) && w.peelers != [] && w.nextPeel <= |w.peelers|
    && (forall i: nat :: i in w.applied <==> i < w.nextPeel)
    && (forall i: nat :: i < w.nextPeel ==> Link(c, P, w, i))
    && w.current == Head(c, w, w.nextPeel)
    && (forall i: nat :: i in w.pending ==>
        i < |w.peelers| && w.pending[i].pd.player == w.peelers[i] && P.ok(w.pending[i]))
  }

  ghost predicate Distinct(ids: seq<string>) {
    forall i, j :: 0 <= i < j < |ids| ==> ids[i] != ids[j]
  }

  lemma {:induction false} WithoutKeeps(seats: seq<string>, id: string)
    requires Distinct(seats)
    ensures Distinct(Deal.WithoutSeat(seats, id))
    ensures forall x :: x in Deal.WithoutSeat(seats, id) <==> x in seats && x != id
    ensures |Deal.WithoutSeat(seats, id)| >= |seats| - 1
  {
    if seats != [] {
      assert forall i :: 0 <= i < |seats[1..]| ==> seats[1..][i] == seats[i + 1];
      WithoutKeeps(seats[1..], id);
      var rest := Deal.WithoutSeat(seats[1..], id);
      assert seats[0] !in seats[1..];
      forall k | 0 <= k < |rest| ensures rest[k] != seats[0] {
        assert rest[k] in rest;
      }
      if seats[0] == id {
        NothingWithout(seats[1..], id);
        assert [] + rest == rest;
      } else {
        assert Deal.WithoutSeat(seats, id) == [seats[0]] + rest;
      }
    }
  }

  lemma {:induction false} NothingWithout(seats: seq<string>, id: string)
    requires id !in seats
    ensures Deal.WithoutSeat(seats, id) == seats
  {
    if seats != [] {
      NothingWithout(seats[1..], id);
    }
  }

  lemma PeelersDistinct(c: DealConfig, P: Policy, w: Work)
    requires ValidDeal(c) && WorkOk(c, P, w)
    ensures Distinct(w.peelers) && forall x :: x in w.peelers ==> x in c.order
  {
    WithoutKeeps(c.order, w.job.recipient);
  }

  lemma SeatFound(ids: seq<string>, i: nat)
    requires Distinct(ids) && i < |ids|
    ensures ShuffleSession.SeatOf(ids, ids[i]) == Some(i)
  {
    var r := ShuffleSession.SeatOf(ids, ids[i]);
  }

  lemma LinkStays(c: DealConfig, P: Policy, w: Work, w': Work, i: nat)
    requires c.p > 2 && 0 <= w.job.cardIndex < |c.cards| && Link(c, P, w, i)
    requires w'.job == w.job && w'.peelers == w.peelers
    requires i in w'.applied && w'.applied[i] == w.applied[i]
    requires (i > 0 ==> i - 1 in w'.applied && w'.applied[i - 1] == w.applied[i - 1])
    ensures Link(c, P, w', i)
  {
  }

  /** A message of the awaited peeler extends the chain or changes nothing. */
  lemma ApplyExtends(c: DealConfig, P: Policy, w: Work, m: PeelMessage)
    requires ValidDeal(c) && WorkOk(c, P, w) && !JobComplete(w) && m.pd.player == NextPeeler(w) && P.ok(m)
    ensures var a := Apply(c, w, m); if a.1.Some? then a.0 == w else WorkOk(c, P, a.0)
  {
    var a := Apply(c, w, m);
    PeelersDistinct(c, P, w);
    SeatFound(w.peelers, w.nextPeel);
    if a.1.None? {
      forall i: nat | i < w.nextPeel ensures Link(c, P, a.0, i) {
        LinkStays(c, P, w, a.0, i);
      }
      assert Link(c, P, a.0, w.nextPeel);
    }
  }

  lemma {:induction false} DrainExtends(c: DealConfig, P: Policy, w: Work)
    requires ValidDeal(c) && WorkOk(c, P, w)
    ensures WorkOk(c, P, DrainPeels(c, w).0)
    decreases |w.peelers| - w.nextPeel
  {
    if !JobComplete(w) && NextPeeler(w) != c.local && w.nextPeel in w.pending {
      var rest := w.(pending := w.pending - {w.nextPeel});
      DropPending(c, P, w, w.nextPeel);
      ApplyExtends(c, P, rest, w.pending[w.nextPeel]);
      var a := Apply(c, rest, w.pending[w.nextPeel]);
      if a.1.None? {
        DrainExtends(c, P, a.0);
      }
    }
  }

  lemma DropPending(c: DealConfig, P: Policy, w: Work, k: nat)
    requires WorkOk(c, P, w)
    ensures WorkOk(c, P, w.(pending := w.pending - {k}))
  {
    var r := w.(pending := w.pending - {k});
    forall i: nat | i < w.nextPeel ensures Link(c, P, r, i) {
      LinkStays(c, P, w, r, i);
    }
  }

  lemma AddPending(c: DealConfig, P: Policy, w: Work, k: nat, m: PeelMessage)
    requires WorkOk(c, P, w) && k < |w.peelers| && m.pd.player == w.peelers[k] && P.ok(m)
    ensures WorkOk(c, P, w.(pending := w.pending[k := m]))
  {
    var r := w.(pending := w.pending[k := m]);
    forall i: nat | i < w.nextPeel ensures Link(c, P, r, i) {
      LinkStays(c, P, w, r, i);
    }
  }

  lemma InstallStarts(c: DealConfig, P: Policy, j: Job)
    requires ValidDeal(c) && 0 <= j.cardIndex < |c.cards| && (j.recipient == "" || j.recipient in c.order)
    ensures var w := InstallJob(c, j); w.Ok? && WorkOk(c, P, w.value) && w.value.job == j && !JobComplete(w.value)
  {
    WithoutKeeps(c.order, j.recipient);
  }

  // ------------------------------------------------------------- jobs and sequences

  /** The sequence in progress is the one that its kind calls for. */
  ghost predicate RunFits(c: DealConfig, run: Run, f: Flags)
    requires ValidDeal(c)
  {
    match run.kind
    case Idle => true
    case Holes => f.holesStarted && !f.holesDone && run.jobs == HoleJobs(c) && run.revealID == ""
    case StreetPeels =>
      f.holesDone && run.street == f.lastStreet + 1 <= 3 && run.jobs == StreetJobs(|c.order|, run.street)
          && run.revealID == ""
    case RevealPeels =>
      var who := ShuffleSession.SeatOf(c.order, run.revealID);
      f.holesDone && who.Some? && run.jobs == RevealJobs(c, who.value)
  }

  /** The job's position is in the deck and its recipient at the table. */
  predicate JobFits(c: DealConfig, j: Job) {
    && 0 <= j.cardIndex < |c.cards| && (j.recipient == "" || j.recipient in c.order)
    && (j.kind == PublicJob <==> j.recipient == "")
  }

  lemma JobsFit(c: DealConfig, run: Run, f: Flags)
    requires ValidDeal(c) && |c.cards| >= 2 * |c.order| + 8 && RunFits(c, run, f) && run.kind != Idle
    ensures run.jobs != [] && forall k :: 0 <= k < |run.jobs| ==> JobFits(c, run.jobs[k])
  {
    if run.kind == Holes {
      forall k | 0 <= k < |run.jobs| ensures JobFits(c, run.jobs[k]) {
        assert run.jobs[k] == HoleJobAt(c, k);
      }
    }
  }

  /** Community cards on the table when a street is complete. */
  function BoardCount(street: nat): nat {
    if street == 0 then 0 else if street == 1 then 3 else if street == 2 then 4 else 5
  }

  function HoleOf(c: DealConfig, who: nat, round: nat): int
    requires ValidDeal(c) && who < |c.order| && round < 2
  {
    Deal.HolePos(|c.order|, c.dealer, who, round)
  }

  /** Position i has been opened to this replica by a completed job: its own, on the board, or revealed. */
  ghost predicate Allowed(c: DealConfig, got: Opened, i: int)
    requires ValidDeal(c)
  {
    || (exists round: nat :: round < 2 && i == HoleOf(c, ShuffleSession.SeatOf(c.order, c.local).value, round))
    || (exists k: nat :: k < |got.community| && i == JointDeck.BoardPos(|c.order|, k))
    || (exists who: nat, round: nat ::
        who < |c.order| && round < 2 && c.order[who] in got.revealed && i == HoleOf(c, who, round))
  }

  predicate PairFits(P: Policy, p: Pair, first: int, second: int) {
    (p.first.Some? ==> P.value(first, p.first.value)) && (p.second.Some? ==> P.value(second, p.second.value))
  }

  /** Hands are revealed whole, except that the reveal in progress may have its first card. */
  predicate RevealsWhole(got: Opened, run: Run, done: nat) {
    && (forall id :: id in got.revealed ==>
          FullPair(got.revealed[id])
              || (run.kind == RevealPeels && id == run.revealID && done == 1 && got.revealed[id].first.Some?))
    && (run.kind == RevealPeels ==> (run.revealID in got.revealed <==> done >= 1))
    && (run.kind == Idle && run.revealID != "" ==> run.revealID in got.revealed)
  }

  /** What has been opened, when done jobs of the sequence in progress are complete. */
  ghost predicate GotOk(c: DealConfig, P: Policy, got: Opened, run: Run, f: Flags, done: nat)
    requires ValidDeal(c)
  {
    && f.lastStreet <= 3 && (f.lastStreet > 0 ==> f.holesDone)
    && |got.community| == BoardCount(f.lastStreet) + (if run.kind == StreetPeels then done else 0)
    && (forall k :: 0 <= k < |got.community| ==> P.value(JointDeck.BoardPos(|c.order|, k), got.community[k]))
    && (forall i :: i in got.decoded ==> Allowed(c, got, i) && P.value(i, got.decoded[i]))
    && PairFits(P, got.localHoles, HoleOf(c, ShuffleSession.SeatOf(c.order, c.local).value, 0),
        HoleOf(c, ShuffleSession.SeatOf(c.order, c.local).value, 1))
    && (forall id :: id in got.revealed ==> RevealFits(c, P, got, id))
    && RevealsWhole(got, run, done)
  }

  ghost predicate RevealFits(c: DealConfig, P: Policy, got: Opened, id: string)
    requires ValidDeal(c) && id in got.revealed
  {
    var who := ShuffleSession.SeatOf(c.order, id);
    who.Some? && PairFits(P, got.revealed[id], HoleOf(c, who.value, 0), HoleOf(c, who.value, 1))
  }

  /** The state between calls. */
  ghost predicate DealInv(c: DealConfig, P: Policy, s: DealState)
    requires ValidDeal(c)
  {
    && RunFits(c, s.run, s.flags) && GotOk(c, P, s.got, s.run, s.flags, s.run.jobIdx)
    && (s.run.kind != Idle ==> InJob(c, P, s))
  }

  ghost predicate InJob(c: DealConfig, P: Policy, s: DealState) {
    s.work.busy && s.run.jobIdx < |s.run.jobs| && s.work.job == s.run.jobs[s.run.jobIdx] && WorkOk(c, P, s.work)
  }

  /** Own peels satisfy the policy, and a finished chain of good peels opens a good value. */
  ghost predicate Fair(c: DealConfig, P: Policy)
    requires ValidDeal(c)
  {
    && (forall s: DealState {:trigger PeelAs(c, s, c.local, c.key)} :: PeelAs(c, s, c.local, c.key).Ok? ==>
          P.ok(PeelMessage(c.hand, PeelAs(c, s, c.local, c.key).value)))
    && (forall w: Work {:trigger WorkOk(c, P, w)} ::
        WorkOk(c, P, w) && JobComplete(w) && w.job.kind == PublicJob && w.job.recipient == "" ==>
          P.value(w.job.cardIndex, w.current))
    && (forall w: Work {:trigger WorkOk(c, P, w)} ::
        WorkOk(c, P, w) && JobComplete(w) && w.job.recipient == c.local && Decrypt(c.key, w.current).Ok? ==>
          P.value(w.job.cardIndex, Decrypt(c.key, w.current).value))
  }

  // --------------------------------------------------------------- finishing a job

  /** Which position the job in progress opens, by the kind of sequence. */
  lemma StreetJobAt(c: DealConfig, run: Run, f: Flags, k: nat)
    requires ValidDeal(c) && RunFits(c, run, f) && run.kind == StreetPeels && k < |run.jobs|
    ensures run.jobs[k] == Public(JointDeck.BoardPos(|c.order|, BoardCount(f.lastStreet) + k))
    ensures BoardCount(f.lastStreet) + |run.jobs| == BoardCount(run.street)
  {
  }

  lemma FinishStreet(c: DealConfig, P: Policy, s: DealState)
    requires ValidDeal(c) && Fair(c, P) && DealInv(c, P, s) && s.run.kind == StreetPeels && JobComplete(s.work)
    ensures FinishJob(c, s).1.None? && GotOk(c, P, FinishJob(c, s).0, s.run, s.flags, s.run.jobIdx + 1)
  {
    StreetJobAt(c, s.run, s.flags, s.run.jobIdx);
    var got := FinishJob(c, s).0;
    assert P.value(s.work.job.cardIndex, s.work.current);
    forall i | i in got.decoded ensures Allowed(c, got, i) && P.value(i, got.decoded[i]) {
      if i in s.got.decoded {
        AllowedStays(c, s.got, got, i);
      } else {
        assert i == JointDeck.BoardPos(|c.order|, |s.got.community|);
      }
    }
    forall id | id in got.revealed ensures RevealFits(c, P, got, id) {
      assert RevealFits(c, P, s.got, id);
    }
  }

  lemma AllowedStays(c: DealConfig, got: Opened, got': Opened, i: int)
    requires ValidDeal(c) && Allowed(c, got, i) && |got.community| <= |got'.community|
    requires forall id :: id in got.revealed ==> id in got'.revealed
    ensures Allowed(c, got', i)
  {
    if exists round: nat :: round < 2 && i == HoleOf(c, ShuffleSession.SeatOf(c.order, c.local).value, round) {
    } else if exists k: nat :: k < |got.community| && i == JointDeck.BoardPos(|c.order|, k) {
      var k: nat :| k < |got.community| && i == JointDeck.BoardPos(|c.order|, k);
      assert k < |got'.community|;
    } else {
      var who: nat, round: nat :| who < |c.order| && round < 2 && c.order[who] in got.revealed
          && i == HoleOf(c, who, round);
      assert c.order[who] in got'.revealed;
    }
  }

  lemma FinishReveal(c: DealConfig, P: Policy, s: DealState)
    requires ValidDeal(c) && Fair(c, P) && DealInv(c, P, s) && s.run.kind == RevealPeels && JobComplete(s.work)
    ensures FinishJob(c, s).1.None? && GotOk(c, P, FinishJob(c, s).0, s.run, s.flags, s.run.jobIdx + 1)
  {
    var who := ShuffleSession.SeatOf(c.order, s.run.revealID).value;
    var round := s.run.jobIdx;
    assert s.work.job == Job(PublicJob, HoleOf(c, who, round), "", round);
    var got := FinishJob(c, s).0;
    assert P.value(s.work.job.cardIndex, s.work.current);
    forall i | i in got.decoded ensures Allowed(c, got, i) && P.value(i, got.decoded[i]) {
      if i in s.got.decoded {
        AllowedStays(c, s.got, got, i);
      } else {
        assert c.order[who] in got.revealed && i == HoleOf(c, who, round);
      }
    }
    forall id | id in got.revealed ensures RevealFits(c, P, got, id) {
      assert id in s.got.revealed ==> RevealFits(c, P, s.got, id);
    }
  }

  lemma FinishHoles(c: DealConfig, P: Policy, s: DealState)
    requires ValidDeal(c) && Fair(c, P) && DealInv(c, P, s) && s.run.kind == Holes && JobComplete(s.work)
    ensures FinishJob(c, s).1.None? ==> GotOk(c, P, FinishJob(c, s).0, s.run, s.flags, s.run.jobIdx + 1)
    ensures FinishJob(c, s).1.Some? ==> FinishJob(c, s).0 == s.got
  {
    var j, f := s.work.job, FinishJob(c, s);
    assert j == HoleJobAt(c, s.run.jobIdx);
    LocalNotEmpty(c);
    if j.recipient == c.local && f.1.None? {
      OwnHoleJob(c, s.run.jobIdx);
      forall i | i in f.0.decoded ensures Allowed(c, f.0, i) && P.value(i, f.0.decoded[i]) {
        if i in s.got.decoded {
          AllowedStays(c, s.got, f.0, i);
        } else {
          assert i == HoleOf(c, ShuffleSession.SeatOf(c.order, c.local).value, j.round);
        }
      }
      forall id | id in f.0.revealed ensures RevealFits(c, P, f.0, id) {
        assert RevealFits(c, P, s.got, id);
      }
    }
  }

  lemma LocalNotEmpty(c: DealConfig)
    requires ValidDeal(c)
    ensures c.local != ""
  {
    LocalIsNamed(c);
  }

  lemma OwnHoleJob(c: DealConfig, pos: nat)
    requires ValidDeal(c) && pos < 2 * |c.order| && HoleJobAt(c, pos).recipient == c.local
    ensures var j := HoleJobAt(c, pos);
            j.round < 2 && j.cardIndex == HoleOf(c, ShuffleSession.SeatOf(c.order, c.local).value, j.round)
  {
    SeatFound(c.order, HoleSeat(c.dealer, pos, |c.order|));
  }

  lemma FinishKeeps(c: DealConfig, P: Policy, s: DealState)
    requires ValidDeal(c) && Fair(c, P) && DealInv(c, P, s) && s.run.kind != Idle && JobComplete(s.work)
    ensures var f := FinishJob(c, s);
            if f.1.Some? then f.0 == s.got else GotOk(c, P, f.0, s.run, s.flags, s.run.jobIdx + 1)
  {
    match s.run.kind
    case Holes => FinishHoles(c, P, s);
    case StreetPeels => FinishStreet(c, P, s);
    case RevealPeels => FinishReveal(c, P, s);
    case Idle => assert false;
  }

  // ---------------------------------------------------------------------- running on

  predicate Roomy(c: DealConfig) {
    |c.cards| >= 2 * |c.order| + 8
  }

  lemma BehindKeeps(c: DealConfig, P: Policy, m: PeelMessage, r: DealReply)
    requires ValidDeal(c) && DealInv(c, P, r.s)
    ensures DealInv(c, P, Behind(m, r).s)
  {
  }

  /** The awaited peel, whoever made it. */
  lemma {:induction false} PeelKeeps(c: DealConfig, P: Policy, s: DealState, m: PeelMessage)
    requires ValidDeal(c) && Roomy(c) && Fair(c, P) && DealInv(c, P, s) && s.run.kind != Idle
    requires !JobComplete(s.work) && m.pd.player == NextPeeler(s.work) && P.ok(m) && Apply(c, s.work, m).1.None?
    ensures DealInv(c, P, AfterPeel(c, s.(work := Apply(c, s.work, m).0)).s)
    decreases JobsLeft(s.run), PeelsLeft(s.work), 0
  {
    ApplyExtends(c, P, s.work, m);
    AfterKeeps(c, P, s.(work := Apply(c, s.work, m).0));
  }

  lemma {:induction false} ExecuteKeeps(c: DealConfig, P: Policy, s: DealState)
    requires ValidDeal(c) && Roomy(c) && Fair(c, P) && DealInv(c, P, s) && s.run.kind != Idle
    ensures DealInv(c, P, ExecutePeel(c, s).s)
    decreases JobsLeft(s.run), PeelsLeft(s.work), 1
  {
    if !JobComplete(s.work) && NextPeeler(s.work) == c.local {
      var pd := PeelAs(c, s, c.local, c.key);
      if pd.Ok? {
        var m := PeelMessage(c.hand, pd.value);
        var a := Apply(c, s.work, m);
        if a.1.None? {
          PeelKeeps(c, P, s, m);
          BehindKeeps(c, P, m, AfterPeel(c, s.(work := a.0)));
        }
      }
    }
  }

  lemma {:induction false} AfterKeeps(c: DealConfig, P: Policy, s: DealState)
    requires ValidDeal(c) && Roomy(c) && Fair(c, P) && DealInv(c, P, s) && s.run.kind != Idle
    ensures DealInv(c, P, AfterPeel(c, s).s)
    decreases JobsLeft(s.run), PeelsLeft(s.work), 3
  {
    var d := DrainPeels(c, s.work);
    var s' := s.(work := d.0);
    DrainExtends(c, P, s.work);
    assert DealInv(c, P, s');
    if d.1.None? {
      if JobComplete(d.0) {
        FinishKeeps(c, P, s');
        var f := FinishJob(c, s');
        if f.1.None? {
          AdvanceKeeps(c, P, s'.(got := f.0));
        }
      } else if NextPeeler(d.0) == c.local {
        ExecuteKeeps(c, P, s');
      }
    }
  }

  /** From a finished job on: the next job is installed, or the sequence ends. */
  lemma {:induction false} AdvanceKeeps(c: DealConfig, P: Policy, s: DealState)
    requires ValidDeal(c) && Roomy(c) && Fair(c, P) && s.run.kind != Idle && RunFits(c, s.run, s.flags)
    requires GotOk(c, P, s.got, s.run, s.flags, s.run.jobIdx + 1) && s.run.jobIdx < |s.run.jobs|
    ensures DealInv(c, P, AdvanceSequence(c, s).s)
    decreases JobsLeft(s.run), PeelsLeft(s.work), 2
  {
    var next := s.(run := s.run.(jobIdx := s.run.jobIdx + 1));
    if next.run.jobIdx >= |next.run.jobs| {
      EndKeeps(c, P, next);
    } else {
      var w := NextInstalled(c, P, next);
      AdvanceIs(c, s, next, w);
      StartKeeps(c, P, next.(work := w));
    }
  }

  lemma AdvanceIs(c: DealConfig, s: DealState, next: DealState, w: Work)
    requires ValidDeal(c) && next == s.(run := s.run.(jobIdx := s.run.jobIdx + 1))
    requires next.run.jobIdx < |next.run.jobs| && InstallJob(c, next.run.jobs[next.run.jobIdx]) == Ok(w)
    ensures AdvanceSequence(c, s) == StartJob(c, next.(work := w))
  {
  }

  /** The next job of a sequence can be installed, and the state is then in order. */
  lemma NextInstalled(c: DealConfig, P: Policy, s: DealState) returns (w: Work)
    requires ValidDeal(c) && Roomy(c) && Fair(c, P) && s.run.kind != Idle && RunFits(c, s.run, s.flags)
    requires s.run.jobIdx < |s.run.jobs| && GotOk(c, P, s.got, s.run, s.flags, s.run.jobIdx)
    ensures InstallJob(c, s.run.jobs[s.run.jobIdx]) == Ok(w) && w.peelers != []
    ensures DealInv(c, P, s.(work := w))
  {
    var j := s.run.jobs[s.run.jobIdx];
    JobsFit(c, s.run, s.flags);
    InstallStarts(c, P, j);
    w := InstallJob(c, j).value;
  }

  lemma EndKeeps(c: DealConfig, P: Policy, s: DealState)
    requires ValidDeal(c) && s.run.kind != Idle && RunFits(c, s.run, s.flags) && s.run.jobIdx == |s.run.jobs|
    requires GotOk(c, P, s.got, s.run, s.flags, s.run.jobIdx)
    ensures DealInv(c, P, EndSequence(s))
  {
    if s.run.kind == StreetPeels {
      StreetJobAt(c, s.run, s.flags, 0);
    }
    assert s.run.kind == RevealPeels ==> s.run.jobIdx == 2;
    forall i | i in s.got.decoded ensures Allowed(c, s.got, i) {
    }
    forall id | id in s.got.revealed ensures RevealFits(c, P, s.got, id) {
    }
  }

  lemma {:induction false} StartKeeps(c: DealConfig, P: Policy, s: DealState)
    requires ValidDeal(c) && Roomy(c) && Fair(c, P) && DealInv(c, P, s) && s.run.kind != Idle && s.work.peelers != []
    ensures DealInv(c, P, StartJob(c, s).s)
    decreases JobsLeft(s.run), PeelsLeft(s.work), 2
  {
    if s.work.peelers[0] == c.local {
      ExecuteKeeps(c, P, s);
    }
  }

  // --------------------------------------------------------------------------- calls

  lemma SequenceKeeps(c: DealConfig, P: Policy, s: DealState, run: Run)
    requires ValidDeal(c) && Roomy(c) && Fair(c, P) && run.kind != Idle && run.jobIdx == 0 && RunFits(c, run, s.flags)
    requires GotOk(c, P, s.got, run, s.flags, 0)
    ensures DealInv(c, P, StartSequence(c, s, run).s)
  {
    JobsFit(c, run, s.flags);
    InstallStarts(c, P, run.jobs[0]);
    StartKeeps(c, P, s.(run := run, work := InstallJob(c, run.jobs[0]).value));
  }

  lemma GotIdle(c: DealConfig, P: Policy, s: DealState, run: Run, f: Flags)
    requires ValidDeal(c) && DealInv(c, P, s) && s.run.kind == Idle
    requires f.lastStreet == s.flags.lastStreet && f.holesDone == s.flags.holesDone
    requires run.kind != Idle && (run.kind == RevealPeels ==> run.revealID !in s.got.revealed)
    ensures GotOk(c, P, s.got, run, f, 0)
  {
    forall i | i in s.got.decoded ensures Allowed(c, s.got, i) {
    }
    forall id | id in s.got.revealed ensures RevealFits(c, P, s.got, id) {
    }
  }

  lemma BeginHolesKeeps(c: DealConfig, P: Policy, s: DealState)
    requires ValidDeal(c) && Roomy(c) && Fair(c, P) && DealInv(c, P, s)
    ensures DealInv(c, P, BeginHoles(c, s).s)
  {
    if s.run.kind == Idle && !s.flags.holesStarted && !s.flags.holesDone {
      var run, f := Run(Holes, HoleJobs(c), 0, 0, ""), s.flags.(holesStarted := true);
      GotIdle(c, P, s, run, f);
      SequenceKeeps(c, P, s.(flags := f), run);
    }
  }

  lemma BeginStreetKeeps(c: DealConfig, P: Policy, s: DealState, street: nat)
    requires ValidDeal(c) && Roomy(c) && Fair(c, P) && DealInv(c, P, s)
    ensures DealInv(c, P, BeginStreet(c, s, street).s)
  {
    if s.run.kind == Idle && s.flags.holesDone && street == s.flags.lastStreet + 1 && street <= 3 {
      var run, f := Run(StreetPeels, StreetJobs(|c.order|, street), 0, street, ""), s.flags.(streetDone := false);
      GotIdle(c, P, s, run, f);
      SequenceKeeps(c, P, s.(flags := f), run);
    }
  }

  lemma BeginRevealKeeps(c: DealConfig, P: Policy, s: DealState, id: string)
    requires ValidDeal(c) && Roomy(c) && Fair(c, P) && DealInv(c, P, s)
    ensures DealInv(c, P, BeginReveal(c, s, id).s)
  {
    var who := ShuffleSession.SeatOf(c.order, id);
    if s.run.kind == Idle && s.flags.holesDone && who.Some? && !(id in s.got.revealed && FullPair(s.got.revealed[id])) {
      var run, f := Run(RevealPeels, RevealJobs(c, who.value), 0, 0, id), s.flags.(revealDone := false);
      GotIdle(c, P, s, run, f);
      SequenceKeeps(c, P, s.(flags := f), run);
    }
  }

  lemma HandleKeeps(c: DealConfig, P: Policy, s: DealState, m: PeelMessage)
    requires ValidDeal(c) && Roomy(c) && Fair(c, P) && DealInv(c, P, s) && P.ok(m)
    ensures DealInv(c, P, HandlePeel(c, s, m).s)
  {
    var seat := ShuffleSession.SeatOf(s.work.peelers, m.pd.player);
    if Working(s) && PeelRejection(c, s.work, m).None? && seat.Some? && m.pd.player != c.local {
      if seat.value == s.work.nextPeel {
        if Apply(c, s.work, m).1.None? {
          PeelKeeps(c, P, s, m);
        }
      } else if seat.value > s.work.nextPeel && seat.value !in s.work.pending {
        AddPending(c, P, s.work, seat.value, m);
      }
    }
  }

  lemma DelegateKeeps(c: DealConfig, P: Policy, s: DealState, id: string, key: Key)
    requires ValidDeal(c) && Roomy(c) && Fair(c, P) && DealInv(c, P, s) && key.p == c.p
    requires PeelAs(c, s, id, key).Ok? ==> P.ok(PeelMessage(c.hand, PeelAs(c, s, id, key).value))
    ensures DealInv(c, P, PeelOnBehalf(c, s, id, key).s)
  {
    if id != "" && id != c.local && Working(s) && ExpectedPeeler(s) == id && key.d.Some? {
      var pd := PeelAs(c, s, id, key);
      if pd.Ok? {
        var m := PeelMessage(c.hand, pd.value);
        var a := Apply(c, s.work, m);
        if a.1.None? {
          PeelKeeps(c, P, s, m);
          BehindKeeps(c, P, m, AfterPeel(c, s.(work := a.0)));
        }
      }
    }
  }

  /** The messages handed in, and those made with a key on behalf of others, satisfy the policy. */
  predicate CallOk(c: DealConfig, P: Policy, s: DealState, call: Call)
    requires ValidDeal(c)
  {
    match call
    case CallPeel(m) => P.ok(m)
    case CallDelegate(id, key) =>
      key.p == c.p && PeelAs(c, s, id, key).Ok? ==> P.ok(PeelMessage(c.hand, PeelAs(c, s, id, key).value))
    case _ => true
  }

  lemma CallKeeps(c: DealConfig, P: Policy, s: DealState, call: Call)
    requires ValidDeal(c) && Roomy(c) && Fair(c, P) && DealInv(c, P, s) && CallOk(c, P, s, call)
    ensures DealInv(c, P, DoCall(c, s, call))
  {
    match call
    case CallHoles => BeginHolesKeeps(c, P, s);
    case CallStreet(street) => BeginStreetKeeps(c, P, s, street);
    case CallReveal(id) => BeginRevealKeeps(c, P, s, id);
    case CallPeel(m) => HandleKeeps(c, P, s, m);
    case CallDelegate(id, key) =>
      if key.p == c.p {
        DelegateKeeps(c, P, s, id, key);
      }
    case CallCollect =>
  }

  /** The state after a run of calls on a new session. */
  function RunCalls(c: DealConfig, calls: seq<Call>): DealState
    requires ValidDeal(c)
  {
    if calls == [] then NEW_DEAL else DoCall(c, RunCalls(c, calls[..|calls| - 1]), calls[|calls| - 1])
  }

  predicate CallsOk(c: DealConfig, P: Policy, calls: seq<Call>)
    requires ValidDeal(c)
  {
    calls != [] ==>
      && CallsOk(c, P, calls[..|calls| - 1])
      && CallOk(c, P, RunCalls(c, calls[..|calls| - 1]), calls[|calls| - 1])
  }

  lemma {:induction false} RunKeeps(c: DealConfig, P: Policy, calls: seq<Call>)
    requires ValidDeal(c) && Roomy(c) && Fair(c, P) && CallsOk(c, P, calls)
    ensures DealInv(c, P, RunCalls(c, calls))
  {
    if calls == [] {
      assert GotOk(c, P, NEW_DEAL.got, NEW_DEAL.run, NEW_DEAL.flags, 0);
    } else {
      RunKeeps(c, P, calls[..|calls| - 1]);
      CallKeeps(c, P, RunCalls(c, calls[..|calls| - 1]), calls[|calls| - 1]);
    }
  }

  // ---------------------------------------------------- theorems, whatever is received

  const ANYTHING := Policy((m: PeelMessage) => true, (i: int, x: int) => true)

  lemma {:induction false} AnythingGoes(c: DealConfig, calls: seq<Call>)
    requires ValidDeal(c)
    ensures Fair(c, ANYTHING) && CallsOk(c, ANYTHING, calls)
  {
    if calls != [] {
      AnythingGoes(c, calls[..|calls| - 1]);
    }
  }

  /**
   * In every state of every run, however its messages were made: exactly the peelers before
   * the awaited one have been applied, each proved and each on the result of the last, and
   * what is left to peel is the result of the last.
   */
  lemma AppliedExactly(c: DealConfig, calls: seq<Call>)
    requires ValidDeal(c) && Roomy(c) && Working(RunCalls(c, calls))
    ensures var w := RunCalls(c, calls).work;
            && 0 <= w.job.cardIndex < |c.cards| && Deal.PeelOrder(c.order, w.job.recipient) == Ok(w.peelers)
            && (forall i: nat :: i in w.applied <==> i < w.nextPeel) && w.nextPeel <= |w.peelers|
            && (forall i: nat :: i < w.nextPeel ==> Link(c, ANYTHING, w, i))
            && w.current == Head(c, w, w.nextPeel)
  {
    AnythingGoes(c, calls);
    RunKeeps(c, ANYTHING, calls);
  }

  /** The board holds 0, 3, 4 or 5 values after no street, the flop, the turn, the river. */
  lemma BoardFollowsStreets(c: DealConfig, calls: seq<Call>)
    requires ValidDeal(c) && Roomy(c)
    ensures var s := RunCalls(c, calls);
            && s.flags.lastStreet <= 3
            && (s.run.kind != StreetPeels ==> |s.got.community| == BoardCount(s.flags.lastStreet))
            && (s.run.kind == StreetPeels ==>
                  s.run.street == s.flags.lastStreet + 1
                  && BoardCount(s.flags.lastStreet) <= |s.got.community| < BoardCount(s.run.street))
  {
    AnythingGoes(c, calls);
    RunKeeps(c, ANYTHING, calls);
    var s := RunCalls(c, calls);
    if s.run.kind == StreetPeels {
      StreetJobAt(c, s.run, s.flags, 0);
    }
  }

  // ------------------------------------------------------------ streets one by one

  /** Running on stays in the sequence in progress, or ends it and marks it as done; only its own hand is revealed. */
  predicate FlagsMove(s: DealState, r: DealState) {
    && (|| (r.run.kind == s.run.kind && r.run.street == s.run.street && r.run.revealID == s.run.revealID
        && r.flags == s.flags)
        || (r.run.kind == Idle && r.run.revealID == s.run.revealID && r.flags == Marked(s.run, s.flags)))
    && forall id :: id in r.got.revealed ==> id in s.got.revealed || (s.run.kind == RevealPeels && id == s.run.revealID)
  }

  lemma {:induction false} ExecuteMoves(c: DealConfig, s: DealState)
    requires c.p > 2 && c.key.p == c.p
    ensures FlagsMove(s, ExecutePeel(c, s).s)
    decreases JobsLeft(s.run), PeelsLeft(s.work), 0
  {
    if !JobComplete(s.work) && NextPeeler(s.work) == c.local {
      var pd := PeelAs(c, s, c.local, c.key);
      if pd.Ok? {
        var a := Apply(c, s.work, PeelMessage(c.hand, pd.value));
        if a.1.None? {
          AfterMoves(c, s.(work := a.0));
        }
      }
    }
  }

  lemma {:induction false} AfterMoves(c: DealConfig, s: DealState)
    requires c.p > 2 && c.key.p == c.p
    ensures FlagsMove(s, AfterPeel(c, s).s)
    decreases JobsLeft(s.run), PeelsLeft(s.work), 2
  {
    var d := DrainPeels(c, s.work);
    var s' := s.(work := d.0);
    if d.1.None? {
      if JobComplete(d.0) {
        if FinishJob(c, s').1.None? {
          AdvanceMoves(c, s'.(got := FinishJob(c, s').0));
        }
      } else if NextPeeler(d.0) == c.local {
        ExecuteMoves(c, s');
      }
    }
  }

  lemma {:induction false} AdvanceMoves(c: DealConfig, s: DealState)
    requires c.p > 2 && c.key.p == c.p
    ensures FlagsMove(s, AdvanceSequence(c, s).s)
    decreases JobsLeft(s.run), PeelsLeft(s.work), 1
  {
    var next := s.(run := s.run.(jobIdx := s.run.jobIdx + 1));
    if next.run.jobIdx < |next.run.jobs| {
      var w := InstallJob(c, next.run.jobs[next.run.jobIdx]);
      if w.Ok? && w.value.peelers[0] == c.local {
        ExecuteMoves(c, next.(work := w.value));
      }
    }
  }

  lemma SequenceMoves(c: DealConfig, s: DealState, run: Run)
    requires c.p > 2 && c.key.p == c.p
    requires run.jobs != [] && InstallJob(c, run.jobs[0]).Ok?
    ensures FlagsMove(s.(run := run), StartSequence(c, s, run).s)
  {
    var w := InstallJob(c, run.jobs[0]).value;
    if w.peelers[0] == c.local {
      ExecuteMoves(c, s.(run := run, work := w));
    }
  }

  lemma StartMoves(c: DealConfig, s: DealState, run: Run)
    requires ValidDeal(c) && Roomy(c) && run.kind != Idle && RunFits(c, run, s.flags)
    ensures FlagsMove(s.(run := run), StartSequence(c, s, run).s)
  {
    JobsFit(c, run, s.flags);
    InstallStarts(c, ANYTHING, run.jobs[0]);
    SequenceMoves(c, s, run);
  }

  /** The last street stays, or moves on by one: to the street under way, or to the one that the call begins. */
  predicate OneStreetOn(s: DealState, call: Call, r: DealState) {
    || r.flags.lastStreet == s.flags.lastStreet
    || (&& r.flags.lastStreet == s.flags.lastStreet + 1
        && (call == CallStreet(r.flags.lastStreet)
            || (s.run.kind == StreetPeels && s.run.street == r.flags.lastStreet)))
  }

  lemma HolesMove(c: DealConfig, s: DealState)
    requires ValidDeal(c) && Roomy(c)
    ensures OneStreetOn(s, CallHoles, BeginHoles(c, s).s)
  {
    if s.run.kind == Idle && !s.flags.holesStarted && !s.flags.holesDone {
      StartMoves(c, s.(flags := s.flags.(holesStarted := true)), Run(Holes, HoleJobs(c), 0, 0, ""));
    }
  }

  lemma RevealMoves(c: DealConfig, s: DealState, id: string)
    requires ValidDeal(c) && Roomy(c)
    ensures OneStreetOn(s, CallReveal(id), BeginReveal(c, s, id).s)
    ensures var who := ShuffleSession.SeatOf(c.order, id);
            s.run.kind == Idle && s.flags.holesDone && who.Some? && id !in s.got.revealed ==>
              var f := s.flags.(revealDone := false);
              FlagsMove(s.(flags := f, run := Run(RevealPeels, RevealJobs(c, who.value), 0, 0, id)),
                        BeginReveal(c, s, id).s)
  {
    var who := ShuffleSession.SeatOf(c.order, id);
    if s.run.kind == Idle && s.flags.holesDone && who.Some? && !(id in s.got.revealed && FullPair(s.got.revealed[id])) {
      StartMoves(c, s.(flags := s.flags.(revealDone := false)), Run(RevealPeels, RevealJobs(c, who.value), 0, 0, id));
    }
  }

  /** The state of a street sequence that has just been asked for: refused, in progress, or done at once. */
  lemma StreetMoves(c: DealConfig, s: DealState, street: nat)
    requires ValidDeal(c) && Roomy(c)
    ensures OneStreetOn(s, CallStreet(street), BeginStreet(c, s, street).s)
    ensures s.run.kind == Idle && s.flags.holesDone && street == s.flags.lastStreet + 1 <= 3 ==>
              var f := s.flags.(streetDone := false);
              FlagsMove(s.(flags := f, run := Run(StreetPeels, StreetJobs(|c.order|, street), 0, street, "")),
                  BeginStreet(c, s, street).s)
  {
    if s.run.kind == Idle && s.flags.holesDone && street == s.flags.lastStreet + 1 && street <= 3 {
      StartMoves(c, s.(flags := s.flags.(streetDone := false)),
          Run(StreetPeels, StreetJobs(|c.order|, street), 0, street, ""));
    }
  }

  lemma PeelMoves(c: DealConfig, s: DealState, m: PeelMessage)
    requires ValidDeal(c) && RunFits(c, s.run, s.flags)
    ensures OneStreetOn(s, CallPeel(m), AfterPeel(c, s.(work := Apply(c, s.work, m).0)).s)
  {
    AfterMoves(c, s.(work := Apply(c, s.work, m).0));
  }

  lemma DelegateMoves(c: DealConfig, s: DealState, id: string, key: Key)
    requires ValidDeal(c) && RunFits(c, s.run, s.flags) && key.p == c.p
    ensures OneStreetOn(s, CallDelegate(id, key), PeelOnBehalf(c, s, id, key).s)
  {
    var pd := PeelAs(c, s, id, key);
    if pd.Ok? {
      PeelMoves(c, s, PeelMessage(c.hand, pd.value));
    }
  }

  lemma HandleMoves(c: DealConfig, s: DealState, m: PeelMessage)
    requires ValidDeal(c) && RunFits(c, s.run, s.flags)
    ensures OneStreetOn(s, CallPeel(m), HandlePeel(c, s, m).s)
  {
    PeelMoves(c, s, m);
  }

  lemma CallMoves(c: DealConfig, s: DealState, call: Call, r: DealState)
    requires ValidDeal(c) && Roomy(c) && RunFits(c, s.run, s.flags) && r == DoCall(c, s, call)
    ensures OneStreetOn(s, call, r)
  {
    match call
    case CallHoles => HolesMove(c, s);
    case CallStreet(street) => StreetMoves(c, s, street);
    case CallReveal(id) => RevealMoves(c, s, id);
    case CallPeel(m) => HandleMoves(c, s, m);
    case CallDelegate(id, key) =>
      if key.p == c.p {
        DelegateMoves(c, s, id, key);
      }
    case CallCollect =>
  }

  /**
   * Streets complete one by one: only the street under way, or just begun, can become the
   * last one, and it is the next.
   */
  lemma StreetsInOrder(c: DealConfig, calls: seq<Call>, call: Call)
    requires ValidDeal(c) && Roomy(c)
    ensures OneStreetOn(RunCalls(c, calls), call, DoCall(c, RunCalls(c, calls), call))
  {
    AnythingGoes(c, calls);
    RunKeeps(c, ANYTHING, calls);
    CallMoves(c, RunCalls(c, calls), call, DoCall(c, RunCalls(c, calls), call));
  }

  // ------------------------------------------------------- what was begun, and hole isolation

  /** Everything under way or done in s was begun by one of the calls. */
  ghost predicate BegunBy(calls: seq<Call>, s: DealState) {
    && (forall id :: id in s.got.revealed ==> CallReveal(id) in calls)
    && (s.run.kind == RevealPeels ==> CallReveal(s.run.revealID) in calls)
    && (forall k :: 1 <= k <= s.flags.lastStreet ==> CallStreet(k) in calls)
    && (s.run.kind == StreetPeels ==> CallStreet(s.run.street) in calls)
    && (s.flags.holesStarted || s.flags.holesDone || s.run.kind != Idle || s.got.decoded != map[] ==>
        CallHoles in calls)
  }

  lemma MoveKeepsBegun(c: DealConfig, calls: seq<Call>, s: DealState, r: DealState)
    requires ValidDeal(c) && BegunBy(calls, s) && RunFits(c, s.run, s.flags) && FlagsMove(s, r) && s.run.kind != Idle
    ensures BegunBy(calls, r)
  {
  }

  lemma PeelKeepsBegun(c: DealConfig, calls: seq<Call>, s: DealState, m: PeelMessage)
    requires ValidDeal(c) && BegunBy(calls, s) && RunFits(c, s.run, s.flags)
    ensures BegunBy(calls, HandlePeel(c, s, m).s)
  {
    if Working(s) {
      AfterMoves(c, s.(work := Apply(c, s.work, m).0));
      MoveKeepsBegun(c, calls, s, HandlePeel(c, s, m).s);
    }
  }

  lemma DelegateKeepsBegun(c: DealConfig, calls: seq<Call>, s: DealState, id: string, key: Key)
    requires ValidDeal(c) && BegunBy(calls, s) && RunFits(c, s.run, s.flags) && key.p == c.p
    ensures BegunBy(calls, PeelOnBehalf(c, s, id, key).s)
  {
    var pd := PeelAs(c, s, id, key);
    if Working(s) && pd.Ok? {
      AfterMoves(c, s.(work := Apply(c, s.work, PeelMessage(c.hand, pd.value)).0));
      MoveKeepsBegun(c, calls, s, PeelOnBehalf(c, s, id, key).s);
    }
  }

  lemma StartKeepsBegun(c: DealConfig, calls: seq<Call>, s: DealState, run: Run)
    requires ValidDeal(c) && Roomy(c) && run.kind != Idle && RunFits(c, run, s.flags) && BegunBy(calls, s.(run := run))
    ensures BegunBy(calls, StartSequence(c, s, run).s)
  {
    StartMoves(c, s, run);
    MoveKeepsBegun(c, calls, s.(run := run), StartSequence(c, s, run).s);
  }

  lemma HolesBegun(c: DealConfig, calls: seq<Call>, s: DealState)
    requires ValidDeal(c) && Roomy(c) && BegunBy(calls, s) && CallHoles in calls
    ensures BegunBy(calls, BeginHoles(c, s).s)
  {
    if s.run.kind == Idle && !s.flags.holesStarted && !s.flags.holesDone {
      StartKeepsBegun(c, calls, s.(flags := s.flags.(holesStarted := true)), Run(Holes, HoleJobs(c), 0, 0, ""));
    }
  }

  lemma StreetBegun(c: DealConfig, calls: seq<Call>, s: DealState, street: nat)
    requires ValidDeal(c) && Roomy(c) && BegunBy(calls, s) && CallStreet(street) in calls
    ensures BegunBy(calls, BeginStreet(c, s, street).s)
  {
    if s.run.kind == Idle && s.flags.holesDone && street == s.flags.lastStreet + 1 && street <= 3 {
      StartKeepsBegun(c, calls, s.(flags := s.flags.(streetDone := false)),
                      Run(StreetPeels, StreetJobs(|c.order|, street), 0, street, ""));
    }
  }

  lemma RevealBegun(c: DealConfig, calls: seq<Call>, s: DealState, id: string)
    requires ValidDeal(c) && Roomy(c) && BegunBy(calls, s) && CallReveal(id) in calls
    ensures BegunBy(calls, BeginReveal(c, s, id).s)
  {
    var who := ShuffleSession.SeatOf(c.order, id);
    if BeginReveal(c, s, id).s != s && who.Some? {
      StartKeepsBegun(c, calls, s.(flags := s.flags.(revealDone := false)),
          Run(RevealPeels, RevealJobs(c, who.value), 0, 0, id));
    }
  }

  lemma CallKeepsBegun(c: DealConfig, calls: seq<Call>, s: DealState, call: Call)
    requires ValidDeal(c) && Roomy(c) && RunFits(c, s.run, s.flags) && BegunBy(calls, s) && call in calls
    ensures BegunBy(calls, DoCall(c, s, call))
  {
    match call
    case CallHoles => HolesBegun(c, calls, s);
    case CallStreet(street) => StreetBegun(c, calls, s, street);
    case CallReveal(id) => RevealBegun(c, calls, s, id);
    case CallPeel(m) => PeelKeepsBegun(c, calls, s, m);
    case CallDelegate(id, key) =>
      if key.p == c.p {
        DelegateKeepsBegun(c, calls, s, id, key);
      }
    case CallCollect =>
  }

  lemma MoreCalls(calls: seq<Call>, call: Call, s: DealState)
    requires BegunBy(calls, s)
    ensures BegunBy(calls + [call], s)
  {
  }

  /**
   * In every state of every run, whatever is received: no sequence runs, and nothing is
   * opened, that no call has begun.
   */
  lemma {:induction false} NothingUnbegun(c: DealConfig, calls: seq<Call>)
    requires ValidDeal(c) && Roomy(c)
    ensures BegunBy(calls, RunCalls(c, calls))
  {
    if calls != [] {
      var before, last := calls[..|calls| - 1], calls[|calls| - 1];
      NothingUnbegun(c, before);
      AnythingGoes(c, before);
      RunKeeps(c, ANYTHING, before);
      MoreCalls(before, last, RunCalls(c, before));
      assert before + [last] == calls;
      CallKeepsBegun(c, calls, RunCalls(c, before), last);
    }
  }

  /** The street that deals the k-th board card. */
  function StreetOf(k: nat): nat {
    if k < 3 then 1 else if k == 3 then 2 else 3
  }

  /**
   * Position i is an own hole card, a board card of a begun street, or a hole card of a hand
   * whose reveal was begun.
   */
  ghost predicate MayBeOpen(c: DealConfig, calls: seq<Call>, i: int)
    requires ValidDeal(c)
  {
    || (exists round: nat :: round < 2 && i == HoleOf(c, ShuffleSession.SeatOf(c.order, c.local).value, round))
    || (exists k: nat :: k < 5 && i == JointDeck.BoardPos(|c.order|, k) && CallStreet(StreetOf(k)) in calls)
    || (exists who: nat, round: nat ::
        who < |c.order| && round < 2 && i == HoleOf(c, who, round) && CallReveal(c.order[who]) in calls)
  }

  /**
   * Hole isolation over all runs, whatever messages arrive: a position is opened here only
   * after the deal was begun, and only if it is one of our own hole cards, belongs to a
   * street that was begun, or to a hand whose reveal was begun.
   */
  lemma HoleIsolation(c: DealConfig, calls: seq<Call>, i: int)
    requires ValidDeal(c) && Roomy(c) && i in RunCalls(c, calls).got.decoded
    ensures CallHoles in calls && MayBeOpen(c, calls, i)
  {
    NothingUnbegun(c, calls);
    AnythingGoes(c, calls);
    RunKeeps(c, ANYTHING, calls);
    BoardFollowsStreets(c, calls);
    OpenWasBegun(c, calls, RunCalls(c, calls), i);
  }

  lemma OpenWasBegun(c: DealConfig, calls: seq<Call>, s: DealState, i: int)
    requires ValidDeal(c) && BegunBy(calls, s) && Allowed(c, s.got, i) && s.flags.lastStreet <= 3
    requires s.run.kind != StreetPeels ==> |s.got.community| == BoardCount(s.flags.lastStreet)
    requires s.run.kind == StreetPeels ==>
              s.run.street == s.flags.lastStreet + 1 && |s.got.community| < BoardCount(s.run.street)
    ensures MayBeOpen(c, calls, i)
  {
    if k: nat :| k < |s.got.community| && i == JointDeck.BoardPos(|c.order|, k) {
      var street := StreetOf(k);
      assert street <= s.flags.lastStreet || (s.run.kind == StreetPeels && street == s.run.street);
      assert k < 5 && CallStreet(street) in calls;
    } else {
      assert forall id :: id in s.got.revealed ==> CallReveal(id) in calls;
    }
  }

  // --------------------------------------------- theorems, when peels are true decryptions

  // The key of every seat.
  type Keys = string -> Key

  function KeysOf(k: Keys, ids: seq<string>): (r: seq<Key>)
    ensures |r| == |ids|
  {
    seq(|ids|, i requires 0 <= i < |ids| => k(ids[i]))
  }

  /** Every seat has a key pair, our own is in the configuration, and every position has a layer of each. */
  ghost predicate HonestCards(c: DealConfig, k: Keys, plain: int -> int)
    requires ValidDeal(c)
  {
    && (forall i :: 0 <= i < |c.order| ==> KeyPair(k(c.order[i])) && k(c.order[i]).p == c.p) && c.key == k(c.local)
    && forall i {:trigger plain(i)} :: 0 <= i < |c.cards| ==>
         InRange(plain(i), c.p) && c.cards[i] == Layered(plain(i), KeysOf(k, c.order), c.p)
  }

  /** The result is the decryption of the ciphertext under the peeler's key. */
  predicate Truthful(k: Keys, p: int, m: PeelMessage) {
    p > 0 && k(m.pd.player).d.Some? && m.pd.result == ModPow(m.pd.ciphertext, k(m.pd.player).d.value, p)
  }

  ghost function TRUTH(c: DealConfig, k: Keys, plain: int -> int): Policy {
    Policy((m: PeelMessage) => Truthful(k, c.p, m), (i: int, x: int) => x == plain(i))
  }

  lemma RingOf(c: DealConfig, k: Keys, plain: int -> int, ids: seq<string>)
    requires ValidDeal(c) && HonestCards(c, k, plain) && forall x :: x in ids ==> x in c.order
    ensures KeyRing(KeysOf(k, ids), c.p)
  {
    forall i | 0 <= i < |ids| ensures KeyPair(KeysOf(k, ids)[i]) && KeysOf(k, ids)[i].p == c.p {
      assert ids[i] in c.order;
      var j :| 0 <= j < |c.order| && c.order[j] == ids[i];
    }
  }

  lemma {:induction false} PeeledSnoc(x: int, keys: seq<Key>, last: Key, p: int)
    requires p > 0 && IsPrivate(last) && forall i :: 0 <= i < |keys| ==> IsPrivate(keys[i])
    ensures Peeled(x, keys + [last], p) == ModPow(Peeled(x, keys, p), last.d.value, p)
    decreases |keys|
  {
    if keys == [] {
      assert [] + [last] == [last];
      assert Peeled(x, [last], p) == Peeled(ModPow(x, last.d.value, p), [last][1..], p);
    } else {
      assert (keys + [last])[1..] == keys[1..] + [last];
      PeeledSnoc(ModPow(x, keys[0].d.value, p), keys[1..], last, p);
    }
  }

  /** What is left after i true peels is the position's ciphertext decrypted by the first i peelers. */
  lemma {:induction false} ChainPeels(c: DealConfig, k: Keys, plain: int -> int, w: Work, i: nat)
    requires ValidDeal(c) && HonestCards(c, k, plain) && WorkOk(c, TRUTH(c, k, plain), w) && i <= w.nextPeel
    ensures KeyRing(KeysOf(k, w.peelers[..i]), c.p)
    ensures Head(c, w, i) == Peeled(c.cards[w.job.cardIndex], KeysOf(k, w.peelers[..i]), c.p)
  {
    PeelersDistinct(c, TRUTH(c, k, plain), w);
    RingOf(c, k, plain, w.peelers[..i]);
    if i > 0 {
      ChainPeels(c, k, plain, w, i - 1);
      assert Link(c, TRUTH(c, k, plain), w, i - 1);
      RingOf(c, k, plain, [w.peelers[i - 1]]);
      assert KeysOf(k, [w.peelers[i - 1]])[0] == k(w.peelers[i - 1]);
      PeeledSnoc(c.cards[w.job.cardIndex], KeysOf(k, w.peelers[..i - 1]), k(w.peelers[i - 1]), c.p);
      assert KeysOf(k, w.peelers[..i]) == KeysOf(k, w.peelers[..i - 1]) + [k(w.peelers[i - 1])];
    }
  }

  lemma KeysOfHead(k: Keys, seats: seq<string>)
    requires seats != []
    ensures KeysOf(k, seats) == [k(seats[0])] + KeysOf(k, seats[1..])
  {
  }

  lemma {:induction false} WithoutMultiset(k: Keys, seats: seq<string>, id: string)
    requires Distinct(seats) && id in seats
    ensures multiset(KeysOf(k, seats)) == multiset(KeysOf(k, Deal.WithoutSeat(seats, id)) + [k(id)])
  {
    assert forall i :: 0 <= i < |seats[1..]| ==> seats[1..][i] == seats[i + 1];
    KeysOfHead(k, seats);
    if seats[0] == id {
      NothingWithout(seats[1..], id);
      assert Deal.WithoutSeat(seats, id) == seats[1..];
    } else {
      WithoutMultiset(k, seats[1..], id);
      var rest := Deal.WithoutSeat(seats[1..], id);
      assert Deal.WithoutSeat(seats, id) == [seats[0]] + rest;
      KeysOfHead(k, [seats[0]] + rest);
      assert ([seats[0]] + rest)[1..] == rest;
    }
  }

  lemma OwnPeelTruthful(c: DealConfig, k: Keys, plain: int -> int, s: DealState)
    requires ValidDeal(c) && HonestCards(c, k, plain) && PeelAs(c, s, c.local, c.key).Ok?
    ensures Truthful(k, c.p, PeelMessage(c.hand, PeelAs(c, s, c.local, c.key).value))
  {
  }

  lemma PublicOpens(c: DealConfig, k: Keys, plain: int -> int, w: Work)
    requires ValidDeal(c) && HonestCards(c, k, plain) && WorkOk(c, TRUTH(c, k, plain), w) && JobComplete(w)
    requires w.job.recipient == ""
    ensures w.current == plain(w.job.cardIndex)
  {
    ChainPeels(c, k, plain, w, w.nextPeel);
    assert w.peelers[..w.nextPeel] == c.order;
    RingOf(c, k, plain, c.order);
    PeelAnyOrder(plain(w.job.cardIndex), KeysOf(k, c.order), KeysOf(k, c.order), c.p);
  }

  lemma HoleOpens(c: DealConfig, k: Keys, plain: int -> int, w: Work)
    requires ValidDeal(c) && HonestCards(c, k, plain) && WorkOk(c, TRUTH(c, k, plain), w) && JobComplete(w)
    requires w.job.recipient == c.local
    requires Decrypt(c.key, w.current).Ok?
    ensures Decrypt(c.key, w.current).value == plain(w.job.cardIndex)
  {
    var others := Deal.WithoutSeat(c.order, c.local);
    LocalIsNamed(c);
    ChainPeels(c, k, plain, w, w.nextPeel);
    assert w.peelers[..w.nextPeel] == others;
    var x := c.cards[w.job.cardIndex];
    RingOf(c, k, plain, c.order);
    RingOf(c, k, plain, [c.local]);
    assert KeysOf(k, [c.local])[0] == c.key;
    PeeledSnoc(x, KeysOf(k, others), c.key, c.p);
    WithoutMultiset(k, c.order, c.local);
    PeelAnyOrder(plain(w.job.cardIndex), KeysOf(k, c.order), KeysOf(k, others) + [c.key], c.p);
  }

  lemma TruthIsFair(c: DealConfig, k: Keys, plain: int -> int)
    requires ValidDeal(c) && HonestCards(c, k, plain)
    ensures Fair(c, TRUTH(c, k, plain))
  {
    var P := TRUTH(c, k, plain);
    forall s: DealState | PeelAs(c, s, c.local, c.key).Ok?
        ensures P.ok(PeelMessage(c.hand, PeelAs(c, s, c.local, c.key).value)) {
      OwnPeelTruthful(c, k, plain, s);
    }
    forall w: Work | WorkOk(c, P, w) && JobComplete(w) && w.job.kind == PublicJob && w.job.recipient == ""
      ensures P.value(w.job.cardIndex, w.current)
    {
      PublicOpens(c, k, plain, w);
    }
    forall w: Work | WorkOk(c, P, w) && JobComplete(w) && w.job.recipient == c.local && Decrypt(c.key, w.current).Ok?
      ensures P.value(w.job.cardIndex, Decrypt(c.key, w.current).value)
    {
      HoleOpens(c, k, plain, w);
    }
  }

  /**
   * When peels are true decryptions, in any order and any number of times: what is left to
   * peel is the card's ciphertext decrypted by exactly the peelers before the awaited one.
   */
  lemma CurrentIsPeeled(c: DealConfig, k: Keys, plain: int -> int, calls: seq<Call>)
    requires ValidDeal(c) && Roomy(c) && HonestCards(c, k, plain) && CallsOk(c, TRUTH(c, k, plain), calls)
    requires Working(RunCalls(c, calls))
    ensures var w := RunCalls(c, calls).work;
            && 0 <= w.job.cardIndex < |c.cards| && w.nextPeel <= |w.peelers|
            && KeyRing(KeysOf(k, w.peelers[..w.nextPeel]), c.p)
            && w.current == Peeled(c.cards[w.job.cardIndex], KeysOf(k, w.peelers[..w.nextPeel]), c.p)
  {
    TruthIsFair(c, k, plain);
    RunKeeps(c, TRUTH(c, k, plain), calls);
    var w := RunCalls(c, calls).work;
    ChainPeels(c, k, plain, w, w.nextPeel);
  }

  /** Every value that such a session opens is the plaintext of its position. */
  lemma DecodedIsPlain(c: DealConfig, k: Keys, plain: int -> int, calls: seq<Call>, i: int)
    requires ValidDeal(c) && Roomy(c) && HonestCards(c, k, plain) && CallsOk(c, TRUTH(c, k, plain), calls)
    requires i in RunCalls(c, calls).got.decoded
    ensures RunCalls(c, calls).got.decoded[i] == plain(i)
  {
    TruthIsFair(c, k, plain);
    RunKeeps(c, TRUTH(c, k, plain), calls);
  }

  /** The card that an honest deal holds at a position. */
  function CardAt(ids: seq<nat>, pos: int): Cards.Card {
    if 0 <= pos < |ids| then Cards.CardFromID(ids[pos]) else Cards.BLANK
  }

  /** The plaintext that an honest deal has at a position. */
  ghost function PlainOf(ids: seq<nat>, p: int): int -> int
    requires p > 0
  {
    (i: int) => if 0 <= i < |ids| && ids[i] <= 51 then Params.CardToField(ids[i], p) else 0
  }

  lemma PlainIsCard(c: DealConfig, ids: seq<nat>, pos: int)
    requires Params.BigPrime(c.p) && 0 <= pos < |ids| && ids[pos] <= 51
    ensures Deal.FinishPublic(PlainOf(ids, c.p)(pos), c.p) == Ok(CardAt(ids, pos))
  {
    Params.CardRoundTrip(ids[pos], c.p);
  }

  lemma {:induction false} BoardIsCards(c: DealConfig, ids: seq<nat>, values: seq<int>, from: nat)
    requires Params.BigPrime(c.p) && from + |values| <= 5 && |c.order| >= 2 && 2 * |c.order| + 8 <= |ids|
    requires forall i :: 0 <= i < |ids| ==> ids[i] <= 51
    requires forall k :: 0 <= k < |values| ==> values[k] == PlainOf(ids, c.p)(JointDeck.BoardPos(|c.order|, from + k))
    ensures var r := AllPublic(values, c.p);
            && r.Ok? && |r.value| == |values|
            && forall k :: 0 <= k < |values| ==> r.value[k] == CardAt(ids, JointDeck.BoardPos(|c.order|, from + k))
  {
    if values != [] {
      assert values[0] == PlainOf(ids, c.p)(JointDeck.BoardPos(|c.order|, from + 0));
      PlainIsCard(c, ids, JointDeck.BoardPos(|c.order|, from));
      assert forall k :: 0 <= k < |values[1..]| ==> values[1..][k] == values[k + 1];
      BoardIsCards(c, ids, values[1..], from + 1);
    }
  }

  /**
   * On a deck that holds card ids[i] under every seat's layer at each position i, the cards
   * that the session hands on are those of the deal: the board in order, our own hand, and
   * every revealed hand.
   */
  lemma CardsAreDealt(c: DealConfig, k: Keys, ids: seq<nat>, calls: seq<Call>, s: DealState)
    requires ValidDeal(c) && Roomy(c) && Params.BigPrime(c.p) && |ids| == |c.cards|
    requires forall i :: 0 <= i < |ids| ==> ids[i] <= 51
    requires HonestCards(c, k, PlainOf(ids, c.p)) && CallsOk(c, TRUTH(c, k, PlainOf(ids, c.p)), calls)
    requires s == RunCalls(c, calls)
    ensures && CommunityCards(c, s).Ok?
            && |CommunityCards(c, s).value| == |s.got.community| <= 5
            && forall j :: 0 <= j < |s.got.community| ==>
                CommunityCards(c, s).value[j] == CardAt(ids, JointDeck.BoardPos(|c.order|, j))
    ensures LocalHoles(c, s).Ok? ==>
              LocalHoles(c, s).value == HandAt(c, ids, ShuffleSession.SeatOf(c.order, c.local).value)
    ensures forall who: nat :: who < |c.order| && RevealedHoles(c, s, c.order[who]).Ok? ==>
              RevealedHoles(c, s, c.order[who]).value == HandAt(c, ids, who)
  {
    var P := TRUTH(c, k, PlainOf(ids, c.p));
    TruthIsFair(c, k, PlainOf(ids, c.p));
    RunKeeps(c, P, calls);
    BoardFollowsStreets(c, calls);
    BoardIsDealt(c, P, k, ids, s);
    HandsAreDealt(c, P, k, ids, s);
  }

  lemma BoardIsDealt(c: DealConfig, P: Policy, k: Keys, ids: seq<nat>, s: DealState)
    requires ValidDeal(c) && Roomy(c) && Params.BigPrime(c.p) && |ids| == |c.cards|
    requires forall i :: 0 <= i < |ids| ==> ids[i] <= 51
    requires P == TRUTH(c, k, PlainOf(ids, c.p)) && DealInv(c, P, s) && |s.got.community| <= 5
    ensures && CommunityCards(c, s).Ok?
            && |CommunityCards(c, s).value| == |s.got.community|
            && forall j :: 0 <= j < |s.got.community| ==>
                CommunityCards(c, s).value[j] == CardAt(ids, JointDeck.BoardPos(|c.order|, j))
  {
    BoardIsCards(c, ids, s.got.community, 0);
  }

  /** The hands that the accessors hand on when they are complete. */
  lemma HandsAreDealt(c: DealConfig, P: Policy, k: Keys, ids: seq<nat>, s: DealState)
    requires ValidDeal(c) && Roomy(c) && Params.BigPrime(c.p) && |ids| == |c.cards|
    requires forall i :: 0 <= i < |ids| ==> ids[i] <= 51
    requires P == TRUTH(c, k, PlainOf(ids, c.p)) && DealInv(c, P, s)
    ensures LocalHoles(c, s).Ok? ==>
              LocalHoles(c, s).value == HandAt(c, ids, ShuffleSession.SeatOf(c.order, c.local).value)
    ensures forall who: nat :: who < |c.order| && RevealedHoles(c, s, c.order[who]).Ok? ==>
              RevealedHoles(c, s, c.order[who]).value == HandAt(c, ids, who)
  {
    PairIsHand(c, P, ids, s.got.localHoles, ShuffleSession.SeatOf(c.order, c.local).value, k);
    forall who: nat | who < |c.order| && RevealedHoles(c, s, c.order[who]).Ok?
      ensures RevealedHoles(c, s, c.order[who]).value == HandAt(c, ids, who)
    {
      RevealedIsHand(c, P, ids, s, who, k);
    }
  }

  lemma RevealedIsHand(c: DealConfig, P: Policy, ids: seq<nat>, s: DealState, who: nat, k: Keys)
    requires ValidDeal(c) && Roomy(c) && Params.BigPrime(c.p) && |ids| == |c.cards|
    requires forall i :: 0 <= i < |ids| ==> ids[i] <= 51
    requires P == TRUTH(c, k, PlainOf(ids, c.p)) && DealInv(c, P, s) && who < |c.order|
    requires RevealedHoles(c, s, c.order[who]).Ok?
    ensures RevealedHoles(c, s, c.order[who]).value == HandAt(c, ids, who)
  {
    assert RevealFits(c, P, s.got, c.order[who]);
    SeatFound(c.order, who);
    PairIsHand(c, P, ids, s.got.revealed[c.order[who]], who, k);
  }

  function HandAt(c: DealConfig, ids: seq<nat>, who: nat): (Cards.Card, Cards.Card)
    requires ValidDeal(c) && who < |c.order|
  {
    (CardAt(ids, HoleOf(c, who, 0)), CardAt(ids, HoleOf(c, who, 1)))
  }

  lemma PairIsHand(c: DealConfig, P: Policy, ids: seq<nat>, p: Pair, who: nat, k: Keys)
    requires ValidDeal(c) && Roomy(c) && Params.BigPrime(c.p) && |ids| == |c.cards|
    requires forall i :: 0 <= i < |ids| ==> ids[i] <= 51
    requires who < |c.order| && P == TRUTH(c, k, PlainOf(ids, c.p))
    requires PairFits(P, p, HoleOf(c, who, 0), HoleOf(c, who, 1))
    ensures FullPair(p) ==> BothCards(p, c.p) == Ok(HandAt(c, ids, who))
  {
    PlainIsCard(c, ids, HoleOf(c, who, 0));
    PlainIsCard(c, ids, HoleOf(c, who, 1));
  }
}
