// One replica's turn-taking machine for distributed peels (internal/crypto/deal_session.go):
// sequences of peel jobs, each peeled seat by seat.
module DealSession {
  import opened Cards
  import Deal
  import opened Rules
  import ShuffleSession
  import opened Sra
  import opened Wrappers
  import opened Zkp

  datatype JobKind = HoleJob | PublicJob

  // One deck position to peel; a hole job leaves the recipient's layer on.
  datatype Job = Job(kind: JobKind, cardIndex: int, recipient: string, round: nat)

  datatype SeqKind = Idle | Holes | StreetPeels | RevealPeels

  datatype PeelMessage = PeelMessage(hand: int, pd: PartialDecryption)

  // Two values by round, absent until decoded.
  datatype Pair = Pair(first: Option<int>, second: Option<int>)

  // The random nonce of a peeler for a deck position in a kind of sequence.
  type Nonces = (string, SeqKind, int) -> nat

  datatype DealConfig = DealConfig(hash: Oracle, order: seq<string>, local: string, key: Key, p: int, hand: int,
                                   session: seq<bv8>, dealer: nat, cards: seq<int>, nonces: Nonces)

  ghost predicate ValidDeal(c: DealConfig) {
    && |c.order| >= 2 && c.local in c.order && c.dealer < |c.order| && c.cards != []
    && (forall i, j :: 0 <= i < j < |c.order| ==> c.order[i] != c.order[j])
    && (forall i :: 0 <= i < |c.order| ==> c.order[i] != "")
    && c.p > 2 && c.key.p == c.p && c.key.d.Some? && c.session != [] && c.hand >= 1
  }

  // The sequence in progress.
  datatype Run = Run(kind: SeqKind, jobs: seq<Job>, jobIdx: nat, street: nat, revealID: string)

  // The job in progress: who has peeled, who is next, what is left to peel.
  datatype Work = Work(busy: bool, job: Job, peelers: seq<string>, nextPeel: nat, current: int,
                       pending: map<nat, PeelMessage>, applied: map<nat, PeelMessage>)

  // What has been opened to this replica.
  datatype Opened = Opened(localHoles: Pair, revealed: map<string, Pair>, community: seq<int>, decoded: map<int, int>)

  datatype Flags = Flags(holesStarted: bool, holesDone: bool, streetDone: bool, revealDone: bool, lastStreet: nat)

  datatype DealState = DealState(run: Run, work: Work, got: Opened, flags: Flags, outbound: seq<PeelMessage>)

  datatype DealReply = DealReply(s: DealState, out: Result<Option<PeelMessage>>)

  const NO_JOB := Job(PublicJob, 0, "", 0)
  const NO_PAIR := Pair(None, None)
  const NEW_DEAL := DealState(Run(Idle, [], 0, 0, ""), Work(false, NO_JOB, [], 0, 0, map[], map[]),
                              Opened(NO_PAIR, map[], [], map[]), Flags(false, false, false, false, 0), [])

  predicate Working(s: DealState) {
    s.run.kind != Idle && s.work.busy
  }

  predicate JobComplete(w: Work) {
    w.nextPeel >= |w.peelers|
  }

  function NextPeeler(w: Work): string {
    if JobComplete(w) then "" else w.peelers[w.nextPeel]
  }

  /** ExpectedPeeler: whose peel is awaited; empty when nothing is in progress. */
  function ExpectedPeeler(s: DealState): string {
    if Working(s) then NextPeeler(s.work) else ""
  }

  // ------------------------------------------------------------------------- one job

  /** applyIncoming: a verified peel of the current ciphertext moves it on. */
  function Apply(c: DealConfig, w: Work, m: PeelMessage): (r: (Work, Option<Error>))
    requires c.p > 2
    ensures r.0 == w.(applied := r.0.applied, current := r.0.current, nextPeel := r.0.nextPeel)
    ensures r.0.nextPeel == if r.1.None? then w.nextPeel + 1 else w.nextPeel
  {
    var next := VerifyAndApply(c.hash, w.current, m.pd, c.p, c.session);
    if next.Err? then (w, Some(next.error)) else
    var seat := ShuffleSession.SeatOf(w.peelers, m.pd.player);
    if seat.None? then (w, Some(UnknownPlayer))
    else (w.(applied := w.applied[seat.value := m], current := next.value, nextPeel := w.nextPeel + 1), None)
  }

  /** drainPending: apply buffered peels while they follow on and it is not our turn. */
  function DrainPeels(c: DealConfig, w: Work): (r: (Work, Option<Error>))
    requires c.p > 2
    ensures r.0 == w.(applied := r.0.applied, current := r.0.current, nextPeel := r.0.nextPeel, pending := r.0.pending)
    ensures r.0.nextPeel >= w.nextPeel
    decreases |w.peelers| - w.nextPeel
  {
    if JobComplete(w) || NextPeeler(w) == c.local || w.nextPeel !in w.pending then (w, None) else
    var a := Apply(c, w.(pending := w.pending - {w.nextPeel}), w.pending[w.nextPeel]);
    if a.1.Some? then a else DrainPeels(c, a.0)
  }

  lemma DrainPeelsStep(c: DealConfig, w: Work, next: Work, failed: Option<Error>)
    requires c.p > 2 && !JobComplete(w) && NextPeeler(w) != c.local && w.nextPeel in w.pending
    requires (next, failed) == Apply(c, w.(pending := w.pending - {w.nextPeel}), w.pending[w.nextPeel])
    ensures DrainPeels(c, w) == if failed.Some? then (next, failed) else DrainPeels(c, next)
  {
  }

  function SetRound(p: Pair, round: nat, x: int): Pair {
    if round == 0 then p.(first := Some(x)) else p.(second := Some(x))
  }

  /** The recipient takes its own layer off. */
  function FinishHole(c: DealConfig, job: Job, current: int, got: Opened): (Opened, Option<Error>) {
    var plain := Decrypt(c.key, current);
    if plain.Err? then (got, Some(plain.error))
    else (got.(localHoles := SetRound(got.localHoles, job.round, plain.value),
        decoded := got.decoded[job.cardIndex := plain.value]), None)
  }

  function FinishPublic(run: Run, job: Job, current: int, got: Opened): Opened {
    got.(decoded := got.decoded[job.cardIndex := current],
         community := if run.kind == StreetPeels then got.community + [current] else got.community,
         revealed := if run.kind == RevealPeels then
                       got.revealed[run.revealID := SetRound(PairOf(got, run.revealID), job.round, current)]
                     else got.revealed)
  }

  function PairOf(got: Opened, id: string): Pair {
    if id in got.revealed then got.revealed[id] else NO_PAIR
  }

  /** finishJob: keep the value that the job has opened, if it is for us or for everyone. */
  function FinishJob(c: DealConfig, s: DealState): (Opened, Option<Error>) {
    if s.work.job.kind == PublicJob then (FinishPublic(s.run, s.work.job, s.work.current, s.got), None)
    else if s.work.job.recipient == c.local then FinishHole(c, s.work.job, s.work.current, s.got)
    else (s.got, None)
  }

  /** installJob. */
  function InstallJob(c: DealConfig, j: Job): (r: Result<Work>)
    ensures r.Ok? ==>
              r.value.peelers != [] && r.value == Work(true, j, r.value.peelers, 0, r.value.current, map[], map[])
  {
    if !(0 <= j.cardIndex < |c.cards|) then Err(BadIndex) else
    var peelers := Deal.PeelOrder(c.order, j.recipient);
    if peelers.Err? then Err(peelers.error)
    else if peelers.value == [] then Err(NoPeelers)
    else Ok(Work(true, j, peelers.value, 0, c.cards[j.cardIndex], map[], map[]))
  }

  // ------------------------------------------------------------------- running on

  function JobsLeft(r: Run): nat {
    if r.jobIdx < |r.jobs| then |r.jobs| - r.jobIdx else 0
  }

  function PeelsLeft(w: Work): nat {
    if w.nextPeel < |w.peelers| then |w.peelers| - w.nextPeel else 0
  }

  /** executeLocal: our own peel, applied here and returned; what follows it goes out behind. */
  function ExecutePeel(c: DealConfig, s: DealState): DealReply
    requires c.p > 2 && c.key.p == c.p
    decreases JobsLeft(s.run), PeelsLeft(s.work), 0
  {
    if JobComplete(s.work) || NextPeeler(s.work) != c.local then DealReply(s, Err(NotOurTurn)) else
    var pd := PeelAs(c, s, c.local, c.key);
    if pd.Err? then DealReply(s, Err(pd.error)) else
    var m := PeelMessage(c.hand, pd.value);
    var a := Apply(c, s.work, m);
    if a.1.Some? then DealReply(s, Err(a.1.value)) else Behind(m, AfterPeel(c, s.(work := a.0)))
  }

  /** The peel of the current ciphertext that a seat makes with its key. */
  function PeelAs(c: DealConfig, s: DealState, id: string, key: Key): Result<PartialDecryption>
    requires c.p > 2 && key.p == c.p
  {
    Peel(c.hash, key, s.work.current, s.work.job.cardIndex, id, c.session,
        c.nonces(id, s.run.kind, s.work.job.cardIndex))
  }

  /** A peel of ours in front of what the call it led to would publish. */
  function Behind(m: PeelMessage, r: DealReply): DealReply {
    if r.out.Err? then r
    else if r.out.value.Some? then DealReply(r.s.(outbound := r.s.outbound + [r.out.value.value]), Ok(Some(m)))
    else DealReply(r.s, Ok(Some(m)))
  }

  /** afterApply. */
  function AfterPeel(c: DealConfig, s: DealState): DealReply
    requires c.p > 2 && c.key.p == c.p
    decreases JobsLeft(s.run), PeelsLeft(s.work), 2
  {
    var d := DrainPeels(c, s.work);
    var s' := s.(work := d.0);
    if d.1.Some? then DealReply(s', Err(d.1.value))
    else if JobComplete(d.0) then
      var f := FinishJob(c, s');
      if f.1.Some? then DealReply(s', Err(f.1.value)) else AdvanceSequence(c, s'.(got := f.0))
    else if NextPeeler(d.0) == c.local then ExecutePeel(c, s')
    else DealReply(s', Ok(None))
  }

  function Marked(run: Run, f: Flags): Flags {
    match run.kind
    case Holes => f.(holesDone := true)
    case StreetPeels => f.(streetDone := true, lastStreet := run.street)
    case RevealPeels => f.(revealDone := true)
    case Idle => f
  }

  function EndSequence(s: DealState): DealState {
    s.(run := s.run.(kind := Idle), work := s.work.(busy := false), flags := Marked(s.run, s.flags))
  }

  /** advanceSequence: the next job, or the end. */
  function AdvanceSequence(c: DealConfig, s: DealState): DealReply
    requires c.p > 2 && c.key.p == c.p
    decreases JobsLeft(s.run), PeelsLeft(s.work), 1
  {
    var next := s.(run := s.run.(jobIdx := s.run.jobIdx + 1));
    if next.run.jobIdx >= |next.run.jobs| then DealReply(EndSequence(next), Ok(None)) else
    var w := InstallJob(c, next.run.jobs[next.run.jobIdx]);
    if w.Err? then DealReply(next, Err(w.error)) else StartJob(c, next.(work := w.value))
  }

  /** startCurrentJob. */
  function StartJob(c: DealConfig, s: DealState): DealReply
    requires c.p > 2 && c.key.p == c.p && s.work.peelers != []
    decreases JobsLeft(s.run), PeelsLeft(s.work), 1
  {
    if s.work.peelers[0] == c.local then ExecutePeel(c, s) else DealReply(s, Ok(None))
  }

  function StartSequence(c: DealConfig, s: DealState, run: Run): DealReply
    requires c.p > 2 && c.key.p == c.p
  {
    if run.jobs == [] then DealReply(s, Err(EmptySequence)) else
    var w := InstallJob(c, run.jobs[0]);
    if w.Err? then DealReply(s.(run := run.(kind := Idle)), Err(w.error))
        else StartJob(c, s.(run := run, work := w.value))
  }

  // ---------------------------------------------------------------------------- calls

  /** Two hole cards for every seat, walking left of the dealer twice. */
  function HoleJobs(c: DealConfig): (jobs: seq<Job>)
    requires |c.order| >= 2 && c.dealer < |c.order|
    ensures |jobs| == 2 * |c.order|
  {
    var n := |c.order|;
    seq(2 * n, pos requires 0 <= pos < 2 * n => HoleJobAt(c, pos))
  }

  function HoleJobAt(c: DealConfig, pos: nat): Job
    requires |c.order| >= 2 && c.dealer < |c.order| && pos < 2 * |c.order|
  {
    var n := |c.order|;
    var who, round := HoleSeat(c.dealer, pos, n), if pos < n then 0 else 1;
    Job(HoleJob, Deal.HolePos(n, c.dealer, who, round), c.order[who], round)
  }

  function Public(idx: int): Job {
    Job(PublicJob, idx, "", 0)
  }

  function StreetJobs(n: int, street: nat): (jobs: seq<Job>)
    requires n >= 2
  {
    if street == 1 then
      var f := Deal.FlopIndexes(n).value;
      [Public(f[0]), Public(f[1]), Public(f[2])]
    else if street == 2 then [Public(Deal.TurnIndex(n).value)]
    else if street == 3 then [Public(Deal.RiverIndex(n).value)]
    else []
  }

  function RevealJobs(c: DealConfig, who: nat): seq<Job>
    requires |c.order| >= 2 && c.dealer < |c.order| && who < |c.order|
  {
    [Job(PublicJob, Deal.HolePos(|c.order|, c.dealer, who, 0), "", 0),
        Job(PublicJob, Deal.HolePos(|c.order|, c.dealer, who, 1), "", 1)]
  }

  function BeginHoles(c: DealConfig, s: DealState): DealReply
    requires ValidDeal(c)
  {
    if s.run.kind != Idle then DealReply(s, Err(SequenceInProgress))
    else if s.flags.holesStarted || s.flags.holesDone then DealReply(s, Err(AlreadyStarted))
    else StartSequence(c, s.(flags := s.flags.(holesStarted := true)), Run(Holes, HoleJobs(c), 0, 0, ""))
  }

  function BeginStreet(c: DealConfig, s: DealState, street: nat): DealReply
    requires ValidDeal(c)
  {
    if s.run.kind != Idle then DealReply(s, Err(SequenceInProgress))
    else if !s.flags.holesDone then DealReply(s, Err(HolesNotDone))
    else if street != s.flags.lastStreet + 1 || street > 3 then DealReply(s, Err(WrongStreet))
    else StartSequence(c, s.(flags := s.flags.(streetDone := false)),
        Run(StreetPeels, StreetJobs(|c.order|, street), 0, street, ""))
  }

  predicate FullPair(p: Pair) {
    p.first.Some? && p.second.Some?
  }

  function BeginReveal(c: DealConfig, s: DealState, id: string): DealReply
    requires ValidDeal(c)
  {
    if s.run.kind != Idle then DealReply(s, Err(SequenceInProgress))
    else if !s.flags.holesDone then DealReply(s, Err(HolesNotDone)) else
    var who := ShuffleSession.SeatOf(c.order, id);
    if who.None? then DealReply(s, Err(UnknownPlayer))
    else if id in s.got.revealed && FullPair(s.got.revealed[id]) then DealReply(s, Err(AlreadyRevealed))
    else StartSequence(c, s.(flags := s.flags.(revealDone := false)),
        Run(RevealPeels, RevealJobs(c, who.value), 0, 0, id))
  }

  function PeelRejection(c: DealConfig, w: Work, m: PeelMessage): Option<Error> {
    if m.pd.player == "" then Some(EmptyPlayerID)
    else if m.hand != c.hand then Some(WrongHand)
    else if m.pd.cardIndex != w.job.cardIndex then Some(WrongCardIndex)
    else None
  }

  function HandlePeel(c: DealConfig, s: DealState, m: PeelMessage): DealReply
    requires ValidDeal(c)
  {
    if !Working(s) then DealReply(s, Err(NoJob)) else
    var bad := PeelRejection(c, s.work, m);
    if bad.Some? then DealReply(s, Err(bad.value)) else
    var seat := ShuffleSession.SeatOf(s.work.peelers, m.pd.player);
    if seat.None? then DealReply(s, Err(UnknownPlayer))
    else if seat.value < s.work.nextPeel then
      DealReply(s, if seat.value in s.work.applied && s.work.applied[seat.value] == m then Ok(None)
          else Err(ConflictingDuplicate))
    else if seat.value == s.work.nextPeel then
      if m.pd.player == c.local then DealReply(s, Err(LocalMessage)) else
      var a := Apply(c, s.work, m);
      if a.1.Some? then DealReply(s, Err(a.1.value)) else AfterPeel(c, s.(work := a.0))
    else if m.pd.player == c.local then DealReply(s, Err(WrongSeat))
    else if seat.value in s.work.pending then
      DealReply(s, if s.work.pending[seat.value] == m then Ok(None) else Err(ConflictingBuffered))
    else DealReply(s.(work := s.work.(pending := s.work.pending[seat.value := m])), Ok(None))
  }

  /** PeelOnBehalf: the awaited peel of another seat, made with its recovered key. */
  function PeelOnBehalf(c: DealConfig, s: DealState, id: string, key: Key): DealReply
    requires ValidDeal(c) && key.p == c.p
  {
    if id == "" then DealReply(s, Err(EmptyPlayerID))
    else if id == c.local then DealReply(s, Err(LocalMessage))
    else if !Working(s) then DealReply(s, Err(NoJob))
    else if ExpectedPeeler(s) != id then DealReply(s, Err(WrongSeat))
    else if key.d.None? then DealReply(s, Err(MissingPrivateKey)) else
    var pd := PeelAs(c, s, id, key);
    if pd.Err? then DealReply(s, Err(pd.error)) else
    var m := PeelMessage(c.hand, pd.value);
    var a := Apply(c, s.work, m);
    if a.1.Some? then DealReply(s, Err(a.1.value)) else Behind(m, AfterPeel(c, s.(work := a.0)))
  }

  // -------------------------------------------------------------------------- results

  function BothCards(p: Pair, m: int): Result<(Card, Card)>
    requires m > 0
  {
    if !FullPair(p) then Err(NotComplete) else
    var c0, c1 := Deal.FinishPublic(p.first.value, m), Deal.FinishPublic(p.second.value, m);
    if c0.Err? then Err(c0.error) else if c1.Err? then Err(c1.error) else Ok((c0.value, c1.value))
  }

  function LocalHoles(c: DealConfig, s: DealState): Result<(Card, Card)>
    requires c.p > 0
  {
    BothCards(s.got.localHoles, c.p)
  }

  function RevealedHoles(c: DealConfig, s: DealState, id: string): Result<(Card, Card)>
    requires c.p > 0
  {
    if id in s.got.revealed then BothCards(s.got.revealed[id], c.p) else Err(NotComplete)
  }

  function AllPublic(values: seq<int>, p: int): (r: Result<seq<Card>>)
    requires p > 0
    ensures r.Ok? ==> |r.value| == |values|
  {
    if values == [] then Ok([]) else
    var first, rest := Deal.FinishPublic(values[0], p), AllPublic(values[1..], p);
    if first.Err? then Err(first.error) else if rest.Err? then rest else Ok([first.value] + rest.value)
  }

  function CommunityCards(c: DealConfig, s: DealState): Result<seq<Card>>
    requires c.p > 0
  {
    AllPublic(s.got.community, c.p)
  }

  // ------------------------------------------------------------- the session object

  class Session {
    const config: DealConfig
    var kind: SeqKind
    var jobs: seq<Job>
    var jobIdx: nat
    var street: nat
    var revealID: string
    var busy: bool
    var job: Job
    var peelers: seq<string>
    var nextPeel: nat
    var current: int
    var pending: map<nat, PeelMessage>
    var applied: map<nat, PeelMessage>
    var localHoles: Pair
    var revealed: map<string, Pair>
    var community: seq<int>
    var decoded: map<int, int>
    var holesStarted: bool
    var holesDone: bool
    var streetDone: bool
    var revealDone: bool
    var lastStreet: nat
    var outbound: seq<PeelMessage>

    function RunView(): Run
      reads this
    {
      Run(kind, jobs, jobIdx, street, revealID)
    }

    function WorkView(): Work
      reads this
    {
      Work(busy, job, peelers, nextPeel, current, pending, applied)
    }

    function GotView(): Opened
      reads this
    {
      Opened(localHoles, revealed, community, decoded)
    }

    function View(): DealState
      reads this
    {
      DealState(RunView(), WorkView(), GotView(), Flags(holesStarted, holesDone, streetDone, revealDone, lastStreet),
          outbound)
    }

    constructor (c: DealConfig)
      requires ValidDeal(c)
      ensures config == c && View() == NEW_DEAL
    {
      config := c;
      kind, jobs, jobIdx, street, revealID := Idle, [], 0, 0, "";
      busy, job, peelers, nextPeel, current := false, NO_JOB, [], 0, 0;
      pending, applied, decoded, revealed := map[], map[], map[], map[];
      localHoles, community, outbound := NO_PAIR, [], [];
      holesStarted, holesDone, streetDone, revealDone, lastStreet := false, false, false, false, 0;
    }

    method ApplyIncoming(m: PeelMessage) returns (e: Option<Error>)
      requires ValidDeal(config)
      modifies `applied, `current, `nextPeel
      ensures var a := Apply(config, old(View()).work, m); View() == old(View()).(work := a.0) && e == a.1
    {
      var next := VerifyAndApply(config.hash, current, m.pd, config.p, config.session);
      if next.Err? {
        return Some(next.error);
      }
      var seat := ShuffleSession.SeatOf(peelers, m.pd.player);
      if seat.None? {
        return Some(UnknownPlayer);
      }
      applied := applied[seat.value := m];
      current := next.value;
      nextPeel := nextPeel + 1;
      return None;
    }

    method DrainPending() returns (e: Option<Error>)
      requires ValidDeal(config)
      modifies `applied, `current, `nextPeel, `pending
      ensures var d := DrainPeels(config, old(View()).work); View() == old(View()).(work := d.0) && e == d.1
    {
      ghost var start, d := View(), DrainPeels(config, WorkView());
      while true
        invariant View() == start.(work := WorkView()) && DrainPeels(config, WorkView()) == d
        decreases |peelers| - nextPeel
      {
        if nextPeel >= |peelers| || peelers[nextPeel] == config.local || nextPeel !in pending {
          return None;
        }
        ghost var w := WorkView();
        var m := pending[nextPeel];
        pending := pending - {nextPeel};
        var failed := ApplyIncoming(m);
        DrainPeelsStep(config, w, WorkView(), failed);
        if failed.Some? {
          return failed;
        }
      }
    }

    method OpenOwnHole() returns (e: Option<Error>)
      modifies `localHoles, `decoded
      ensures (GotView(), e) == FinishHole(config, job, current, old(GotView()))
    {
      var plain := Decrypt(config.key, current);
      if plain.Err? {
        return Some(plain.error);
      }
      localHoles := SetRound(localHoles, job.round, plain.value);
      decoded := decoded[job.cardIndex := plain.value];
      return None;
    }

    method OpenPublic()
      modifies `decoded, `community, `revealed
      ensures GotView() == FinishPublic(RunView(), job, current, old(GotView()))
    {
      decoded := decoded[job.cardIndex := current];
      if kind == StreetPeels {
        community := community + [current];
      }
      if kind == RevealPeels {
        var pair := if revealID in revealed then revealed[revealID] else NO_PAIR;
        revealed := revealed[revealID := SetRound(pair, job.round, current)];
      }
    }

    method FinishCurrentJob() returns (e: Option<Error>)
      modifies `localHoles, `decoded, `community, `revealed
      ensures var f := FinishJob(config, old(View())); View() == old(View()).(got := f.0) && e == f.1
    {
      if job.kind == HoleJob {
        if job.recipient == config.local {
          e := OpenOwnHole();
        } else {
          e := None;
        }
      } else {
        OpenPublic();
        e := None;
      }
    }

    method SetWork(j: Job, order: seq<string>, ciphertext: int)
      modifies `busy, `job, `peelers, `nextPeel, `current, `pending, `applied
      ensures WorkView() == Work(true, j, order, 0, ciphertext, map[], map[])
    {
      busy, job, peelers, nextPeel := true, j, order, 0;
      current := ciphertext;
      pending, applied := map[], map[];
    }

    method ReplaceWork(j: Job, order: seq<string>, ciphertext: int)
      modifies `busy, `job, `peelers, `nextPeel, `current, `pending, `applied
      ensures View() == old(View()).(work := Work(true, j, order, 0, ciphertext, map[], map[]))
    {
      SetWork(j, order, ciphertext);
    }

    method Install(j: Job) returns (e: Option<Error>)
      requires ValidDeal(config)
      modifies `busy, `job, `peelers, `nextPeel, `current, `pending, `applied
      ensures var w := InstallJob(config, j);
              if w.Ok? then e == None && View() == old(View()).(work := w.value)
                  else e == Some(w.error) && View() == old(View())
    {
      if !(0 <= j.cardIndex < |config.cards|) {
        return Some(BadIndex);
      }
      var order := Deal.PeelOrder(config.order, j.recipient);
      if order.Err? {
        return Some(order.error);
      }
      if order.value == [] {
        return Some(NoPeelers);
      }
      ReplaceWork(j, order.value, config.cards[j.cardIndex]);
      return None;
    }

    method StartCurrentJob() returns (r: Result<Option<PeelMessage>>)
      requires ValidDeal(config) && peelers != []
      modifies this
      ensures DealReply(View(), r) == StartJob(config, old(View()))
      decreases JobsLeft(RunView()), PeelsLeft(WorkView()), 1
    {
      if peelers[0] == config.local {
        r := ExecuteLocal();
      } else {
        r := Ok(None);
      }
    }

    method ExecuteLocal() returns (r: Result<Option<PeelMessage>>)
      requires ValidDeal(config)
      modifies this
      ensures DealReply(View(), r) == ExecutePeel(config, old(View()))
      decreases JobsLeft(RunView()), PeelsLeft(WorkView()), 0
    {
      LocalIsNamed(config);
      if nextPeel >= |peelers| || peelers[nextPeel] != config.local {
        return Err(NotOurTurn);
      }
      var pd := Peel(config.hash, config.key, current, job.cardIndex, config.local, config.session,
          config.nonces(config.local, kind, job.cardIndex));
      if pd.Err? {
        return Err(pd.error);
      }
      var m := PeelMessage(config.hand, pd.value);
      var e := ApplyIncoming(m);
      if e.Some? {
        return Err(e.value);
      }
      var extra := AfterApply();
      if extra.Err? {
        return extra;
      }
      if extra.value.Some? {
        outbound := outbound + [extra.value.value];
      }
      return Ok(Some(m));
    }

    method AfterApply() returns (r: Result<Option<PeelMessage>>)
      requires ValidDeal(config)
      modifies this
      ensures DealReply(View(), r) == AfterPeel(config, old(View()))
      decreases JobsLeft(RunView()), PeelsLeft(WorkView()), 2
    {
      LocalIsNamed(config);
      var e := DrainPending();
      if e.Some? {
        return Err(e.value);
      }
      if nextPeel >= |peelers| {
        e := FinishCurrentJob();
        if e.Some? {
          return Err(e.value);
        }
        r := AdvanceToNextJob();
      } else if peelers[nextPeel] == config.local {
        r := ExecuteLocal();
      } else {
        r := Ok(None);
      }
    }

    method MarkDone()
      modifies `holesDone, `streetDone, `lastStreet, `revealDone
      ensures View() == old(View()).(flags := Marked(old(View()).run, old(View()).flags))
    {
      match kind {
        case Holes => holesDone := true;
        case StreetPeels => streetDone, lastStreet := true, street;
        case RevealPeels => revealDone := true;
        case Idle =>
      }
    }

    method NextJob()
      modifies `jobIdx
      ensures View() == old(View()).(run := old(View()).run.(jobIdx := old(View()).run.jobIdx + 1))
    {
      jobIdx := jobIdx + 1;
    }

    method FinishSequence()
      modifies `kind, `busy, `holesDone, `streetDone, `lastStreet, `revealDone
      ensures View() == EndSequence(old(View()))
    {
      MarkDone();
      kind, busy := Idle, false;
    }

    method AdvanceToNextJob() returns (r: Result<Option<PeelMessage>>)
      requires ValidDeal(config)
      modifies this
      ensures DealReply(View(), r) == AdvanceSequence(config, old(View()))
      decreases JobsLeft(RunView()), PeelsLeft(WorkView()), 1
    {
      NextJob();
      if jobIdx >= |jobs| {
        FinishSequence();
        return Ok(None);
      }
      var e := Install(jobs[jobIdx]);
      if e.Some? {
        return Err(e.value);
      }
      r := StartCurrentJob();
    }

    method SetRun(run: Run)
      modifies `kind, `jobs, `jobIdx, `street, `revealID
      ensures RunView() == run
    {
      kind, jobs, jobIdx, street, revealID := run.kind, run.jobs, run.jobIdx, run.street, run.revealID;
    }

    method Queue(run: Run)
      modifies `kind, `jobs, `jobIdx, `street, `revealID
      ensures View() == old(View()).(run := run)
    {
      SetRun(run);
    }

    method StartJobs(run: Run) returns (r: Result<Option<PeelMessage>>)
      requires ValidDeal(config)
      modifies this
      ensures DealReply(View(), r) == StartSequence(config, old(View()), run)
    {
      if run.jobs == [] {
        return Err(EmptySequence);
      }
      Queue(run);
      var e := Install(run.jobs[0]);
      if e.Some? {
        Queue(run.(kind := Idle));
        return Err(e.value);
      }
      r := StartCurrentJob();
    }

    method BuildHoleJobs() returns (built: seq<Job>)
      requires ValidDeal(config)
      ensures built == HoleJobs(config)
    {
      built := [];
      var n := |config.order|;
      for pos := 0 to 2 * n
        invariant |built| == pos && forall k :: 0 <= k < pos ==> built[k] == HoleJobAt(config, k)
      {
        built := built + [HoleJobAt(config, pos)];
      }
    }

    method BeginHolePeels() returns (r: Result<Option<PeelMessage>>)
      requires ValidDeal(config)
      modifies this
      ensures DealReply(View(), r) == BeginHoles(config, old(View()))
    {
      if kind != Idle {
        return Err(SequenceInProgress);
      }
      if holesStarted || holesDone {
        return Err(AlreadyStarted);
      }
      var built := BuildHoleJobs();
      holesStarted := true;
      r := StartJobs(Run(Holes, built, 0, 0, ""));
    }

    method BeginStreetPeels(newStreet: nat) returns (r: Result<Option<PeelMessage>>)
      requires ValidDeal(config)
      modifies this
      ensures DealReply(View(), r) == BeginStreet(config, old(View()), newStreet)
    {
      if kind != Idle {
        return Err(SequenceInProgress);
      }
      if !holesDone {
        return Err(HolesNotDone);
      }
      if newStreet != lastStreet + 1 || newStreet > 3 {
        return Err(WrongStreet);
      }
      streetDone := false;
      r := StartJobs(Run(StreetPeels, StreetJobs(|config.order|, newStreet), 0, newStreet, ""));
    }

    method BeginRevealPeels(id: string) returns (r: Result<Option<PeelMessage>>)
      requires ValidDeal(config)
      modifies this
      ensures DealReply(View(), r) == BeginReveal(config, old(View()), id)
    {
      if kind != Idle {
        return Err(SequenceInProgress);
      }
      if !holesDone {
        return Err(HolesNotDone);
      }
      var who := ShuffleSession.SeatOf(config.order, id);
      if who.None? {
        return Err(UnknownPlayer);
      }
      if id in revealed && FullPair(revealed[id]) {
        return Err(AlreadyRevealed);
      }
      revealDone := false;
      r := StartJobs(Run(RevealPeels, RevealJobs(config, who.value), 0, 0, id));
    }

    method Handle(m: PeelMessage) returns (r: Result<Option<PeelMessage>>)
      requires ValidDeal(config)
      modifies this
      ensures DealReply(View(), r) == HandlePeel(config, old(View()), m)
    {
      if kind == Idle || !busy {
        return Err(NoJob);
      }
      var bad := PeelRejection(config, WorkView(), m);
      if bad.Some? {
        return Err(bad.value);
      }
      var found := ShuffleSession.SeatOf(peelers, m.pd.player);
      if found.None? {
        return Err(UnknownPlayer);
      }
      var seat := found.value;
      if seat < nextPeel {
        if seat in applied && applied[seat] == m {
          return Ok(None);
        }
        return Err(ConflictingDuplicate);
      }
      if seat == nextPeel {
        if m.pd.player == config.local {
          return Err(LocalMessage);
        }
        var e := ApplyIncoming(m);
        if e.Some? {
          return Err(e.value);
        }
        r := AfterApply();
        return;
      }
      if m.pd.player == config.local {
        return Err(WrongSeat);
      }
      if seat in pending {
        if pending[seat] == m {
          return Ok(None);
        }
        return Err(ConflictingBuffered);
      }
      pending := pending[seat := m];
      return Ok(None);
    }

    method PeelFor(id: string, key: Key) returns (r: Result<Option<PeelMessage>>)
      requires ValidDeal(config) && key.p == config.p
      modifies this
      ensures DealReply(View(), r) == PeelOnBehalf(config, old(View()), id, key)
    {
      if id == "" {
        return Err(EmptyPlayerID);
      }
      if id == config.local {
        return Err(LocalMessage);
      }
      if kind == Idle || !busy {
        return Err(NoJob);
      }
      if ExpectedPeeler(View()) != id {
        return Err(WrongSeat);
      }
      if key.d.None? {
        return Err(MissingPrivateKey);
      }
      var pd := Peel(config.hash, key, current, job.cardIndex, id, config.session,
          config.nonces(id, kind, job.cardIndex));
      if pd.Err? {
        return Err(pd.error);
      }
      var m := PeelMessage(config.hand, pd.value);
      var e := ApplyIncoming(m);
      if e.Some? {
        return Err(e.value);
      }
      var extra := AfterApply();
      if extra.Err? {
        return extra;
      }
      if extra.value.Some? {
        outbound := outbound + [extra.value.value];
      }
      return Ok(Some(m));
    }

    method TakeOutbound() returns (out: seq<PeelMessage>)
      modifies this
      ensures out == old(outbound) && View() == old(View()).(outbound := [])
    {
      out := outbound;
      outbound := [];
    }
  }

  lemma LocalIsNamed(c: DealConfig)
    requires ValidDeal(c)
    ensures c.local != ""
  {
    var i :| 0 <= i < |c.order| && c.order[i] == c.local;
  }
}
