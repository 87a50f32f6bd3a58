// Honest tables of which some seats are gone (internal/network/crypto_hand.go:340-410): the seats
// that are left, with the keys recovered for the others, follow one script, so no job gets stuck.
module GoneSeats {
  import opened DealJob
  import opened DealSafety
  import opened DealSession
  import opened Delegation
  import opened HonestJob
  import opened JobNetwork
  import opened Sra
  import opened Wrappers

  /** Who makes the peel of seat id: itself, or the first seat left. */
  function AgentOf(order: seq<string>, gone: map<string, Key>, id: string): string {
    if id in gone then DesignatedSurvivor(order, gone) else id
  }

  /**
   * The seats that are left, each with the keys of the gone ones, about to do the job that run
   * is at; agents lists which of them makes each peel.
   */
  ghost predicate Party(cs: seq<DealConfig>, bases: seq<DealState>, gone: map<string, Key>, agents: seq<nat>,
      k: Keys, plain: int -> int, run: Run) {
    && cs != [] && |bases| == |cs| && run.kind != Idle && run.jobIdx < |run.jobs|
    && (forall i :: 0 <= i < |cs| ==>
          HonestSeat(cs[0], cs[i], bases[i], k, plain, run) && bases[i].outbound == [] && cs[i].local !in gone)
    && (forall i, j :: 0 <= i < j < |cs| ==> cs[i].local != cs[j].local)
    && (forall id :: id in gone ==> id in cs[0].order && gone[id] == k(id))
    && InstallJob(cs[0], run.jobs[run.jobIdx]).Ok?
    && var peelers := InstallJob(cs[0], run.jobs[run.jobIdx]).value.peelers;
    && |agents| == |peelers|
    && forall x :: 0 <= x < |agents| ==>
         agents[x] < |cs| && cs[agents[x]].local == AgentOf(cs[0].order, gone, peelers[x])
  }

  /** As long as one seat is left and all seats that are left take part, each peel has its agent. */
  lemma {:induction false} AgentsExist(cs: seq<DealConfig>, gone: map<string, Key>, peelers: seq<string>)
    returns (agents: seq<nat>)
    requires cs != [] && ValidDeal(cs[0]) && cs[0].local !in gone
    requires forall id :: id in cs[0].order && id !in gone ==> exists i :: 0 <= i < |cs| && cs[i].local == id
    requires forall x :: 0 <= x < |peelers| ==> peelers[x] in cs[0].order
    ensures |agents| == |peelers|
    ensures forall x :: 0 <= x < |agents| ==>
              agents[x] < |cs| && cs[agents[x]].local == AgentOf(cs[0].order, gone, peelers[x])
    decreases |peelers|
  {
    if peelers == [] {
      agents := [];
    } else {
      assert forall x :: 0 <= x < |peelers[1..]| ==> peelers[1..][x] == peelers[x + 1];
      var rest := AgentsExist(cs, gone, peelers[1..]);
      SurvivorIs(cs[0].order, gone);
      var id := AgentOf(cs[0].order, gone, peelers[0]);
      assert id in cs[0].order && id !in gone;
      var i :| 0 <= i < |cs| && cs[i].local == id;
      agents := [i] + rest;
    }
  }

  /** The configuration under which c makes the peels of seat id. */
  ghost function Maker(c: DealConfig, id: string, k: Keys): DealConfig {
    c.(local := id, key := k(id))
  }

  ghost function Makers(cs: seq<DealConfig>, agents: seq<nat>, peelers: seq<string>, k: Keys): (r: seq<DealConfig>)
    requires |agents| == |peelers| && forall x :: 0 <= x < |agents| ==> agents[x] < |cs|
    ensures |r| == |agents|
  {
    seq(|agents|, x requires 0 <= x < |agents| => Maker(cs[agents[x]], peelers[x], k))
  }

  ghost function MakerBases(bases: seq<DealState>, agents: seq<nat>): (r: seq<DealState>)
    requires forall x :: 0 <= x < |agents| ==> agents[x] < |bases|
    ensures |r| == |agents|
  {
    seq(|agents|, x requires 0 <= x < |agents| => bases[agents[x]])
  }

  lemma MakerFits(c: DealConfig, id: string, k: Keys, plain: int -> int, run: Run, base: DealState)
    requires ValidDeal(c) && HonestCards(c, k, plain) && RunFits(c, run, base.flags) && id in c.order
    ensures var m := Maker(c, id, k);
            ValidDeal(m) && HonestCards(m, k, plain) && SameDeal(c, m) && RunFits(m, run, base.flags)
  {
    KeyOfSeat(c, k, plain, id);
    var m := Maker(c, id, k);
    assert HoleJobs(m) == HoleJobs(c) by {
      assert forall pos :: 0 <= pos < 2 * |c.order| ==> HoleJobAt(m, pos) == HoleJobAt(c, pos);
    }
  }

  /** Every peeler of an honest job sits at the table. */
  lemma PeelerAtTable(c: DealConfig, j: Job, id: string)
    requires ValidDeal(c) && InstallJob(c, j).Ok? && id in InstallJob(c, j).value.peelers
    ensures id in c.order
  {
    WithoutKeeps(c.order, j.recipient);
  }

  /** Under the makers' configurations the party is an honest table of the job's peelers. */
  lemma MakersHonest(cs: seq<DealConfig>, bases: seq<DealState>, gone: map<string, Key>, agents: seq<nat>,
      k: Keys, plain: int -> int, run: Run, peelers: seq<string>)
    requires Party(cs, bases, gone, agents, k, plain, run)
    requires peelers == InstallJob(cs[0], run.jobs[run.jobIdx]).value.peelers
    ensures HonestTable(Makers(cs, agents, peelers, k), MakerBases(bases, agents), k, plain, run)
  {
    var j := run.jobs[run.jobIdx];
    var ms, mb := Makers(cs, agents, peelers, k), MakerBases(bases, agents);
    forall x | 0 <= x < |ms| ensures HonestSeat(ms[0], ms[x], mb[x], k, plain, run) {
      OneMaker(cs, bases, gone, agents, k, plain, run, peelers, 0);
      OneMaker(cs, bases, gone, agents, k, plain, run, peelers, x);
    }
    OneMaker(cs, bases, gone, agents, k, plain, run, peelers, 0);
  }

  lemma OneMaker(cs: seq<DealConfig>, bases: seq<DealState>, gone: map<string, Key>, agents: seq<nat>,
      k: Keys, plain: int -> int, run: Run, peelers: seq<string>, x: nat)
    requires Party(cs, bases, gone, agents, k, plain, run) && x < |agents|
    requires peelers == InstallJob(cs[0], run.jobs[run.jobIdx]).value.peelers
    ensures var m, base := Maker(cs[agents[x]], peelers[x], k), bases[agents[x]];
            HonestSeat(cs[0], m, base, k, plain, run)
            && InstallJob(m, run.jobs[run.jobIdx]) == InstallJob(cs[0], run.jobs[run.jobIdx])
  {
    var i := agents[x];
    assert HonestSeat(cs[0], cs[0], bases[0], k, plain, run) && HonestSeat(cs[0], cs[i], bases[i], k, plain, run);
    PeelerAtTable(cs[0], run.jobs[run.jobIdx], peelers[x]);
    MakerFits(cs[i], peelers[x], k, plain, run, bases[i]);
  }

  /** The script of the party: the peel of every peeler with its own key, by whoever makes it. */
  ghost function PartyScript(cs: seq<DealConfig>, bases: seq<DealState>, gone: map<string, Key>, agents: seq<nat>,
      k: Keys, plain: int -> int, run: Run): (script: seq<PeelMessage>)
    requires Party(cs, bases, gone, agents, k, plain, run)
    ensures |script| == |agents|
  {
    var peelers := InstallJob(cs[0], run.jobs[run.jobIdx]).value.peelers;
    MakersHonest(cs, bases, gone, agents, k, plain, run, peelers);
    HonestScript(Makers(cs, agents, peelers, k), MakerBases(bases, agents), k, plain, run)
  }

  ghost predicate PartyJob(cs: seq<DealConfig>, bases: seq<DealState>, gone: map<string, Key>, agents: seq<nat>,
      k: Keys, plain: int -> int, run: Run, peelers: seq<string>, script: seq<PeelMessage>) {
    && Party(cs, bases, gone, agents, k, plain, run)
    && script == PartyScript(cs, bases, gone, agents, k, plain, run)
    && peelers == InstallJob(cs[0], run.jobs[run.jobIdx]).value.peelers
  }

  // -------------------------------------------------------------- every seat that is left

  /** A peeler that is still there makes its own peel under its own configuration. */
  lemma MakerIsSeat(cs: seq<DealConfig>, bases: seq<DealState>, agents: seq<nat>, peelers: seq<string>, k: Keys,
      x: nat)
    requires |agents| == |peelers| && |bases| == |cs| && forall y :: 0 <= y < |agents| ==> agents[y] < |cs|
    requires x < |agents| && cs[agents[x]].local == peelers[x] && cs[agents[x]].key == k(peelers[x])
    ensures Makers(cs, agents, peelers, k)[x] == cs[agents[x]] && MakerBases(bases, agents)[x] == bases[agents[x]]
  {
  }

  lemma PeelerFollows(cs: seq<DealConfig>, bases: seq<DealState>, gone: map<string, Key>, agents: seq<nat>,
      k: Keys, plain: int -> int, run: Run, peelers: seq<string>, script: seq<PeelMessage>, x: nat)
    requires PartyJob(cs, bases, gone, agents, k, plain, run, peelers, script)
    requires x < |agents| && cs[agents[x]].local == peelers[x]
    ensures var c, base := cs[agents[x]], bases[agents[x]];
            && Follows(c, base, script) && Own(c, base) == Some(x) && Peelers(c, base) == peelers
            && JobOf(base).recipient != c.local
  {
    var ms, mb := Makers(cs, agents, peelers, k), MakerBases(bases, agents);
    assert HonestSeat(cs[0], cs[agents[x]], bases[agents[x]], k, plain, run);
    MakersHonest(cs, bases, gone, agents, k, plain, run, peelers);
    MakerIsSeat(cs, bases, agents, peelers, k, x);
    HonestFollows(ms, mb, k, plain, run, x);
    TableJob(ms, mb, k, plain, run, x);
  }

  /** Seat x of the peelers, if it is still there, peels in this job and goes on after it. */
  lemma PeelerEnds(cs: seq<DealConfig>, bases: seq<DealState>, gone: map<string, Key>, agents: seq<nat>,
      k: Keys, plain: int -> int, run: Run, peelers: seq<string>, script: seq<PeelMessage>, x: nat)
    requires PartyJob(cs, bases, gone, agents, k, plain, run, peelers, script)
    requires x < |agents| && cs[agents[x]].local == peelers[x]
    ensures var c, base := cs[agents[x]], bases[agents[x]];
            Follows(c, base, script) && Peelers(c, base) == peelers && Ending(c, base, script).out.Ok?
  {
    var c, base := cs[agents[x]], bases[agents[x]];
    assert HonestSeat(cs[0], c, base, k, plain, run);
    PeelerFollows(cs, bases, gone, agents, k, plain, run, peelers, script, x);
    JobsFit(c, run, base.flags);
    PeelerGoesOn(c, base, script, k, plain);
  }

  /** A seat at the table that does not peel is the recipient of the job. */
  lemma OutsiderIsRecipient(c: DealConfig, j: Job)
    requires ValidDeal(c) && JobFits(c, j) && InstallJob(c, j).Ok? && c.local !in InstallJob(c, j).value.peelers
    ensures j.kind == HoleJob && j.recipient == c.local
  {
    WithoutKeeps(c.order, j.recipient);
  }

  /** A seat that does not peel is the recipient, at the honest table of the makers. */
  lemma OutsiderReceives(cs: seq<DealConfig>, bases: seq<DealState>, gone: map<string, Key>, agents: seq<nat>,
      k: Keys, plain: int -> int, run: Run, peelers: seq<string>, script: seq<PeelMessage>, i: nat)
    requires PartyJob(cs, bases, gone, agents, k, plain, run, peelers, script)
    requires i < |cs| && cs[i].local !in peelers
    ensures HonestRecipient(Makers(cs, agents, peelers, k), MakerBases(bases, agents), k, plain, run, cs[i], bases[i])
    ensures forall x :: 0 <= x < |run.jobs| ==> JobFits(cs[i], run.jobs[x])
    ensures InstallJob(cs[i], run.jobs[run.jobIdx]) == InstallJob(cs[0], run.jobs[run.jobIdx])
  {
    assert HonestSeat(cs[0], cs[i], bases[i], k, plain, run);
    MakersHonest(cs, bases, gone, agents, k, plain, run, peelers);
    OneMaker(cs, bases, gone, agents, k, plain, run, peelers, 0);
    JobsFit(cs[i], run, bases[i].flags);
    OutsiderIsRecipient(cs[i], run.jobs[run.jobIdx]);
  }

  lemma RecipientEnds(ms: seq<DealConfig>, mb: seq<DealState>, k: Keys, plain: int -> int, run: Run, c: DealConfig,
      base: DealState, script: seq<PeelMessage>)
    requires HonestRecipient(ms, mb, k, plain, run, c, base) && script == HonestScript(ms, mb, k, plain, run)
    requires forall x :: 0 <= x < |run.jobs| ==> JobFits(c, run.jobs[x])
    ensures Follows(c, base, script) && Ending(c, base, script).out.Ok?
  {
    HoleJobOpens(ms, mb, k, plain, run, c, base, script);
    var full := base.(work := Complete(c, base, script));
    AdvanceStarts(c, k, plain, full.(got := FinishJob(c, full).0));
  }

  lemma OutsiderFollows(cs: seq<DealConfig>, bases: seq<DealState>, gone: map<string, Key>, agents: seq<nat>,
      k: Keys, plain: int -> int, run: Run, peelers: seq<string>, script: seq<PeelMessage>, i: nat)
    requires PartyJob(cs, bases, gone, agents, k, plain, run, peelers, script)
    requires i < |cs| && cs[i].local !in peelers
    ensures var c, base := cs[i], bases[i];
            Follows(c, base, script) && Peelers(c, base) == peelers && Ending(c, base, script).out.Ok?
  {
    OutsiderReceives(cs, bases, gone, agents, k, plain, run, peelers, script, i);
    RecipientEnds(Makers(cs, agents, peelers, k), MakerBases(bases, agents), k, plain, run, cs[i], bases[i], script);
  }

  /** The peel of a seat that is still there is its own to make. */
  lemma PresentAgent(cs: seq<DealConfig>, gone: map<string, Key>, agents: seq<nat>, peelers: seq<string>, i: nat)
    returns (x: nat)
    requires (forall i, j :: 0 <= i < j < |cs| ==> cs[i].local != cs[j].local) && i < |cs| && |agents| == |peelers|
    requires forall y :: 0 <= y < |agents| ==>
               agents[y] < |cs| && cs[agents[y]].local == AgentOf(cs[0].order, gone, peelers[y])
    requires cs[i].local !in gone && cs[i].local in peelers
    ensures x < |agents| && agents[x] == i && cs[i].local == peelers[x]
  {
    x :| 0 <= x < |peelers| && peelers[x] == cs[i].local;
    AgentIs(cs, agents, x, i);
  }

  lemma SeatFollows(cs: seq<DealConfig>, bases: seq<DealState>, gone: map<string, Key>, agents: seq<nat>,
      k: Keys, plain: int -> int, run: Run, peelers: seq<string>, script: seq<PeelMessage>, i: nat)
    requires PartyJob(cs, bases, gone, agents, k, plain, run, peelers, script) && i < |cs|
    ensures var c, base := cs[i], bases[i];
            Follows(c, base, script) && Peelers(c, base) == peelers && Ending(c, base, script).out.Ok?
  {
    if cs[i].local in peelers {
      var x := PresentAgent(cs, gone, agents, peelers, i);
      PeelerEnds(cs, bases, gone, agents, k, plain, run, peelers, script, x);
    } else {
      OutsiderFollows(cs, bases, gone, agents, k, plain, run, peelers, script, i);
    }
  }

  /** Agent i makes exactly the peels that are its own or those of gone seats for which it stands. */
  lemma AgentMakes(cs: seq<DealConfig>, bases: seq<DealState>, gone: map<string, Key>, agents: seq<nat>,
      peelers: seq<string>, script: seq<PeelMessage>, i: nat, x: nat)
    requires (forall i, j :: 0 <= i < j < |cs| ==> cs[i].local != cs[j].local) && i < |cs| == |bases|
    requires |agents| == |peelers| && x < |agents| && agents[x] < |cs| && cs[i].local !in gone
    requires cs[agents[x]].local == AgentOf(cs[i].order, gone, peelers[x])
    requires Follows(cs[i], bases[i], script) && Peelers(cs[i], bases[i]) == peelers
    ensures agents[x] == i <==> Makes(cs[i], bases[i], gone, x)
  {
    AgentIs(cs, agents, x, i);
    PlaceOf(cs[i], bases[i], script, x);
  }

  lemma AgentIs(cs: seq<DealConfig>, agents: seq<nat>, x: nat, i: nat)
    requires (forall i, j :: 0 <= i < j < |cs| ==> cs[i].local != cs[j].local) && i < |cs|
    requires x < |agents| && agents[x] < |cs|
    ensures agents[x] == i <==> cs[agents[x]].local == cs[i].local
  {
    if agents[x] < i {
      assert cs[agents[x]].local != cs[i].local;
    }
    if i < agents[x] {
      assert cs[i].local != cs[agents[x]].local;
    }
  }

  /** The peel of a gone seat in the script is the one that its agent makes with the recovered key. */
  lemma PartySubstitutes(cs: seq<DealConfig>, bases: seq<DealState>, gone: map<string, Key>, agents: seq<nat>,
      k: Keys, plain: int -> int, run: Run, peelers: seq<string>, script: seq<PeelMessage>, i: nat, x: nat)
    requires PartyJob(cs, bases, gone, agents, k, plain, run, peelers, script)
    requires i < |cs|
    requires x < |agents| && agents[x] == i && peelers[x] in gone
    requires Follows(cs[i], bases[i], script) && Peelers(cs[i], bases[i]) == peelers && SameModulus(cs[i], gone)
    ensures Substitutes(cs[i], bases[i], gone, script, x)
  {
    var ms, mb := Makers(cs, agents, peelers, k), MakerBases(bases, agents);
    assert HonestSeat(cs[0], cs[i], bases[i], k, plain, run);
    MakersHonest(cs, bases, gone, agents, k, plain, run, peelers);
    PeelerAtTable(cs[0], run.jobs[run.jobIdx], peelers[x]);
    KeyOfSeat(cs[i], k, plain, peelers[x]);
    BeforeIsCur(ms, mb, k, plain, run, x, x);
    OwnIsScripted(ms, mb, k, plain, run, x);
  }

  lemma GoneModulus(cs: seq<DealConfig>, bases: seq<DealState>, gone: map<string, Key>, agents: seq<nat>,
      k: Keys, plain: int -> int, run: Run, i: nat)
    requires Party(cs, bases, gone, agents, k, plain, run) && i < |cs|
    ensures SameModulus(cs[i], gone)
  {
    assert HonestSeat(cs[0], cs[i], bases[i], k, plain, run);
    forall id | id in gone ensures gone[id].p == cs[i].p {
      KeyOfSeat(cs[i], k, plain, id);
    }
  }

  /**
   * With key pairs for every seat, a deck that carries every seat's layer and the true keys of
   * the gone, the seats that are left follow one script, whichever and however many are gone.
   */
  lemma PartyScripted(cs: seq<DealConfig>, bases: seq<DealState>, gone: map<string, Key>, agents: seq<nat>,
      k: Keys, plain: int -> int, run: Run)
    requires Party(cs, bases, gone, agents, k, plain, run)
    ensures Scripted(cs, bases, gone, agents, PartyScript(cs, bases, gone, agents, k, plain, run))
  {
    var script := PartyScript(cs, bases, gone, agents, k, plain, run);
    var peelers := InstallJob(cs[0], run.jobs[run.jobIdx]).value.peelers;
    forall i | 0 <= i < |cs| ensures Seated(cs[i], bases[i], gone, agents, script, i) {
      assert HonestSeat(cs[0], cs[i], bases[i], k, plain, run);
      SeatFollows(cs, bases, gone, agents, k, plain, run, peelers, script, i);
      GoneModulus(cs, bases, gone, agents, k, plain, run, i);
      SequenceApart(cs[i], run, bases[i].flags);
      forall x | 0 <= x < |script| ensures agents[x] == i <==> Makes(cs[i], bases[i], gone, x) {
        AgentMakes(cs, bases, gone, agents, peelers, script, i, x);
      }
      forall x | 0 <= x < |script| && Stands(cs[i], gone) && Peelers(cs[i], bases[i])[x] in gone
        ensures Substitutes(cs[i], bases[i], gone, script, x)
      {
        PartySubstitutes(cs, bases, gone, agents, k, plain, run, peelers, script, i, x);
      }
    }
  }
}
