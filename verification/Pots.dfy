// Main pot and side pots (internal/game/pot.go).
module Pots {
  import opened GameState

  datatype Contrib = Contrib(id: string, bet: int)

  /** The seats with chips in the hand, in seat order. */
  function Contribs(seats: seq<Seat>): seq<Contrib> {
    if seats == [] then []
    else (if seats[0].totalBet > 0 then [Contrib(seats[0].id, seats[0].totalBet)] else []) + Contribs(seats[1..])
  }

  /** One step of a stable insertion sort by bet. */
  function Insert(c: Contrib, cs: seq<Contrib>): (r: seq<Contrib>)
    ensures |r| == |cs| + 1
  {
    if cs == [] || c.bet <= cs[0].bet then [c] + cs else [cs[0]] + Insert(c, cs[1..])
  }

  function SortByBet(cs: seq<Contrib>): (r: seq<Contrib>)
    ensures |r| == |cs|
  {
    if cs == [] then [] else Insert(cs[0], SortByBet(cs[1..]))
  }

  function IDs(cs: seq<Contrib>): (r: seq<string>)
    ensures |r| == |cs|
  {
    seq(|cs|, i requires 0 <= i < |cs| => cs[i].id)
  }

  /** One pot per level of the sorted contributions above prev: everyone who reaches it pays the step. */
  function Layers(cs: seq<Contrib>, prev: int): seq<Pot> {
    if cs == [] then []
    else if cs[0].bet == prev then Layers(cs[1..], prev)
    else [Pot((cs[0].bet - prev) * |cs|, IDs(cs))] + Layers(cs[1..], cs[0].bet)
  }

  /** sameEligible: as long as each other, and every identifier of b is in a. */
  predicate SameEligible(a: seq<string>, b: seq<string>) {
    |a| == |b| && forall i :: 0 <= i < |b| ==> b[i] in a
  }

  /** mergePots, the pots in merged being done. */
  function MergeFrom(merged: seq<Pot>, pots: seq<Pot>): seq<Pot>
    requires merged != []
    decreases |pots|
  {
    if pots == [] then merged else
    var last := merged[|merged| - 1];
    if SameEligible(last.eligible, pots[0].eligible)
    then MergeFrom(merged[|merged| - 1 := Pot(last.amount + pots[0].amount, last.eligible)], pots[1..])
    else MergeFrom(merged + [pots[0]], pots[1..])
  }

  function MergePots(pots: seq<Pot>): seq<Pot> {
    if pots == [] then [] else MergeFrom([pots[0]], pots[1..])
  }

  function CalculatePots(seats: seq<Seat>): seq<Pot> {
    MergePots(Layers(SortByBet(Contribs(seats)), 0))
  }

  function TotalPot(pots: seq<Pot>): int {
    if pots == [] then 0 else pots[0].amount + TotalPot(pots[1..])
  }

  // ------------------------------------------------------------------ the loops

  lemma {:induction false} TotalPotSnoc(pots: seq<Pot>, p: Pot)
    ensures TotalPot(pots + [p]) == TotalPot(pots) + p.amount
  {
    if pots == [] {
      assert [] + [p] == [p];
    } else {
      TotalPotSnoc(pots[1..], p);
      assert (pots + [p])[1..] == pots[1..] + [p];
    }
  }

  method SumPots(pots: seq<Pot>) returns (total: int)
    ensures total == TotalPot(pots)
  {
    total := 0;
    for i := 0 to |pots|
      invariant total == TotalPot(pots[..i])
    {
      TotalPotSnoc(pots[..i], pots[i]);
      assert pots[..i + 1] == pots[..i] + [pots[i]];
      total := total + pots[i].amount;
    }
    assert pots[..|pots|] == pots;
  }

  lemma {:induction false} ContribsSnoc(seats: seq<Seat>, s: Seat)
    ensures Contribs(seats + [s]) == Contribs(seats) + if s.totalBet > 0 then [Contrib(s.id, s.totalBet)] else []
  {
    if seats == [] {
      assert ([] + [s])[1..] == [];
    } else {
      ContribsSnoc(seats[1..], s);
      assert (seats + [s])[1..] == seats[1..] + [s];
    }
  }

  /** The amount and eligible list of one level, added up contributor by contributor. */
  method OneLayer(cs: seq<Contrib>, i: nat, diff: int) returns (pot: Pot)
    requires i <= |cs|
    ensures pot == Pot(diff * (|cs| - i), IDs(cs[i..]))
  {
    var amount := 0;
    var eligible: seq<string> := [];
    var j := i;
    while j < |cs|
      invariant i <= j <= |cs|
      invariant amount == diff * (j - i)
      invariant eligible == IDs(cs[i..])[..j - i]
    {
      assert diff * (j + 1 - i) == diff * (j - i) + diff;
      amount := amount + diff;
      eligible := eligible + [cs[j].id];
      j := j + 1;
    }
    return Pot(amount, eligible);
  }

  lemma LayersFrom(cs: seq<Contrib>, i: nat, prev: int)
    requires i < |cs|
    ensures cs[i].bet == prev ==> Layers(cs[i..], prev) == Layers(cs[i + 1..], prev)
    ensures cs[i].bet != prev ==>
              Layers(cs[i..], prev)
                  == [Pot((cs[i].bet - prev) * |cs[i..]|, IDs(cs[i..]))] + Layers(cs[i + 1..], cs[i].bet)
  {
    assert cs[i..][1..] == cs[i + 1..];
  }

  method BuildLayers(cs: seq<Contrib>) returns (pots: seq<Pot>)
    ensures pots == Layers(cs, 0)
  {
    pots := [];
    var prevLevel := 0;
    var i := 0;
    while i < |cs|
      invariant 0 <= i <= |cs|
      invariant Layers(cs, 0) == pots + Layers(cs[i..], prevLevel)
    {
      LayersFrom(cs, i, prevLevel);
      if cs[i].bet != prevLevel {
        var pot := OneLayer(cs, i, cs[i].bet - prevLevel);
        pots := pots + [pot];
        prevLevel := cs[i].bet;
      }
      i := i + 1;
    }
  }

  method MergeInPlace(pots: seq<Pot>) returns (merged: seq<Pot>)
    ensures merged == MergePots(pots)
  {
    if pots == [] {
      return [];
    }
    merged := [pots[0]];
    var i := 1;
    while i < |pots|
      invariant 1 <= i <= |pots| && merged != []
      invariant MergePots(pots) == MergeFrom(merged, pots[i..])
    {
      assert pots[i..][1..] == pots[i + 1..];
      var last := merged[|merged| - 1];
      if SameEligible(last.eligible, pots[i].eligible) {
        merged := merged[|merged| - 1 := Pot(last.amount + pots[i].amount, last.eligible)];
      } else {
        merged := merged + [pots[i]];
      }
      i := i + 1;
    }
  }

  method ComputePots(seats: seq<Seat>) returns (pots: seq<Pot>)
    ensures pots == CalculatePots(seats)
  {
    var contribs: seq<Contrib> := [];
    for i := 0 to |seats|
      invariant contribs == Contribs(seats[..i])
    {
      ContribsSnoc(seats[..i], seats[i]);
      assert seats[..i + 1] == seats[..i] + [seats[i]];
      if seats[i].totalBet > 0 {
        contribs := contribs + [Contrib(seats[i].id, seats[i].totalBet)];
      }
    }
    assert seats[..|seats|] == seats;
    if contribs == [] {
      return [];
    }
    var layers := BuildLayers(SortByBet(contribs));
    pots := MergeInPlace(layers);
  }

  // --------------------------------------------------------------------- exactness

  predicate Sorted(cs: seq<Contrib>) {
    forall i :: 0 < i < |cs| ==> cs[i - 1].bet <= cs[i].bet
  }

  predicate AllAbove(cs: seq<Contrib>, prev: int) {
    forall i :: 0 <= i < |cs| ==> cs[i].bet >= prev
  }

  lemma {:induction false} InsertContents(c: Contrib, cs: seq<Contrib>)
    ensures multiset(Insert(c, cs)) == multiset(cs) + multiset{c}
  {
    if cs != [] && c.bet > cs[0].bet {
      InsertContents(c, cs[1..]);
      assert cs == [cs[0]] + cs[1..];
    }
  }

  lemma SortedFront(c: Contrib, cs: seq<Contrib>)
    requires Sorted(cs) && (cs != [] ==> c.bet <= cs[0].bet)
    ensures Sorted([c] + cs)
  {
    assert forall i :: 0 < i < |cs| + 1 ==> ([c] + cs)[i] == cs[i - 1];
  }

  lemma {:induction false} InsertSorts(c: Contrib, cs: seq<Contrib>)
    requires Sorted(cs)
    ensures Sorted(Insert(c, cs)) && Insert(c, cs) != []
    ensures cs == [] || Insert(c, cs)[0] == cs[0] || Insert(c, cs)[0] == c
  {
    if cs != [] && c.bet > cs[0].bet {
      assert forall i :: 0 <= i < |cs[1..]| ==> cs[1..][i] == cs[i + 1];
      InsertSorts(c, cs[1..]);
      SortedFront(cs[0], Insert(c, cs[1..]));
    } else {
      SortedFront(c, cs);
    }
  }

  lemma HeadCounts(cs: seq<Contrib>)
    requires cs != []
    ensures multiset(cs) == multiset(cs[1..]) + multiset{cs[0]}
  {
    assert cs == [cs[0]] + cs[1..];
  }

  lemma {:induction false} SortSorts(cs: seq<Contrib>)
    ensures Sorted(SortByBet(cs)) && multiset(SortByBet(cs)) == multiset(cs)
  {
    if cs != [] {
      var rest := SortByBet(cs[1..]);
      SortSorts(cs[1..]);
      InsertSorts(cs[0], rest);
      InsertContents(cs[0], rest);
      HeadCounts(cs);
    }
  }

  /** Lengths of the eligible lists fall strictly from layer to layer. */
  predicate Shrinking(pots: seq<Pot>) {
    forall i :: 0 < i < |pots| ==> |pots[i].eligible| < |pots[i - 1].eligible|
  }

  lemma {:induction false} LayersShrink(cs: seq<Contrib>, prev: int)
    ensures Shrinking(Layers(cs, prev))
    ensures Layers(cs, prev) != [] ==> |Layers(cs, prev)[0].eligible| <= |cs|
  {
    if cs != [] {
      LayersShrink(cs[1..], if cs[0].bet == prev then prev else cs[0].bet);
    }
  }

  lemma {:induction false} MergeNothing(merged: seq<Pot>, pots: seq<Pot>)
    requires merged != [] && Shrinking(merged + pots)
    ensures MergeFrom(merged, pots) == merged + pots
    decreases |pots|
  {
    if pots != [] {
      assert merged + pots == (merged + [pots[0]]) + pots[1..];
      assert (merged + pots)[|merged|] == pots[0] && (merged + pots)[|merged| - 1] == merged[|merged| - 1];
      MergeNothing(merged + [pots[0]], pots[1..]);
    }
  }

  /** Merging changes nothing: no two layers ever have the same eligible seats. */
  lemma MergeIsIdentity(seats: seq<Seat>)
    ensures CalculatePots(seats) == Layers(SortByBet(Contribs(seats)), 0) && Shrinking(CalculatePots(seats))
  {
    var layers := Layers(SortByBet(Contribs(seats)), 0);
    LayersShrink(SortByBet(Contribs(seats)), 0);
    if layers != [] {
      assert [layers[0]] + layers[1..] == layers;
      MergeNothing([layers[0]], layers[1..]);
    }
  }

  /** Contributions counted up to a cap, less what earlier layers took. */
  function CappedSum(cs: seq<Contrib>, cap: int, prev: int): int {
    if cs == [] then 0 else (if cs[0].bet < cap then cs[0].bet else cap) - prev + CappedSum(cs[1..], cap, prev)
  }

  function EligibleSum(pots: seq<Pot>, id: string): int {
    if pots == [] then 0 else (if id in pots[0].eligible then pots[0].amount else 0) + EligibleSum(pots[1..], id)
  }

  lemma OneMoreShare(d: int, n: int)
    ensures d * (n + 1) == d * n + d
  {
  }

  lemma {:induction false} CappedShift(cs: seq<Contrib>, cap: int, prev: int, level: int)
    ensures CappedSum(cs, cap, prev) == CappedSum(cs, cap, level) + (level - prev) * |cs|
  {
    if cs != [] {
      CappedShift(cs[1..], cap, prev, level);
      OneMoreShare(level - prev, |cs[1..]|);
    }
  }

  lemma {:induction false} CappedAtBottom(cs: seq<Contrib>, prev: int)
    requires AllAbove(cs, prev)
    ensures CappedSum(cs, prev, prev) == 0
  {
    if cs != [] {
      assert AllAbove(cs[1..], prev) by {
        assert forall i :: 0 <= i < |cs[1..]| ==> cs[1..][i] == cs[i + 1];
      }
      CappedAtBottom(cs[1..], prev);
    }
  }

  lemma {:induction false} SortedTail(cs: seq<Contrib>)
    requires Sorted(cs) && cs != []
    ensures Sorted(cs[1..]) && AllAbove(cs[1..], cs[0].bet)
    decreases |cs|
  {
    assert forall i :: 0 <= i < |cs[1..]| ==> cs[1..][i] == cs[i + 1];
    if |cs| > 1 {
      SortedTail(cs[1..]);
      assert forall i :: 0 <= i < |cs[1..][1..]| ==> cs[1..][1..][i] == cs[1..][i + 1];
    }
  }

  lemma {:induction false} NotEligible(cs: seq<Contrib>, prev: int, id: string)
    requires id !in IDs(cs)
    ensures EligibleSum(Layers(cs, prev), id) == 0
  {
    if cs != [] {
      assert forall i :: 0 <= i < |cs[1..]| ==> IDs(cs[1..])[i] == IDs(cs)[i + 1];
      NotEligible(cs[1..], if cs[0].bet == prev then prev else cs[0].bet, id);
    }
  }

  predicate DistinctContribs(cs: seq<Contrib>) {
    forall i, j :: 0 <= i < j < |cs| ==> cs[i].id != cs[j].id
  }

  lemma LowestLayers(cs: seq<Contrib>, prev: int)
    requires Sorted(cs) && AllAbove(cs, prev) && DistinctContribs(cs) && cs != []
    ensures EligibleSum(Layers(cs, prev), cs[0].id) == CappedSum(cs, cs[0].bet, prev)
  {
    var id, level := cs[0].id, cs[0].bet;
    SortedTail(cs);
    assert forall i :: 0 <= i < |cs[1..]| ==> cs[1..][i] == cs[i + 1];
    NotEligible(cs[1..], level, id);
    assert AllAbove(cs, level) by {
      assert forall i :: 0 < i < |cs| ==> cs[i] == cs[1..][i - 1];
    }
    CappedAtBottom(cs, level);
    CappedShift(cs, level, prev, level);
    assert id == IDs(cs)[0];
  }

  /** The layers that the k-th contributor can win hold, from every seat, what it can match. */
  lemma {:induction false} EligibleLayers(cs: seq<Contrib>, prev: int, k: nat)
    requires Sorted(cs) && AllAbove(cs, prev) && DistinctContribs(cs) && k < |cs|
    ensures EligibleSum(Layers(cs, prev), cs[k].id) == CappedSum(cs, cs[k].bet, prev)
    decreases |cs|
  {
    if k == 0 {
      LowestLayers(cs, prev);
    } else {
      var id, level, rest := cs[k].id, cs[0].bet, cs[1..];
      SortedTail(cs);
      assert forall i :: 0 <= i < |rest| ==> rest[i] == cs[i + 1];
      EligibleLayers(rest, level, k - 1);
      CappedShift(cs, rest[k - 1].bet, prev, level);
      assert id == IDs(cs)[k] && rest[k - 1].bet >= level;
    }
  }

  lemma {:induction false} LayersTotal(cs: seq<Contrib>, prev: int, cap: int)
    requires Sorted(cs) && AllAbove(cs, prev) && forall i :: 0 <= i < |cs| ==> cs[i].bet <= cap
    ensures TotalPot(Layers(cs, prev)) == CappedSum(cs, cap, prev)
  {
    if cs != [] {
      var level := cs[0].bet;
      SortedTail(cs);
      assert forall i :: 0 <= i < |cs[1..]| ==> cs[1..][i] == cs[i + 1];
      LayersTotal(cs[1..], level, cap);
      CappedShift(cs[1..], cap, prev, level);
      OneMoreShare(level - prev, |cs[1..]|);
    }
  }

  // --------------------------------------------------- from contributions to seats

  function MinBet(cap: int): Seat -> int {
    (s: Seat) => if s.totalBet < cap then s.totalBet else cap
  }

  lemma {:induction false} CappedInsert(c: Contrib, cs: seq<Contrib>, cap: int)
    ensures CappedSum(Insert(c, cs), cap, 0) == CappedSum(cs, cap, 0) + (if c.bet < cap then c.bet else cap)
  {
    if cs != [] && c.bet > cs[0].bet {
      CappedInsert(c, cs[1..], cap);
    }
  }

  lemma {:induction false} CappedIsSeatSum(seats: seq<Seat>, cap: int)
    requires cap >= 0 && forall i :: 0 <= i < |seats| ==> seats[i].totalBet >= 0
    ensures CappedSum(SortByBet(Contribs(seats)), cap, 0) == SumOf(MinBet(cap), seats)
  {
    if seats != [] {
      assert forall i :: 0 <= i < |seats[1..]| ==> seats[1..][i] == seats[i + 1];
      CappedIsSeatSum(seats[1..], cap);
      var rest := Contribs(seats[1..]);
      if seats[0].totalBet > 0 {
        var c := Contrib(seats[0].id, seats[0].totalBet);
        assert ([c] + rest)[1..] == rest;
        CappedInsert(c, SortByBet(rest), cap);
      } else {
        assert [] + rest == rest;
      }
    }
  }

  lemma {:induction false} ContribsOfSeats(seats: seq<Seat>)
    ensures forall c :: c in Contribs(seats) ==>
              c.bet > 0 && exists i :: 0 <= i < |seats| && seats[i].id == c.id && seats[i].totalBet == c.bet
    ensures forall i :: 0 <= i < |seats| && seats[i].totalBet > 0 ==>
              Contrib(seats[i].id, seats[i].totalBet) in Contribs(seats)
  {
    if seats != [] {
      ContribsOfSeats(seats[1..]);
      forall c | c in Contribs(seats)
          ensures c.bet > 0 && exists i :: 0 <= i < |seats| && seats[i].id == c.id && seats[i].totalBet == c.bet {
        if c in Contribs(seats[1..]) {
          var i :| 0 <= i < |seats[1..]| && seats[1..][i].id == c.id && seats[1..][i].totalBet == c.bet;
          assert seats[i + 1] == seats[1..][i];
        } else {
          assert c == Contrib(seats[0].id, seats[0].totalBet);
        }
      }
      forall i | 0 <= i < |seats| && seats[i].totalBet > 0
          ensures Contrib(seats[i].id, seats[i].totalBet) in Contribs(seats) {
        if i > 0 {
          assert seats[i] == seats[1..][i - 1];
        }
      }
    }
  }

  lemma {:induction false} ContribsDistinct(seats: seq<Seat>)
    requires DistinctIDs(seats)
    ensures DistinctContribs(Contribs(seats))
  {
    if seats != [] {
      assert forall i :: 0 <= i < |seats[1..]| ==> seats[1..][i] == seats[i + 1];
      ContribsDistinct(seats[1..]);
      ContribsOfSeats(seats[1..]);
      var rest := Contribs(seats[1..]);
      assert forall k :: 0 <= k < |rest| ==> rest[k] in rest;
    }
  }

  lemma {:induction false} DistinctBySort(cs: seq<Contrib>)
    requires DistinctContribs(cs)
    ensures DistinctContribs(SortByBet(cs))
    decreases |cs|
  {
    if cs != [] {
      assert forall i :: 0 <= i < |cs[1..]| ==> cs[1..][i] == cs[i + 1];
      DistinctBySort(cs[1..]);
      SortSorts(cs[1..]);
      DistinctInsert(cs[0], SortByBet(cs[1..]), cs[1..]);
    }
  }

  lemma {:induction false} DistinctInsert(c: Contrib, s: seq<Contrib>, source: seq<Contrib>)
    requires DistinctContribs(s) && multiset(s) <= multiset(source)
    requires forall k :: 0 <= k < |source| ==> source[k].id != c.id
    ensures DistinctContribs(Insert(c, s))
  {
    forall k | 0 <= k < |s| ensures s[k].id != c.id {
      assert s[k] in multiset(s);
      assert s[k] in source;
    }
    InsertDistinct(c, s);
  }

  lemma {:induction false} InsertDistinct(c: Contrib, s: seq<Contrib>)
    requires DistinctContribs(s) && forall k :: 0 <= k < |s| ==> s[k].id != c.id
    ensures DistinctContribs(Insert(c, s))
    ensures forall k :: 0 <= k < |Insert(c, s)| ==> Insert(c, s)[k] == c || Insert(c, s)[k] in s
  {
    if s != [] && c.bet > s[0].bet {
      assert forall i :: 0 <= i < |s[1..]| ==> s[1..][i] == s[i + 1];
      InsertDistinct(c, s[1..]);
      var r := Insert(c, s[1..]);
      forall k | 0 <= k < |r| ensures r[k].id != s[0].id && (r[k] == c || r[k] in s) {
        if r[k] != c {
          var j :| 0 <= j < |s[1..]| && s[1..][j] == r[k];
          assert s[j + 1] == r[k];
        }
      }
    }
  }

  predicate Betted(seats: seq<Seat>) {
    forall i :: 0 <= i < |seats| ==> seats[i].totalBet >= 0
  }

  lemma SortedContribs(seats: seq<Seat>)
    ensures var cs := SortByBet(Contribs(seats));
            && Sorted(cs) && AllAbove(cs, 0)
            && (forall c :: c in cs <==> c in Contribs(seats))
  {
    var cs := SortByBet(Contribs(seats));
    SortSorts(Contribs(seats));
    ContribsOfSeats(seats);
    assert forall c :: c in cs <==> c in multiset(cs);
    assert forall c :: c in Contribs(seats) <==> c in multiset(Contribs(seats));
    forall i | 0 <= i < |cs| ensures cs[i].bet >= 0 {
      assert cs[i] in cs;
    }
  }

  /** The pots hold exactly what the seats have bet. */
  lemma PotsHoldAllBets(seats: seq<Seat>)
    requires Betted(seats)
    ensures TotalPot(CalculatePots(seats)) == TotalBets(seats)
  {
    var cs := SortByBet(Contribs(seats));
    var cap := Highest(seats);
    MergeIsIdentity(seats);
    SortedContribs(seats);
    ContribsOfSeats(seats);
    forall i | 0 <= i < |cs| ensures cs[i].bet <= cap {
      assert cs[i] in cs;
    }
    LayersTotal(cs, 0, cap);
    CappedIsSeatSum(seats, cap);
    SumCapped(seats, cap);
  }

  function Highest(seats: seq<Seat>): (h: int)
    ensures h >= 0 && forall i :: 0 <= i < |seats| ==> seats[i].totalBet <= h
  {
    if seats == [] then 0
    else
      var h := Highest(seats[1..]);
      assert forall i :: 0 < i < |seats| ==> seats[i] == seats[1..][i - 1];
      if seats[0].totalBet > h then seats[0].totalBet else h
  }

  lemma {:induction false} SumCapped(seats: seq<Seat>, cap: int)
    requires forall i :: 0 <= i < |seats| ==> seats[i].totalBet <= cap
    ensures SumOf(MinBet(cap), seats) == TotalBets(seats)
  {
    if seats != [] {
      assert forall i :: 0 <= i < |seats[1..]| ==> seats[1..][i] == seats[i + 1];
      SumCapped(seats[1..], cap);
    }
  }

  lemma BettorSorted(seats: seq<Seat>, i: nat) returns (k: nat)
    requires i < |seats| && seats[i].totalBet > 0
    ensures var cs := SortByBet(Contribs(seats)); k < |cs| && cs[k] == Contrib(seats[i].id, seats[i].totalBet)
  {
    var cs, c := SortByBet(Contribs(seats)), Contrib(seats[i].id, seats[i].totalBet);
    SortedContribs(seats);
    ContribsOfSeats(seats);
    assert c in cs;
    k :| 0 <= k < |cs| && cs[k] == c;
  }

  lemma NonBettorAbsent(seats: seq<Seat>, i: nat)
    requires DistinctIDs(seats) && i < |seats| && seats[i].totalBet <= 0
    ensures seats[i].id !in IDs(SortByBet(Contribs(seats)))
  {
    var cs := SortByBet(Contribs(seats));
    SortedContribs(seats);
    ContribsOfSeats(seats);
    forall k | 0 <= k < |cs| ensures IDs(cs)[k] != seats[i].id {
      assert cs[k] in Contribs(seats);
      var j :| 0 <= j < |seats| && seats[j].id == cs[k].id && seats[j].totalBet == cs[k].bet;
      assert j != i;
    }
  }

  lemma BettorLayers(seats: seq<Seat>, i: nat)
    requires DistinctIDs(seats) && i < |seats| && seats[i].totalBet > 0
    ensures var cs := SortByBet(Contribs(seats));
            EligibleSum(Layers(cs, 0), seats[i].id) == CappedSum(cs, seats[i].totalBet, 0)
  {
    var k := BettorSorted(seats, i);
    SortedContribs(seats);
    ContribsDistinct(seats);
    DistinctBySort(Contribs(seats));
    EligibleLayers(SortByBet(Contribs(seats)), 0, k);
  }

  lemma NonBettorLayers(seats: seq<Seat>, i: nat)
    requires DistinctIDs(seats) && i < |seats| && seats[i].totalBet == 0
    ensures var cs := SortByBet(Contribs(seats));
            EligibleSum(Layers(cs, 0), seats[i].id) == CappedSum(cs, 0, 0)
  {
    var cs := SortByBet(Contribs(seats));
    SortedContribs(seats);
    NonBettorAbsent(seats, i);
    NotEligible(cs, 0, seats[i].id);
    CappedAtBottom(cs, 0);
  }

  /**
   * Side pots are exact: the pots that seat i is eligible for hold, from every seat, the
   * smaller of that seat's bet and its own.
   */
  lemma EligiblePotsExact(seats: seq<Seat>, i: nat)
    requires Betted(seats) && DistinctIDs(seats) && i < |seats|
    ensures EligibleSum(CalculatePots(seats), seats[i].id) == SumOf(MinBet(seats[i].totalBet), seats)
  {
    MergeIsIdentity(seats);
    CappedIsSeatSum(seats, seats[i].totalBet);
    if seats[i].totalBet > 0 {
      BettorLayers(seats, i);
    } else {
      NonBettorLayers(seats, i);
    }
  }

  // ------------------------------------------------------------- who reaches each pot

  lemma {:induction false} AllAtBottom(cs: seq<Contrib>, prev: int)
    requires forall i :: 0 <= i < |cs| ==> cs[i].bet == prev
    ensures Layers(cs, prev) == []
  {
    if cs != [] {
      assert forall i :: 0 <= i < |cs[1..]| ==> cs[1..][i] == cs[i + 1];
      AllAtBottom(cs[1..], prev);
    }
  }

  ghost predicate HasBet(cs: seq<Contrib>, id: string, bet: int) {
    exists i :: 0 <= i < |cs| && cs[i] == Contrib(id, bet)
  }

  ghost predicate OnlyTop(cs: seq<Contrib>, ids: seq<string>, bet: int) {
    forall m :: 0 <= m < |ids| ==> HasBet(cs, ids[m], bet)
  }

  lemma BetAbove(cs: seq<Contrib>, ids: seq<string>, bet: int)
    requires cs != [] && OnlyTop(cs[1..], ids, bet)
    ensures OnlyTop(cs, ids, bet)
  {
    forall m | 0 <= m < |ids| ensures HasBet(cs, ids[m], bet) {
      var i :| 0 <= i < |cs[1..]| && cs[1..][i] == Contrib(ids[m], bet);
      assert cs[i + 1] == cs[1..][i];
    }
  }

  lemma BottomIsTop(cs: seq<Contrib>, bet: int)
    requires forall i :: 0 <= i < |cs| ==> cs[i].bet == bet
    ensures OnlyTop(cs, IDs(cs), bet)
  {
    forall m | 0 <= m < |IDs(cs)| ensures HasBet(cs, IDs(cs)[m], bet) {
      assert cs[m] == Contrib(IDs(cs)[m], bet);
    }
  }

  /** The highest contributor is in every layer. */
  lemma {:induction false} HighestInEveryLayer(cs: seq<Contrib>, prev: int, k: nat)
    requires Sorted(cs) && AllAbove(cs, prev) && k < |cs| && cs[k].bet > prev
    ensures Layers(cs, prev) != []
    ensures (forall i :: 0 <= i < |cs| ==> cs[i].bet <= cs[k].bet) ==>
              forall j :: 0 <= j < |Layers(cs, prev)| ==> cs[k].id in Layers(cs, prev)[j].eligible
  {
    var level := cs[0].bet;
    SortedTail(cs);
    assert cs[k].id == IDs(cs)[k];
    if level < cs[k].bet {
      HighestInEveryLayer(cs[1..], level, k - 1);
    } else if level == cs[k].bet {
      if forall i :: 0 <= i < |cs| ==> cs[i].bet <= cs[k].bet {
        AllAtBottom(cs[1..], level);
      }
    }
  }

  /** The top layer has only the highest contributors. */
  lemma {:induction false} OnlyHighestAtTop(cs: seq<Contrib>, prev: int, k: nat)
    requires Sorted(cs) && AllAbove(cs, prev) && k < |cs| && cs[k].bet > prev && Layers(cs, prev) != []
    requires forall i :: 0 <= i < |cs| ==> cs[i].bet <= cs[k].bet
    ensures OnlyTop(cs, Layers(cs, prev)[|Layers(cs, prev)| - 1].eligible, cs[k].bet)
  {
    var level := cs[0].bet;
    SortedTail(cs);
    if level < cs[k].bet {
      HighestInEveryLayer(cs[1..], level, k - 1);
      OnlyHighestAtTop(cs[1..], level, k - 1);
      var rest := Layers(cs[1..], level);
      assert Layers(cs, prev)[|Layers(cs, prev)| - 1] == rest[|rest| - 1];
      BetAbove(cs, rest[|rest| - 1].eligible, cs[k].bet);
    } else {
      AllAtBottom(cs[1..], level);
      BottomIsTop(cs, level);
    }
  }

  lemma NoContribs(seats: seq<Seat>)
    requires forall i :: 0 <= i < |seats| ==> seats[i].totalBet <= 0
    ensures Contribs(seats) == []
  {
  }

  /** A seat that nobody has outbet is eligible for every pot. */
  lemma TopSeatEligible(seats: seq<Seat>, u: nat)
    requires u < |seats| && forall i :: 0 <= i < |seats| ==> seats[i].totalBet <= seats[u].totalBet
    ensures forall j :: 0 <= j < |CalculatePots(seats)| ==> seats[u].id in CalculatePots(seats)[j].eligible
  {
    var cs := SortByBet(Contribs(seats));
    MergeIsIdentity(seats);
    SortedContribs(seats);
    ContribsOfSeats(seats);
    if seats[u].totalBet > 0 {
      assert Contrib(seats[u].id, seats[u].totalBet) in cs;
      var k :| 0 <= k < |cs| && cs[k] == Contrib(seats[u].id, seats[u].totalBet);
      forall i | 0 <= i < |cs| ensures cs[i].bet <= cs[k].bet {
        assert cs[i] in cs;
      }
      HighestInEveryLayer(cs, 0, k);
    } else {
      NoContribs(seats);
    }
  }

  /** If anyone has bet, the last pot is non-empty and only the highest bettors are eligible for it. */
  lemma TopPotIsForTop(seats: seq<Seat>, u: nat, id: string)
    requires u < |seats| && seats[u].totalBet > 0
    requires forall i :: 0 <= i < |seats| ==> seats[i].totalBet <= seats[u].totalBet
    ensures CalculatePots(seats) != []
    ensures id in CalculatePots(seats)[|CalculatePots(seats)| - 1].eligible ==>
              exists i :: 0 <= i < |seats| && seats[i].id == id && seats[i].totalBet == seats[u].totalBet
  {
    var cs := SortByBet(Contribs(seats));
    MergeIsIdentity(seats);
    SortedContribs(seats);
    ContribsOfSeats(seats);
    assert Contrib(seats[u].id, seats[u].totalBet) in cs;
    var k :| 0 <= k < |cs| && cs[k] == Contrib(seats[u].id, seats[u].totalBet);
    forall i | 0 <= i < |cs| ensures cs[i].bet <= cs[k].bet {
      assert cs[i] in cs;
    }
    HighestInEveryLayer(cs, 0, k);
    OnlyHighestAtTop(cs, 0, k);
    var ids := CalculatePots(seats)[|CalculatePots(seats)| - 1].eligible;
    if id in ids {
      var m :| 0 <= m < |ids| && ids[m] == id;
      assert HasBet(cs, ids[m], cs[k].bet);
      var i :| 0 <= i < |cs| && cs[i] == Contrib(id, cs[k].bet);
      assert cs[i] in Contribs(seats);
    }
  }

  lemma ProductPositive(a: int, b: int)
    requires a > 0 && b > 0
    ensures a * b > 0
  {
  }

  function EligibleSet(pot: Pot): set<string> {
    set id | id in pot.eligible
  }

  /** Each pot can be won by some, but not all, of those who can win the pot before it. */
  predicate Narrowing(pots: seq<Pot>) {
    forall i :: 0 < i < |pots| ==> EligibleSet(pots[i]) < EligibleSet(pots[i - 1])
  }

  lemma {:induction false} LayersNarrow(cs: seq<Contrib>, prev: int)
    requires DistinctContribs(cs)
    ensures Narrowing(Layers(cs, prev))
    ensures Layers(cs, prev) != [] ==> forall id :: id in Layers(cs, prev)[0].eligible ==> id in IDs(cs)
  {
    if cs != [] {
      var rest := Layers(cs[1..], if cs[0].bet == prev then prev else cs[0].bet);
      assert DistinctContribs(cs[1..]) by {
        assert forall i :: 0 <= i < |cs[1..]| ==> cs[1..][i] == cs[i + 1];
      }
      LayersNarrow(cs[1..], if cs[0].bet == prev then prev else cs[0].bet);
      TailNarrower(cs);
      if cs[0].bet != prev {
        var pot := Pot((cs[0].bet - prev) * |cs|, IDs(cs));
        if rest != [] {
          assert cs[0].id in EligibleSet(pot) && cs[0].id !in EligibleSet(rest[0]);
        }
        NarrowFront(pot, rest);
      }
    }
  }

  lemma NarrowFront(pot: Pot, rest: seq<Pot>)
    requires Narrowing(rest) && (rest != [] ==> EligibleSet(rest[0]) < EligibleSet(pot))
    ensures Narrowing([pot] + rest)
  {
    forall i | 0 < i < |rest| + 1 ensures EligibleSet(([pot] + rest)[i]) < EligibleSet(([pot] + rest)[i - 1]) {
      assert i > 1 ==> ([pot] + rest)[i - 1] == rest[i - 2];
    }
  }

  lemma TailNarrower(cs: seq<Contrib>)
    requires cs != [] && DistinctContribs(cs)
    ensures cs[0].id in IDs(cs) && cs[0].id !in IDs(cs[1..]) && forall id :: id in IDs(cs[1..]) ==> id in IDs(cs)
  {
    assert IDs(cs)[0] == cs[0].id;
    forall k | 0 <= k < |IDs(cs[1..])| ensures IDs(cs[1..])[k] == IDs(cs)[k + 1] != cs[0].id {
      assert cs[1..][k] == cs[k + 1];
    }
  }

  /** With distinct players the sets of those who can win strictly shrink from pot to pot. */
  lemma EligibleSetsShrink(seats: seq<Seat>)
    requires DistinctIDs(seats)
    ensures Narrowing(CalculatePots(seats))
  {
    MergeIsIdentity(seats);
    ContribsDistinct(seats);
    DistinctBySort(Contribs(seats));
    LayersNarrow(SortByBet(Contribs(seats)), 0);
  }

  /** Every pot holds chips. */
  lemma {:induction false} LayersPositive(cs: seq<Contrib>, prev: int)
    requires Sorted(cs) && AllAbove(cs, prev)
    ensures forall j :: 0 <= j < |Layers(cs, prev)| ==> Layers(cs, prev)[j].amount > 0
  {
    if cs != [] {
      var level, rest := cs[0].bet, Layers(cs[1..], cs[0].bet);
      SortedTail(cs);
      LayersPositive(cs[1..], level);
      if level > prev {
        ProductPositive(level - prev, |cs|);
        assert Layers(cs, prev) == [Pot((level - prev) * |cs|, IDs(cs))] + rest;
      }
    }
  }
}
