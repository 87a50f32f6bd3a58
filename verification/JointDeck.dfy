// A hand dealt from one agreed deck (internal/crypto/deal.go:109-161,
// internal/network/crypto_hand.go:426-547): streets and reveals as the advance loop feeds
// them to a machine.
module JointDeck {
  import opened Cards
  import Deal
  import opened GameState
  import opened ModArith
  import opened Public
  import opened Rules
  import opened Wrappers

  predicate GoodDeck(d: seq<Card>, n: nat) {
    n >= 2 && |d| >= 2 * n + 8 && AllDealt(d) && NoRepeats(d)
  }

  /** The hole cards of seat i. */
  function HoleFor(d: seq<Card>, n: nat, dealer: nat, i: nat): (Card, Card)
    requires GoodDeck(d, n) && dealer < n && i < n
  {
    (d[Deal.HolePos(n, dealer, i, 0)], d[Deal.HolePos(n, dealer, i, 1)])
  }

  /** The full board. */
  function Board(d: seq<Card>, n: nat): (r: seq<Card>)
    requires GoodDeck(d, n)
    ensures |r| == 5
  {
    var flop := Deal.FlopIndexes(n).value;
    [d[flop[0]], d[flop[1]], d[flop[2]], d[Deal.TurnIndex(n).value], d[Deal.RiverIndex(n).value]]
  }

  /** The cards of the street that follows a board of so many cards. */
  function NextCards(d: seq<Card>, n: nat, board: nat): seq<Card>
    requires GoodDeck(d, n) && (board == 0 || board == 3 || board == 4)
  {
    if board == 0 then Board(d, n)[..3] else Board(d, n)[board..board + 1]
  }

  /** The walk left of the dealer reaches seat i at its two hole positions. */
  lemma HoleSeatIs(dealer: nat, pos: nat, n: nat)
    requires n >= 2 && dealer < n && pos < 2 * n
    ensures Deal.HolePos(n, dealer, HoleSeat(dealer, pos, n), if pos < n then 0 else 1) == pos
  {
    var i := if pos < n then pos else pos - n;
    RestOf(pos, n);
    Deal.HolePosInverse(n, dealer, HoleSeat(dealer, pos, n), if pos < n then 0 else 1, i);
  }

  lemma RestOf(pos: nat, n: nat)
    requires n > 0 && pos < 2 * n
    ensures pos % n == if pos < n then pos else pos - n
  {
    ModIs(pos, n, if pos < n then 0 else 1, if pos < n then pos else pos - n);
  }

  // --------------------------------------------------------------- what a replica knows

  /** The board is the deck's; every hand is the deck's or not known here; nobody sits out. */
  predicate Knows(t: Table, d: seq<Card>) {
    && t.dealer < |t.seats| && GoodDeck(d, |t.seats|) && DistinctIDs(t.seats)
    && |t.board| <= 5 && t.board == Board(d, |t.seats|)[..|t.board|]
    && forall i :: 0 <= i < |t.seats| ==>
         && t.seats[i].status != SittingOut
         && (t.seats[i].hole == (BLANK, BLANK) || t.seats[i].hole == HoleFor(d, |t.seats|, t.dealer, i))
  }

  lemma {:induction false} HolesKnown(seats: seq<Seat>, c: Card)
    requires c in DealtHoles(seats)
    ensures exists i :: 0 <= i < |seats| && (c == seats[i].hole.0 || c == seats[i].hole.1)
  {
    if seats != [] {
      if c in DealtHoles(seats[1..]) {
        HolesKnown(seats[1..], c);
        var i :| 0 <= i < |seats[1..]| && (c == seats[1..][i].hole.0 || c == seats[1..][i].hole.1);
        assert seats[i + 1] == seats[1..][i];
      } else {
        assert c == seats[0].hole.0 || c == seats[0].hole.1;
      }
    }
  }

  lemma OtherCard(d: seq<Card>, n: nat, p: nat, q: nat)
    requires GoodDeck(d, n) && p < |d| && q < |d| && p != q
    ensures d[p] != d[q]
  {
    assert d[if p < q then p else q] != d[if p < q then q else p];
  }

  /** The deck positions behind the full board. */
  function BoardPos(n: nat, k: nat): nat {
    2 * n + (if k < 3 then k + 1 else if k == 3 then 5 else 7)
  }

  lemma BoardAt(d: seq<Card>, n: nat, k: nat)
    requires GoodDeck(d, n) && k < 5
    ensures Board(d, n)[k] == d[BoardPos(n, k)]
  {
  }

  /** The two deck positions behind a hand that is known. */
  lemma KnownHole(t: Table, d: seq<Card>, i: nat, p: nat)
    requires Knows(t, d) && i < |t.seats| && p < |d|
    requires p != Deal.HolePos(|t.seats|, t.dealer, i, 0) && p != Deal.HolePos(|t.seats|, t.dealer, i, 1)
    ensures d[p] != t.seats[i].hole.0 && d[p] != t.seats[i].hole.1
  {
    var n := |t.seats|;
    OtherCard(d, n, p, Deal.HolePos(n, t.dealer, i, 0));
    OtherCard(d, n, p, Deal.HolePos(n, t.dealer, i, 1));
    assert Dealt(d[p]);
  }

  lemma NotInHoles(seats: seq<Seat>, c: Card)
    requires forall i :: 0 <= i < |seats| ==> c != seats[i].hole.0 && c != seats[i].hole.1
    ensures c !in DealtHoles(seats)
  {
    if c in DealtHoles(seats) {
      HolesKnown(seats, c);
    }
  }

  /** A community card is not known before its street. */
  lemma StreetIsNew(t: Table, d: seq<Card>, k: nat)
    requires Knows(t, d) && |t.board| <= k < 5
    ensures Board(d, |t.seats|)[k] !in KnownCards(t) && Dealt(Board(d, |t.seats|)[k])
  {
    var n := |t.seats|;
    BoardAt(d, n, k);
    forall j | 0 <= j < |t.board| ensures t.board[j] != d[BoardPos(n, k)] {
      BoardAt(d, n, j);
      OtherCard(d, n, BoardPos(n, j), BoardPos(n, k));
    }
    forall i | 0 <= i < n ensures d[BoardPos(n, k)] != t.seats[i].hole.0 && d[BoardPos(n, k)] != t.seats[i].hole.1 {
      KnownHole(t, d, i, BoardPos(n, k));
    }
    NotInHoles(t.seats, d[BoardPos(n, k)]);
  }

  /** A hand that is not known here has two cards that are not known here. */
  lemma HoleIsNew(t: Table, d: seq<Card>, i: nat, round: nat)
    requires Knows(t, d) && i < |t.seats| && t.seats[i].hole == (BLANK, BLANK) && round < 2
    ensures d[Deal.HolePos(|t.seats|, t.dealer, i, round)] !in KnownCards(t)
  {
    var n := |t.seats|;
    var p := Deal.HolePos(n, t.dealer, i, round);
    assert Dealt(d[p]);
    forall j | 0 <= j < |t.board| ensures t.board[j] != d[p] {
      BoardAt(d, n, j);
      OtherCard(d, n, BoardPos(n, j), p);
    }
    forall j | 0 <= j < n ensures d[p] != t.seats[j].hole.0 && d[p] != t.seats[j].hole.1 {
      if j != i {
        OtherHoles(n, t.dealer, i, round, j);
        KnownHole(t, d, j, p);
      }
    }
    NotInHoles(t.seats, d[p]);
  }

  lemma OtherHoles(n: nat, dealer: nat, i: nat, round: nat, j: nat)
    requires n >= 2 && dealer < n && i < n && j < n && round < 2 && i != j
    ensures Deal.HolePos(n, dealer, i, round) != Deal.HolePos(n, dealer, j, 0)
    ensures Deal.HolePos(n, dealer, i, round) != Deal.HolePos(n, dealer, j, 1)
  {
    if Deal.HolePos(n, dealer, i, round) == Deal.HolePos(n, dealer, j, 0) {
      Deal.HolePosDistinct(n, dealer, i, round, j, 0);
    }
    if Deal.HolePos(n, dealer, i, round) == Deal.HolePos(n, dealer, j, 1) {
      Deal.HolePosDistinct(n, dealer, i, round, j, 1);
    }
  }

  lemma HoleIsPair(d: seq<Card>, n: nat, dealer: nat, i: nat)
    requires GoodDeck(d, n) && dealer < n && i < n
    ensures var h := HoleFor(d, n, dealer, i); h.0 != h.1 && Dealt(h.0) && Dealt(h.1)
  {
    var p, q := Deal.HolePos(n, dealer, i, 0), Deal.HolePos(n, dealer, i, 1);
    RoundsApart(n, dealer, i);
    OtherCard(d, n, p, q);
    assert Dealt(d[p]) && Dealt(d[q]);
  }

  lemma RoundsApart(n: nat, dealer: nat, i: nat)
    requires n >= 2 && dealer < n && i < n
    ensures Deal.HolePos(n, dealer, i, 0) != Deal.HolePos(n, dealer, i, 1)
  {
    if Deal.HolePos(n, dealer, i, 0) == Deal.HolePos(n, dealer, i, 1) {
      Deal.HolePosDistinct(n, dealer, i, 0, i, 1);
    }
  }

  /** Cards are let pass exactly if they are real, different, and none has been seen. */
  lemma {:induction false} RefusalExactly(cards: seq<Card>, seen: set<Card>)
    ensures StreetRefusal(cards, seen).None? <==>
            AllDealt(cards) && NoRepeats(cards) && forall k :: 0 <= k < |cards| ==> cards[k] !in seen
    decreases |cards|
  {
    if cards != [] {
      var rest, more := cards[1..], seen + {cards[0]};
      assert forall k :: 0 <= k < |rest| ==> rest[k] == cards[k + 1];
      RefusalExactly(rest, more);
      if StreetRefusal(cards, seen).None? {
        forall j, k | 0 <= j < k < |cards| ensures cards[j] != cards[k] {
          if j > 0 {
            assert rest[j - 1] != rest[k - 1];
          } else {
            assert rest[k - 1] !in more;
          }
        }
      }
    }
  }

  lemma NextCardAt(d: seq<Card>, n: nat, board: nat, k: nat)
    requires GoodDeck(d, n) && (board == 0 || board == 3 || board == 4) && k < |NextCards(d, n, board)|
    ensures board + k < 5 && NextCards(d, n, board)[k] == Board(d, n)[board + k]
  {
  }

  lemma BoardOrdered(d: seq<Card>, n: nat, j: nat, k: nat)
    requires GoodDeck(d, n) && j < k < 5
    ensures Board(d, n)[j] != Board(d, n)[k]
  {
    BoardAt(d, n, j);
    BoardAt(d, n, k);
    OtherCard(d, n, BoardPos(n, j), BoardPos(n, k));
  }

  /** The deck's next street is never refused. */
  lemma StreetAccepted(t: Table, d: seq<Card>)
    requires Knows(t, d) && (|t.board| == 0 || |t.board| == 3 || |t.board| == 4)
    ensures var cards := NextCards(d, |t.seats|, |t.board|);
            && |cards| == PendingStreetCount(|t.board|) && StreetRefusal(cards, KnownCards(t)) == None
            && t.board + cards == Board(d, |t.seats|)[..|t.board| + |cards|]
  {
    var n := |t.seats|;
    var cards := NextCards(d, n, |t.board|);
    forall k | 0 <= k < |cards| ensures Dealt(cards[k]) && cards[k] !in KnownCards(t) {
      NextCardAt(d, n, |t.board|, k);
      StreetIsNew(t, d, |t.board| + k);
    }
    forall j, k | 0 <= j < k < |cards| ensures cards[j] != cards[k] {
      NextCardAt(d, n, |t.board|, j);
      NextCardAt(d, n, |t.board|, k);
      BoardOrdered(d, n, |t.board| + j, |t.board| + k);
    }
    RefusalExactly(cards, KnownCards(t));
  }

  // ------------------------------------------------------------------------ the reveals

  /** RemainingShowdownIDs: the seats still in the hand, in table order. */
  function RemainingIDs(seats: seq<Seat>): seq<string> {
    if seats == [] then [] else (if Remaining(seats[0]) then [seats[0].id] else []) + RemainingIDs(seats[1..])
  }

  /** The reveal loop of AdvanceCrypto: reveals that come after the settlement are skipped. */
  function RevealLoop(ev: Evaluator, t: Table, d: seq<Card>, ids: seq<string>): Table
    decreases |ids|
  {
    if ids == [] then t
    else if t.phase != Showdown then RevealLoop(ev, t, d, ids[1..])
    else RevealLoop(ev, ApplyHoleReveal(ev, t, ids[0], DealtPair(t, d, ids[0])).t, d, ids[1..])
  }

  /** RevealedHoles: the pair that the deck holds for the player. */
  function DealtPair(t: Table, d: seq<Card>, id: string): (Card, Card) {
    var idx := SeatIndex(t.seats, id);
    if 0 <= idx < |t.seats| && t.dealer < |t.seats| && GoodDeck(d, |t.seats|) then HoleFor(d, |t.seats|, t.dealer, idx)
        else (BLANK, BLANK)
  }

  lemma {:induction false} NoneMissing(seats: seq<Seat>)
    ensures MissingRevealIDs(seats) == [] <==> forall i :: 0 <= i < |seats| && Remaining(seats[i]) ==>
              HoleDealt(seats[i])
  {
    if seats != [] {
      NoneMissing(seats[1..]);
      assert forall i :: 0 <= i < |seats[1..]| ==> seats[1..][i] == seats[i + 1];
    }
  }

  /** The places from i on of the seats that are listed, each once and in table order. */
  function Listing(seats: seq<Seat>, listed: Seat -> bool, i: nat): (at: seq<nat>)
    requires i <= |seats|
    ensures forall k :: 0 <= k < |at| ==> i <= at[k] < |seats| && listed(seats[at[k]])
    ensures forall j, k :: 0 <= j < k < |at| ==> at[j] < at[k]
    ensures forall x :: i <= x < |seats| && listed(seats[x]) ==> x in at
    decreases |seats| - i
  {
    if i == |seats| then [] else (if listed(seats[i]) then [i] else []) + Listing(seats, listed, i + 1)
  }

  function IDsAt(seats: seq<Seat>, at: seq<nat>): (r: seq<string>)
    requires forall k :: 0 <= k < |at| ==> at[k] < |seats|
    ensures |r| == |at|
  {
    seq(|at|, k requires 0 <= k < |at| => seats[at[k]].id)
  }

  const STILL_IN: Seat -> bool := (s: Seat) => Remaining(s)
  const UNSEEN: Seat -> bool := (s: Seat) => Remaining(s) && !HoleDealt(s)

  lemma ListingIDs(seats: seq<Seat>, listed: Seat -> bool, i: nat)
    requires i < |seats|
    ensures IDsAt(seats, Listing(seats, listed, i)) ==
            (if listed(seats[i]) then [seats[i].id] else []) + IDsAt(seats, Listing(seats, listed, i + 1))
  {
  }

  lemma {:induction false} ListsFrom(seats: seq<Seat>, i: nat)
    requires i <= |seats|
    ensures MissingRevealIDs(seats[i..]) == IDsAt(seats, Listing(seats, UNSEEN, i))
    ensures RemainingIDs(seats[i..]) == IDsAt(seats, Listing(seats, STILL_IN, i))
    decreases |seats| - i
  {
    if i < |seats| {
      ListsFrom(seats, i + 1);
      MissingFrom(seats, i);
      assert seats[i..][1..] == seats[i + 1..];
      ListingIDs(seats, UNSEEN, i);
      ListingIDs(seats, STILL_IN, i);
    }
  }

  /** The two lists of players name each seat that belongs on them once, in table order. */
  lemma ListsInOrder(seats: seq<Seat>)
    ensures MissingRevealIDs(seats) == IDsAt(seats, Listing(seats, UNSEEN, 0))
    ensures RemainingIDs(seats) == IDsAt(seats, Listing(seats, STILL_IN, 0))
  {
    ListsFrom(seats, 0);
    assert seats[0..] == seats;
  }

  /** The table with the hands of the remaining seats below i shown. */
  function ShownTo(t: Table, d: seq<Card>, i: nat): (r: Table)
    requires Knows(t, d) && i <= |t.seats|
    ensures |r.seats| == |t.seats| && r == t.(seats := r.seats)
  {
    t.(seats := seq(|t.seats|, j requires 0 <= j < |t.seats| =>
      if j < i && Remaining(t.seats[j]) then t.seats[j].(hole := HoleFor(d, |t.seats|, t.dealer, j)) else t.seats[j]))
  }

  function Shown(t: Table, d: seq<Card>): (r: Table)
    requires Knows(t, d)
  {
    ShownTo(t, d, |t.seats|)
  }

  lemma ShownKnows(t: Table, d: seq<Card>, i: nat)
    requires Knows(t, d) && i <= |t.seats|
    ensures Knows(ShownTo(t, d, i), d) && SamePublic(t, ShownTo(t, d, i))
  {
  }

  /** When nobody is missing, everybody is shown. */
  lemma CompleteIsShown(t: Table, d: seq<Card>, i: nat)
    requires Knows(t, d) && i <= |t.seats|
    ensures !HolesIncomplete(ShownTo(t, d, i)) <==> ShownTo(t, d, i).seats == Shown(t, d).seats
  {
    var s, all := ShownTo(t, d, i).seats, Shown(t, d).seats;
    NoneMissing(s);
    forall j | 0 <= j < |s| ensures Remaining(s[j]) ==> (HoleDealt(s[j]) <==> s[j] == all[j]) {
      HoleIsPair(d, |t.seats|, t.dealer, j);
    }
  }

  lemma {:induction false} LoopSkips(ev: Evaluator, t: Table, d: seq<Card>, ids: seq<string>)
    requires t.phase != Showdown
    ensures RevealLoop(ev, t, d, ids) == t
    decreases |ids|
  {
    if ids != [] {
      LoopSkips(ev, t, d, ids[1..]);
    }
  }

  /** One reveal of the loop, of seat i, with the hands below i shown. */
  lemma OneReveal(ev: Evaluator, t: Table, d: seq<Card>, i: nat)
    requires Knows(t, d) && CryptoMode(t) && t.phase == Showdown && i < |t.seats| && Remaining(t.seats[i])
    requires HolesIncomplete(ShownTo(t, d, i))
    ensures var s, next := ShownTo(t, d, i), ShownTo(t, d, i + 1);
            ApplyHoleReveal(ev, s, t.seats[i].id, DealtPair(s, d, t.seats[i].id)) ==
              if HolesIncomplete(next) then Outcome(next, None) else DistributePots(ev, next)
  {
    var s, next := ShownTo(t, d, i), ShownTo(t, d, i + 1);
    var hole := HoleFor(d, |t.seats|, t.dealer, i);
    ShownKnows(t, d, i);
    SeatIndexOf(s.seats, i);
    HoleIsPair(d, |t.seats|, t.dealer, i);
    if t.seats[i].hole == (BLANK, BLANK) {
      HoleIsNew(s, d, i, 0);
      HoleIsNew(s, d, i, 1);
      assert s.seats[i := s.seats[i].(hole := hole)] == next.seats;
    } else {
      assert s.seats == next.seats;
    }
  }

  lemma RemainingFrom(seats: seq<Seat>, i: nat)
    requires i < |seats|
    ensures RemainingIDs(seats[i..])
        == (if Remaining(seats[i]) then [seats[i].id] else []) + RemainingIDs(seats[i + 1..])
  {
    assert seats[i..][1..] == seats[i + 1..];
  }

  lemma LoopReveals(ev: Evaluator, t: Table, d: seq<Card>, i: nat, ids: seq<string>)
    requires Knows(t, d) && CryptoMode(t) && t.phase == Showdown && i < |t.seats| && Remaining(t.seats[i])
    requires HolesIncomplete(ShownTo(t, d, i))
    ensures var next := ShownTo(t, d, i + 1);
            RevealLoop(ev, ShownTo(t, d, i), d, [t.seats[i].id] + ids) ==
              RevealLoop(ev, if HolesIncomplete(next) then next else DistributePots(ev, next).t, d, ids)
  {
    OneReveal(ev, t, d, i);
    assert ([t.seats[i].id] + ids)[1..] == ids;
  }

  /** With nobody missing any more the pots have been paid out and the rest of the loop is skipped. */
  lemma LoopPaid(ev: Evaluator, t: Table, d: seq<Card>, i: nat, rest: seq<string>)
    requires Knows(t, d) && t.phase == Showdown && i <= |t.seats| && !HolesIncomplete(ShownTo(t, d, i))
    ensures RevealLoop(ev, DistributePots(ev, ShownTo(t, d, i)).t, d, rest) == DistributePots(ev, Shown(t, d)).t
  {
    CompleteIsShown(t, d, i);
    LoopSkips(ev, DistributePots(ev, ShownTo(t, d, i)).t, d, rest);
  }

  lemma {:induction false} LoopSettles(ev: Evaluator, t: Table, d: seq<Card>, i: nat, ids: seq<string>)
    requires Knows(t, d) && CryptoMode(t) && t.phase == Showdown && i <= |t.seats|
    requires HolesIncomplete(ShownTo(t, d, i)) && ids == RemainingIDs(t.seats[i..])
    ensures RevealLoop(ev, ShownTo(t, d, i), d, ids) == DistributePots(ev, Shown(t, d)).t
    decreases |t.seats| - i
  {
    if i == |t.seats| {
      CompleteIsShown(t, d, i);
      assert false;
    } else {
      var next, rest := ShownTo(t, d, i + 1), RemainingIDs(t.seats[i + 1..]);
      RemainingFrom(t.seats, i);
      if Remaining(t.seats[i]) {
        LoopReveals(ev, t, d, i, rest);
        if HolesIncomplete(next) {
          LoopSettles(ev, t, d, i + 1, rest);
        } else {
          LoopPaid(ev, t, d, i + 1, rest);
        }
      } else {
        assert ShownTo(t, d, i).seats == next.seats;
        assert [] + rest == rest;
        LoopSettles(ev, t, d, i + 1, rest);
      }
    }
  }

  /**
   * Whatever hands a replica knew before, once the remaining hands are revealed in table
   * order it has paid out the pots on the hands that the deck dealt.
   */
  lemma RevealsSettle(ev: Evaluator, t: Table, d: seq<Card>)
    requires Knows(t, d) && CryptoMode(t) && t.phase == Showdown && HolesIncomplete(t)
    ensures RevealLoop(ev, t, d, RemainingIDs(t.seats)) == DistributePots(ev, Shown(t, d)).t
    ensures DistributePots(ev, Shown(t, d)).err.None?
  {
    assert ShownTo(t, d, 0).seats == t.seats;
    assert t.seats[0..] == t.seats;
    LoopSettles(ev, t, d, 0, RemainingIDs(t.seats));
    CompleteIsShown(t, d, |t.seats|);
  }
}
