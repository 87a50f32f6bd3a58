// The public and private state of one hand (internal/game/state.go, player.go).
module GameState {
  import opened Cards
  import opened HandEval
  import opened Wrappers

  datatype Status = Active | Folded | AllIn | SittingOut

  // A seat's value; hole cards are blank until dealt or revealed.
  datatype Seat = Seat(id: string, stack: int, hole: (Card, Card), status: Status, currentBet: int, totalBet: int)

  datatype Phase = Waiting | PreFlop | Flop | Turn | River | Showdown | Settled | AwaitingStreet

  datatype Pot = Pot(amount: int, eligible: seq<string>)

  // Unknown stands for any other number in the type field of an action.
  datatype ActionType = Fold | Check | Call | Raise | GoAllIn | Unknown

  datatype Action = Action(player: string, kind: ActionType, amount: int)

  // The deck is absent in crypto mode. Indexes are -1 when there is no such seat.
  datatype Table = Table(
    smallBlind: int, bigBlind: int,
    seats: seq<Seat>,
    dealer: nat, actionIdx: int, lastRaiser: int,
    phase: Phase,
    board: seq<Card>, deck: Option<seq<Card>>,
    pots: seq<Pot>,
    currentBet: int, minRaise: int, roundActions: nat,
    log: seq<Action>, payouts: map<string, int>)

  // How strong seven cards are. The machine uses EvaluateBest7; what is proved about
  // chips, turns and agreement holds of any evaluator.
  type Evaluator = seq<Card> -> Hand

  datatype GameError =
    | NotAllowedInPhase
    | NoCurrentPlayer
    | NotYourTurn
    | CannotCheck
    | NothingToCall
    | RaiseTooSmall
    | InsufficientStack
    | UnknownAction
    | UnexpectedPhase
    | NoDeck
    | EmptyDeck
    | TooFewSeats
    | BoardNotEmpty
    | NotCryptoMode
    | BoardComplete
    | UnexpectedBoard
    | WrongCardCount
    | NotDealt
    | DuplicateCard
    | UnknownSeat
    | NotRemaining
    | Equivocation
    | HolesMissing

  // The table after a call and the error it returned, if any.
  datatype Outcome = Outcome(t: Table, err: Option<GameError>)

  predicate CanAct(s: Seat) {
    s.status == Active
  }

  predicate Remaining(s: Seat) {
    s.status == Active || s.status == AllIn
  }

  predicate InHand(s: Seat) {
    s.status != Folded && s.status != SittingOut
  }

  predicate HoleDealt(s: Seat) {
    Dealt(s.hole.0) && Dealt(s.hole.1)
  }

  predicate CryptoMode(t: Table) {
    t.deck.None?
  }

  // ----------------------------------------------------------------------- player.go

  /** PlaceBet: a bet of the whole stack or more puts the seat all in. */
  function PlaceBet(s: Seat, amount: int): Seat {
    if amount >= s.stack then
      s.(stack := 0, status := AllIn, currentBet := s.currentBet + s.stack, totalBet := s.totalBet + s.stack)
    else
      s.(stack := s.stack - amount, currentBet := s.currentBet + amount, totalBet := s.totalBet + amount)
  }

  /** What PlaceBet returns: the chips that actually went in. */
  function Placed(s: Seat, amount: int): int {
    if amount >= s.stack then s.stack else amount
  }

  function ResetForNewHand(s: Seat): Seat {
    s.(hole := (BLANK, BLANK), status := Active, currentBet := 0, totalBet := 0)
  }

  function ResetForNewRound(s: Seat): Seat {
    s.(currentBet := 0)
  }

  // ------------------------------------------------------------------------ state.go

  /** The seat i places after from, around the table. */
  function Around(from: nat, i: nat, n: nat): nat
    requires n > 0
  {
    (from + i) % n
  }

  /** nextActiveIndex, looking at the i-th seat after from and beyond. */
  function NextActiveFrom(seats: seq<Seat>, from: nat, i: nat): int
    requires seats != []
    decreases |seats| + 1 - i
  {
    if i > |seats| then -1
    else if CanAct(seats[Around(from, i, |seats|)]) then Around(from, i, |seats|)
    else NextActiveFrom(seats, from, i + 1)
  }

  function NextActive(seats: seq<Seat>, from: nat): int
    requires seats != []
  {
    NextActiveFrom(seats, from, 1)
  }

  function SeatIndexFrom(seats: seq<Seat>, id: string, i: nat): int
    requires i <= |seats|
    decreases |seats| - i
  {
    if i == |seats| then -1 else if seats[i].id == id then i else SeatIndexFrom(seats, id, i + 1)
  }

  function SeatIndex(seats: seq<Seat>, id: string): int {
    SeatIndexFrom(seats, id, 0)
  }

  lemma {:induction false} SeatIndexFromIs(seats: seq<Seat>, id: string, i: nat)
    requires i <= |seats|
    ensures var r := SeatIndexFrom(seats, id, i);
            && (r == -1 || (i <= r < |seats| && seats[r].id == id))
            && (r == -1 ==> forall j :: i <= j < |seats| ==> seats[j].id != id)
    decreases |seats| - i
  {
    if i < |seats| && seats[i].id != id {
      SeatIndexFromIs(seats, id, i + 1);
    }
  }

  predicate DistinctIDs(seats: seq<Seat>) {
    forall i, j :: 0 <= i < j < |seats| ==> seats[i].id != seats[j].id
  }

  /** With distinct identifiers a seat is found where it sits. */
  lemma SeatIndexOf(seats: seq<Seat>, i: nat)
    requires DistinctIDs(seats) && i < |seats|
    ensures SeatIndex(seats, seats[i].id) == i
  {
    SeatIndexFromIs(seats, seats[i].id, 0);
  }

  function NewTable(seats: seq<Seat>, dealer: nat, sb: int, bb: int): Table {
    Table(sb, bb, seq(|seats|, i requires 0 <= i < |seats| => ResetForNewHand(seats[i])), dealer, 0, 0,
          Waiting, [], Some(NewDeck()), [], 0, bb, 0, [], map[])
  }

  // ------------------------------------------------------------- sums over the seats

  function SumOf(f: Seat -> int, seats: seq<Seat>): int {
    if seats == [] then 0 else f(seats[0]) + SumOf(f, seats[1..])
  }

  const Stack: Seat -> int := (s: Seat) => s.stack
  const Bets: Seat -> int := (s: Seat) => s.totalBet

  function Stacks(seats: seq<Seat>): int {
    SumOf(Stack, seats)
  }

  function TotalBets(seats: seq<Seat>): int {
    SumOf(Bets, seats)
  }

  lemma {:induction false} SumUpdate(f: Seat -> int, seats: seq<Seat>, i: nat, s: Seat)
    requires i < |seats|
    ensures SumOf(f, seats[i := s]) == SumOf(f, seats) - f(seats[i]) + f(s)
  {
    if i == 0 {
      assert seats[0 := s][1..] == seats[1..];
    } else {
      SumUpdate(f, seats[1..], i - 1, s);
      assert seats[i := s][1..] == seats[1..][i - 1 := s];
    }
  }

  lemma {:induction false} SumSame(f: Seat -> int, a: seq<Seat>, b: seq<Seat>)
    requires |a| == |b| && forall i :: 0 <= i < |a| ==> f(a[i]) == f(b[i])
    ensures SumOf(f, a) == SumOf(f, b)
  {
    if a != [] {
      assert forall i :: 0 <= i < |a[1..]| ==> a[1..][i] == a[i + 1] && b[1..][i] == b[i + 1];
      SumSame(f, a[1..], b[1..]);
    }
  }
}
