# Mental poker, modelled and proved

This project models the core of a peer-to-peer Texas Hold'em program: the SRA commutative
encryption and its shuffle and deal protocols, the Shamir key recovery, the per-replica state
machines that take part in shuffle and deal over an unordered, duplicating network, the betting
reducer with its side pots and its two dealing modes, and the sequencer that restores the order
of actions. `dafny verify dfyconfig.toml` checks all of it.

Code that changes state is modelled as classes and methods with loops (`Machine.Machine`,
`Machine.Player`, `ShuffleSession.Session`, `DealSession.Session`, `CryptoHand.Hand`,
`KeyRecovery.KeyShareStore`, `Sequencer.ActionSequencer` and the loops of `Shamir`, `Shuffle`,
`Deal`, `Sra`, `Params`, `Pots` and `HandEval`). Each method is proved to compute a specification
function on values, and the theorems are about those functions, over all inputs and all runs.

How the modules build on each other:

- `ModArith`, `Polynomial`: Fermat's little theorem, Euclid's lemma, inverses and roots modulo a prime, from scratch.
- `Sra`, `Zkp`, `Params`, `Shuffle`, `RandomOrder`, `Deal`: one joint deal. `Shamir`, `KeyRecovery`: recovery of a key.
- `ShuffleSession`, `ShuffleReplica`, `TurnNetwork`, `ShuffleNetwork`: the shuffle over a network. `ShuffleSafety`: whatever
  is sent.
- `DealSession`, `DealSafety`, `DealIntake`, `OwnPeels`: one replica's deal, whatever is sent. `DealJob`, `Delegation`,
  `JobNetwork`, `HonestJob`, `GoneSeats`, `CryptoHand`: the deal over a network, with seats that leave.
- `GameState`, `Rules`, `Machine`, `Pots`: the reducer. `HandEval`, `HighCards`, `Categories`: what cards are worth.
- `Rounds`, `Hand`, `Opening`, `WholeHand`, `StreetEnds`, `SeatOrder`, `Raises`, `History`: turns, raises, cards and the log
  over whole hands. `Termination`, `Progress`: hands are finite, and when they get stuck.
- `Settlement`, `Conservation`, `Ledger`, `Winners`, `Showdowns`: where the chips go.
- `Public`, `JointDeck`, `Replicas`, `ModeRefinement`, `ShortBoard`: replicas with partial knowledge, and the two
  dealing modes.
- `Lockstep`, `AdvanceLoop`, `Settling`: machine and deal session together, street by street up to the payout.
- `Sequencer`: actions in order, and the table that results.

Assumptions that the theorems carry in their `requires` clauses: the modulus is a prime (above
2^52 where cards are encoded); seats have distinct, non-empty identifiers and valid key pairs;
the small blind is at most the big blind, which is positive; a table of n has at least 2n + 8
cards. Random draws, nonces and hash functions are parameters, so the results hold for every
choice of them. In the honest-deal theorems peels are true decryptions, by whoever is awaited.

## Findings

The model follows the code where the code does not do what one would expect; each of these has a
concrete input or an exact condition.

- internal/game/machine.go:85 compares a raise with the stack plus the current bet, so an
  under-funded raise passes and the bet is capped. If the seats with the highest total bet then
  all fold, the last pot has no winner and line 366 skips it: chips are lost.
  `Ledger.UnderfundedRaiseLosesChips` gives five actions that do it,
  `Ledger.SettlingKeepsChipsExactly` and `Ledger.CryptoHandConservesExactly` the exact condition.
  Raises that the stack covers, as the input box demands, never get there
  (`Conservation.RunConserves`).
- internal/game/machine.go:254-258: when nobody can act any more before the turn, plaintext mode
  settles on a board of three or four cards while crypto mode deals five.
  `ModeRefinement.CryptoRefinesPlaintext` says exactly when the modes agree, `ShortBoard.ModesPartAllIn`
  gives two actions after which they do not.
- internal/game/machine.go:404-412: the seven cards of a seat are filled up with zero cards when the board has
  fewer than five (`Showdowns.SevenExactly`), and the evaluator takes them for cards: on a board of three they are a
  pair (`Showdowns.BlanksArePair`) and two spades (`Showdowns.BlanksMakeFlush`). Plaintext hands do settle on such
  boards (`ShortBoard.ModesPartAllIn`), and three spades then beat a straight (`Showdowns.SpadesBeatStraight`). With
  five board cards the winners are those with the best five (`Showdowns.WinnersHoldBest`).
- internal/crypto/shuffle_session.go:260-280 and internal/crypto/deal_session.go:612-635: if a buffered step or peel
  that follows the own one does not verify, the call that made the own one returns the error instead of it. It stays
  applied here and is published by no later call. `ShuffleSafety.PublishesExactly` and
  `OwnPeels.OwnPeelPublishedExactly` have the exact conditions, `ShuffleSafety.OwnStepIsLost` an input.
- internal/game/hand_eval.go:53 seeds the search with a high card without kickers, which no
  five-card high card beats: hands without a pair, straight or flush all tie.
  `HighCards.Best7IsNothingExactly` and `HighCards.HighCardsTie`; `HandEval.AceHighTiesKingHigh` is
  a concrete pair of hands.
- cmd/poker/main.go:734-749: if two different messages carry one number that will come out, their
  order of arrival decides which is played. `Sequencer.OrderImmaterialExactly` has the exact condition,
  `Sequencer.FirstCopyWins` the shortest case.
- cmd/poker/main.go:801-815: an own action takes a number without releasing a held successor,
  which then waits for the next push. `Sequencer.PlayedExactly`, with an input in
  `Sequencer.SuccessorLeftBehind`.
- internal/game/machine.go:40-44, 56-59: heads up, with blinds that take both stacks, a hand starts
  with nobody to act. No action, street or reveal is accepted after that (an action even reads the
  missing player), so the chips stay in the pot for good. `Progress.HandGoesOnExactly` has the exact
  condition, `Progress.ShortStacksStick` an input; every other hand goes on
  (`Progress.AwaitedIsAccepted`).
- internal/game/machine.go:134-146: folds and all-ins count as actions of the round but no longer as
  seats that can act, so without a raise a street can be closed before everyone has acted.
  `StreetEnds.EveryoneActsExactly`, with a reachable case in `StreetEnds.SomeoneIsPassedOver`.
- internal/game/machine.go:42, 141-143: the big blind is recorded as the last raiser, so a round before the
  flop without a raise is closed when the turn would come to it (`StreetEnds.BigBlindActsExactly`).
- internal/game/machine.go:96: the raise branch of an all-in cannot be reached, as a seat that can
  act never has a current bet above the table's (`WholeHand.AllInNeverRaises`).

## Model

| member | source | states |
|---|---|---|
| ModArith.Fermat | internal/crypto/params.go:10-26 | Fermat's little theorem for any prime, proved by the binomial theorem; exponents below may be reduced modulo p - 1 |
| ModArith.Euclid | internal/crypto/commit.go:119-155 | Euclid's lemma: a prime that divides a product divides a factor |
| ModArith.PrimeInverse | internal/crypto/commit.go:145-149 | modulo a prime, an inverse exists exactly for numbers that the prime does not divide |
| ModArith.ModInverseFinds | internal/crypto/sra.go:16-48 | the inverse that is found is the one there is |
| Polynomial.FewRoots | internal/crypto/commit.go:83-113 | modulo a prime, a polynomial with as many distinct roots as coefficients vanishes everywhere |
| Sra.EncryptCloses | internal/crypto/sra.go:80-112 | with a key pair, encryption accepts every message in [1, p - 2] and stays in that range |
| Sra.DecryptCloses | internal/crypto/sra.go:90-112 | and so does decryption: no layer of a chain over valid keys is rejected |
| Sra.SraInverse | internal/crypto/sra.go:80-101 | decryption and encryption undo each other, in both orders, on the whole range |
| Sra.EncryptAll | internal/crypto/sra.go:115-125 | accepts a deck exactly if every card is between 1 and p - 2, and encrypts each card |
| Sra.DecryptAll | internal/crypto/sra.go:127-137 | needs the private part and cards in range, and decrypts each card |
| Sra.DeckRoundTrip | internal/crypto/sra.go:115-137 | an encrypted deck is in range and decrypts to itself |
| Sra.GenerateSRAKey | internal/crypto/sra.go:16-48 | returns only key pairs of the given prime; fails only if every drawn exponent is unusable |
| Params.SearchCard | internal/crypto/params.go:37-47 | the search loop finds the first card identifier with that field value, or none |
| Params.BuildPlaintextDeck | internal/crypto/params.go:49-55 | fills the slice with the 52 field values in order |
| Params.CardRoundTrip | internal/crypto/params.go:28-47 | for a prime above 2^52, the field value of each of the 52 cards is read back as that card |
| Cards.CardIDBijection | internal/game/deck.go:64-81 | identifiers 0 to 51 and the real cards correspond one to one |
| Zkp.HonestProofVerifies | internal/crypto/zkp.go:20-79 | for any key pair, nonce, session and ciphertext in range, and whatever the challenge hash returns, an honest decryption proof verifies |
| Zkp.HonestPeelApplies | internal/crypto/deal.go:29-82 | an honest peel is accepted by VerifyAndApply and yields the ciphertext to the power d |
| Zkp.AcceptedTwiceIsPower | internal/crypto/zkp.go:53-79 | special soundness: proofs on one commitment accepted for two challenges whose difference is invertible modulo p - 1 have a result that is the ciphertext to the very power that the public value is of the generator |
| Zkp.ChallengeBinds | internal/crypto/zkp.go:81-105 | every field of the transcript counts: transcripts that differ anywhere have different challenges under some hash |
| Shamir.SplitSecret | internal/crypto/commit.go:83-113 | fails exactly when t < 2 or n < t; otherwise share x is the polynomial with the secret as constant term at x |
| Shamir.EvalLoop | internal/crypto/commit.go:98-110 | the loop over powers of x computes the value of the polynomial modulo p |
| Shamir.LagrangeFactors | internal/crypto/commit.go:127-143 | the numerator and denominator loops compute the products over the other indexes, at zero and at the own index |
| Shamir.ReconstructSecret | internal/crypto/commit.go:119-155 | modulo a prime: succeeds exactly if there is a share and no two indexes are congruent, and the result is the value at zero of every polynomial of fewer coefficients than shares through them; it says which error otherwise |
| Shamir.ShamirRoundTrip | internal/crypto/commit.go:83-155 | for a prime above n, any t or more distinct shares of a split give back exactly the secret |
| Shamir.BelowThresholdHides | internal/crypto/commit.go:83-113 | with one share fewer than coefficients every candidate secret is still possible |
| Shamir.AllUnitsMeansDistinct | internal/crypto/commit.go:145-149 | if every denominator has an inverse, the indexes are pairwise incongruent |
| KeyRecovery.SplitAndDistribute | internal/fault/shamir.go:87-99 | refuses fewer than two players; the threshold is two at least, and a number of seats reaches it exactly if it is two or more and no fewer than half the table; the shares are the key's, one for each seat |
| KeyRecovery.RecoversExponent | internal/fault/shamir.go:56-71 | any threshold of distinct shares of a key determines its d |
| KeyRecovery.RecoversKey | internal/fault/shamir.go:73-85 | and with it e, as the inverse of d modulo p - 1: the owner's whole key |
| KeyRecovery.LeftRecover | internal/fault/shamir.go:87-99 | the shares of the seats that are left rebuild the key exactly if they are two at least and no fewer than half the table |
| KeyRecovery.MinorityGone | internal/fault/shamir.go:87-99 | with three seats or more and fewer than half of them gone, the shares of those left are enough shares of the key |
| KeyRecovery.TooFewLearnNothing | internal/fault/shamir.go:87-99 | the shares of fewer seats than that fit a polynomial of the split's degree with any secret whatever |
| KeyRecovery.ArrivalsRecover | internal/fault/shamir.go:39-71 | shares of a split that come in in any order and any number of times are enough in the store exactly if enough different seats have sent theirs |
| KeyRecovery.KeyShareStore.constructor | internal/fault/shamir.go:18-24 | a new store holds nothing |
| KeyRecovery.KeyShareStore.StoreMyShare | internal/fault/shamir.go:26-30 | the share received for an owner is kept |
| KeyRecovery.KeyShareStore.ContributeShare | internal/fault/shamir.go:32-37 | returns that share if there is one |
| KeyRecovery.KeyShareStore.AddReconstructionShare | internal/fault/shamir.go:39-48 | a share with an index already held changes nothing, any other is appended, and other owners' shares stay |
| KeyRecovery.KeyShareStore.Reconstruct | internal/fault/shamir.go:56-71 | refuses below the threshold; otherwise interpolates over the first threshold shares |
| KeyRecovery.KeyShareStore.ReconstructSRAKey | internal/fault/shamir.go:73-85 | only key pairs come out; shares of a key give back that very key |
| Shuffle.RandomPermutation | internal/crypto/shuffle.go:100-118 | the in-place swaps leave the permutation Drawn that the draws lead to |
| RandomOrder.EveryOrderDrawn | internal/crypto/shuffle.go:100-118 | every permutation of any size comes of some draws |
| RandomOrder.DrawnOnce | internal/crypto/shuffle.go:100-118 | two draws lead to one permutation exactly if they are the same in every slot but the first, which has no choice |
| Shuffle.ExecuteStep | internal/crypto/shuffle.go:29-63 | the step's output is the encrypted deck permuted, with its commitment, or the error that the inputs call for |
| Shuffle.RunFullShuffle | internal/crypto/shuffle.go:78-98 | the final deck is that of the composed steps; with valid keys and a deck in range no step fails |
| Shuffle.ShuffleStaysInRange | internal/crypto/shuffle.go:29-98 | after any number of steps every ciphertext is in range |
| Shuffle.OriginInjective | internal/crypto/shuffle.go:78-98 | the composed permutation maps different positions to different positions |
| RandomOrder.OneSeatDecides | internal/crypto/shuffle.go:78-98 | whatever permutations the other seats use, each order of the final deck comes of exactly one permutation of the seat in between |
| Shuffle.ShuffleLayers | internal/crypto/shuffle.go:78-98 | after k steps position i holds the card that the composed permutation puts there, under the first k players' layers |
| Shuffle.PeelAnyOrder | internal/crypto/deal.go:186-244 | peeling every layer, in any order of the keys, gives back the plaintext |
| Deal.HoleCardIndexIs | internal/crypto/deal.go:115-131 | exactly the valid arguments have a position, and it is the one that counts seats left of the dealer |
| Deal.HolePosInverse | internal/crypto/deal.go:250-267 | the dealing walk visits a seat at the very position that the index function names |
| Deal.HandPositionsDistinct | internal/crypto/deal.go:115-161 | hole, flop, turn and river positions of a hand are pairwise different, inside the deck, and where the batches of the community deal fall |
| Deal.PeelAll | internal/crypto/deal.go:186-244 | the loop peels with every player but the recipient, in order, and collects the proofs, or stops at the first failure |
| Deal.Reveal | internal/crypto/deal.go:186-244 | the card is what the peel chain ends in, opened by the recipient or in public |
| Deal.DealHoleCards | internal/crypto/deal.go:250-267 | every player gets the cards at its two positions; an error only if some opening fails |
| Deal.DealCommunityCards | internal/crypto/deal.go:269-287 | each batch is the public openings after its burn; an error only if some opening fails |
| Deal.HonestReveal | internal/crypto/deal.go:186-244 | on an honest deck each position opens, for any recipient, to the card under its layers |
| Deal.ShuffledDeckIsHonest | internal/crypto/shuffle.go:78-98 | the deck that a full shuffle leaves holds the composed permutation of the 52 cards under all layers |
| Deal.JointDealBijection | internal/crypto/deal.go:186-287 | for any keys and permutations each deck position opens to the card that the composed permutation puts there, a real card, and two positions open to the same card only if they are the same position |
| ShuffleSession.Session.constructor | internal/crypto/shuffle_session.go:73-109 | a new session has nothing applied or pending |
| ShuffleSession.Session.StartSession | internal/crypto/shuffle_session.go:111-128 | the new state and reply are those of the specification Start |
| ShuffleSession.Session.HandleMessage | internal/crypto/shuffle_session.go:130-182 | the new state and reply are those of the specification Handle: duplicates, conflicts, buffering, drain and own step |
| ShuffleSession.Session.VerifyAndAdopt | internal/crypto/shuffle_session.go:311-325 | a step is adopted if its commitment opens to its deck, else nothing changes |
| ShuffleSession.Session.DrainPending | internal/crypto/shuffle_session.go:292-309 | the drain loop applies exactly what Drain applies |
| ShuffleSession.Session.ExecuteLocalStep | internal/crypto/shuffle_session.go:260-280 | the own step, and what it leads to, as ExecuteLocal says |
| ShuffleSession.Session.AfterApplyStep | internal/crypto/shuffle_session.go:282-290 | what follows an applied step, as AfterApply says |
| ShuffleSafety.AfterIsSafe | internal/crypto/shuffle_session.go:111-182 | whatever a session is sent, by whomever and in whatever order: the steps applied are those of the first seats in seat order, each well-formed and with a commitment that opens, the own one executed here on the deck before it, the current deck is the last one's, and only steps of other seats still to come are held |
| ShuffleSafety.AppliedForGood | internal/crypto/shuffle_session.go:311-325 | what has been applied is applied ever after, whatever comes later |
| ShuffleSafety.StrangersRefused | internal/crypto/shuffle_session.go:130-146 | a message that is no well-formed step of another seat, or is the own step before it is made, is refused and changes nothing |
| ShuffleSafety.FirstStepStands | internal/crypto/shuffle_session.go:148-181 | of the steps a seat sends the first taken in stands: copies are ignored, a different one is refused and changes nothing |
| ShuffleSafety.NewStepTaken | internal/crypto/shuffle_session.go:156-181 | a seat's first step is taken in exactly if it comes early or its commitment opens, and is then the one known of that seat |
| ShuffleSafety.PublishesExactly | internal/crypto/shuffle_session.go:260-290 | a call hands out the own step exactly if it is the call that applies it and the held steps that follow on all open; otherwise it returns an error in its place |
| ShuffleSafety.OwnStepIsLost | internal/crypto/shuffle_session.go:260-280 | three seats: the third's bad step comes before the first's good one, and the second applies its own step without publishing it |
| ShuffleReplica.StartSettles | internal/crypto/shuffle_session.go:111-128 | on a table with one step per seat, starting never fails and leaves the replica waiting for someone else |
| ShuffleReplica.HandleSettles | internal/crypto/shuffle_session.go:130-182 | handling any step of the table, early, in turn or late, never fails, keeps all that was known and remembers it |
| TurnNetwork.RunKeepsInv | internal/crypto/shuffle_session.go:111-182 | over all interleavings, losses, reorderings and duplications of a turn-taking protocol, each replica stays good and exactly the passed turns have been published |
| TurnNetwork.EveryTurnPasses | internal/crypto/shuffle_session.go:260-325 | once everything published has reached everyone, no turn is still open anywhere |
| ShuffleNetwork.ShuffleAgreement | internal/crypto/shuffle_session.go:111-182 | in every reachable state two replicas agree on every common applied index, on the deck at equal progress, and the slower has applied part of what the faster has |
| ShuffleNetwork.PublishedIsScript | internal/crypto/shuffle_session.go:260-280 | whatever is in flight is one of the table's steps, and a replica's own step only after its turn |
| ShuffleNetwork.NoHonestStepRejected | internal/crypto/shuffle_session.go:130-182 | a started replica never rejects a step that is in flight |
| ShuffleNetwork.NoStuckState | internal/crypto/shuffle_session.go:260-325 | once every broadcast step is delivered everywhere, all replicas are done with the same deck |
| ShuffleNetwork.HonestTableScripted | internal/crypto/shuffle_session.go:260-280 | seats with key pairs do have one step each, so the theorems above apply to them |
| ShuffleNetwork.FinishedDeckIsHonest | internal/crypto/shuffle_session.go:211-221 | the deck every replica ends with is an honest deal of a permutation of the 52 cards |
| DealSession.Session.constructor | internal/crypto/deal_session.go:137-183 | a new session is idle with nothing opened |
| DealSession.Session.BeginHolePeels | internal/crypto/deal_session.go:185-219 | state and reply are those of BeginHoles |
| DealSession.Session.BeginStreetPeels | internal/crypto/deal_session.go:221-265 | state and reply are those of BeginStreet: refusals, and streets only in order |
| DealSession.Session.BeginRevealPeels | internal/crypto/deal_session.go:268-299 | state and reply are those of BeginReveal |
| DealSession.Session.Handle | internal/crypto/deal_session.go:383-434 | state and reply are those of HandlePeel, with every refusal |
| DealSession.Session.PeelFor | internal/crypto/deal_session.go:340-381 | state and reply are those of PeelOnBehalf |
| DealSession.Session.ApplyIncoming | internal/crypto/deal_session.go:672-686 | a verified peel moves the ciphertext and the turn one on, anything else changes nothing |
| DealSession.Session.DrainPending | internal/crypto/deal_session.go:653-670 | the loop over the pending map applies exactly what DrainPeels applies |
| DealSession.Session.Install | internal/crypto/deal_session.go:582-603 | the job's first state, or an error and no change |
| DealSession.Session.StartCurrentJob | internal/crypto/deal_session.go:605-610 | peels at once if the own seat is first |
| DealSession.Session.ExecuteLocal | internal/crypto/deal_session.go:612-635 | the own peel in front of whatever it leads to |
| DealSession.Session.AfterApply | internal/crypto/deal_session.go:637-651 | drain, finish, advance or peel, as AfterPeel says |
| DealSession.Session.FinishCurrentJob | internal/crypto/deal_session.go:692-716 | keeps the opened value in the place that the job's kind gives it |
| DealSession.Session.AdvanceToNextJob | internal/crypto/deal_session.go:718-738 | installs the next job or ends the sequence and marks it |
| DealSession.Session.StartJobs | internal/crypto/deal_session.go:301-317 | starts a sequence with its first job |
| DealSession.Session.TakeOutbound | internal/crypto/deal_session.go:465-474 | hands over the waiting messages and empties the queue |
| DealIntake.StrangersRefused | internal/crypto/deal_session.go:383-400 | in every reachable state a message that is no peel of the job by one of its peelers, or is the own peel before it is made, is refused and changes nothing |
| DealIntake.FirstPeelStands | internal/crypto/deal_session.go:402-434 | of a peeler's peels the first taken in stands: copies are ignored, a different one is refused and changes nothing |
| DealIntake.NewPeelTaken | internal/crypto/deal_session.go:409-434 | a peeler's first peel is held if it comes early; the awaited one is applied exactly if it is of the current ciphertext and its proof verifies |
| DealIntake.OnBehalfRefused | internal/crypto/deal_session.go:340-381 | a peel on behalf is refused and changes nothing unless that seat, another than the own, is awaited and a private key is given |
| DealIntake.HoleJobsInOrder | internal/crypto/deal_session.go:185-219 | the hole jobs peel the deck from the top, each for the seat that the walk left of the dealer has come to |
| DealIntake.OthersInOrder | internal/crypto/deal.go:165-184 | the peelers of a hole job are the other seats in seat order |
| OwnPeels.OwnPeelPublishedExactly | internal/crypto/deal_session.go:612-651 | at the own turn, with a deck and a ciphertext in range, the own peel is applied and is handed out exactly if the held peels that follow on are each proved on the last result; otherwise an error is returned in its place |
| OwnPeels.DrainFailsExactly | internal/crypto/deal_session.go:653-670 | past the own turn draining fails exactly if a held peel that follows on is not proved |
| DealSafety.AppliedExactly | internal/crypto/deal_session.go:383-434 | in every state of every run, however its messages were made: applied has exactly the seats before the awaited one, each proved and on the result of the last, and current is the last result |
| DealSafety.NothingUnbegun | internal/crypto/deal_session.go:185-299 | in every state of every run no street, reveal or hole sequence is under way or done, and nothing is revealed, unless a call began it |
| DealSafety.HoleIsolation | internal/crypto/deal_session.go:692-716 | a position is opened only after the deal was begun, and only an own hole card, a card of a begun street, or one of a hand whose reveal was begun |
| DealSafety.BoardFollowsStreets | internal/crypto/deal_session.go:221-265 | community holds 0, 3, 4 or 5 values after none, flop, turn, river, and is in between only while the next street is under way |
| DealSafety.StreetsInOrder | internal/crypto/deal_session.go:718-738 | no call moves the last street except by one, to the street under way or just begun |
| DealSafety.CurrentIsPeeled | internal/crypto/deal_session.go:582-686 | on true decryptions, current is the card's ciphertext decrypted by exactly the peelers before the awaited one |
| DealSafety.DecodedIsPlain | internal/crypto/deal_session.go:692-716 | and every opened value is the plaintext of its position |
| DealSafety.CardsAreDealt | internal/crypto/deal_session.go:476-534 | LocalHoles, CommunityCards and RevealedHoles hand on the cards that the honest deal holds at their positions |
| DealJob.HandleTracks | internal/crypto/deal_session.go:383-434 | within one job, any honest peel in any order either leaves the replica waiting and remembered, or ends the job in its one end |
| DealJob.LateCopies | internal/crypto/deal_session.go:383-434 | late copies of a finished job's peels change nothing |
| DealJob.JobConfluence | internal/crypto/deal_session.go:582-716 | a replica handed a job's peels in any order, with any repetitions, ends the job in one state that does not depend on the delivery |
| JobNetwork.JobProtocolSound | internal/crypto/deal_session.go:383-434 | peel jobs, with peels of gone seats made by the first seat left, are a turn-taking protocol in the sense of TurnNetwork |
| JobNetwork.EveryoneLeavesJob | internal/network/crypto_hand.go:374-410 | once everything published is delivered everywhere and nothing is left to do on behalf of gone seats, every replica that is left, peeler or recipient, has left the job in its one final state |
| JobNetwork.PeelsPublishedOnce | internal/crypto/deal_session.go:612-635 | in every reachable state exactly the peels whose turn has passed on the replica that makes them have been published |
| JobNetwork.OnBehalfIs | internal/crypto/deal_session.go:340-381 | a peel on behalf of the awaited gone seat is the script's, and is taken in as if it had been received |
| GoneSeats.PartyScripted | internal/network/crypto_hand.go:374-410 | with key pairs, an honest deck and the true keys of the gone, the seats that are left follow one script, whichever and however many are gone: the network theorems apply |
| GoneSeats.AgentsExist | internal/network/liveness.go:16-26 | as long as one seat is left and takes part, every peel has a seat that makes it: its own, or the first one left |
| HonestJob.HonestJobOpens | internal/crypto/deal_session.go:692-716 | at the end of a public job every seat has opened the plaintext of the position |
| HonestJob.HoleJobOpens | internal/crypto/deal_session.go:692-716 | at the end of a hole job its recipient has opened the plaintext as its card of that round |
| CryptoHand.DelegationIsOwnPeel | internal/crypto/deal_session.go:340-381 | in every reachable state a peel on behalf of the awaited seat does what the same peel received from it would do, published in front |
| CryptoHand.HonestPeelPossible | internal/crypto/deal_session.go:340-381 | on true decryptions, the awaited seat's peel can always be made with its key and verifies |
| CryptoHand.RecoveryIsTransparent | internal/crypto/deal_session.go:340-381 | in every state reached on true decryptions, whatever valid proof the missing seat would have sent, the survivor's peel leaves the same ciphertext, values and next moves; only the stored proof differs |
| CryptoHand.RecoveredKeyPeelsAlike | internal/fault/shamir.go:73-85 | the key rebuilt from a threshold of shares is the owner's and makes the owner's peels |
| Delegation.DelegationProgress | internal/network/crypto_hand.go:385-410 | a successful delegated peel ends the sequence or uses up peels or jobs, lexicographically: the loop terminates |
| Delegation.DelegationStops | internal/network/crypto_hand.go:385-410 | the loop stops only when nobody is awaited, someone present is, or a peel failed |
| Delegation.OneDelegate | internal/network/liveness.go:16-26 | at most one survivor delegates, and it is not gone itself |
| Delegation.FirstLeftDelegates | internal/network/liveness.go:16-26 | the seat that delegates is the first in seat order that is not gone |
| CryptoHand.Hand.constructor | internal/network/crypto_hand.go:35-65 | a new hand has nobody gone; its early-peel buffer and shuffle session are left out |
| CryptoHand.Hand.MarkGone | internal/network/crypto_hand.go:355-374 | records the key of a gone seat, or refuses and changes nothing |
| CryptoHand.Hand.CollectPeels | internal/network/crypto_hand.go:658-667 | the returned peel and all that is queued, which is emptied |
| CryptoHand.Hand.TryDelegatedPeels | internal/network/crypto_hand.go:376-410 | session, messages and error are those of TryDelegate |
| CryptoHand.Hand.DelegateAll | internal/network/crypto_hand.go:385-410 | the loop does exactly what DelegateLoop does |
| HandEval.CompareHands | internal/game/hand_eval.go:34-49 | the scan over the kickers computes the comparison |
| HandEval.CompareTotalPreorder | internal/game/hand_eval.go:34-49 | on the hands that are compared, Compare is a total preorder and 0 means the same hand |
| HandEval.Evaluate5Shaped | internal/game/hand_eval.go:74-141 | every category lists its own number of kickers; which they are is Categories.EvaluateExactly |
| Categories.EvaluateExactly | internal/game/hand_eval.go:74-195 | for five different real cards the evaluator returns a hand exactly if the cards are worth it: each of the ten categories by how often ranks occur, one suit, and five consecutive ranks or the wheel, and the kickers in the order that decides ties |
| Categories.CategoryExactly | internal/game/hand_eval.go:74-141 | each category is returned exactly if the cards have it with some kickers |
| Categories.CompareExactly | internal/game/hand_eval.go:34-49 | a hand is better exactly if its category is higher or, in the same category, the first kicker that differs is |
| HandEval.PickFive | internal/game/hand_eval.go:55-66 | the five cards other than two |
| HandEval.ScanPairs | internal/game/hand_eval.go:52-72 | the nested loops keep the best hand of the scan |
| HandEval.FindBest7 | internal/game/hand_eval.go:52-72 | the method computes the specification EvaluateBest7, which Showdowns.Best7Exactly characterises |
| HandEval.Best7Unbeaten | internal/game/hand_eval.go:52-72 | no choice of five beats the result |
| HandEval.Best7IsAttained | internal/game/hand_eval.go:52-72 | the result is the value of some choice exactly if some choice is more than a high card |
| Showdowns.Best7Exactly | internal/game/hand_eval.go:52-72 | for seven different real cards the result is the best that any five of them are worth, if that is more than a high card, and a high card without kickers otherwise; five of them are any five, in any order |
| HighCards.FiveIsHighCardExactly | internal/game/hand_eval.go:74-141 | five different real cards rank as a high card exactly if their ranks differ and they are no straight, wheel or flush |
| HighCards.Best7IsNothingExactly | internal/game/hand_eval.go:52-72 | seven different real cards come back as a high card without kickers exactly if they hold no pair, no straight and no flush |
| HighCards.HighCardsTie | internal/game/hand_eval.go:52-72 | so any two such hands tie, whichever has the higher cards |
| HandEval.AceHighTiesKingHigh | internal/game/hand_eval.go:52-72 | a concrete ace-high and king-high seven that tie, although the best five of the one beat the best five of the other |
| Pots.SumPots | internal/game/pot.go:88-93 | the loop adds up the amounts |
| Pots.OneLayer | internal/game/pot.go:28-46 | one level's amount and eligible list |
| Pots.BuildLayers | internal/game/pot.go:10-54 | the loop over the sorted contributions builds one pot per level |
| Pots.MergeInPlace | internal/game/pot.go:56-70 | the loop that adds into the last element merges pots of the same players |
| Pots.ComputePots | internal/game/pot.go:10-54 | the method computes the specification CalculatePots |
| Pots.MergeIsIdentity | internal/game/pot.go:56-86 | merging never changes anything: eligible lists get strictly shorter from level to level |
| Pots.EligibleSetsShrink | internal/game/pot.go:10-54 | with distinct players the sets of those who can win a pot are strictly nested |
| Pots.PotsHoldAllBets | internal/game/pot.go:10-93 | the pots sum to the sum of the total bets |
| Pots.EligiblePotsExact | internal/game/pot.go:10-54 | the pots that a contributor can win hold, from every seat, what it matched: the sum of min(own, other) total bets |
| Pots.TopSeatEligible | internal/game/pot.go:10-54 | a seat with the highest total bet is eligible for every pot |
| Pots.TopPotIsForTop | internal/game/pot.go:10-54 | and only such seats are eligible for the last pot |
| Machine.Player.constructor | internal/game/player.go:28-35 | a new player |
| Machine.Player.PlaceBet | internal/game/player.go:45-54 | a bet is capped by the stack, which makes the player all-in |
| Machine.Player.ResetForNewHand | internal/game/player.go:56-61 | bets, hand and status as at the start of a hand |
| Machine.Player.ResetForNewRound | internal/game/player.go:63-65 | clears the current bet and nothing else |
| Machine.Machine.constructor | internal/game/state.go:84-101 | the state of a new hand, players reset in place |
| Machine.Machine.CountCanAct | internal/game/machine.go:148-156 | counts the seats that can act |
| Machine.Machine.OnlyOneRemaining | internal/game/machine.go:322-330 | holds exactly if one seat at most is left in the hand |
| Machine.Machine.MissingRevealIDs | internal/game/machine.go:512-526 | the remaining players with unknown hands, in table order |
| Machine.Machine.NextActiveIndex | internal/game/state.go:130-139 | the first seat after the given one that can act, or -1 |
| Machine.Machine.SeatIndex | internal/game/state.go:141-148 | the first seat with the identifier, or -1 |
| Machine.Machine.KnownDealtCards | internal/game/machine.go:622-639 | the set of cards on the board and in known hands |
| Machine.Machine.PotWinners | internal/game/machine.go:386-433 | the candidates that tie with the strongest; who they are, by the cards, is Showdowns.WinnersHoldBest |
| Machine.Machine.ClosestLeftOfDealer | internal/game/machine.go:435-449 | the winner reached first when walking left of the dealer |
| Machine.Machine.PayOnePot | internal/game/machine.go:361-379 | pays equal shares and the odd chips of one pot |
| Machine.Machine.DistributePots | internal/game/machine.go:357-384 | stacks and payouts after all pots, or an error while hands are missing |
| Machine.Machine.StartShowdown | internal/game/machine.go:347-355 | as the reducer's StartShowdown |
| Machine.Machine.ResolveSingleWinner | internal/game/machine.go:332-345 | the remaining seat takes all the pots |
| Machine.Machine.EndBettingRound | internal/game/machine.go:158-186 | as the reducer's EndBettingRound, in both modes |
| Machine.Machine.DealNextStreet | internal/game/machine.go:187-238 | a burn and the street's cards, then a new round |
| Machine.Machine.StartNewBettingRound | internal/game/machine.go:240-266 | as the reducer's StartNewBettingRound, with the jump to the showdown |
| Machine.Machine.BettingRoundComplete | internal/game/machine.go:134-146 | the three tests in the source's order |
| Machine.Machine.AdvanceAction | internal/game/machine.go:120-132 | the turn moves on or the round ends |
| Machine.Machine.ApplyAction | internal/game/machine.go:48-118 | every branch and refusal of the reducer: state and error are those of Rules.ApplyAction; what is accepted is Raises.AcceptedExactly |
| Machine.Machine.PostBlinds | internal/game/machine.go:269-295 | both blinds, capped by the stacks, and their log entries |
| Machine.Machine.DealHoleCards | internal/game/machine.go:297-312 | two rounds left of the dealer, or the error of an empty deck |
| Machine.Machine.StartHand | internal/game/machine.go:20-46 | state and error of the plaintext start |
| Machine.Machine.StartHandCrypto | internal/game/machine.go:451-476 | state and error of the crypto start |
| Machine.Machine.ApplyStreet | internal/game/machine.go:532-574 | state and error, with every refusal |
| Machine.Machine.ApplyHoleReveal | internal/game/machine.go:576-620 | state and error, with every refusal |
| Rounds.PerformKeepsArc | internal/game/machine.go:48-118 | an accepted action keeps the seats that still owe chips an arc that starts at the next seat |
| Rounds.RoundEndsMatched | internal/game/machine.go:120-146 | the round ends only when every seat that can act has matched the bet; otherwise the turn invariant holds for the next seat |
| Hand.RunKeepsTurns | internal/game/machine.go:48-266 | the turn order invariant holds after any inputs, refused ones included |
| SeatOrder.StartsLeftOfBlind | internal/game/machine.go:269-320 | a hand starts with the small blind posted left of the dealer and the big blind left of that (heads up the dealer posts the small one), each no more than the stack, nobody else touched, both in the log, and the turn with the first seat left of the big blind that can act |
| SeatOrder.TurnGoesLeft | internal/game/machine.go:120-132 | over every run of every hand: while a round goes on the turn passes to the first seat left of the actor that can act; a round opens with the first seat left of the dealer that can, nothing bet, and somebody else to act too |
| Raises.RaisesNeverShrink | internal/game/machine.go:78-92 | over every run of every hand in either mode, each accepted raise is at least the big blind and at least every raise accepted before it in the same betting round |
| Raises.AcceptedExactly | internal/game/machine.go:48-118 | after any run an action is accepted exactly if it is in turn and allowed: a raise if it is no less than the big blind and all raises of the round and meets the source's test of the stack, a check if nothing is owed, a call if something is, a fold and an all-in always |
| History.LogIsActions | internal/game/machine.go:108-118 | the log of a hand is what it started with and then exactly the accepted actions, in order |
| History.NothingTakenBack | internal/game/machine.go:532-620 | a card on the board or a known hand is there ever after, whatever is fed to the table |
| History.CardsStayDifferent | internal/game/machine.go:532-640 | over every crypto hand, whatever streets and reveals come, no card is in two places |
| History.RevealExactly | internal/game/machine.go:576-620 | a reveal is accepted exactly if it is for a remaining seat at a crypto showdown and is the hand that is known, or two different real cards that are on no board and in no hand; it then sets that hand, and changes nothing otherwise |
| JointDeck.RefusalExactly | internal/game/machine.go:551-560 | a street's cards are let pass exactly if they are real, different, and none has been seen |
| JointDeck.ListsInOrder | internal/game/machine.go:512-526 | the players whose reveal is missing, and those remaining, are listed once each in table order |
| WholeHand.RoundsEndMatched | internal/game/machine.go:120-146 | from the start of any hand in either mode: whenever an accepted action ends a round, all bets of seats that can act are matched and equal in total |
| WholeHand.StreetsOpenLevel | internal/game/machine.go:158-186 | whenever a street or the reveals are awaited, all seats that can act carry the same total bet |
| WholeHand.HandIsBounded | internal/game/machine.go:48-146 | from the start of any hand, no run has more accepted actions and streets than a bound computed from the chips and the seats |
| WholeHand.TurnCanFold | internal/game/machine.go:51-64 | whenever someone has the turn, its fold is accepted |
| Progress.StartsStuckExactly | internal/game/machine.go:40-44 | nobody has the turn at the start exactly if two players sit and the blinds take both their stacks |
| Progress.HandGoesOnExactly | internal/game/machine.go:48-59 | from the start of a hand, some turn, street or reveal is awaited or the hand is settled after every run of inputs, exactly if the blinds do not take both stacks heads up; otherwise no input changes the table and all chips stay bet |
| Progress.AwaitedIsAccepted | internal/game/machine.go:532-620 | what a reachable table waits for is accepted: the fold of the seat to act, any new cards of the right number for a street, any new pair for a hidden hand |
| Progress.ShortStacksStick | internal/game/machine.go:451-476 | stacks of 1 and 2 against blinds of 1 and 2: the hand starts and every input is refused for ever |
| StreetEnds.CloseIsEnd | internal/game/machine.go:120-132 | the actions of a round, as the machine's own run, and the closing one leads to the end of the round |
| StreetEnds.UnactedWasMatched | internal/game/machine.go:134-146 | a seat that can act and has not had the turn when a round is closed had matched the bet from the start, and nobody raised |
| StreetEnds.EveryoneActsExactly | internal/game/machine.go:134-156 | after the flop, everyone who can still act has had the turn when the round is closed exactly if somebody raised or all but the last seat in line checked |
| StreetEnds.BigBlindActsExactly | internal/game/machine.go:40-44 | before the flop, a big blind that can act gets the turn, if somebody else opens, exactly if somebody raises |
| StreetEnds.SomeoneIsPassedOver | internal/game/machine.go:134-146 | a reachable flop of three players on which a fold and a check close the round before the third has acted |
| WholeHand.AllInNeverRaises | internal/game/machine.go:94-106 | the raise branch of an all-in is never taken: an all-in is a bet of the whole stack and nothing else |
| Termination.RunIsBounded | internal/game/machine.go:48-266 | every accepted action or street descends a lexicographic measure, so runs are bounded by the supply of their first table |
| Termination.ActionUses | internal/game/machine.go:48-118 | one accepted action: no error after it, and the measure falls |
| Settlement.PayPotIs | internal/game/machine.go:361-379 | a pot's chips all reach stacks, and each stack grows by what the payouts record, unless everyone eligible has folded |
| Settlement.WinnersExist | internal/game/machine.go:386-433 | a pot has no winner exactly if everyone eligible for it has folded |
| Settlement.DeadChipsExact | internal/game/machine.go:357-384 | chips stay unpaid at a showdown exactly if all seats with the highest total bet have folded |
| Settlement.DistributeIs | internal/game/machine.go:357-384 | after the payout the stacks have grown by all bets less those chips, as the payouts record |
| Settlement.SingleWinnerIs | internal/game/machine.go:332-345 | the last seat in the hand gets every chip that was bet |
| Conservation.FundedRaiseTops | internal/game/machine.go:78-92 | a funded raise leaves the raiser in the hand with the highest line |
| Conservation.RunConserves | internal/game/machine.go:48-384 | over any run with funded raises chips are conserved, through bets, streets, side pots, odd chips and payouts |
| Opening.CryptoHandConserves | internal/game/machine.go:451-476 | a whole crypto hand with funded raises ends with the stacks adding up to what they were before the blinds |
| Opening.PlaintextHandConserves | internal/game/machine.go:20-46 | the same for a plaintext hand whose deck can serve the table |
| Ledger.CryptoHandConservesExactly | internal/game/machine.go:332-384 | without assumption on raises: all chips are in the stacks at the end if and only if one seat only stayed in or some seat with the highest total bet did; otherwise fewer are |
| Ledger.PlaintextHandConservesExactly | internal/game/machine.go:332-384 | the same in plaintext mode |
| Ledger.SettlingKeepsChipsExactly | internal/game/machine.go:332-384 | the same condition on the table before the payout, where a caller can test it |
| Ledger.UnderfundedRaiseLosesChips | internal/game/machine.go:78-92 | five accepted actions, one raise under-funded, after which chips are missing |
| Winners.WinnersAreStrongest | internal/game/machine.go:386-433 | the winners of a pot are exactly the eligible seats in the hand that no other such seat beats |
| Winners.Best7IsComparable | internal/game/hand_eval.go:34-72 | the evaluator satisfies what that theorem asks of it |
| Showdowns.SevenExactly | internal/game/machine.go:404-412 | the seven cards compared are the seat's two, all of the board, and a blank for each board card that is missing; no blanks exactly if the board has five |
| Showdowns.HandExactly | internal/game/machine.go:404-412 | with five board cards a seat's hand is the best that five of its own two and the board are worth |
| Showdowns.WinnersHoldBest | internal/game/machine.go:386-433 | with the evaluator of the code and five board cards, the winners of a pot are exactly the eligible seats still in whose own two cards and the board are worth no less than those of any other such seat |
| Showdowns.BlanksArePair | internal/game/machine.go:404-412 | on a board of three every seat's hand is a pair at least, as the two blanks count as one |
| Showdowns.BlanksMakeFlush | internal/game/machine.go:404-412 | on a board of three, three spades among the seat's two and the board are a flush at least, as the blanks are of that suit |
| Showdowns.SpadesBeatStraight | internal/game/machine.go:404-412 | a concrete board of three on which nine, seven and two of spades beat a king-high straight |
| Winners.PotIsSplit | internal/game/machine.go:361-379 | each winner gets the quotient, the one nearest left of the dealer also the remainder, everyone else nothing |
| Winners.PotsNameOnce | internal/game/pot.go:10-54 | with distinct players no pot lists anyone twice |
| JointDeck.StreetAccepted | internal/game/machine.go:532-574 | the next street of the dealt deck is never refused |
| JointDeck.RevealsSettle | internal/network/crypto_hand.go:519-546 | revealing the remaining hands in table order pays out on the dealt hands, whatever was known before |
| Replicas.RunsAgree | internal/game/machine.go:508-640 | two replicas of one deal stay in agreement over any events |
| Replicas.ReplicasSettleAlike | internal/game/machine.go:347-384 | replicas that know different hands have equal public state until the hand is over, and after the reveals both have settled with the same stacks and payouts |
| ModeRefinement.ActionRefinesExactly | internal/game/machine.go:240-266 | one action leads both modes to the same public state if and only if it does not leave nobody to act before the turn |
| ModeRefinement.CryptoRefinesPlaintext | internal/game/machine.go:158-312 | over whole hands on any deck order: crypto mode, fed by the deal's positions, ends in the plaintext mode's public state, payouts included, if and only if no accepted action leaves nobody to act before the turn |
| ShortBoard.ModesPartAllIn | internal/game/machine.go:240-266 | two players all in before the flop: from any deck the plaintext hand settles on three board cards and the crypto hand on five |
| Public.SameDistribution | internal/game/machine.go:357-384 | the payout depends on the public state and the shown hands only |
| Lockstep.StreetLoopInStep | internal/network/crypto_hand.go:274-294 | the street that the machine waits for is the session's next, and when it is done there are exactly as many new cards as the machine wants |
| Lockstep.SessionBoard | internal/crypto/deal_session.go:497-512 | the session's board is the dealt board as far as it goes |
| Lockstep.CryptoShowdownHasFullBoard | internal/game/machine.go:532-574 | a crypto hand reaches its showdown only with five board cards, whatever it was fed |
| AdvanceLoop.HandStaysInLockstep | internal/network/crypto_hand.go:440-518 | over a whole hand, whatever players do and in whatever order true peels arrive: boards are equal between streets, the loop asks for the session's next street, its cards are accepted, and the showdown has five cards |
| Settling.HandSettles | internal/network/crypto_hand.go:519-546 | at the showdown no reveal is refused, each hands over its pair, and the hand settles as the dealt hands say |
| Sequencer.ActionSequencer.constructor | cmd/poker/main.go:343 | starts at number 1 with nothing held |
| Sequencer.ActionSequencer.Push | cmd/poker/main.go:734-749 | the loop releases exactly what PushOn releases |
| Sequencer.ActionSequencer.Reset | cmd/poker/main.go:752-757 | back to the start |
| Sequencer.OutIsPrefix | cmd/poker/main.go:734-749 | for any arrivals: what is out is numbered 1, 2, 3, ... , has arrived, and number n is out exactly if 1 to n have arrived |
| Sequencer.OrderImmaterialExactly | cmd/poker/main.go:734-749 | reordering and repetition are harmless if and only if no two different messages share a number up to which everything has arrived |
| Sequencer.EverythingComesOut | cmd/poker/main.go:734-749 | if the messages are those of a script, in any order and with repetitions, the script comes out once in order |
| Sequencer.PlayedIsPrefix | cmd/poker/main.go:801-815 | with a replica's own actions taking numbers in between, what has been played is always the script so far |
| Sequencer.HeldPushed | cmd/poker/main.go:734-749 | what is held has been received |
| Sequencer.PlayedExactly | cmd/poker/main.go:801-815 | the next message of the script has been received and not been played exactly if the last event was an own action taken while its successor was held |
| Sequencer.SuccessorLeftBehind | cmd/poker/main.go:801-815 | the second of two messages comes first, the first is an own action: the second stays held until the next push |
| Sequencer.NextPushCatchesUp | cmd/poker/main.go:734-749 | the next push, new or repeated, plays all that was left behind |
| Sequencer.FirstCopyWins | cmd/poker/main.go:734-749 | two different actions under number 1: the first to arrive is the one that is played |
| Sequencer.TablesConverge | cmd/poker/main.go:384-404 | each replica's table is the one that the script leads to, as far as it has got |
| Sequencer.ReplicasConverge | cmd/poker/main.go:384-404 | replicas that know different hands agree whenever they have played equally many actions |

## Left out

- The byte serialisation of what is hashed (decks, challenges, commitments): hashes are functions of the values.
- That proofs cannot be forged, hiding and collision resistance, which are computational claims. A proof does not say whose key was used; that peelers use their own is an assumption of the honest-deal theorems.
- The evaluator in the reducer's theorems is a parameter; `Winners.Best7IsComparable` shows that the one in the code satisfies what they ask. The list of cards inside an evaluated hand, which nothing reads, is not modelled.
- Sorting of contributions by the library is modelled as a stable insertion sort.
- `Shuffle.ExecuteStep` works on sequences instead of filling a slice in place.
- The game state and the deck are folded into the machine object and its table value; the deck in the order that the shuffle left it in is a parameter of `StartHand`.
- An action on a table where nobody has the turn reads a missing player in the source and is an error in the model.
- An input to a hand that started with nobody to act is an error in the model throughout; see the finding on internal/game/machine.go:56-59.
- Nil checks, mutexes, deep copies, error texts and the bounds of 64-bit chip counts.
- The buffering of messages that arrive before a session exists and the wait gates; goroutines that advance a hand concurrently. Liveness is stated for the shuffle and within one peel job.
- JobNetwork.EveryoneLeavesJob: is about one job; a seat that is gone has sent nothing in it, so that each peel has one maker. What a peel on behalf does to a session where the seat might have sent its own is CryptoHand.RecoveryIsTransparent.
- CryptoHand.Hand.constructor: the buffer of early peels, the gates and the shuffle session of the source's object are not fields of the model.
- Liveness is claimed for honest messages only: see the finding on own steps and peels that are not published.
- Transport, terminal interface, lobby and keyring checks, configuration, the chain client, heartbeats, votes and slashing.
