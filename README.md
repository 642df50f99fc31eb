# SecretJack in Dafny

SecretJack is a blackjack table run as two CosmWasm smart contracts on
Secret Network.

The **game contract** keeps one table with six seats, an optional dealer
hand and a game state. The game state is one of:
- `NoPlayers`;
- `PlayerTurn(seat, isFirst, turnStartTime)`;
- `DealerTurn`.

Beside the table the contract stores:
- the round's shuffled deck, with a `u8` cursor;
- a round secret;
- one secret per seat;
- each address's escrowed stake;
- the last round's scores.

Players act with `sit`, `stand`, `bid`, `hit`, `hold` and `kick`. When every
seated player has held, the dealer draws to 17. The round is then settled:
winners are paid by the bank and get their stakes back, losers' stakes go
to the bank. A new round then starts with a deck shuffled from a digest of
the round secret and the seated players' secrets.

The **bank contract** holds the house's funds:
- It instantiates the game.
- It waits, behind a pending flag, for the game to register its address.
- After that it pays winners only when the registered game asks.
- It lets its owner change owner or withdraw everything.
- It reports its balance less a 10% reserve. The game sizes its maximum
  bid from that figure.

## How the model is built

- **Values and storage.**
  - Every record of the source is a datatype (modules `Cards`, `Msg`).
  - The game's storage keys are the fields of a `World` value (`GameStore`).
  - Storage cells follow `state.rs`: `load` of a missing key fails with
    not_found, and `may_load` answers None (`State`).
- **Loops.** Every source loop is a `method` with that loop, proved equal to
  a recursive specification function. These are:
  - `get_player_seat` and `get_player_score`;
  - `get_first_player_to_play` and `is_any_player_holding`;
  - `get_random_seed`, the hand-clearing loop of `start_new_round`, and
    `advance_to_next_player`;
  - `play_dealer` and `game_roundup`.
  The properties are proved about the specification functions.
- **Actions.** Each action is a function from the stored world and the
  call's environment to a new world plus the outbound messages (`Handlers`).
  Each action also exists as a method in the source's step order
  (`Contract`).
- **Commit.** The class `Contract.GameContract` holds the storage. It commits
  the outcome of a successful call and keeps nothing of a failed one, since
  the chain reverts a call that errs or panics. `Bank.BankContract` does the
  same for the bank.
- **Panics are errors.** Each point where the Rust code would panic ends the
  call with an error:
  - reading past the end of the deck → `DeckExhausted`;
  - `unwrap` of a missing hand → `MissingHand`;
  - `u8`, `u64` or `Uint128` arithmetic that overflows → `Overflow`. This
    assumes the contracts are built with overflow checks on.
- **Foreign code and queries are parameters.**
  - The SHA-256 digest and the ChaCha shuffle of the card library's deck are
    the two functions of a `Rng` value.
  - A bank balance query is a `uint128` argument.

Source behaviour the model keeps as written:
- **Turn scan** (contract/game/src/contract.rs:510-520).
  - The scan after the current seat has no early exit. The turn goes to the
    LAST occupied NotPlaying seat after the current one.
  - Any later occupied seat in another state fails the call.
- **`remove_player`** clears the seat's address before it zeroes the stake
  (contract/game/src/contract.rs:189-195). So the stake zeroed is the empty
  address's, and the leaving player's stake stays stored.
- **Losing seat.** Its recorded reward is its stake
  (contract/game/src/contract.rs:291).
- **`start_new_round`.** When the round starts it keeps the previous dealer
  hand; only a table without players clears it.
- **`play_dealer`** draws onto an empty hand. It discards the one card `bid`
  gave the dealer.
- **`hit`** does not pass the turn. It checks the raw `total_value`, not the
  score, against 21.
- **Kicking** a player whose turn it is not gives the bid's "only on his
  turn" error when the table is not in a player turn.
- **Standing up off turn.** `stand` asks only that the player sits in the seat
  and is NotPlaying (contract/game/src/contract.rs:585-618), not that it is
  their turn. If they stand up during a lower seat's turn, nobody sits after
  them and nobody holds yet, a new round starts. But the lowest occupied seat
  is still in Bid or Hit, so that round ends in NoPlayers
  (contract/game/src/contract.rs:494-497) with that player still seated.
  Nobody has the turn, so they can no longer hit, hold or stand up, and
  their stake stays in the game contract.
- **`stand`** then runs the game flow as if leaving the state
  `PlayerTurn(seat, true, 0)`. That flow can play the dealer and settle a
  round, or start a new one.

Two message files of the bank do not match what
`contract/bank/src/contract.rs` uses:
- `contract/bank/src/msg.rs` declares `Withdraw` and `WithdrawAll`, where
  `contract.rs` dispatches `PayToWinner` and `EmergencyWithdrawAll`. Its
  `InitMsg` does match what `contract.rs:17-25` reads.
- The `InitMsg` of `contract/bank/src/contract/game_msg.rs` has an owner and
  no secret, where `contract.rs:22-26` builds it with a secret and no owner.

The model follows `contract.rs`.

## Model

| member | source | states |
|---|---|---|
| Cards.CardValue | contract/game/src/contract.rs:341-357 | every card is worth 1 to 10; exactly the ace is worth 1; Two to Ten are worth their face and a court card 10 |
| Cards.RawTotalBounds | contract/game/src/contract.rs:341-357 | a hand's raw total lies between its card count and ten times it |
| Cards.CountAcesBound | contract/game/src/contract.rs:210-216 | a hand has at most as many aces as cards, and some ace exactly when the count is positive |
| Cards.RawTotalAppend | contract/game/src/contract.rs:369-370 | adding a card adds its value to the raw total |
| Scoring.PromoteBounds | contract/game/src/contract.rs:208-216 | the ace promotion never lowers the total, never passes 21 and adds a multiple of 10 |
| Scoring.PromoteOnce | contract/game/src/contract.rs:208-216 | the promotion adds 10 exactly when the hand has an ace and the total is at most 11, and adds nothing otherwise |
| Scoring.ScoreBounds | contract/game/src/contract.rs:203-219 | a total over 21 is its own score; otherwise the score is between the total and 21 and differs from it by a multiple of 10 |
| Scoring.ScoreOfConsistentHand | contract/game/src/contract.rs:203-219 | for a hand whose total is its raw total, the score is the total or the total plus 10, and plus 10 exactly when the hand has an ace and the total is at most 11 |
| Scoring.GetPlayerScore | contract/game/src/contract.rs:203-219 | the loop over the cards computes the score |
| State.Load | contract/game/src/state.rs:89-95 | a load succeeds exactly for a stored key and fails with not_found otherwise |
| State.MayLoad | contract/game/src/state.rs:97-102 | may_load answers the stored value, or None for a missing key |
| State.LoadAgreesWithMayLoad | contract/game/src/state.rs:89-102 | load fails exactly where may_load answers None and agrees with it elsewhere |
| State.ReadUserBalance | contract/game/src/state.rs:76-82 | an address never credited reads as 0, any other as its stored stake |
| State.AddUserBalance | contract/game/src/state.rs:63-74 | a credit stores the amount on a missing key and adds it to the stored stake otherwise, fails on Uint128 overflow, and changes no other address |
| State.ZeroUserBalance | contract/game/src/contract.rs:195 | zeroing reads back as 0 for that address and changes no other |
| State.ReadAfterAdd | contract/game/src/state.rs:63-82 | the next read after a credit sees the old stake plus the amount, and other addresses see no change |
| State.ReadSecret | contract/game/src/state.rs:32-34 | the round secret reads back when stored and fails with not_found otherwise |
| State.StoreSecret | contract/game/src/state.rs:27-34 | reading the round secret after storing v gives v |
| State.ReadPlayerSecret | contract/game/src/state.rs:119-122 | a seat's secret reads back exactly when stored |
| State.StorePlayerSecret | contract/game/src/state.rs:113-122 | storing a seat's secret makes it read back and leaves every other seat's secret as it was |
| Seating.GetPlayer | contract/game/src/contract.rs:115-135 | the seat is returned exactly when it is below 6 and, if an address is given, held by that address; otherwise "No such seat" or "Wrong address" |
| Seating.GetPlayerSeat | contract/game/src/contract.rs:137-145 | the loop finds the first seat holding the address, and fails with not_found exactly when no seat does |
| Seating.OccupiedAfterUpdate | contract/game/src/contract.rs:168 | replacing one seat changes the count of occupied seats by exactly the change at that seat |
| Seating.AddPlayerRules | contract/game/src/contract.rs:147-172 | seating fails on a seat past the sixth, an address already seated or a taken seat; otherwise it writes the address, stores the secret, adds one to the counter, moves nobody else and keeps the counter equal to the occupied seats |
| Seating.RemovePlayerRules | contract/game/src/contract.rs:174-201 | leaving needs the seat's own address; it empties the seat, takes one off the counter, resets the seat's secret to 0 and zeroes the empty address's stake, leaving the player's own stake as it was |
| Dealing.Draw | contract/game/src/contract.rs:369-375 | a draw yields the card at the cursor and moves the cursor by one; it fails past the deck's end or when the u8 cursor would overflow |
| Dealing.AddCard | contract/game/src/contract.rs:369-370 | adding a card appends it and adds its value to the u8 total, failing on overflow |
| Dealing.PlayerLattice | contract/game/src/contract.rs:359-428 | NotPlaying→Bid deals the next two cards and moves the cursor by 2; Bid/Hit→Hit deals the next card and fails with "can't hit" when the total is 21 or more; Bid/Hit→Hold deals nothing; every other step fails |
| Turns.FirstToPlayFrom | contract/game/src/contract.rs:430-442 | the scan answers an occupied NotPlaying seat with only empty seats before it, or not_found exactly when every seat is empty |
| Turns.FirstToPlayMeans | contract/game/src/contract.rs:430-442 | the first seat to play is the lowest occupied seat, which must be NotPlaying, else "Unexpected player turn"; not_found exactly for an empty table |
| Turns.FirstOccupiedExists | contract/game/src/contract.rs:430-442 | a table with an occupied seat has a lowest occupied seat |
| Turns.GetFirstPlayerToPlay | contract/game/src/contract.rs:430-442 | the loop computes the first seat to play |
| Turns.IsAnyPlayerHolding | contract/game/src/contract.rs:534-550 | the loop answers true exactly when some occupied seat holds |
| Turns.BeBytesRoundTrip | contract/game/src/contract.rs:449-456 | big-endian encoding of a number that fits in n bytes decodes back to it |
| Turns.SeedFromLayout | contract/game/src/contract.rs:449-456 | appending the seated players' secrets succeeds exactly when each has one stored, adds 8 bytes per occupied seat and keeps what came before |
| Turns.SeedMaterialLayout | contract/game/src/contract.rs:444-460 | the seed material exists exactly when every seated player has a stored secret; it is 8 bytes per seated player after 8 bytes that decode to the round secret |
| Turns.SecretRoundTrip | contract/game/src/contract.rs:447-448 | the eight bytes of the round secret decode back to it |
| Turns.GetRandomSeed | contract/game/src/contract.rs:444-460 | the loop computes the digest of the seed material |
| Turns.ClearHands | contract/game/src/contract.rs:467-470 | every seat keeps its address and state and loses its hand |
| Turns.NewRoundKeeps | contract/game/src/contract.rs:462-501 | a new round drops every hand and changes no address, seat state, stake, seat secret, score or counter |
| Turns.NewRoundWithoutTurn | contract/game/src/contract.rs:492-498 | when every seat is empty, or the lowest occupied seat has already bid, hit or held, a new round always succeeds: it clears the dealer hand and every seat's hand, waits in NoPlayers with the players still seated, and keeps the deck and the round secret |
| Turns.NewRoundStarts | contract/game/src/contract.rs:472-491 | when the lowest occupied seat has not played, it gets a first turn at the current time, the round secret moves on by one and the deck is the shuffle of the seed with cursor 0; this fails exactly for a missing secret or the u64 limit |
| Turns.ClearTableHands | contract/game/src/contract.rs:467-470 | the loop drops every seat's hand and changes nothing else |
| Turns.StartNewRound | contract/game/src/contract.rs:462-501 | the steps of start_new_round compute the new round |
| Turns.ScanFromMeans | contract/game/src/contract.rs:510-520 | the scan succeeds exactly when every later occupied seat is NotPlaying, and then picks the LAST of them, or keeps the turn when none is seated |
| Turns.AdvanceTurnRules | contract/game/src/contract.rs:503-532 | a later seat in play fails the call; otherwise the turn goes to the last later NotPlaying seat; with no later seat the game goes to DealerTurn if anyone holds, else stays, or starts a new round when asked |
| Turns.AdvanceToNextPlayer | contract/game/src/contract.rs:503-532 | the loop and calls compute the turn advance |
| Dealer.DealerDrawTakes | contract/game/src/contract.rs:226-233 | drawing takes the deck's next cards in order and moves the cursor past exactly those; it fails only on the deck's end or an overflow |
| Dealer.DealerDrawStops | contract/game/src/contract.rs:228-233 | drawing stops at the first hand that scores 17 or more and never passes 26 |
| Dealer.DealerHandRules | contract/game/src/contract.rs:221-241 | the dealer's hand is the deck's next cards, at least one, with a score from 17 to 26; every shorter prefix scored below 17 and the cursor moves by exactly the cards taken |
| Dealer.PlayDealer | contract/game/src/contract.rs:221-241 | the loop computes the dealer's play, storing the hand and the moved deck |
| Settlement.Award | contract/game/src/contract.rs:262-267 | the award is the stake, times 125/100 rounded down for a score of exactly 21, and fails if the product overflows |
| Settlement.AwardBounds | contract/game/src/contract.rs:262-267 | an award is at least the stake and at most 125% of it |
| Settlement.StakesFrame | contract/game/src/contract.rs:253-300 | the holding seats' stakes depend only on the seats from there on and their balances |
| Settlement.SettleSeatFails | contract/game/src/contract.rs:253-300 | a seat that is not an occupied holder is left alone; a holder fails only without a hand or on an overflowing award |
| Settlement.SettleSeatFrame | contract/game/src/contract.rs:253-300 | a holding seat becomes NotPlaying with a zero stake and a result under its address; no other seat, stake or result changes |
| Settlement.SettleSeatOutcome | contract/game/src/contract.rs:258-293 | a holder wins exactly when its score is at most 21 and beats the dealer's or the dealer is over 21; a winner gets a bank payout of the award then the stake back, a loser's stake goes to the bank and is its recorded reward |
| Settlement.SettleSeatSends | contract/game/src/contract.rs:268-289 | settling a seat sends out of the game contract exactly that seat's stake |
| Settlement.SettleFromReleasesStakes | contract/game/src/contract.rs:253-300 | settling every seat from a point on sends out of the game contract exactly the stakes of the holding seats |
| Settlement.RoundupResetsHolders | contract/game/src/contract.rs:253-300 | after settlement every holding seat is NotPlaying and every other seat is untouched |
| Settlement.RoundupSettlesHolders | contract/game/src/contract.rs:253-300 | after settlement every holding seat has a result under its address and a zero stake, and every other seat keeps its result slot |
| Settlement.BalanceStaysZero | contract/game/src/contract.rs:295 | a zeroed stake stays zero through the later seats' settlement |
| Settlement.SettledRound | contract/game/src/contract.rs:243-305 | a settled round needs a dealer hand and records its score; holders are reset with a result and a zero stake, the others keep their seat and have no result; deck and secrets are unchanged |
| Settlement.SettledReleasesEscrow | contract/game/src/contract.rs:243-305 | with distinct seated addresses other than the game's, a round sends out of the game contract exactly the holders' stakes |
| Settlement.GameRoundup | contract/game/src/contract.rs:243-305 | the loop over the six seats computes the settled round |
| Flow.NewRoundKeepsSeating | contract/game/src/contract.rs:462-501 | a new round moves, seats or unseats nobody and keeps the counter |
| Flow.StateChangeRules | contract/game/src/contract.rs:307-339 | leaving DealerTurn, or NoPlayers for anything but a player turn, fails; a player turn that stays or empties changes nothing; DealerTurn plays the dealer, settles and emits the settlement's messages, ending outside DealerTurn; nobody is moved |
| Flow.NewRoundNeverDealer | contract/game/src/contract.rs:462-501 | a new round ends in a player turn or in NoPlayers |
| Flow.OnGameStateChange | contract/game/src/contract.rs:307-339 | the steps compute the game flow |
| Handlers.MaxBid | contract/game/src/contract.rs:670 | the bid limit is the balance times 100 over 750, and fails when the u128 product overflows |
| Handlers.MaxBidCoversPayouts | contract/game/src/contract.rs:670 | six stakes within the limit, all winning with 21, are paid from the queried balance |
| Handlers.SixAwardsBound | contract/game/src/contract.rs:670 | up to six awards of 125% of the limit stay within the balance |
| Handlers.TotalAwardBound | contract/game/src/contract.rs:262-267 | winning stakes under a cap are paid at most 125% of the cap each |
| HandlerRules.TurnGuards | contract/game/src/contract.rs:80-91 | bid, hit, hold and kick fail with the source's own message off the caller's turn; only a first turn may bid, and only a later one may hit or hold |
| HandlerRules.BidRules | contract/game/src/contract.rs:620-692 | an admitted bid was a positive amount sent as exactly that uscrt coin, within the limit, on the bidder's own first turn; the stake grows by the amount, the dealer holds the next card and the bidder the two after, and the turn stays with the bidder, no longer first |
| HandlerRules.HitRules | contract/game/src/contract.rs:694-727 | an admitted hit was on the hitter's later turn from Bid or Hit with a total below 21; the seat gets exactly the next card and nothing else changes |
| HandlerRules.OccupiedSameSeating | contract/game/src/contract.rs:168 | seat lists with the same addresses have the same occupied count |
| HandlerRules.SameSeatingKeepsInvariant | contract/game/src/contract.rs:168 | the counter and no-double-seating invariant depends only on who sits where |
| HandlerRules.AdvanceTurnKeepsSeating | contract/game/src/contract.rs:503-532 | passing the turn never seats or unseats anyone |
| HandlerRules.SitRules | contract/game/src/contract.rs:552-583 | an admitted sit took a free seat for a sender seated nowhere, stored the secret, added one to the counter, moved nobody and kept the invariant |
| HandlerRules.SitKeepsSeating | contract/game/src/contract.rs:573-580 | the round a sit may start moves nobody the sit seated and keeps the counter and seat secrets |
| HandlerRules.StandRules | contract/game/src/contract.rs:585-618 | an admitted stand was by the seat's own NotPlaying player; the seat is free, the counter drops by one, nobody else moves and the invariant holds |
| HandlerRules.KickRules | contract/game/src/contract.rs:729-764 | an admitted kick was on the target's turn after at least 300 seconds; the seat is free, the counter drops by one and nobody else moves |
| HandlerRules.HoldRules | contract/game/src/contract.rs:71-113 | an admitted hold was on the holder's later turn from Bid or Hit, with every later seated player NotPlaying; with someone seated after it the seat becomes Hold and the turn passes to the last of them, and nothing else changes; with nobody after it the dealer plays and the round settles, leaving the holder NotPlaying with a result, a zero stake and no hand; nobody moves |
| HandlerRules.HoldAdmits | contract/game/src/contract.rs:71-113 | an admitted hold was on the holder's own later turn from Bid or Hit, and it moves the seat to Hold and advances the turn from it |
| HandlerRules.HoldKeepsSeating | contract/game/src/contract.rs:100-111 | the turn's advance and the game flow after a hold move nobody and keep the counter |
| HandlerRules.HoldPassesTurn | contract/game/src/contract.rs:503-532 | with someone seated after the holder, the turn goes to the last occupied seat after it, which has not played, and nothing else changes |
| HandlerRules.HoldEndsRound | contract/game/src/contract.rs:100-111 | with nobody seated after the holder, the turn always passes to the dealer, who plays and the round is settled; the holder ends NotPlaying with a result under their address, a zero stake and no hand, and the game is not left in DealerTurn |
| HandlerRules.HandleKeepsInvariant | contract/game/src/contract.rs:766-779 | every admitted action keeps the seat counter equal to the occupied seats and no address in two seats |
| Contract.HandleSit | contract/game/src/contract.rs:552-583 | the steps of sit compute its outcome |
| Contract.HandleStand | contract/game/src/contract.rs:585-618 | the steps of stand compute its outcome |
| Contract.HandleBid | contract/game/src/contract.rs:620-692 | the steps of bid compute its outcome |
| Contract.HandleHit | contract/game/src/contract.rs:694-727 | the steps of hit compute its outcome |
| Contract.HandleHold | contract/game/src/contract.rs:71-113 | the steps of hold compute its outcome |
| Contract.HandleKick | contract/game/src/contract.rs:729-764 | the steps of kick compute its outcome |
| Contract.Dispatch | contract/game/src/contract.rs:766-779 | each message runs the action it names |
| Contract.GameContract.constructor | contract/game/src/contract.rs:14-69 | init stores an empty table in NoPlayers, an empty deck, the secret, no stakes and blank scores |
| Contract.GameContract.Instantiate | contract/game/src/contract.rs:14-69 | init also asks the bank to register the game's address |
| Contract.GameContract.Handle | contract/game/src/contract.rs:766-779 | a successful call commits its new storage and returns its messages; a failed one changes nothing |
| Contract.GameContract.Query | contract/game/src/contract.rs:781-812 | the queries answer a stake, the table or the last scores, and change nothing |
| Contract.InitialWorldRules | contract/game/src/contract.rs:14-69 | a fresh table has no one seated, a zero counter that matches the seats, NoPlayers, and the given round secret |
| Scenarios.SitScenarioStep | contract/game/src/contract.rs:849-891 | the first sit at a fresh table seats the player alone and starts a round on that seat |
| Scenarios.SitScenario | contract/game/src/contract.rs:849-891 | sitting again fails, and a second player joining leaves the turn where it was |
| Scenarios.LoneStand | contract/game/src/contract.rs:585-618 | the only seated player standing up on their turn leaves an empty table in NoPlayers |
| Scenarios.LoneStandScenario | contract/game/src/contract.rs:894-955 | standing up from an empty seat fails, and the lone player standing up empties the table |
| Scenarios.StandOffTurnAbandonsRound | contract/game/src/contract.rs:585-618 | a NotPlaying player standing up during the turn of a lower seat in Hit, with nobody after them and nobody holding, ends the round in NoPlayers with the Hit player still seated, no messages and their stake still held |
| Scenarios.AbandonedHandIsStuck | contract/game/src/contract.rs:585-618 | in NoPlayers, a player left in Hit cannot stand up, hit or hold |
| Scenarios.StandPassesTurnScenario | contract/game/src/contract.rs:894-955 | with a second player seated behind, the player on turn standing up passes the turn to that player |
| Bank.ReportedBalance | contract/bank/src/contract.rs:163-169 | the reported balance is the balance less its tenth rounded down, and never exceeds the balance |
| Bank.ReportedBalanceRules | contract/bank/src/contract.rs:166-167 | the reported balance is the balance less its tenth rounded down, at least nine tenths of it; 250,000,000 reads as 225,000,000 |
| Bank.InitialStore | contract/bank/src/contract.rs:9-36 | init makes the sender the owner, records the bank's own address and sets the pending flag, with no game registered |
| Bank.InitMessages | contract/bank/src/contract.rs:17-29 | init emits one instantiation of the game with the bank's address and the caller's secret |
| Bank.CheckOwner | contract/bank/src/contract.rs:118-128 | the check passes exactly for the owner and fails as unauthorized otherwise |
| Bank.WithdrawRules | contract/bank/src/contract.rs:52-90 | a withdrawal succeeds exactly when the caller is entitled (the owner for all, the registered game otherwise) and the balance covers the amount; it then emits exactly one send of the amount from the bank; each failure has the source's error |
| Bank.PendingGate | contract/bank/src/contract.rs:107-142 | while pending, every message except the registration fails as not initialized |
| Bank.RegistrationRules | contract/bank/src/contract.rs:92-104 | registration stores the address and clears the flag with no messages; as written it always succeeds, corrected only while pending |
| Bank.PayToWinnerRules | contract/bank/src/contract.rs:61-89 | once registered, a payout succeeds exactly when the registered game asks and the balance covers it; it sends the amount to the winner and changes no storage |
| Bank.AdministrativeRules | contract/bank/src/contract.rs:144-161 | changing the owner and the emergency withdrawal need the owner; the withdrawal sends the whole balance to the owner |
| Bank.HandleSendsWithinBalance | contract/bank/src/contract.rs:107-161 | any successful call emits at most one send, out of the bank and no larger than the balance |
| Bank.InitThenRegister | contract/bank/src/contract.rs:92-104 | the bank after init and the game's registration is owned by its creator, has the game registered and is no longer pending |
| Bank.AnyoneRedirectsPayouts | contract/bank/src/contract.rs:92-104 | as written, any address can register itself and then withdraw the whole balance to itself |
| Bank.RegisteredGameStays | contract/bank/src/contract.rs:92-116 | with the corrected registration, no sequence of calls after registration changes the game address or sets pending again |
| Bank.OnlyRegisteredGamePays | contract/bank/src/contract.rs:64-69 | every successful payout after registration, however many calls later, was sent by the game registered then |
| Bank.ReserveCoversMaxBids | contract/bank/src/contract.rs:166-167 | six maximum bids sized from the reported balance, all winning with 21, leave the owner's tenth untouched |
| Bank.BankContract.constructor | contract/bank/src/contract.rs:9-36 | init's storage writes |
| Bank.BankContract.Instantiate | contract/bank/src/contract.rs:9-36 | init creates the bank and emits the game's instantiation |
| Bank.BankContract.HandleCall | contract/bank/src/contract.rs:107-161 | with the corrected registration, a successful call commits the new owner, game address and flag and returns its messages; a failed one changes nothing |
| Bank.BankContract.WithdrawCall | contract/bank/src/contract.rs:52-90 | the withdrawal's steps over the stored owner and game address compute the withdrawal |
| Bank.BankContract.GetBankBalance | contract/bank/src/contract.rs:163-169 | the query answers the reported balance |

## Findings

| source | as written | input that shows it | evidently intended | confidence | as-written member | corrected member |
|---|---|---|---|---|---|---|
| contract/bank/src/contract.rs:92-104 | `update_game_address` accepts any sender at any time. It overwrites the registered game address and clears the pending flag. | After the game has registered, any address X sends `UpdateGameAddress { address: X }` and then `PayToWinner { amount: <whole balance>, to: X }`. Both succeed, and the second sends the bank's whole balance to X. | Registration is the game's one-time callback from its own `init`, which runs in the same transaction as the bank's `init`. So it should be accepted only while the pending flag is set. | medium; not executed | Bank.HandleAsWritten, Bank.AnyoneRedirectsPayouts | Bank.Handle, Bank.RegisteredGameStays, Bank.OnlyRegisteredGamePays |

`Bank.BankContract.HandleCall` follows the corrected `Bank.Handle`.

## Left out

- SHA-256, the ChaCha random generator and the card library's deck and shuffle are foreign code. They are the functions of `Rng`, so the model does not say that a deck has 52 distinct cards.
- Bincode and JSON encoding, `to_binary`, and the exact shape of `CosmosMsg`/`WasmMsg`/`BankMsg` are left out. Outbound messages are an abstract outbox: `PayToWinner`, `Send`, `UpdateGameAddress` and `InstantiateGame`.
- Code hashes, the contract label and the code id that travel with those messages are left out.
- Balance queries (contract/game/src/contract.rs:662-666, contract/bank/src/contract.rs:72, 156, 166) are the `bankBalance` / `balance` arguments. Both bank queries ask about the bank's own address and are one argument.
- `debug_print` calls are left out, because they have no effect on state.
- The web front end under gui/ and the TypeScript integration tests are not part of this model. Their figures appear only as the concrete lemma `Bank.ReportedBalanceRules`.
- Storage read failures other than a missing key, such as a corrupt encoding, are not modelled. A key that is always written before it is read is a plain field.
- The pending flag is a `bool`. The source stores the strings "True"/"False" and reads anything other than "True" as false.
- `administrative_transaction` panics on a non-administrative message (contract/bank/src/contract.rs:159). The dispatcher never routes one there; called directly, `Bank.Administrative` answers `NotAdministrative`.
- The Rust integer types are bounded explicitly. `u8`, `u64` and `Uint128` overflow is an error, on the assumption that overflow checks are on; the build settings that decide this are not part of this model.
- Bank.BankContract.HandleCall: commits the corrected registration of `Bank.Handle`. After registration it refuses `UpdateGameAddress` with Unauthorized, where the source's `handle` (contract/bank/src/contract.rs:112-113) accepts it. The source's behaviour is `Bank.HandleAsWritten`, which no stateful method commits.
- HandlerRules.HoldRules: states the round's end only for a holder at an occupied seat. A hold from an empty seat whose state is Bid or Hit is not followed further.
- HandlerRules.KickRules: keeps the no-double-seating invariant only when the kick's target is a non-empty address. Kicking the empty address zeroes the shared empty-address stake key, and the model does not follow that case further.
- HandlerRules.HandleKeepsInvariant: its precondition excludes a kick whose target is the empty address, for the same reason.
- Settlement.SettledReleasesEscrow: needs distinct seat addresses, none equal to the game contract's or the bank's. The source does not enforce that the game contract itself cannot sit.
