# Blackjack rules engine — a Dafny model

This project models the rules engine of a single-player blackjack web game
written in TypeScript with React and Redux Toolkit. The engine covers:

- the deck, with 52-card construction, a Fisher–Yates shuffle, greedy soft-ace
  scoring, the natural-blackjack test and dealing from the end of the deck;
- two payout rules: `calculateWinnings` and `GameFlowService.determineGameResult`;
- three dealer-hit rules;
- the session ledger: chips, the current and previous bet, and a betting
  history capped at five entries, newest first;
- win/loss statistics with streaks;
- the round state machine, which exists in three overlapping generations:
  - the `useGameLogic` hook handlers;
  - the Redux slices with their async thunks;
  - the `StateBuilders` + `gameStateSlice` pair.

Each generation is modelled as written, and none is reconciled with another.
The lemmas in module `Generations` compare the generations on these points,
stating exactly where they agree and where they differ:
- payouts;
- the dealer's hit rule and draw loop;
- the reshuffle threshold;
- bet placement and the new-game reset;
- the double-down guards;
- the `won` flag logged after the dealer's turn;
- the logged amount, message and stake after a hit or double down that busts.

Every reducer, builder, thunk body and hook handler is a pure function from
(state, payload) to state, and every function has a named result. Two things
become parameters:

- the shuffle's random choices are an oracle `choose: nat -> nat`; step `i`
  swaps with index `choose(i) % (i + 1)`;
- `new Date()` is a `Timestamp` parameter.

A thunk's outcome is `ThunkResult`: either `Fulfilled` with a possibly-null
payload, or `Rejected` when the source would throw. A hook handler that would
throw returns `None`.

Modules follow the source files:

| module | file | source |
|---|---|---|
| `Types` | types.dfy | `src/types/game.ts` (Card, Hand, BetResult, GameStatus, messages, GameState) |
| `DeckUtils` | deck_utils.dfy | `src/utils/deckUtils.ts` |
| `BetUtils` | bet_utils.dfy | `src/utils/betUtils.ts` |
| `DealerUtils` | dealer_utils.dfy | `src/utils/dealerUtils.ts` |
| `GameFlowService` | game_flow_service.dfy | `src/services/gameFlowService.ts` |
| `BettingSlice` | betting_slice.dfy | `src/store/bettingSlice.ts` |
| `StatisticsSlice` | statistics_slice.dfy | `src/store/statisticsSlice.ts` |
| `StateBuilders` | state_builders.dfy | `src/utils/stateBuilders.ts` |
| `GameThunks` | game_thunks.dfy | `src/store/gameThunks.ts` |
| `GameStateSlice` | game_state_slice.dfy | `src/store/gameStateSlice.ts` |
| `GameSlice` | game_slice.dfy | `src/store/gameSlice.ts` |
| `GameLogicHook` | game_logic_hook.dfy | `src/hooks/useGameLogic.ts` |
| `Selectors` | selectors.dfy | `src/store/selectors.ts` |
| `Generations` | generations.dfy | cross-generation comparisons |

## Model

| member | source | states |
|---|---|---|
| `Types.RecordBet` | src/services/gameFlowService.ts:197 | The new entry is first, the rest is the old history in order, and the length is min(old + 1, 5). |
| `DeckUtils.SuitCards` | src/utils/deckUtils.ts:11-21 | A suit yields 13 cards, one per face, and each carries its face's value: the rank for 2-10, 10 for J/Q/K, 1 for A. |
| `DeckUtils.OrderedDeckComplete` | src/utils/deckUtils.ts:7-24 | The unshuffled deck has 52 cards, holds no duplicate (suit, face) and contains every standard card. |
| `DeckUtils.OrderedDeckSuitCount` | src/utils/__tests__/deckUtils.test.ts:7-24 | Every suit occurs exactly 13 times in a fresh deck. |
| `DeckUtils.OrderedDeckFaceCount` | src/utils/__tests__/deckUtils.test.ts:7-24 | Every valid face occurs exactly 4 times in a fresh deck, and any other face never does. |
| `DeckUtils.CountPermutation` | src/utils/__tests__/deckUtils.test.ts:28-35 | Two decks with the same multiset agree on every suit and face count. |
| `DeckUtils.Swap` | src/utils/deckUtils.ts:34-35 | Exchanging two positions keeps length and multiset and leaves every other position alone. |
| `DeckUtils.ShuffleFrom` | src/utils/deckUtils.ts:33-36 | The Fisher–Yates loop from position i down yields a permutation of its input, whatever indices the oracle picks. |
| `DeckUtils.ShuffleDeck` | src/utils/deckUtils.ts:31-38 | The shuffle returns a permutation of its argument: same length, same multiset. Inputs are values, so the argument is untouched. |
| `DeckUtils.CreateDeckIsFresh` | src/utils/deckUtils.ts:7-24 | A created deck is 52 distinct standard cards with 13 per suit and 4 per face, for every oracle. |
| `DeckUtils.Replenished` | src/store/gameThunks.ts:30-33 | Below the threshold a fresh 52-card deck replaces the current one; otherwise the deck is kept. At least the threshold number of cards results. The thunks use threshold 10 and the hook uses 4. |
| `DeckUtils.AddAcesClosedForm` | src/utils/deckUtils.ts:59-65 | The greedy ace loop adds aces + 10 when at least one ace fits as 11 on the base, and aces otherwise. At most one ace ever counts as 11. |
| `DeckUtils.HandScoreClosedForm` | src/utils/deckUtils.ts:46-68 | A hand scores non-ace sum + ace count, plus 10 when soft, and at most one ace counts as 11. Aces are recognised by face alone. |
| `DeckUtils.CalculateHandScore` | src/utils/deckUtils.ts:46-68 | The imperative two-loop scorer computes the greedy score and agrees with the closed form. |
| `DeckUtils.PairTotals` | src/utils/deckUtils.ts:50-56 | For two cards, the non-ace sum and the ace count are read off the faces; an ace's value field is ignored. |
| `DeckUtils.BlackjackIsAceAndTen` | src/utils/deckUtils.ts:75-77 | For standard cards, a two-card hand is a blackjack iff it is one ace plus one ten-valued card. |
| `DeckUtils.TwoCardScoreAtMost21` | src/utils/deckUtils.ts:59-65 | Two standard cards never score above 21. |
| `DeckUtils.TenAceAceScoresTwentyTwo` | src/utils/deckUtils.ts:59-65 | Because the first ace is taken as 11 greedily, (10, A, A) scores 22. |
| `DeckUtils.ExampleScores` | src/utils/__tests__/deckUtils.test.ts:39-70 | [10,5]=15, [K,Q]=20, [A,10]=21 and [A,A,5]=17. |
| `DeckUtils.DealCard` | src/utils/deckUtils.ts:93-101 | An empty deck is the error case. Otherwise the dealt card is the last one, and the rest plus that card rebuilds the deck. |
| `BetUtils.CalculateWinnings` | src/utils/betUtils.ts:16-54 | The dealer-blackjack flag wins first and pays 0. Then the player-blackjack flag pays floor(2.5 bet). Then a dealer bust or a higher player score pays 2 bet, equal scores pay bet, and a lower score pays 0. Each case has its message. |
| `BetUtils.WinningsRange` | src/utils/betUtils.ts:16-54 | The amount is always one of 0, bet, 2 bet and floor(2.5 bet). |
| `BetUtils.BlackjackPayoutSplit` | src/utils/betUtils.ts:31-36 | floor(2.5 bet) equals bet + floor(1.5 bet) for integer bets, so both payout variants agree on a natural. |
| `BetUtils.WinningsMonotoneInPlayerScore` | src/utils/betUtils.ts:38-53 | Without flags and with a non-negative bet, a higher player score never pays less. |
| `BetUtils.PlayerBustNotInspected` | src/utils/betUtils.ts:16-23 | The function never looks at a player bust: a busted 25 against a busted dealer still pays 2 bet. |
| `BetUtils.ExampleSettlements` | src/utils/__tests__/betUtils.test.ts:6-26 | 20 vs 18 pays 200, 18 vs 20 pays 0, 20 vs 20 pays 100, a dealer bust pays 200 and a blackjack pays 250, all on a bet of 100. |
| `DealerUtils.ShouldDealerHitThreshold` | src/utils/dealerUtils.ts:5-9 | The dealer hits iff the score is at most 16, and stands on every 17, soft included. |
| `DealerUtils.GetInitialDealerState` | src/utils/dealerUtils.ts:11-17 | The cards are kept, the score is recomputed from them (the incoming score is ignored), and the hand is not busted. |
| `DealerUtils.InitialDealerStateScored` | src/utils/dealerUtils.ts:13-15 | For two standard cards the recomputed score is at most 21, so `isBusted = false` is consistent with the score. |
| `DealerUtils.ExampleInitialDealerState` | src/utils/__tests__/dealerUtils.test.ts:20-33 | K,7 gives 17. |
| `GameFlowService.DetermineGameResult` | src/services/gameFlowService.ts:60-163 | Both scores echo the stored hand scores, and winnings follow the kind. Each kind is characterised both ways: bust iff the player busted; win iff the dealer busted or the higher score wins without naturals; blackjack iff a lone player natural; push iff equal naturals and equal scores; loss otherwise. |
| `GameFlowService.PayoffAgainstStake` | src/services/gameFlowService.ts:79-162 | For a positive bet, winnings exceed the bet iff win or blackjack, equal it iff push, and are 0 iff loss or bust. |
| `GameFlowService.BuildGameEndState` | src/services/gameFlowService.ts:171-203 | The round finishes. Chips grow by the winnings and the current bet drops to 0. A history entry with won = winnings > bet is recorded and the history is capped at 5. Exactly one tally grows by one; wins grow iff confetti shows, and pushes grow iff winnings equal the bet. The next phase is betting. |
| `GameFlowService.EndStateTallies` | src/services/gameFlowService.ts:182-190 | With a positive bet, wins grow iff win or blackjack, pushes iff push, and losses iff loss or bust. |
| `GameFlowService.ZeroStakeTalliesPush` | src/services/gameFlowService.ts:182-190 | With a zero bet, every result, a loss included, is tallied as a push, and no confetti shows. |
| `GameFlowService.Soften` | src/services/gameFlowService.ts:235-239 | The reduction loop takes 10 off per converted ace, and only stops above 21 once no ace is left to convert. |
| `GameFlowService.StandardElevenTotal` | src/services/gameFlowService.ts:223-233 | For standard cards, the all-aces-as-11 total is the non-ace sum plus 11 per ace, and the value-1 count is the ace count. |
| `GameFlowService.SoftenSeventeen` | src/services/gameFlowService.ts:235-241 | Reducing a total with m aces ends at 17 with an ace still eleven iff m >= 1 and the non-ace sum is 7. |
| `GameFlowService.SoftSeventeenMeansSoft` | src/services/gameFlowService.ts:220-242 | On a correctly scored standard hand, `isSoftSeventeen` holds iff the score is 17 and the hand is soft. |
| `GameFlowService.DealerRulesDifferOnlyOnSoftSeventeen` | src/services/gameFlowService.ts:211-213 | This dealer hits iff the score is below 17 or it is a soft 17. |
| `GameFlowService.ElevenValuedAceNotSoft` | src/services/gameFlowService.ts:226-233 | The soft-17 test counts aces by value 1, so an ace carrying value 11 is never seen as soft. |
| `BettingSlice.InitialBettingState` | src/store/bettingSlice.ts:12-17 | 5000 chips, no bets, empty history; solvent and within the cap. |
| `BettingSlice.PlaceBet` | src/store/bettingSlice.ts:23-29 | With enough chips the amount moves from chips to the bet; otherwise nothing changes. chips + bet is preserved either way. |
| `BettingSlice.ClearBet` | src/store/bettingSlice.ts:31-34 | The bet is refunded to chips and zeroed, preserving chips + bet. |
| `BettingSlice.ClearBetIdempotent` | src/store/bettingSlice.ts:31-34 | A second clear changes nothing. |
| `BettingSlice.SetPreviousBet` | src/store/bettingSlice.ts:36-38 | Only the previous bet changes. |
| `BettingSlice.AddWinnings` | src/store/bettingSlice.ts:40-42 | Only chips change, by the payload. |
| `BettingSlice.FinalizeBet` | src/store/bettingSlice.ts:44-51 | The previous bet becomes the old current bet, and the current bet drops to 0. The result is prepended and history capped at 5. Chips are untouched. |
| `BettingSlice.DoubleDown` | src/store/bettingSlice.ts:53-59 | With enough chips the bet doubles at the chips' expense; otherwise nothing changes. chips + bet is preserved. |
| `BettingSlice.ResetBetting` | src/store/bettingSlice.ts:61-66 | 5000 chips, both bets 0, empty history. |
| `BettingSlice.ResetIsInitial` | src/store/bettingSlice.ts:12-17 | Resetting any state yields exactly the initial state. |
| `BettingSlice.PlacePreviousBet` | src/store/bettingSlice.ts:68-76 | The amount is previous bet times the multiplier. It applies only with a positive previous bet and enough chips, and it sets the current bet to the amount rather than adding; otherwise nothing changes. |
| `BettingSlice.PlacePreviousBetDiscardsStake` | src/store/bettingSlice.ts:72-74 | When it applies, chips + bet drops by the stake already on the table. |
| `BettingSlice.ReducePreservesSolvency` | src/store/bettingSlice.ts:23-76 | With non-negative payloads, every reducer keeps chips >= 0 and history length <= 5. |
| `BettingSlice.ReduceAllPreservesSolvency` | src/store/bettingSlice.ts:23-76 | The same holds along any sequence of actions. |
| `BettingSlice.TransfersConserveHoldings` | src/store/bettingSlice.ts:23-59 | placeBet, clearBet, doubleDown and setPreviousBet preserve chips + bet on every input. |
| `StatisticsSlice.RecordGameResult` | src/store/statisticsSlice.ts:33-70 | The hand count grows by 1, and exactly the outcome's tally grows by 1. Total winnings grow by winnings - amount, and the biggest win becomes the max. The streak rules for win, loss and push hold. The tallies-equal-hands invariant and the longest-streak bounds are preserved. |
| `StatisticsSlice.ResetStatistics` | src/store/statisticsSlice.ts:72-74 | The result is the initial statistics state whatever the input: every counter is 0, which satisfies both invariants. |
| `StatisticsSlice.UpdateWinStreak` | src/store/statisticsSlice.ts:76-81 | The streak is set to the payload, and the longest win streak is raised to at least it. The longest loss streak and every total (hands, wins, losses, pushes, winnings, biggest win) are unchanged. |
| `StatisticsSlice.UpdateLossStreak` | src/store/statisticsSlice.ts:83-88 | The streak is set to -abs(payload), and the longest loss streak is raised to at least abs(payload). The longest win streak and every total are unchanged. |
| `StatisticsSlice.StreakUpdatesKeepBounds` | src/store/statisticsSlice.ts:76-88 | The loss update always keeps the streak bounds, and the win update keeps them for non-negative payloads. |
| `StatisticsSlice.NegativeWinStreakBreaksBounds` | src/store/statisticsSlice.ts:76-81 | A negative win-streak payload breaks the bound on the loss streak. |
| `StatisticsSlice.RecordAllDescribesSession` | src/store/statisticsSlice.ts:41-69 | After any session from the initial state: the tallies sum to the hand count, which is the session length. The current streak is the trailing run of wins minus the trailing run of losses. The longest streaks are the longest runs of wins and of losses. |
| `StateBuilders.BuildDealingState` | src/utils/stateBuilders.ts:37-46 | Dealing, two empty hands, revealIndex -1, confetti off, and no deck or next keys. |
| `StateBuilders.BuildPlayingState` | src/utils/stateBuilders.ts:55-76 | Playing. Each hand's score is the greedy score of its cards and it is not busted. Also sets the deck and revealIndex 1. |
| `StateBuilders.PlayingStateHandsScored` | src/utils/stateBuilders.ts:55-76 | For two standard cards each, both built hands satisfy isBusted iff score > 21. |
| `StateBuilders.BuildPlayerHitState` | src/utils/stateBuilders.ts:85-101 | The score is recomputed. The message is the bust message iff busted, and your-turn otherwise. There is no gameStatus key. |
| `StateBuilders.BuildDealerTurnState` | src/utils/stateBuilders.ts:108-114 | Only three keys are defined: dealer turn, its message, and revealIndex (defaulting to -1). Hands, deck, confetti and both next keys are absent. |
| `StateBuilders.BuildDoubleDownState` | src/utils/stateBuilders.ts:123-154 | A bust gives finished with next = betting/place-bet. Otherwise it is the dealer's turn with no next keys. |
| `StateBuilders.BuildNewGameState` | src/utils/stateBuilders.ts:160-170 | Betting, empty hands, a fresh 52-card deck, revealIndex -1 and confetti off. |
| `StateBuilders.BuildTransitionState` | src/utils/stateBuilders.ts:178-191 | The given phase and message, empty hands, confetti off, and both next keys set to undefined. |
| `StateBuilders.MergeStateUpdate` | src/utils/stateBuilders.ts:199-213 | A key is in the result iff the update defines it and it differs from the current value, and then it carries the update's value. An explicit undefined in the update is dropped, so no key is ever set to undefined. |
| `StateBuilders.MergeEmptyIffHeld` | src/utils/stateBuilders.ts:199-213 | The merge is empty iff the current state already holds every defined key of the update. |
| `StateBuilders.MergeWithSelfIsEmpty` | src/utils/stateBuilders.ts:199-213 | Merging an update into itself yields {}. |
| `GameStateSlice.NothingChangedIffEqual` | src/store/gameStateSlice.ts:11-30 | The per-field change set is empty iff the two states are equal. |
| `GameStateSlice.InitialCoreState` | src/store/gameStateSlice.ts:33-49 | Betting, place-bet message, empty hands, a fresh deck, revealIndex 0, no next fields and no confetti. |
| `GameStateSlice.UpdateGameState` | src/store/gameStateSlice.ts:64-67 | The result holds every defined key of the update, an undefined next key clears that field, and only keys present in the update change. |
| `GameStateSlice.MergedUpdateSameEffect` | src/store/gameStateSlice.ts:64-67 | Without undefined keys, applying the merged update has the same effect as applying the update itself. |
| `GameStateSlice.MergeDropsClearedKey` | src/utils/stateBuilders.ts:203-208 | Applying the transition update clears a pending next status. The merged transition update leaves it in place, because the merge drops undefined keys. |
| `GameStateSlice.SetGameStatus` | src/store/gameStateSlice.ts:74-77 | Status and message are set, and nothing else changes. |
| `GameStateSlice.UpdatePlayerHand` | src/store/gameStateSlice.ts:84-86 | Only the player hand changes. |
| `GameStateSlice.UpdateDealerHand` | src/store/gameStateSlice.ts:93-97 | The dealer hand and message are set and revealIndex becomes the card count; nothing else changes. |
| `GameStateSlice.DealerRevealIndexPastEnd` | src/store/gameStateSlice.ts:22-23 | The revealIndex set by updateDealerHand is one past the last card, not a valid index of the last revealed card. |
| `GameStateSlice.SetRevealIndex` | src/store/gameStateSlice.ts:104-106 | Only revealIndex changes. |
| `GameStateSlice.StartNewGame` | src/store/gameStateSlice.ts:112-114 | Betting, empty hands, a fresh deck, revealIndex -1 and confetti off. The next fields are left alone. |
| `GameStateSlice.TransitionToBetting` | src/store/gameStateSlice.ts:120-128 | With no pending next status, nothing changes. Otherwise it moves to that status, with the pending message defaulting to place-bet, and clears the hands, confetti and both next fields. |
| `GameStateSlice.TransitionToBettingIdempotent` | src/store/gameStateSlice.ts:120-128 | A second transition changes nothing. |
| `GameStateSlice.SetShowConfetti` | src/store/gameStateSlice.ts:135-137 | Only the confetti flag changes. |
| `GameStateSlice.ClearNextTransition` | src/store/gameStateSlice.ts:143-146 | Only the next fields change, and both become unset. |
| `GameStateSlice.ClearedTransitionDoesNothing` | src/store/gameStateSlice.ts:120-146 | After clearing, the transition is a no-op. |
| `GameStateSlice.StartNewHandPending` | src/store/gameStateSlice.ts:150-156 | Dealing, empty hands and revealIndex -1; only those fields change. |
| `GameStateSlice.DealingStateIsPendingDeal` | src/utils/stateBuilders.ts:37-46 | Applying buildDealingState equals the pending case with the confetti switched off. The two coincide iff no confetti was showing. |
| `GameStateSlice.StartNewHandFulfilled` | src/store/gameStateSlice.ts:157-176 | A null payload changes nothing. Otherwise: playing, hands scored from the dealt cards, the remaining deck and revealIndex 1. |
| `GameStateSlice.StartNewHandFulfilledIsPlayingState` | src/store/gameStateSlice.ts:157-176 | The reducer equals applying the playing-state builder update. |
| `GameStateSlice.StartNewHandRejected` | src/store/gameStateSlice.ts:177-180 | Back to betting with the deal-error message; nothing else changes. |
| `GameStateSlice.HandleHitFulfilled` | src/store/gameStateSlice.ts:181-198 | The new hand and deck are stored. A bust gives finished with next = betting and touches nothing besides hand, deck, phase, message and the next keys. A non-bust changes only hand and deck. |
| `GameStateSlice.HitMovesTopCardToPlayer` | src/store/gameStateSlice.ts:181-198 | The hit thunk followed by this case moves exactly the deck's last card onto the player's hand. Deck plus hand keep the same cards, the hand is consistently scored, and a bust finishes the round while a non-bust keeps the phase. |
| `GameStateSlice.PlayerHitStateComparedWithHitFulfilled` | src/utils/stateBuilders.ts:85-101 | With a correctly scored payload, applying buildPlayerHitState equals the fulfilled hit case, up to the message on a non-bust. On a bust it differs only in the phase and next keys. |
| `GameStateSlice.HandleDoubleDownFulfilled` | src/store/gameStateSlice.ts:199-219 | A bust gives finished with next = betting; otherwise it is the dealer's turn with the next keys kept. Either way the dealer hand, reveal index and confetti are untouched, and a non-bust changes only hand, deck, phase and message. |
| `GameStateSlice.DoubleDownFulfilledIsBuilderState` | src/store/gameStateSlice.ts:199-219 | With a correctly scored payload, the reducer equals applying the double-down builder update. |
| `GameStateSlice.HandleDealerTurnPending` | src/store/gameStateSlice.ts:220-224 | Dealer turn with revealIndex at the last dealer card; nothing else changes. |
| `GameStateSlice.DealerTurnStateIsPendingTurn` | src/utils/stateBuilders.ts:108-114 | Applying buildDealerTurnState with the last dealer card's index equals the pending case. With no index, the default -1 matches it iff the dealer has no cards. |
| `GameStateSlice.HandleDealerTurnFulfilled` | src/store/gameStateSlice.ts:225-237 | The dealer hand is the last result and revealIndex its last index. The round finishes with the message carrying the dealer score. Confetti shows iff winnings > 0, and next is betting. |
| `GameStateSlice.DealerTurnConfettiOnPush` | src/store/gameStateSlice.ts:234 | A push returns the stake, so winnings > 0 and confetti shows for it. |
| `GameStateSlice.FinishedRoundReturnsToBetting` | src/store/gameStateSlice.ts:120-128 | After a settled dealer turn, the transition lands in betting with the place-bet message, empty hands and no pending next status. |
| `GameThunks.Scored` | src/store/gameThunks.ts:71-75 | Each hand built in the loop is scored from its cards, with isBusted iff score > 21. |
| `GameThunks.DrawTop` | src/store/gameThunks.ts:38-39 | The k cards popped from the deck's end, in pop order. |
| `GameThunks.DealFrom` | src/store/gameThunks.ts:38-46 | The player gets the last two cards and the dealer the next two, so dealing does not alternate. The four cards put back rebuild the deck, and previousBet is the bet. |
| `GameThunks.DealFromIsPermutation` | src/store/gameThunks.ts:38-46 | Remaining deck plus both hands is a permutation of the dealing deck. |
| `GameThunks.StartNewHand` | src/store/gameThunks.ts:14-48 | The payload is null iff the bet is 0. Otherwise it deals from the (possibly refreshed) deck: four cards leave, the whole is a permutation, and previousBet is the bet. |
| `GameThunks.DealerDraws` | src/store/gameThunks.ts:66-85 | The loop takes a prefix of draws from the deck's end, and the remaining deck is the rest. |
| `GameThunks.DealerDrawsStopRule` | src/store/gameThunks.ts:66-85 | Draw i is the starting cards plus the top i+1 cards, scored. Every intermediate score is at most 16 and the final one exceeds 16. Running out of cards (the throw) happens only when every prefix stays at most 16. |
| `GameThunks.HandleDealerTurn` | src/store/gameThunks.ts:51-103 | Rejected iff the deck runs out. Otherwise results[0] is the starting hand, rescored and not busted. Every draw moves one card, the final score is at least 17, and isBusted iff it exceeds 21. Settlement is calculateWinnings with no blackjack flags. |
| `GameThunks.DealerResultsScored` | src/store/gameThunks.ts:72-78 | Every drawn entry is correctly scored, and each extends the previous one by exactly one card. |
| `GameThunks.DealerTurnPaysNaturalAsWin` | src/store/gameThunks.ts:87-93 | Since no blackjack flag is passed, a player natural against a dealer below 21 pays 2 bet, not 2.5. |
| `GameThunks.StakePreviousBet` | src/store/gameThunks.ts:115-116 | In betting, the previous bet moves from chips to the current bet (the slice's placeBet); in other phases nothing changes. |
| `GameThunks.PlacePreviousBet` | src/store/gameThunks.ts:105-120 | Null when the previous bet is 0, the chips are short, or a bet is already placed. From an empty table it deals iff not refused and in betting, and it remembers the previous bet. |
| `GameThunks.HandleHit` | src/store/gameThunks.ts:122-141 | Null unless playing, and rejected on an empty deck. Otherwise the last card is appended to the hand, the deck shrinks by it, and isBusted iff score > 21. |
| `GameThunks.HandleDoubleDown` | src/store/gameThunks.ts:143-170 | Null when not playing, chips are short or the hand has more than two cards. Otherwise newBet = 2 bet and additionalBet = bet, and exactly one card is drawn and scored. |
| `GameSlice.InitialGameState` | src/store/gameSlice.ts:7-26 | Betting, 5000 chips, no bets, empty deck, hands and history. |
| `GameSlice.PlaceBet` | src/store/gameSlice.ts:32-36 | Only in betting with enough chips does the amount move from chips to the bet. chips + bet is always preserved. Only chips and the bet can change. |
| `GameSlice.PreviousBetStakedByPlaceBet` | src/store/gameThunks.ts:115-116 | The thunk's stake step is exactly this slice's placeBet of the previous bet. |
| `GameSlice.StartNewGame` | src/store/gameSlice.ts:37-44 | Betting, empty hands, current bet 0 and revealIndex -1. Only phase, message, hands, bet and revealIndex can change, so chips, previousBet, history and deck are kept. |
| `GameSlice.StartNewGameLosesStake` | src/store/gameSlice.ts:37-44 | The stake on the table is not refunded: the chips after the reset equal the chips before it, and the bet is 0. |
| `GameSlice.ResetGame` | src/store/gameSlice.ts:45-48 | Whatever the state, the result is the initial game state: 5000 chips, no bet, empty history and deck, betting. |
| `GameSlice.StartNewHandPending` | src/store/gameSlice.ts:52-58 | Dealing with empty hands and revealIndex -1. Only phase, message, hands and revealIndex can change: deck, chips, bets and history are kept. |
| `GameSlice.StartNewHandFulfilled` | src/store/gameSlice.ts:59-78 | A null payload changes nothing. Otherwise: playing, scored hands, the remaining deck, revealIndex 1 and previousBet from the payload, with the ledger untouched. Only hands, deck, phase, message, revealIndex and previousBet can change. |
| `GameSlice.DealtHandRemembersStake` | src/store/gameSlice.ts:59-78 | Dealing a staked hand through the thunk yields playing, previousBet = the stake, and a deck four cards shorter. |
| `GameSlice.HandleHitFulfilled` | src/store/gameSlice.ts:79-103 | A bust gives finished and bet 0, and records a lost entry whose amount is 0 because the bet was zeroed first. A non-bust keeps the phase and the ledger. History stays capped. Beyond hand and deck, a bust can change only phase, message, bet and history, and a non-bust changes nothing else. |
| `GameSlice.HandleDealerTurnPending` | src/store/gameSlice.ts:104-107 | Dealer turn with its message. Only phase and message can change, so the ledger, hands and deck are kept. |
| `GameSlice.HandleDealerTurnFulfilled` | src/store/gameSlice.ts:108-126 | Chips grow by the winnings and the bet drops to 0. The entry records amount 0 and won = winnings > 0. History stays capped. Only deck, dealer hand, phase, message, chips, bet and history can change. |
| `GameSlice.DealerTurnLogsPushAsWon` | src/store/gameSlice.ts:117-125 | A push pays back the bet, so it is logged as won with amount 0. |
| `GameSlice.HandleDoubleDownFulfilled` | src/store/gameSlice.ts:127-156 | Chips drop by the additional bet. A bust finishes, records newBet as lost and zeroes the bet; otherwise the bet becomes newBet and it is the dealer's turn. History stays capped. Only deck, player hand, chips, bet, phase and message can change, plus the history on a bust. |
| `GameSlice.DoubleDownConservesHoldings` | src/store/gameSlice.ts:127-156 | A non-busting double down preserves chips + bet. |
| `GameSlice.HitBustForfeitsStake` | src/store/gameSlice.ts:90-101 | A busting hit keeps chips, loses the stake and logs amount 0. |
| `GameLogicHook.Dealt` | src/hooks/useGameLogic.ts:174-251 | The hook deals the same cards as the thunk (player the last two, dealer the next two), with scored hands. Only hands, deck, phase, message and revealIndex change. |
| `GameLogicHook.DealtHandsScored` | src/hooks/useGameLogic.ts:225-250 | From a deck of standard cards, both dealt hands are consistently scored: two cards never exceed 21, so the bust flag the hook leaves unset is correct. |
| `GameLogicHook.PlaceBet` | src/hooks/useGameLogic.ts:60-68 | Only in betting with enough chips does the amount move from chips to the bet; chips + bet is preserved. |
| `GameLogicHook.PlacePreviousBet` | src/hooks/useGameLogic.ts:70-157 | Refused when the previous bet is 0, chips are short or a bet is placed. Otherwise chips drop by the previous bet, which becomes the bet. The player gets the top two cards of the (possibly refreshed) deck and the dealer the next two, each scored with the bust flag unset, and the deck is what lies under them. Beyond chips and bet, only the dealt fields change. |
| `GameLogicHook.StartNewGame` | src/hooks/useGameLogic.ts:159-169 | Betting, empty hands, bet 0 and revealIndex -1. Only phase, message, hands, bet and revealIndex can change, so chips, previousBet, history and deck are kept. |
| `GameLogicHook.StartNewHand` | src/hooks/useGameLogic.ts:171-251 | A no-op when the bet is 0. Otherwise previousBet = bet, chips and history are untouched, and the hands are dealt as in placePreviousBet: top two cards to the player, next two to the dealer, the rest left as the deck, status playing with "Your turn!". Only previousBet and the dealt fields can change. |
| `GameLogicHook.HandleHit` | src/hooks/useGameLogic.ts:253-296 | Only playing acts, and an empty deck throws. The last card is drawn and scored. A bust finishes with bet 0 and chips unchanged, recording the staked bet as lost, capped at 5. Beyond hand and deck, a bust can change only phase, message, bet and history, and a non-bust only the message. |
| `GameLogicHook.DealerLoop` | src/hooks/useGameLogic.ts:318-347 | Draws come off the deck's end in order, and revealIndex grows by one per draw. The loop stops at a score of 17 or more. |
| `GameLogicHook.HandleDealerTurn` | src/hooks/useGameLogic.ts:298-393 | Settlement without blackjack flags: chips grow by the amount, and the bet drops to 0. won = amount > bet. The next phase is betting iff chips > 0, and game over otherwise. The shown state differs from the input only in dealer hand, deck, revealIndex, phase, message, chips, bet and history, so the player hand and previousBet are kept. |
| `GameLogicHook.DealerTurnNextPhase` | src/hooks/useGameLogic.ts:380-392 | After settling, the phase is betting iff chips remain, and finished otherwise. |
| `GameLogicHook.HookPaysNaturalAsWin` | src/hooks/useGameLogic.ts:349-357 | A player natural against a standing dealer below 21 pays only 2 bet. |
| `GameLogicHook.HandleStand` | src/hooks/useGameLogic.ts:395-407 | Outside playing nothing happens. In playing it fails only when the dealer draws from an empty deck; otherwise the settled state has no stake and returns to betting iff chips remain. |
| `GameLogicHook.DoubledState` | src/hooks/useGameLogic.ts:420-439 | Chips drop by the bet, the bet doubles, and one card is drawn and scored. chips + bet is preserved. Only deck, player hand, chips and bet change. |
| `GameLogicHook.HandleDoubleDown` | src/hooks/useGameLogic.ts:415-466 | Refused unless playing, chips >= bet and at most 2 cards. A bust stores the drawn hand and the shortened deck, finishes, records newBet as lost and leaves the bet at newBet. Otherwise the dealer turn runs. The busted state differs from the input only in deck, player hand, chips, bet, phase, message and history. |
| `GameLogicHook.DoubleDownBustKeepsStake` | src/hooks/useGameLogic.ts:441-452 | A busted double down finishes without clearing the bet, so chips + bet is unchanged. |
| `GameLogicHook.OfferedDoubleDownAccepted` | src/hooks/useGameLogic.ts:469-472 | An offered double down is never refused; the only accepted-but-not-offered hands have fewer than 2 cards. |
| `Selectors.OfferedDoubleDownNotRefused` | src/store/selectors.ts:4-11 | When the selector offers a double down, the thunk accepts it, and it deals a card whenever the deck is non-empty. |
| `Selectors.HitLowersDisplayedCount` | src/store/selectors.ts:12 | The displayed count is the deck length, so a successful hit lowers it by one. |
| `Selectors.PhaseSelectorsExclusive` | src/store/selectors.ts:13-16 | At most one phase selector holds, and none does exactly in dealing. |
| `Selectors.CanDealCardsMeansThunkDeals` | src/store/selectors.ts:17-18 | When the selector allows a deal, the thunk deals. In betting with a non-negative bet, the two coincide. |
| `Generations.PayoutVariantsCompared` | src/utils/betUtils.ts:24-36 | With both naturals, determineGameResult pushes (bet) while calculateWinnings pays 0. A player natural against a busted dealer pays 2 bet in one and floor(2.5 bet) in the other. Otherwise they agree. |
| `Generations.ScoredNaturalNeverBusts` | src/services/gameFlowService.ts:101-132 | A correctly scored natural is not busted. |
| `Generations.DealerRulesCompared` | src/services/gameFlowService.ts:211-213 | dealerUtils hits iff the score is at most 16. GameFlowService hits in the same cases and also on a soft 17. |
| `Generations.DealerLoopsAgree` | src/store/gameThunks.ts:66-85 | On a correctly scored start hand, the thunk loop (score <= 16) and the hook loop (score < 17) throw together, end with the same deck and draw the same number of cards. |
| `Generations.ShuffleThresholdsCompared` | src/store/gameThunks.ts:8-12 | The hook's threshold implies the thunk's, and they differ exactly for decks of 4 to 9 cards. |
| `Generations.PlaceBetVariantsAgree` | src/hooks/useGameLogic.ts:60-68 | The hook's placeBet and the slice's placeBet are the same function. |
| `Generations.StartNewGameVariantsAgree` | src/hooks/useGameLogic.ts:159-169 | The hook's startNewGame equals the game slice's on every state. |
| `Generations.ValidateBetImpliesPlaceBetApplies` | src/services/gameFlowService.ts:251-253 | A bet that validateBet accepts is applied by the betting slice. The slice also applies bets that would leave a non-positive total, which validateBet refuses. |
| `Generations.DoubleDownGuardsCompared` | src/services/gameFlowService.ts:263-269 | The hook's guard and the selector coincide. They match GameFlowService.canDoubleDown in playing with a positive bet, and imply the thunk does not refuse. |
| `Generations.WonFlagVariantsCompared` | src/store/gameSlice.ts:117-125 | For the same state and credit, the game slice logs won = "amount > 0" and the hook logs won = "amount > bet". On a positive stake the two entries disagree exactly when 0 < amount <= bet. |
| `Generations.HitBustCompared` | src/hooks/useGameLogic.ts:265-284 | On a hit that busts, the slice and the hook agree on hand, deck, chips and zero bet. The slice logs amount 0 and the hook logs the stake, and the hook shows "Game Over!" at chips <= 0. The states coincide iff there was no stake and chips remain. |
| `Generations.DoubleDownBustCompared` | src/store/gameSlice.ts:127-156 | On a double down that busts, the slice and the hook agree on hand, deck, chips, history, phase and message. The slice zeroes the bet where the hook keeps 2 x bet, so they coincide iff the bet was 0. |
| `Generations.EndStateBalance` | src/services/gameFlowService.ts:175-201 | After buildGameEndState, chips + bet equals the old chips plus the winnings: the stake is consumed and the winnings credited. |

## Left out

- Timing: `setTimeout`/`await` pacing, the reveal delay and the two-second auto-transition. Only the state reached after each step is modelled.
- Randomness: `Math.random` in `shuffleDeck` is the oracle parameter `choose`.
- Persistence: `localStorage`, state rehydration, the options storage, the hook's timestamp-rehydration effect, and the page reload in `resetGame`. Timestamps are opaque naturals.
- UI, sound and console logging. Among them is the `revealed` flag of a card (src/types/game.ts:12), which only the display reads.
- Redux plumbing (`configureStore`, action packaging, hooks), and Immer's mutation semantics. Every reducer is a pure state-to-state function.
- The `handleStand` thunk and `setGameStatus`/`updateDealerHand` dispatches inside the thunks: they import actions that `gameSlice` does not export, so only the thunks' returned payloads are modelled.
- `handleBustAnimation`, which `gameStateSlice` imports from a module that does not define it.
- `gameStateSlice`'s dealer-turn case reads a `result` payload that the thunk never returns. `GameStateSlice.HandleDealerTurnFulfilled` is modelled against its own payload shape `DealerTurnResultPayload`, and `GameSlice.HandleDealerTurnFulfilled` against the thunk's `winnings` payload.
- The hook's intermediate states: the dealing frames and per-card reveal updates before the final state. Only each handler's final state is modelled. A handler that would throw (pop from an empty deck) yields `None`.
- The hook's mount effects. Also the fact that its `pop()` mutates the deck array held in the previous state: the model treats states as values.
- `StateBuilders.MergeStateUpdate` compares values structurally, where the source uses `!==`. Two distinct but equal hand or deck objects are therefore "unchanged" in the model and "changed" in the source.
- Floating point: `Math.floor(bet * 2.5)` and `Math.floor(bet * 1.5)` are `(5 * bet) / 2` and `(3 * bet) / 2`. These agree with the source for the non-negative integer bets the game places.
- `GameSlice.InitialGameState` fills `stats` with zeros and `showConfetti` with false. The source's initial state omits both.
- `GameSlice.HandleDealerTurnFulfilled`, `GameStateSlice.HandleDealerTurnFulfilled`: these require a non-empty `dealerResults` when a payload is present. The thunk always puts the starting hand first, and reading the last entry of an empty array is undefined in the source.
- `GameThunks.StakePreviousBet`: this requires the thunk's guard to have passed, because it only ever runs after that guard.
- `GameThunks.PlacePreviousBet`: the characterisation of when it deals is stated for an empty table (current bet 0), which the guard enforces. With a negative current bet, the dealt payload carries the summed stake.
- Test expectations that the code contradicts, which are not encoded:
  - the "Dealer busts! You win!" message;
  - 1000 initial chips;
  - the return to betting after a bust.
