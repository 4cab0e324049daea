/** Where the three generations of the rules engine (the store slices and
    thunks, the service class, the hook) disagree, and where they agree. */
module Generations {
  import opened Types
  import opened DeckUtils
  import BetUtils
  import DealerUtils
  import GameFlowService
  import BettingSlice
  import GameSlice
  import GameThunks
  import GameLogicHook
  import Selectors

  /** determineGameResult against calculateWinnings fed the natural flags: they
      agree except when both hold naturals (push vs. nothing) and when the
      player's natural meets a dealer bust (2x vs. 2.5x, the dealer bust being
      checked first by the service). */
  lemma PayoutVariantsCompared(player: Hand, dealer: Hand, bet: int)
    requires !player.isBusted && dealer.isBusted == (dealer.score > 21)
    ensures var flagged := BetUtils.CalculateWinnings(dealer.score, player.score, bet, dealer.isBusted,
                          GameFlowService.IsNatural(player), GameFlowService.IsNatural(dealer)).amount;
            var det := GameFlowService.DetermineGameResult(player, dealer, bet).winnings;
            && (GameFlowService.IsNatural(player) && GameFlowService.IsNatural(dealer) ==>
                  det == bet && flagged == 0)
            && (GameFlowService.IsNatural(player) && dealer.isBusted ==>
                  det == 2 * bet && flagged == (5 * bet) / 2)
            && (!GameFlowService.IsNatural(player) || (!GameFlowService.IsNatural(dealer) && !dealer.isBusted) ==>
                  det == flagged)
  {
    BetUtils.BlackjackPayoutSplit(bet);
  }

  /** A natural dealer who busts is impossible for scored hands, so on scored
      hands the two rules split only on double naturals and player naturals
      against a busted dealer. */
  lemma ScoredNaturalNeverBusts(dealer: Hand)
    requires ScoredHand(dealer) && GameFlowService.IsNatural(dealer)
    ensures !dealer.isBusted
  {
  }

  /** The three dealer rules: the utility's `score < 17` is the thunk loop's
      `score <= 16`, and the service rule draws additionally on a soft 17. */
  lemma DealerRulesCompared(h: Hand)
    requires StandardHand(h.cards) && h.score == HandScore(h.cards)
    ensures DealerUtils.ShouldDealerHit(h.score) <==> h.score <= 16
    ensures GameFlowService.ShouldDealerHit(h) <==>
              DealerUtils.ShouldDealerHit(h.score) || (h.score == 17 && IsSoft(h.cards))
  {
    GameFlowService.DealerRulesDifferOnlyOnSoftSeventeen(h);
  }

  /** The hook's loop (stored score, stop on bust) and the thunk's loop
      (recomputed score) draw the same cards when the stored score is right. */
  lemma {:induction false} DealerLoopsAgree(hand: Hand, deck: seq<Card>, revealIndex: int)
    requires hand.score == HandScore(hand.cards)
    ensures var h := GameLogicHook.DealerLoop(hand, deck, revealIndex);
            var t := GameThunks.DealerDraws(hand.cards, deck);
            && (h.None? <==> t.None?)
            && (h.Some? ==> h.value.deck == t.value.deck
                            && |h.value.dealerHand.cards| == |hand.cards| + |t.value.draws|)
    decreases |deck|
  {
    if HandScore(hand.cards) <= 16 && |deck| > 0 {
      var top := deck[|deck| - 1];
      var cards := hand.cards + [top];
      var next := Hand(cards, HandScore(cards), HandScore(cards) > 21);
      DealerLoopsAgree(next, deck[..|deck| - 1], revealIndex + 1);
    }
  }

  /** The shuffle thresholds differ: a deck of 4 to 9 cards is replaced by the
      thunk but dealt from by the hook. */
  lemma ShuffleThresholdsCompared(deck: seq<Card>)
    ensures GameLogicHook.NeedsNewDeck(deck) ==> GameThunks.NeedsNewDeck(deck)
    ensures GameThunks.NeedsNewDeck(deck) && !GameLogicHook.NeedsNewDeck(deck) <==> 4 <= |deck| < 10
  {
  }

  /** The hook and the game slice place bets identically. */
  lemma PlaceBetVariantsAgree(s: GameState, amount: int)
    ensures GameLogicHook.PlaceBet(s, amount) == GameSlice.PlaceBet(s, amount)
  {
  }

  /** validateBet accepts only stakes the betting slice's placeBet applies;
      placeBet also applies to additions that leave the stake non-positive. */
  lemma ValidateBetImpliesPlaceBetApplies(s: BettingSlice.BettingState, amount: int)
    ensures GameFlowService.ValidateBet(s.chips, s.currentBet, amount) ==>
              BettingSlice.PlaceBet(s, amount).currentBet == s.currentBet + amount
    ensures s.chips >= amount && s.currentBet + amount <= 0 ==>
              !GameFlowService.ValidateBet(s.chips, s.currentBet, amount)
              && BettingSlice.PlaceBet(s, amount).currentBet == s.currentBet + amount
  {
  }

  /** The double-down guards: the selector and the hook agree; the service also
      asks for a positive stake; the thunk also accepts fewer than two cards. */
  lemma DoubleDownGuardsCompared(s: GameState)
    ensures Selectors.SelectCanDoubleDown(s) <==> GameLogicHook.CanDoubleDown(s)
    ensures Selectors.SelectCanDoubleDown(s) && s.currentBet > 0 <==>
              s.gameStatus == Playing && GameFlowService.CanDoubleDown(s.playerHand, s.chips, s.currentBet)
    ensures Selectors.SelectCanDoubleDown(s) ==> !GameThunks.DoubleDownRefused(s)
    ensures !GameThunks.DoubleDownRefused(s) && !Selectors.SelectCanDoubleDown(s) ==> |s.playerHand.cards| < 2
  {
  }

  /** startNewGame: the hook's reset and the game slice's are the same function. */
  lemma StartNewGameVariantsAgree(s: GameState)
    ensures GameLogicHook.StartNewGame(s) == GameSlice.StartNewGame(s)
  {
  }

  /** A hit that busts, through the thunk and the game slice versus through
      the hook: same hand, deck, chips and zero stake, but the slice logs the
      loss with amount 0 (it zeroes the stake first) where the hook logs the
      stake, and the hook shows "Game Over!" when no chips are left. The two
      states coincide exactly when there was no stake and chips remain. */
  lemma HitBustCompared(s: GameState, now: Timestamp)
    requires s.gameStatus == Playing && |s.deck| > 0
    requires HandScore(s.playerHand.cards + [s.deck[|s.deck| - 1]]) > 21
    ensures var slice := GameSlice.HandleHitFulfilled(s, GameThunks.HandleHit(s).payload, now);
            var hook := GameLogicHook.HandleHit(s, now).value;
            && slice.playerHand == hook.playerHand && slice.deck == hook.deck
            && slice.chips == hook.chips == s.chips && slice.currentBet == hook.currentBet == 0
            && slice.bettingHistory[0].amount == 0 && hook.bettingHistory[0].amount == s.currentBet
            && slice.message == PlayerBustMessage
            && hook.message == (if s.chips <= 0 then GameOverMessage else PlayerBustMessage)
            && (slice == hook <==> s.currentBet == 0 && s.chips > 0)
  {
    var slice := GameSlice.HandleHitFulfilled(s, GameThunks.HandleHit(s).payload, now);
    var hook := GameLogicHook.HandleHit(s, now).value;
    if slice == hook {
      assert slice.bettingHistory[0] == hook.bettingHistory[0];
    }
  }

  /** A double down that busts, through the thunk and the game slice versus
      through the hook: same hand, deck, chips and log entry (the doubled
      stake, lost), but the slice zeroes the stake while the hook leaves the
      doubled stake on the table. */
  lemma DoubleDownBustCompared(s: GameState, now: Timestamp)
    requires !GameThunks.DoubleDownRefused(s) && |s.deck| > 0
    requires HandScore(s.playerHand.cards + [s.deck[|s.deck| - 1]]) > 21
    ensures var slice := GameSlice.HandleDoubleDownFulfilled(s, GameThunks.HandleDoubleDown(s).payload, now);
            var hook := GameLogicHook.HandleDoubleDown(s, now).value.settled;
            && slice.playerHand == hook.playerHand && slice.deck == hook.deck && slice.chips == hook.chips
            && slice.bettingHistory == hook.bettingHistory
            && slice.gameStatus == hook.gameStatus == Finished && slice.message == hook.message
            && slice.currentBet == 0 && hook.currentBet == 2 * s.currentBet
            && (slice == hook <==> s.currentBet == 0)
  {
  }

  /** The `won` flag of the log entry after the dealer's turn, for the same
      state and the same credit: the hook records "credited more than the
      stake", the game slice (which zeroes the stake first) records "credited
      anything". On a positive stake they differ exactly on a positive credit
      that does not exceed it. */
  lemma WonFlagVariantsCompared(s: GameState, p: GameThunks.DealerTurnPayload, now: Timestamp)
    requires |p.dealerResults| > 0
    requires GameLogicHook.HandleDealerTurn(s, now).Some?
    requires GameLogicHook.HandleDealerTurn(s, now).value.shown.chips == s.chips + p.winnings.amount
    ensures var sliceWon := GameSlice.HandleDealerTurnFulfilled(s, Some(p), now).bettingHistory[0].won;
            var hookWon := GameLogicHook.HandleDealerTurn(s, now).value.shown.bettingHistory[0].won;
            && sliceWon == (p.winnings.amount > 0)
            && hookWon == (p.winnings.amount > s.currentBet)
            && (s.currentBet > 0 ==> (sliceWon != hookWon <==> 0 < p.winnings.amount <= s.currentBet))
  {
  }

  /** A round settled by the service keeps chips plus stake in step with the
      payoff: the stake leaves the table, the credit arrives in the chips. */
  lemma EndStateBalance(state: GameState, player: Hand, dealer: Hand, now: Timestamp)
    ensures var res := GameFlowService.DetermineGameResult(player, dealer, state.currentBet);
            var e := GameFlowService.BuildGameEndState(state, res, now);
            e.chips + e.currentBet == state.chips + res.winnings
  {
  }
}
