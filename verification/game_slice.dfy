/** The combined game slice: the whole game state (hands, deck, phase, chips,
    stakes, history), its reducers, and the cases it handles for the thunks'
    outcomes. */
module GameSlice {
  import opened Types
  import opened DeckUtils
  import BetUtils
  import GameThunks

  /** The history never holds more than five entries. */
  predicate HistoryBounded(s: GameState)
  {
    |s.bettingHistory| <= HistoryLimit
  }

  /** The initial state: no deck yet, betting phase, the starting chips. The
      source's initial object has no statistics or confetti keys; here they
      start at zero tallies and false. */
  function InitialGameState(): (r: GameState)
    ensures r.gameStatus == Betting && r.message == PlaceBetMessage && r.deck == []
    ensures r.playerHand == EmptyHand && r.dealerHand == EmptyHand
    ensures r.chips == BetUtils.InitialChips && r.currentBet == 0 && r.previousBet == 0
    ensures r.revealIndex == 0 && r.bettingHistory == [] && HistoryBounded(r)
  {
    GameState(EmptyHand, EmptyHand, [], Betting, PlaceBetMessage, BetUtils.InitialChips, 0, 0, 0, [],
              Stats(0, 0, 0), None, None, false)
  }

  /** placeBet: only in the betting phase and only when the chips cover the amount. */
  function PlaceBet(s: GameState, amount: int): (r: GameState)
    ensures r.chips + r.currentBet == s.chips + s.currentBet
    ensures s.gameStatus == Betting && s.chips >= amount ==>
              r.chips == s.chips - amount && r.currentBet == s.currentBet + amount
    ensures !(s.gameStatus == Betting && s.chips >= amount) ==> r == s
    ensures r.gameStatus == s.gameStatus && r.bettingHistory == s.bettingHistory
    ensures ChangedKeys(s, r) <= {ChipsKey, CurrentBetKey}
  {
    if s.gameStatus != Betting || s.chips < amount then s
    else s.(chips := s.chips - amount, currentBet := s.currentBet + amount)
  }

  /** The previous-bet thunk stakes through this reducer: its staking step
      is placeBet(previousBet) on a state its guard accepted. */
  lemma PreviousBetStakedByPlaceBet(s: GameState)
    requires !GameThunks.PreviousBetRefused(s)
    ensures GameThunks.StakePreviousBet(s) == PlaceBet(s, s.previousBet)
  {
  }

  /** startNewGame: back to betting with empty hands. The stake is dropped,
      not refunded. */
  function StartNewGame(s: GameState): (r: GameState)
    ensures r.gameStatus == Betting && r.message == PlaceBetMessage
    ensures r.playerHand == EmptyHand && r.dealerHand == EmptyHand
    ensures r.currentBet == 0 && r.revealIndex == -1
    ensures r.chips == s.chips && r.bettingHistory == s.bettingHistory && r.deck == s.deck
    ensures ChangedKeys(s, r)
            <= {GameStatusKey, MessageKey, PlayerHandKey, DealerHandKey, CurrentBetKey, RevealIndexKey}
  {
    s.(gameStatus := Betting, message := PlaceBetMessage, playerHand := EmptyHand,
       dealerHand := EmptyHand, currentBet := 0, revealIndex := -1)
  }

  /** A stake on the table when a new game starts is lost. */
  lemma StartNewGameLosesStake(s: GameState)
    ensures var r := StartNewGame(s); r.chips + r.currentBet == s.chips
  {
  }

  /** resetGame, without its storage side effect: the initial state. */
  function ResetGame(s: GameState): (r: GameState)
    ensures r.chips == BetUtils.InitialChips && r.currentBet == 0 && r.bettingHistory == []
    ensures r.gameStatus == Betting && r.deck == []
    ensures r == InitialGameState()
  {
    InitialGameState()
  }

  /** startNewHand.pending. */
  function StartNewHandPending(s: GameState): (r: GameState)
    ensures r.gameStatus == Dealing && r.message == DealingCardsMessage
    ensures r.playerHand == EmptyHand && r.dealerHand == EmptyHand && r.revealIndex == -1
    ensures r.chips == s.chips && r.currentBet == s.currentBet && r.bettingHistory == s.bettingHistory
    ensures ChangedKeys(s, r) <= {GameStatusKey, MessageKey, PlayerHandKey, DealerHandKey, RevealIndexKey}
  {
    s.(gameStatus := Dealing, message := DealingCardsMessage, playerHand := EmptyHand,
       dealerHand := EmptyHand, revealIndex := -1)
  }

  /** startNewHand.fulfilled: a null payload changes nothing; otherwise the
      dealt hands, the remaining deck, the playing phase, two dealer cards
      revealed and the previous bet from the payload. */
  function StartNewHandFulfilled(s: GameState, payload: Option<GameThunks.DealPayload>): (r: GameState)
    ensures payload.None? ==> r == s
    ensures payload.Some? ==>
              var p := payload.value;
              && r.gameStatus == Playing && r.message == YourTurnMessage && r.revealIndex == 1
              && r.deck == p.currentDeck && r.previousBet == p.previousBet
              && r.playerHand == Hand(p.playerCards, HandScore(p.playerCards), false)
              && r.dealerHand == Hand(p.dealerCards, HandScore(p.dealerCards), false)
              && r.chips == s.chips && r.currentBet == s.currentBet && r.bettingHistory == s.bettingHistory
    ensures ChangedKeys(s, r)
            <= {DeckKey, PlayerHandKey, DealerHandKey, GameStatusKey, MessageKey, RevealIndexKey, PreviousBetKey}
  {
    if payload.None? then s
    else
      var p := payload.value;
      s.(deck := p.currentDeck,
         playerHand := Hand(p.playerCards, HandScore(p.playerCards), false),
         dealerHand := Hand(p.dealerCards, HandScore(p.dealerCards), false),
         gameStatus := Playing, message := YourTurnMessage, revealIndex := 1, previousBet := p.previousBet)
  }

  /** Dealing a hand with the thunk: playing, the stake remembered, and the
      deck four cards shorter than the one dealt from. */
  lemma DealtHandRemembersStake(s: GameState, choose: nat -> nat)
    requires s.currentBet != 0
    ensures var r := StartNewHandFulfilled(s, GameThunks.StartNewHand(s, choose).payload);
            && r.gameStatus == Playing && r.previousBet == s.currentBet
            && |r.deck| == |Replenished(s.deck, GameThunks.MinCardsBeforeShuffle, choose)| - 4
  {
  }

  /** handleHit.fulfilled. On a bust the stake is zeroed BEFORE the history
      entry reads it, so the loss is recorded with amount 0. */
  function HandleHitFulfilled(s: GameState, payload: Option<GameThunks.HitPayload>, now: Timestamp): (r: GameState)
    ensures payload.None? ==> r == s
    ensures payload.Some? ==>
              var p := payload.value;
              && r.deck == p.newDeck && r.playerHand == Hand(p.newCards, p.score, p.isBusted)
              && r.chips == s.chips
              && (p.isBusted ==> r.gameStatus == Finished && r.message == PlayerBustMessage && r.currentBet == 0
                                 && r.bettingHistory == RecordBet(s.bettingHistory, BetResult(0, false, now)))
              && (!p.isBusted ==> r.gameStatus == s.gameStatus && r.currentBet == s.currentBet
                                  && r.bettingHistory == s.bettingHistory)
              && (p.isBusted ==> ChangedKeys(s, r) <= {DeckKey, PlayerHandKey, GameStatusKey, MessageKey,
                                                       CurrentBetKey, BettingHistoryKey})
              && (!p.isBusted ==> ChangedKeys(s, r) <= {DeckKey, PlayerHandKey})
    ensures HistoryBounded(s) ==> HistoryBounded(r)
  {
    if payload.None? then s
    else
      var p := payload.value;
      var s1 := s.(deck := p.newDeck, playerHand := Hand(p.newCards, p.score, p.isBusted));
      if p.isBusted then
        var s2 := s1.(gameStatus := Finished, message := PlayerBustMessage, currentBet := 0);
        s2.(bettingHistory := RecordBet(s2.bettingHistory, BetResult(s2.currentBet, false, now)))
      else s1
  }

  /** handleDealerTurn.pending. */
  function HandleDealerTurnPending(s: GameState): (r: GameState)
    ensures r.gameStatus == DealerTurn && r.message == DealerTurnMessage
    ensures r.chips == s.chips && r.currentBet == s.currentBet && r.dealerHand == s.dealerHand
    ensures ChangedKeys(s, r) <= {GameStatusKey, MessageKey}
  {
    s.(gameStatus := DealerTurn, message := DealerTurnMessage)
  }

  /** handleDealerTurn.fulfilled: credit the settled amount, zero the stake and
      log the round. The stake is zeroed before the entry is built, so the
      entry's amount is 0 and `won` means "anything was credited". */
  function HandleDealerTurnFulfilled(s: GameState, payload: Option<GameThunks.DealerTurnPayload>, now: Timestamp)
    : (r: GameState)
    requires payload.Some? ==> |payload.value.dealerResults| > 0
    ensures payload.None? ==> r == s
    ensures payload.Some? ==>
              var p := payload.value;
              && r.deck == p.currentDeck && r.dealerHand == p.dealerResults[|p.dealerResults| - 1]
              && r.gameStatus == Finished && r.message == Text(p.winnings.message)
              && r.chips == s.chips + p.winnings.amount && r.currentBet == 0
              && r.bettingHistory == RecordBet(s.bettingHistory, BetResult(0, p.winnings.amount > 0, now))
              && ChangedKeys(s, r) <= {DeckKey, DealerHandKey, GameStatusKey, MessageKey, ChipsKey,
                                       CurrentBetKey, BettingHistoryKey}
    ensures HistoryBounded(s) ==> HistoryBounded(r)
  {
    if payload.None? then s
    else
      var p := payload.value;
      var s1 := s.(deck := p.currentDeck, dealerHand := p.dealerResults[|p.dealerResults| - 1],
                   gameStatus := Finished, message := Text(p.winnings.message),
                   chips := s.chips + p.winnings.amount, currentBet := 0);
      s1.(bettingHistory := RecordBet(s1.bettingHistory,
                                      BetResult(s1.currentBet, p.winnings.amount > s1.currentBet, now)))
  }

  /** A push settled by the dealer-turn thunk on a positive stake is logged as
      won, with amount 0. */
  lemma DealerTurnLogsPushAsWon(s: GameState, now: Timestamp)
    requires s.currentBet > 0
    requires GameThunks.HandleDealerTurn(s).Fulfilled?
    requires s.playerHand.score == GameThunks.HandleDealerTurn(s).payload.value.finalScore <= 21
    ensures var p := GameThunks.HandleDealerTurn(s).payload;
            var r := HandleDealerTurnFulfilled(s, p, now);
            && p.value.winnings.amount == s.currentBet
            && r.bettingHistory[0] == BetResult(0, true, now)
  {
  }

  /** handleDoubleDown.fulfilled: debit the extra stake and set the doubled
      one; a bust finishes the round, zeroes the stake and logs the doubled
      stake as lost, otherwise the dealer plays. */
  function HandleDoubleDownFulfilled(s: GameState, payload: Option<GameThunks.DoubleDownPayload>, now: Timestamp)
    : (r: GameState)
    ensures payload.None? ==> r == s
    ensures payload.Some? ==>
              var p := payload.value;
              && r.deck == p.newDeck && r.playerHand == Hand(p.newCards, p.score, p.isBusted)
              && r.chips == s.chips - p.additionalBet
              && (p.isBusted ==> r.gameStatus == Finished && r.message == PlayerBustMessage && r.currentBet == 0
                                 && r.bettingHistory == RecordBet(s.bettingHistory, BetResult(p.newBet, false, now)))
              && (!p.isBusted ==> r.gameStatus == DealerTurn && r.message == DealerTurnMessage
                                  && r.currentBet == p.newBet && r.bettingHistory == s.bettingHistory)
              && (p.isBusted ==> ChangedKeys(s, r) <= {DeckKey, ChipsKey, CurrentBetKey, PlayerHandKey,
                                                       GameStatusKey, MessageKey, BettingHistoryKey})
              && (!p.isBusted ==> ChangedKeys(s, r) <= {DeckKey, ChipsKey, CurrentBetKey, PlayerHandKey,
                                                        GameStatusKey, MessageKey})
    ensures HistoryBounded(s) ==> HistoryBounded(r)
  {
    if payload.None? then s
    else
      var p := payload.value;
      var s1 := s.(deck := p.newDeck, chips := s.chips - p.additionalBet, currentBet := p.newBet,
                   playerHand := Hand(p.newCards, p.score, p.isBusted));
      if p.isBusted then
        s1.(gameStatus := Finished, message := PlayerBustMessage, currentBet := 0,
            bettingHistory := RecordBet(s1.bettingHistory, BetResult(p.newBet, false, now)))
      else s1.(gameStatus := DealerTurn, message := DealerTurnMessage)
  }

  /** Doubling down through the thunk keeps chips plus stake unchanged while
      the round goes on. */
  lemma DoubleDownConservesHoldings(s: GameState, now: Timestamp)
    requires GameThunks.HandleDoubleDown(s).Fulfilled? && GameThunks.HandleDoubleDown(s).payload.Some?
    requires !GameThunks.HandleDoubleDown(s).payload.value.isBusted
    ensures var r := HandleDoubleDownFulfilled(s, GameThunks.HandleDoubleDown(s).payload, now);
            r.chips + r.currentBet == s.chips + s.currentBet
  {
  }

  /** A bust on a hit through the thunk forfeits the stake: chips are unchanged
      and the stake is gone. */
  lemma HitBustForfeitsStake(s: GameState, now: Timestamp)
    requires GameThunks.HandleHit(s).Fulfilled? && GameThunks.HandleHit(s).payload.Some?
    requires GameThunks.HandleHit(s).payload.value.isBusted
    ensures var r := HandleHitFulfilled(s, GameThunks.HandleHit(s).payload, now);
            r.chips == s.chips && r.currentBet == 0 && r.gameStatus == Finished
            && r.bettingHistory[0].amount == 0
  {
  }
}
