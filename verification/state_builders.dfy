/** StateBuilders: partial state updates for each phase of a round, and the
    merge that keeps only the keys an update actually changes. */
module StateBuilders {
  import opened Types
  import opened DeckUtils

  /** An optional key that can also be present with the value `undefined`,
      which Object.assign copies over (clearing the field) and the merge skips. */
  datatype Slot<T> = Absent | Cleared | Put(value: T)

  /** StateUpdate: every key optional. */
  datatype StateUpdate = StateUpdate(
    gameStatus: Option<GameStatus>,
    message: Option<Message>,
    playerHand: Option<Hand>,
    dealerHand: Option<Hand>,
    deck: Option<seq<Card>>,
    revealIndex: Option<int>,
    showConfetti: Option<bool>,
    nextGameStatus: Slot<GameStatus>,
    nextMessage: Slot<Message>)

  /** The empty update `{}`. */
  const NoUpdate: StateUpdate := StateUpdate(None, None, None, None, None, None, None, Absent, Absent)

  /** buildDealingState: two empty hands while the cards go out. */
  function BuildDealingState(): (r: StateUpdate)
    ensures r.gameStatus == Some(Dealing) && r.message == Some(DealingCardsMessage)
    ensures r.playerHand == Some(EmptyHand) && r.dealerHand == Some(EmptyHand)
    ensures r.revealIndex == Some(-1) && r.showConfetti == Some(false)
    ensures r.deck.None? && r.nextGameStatus.Absent? && r.nextMessage.Absent?
  {
    StateUpdate(Some(Dealing), Some(DealingCardsMessage), Some(EmptyHand), Some(EmptyHand),
                None, Some(-1), Some(false), Absent, Absent)
  }

  /** buildPlayingState: both hands scored from their cards, bust flags cleared,
      the first two dealer cards counted as revealed. */
  function BuildPlayingState(playerCards: seq<Card>, dealerCards: seq<Card>, deck: seq<Card>): (r: StateUpdate)
    ensures r.gameStatus == Some(Playing) && r.message == Some(YourTurnMessage)
    ensures r.playerHand.Some? && r.playerHand.value.cards == playerCards && !r.playerHand.value.isBusted
    ensures r.dealerHand.Some? && r.dealerHand.value.cards == dealerCards && !r.dealerHand.value.isBusted
    ensures r.playerHand.value.score == HandScore(playerCards) && r.dealerHand.value.score == HandScore(dealerCards)
    ensures r.deck == Some(deck) && r.revealIndex == Some(1)
    ensures r.showConfetti.None? && r.nextGameStatus.Absent? && r.nextMessage.Absent?
  {
    StateUpdate(Some(Playing), Some(YourTurnMessage),
                Some(Hand(playerCards, HandScore(playerCards), false)),
                Some(Hand(dealerCards, HandScore(dealerCards), false)),
                Some(deck), Some(1), None, Absent, Absent)
  }

  /** For an opening deal of two standard cards each, the hands buildPlayingState
      makes have scores and bust flags that agree with their cards. */
  lemma PlayingStateHandsScored(playerCards: seq<Card>, dealerCards: seq<Card>, deck: seq<Card>)
    requires |playerCards| == 2 && StandardHand(playerCards)
    requires |dealerCards| == 2 && StandardHand(dealerCards)
    ensures var u := BuildPlayingState(playerCards, dealerCards, deck);
            ScoredHand(u.playerHand.value) && ScoredHand(u.dealerHand.value)
  {
    assert playerCards == [playerCards[0], playerCards[1]];
    assert dealerCards == [dealerCards[0], dealerCards[1]];
    TwoCardScoreAtMost21(playerCards[0], playerCards[1]);
    TwoCardScoreAtMost21(dealerCards[0], dealerCards[1]);
  }

  /** buildPlayerHitState: the new player hand (score recomputed, bust flag as
      given), the new deck and a message; the phase is left alone. */
  function BuildPlayerHitState(newCards: seq<Card>, newDeck: seq<Card>, isBusted: bool): (r: StateUpdate)
    ensures r.playerHand == Some(Hand(newCards, HandScore(newCards), isBusted))
    ensures r.deck == Some(newDeck)
    ensures r.message == Some(PlayerBustMessage) <==> isBusted
    ensures r.message == Some(YourTurnMessage) <==> !isBusted
    ensures r.gameStatus.None? && r.dealerHand.None? && r.revealIndex.None? && r.showConfetti.None?
    ensures r.nextGameStatus.Absent? && r.nextMessage.Absent?
  {
    StateUpdate(None, Some(if isBusted then PlayerBustMessage else YourTurnMessage),
                Some(Hand(newCards, HandScore(newCards), isBusted)), None,
                Some(newDeck), None, None, Absent, Absent)
  }

  /** buildDealerTurnState: the reveal index defaults to -1 when not given. */
  function BuildDealerTurnState(revealIndex: Option<int>): (r: StateUpdate)
    ensures r.gameStatus == Some(DealerTurn) && r.message == Some(DealerTurnMessage)
    ensures revealIndex.Some? ==> r.revealIndex == revealIndex
    ensures revealIndex.None? ==> r.revealIndex == Some(-1)
    ensures r.playerHand.None? && r.dealerHand.None? && r.deck.None? && r.showConfetti.None?
    ensures r.nextGameStatus.Absent? && r.nextMessage.Absent?
  {
    StateUpdate(Some(DealerTurn), Some(DealerTurnMessage), None, None, None,
                Some(if revealIndex.Some? then revealIndex.value else -1), None, Absent, Absent)
  }

  /** buildDoubleDownState: a bust ends the round and schedules the return to
      betting; otherwise the dealer plays and no transition is scheduled. */
  function BuildDoubleDownState(newCards: seq<Card>, newDeck: seq<Card>, isBusted: bool): (r: StateUpdate)
    ensures r.playerHand == Some(Hand(newCards, HandScore(newCards), isBusted)) && r.deck == Some(newDeck)
    ensures isBusted ==> r.gameStatus == Some(Finished) && r.message == Some(PlayerBustMessage)
                         && r.nextGameStatus == Put(Betting) && r.nextMessage == Put(PlaceBetMessage)
    ensures !isBusted ==> r.gameStatus == Some(DealerTurn) && r.message == Some(DealerTurnMessage)
                          && r.nextGameStatus.Absent? && r.nextMessage.Absent?
    ensures r.dealerHand.None? && r.revealIndex.None? && r.showConfetti.None?
  {
    var hand := Some(Hand(newCards, HandScore(newCards), isBusted));
    if isBusted then
      StateUpdate(Some(Finished), Some(PlayerBustMessage), hand, None, Some(newDeck), None, None,
                  Put(Betting), Put(PlaceBetMessage))
    else
      StateUpdate(Some(DealerTurn), Some(DealerTurnMessage), hand, None, Some(newDeck), None, None,
                  Absent, Absent)
  }

  /** buildNewGameState: betting phase, empty hands, a freshly shuffled deck
      (createNewDeck; `choose` supplies the shuffle's random picks). */
  function BuildNewGameState(choose: nat -> nat): (r: StateUpdate)
    ensures r.gameStatus == Some(Betting) && r.message == Some(PlaceBetMessage)
    ensures r.playerHand == Some(EmptyHand) && r.dealerHand == Some(EmptyHand)
    ensures r.deck.Some? && FreshDeckFacts(r.deck.value)
    ensures r.revealIndex == Some(-1) && r.showConfetti == Some(false)
    ensures r.nextGameStatus.Absent? && r.nextMessage.Absent?
  {
    CreateDeckIsFresh(choose);
    StateUpdate(Some(Betting), Some(PlaceBetMessage), Some(EmptyHand), Some(EmptyHand),
                Some(CreateDeck(choose)), Some(-1), Some(false), Absent, Absent)
  }

  /** buildTransitionState: the scheduled phase and message, empty hands, no
      confetti, and both transition keys present but undefined. */
  function BuildTransitionState(nextStatus: GameStatus, nextMessage: Message): (r: StateUpdate)
    ensures r.gameStatus == Some(nextStatus) && r.message == Some(nextMessage)
    ensures r.playerHand == Some(EmptyHand) && r.dealerHand == Some(EmptyHand)
    ensures r.showConfetti == Some(false)
    ensures r.nextGameStatus == Cleared && r.nextMessage == Cleared
    ensures r.deck.None? && r.revealIndex.None?
  {
    StateUpdate(Some(nextStatus), Some(nextMessage), Some(EmptyHand), Some(EmptyHand),
                None, None, Some(false), Cleared, Cleared)
  }

  /** One key of mergeStateUpdate: kept when defined and different from the current value. */
  function KeepChanged<T(==)>(current: Option<T>, update: Option<T>): (r: Option<T>)
    ensures r.Some? <==> update.Some? && current != update
    ensures r.Some? ==> r == update
  {
    if update.Some? && current != update then update else None
  }

  /** The same for a key that may be present as `undefined`: that value is never kept. */
  function KeepChangedSlot<T(==)>(current: Slot<T>, update: Slot<T>): (r: Slot<T>)
    ensures r.Put? <==> update.Put? && current != update
    ensures r.Put? ==> r == update
    ensures !r.Cleared?
  {
    if update.Put? && current != update then update else Absent
  }

  /** Every key `r` defines, `update` defines with the same value. */
  predicate Within(r: StateUpdate, update: StateUpdate)
  {
    && (r.gameStatus.Some? ==> r.gameStatus == update.gameStatus)
    && (r.message.Some? ==> r.message == update.message)
    && (r.playerHand.Some? ==> r.playerHand == update.playerHand)
    && (r.dealerHand.Some? ==> r.dealerHand == update.dealerHand)
    && (r.deck.Some? ==> r.deck == update.deck)
    && (r.revealIndex.Some? ==> r.revealIndex == update.revealIndex)
    && (r.showConfetti.Some? ==> r.showConfetti == update.showConfetti)
    && (r.nextGameStatus.Put? ==> r.nextGameStatus == update.nextGameStatus)
    && (r.nextMessage.Put? ==> r.nextMessage == update.nextMessage)
  }

  /** mergeStateUpdate, key by key. Values are compared structurally. */
  function MergeStateUpdate(current: StateUpdate, update: StateUpdate): (r: StateUpdate)
    ensures Within(r, update)
    ensures r.gameStatus.Some? <==> update.gameStatus.Some? && current.gameStatus != update.gameStatus
    ensures r.message.Some? <==> update.message.Some? && current.message != update.message
    ensures r.playerHand.Some? <==> update.playerHand.Some? && current.playerHand != update.playerHand
    ensures r.dealerHand.Some? <==> update.dealerHand.Some? && current.dealerHand != update.dealerHand
    ensures r.deck.Some? <==> update.deck.Some? && current.deck != update.deck
    ensures r.revealIndex.Some? <==> update.revealIndex.Some? && current.revealIndex != update.revealIndex
    ensures r.showConfetti.Some? <==> update.showConfetti.Some? && current.showConfetti != update.showConfetti
    ensures r.nextGameStatus.Put? <==> update.nextGameStatus.Put? && current.nextGameStatus != update.nextGameStatus
    ensures r.nextMessage.Put? <==> update.nextMessage.Put? && current.nextMessage != update.nextMessage
    ensures !r.nextGameStatus.Cleared? && !r.nextMessage.Cleared?
  {
    StateUpdate(
      KeepChanged(current.gameStatus, update.gameStatus),
      KeepChanged(current.message, update.message),
      KeepChanged(current.playerHand, update.playerHand),
      KeepChanged(current.dealerHand, update.dealerHand),
      KeepChanged(current.deck, update.deck),
      KeepChanged(current.revealIndex, update.revealIndex),
      KeepChanged(current.showConfetti, update.showConfetti),
      KeepChangedSlot(current.nextGameStatus, update.nextGameStatus),
      KeepChangedSlot(current.nextMessage, update.nextMessage))
  }

  /** `current` already holds every value `update` defines. */
  predicate Holds(current: StateUpdate, update: StateUpdate)
  {
    && (update.gameStatus.Some? ==> current.gameStatus == update.gameStatus)
    && (update.message.Some? ==> current.message == update.message)
    && (update.playerHand.Some? ==> current.playerHand == update.playerHand)
    && (update.dealerHand.Some? ==> current.dealerHand == update.dealerHand)
    && (update.deck.Some? ==> current.deck == update.deck)
    && (update.revealIndex.Some? ==> current.revealIndex == update.revealIndex)
    && (update.showConfetti.Some? ==> current.showConfetti == update.showConfetti)
    && (update.nextGameStatus.Put? ==> current.nextGameStatus == update.nextGameStatus)
    && (update.nextMessage.Put? ==> current.nextMessage == update.nextMessage)
  }

  /** The merge is empty exactly when the current state already holds the update. */
  lemma MergeEmptyIffHeld(current: StateUpdate, update: StateUpdate)
    ensures MergeStateUpdate(current, update) == NoUpdate <==> Holds(current, update)
  {
  }

  /** In particular, merging an update into itself yields `{}`. */
  lemma MergeWithSelfIsEmpty(update: StateUpdate)
    ensures MergeStateUpdate(update, update) == NoUpdate
  {
    MergeEmptyIffHeld(update, update);
  }
}
