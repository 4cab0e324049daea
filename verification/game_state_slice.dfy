/** The core game-state slice: hands, deck, phase, message, reveal index,
    the scheduled transition and the confetti flag, with its reducers and the
    cases it handles for the thunks' outcomes. */
module GameStateSlice {
  import opened Types
  import opened DeckUtils
  import opened StateBuilders
  import GameThunks
  import GameFlowService

  datatype CoreGameState = CoreGameState(
    playerHand: Hand,
    dealerHand: Hand,
    deck: seq<Card>,
    gameStatus: GameStatus,
    message: Message,
    revealIndex: int,
    nextGameStatus: Option<GameStatus>,
    nextMessage: Option<Message>,
    showConfetti: bool)

  /** The fields of the core state, for stating which of them a reducer touches. */
  datatype Field = PlayerHandField | DealerHandField | DeckField | GameStatusField | MessageField
                 | RevealIndexField | NextGameStatusField | NextMessageField | ShowConfettiField

  const AllFields: set<Field> := {PlayerHandField, DealerHandField, DeckField, GameStatusField, MessageField,
                                  RevealIndexField, NextGameStatusField, NextMessageField, ShowConfettiField}

  predicate Differs(a: CoreGameState, b: CoreGameState, f: Field)
  {
    match f
    case PlayerHandField => a.playerHand != b.playerHand
    case DealerHandField => a.dealerHand != b.dealerHand
    case DeckField => a.deck != b.deck
    case GameStatusField => a.gameStatus != b.gameStatus
    case MessageField => a.message != b.message
    case RevealIndexField => a.revealIndex != b.revealIndex
    case NextGameStatusField => a.nextGameStatus != b.nextGameStatus
    case NextMessageField => a.nextMessage != b.nextMessage
    case ShowConfettiField => a.showConfetti != b.showConfetti
  }

  /** The fields whose values differ between two states. */
  function Changed(a: CoreGameState, b: CoreGameState): set<Field>
  {
    set f | f in AllFields && Differs(a, b, f)
  }

  /** No field differs exactly when the states are equal. */
  lemma NothingChangedIffEqual(a: CoreGameState, b: CoreGameState)
    ensures Changed(a, b) == {} <==> a == b
  {
    if a != b {
      var f :=
        if a.playerHand != b.playerHand then PlayerHandField
        else if a.dealerHand != b.dealerHand then DealerHandField
        else if a.deck != b.deck then DeckField
        else if a.gameStatus != b.gameStatus then GameStatusField
        else if a.message != b.message then MessageField
        else if a.revealIndex != b.revealIndex then RevealIndexField
        else if a.nextGameStatus != b.nextGameStatus then NextGameStatusField
        else if a.nextMessage != b.nextMessage then NextMessageField
        else ShowConfettiField;
      assert f in Changed(a, b);
    }
  }

  /** The initial core state; `choose` supplies the shuffle of createNewDeck. */
  function InitialCoreState(choose: nat -> nat): (r: CoreGameState)
    ensures r.gameStatus == Betting && r.message == PlaceBetMessage
    ensures r.playerHand == EmptyHand && r.dealerHand == EmptyHand && FreshDeckFacts(r.deck)
    ensures r.revealIndex == 0 && r.nextGameStatus.None? && r.nextMessage.None? && !r.showConfetti
  {
    CreateDeckIsFresh(choose);
    CoreGameState(EmptyHand, EmptyHand, CreateDeck(choose), Betting, PlaceBetMessage, 0, None, None, false)
  }

  // ----- updateGameState (Object.assign) -----

  /** The keys an update carries, an `undefined` value included. */
  function KeysOf(u: StateUpdate): set<Field>
  {
    (if u.playerHand.Some? then {PlayerHandField} else {}) +
    (if u.dealerHand.Some? then {DealerHandField} else {}) +
    (if u.deck.Some? then {DeckField} else {}) +
    (if u.gameStatus.Some? then {GameStatusField} else {}) +
    (if u.message.Some? then {MessageField} else {}) +
    (if u.revealIndex.Some? then {RevealIndexField} else {}) +
    (if !u.nextGameStatus.Absent? then {NextGameStatusField} else {}) +
    (if !u.nextMessage.Absent? then {NextMessageField} else {}) +
    (if u.showConfetti.Some? then {ShowConfettiField} else {})
  }

  /** The state seen as an update, with an unset transition field as a missing key. */
  function AsUpdate(s: CoreGameState): StateUpdate
  {
    StateUpdate(Some(s.gameStatus), Some(s.message), Some(s.playerHand), Some(s.dealerHand), Some(s.deck),
                Some(s.revealIndex), Some(s.showConfetti),
                if s.nextGameStatus.Some? then Put(s.nextGameStatus.value) else Absent,
                if s.nextMessage.Some? then Put(s.nextMessage.value) else Absent)
  }

  function AssignSlot<T>(current: Option<T>, u: Slot<T>): Option<T>
  {
    match u
    case Absent => current
    case Cleared => None
    case Put(v) => Some(v)
  }

  function Assign<T>(current: T, u: Option<T>): T
  {
    if u.Some? then u.value else current
  }

  /** updateGameState: copy every key of the update onto the state. Afterwards
      the state holds every value the update defines, keys set to `undefined`
      are unset, and only keys of the update can have changed. */
  function UpdateGameState(s: CoreGameState, u: StateUpdate): (r: CoreGameState)
    ensures Holds(AsUpdate(r), u)
    ensures u.nextGameStatus.Cleared? ==> r.nextGameStatus.None?
    ensures u.nextMessage.Cleared? ==> r.nextMessage.None?
    ensures Changed(s, r) <= KeysOf(u)
  {
    CoreGameState(Assign(s.playerHand, u.playerHand), Assign(s.dealerHand, u.dealerHand),
                  Assign(s.deck, u.deck), Assign(s.gameStatus, u.gameStatus), Assign(s.message, u.message),
                  Assign(s.revealIndex, u.revealIndex), AssignSlot(s.nextGameStatus, u.nextGameStatus),
                  AssignSlot(s.nextMessage, u.nextMessage), Assign(s.showConfetti, u.showConfetti))
  }

  /** Applying only the changed keys (mergeStateUpdate against the current
      state) has the same effect as applying the whole update, as long as the
      update sets no key to `undefined`. */
  lemma MergedUpdateSameEffect(s: CoreGameState, u: StateUpdate)
    requires !u.nextGameStatus.Cleared? && !u.nextMessage.Cleared?
    ensures UpdateGameState(s, MergeStateUpdate(AsUpdate(s), u)) == UpdateGameState(s, u)
  {
    var c := AsUpdate(s);
    var m := MergeStateUpdate(c, u);
    assert m == StateUpdate(KeepChanged(c.gameStatus, u.gameStatus), KeepChanged(c.message, u.message),
                            KeepChanged(c.playerHand, u.playerHand), KeepChanged(c.dealerHand, u.dealerHand),
                            KeepChanged(c.deck, u.deck), KeepChanged(c.revealIndex, u.revealIndex),
                            KeepChanged(c.showConfetti, u.showConfetti),
                            KeepChangedSlot(c.nextGameStatus, u.nextGameStatus),
                            KeepChangedSlot(c.nextMessage, u.nextMessage));
    AssignKeepsEffect(s.gameStatus, u.gameStatus);
    AssignKeepsEffect(s.message, u.message);
    AssignKeepsEffect(s.playerHand, u.playerHand);
    AssignKeepsEffect(s.dealerHand, u.dealerHand);
    AssignKeepsEffect(s.deck, u.deck);
    AssignKeepsEffect(s.revealIndex, u.revealIndex);
    AssignKeepsEffect(s.showConfetti, u.showConfetti);
    AssignSlotKeepsEffect(s.nextGameStatus, u.nextGameStatus);
    AssignSlotKeepsEffect(s.nextMessage, u.nextMessage);
  }

  /** Per key: assigning the merged value has the assignment's own effect. */
  lemma AssignKeepsEffect<T>(x: T, u: Option<T>)
    ensures Assign(x, KeepChanged(Some(x), u)) == Assign(x, u)
  {
  }

  lemma AssignSlotKeepsEffect<T>(x: Option<T>, u: Slot<T>)
    requires !u.Cleared?
    ensures AssignSlot(x, KeepChangedSlot(if x.Some? then Put(x.value) else Absent, u)) == AssignSlot(x, u)
  {
  }

  /** A key set to `undefined` is where merging first loses an effect: the
      transition built by buildTransitionState unsets the scheduled phase, but
      its merge against a state with a scheduled phase does not. */
  lemma MergeDropsClearedKey(s: CoreGameState, status: GameStatus, msg: Message)
    requires s.nextGameStatus.Some?
    ensures UpdateGameState(s, BuildTransitionState(status, msg)).nextGameStatus.None?
    ensures UpdateGameState(s, MergeStateUpdate(AsUpdate(s), BuildTransitionState(status, msg))).nextGameStatus
            == s.nextGameStatus
  {
  }

  // ----- reducers -----

  /** setGameStatus. */
  function SetGameStatus(s: CoreGameState, status: GameStatus, msg: Message): (r: CoreGameState)
    ensures r.gameStatus == status && r.message == msg
    ensures Changed(s, r) <= {GameStatusField, MessageField}
  {
    s.(gameStatus := status, message := msg)
  }

  /** updatePlayerHand. */
  function UpdatePlayerHand(s: CoreGameState, hand: Hand): (r: CoreGameState)
    ensures r.playerHand == hand && Changed(s, r) <= {PlayerHandField}
  {
    s.(playerHand := hand)
  }

  /** updateDealerHand: the reveal index is set to the number of cards. */
  function UpdateDealerHand(s: CoreGameState, hand: Hand, msg: Message): (r: CoreGameState)
    ensures r.dealerHand == hand && r.message == msg && r.revealIndex == |hand.cards|
    ensures Changed(s, r) <= {DealerHandField, MessageField, RevealIndexField}
  {
    s.(dealerHand := hand, message := msg, revealIndex := |hand.cards|)
  }

  /** The reveal index updateDealerHand stores is one past the last card, so
      it is never the index of a card of the hand (it is documented as the last
      revealed one). */
  lemma DealerRevealIndexPastEnd(s: CoreGameState, hand: Hand, msg: Message)
    ensures var r := UpdateDealerHand(s, hand, msg);
            !(0 <= r.revealIndex < |r.dealerHand.cards|) && r.revealIndex == (|hand.cards| - 1) + 1
  {
  }

  /** setRevealIndex. */
  function SetRevealIndex(s: CoreGameState, index: int): (r: CoreGameState)
    ensures r.revealIndex == index && Changed(s, r) <= {RevealIndexField}
  {
    s.(revealIndex := index)
  }

  /** startNewGame: apply buildNewGameState. */
  function StartNewGame(s: CoreGameState, choose: nat -> nat): (r: CoreGameState)
    ensures r.gameStatus == Betting && r.message == PlaceBetMessage
    ensures r.playerHand == EmptyHand && r.dealerHand == EmptyHand && FreshDeckFacts(r.deck)
    ensures r.revealIndex == -1 && !r.showConfetti
    ensures r.nextGameStatus == s.nextGameStatus && r.nextMessage == s.nextMessage
  {
    UpdateGameState(s, BuildNewGameState(choose))
  }

  /** transitionToBetting: when a transition is scheduled, move to it (with
      the scheduled message, or "Place your bet!"), clear both hands and the
      confetti, and unschedule it. Otherwise nothing changes. */
  function TransitionToBetting(s: CoreGameState): (r: CoreGameState)
    ensures s.nextGameStatus.None? ==> r == s
    ensures s.nextGameStatus.Some? ==>
              && r.gameStatus == s.nextGameStatus.value
              && r.message == (if s.nextMessage.Some? then s.nextMessage.value else PlaceBetMessage)
              && r.playerHand == EmptyHand && r.dealerHand == EmptyHand && !r.showConfetti
              && r.nextGameStatus.None? && r.nextMessage.None?
              && r.deck == s.deck && r.revealIndex == s.revealIndex
  {
    if s.nextGameStatus.Some? then
      var msg := if s.nextMessage.Some? then s.nextMessage.value else PlaceBetMessage;
      UpdateGameState(s, BuildTransitionState(s.nextGameStatus.value, msg))
    else s
  }

  /** A transition is consumed: running it twice is running it once. */
  lemma TransitionToBettingIdempotent(s: CoreGameState)
    ensures TransitionToBetting(TransitionToBetting(s)) == TransitionToBetting(s)
  {
  }

  /** setShowConfetti. */
  function SetShowConfetti(s: CoreGameState, show: bool): (r: CoreGameState)
    ensures r.showConfetti == show && Changed(s, r) <= {ShowConfettiField}
  {
    s.(showConfetti := show)
  }

  /** clearNextTransition. */
  function ClearNextTransition(s: CoreGameState): (r: CoreGameState)
    ensures r.nextGameStatus.None? && r.nextMessage.None?
    ensures Changed(s, r) <= {NextGameStatusField, NextMessageField}
  {
    s.(nextGameStatus := None, nextMessage := None)
  }

  /** Clearing the schedule turns transitionToBetting into a no-op. */
  lemma ClearedTransitionDoesNothing(s: CoreGameState)
    ensures TransitionToBetting(ClearNextTransition(s)) == ClearNextTransition(s)
  {
  }

  // ----- thunk outcomes -----

  /** startNewHand.pending. */
  function StartNewHandPending(s: CoreGameState): (r: CoreGameState)
    ensures r.gameStatus == Dealing && r.message == DealingCardsMessage
    ensures r.playerHand == EmptyHand && r.dealerHand == EmptyHand && r.revealIndex == -1
    ensures Changed(s, r) <= {GameStatusField, MessageField, PlayerHandField, DealerHandField, RevealIndexField}
  {
    s.(gameStatus := Dealing, message := DealingCardsMessage, playerHand := EmptyHand,
       dealerHand := EmptyHand, revealIndex := -1)
  }

  /** Applying buildDealingState is the pending case plus one more key: the
      builder also switches the confetti off. */
  lemma DealingStateIsPendingDeal(s: CoreGameState)
    ensures UpdateGameState(s, BuildDealingState()) == StartNewHandPending(s).(showConfetti := false)
    ensures UpdateGameState(s, BuildDealingState()) == StartNewHandPending(s) <==> !s.showConfetti
  {
  }

  /** startNewHand.fulfilled: a null payload changes nothing; otherwise the
      dealt hands (scores recomputed, bust flags cleared), the remaining deck,
      the playing phase and the first two dealer cards revealed. */
  function StartNewHandFulfilled(s: CoreGameState, payload: Option<GameThunks.DealPayload>): (r: CoreGameState)
    ensures payload.None? ==> r == s
    ensures payload.Some? ==>
              && r.gameStatus == Playing && r.message == YourTurnMessage && r.revealIndex == 1
              && r.deck == payload.value.currentDeck
              && r.playerHand == Hand(payload.value.playerCards, HandScore(payload.value.playerCards), false)
              && r.dealerHand == Hand(payload.value.dealerCards, HandScore(payload.value.dealerCards), false)
              && Changed(s, r) <= {GameStatusField, MessageField, PlayerHandField, DealerHandField,
                                   DeckField, RevealIndexField}
  {
    if payload.None? then s
    else
      var p := payload.value;
      s.(deck := p.currentDeck,
         playerHand := Hand(p.playerCards, HandScore(p.playerCards), false),
         dealerHand := Hand(p.dealerCards, HandScore(p.dealerCards), false),
         gameStatus := Playing, message := YourTurnMessage, revealIndex := 1)
  }

  /** startNewHand.fulfilled lands on the state buildPlayingState describes. */
  lemma StartNewHandFulfilledIsPlayingState(s: CoreGameState, p: GameThunks.DealPayload)
    ensures StartNewHandFulfilled(s, Some(p))
            == UpdateGameState(s, BuildPlayingState(p.playerCards, p.dealerCards, p.currentDeck))
  {
  }

  /** startNewHand.rejected: back to betting with the error message. */
  function StartNewHandRejected(s: CoreGameState): (r: CoreGameState)
    ensures r.gameStatus == Betting && r.message == DealErrorMessage
    ensures Changed(s, r) <= {GameStatusField, MessageField}
  {
    s.(gameStatus := Betting, message := DealErrorMessage)
  }

  /** handleHit.fulfilled: the new hand and deck; a bust finishes the round and
      schedules the return to betting, otherwise the phase and message stay. */
  function HandleHitFulfilled(s: CoreGameState, payload: Option<GameThunks.HitPayload>): (r: CoreGameState)
    ensures payload.None? ==> r == s
    ensures payload.Some? ==>
              var p := payload.value;
              && r.deck == p.newDeck && r.playerHand == Hand(p.newCards, p.score, p.isBusted)
              && (p.isBusted ==> r.gameStatus == Finished && r.message == PlayerBustMessage
                                 && r.nextGameStatus == Some(Betting) && r.nextMessage == Some(PlaceBetMessage))
              && (p.isBusted ==> Changed(s, r) <= {DeckField, PlayerHandField, GameStatusField, MessageField,
                                                   NextGameStatusField, NextMessageField})
              && (!p.isBusted ==> Changed(s, r) <= {DeckField, PlayerHandField})
              && r.dealerHand == s.dealerHand && r.revealIndex == s.revealIndex
  {
    if payload.None? then s
    else
      var p := payload.value;
      var s1 := s.(deck := p.newDeck, playerHand := Hand(p.newCards, p.score, p.isBusted));
      if p.isBusted then
        s1.(gameStatus := Finished, message := PlayerBustMessage,
            nextGameStatus := Some(Betting), nextMessage := Some(PlaceBetMessage))
      else s1
  }

  /** The handleHit thunk followed by its fulfilled case moves exactly one
      card, the deck's last, from the deck to the player's hand: no card is
      lost or created, the hand is scored, and a bust finishes the round. */
  lemma HitMovesTopCardToPlayer(g: GameState, s: CoreGameState)
    requires g.gameStatus == Playing && |g.deck| > 0
    requires s.deck == g.deck && s.playerHand.cards == g.playerHand.cards
    ensures var r := HandleHitFulfilled(s, GameThunks.HandleHit(g).payload);
            && ScoredHand(r.playerHand)
            && r.playerHand.cards == s.playerHand.cards + [s.deck[|s.deck| - 1]]
            && r.deck == s.deck[..|s.deck| - 1]
            && multiset(r.deck + r.playerHand.cards) == multiset(s.deck + s.playerHand.cards)
            && (r.playerHand.isBusted ==> r.gameStatus == Finished)
            && (!r.playerHand.isBusted ==> r.gameStatus == s.gameStatus)
  {
    var p := GameThunks.HandleHit(g).payload.value;
    var c := s.deck[|s.deck| - 1];
    var front := s.deck[..|s.deck| - 1];
    assert s.deck == front + [c];
    assert p.newCards == s.playerHand.cards + [c];
    assert p.newDeck == front;
    calc {
      multiset(front + (s.playerHand.cards + [c]));
      multiset(front) + multiset(s.playerHand.cards) + multiset([c]);
      multiset(front + [c]) + multiset(s.playerHand.cards);
      multiset(s.deck + s.playerHand.cards);
    }
  }

  /** Applying buildPlayerHitState agrees with handleHit.fulfilled on hand and
      deck, given the payload's score is the hand's. The builder also writes
      the message ("Your turn!" or the bust message); the reducer keeps the
      message on a non-bust and, on a bust, also finishes the round and
      schedules the return to betting. */
  lemma PlayerHitStateComparedWithHitFulfilled(s: CoreGameState, p: GameThunks.HitPayload)
    requires p.score == HandScore(p.newCards)
    ensures !p.isBusted ==>
              UpdateGameState(s, BuildPlayerHitState(p.newCards, p.newDeck, false))
              == HandleHitFulfilled(s, Some(p)).(message := YourTurnMessage)
    ensures p.isBusted ==>
              UpdateGameState(s, BuildPlayerHitState(p.newCards, p.newDeck, true))
              == HandleHitFulfilled(s, Some(p)).(gameStatus := s.gameStatus, nextGameStatus := s.nextGameStatus,
                                                 nextMessage := s.nextMessage)
  {
  }

  /** handleDoubleDown.fulfilled: the new hand and deck; a bust finishes the
      round and schedules the return to betting, otherwise the dealer plays. */
  function HandleDoubleDownFulfilled(s: CoreGameState, payload: Option<GameThunks.DoubleDownPayload>): (r: CoreGameState)
    ensures payload.None? ==> r == s
    ensures payload.Some? ==>
              var p := payload.value;
              && r.deck == p.newDeck && r.playerHand == Hand(p.newCards, p.score, p.isBusted)
              && (p.isBusted ==> r.gameStatus == Finished && r.message == PlayerBustMessage
                                 && r.nextGameStatus == Some(Betting) && r.nextMessage == Some(PlaceBetMessage))
              && (!p.isBusted ==> r.gameStatus == DealerTurn && r.message == DealerTurnMessage
                                  && r.nextGameStatus == s.nextGameStatus)
              && (p.isBusted ==> Changed(s, r) <= {DeckField, PlayerHandField, GameStatusField, MessageField, NextGameStatusField, NextMessageField})
              && (!p.isBusted ==> Changed(s, r) <= {DeckField, PlayerHandField, GameStatusField, MessageField})
  {
    if payload.None? then s
    else
      var p := payload.value;
      var s1 := s.(deck := p.newDeck, playerHand := Hand(p.newCards, p.score, p.isBusted));
      if p.isBusted then
        s1.(gameStatus := Finished, message := PlayerBustMessage,
            nextGameStatus := Some(Betting), nextMessage := Some(PlaceBetMessage))
      else s1.(gameStatus := DealerTurn, message := DealerTurnMessage)
  }

  /** handleDoubleDown.fulfilled agrees with applying buildDoubleDownState,
      except that the stored score is the payload's, not recomputed. */
  lemma DoubleDownFulfilledIsBuilderState(s: CoreGameState, p: GameThunks.DoubleDownPayload)
    requires p.score == HandScore(p.newCards)
    ensures HandleDoubleDownFulfilled(s, Some(p))
            == UpdateGameState(s, BuildDoubleDownState(p.newCards, p.newDeck, p.isBusted))
  {
  }

  /** handleDealerTurn.pending: the dealer's turn, with the reveal index on the last dealer card. */
  function HandleDealerTurnPending(s: CoreGameState): (r: CoreGameState)
    ensures r.gameStatus == DealerTurn && r.message == DealerTurnMessage
    ensures r.revealIndex == |s.dealerHand.cards| - 1
    ensures Changed(s, r) <= {GameStatusField, MessageField, RevealIndexField}
  {
    s.(gameStatus := DealerTurn, message := DealerTurnMessage, revealIndex := |s.dealerHand.cards| - 1)
  }

  /** Applying buildDealerTurnState with the last dealer card's index is the
      pending case; with no index the builder's default -1 matches it only
      when the dealer has no cards. */
  lemma DealerTurnStateIsPendingTurn(s: CoreGameState)
    ensures UpdateGameState(s, BuildDealerTurnState(Some(|s.dealerHand.cards| - 1))) == HandleDealerTurnPending(s)
    ensures UpdateGameState(s, BuildDealerTurnState(None)) == HandleDealerTurnPending(s)
            <==> |s.dealerHand.cards| == 0
  {
    if |s.dealerHand.cards| != 0 {
      assert UpdateGameState(s, BuildDealerTurnState(None)).revealIndex == -1;
    }
  }

  /** The payload this case reads: the dealer's hands, the remaining deck and a
      settled result. */
  datatype DealerTurnResultPayload = DealerTurnResultPayload(dealerResults: seq<Hand>, currentDeck: seq<Card>,
                                                             result: GameFlowService.GameResult)

  /** handleDealerTurn.fulfilled: the last dealer hand, all its cards
      revealed, the round finished with the result and dealer score in the
      message, confetti iff anything was won, and the return to betting scheduled. */
  function HandleDealerTurnFulfilled(s: CoreGameState, payload: Option<DealerTurnResultPayload>): (r: CoreGameState)
    requires payload.Some? ==> |payload.value.dealerResults| > 0
    ensures payload.None? ==> r == s
    ensures payload.Some? ==>
              var p := payload.value;
              && r.dealerHand == p.dealerResults[|p.dealerResults| - 1]
              && r.revealIndex == |r.dealerHand.cards| - 1
              && r.deck == p.currentDeck && r.gameStatus == Finished
              && r.message == WithDealerScore(p.result.message, p.result.dealerScore)
              && (r.showConfetti <==> p.result.winnings > 0)
              && r.nextGameStatus == Some(Betting) && r.nextMessage == Some(PlaceBetMessage)
              && r.playerHand == s.playerHand
  {
    if payload.None? then s
    else
      var p := payload.value;
      var last := p.dealerResults[|p.dealerResults| - 1];
      s.(deck := p.currentDeck, dealerHand := last, revealIndex := |last.cards| - 1, gameStatus := Finished,
         message := WithDealerScore(p.result.message, p.result.dealerScore),
         showConfetti := p.result.winnings > 0,
         nextGameStatus := Some(Betting), nextMessage := Some(PlaceBetMessage))
  }

  /** Confetti here follows "anything credited", not "more than the stake": a
      push on a positive stake shows it. */
  lemma DealerTurnConfettiOnPush(s: CoreGameState, results: seq<Hand>, deck: seq<Card>, bet: int)
    requires |results| > 0 && bet > 0
    ensures HandleDealerTurnFulfilled(s, Some(DealerTurnResultPayload(results, deck,
              GameFlowService.GameResult(GameFlowService.Push, 18, 18, bet, PushMessage.text)))).showConfetti
  {
  }

  /** After a finished round, transitionToBetting lands in betting with empty
      hands and no confetti. */
  lemma FinishedRoundReturnsToBetting(s: CoreGameState, payload: DealerTurnResultPayload)
    requires |payload.dealerResults| > 0
    ensures var r := TransitionToBetting(HandleDealerTurnFulfilled(s, Some(payload)));
            r.gameStatus == Betting && r.message == PlaceBetMessage && r.playerHand == EmptyHand
            && r.dealerHand == EmptyHand && !r.showConfetti && r.nextGameStatus.None?
  {
  }
}
