/** The useGameLogic hook: the state each handler leaves behind once its
    timed steps have run. A handler that would throw (scoring a card popped
    from an empty deck) yields None. */
module GameLogicHook {
  import opened Types
  import opened DeckUtils
  import BetUtils
  import DealerUtils
  import GameThunks

  /** The hook's own shuffle threshold. */
  const MinCardsBeforeShuffle: nat := 4

  /** needsNewDeck (hook version). */
  predicate NeedsNewDeck(deck: seq<Card>)
  {
    |deck| < MinCardsBeforeShuffle
  }

  /** The player holds the top two cards of d, the dealer the next two (each
      scored but never marked bust, as the dealing animation does), and the
      deck is what is left under them. */
  predicate DealtFrom(r: GameState, d: seq<Card>)
    requires |d| >= 4
  {
    var player := GameThunks.DrawTop(d, 2);
    var dealer := GameThunks.DrawTop(d[..|d| - 2], 2);
    && r.playerHand == Hand(player, HandScore(player), false)
    && r.dealerHand == Hand(dealer, HandScore(dealer), false)
    && r.deck == d[..|d| - 4]
  }

  /** The hands and phase at the end of the dealing animation. */
  function Dealt(s: GameState, d: seq<Card>): (r: GameState)
    requires |d| >= 4
    ensures var p := GameThunks.DealFrom(d, 0);
            && r.playerHand == Hand(p.playerCards, HandScore(p.playerCards), false)
            && r.dealerHand == Hand(p.dealerCards, HandScore(p.dealerCards), false)
            && r.deck == p.currentDeck
    ensures r.gameStatus == Playing && r.message == YourTurnMessage && r.revealIndex == 1
    ensures ChangedKeys(s, r) <= {PlayerHandKey, DealerHandKey, DeckKey, GameStatusKey, MessageKey, RevealIndexKey}
  {
    var p := GameThunks.DealFrom(d, 0);
    s.(playerHand := Hand(p.playerCards, HandScore(p.playerCards), false),
       dealerHand := Hand(p.dealerCards, HandScore(p.dealerCards), false),
       deck := p.currentDeck, gameStatus := Playing, message := YourTurnMessage, revealIndex := 1)
  }

  /** From a deck of standard cards the two dealt hands are scored consistently:
      two cards never exceed 21, so the unset bust flag is the right one. */
  lemma DealtHandsScored(r: GameState, d: seq<Card>)
    requires |d| >= 4 && StandardHand(d) && DealtFrom(r, d)
    ensures ScoredHand(r.playerHand) && ScoredHand(r.dealerHand)
  {
    var n := |d|;
    assert GameThunks.DrawTop(d, 2) == [d[n - 1], d[n - 2]];
    assert GameThunks.DrawTop(d[..n - 2], 2) == [d[n - 3], d[n - 4]];
    TwoCardScoreAtMost21(d[n - 1], d[n - 2]);
    TwoCardScoreAtMost21(d[n - 3], d[n - 4]);
  }

  /** placeBet: only in the betting phase and only when the chips cover it. */
  function PlaceBet(s: GameState, amount: int): (r: GameState)
    ensures s.gameStatus == Betting && s.chips >= amount ==>
              r == s.(chips := s.chips - amount, currentBet := s.currentBet + amount)
    ensures !(s.gameStatus == Betting && s.chips >= amount) ==> r == s
    ensures r.chips + r.currentBet == s.chips + s.currentBet
  {
    if s.gameStatus != Betting || s.chips < amount then s
    else s.(chips := s.chips - amount, currentBet := s.currentBet + amount)
  }

  /** The refusal test of placePreviousBet (no phase check). */
  predicate PreviousBetRefused(s: GameState)
  {
    s.previousBet == 0 || s.chips < s.previousBet || s.currentBet > 0
  }

  /** placePreviousBet: refused as above; otherwise debit the previous bet, stake
      exactly it, and deal a new hand. */
  function PlacePreviousBet(s: GameState, choose: nat -> nat): (r: GameState)
    ensures PreviousBetRefused(s) ==> r == s
    ensures !PreviousBetRefused(s) ==>
              && r.chips == s.chips - s.previousBet && r.currentBet == s.previousBet
              && r.previousBet == s.previousBet
              && r.gameStatus == Playing && r.message == YourTurnMessage && r.revealIndex == 1
              && |r.playerHand.cards| == 2 && |r.dealerHand.cards| == 2
              && |r.deck| == |Replenished(s.deck, MinCardsBeforeShuffle, choose)| - 4
              && r.bettingHistory == s.bettingHistory
    ensures !PreviousBetRefused(s) ==> DealtFrom(r, Replenished(s.deck, MinCardsBeforeShuffle, choose))
    ensures ChangedKeys(s, r) <= {ChipsKey, CurrentBetKey, PlayerHandKey, DealerHandKey, DeckKey, GameStatusKey,
                                  MessageKey, RevealIndexKey}
  {
    if PreviousBetRefused(s) then s
    else
      var staked := s.(chips := s.chips - s.previousBet, currentBet := s.previousBet);
      Dealt(staked, Replenished(s.deck, MinCardsBeforeShuffle, choose))
  }

  /** startNewGame (hook version): the same reset as the game slice's. */
  function StartNewGame(s: GameState): (r: GameState)
    ensures r.gameStatus == Betting && r.message == PlaceBetMessage
    ensures r.playerHand == EmptyHand && r.dealerHand == EmptyHand
    ensures r.currentBet == 0 && r.revealIndex == -1 && r.chips == s.chips
    ensures ChangedKeys(s, r)
            <= {GameStatusKey, MessageKey, PlayerHandKey, DealerHandKey, CurrentBetKey, RevealIndexKey}
  {
    s.(gameStatus := Betting, message := PlaceBetMessage, playerHand := EmptyHand,
       dealerHand := EmptyHand, currentBet := 0, revealIndex := -1)
  }

  /** startNewHand: nothing without a stake; otherwise remember the stake and
      deal. The chips are not touched (placeBet already moved them). */
  function StartNewHand(s: GameState, choose: nat -> nat): (r: GameState)
    ensures s.currentBet == 0 ==> r == s
    ensures s.currentBet != 0 ==>
              && r.previousBet == s.currentBet && r.currentBet == s.currentBet && r.chips == s.chips
              && r.gameStatus == Playing && r.message == YourTurnMessage && r.revealIndex == 1
              && r.bettingHistory == s.bettingHistory
              && |r.deck| == |Replenished(s.deck, MinCardsBeforeShuffle, choose)| - 4
    ensures s.currentBet != 0 ==> DealtFrom(r, Replenished(s.deck, MinCardsBeforeShuffle, choose))
    ensures ChangedKeys(s, r) <= {PreviousBetKey, PlayerHandKey, DealerHandKey, DeckKey, GameStatusKey,
                                  MessageKey, RevealIndexKey}
  {
    if s.currentBet == 0 then s
    else Dealt(s.(previousBet := s.currentBet), Replenished(s.deck, MinCardsBeforeShuffle, choose))
  }

  /** handleHit: nothing outside the playing phase. A bust finishes the round,
      drops the stake (chips unchanged) and logs it as lost; the message is
      "Game Over!" when no chips are left. */
  function HandleHit(s: GameState, now: Timestamp): (r: Option<GameState>)
    ensures s.gameStatus != Playing ==> r == Some(s)
    ensures r.None? <==> s.gameStatus == Playing && |s.deck| == 0
    ensures s.gameStatus == Playing && r.Some? ==>
              var t := r.value;
              && t.playerHand.cards == s.playerHand.cards + [s.deck[|s.deck| - 1]]
              && t.deck == s.deck[..|s.deck| - 1] && ScoredHand(t.playerHand)
              && t.chips == s.chips
              && (t.playerHand.isBusted ==>
                    && t.gameStatus == Finished && t.currentBet == 0
                    && t.message == (if s.chips <= 0 then GameOverMessage else PlayerBustMessage)
                    && t.bettingHistory == RecordBet(s.bettingHistory, BetResult(s.currentBet, false, now)))
              && (!t.playerHand.isBusted ==>
                    && t.gameStatus == Playing && t.message == YourTurnMessage
                    && t.currentBet == s.currentBet && t.bettingHistory == s.bettingHistory)
              && (t.playerHand.isBusted ==> ChangedKeys(s, t) <= {DeckKey, PlayerHandKey, GameStatusKey, MessageKey,
                                                                  CurrentBetKey, BettingHistoryKey})
              && (!t.playerHand.isBusted ==> ChangedKeys(s, t) <= {DeckKey, PlayerHandKey, MessageKey})
  {
    if s.gameStatus != Playing then Some(s)
    else if |s.deck| == 0 then None
    else
      var cards := s.playerHand.cards + [s.deck[|s.deck| - 1]];
      var hand := Hand(cards, HandScore(cards), HandScore(cards) > 21);
      var s1 := s.(deck := s.deck[..|s.deck| - 1], playerHand := hand);
      if hand.isBusted then
        Some(s1.(gameStatus := Finished, message := if s.chips <= 0 then GameOverMessage else PlayerBustMessage,
                 currentBet := 0,
                 bettingHistory := RecordBet(s.bettingHistory, BetResult(s.currentBet, false, now))))
      else Some(s1.(gameStatus := Playing, message := YourTurnMessage))
  }

  datatype HookDraw = HookDraw(dealerHand: Hand, deck: seq<Card>, revealIndex: int)

  /** The hook's dealer loop: while the stored score is below 17, pop a card,
      rescore, advance the reveal index, and stop at once on a bust. */
  function DealerLoop(hand: Hand, deck: seq<Card>, revealIndex: int): (r: Option<HookDraw>)
    ensures r.Some? ==>
              var k := |r.value.dealerHand.cards| - |hand.cards|;
              && 0 <= k <= |deck|
              && r.value.dealerHand.cards == hand.cards + GameThunks.DrawTop(deck, k)
              && r.value.deck == deck[..|deck| - k]
              && r.value.revealIndex == revealIndex + k
              && !DealerUtils.ShouldDealerHit(r.value.dealerHand.score)
              && (k > 0 ==> ScoredHand(r.value.dealerHand))
              && (k == 0 ==> r.value.dealerHand == hand)
    decreases |deck|
  {
    if !DealerUtils.ShouldDealerHit(hand.score) then Some(HookDraw(hand, deck, revealIndex))
    else if |deck| == 0 then None
    else
      var top := deck[|deck| - 1];
      var cards := hand.cards + [top];
      var next := Hand(cards, HandScore(cards), HandScore(cards) > 21);
      assert cards == hand.cards + GameThunks.DrawTop(deck, 1);
      if next.isBusted then Some(HookDraw(next, deck[..|deck| - 1], revealIndex + 1))
      else
        var r := DealerLoop(next, deck[..|deck| - 1], revealIndex + 1);
        if r.Some? then
          var k := |r.value.dealerHand.cards| - |cards|;
          GameThunks.DrawTopStep(hand.cards, deck, k);
          assert deck[..|deck| - 1][..|deck| - 1 - k] == deck[..|deck| - (k + 1)];
          r
        else r
  }

  /** The two states handleDealerTurn sets at its end: the settled result on
      screen, then (after the pause) the next phase. */
  datatype DealerTurnStates = DealerTurnStates(shown: GameState, settled: GameState)

  /** handleDealerTurn from state `cur`: run the dealer loop from reveal index 1,
      settle through calculateWinnings with no blackjack flags, credit
      cur.chips, log the stake with won = amount > stake, then return to betting
      if any chips are left, or stay finished with "Game Over!". */
  function HandleDealerTurn(cur: GameState, now: Timestamp): (r: Option<DealerTurnStates>)
    ensures r.None? <==> DealerLoop(cur.dealerHand, cur.deck, 1).None?
    ensures r.Some? ==>
              var d := DealerLoop(cur.dealerHand, cur.deck, 1).value;
              var w := BetUtils.CalculateWinnings(d.dealerHand.score, cur.playerHand.score, cur.currentBet,
                                                  d.dealerHand.isBusted, false, false);
              var shown := r.value.shown;
              var settled := r.value.settled;
              && shown.dealerHand == d.dealerHand && shown.deck == d.deck && shown.revealIndex == d.revealIndex
              && shown.gameStatus == Finished && shown.message == Text(w.message)
              && shown.chips == cur.chips + w.amount && shown.currentBet == 0
              && shown.bettingHistory
                 == RecordBet(cur.bettingHistory, BetResult(cur.currentBet, w.amount > cur.currentBet, now))
              && (shown.chips > 0 ==> settled == shown.(gameStatus := Betting, message := PlaceBetMessage))
              && (shown.chips <= 0 ==> settled == shown.(message := GameOverMessage))
              && ChangedKeys(cur, shown) <= {DealerHandKey, DeckKey, RevealIndexKey, GameStatusKey, MessageKey,
                                             ChipsKey, CurrentBetKey, BettingHistoryKey}
  {
    match DealerLoop(cur.dealerHand, cur.deck, 1)
    case None => None
    case Some(d) =>
      var w := BetUtils.CalculateWinnings(d.dealerHand.score, cur.playerHand.score, cur.currentBet,
                                          d.dealerHand.isBusted, false, false);
      var newChips := cur.chips + w.amount;
      var shown := cur.(dealerHand := d.dealerHand, deck := d.deck, revealIndex := d.revealIndex,
                        gameStatus := Finished, message := Text(w.message), chips := newChips, currentBet := 0,
                        bettingHistory := RecordBet(cur.bettingHistory,
                                                    BetResult(cur.currentBet, w.amount > cur.currentBet, now)));
      var settled := if newChips > 0 then shown.(gameStatus := Betting, message := PlaceBetMessage)
                     else shown.(message := GameOverMessage);
      Some(DealerTurnStates(shown, settled))
  }

  /** The round ends in betting exactly when chips are left after settlement. */
  lemma DealerTurnNextPhase(cur: GameState, now: Timestamp)
    requires HandleDealerTurn(cur, now).Some?
    ensures var t := HandleDealerTurn(cur, now).value.settled;
            (t.gameStatus == Betting <==> t.chips > 0) && (t.gameStatus == Finished <==> t.chips <= 0)
  {
  }

  /** With no blackjack flags a player natural is paid as an ordinary win
      against a dealer who stands below 21. */
  lemma HookPaysNaturalAsWin(cur: GameState, now: Timestamp)
    requires HandleDealerTurn(cur, now).Some?
    requires cur.playerHand.score == 21 && |cur.playerHand.cards| == 2
    requires DealerLoop(cur.dealerHand, cur.deck, 1).value.dealerHand.score < 21
    requires !DealerLoop(cur.dealerHand, cur.deck, 1).value.dealerHand.isBusted
    ensures HandleDealerTurn(cur, now).value.shown.chips == cur.chips + 2 * cur.currentBet
  {
  }

  /** handleStand: nothing outside the playing phase; otherwise the dealer's
      turn from the current state. */
  function HandleStand(s: GameState, now: Timestamp): (r: Option<DealerTurnStates>)
    ensures s.gameStatus != Playing ==> r == Some(DealerTurnStates(s, s))
    ensures s.gameStatus == Playing ==> r == HandleDealerTurn(s, now)
    ensures r.None? <==> s.gameStatus == Playing && DealerLoop(s.dealerHand, s.deck, 1).None?
    ensures s.gameStatus == Playing && r.Some? ==>
              && r.value.settled.currentBet == 0
              && (r.value.settled.gameStatus == Betting <==> r.value.settled.chips > 0)
  {
    if s.gameStatus != Playing then Some(DealerTurnStates(s, s)) else HandleDealerTurn(s, now)
  }

  /** The refusal test of handleDoubleDown (fewer than two cards allowed). */
  predicate DoubleDownRefused(s: GameState)
  {
    s.gameStatus != Playing || s.chips < s.currentBet || |s.playerHand.cards| > 2
  }

  /** The state after the doubled stake and the extra card, before any dealer play. */
  function DoubledState(s: GameState): (r: GameState)
    requires |s.deck| > 0
    ensures r.chips == s.chips - s.currentBet && r.currentBet == 2 * s.currentBet
    ensures r.playerHand.cards == s.playerHand.cards + [s.deck[|s.deck| - 1]] && ScoredHand(r.playerHand)
    ensures r.deck == s.deck[..|s.deck| - 1]
    ensures r.chips + r.currentBet == s.chips + s.currentBet
    ensures ChangedKeys(s, r) <= {DeckKey, PlayerHandKey, ChipsKey, CurrentBetKey}
  {
    var cards := s.playerHand.cards + [s.deck[|s.deck| - 1]];
    s.(deck := s.deck[..|s.deck| - 1], playerHand := Hand(cards, HandScore(cards), HandScore(cards) > 21),
       chips := s.chips - s.currentBet, currentBet := s.currentBet * 2)
  }

  /** handleDoubleDown: refused as above; otherwise double the stake and draw
      one card. A bust finishes the round and logs the doubled stake as lost
      while leaving it as the current bet; otherwise the dealer plays from
      the doubled state. */
  function HandleDoubleDown(s: GameState, now: Timestamp): (r: Option<DealerTurnStates>)
    ensures DoubleDownRefused(s) ==> r == Some(DealerTurnStates(s, s))
    ensures !DoubleDownRefused(s) && |s.deck| == 0 ==> r.None?
    ensures !DoubleDownRefused(s) && |s.deck| > 0 && DoubledState(s).playerHand.isBusted ==>
              var t := DoubledState(s);
              && r.Some? && r.value.shown == r.value.settled
              && r.value.settled.gameStatus == Finished && r.value.settled.message == PlayerBustMessage
              && r.value.settled.playerHand == t.playerHand && r.value.settled.deck == t.deck
              && r.value.settled.currentBet == 2 * s.currentBet
              && r.value.settled.chips == s.chips - s.currentBet
              && r.value.settled.bettingHistory
                 == RecordBet(s.bettingHistory, BetResult(2 * s.currentBet, false, now))
              && ChangedKeys(s, r.value.settled) <= {DeckKey, PlayerHandKey, ChipsKey, CurrentBetKey, GameStatusKey,
                                                     MessageKey, BettingHistoryKey}
    ensures !DoubleDownRefused(s) && |s.deck| > 0 && !DoubledState(s).playerHand.isBusted ==>
              r == HandleDealerTurn(DoubledState(s), now)
  {
    if DoubleDownRefused(s) then Some(DealerTurnStates(s, s))
    else if |s.deck| == 0 then None
    else
      var t := DoubledState(s);
      if t.playerHand.isBusted then
        var b := t.(gameStatus := Finished, message := PlayerBustMessage,
                    bettingHistory := RecordBet(s.bettingHistory, BetResult(t.currentBet, false, now)));
        Some(DealerTurnStates(b, b))
      else HandleDealerTurn(t, now)
  }

  /** A bust on a double down leaves a stake on the table after the round has
      finished: the holdings still count the doubled stake. */
  lemma DoubleDownBustKeepsStake(s: GameState, now: Timestamp)
    requires !DoubleDownRefused(s) && |s.deck| > 0 && DoubledState(s).playerHand.isBusted
    ensures var t := HandleDoubleDown(s, now).value.settled;
            t.gameStatus == Finished && t.chips + t.currentBet == s.chips + s.currentBet
  {
  }

  /** canDoubleDown (hook version): no positive-stake requirement. */
  predicate CanDoubleDown(s: GameState)
  {
    s.gameStatus == Playing && |s.playerHand.cards| == 2 && s.chips >= s.currentBet
  }

  /** Whenever the hook offers a double down, its handler accepts it. */
  lemma OfferedDoubleDownAccepted(s: GameState)
    ensures CanDoubleDown(s) ==> !DoubleDownRefused(s)
    ensures !DoubleDownRefused(s) && !CanDoubleDown(s) ==> |s.playerHand.cards| < 2
  {
  }
}
