/** The store selectors: phase tests and the action guards the UI reads. */
module Selectors {
  import opened Types
  import GameThunks
  import GameSlice

  /** selectCanDoubleDown: playing, exactly two cards, chips covering the stake. */
  predicate SelectCanDoubleDown(s: GameState)
  {
    s.gameStatus == Playing && |s.playerHand.cards| == 2 && s.chips >= s.currentBet
  }

  /** Whenever the selector offers a double down, the thunk accepts it. */
  lemma OfferedDoubleDownNotRefused(s: GameState)
    requires SelectCanDoubleDown(s)
    ensures !GameThunks.DoubleDownRefused(s)
    ensures |s.deck| > 0 ==> GameThunks.HandleDoubleDown(s).payload.Some?
  {
  }

  /** selectDisplayedCardCount: the number of cards left in the deck. */
  function SelectDisplayedCardCount(s: GameState): (n: nat)
    ensures n == |s.deck|
  {
    |s.deck|
  }

  /** A hit through the thunk and the slice lowers the displayed count by one. */
  lemma HitLowersDisplayedCount(s: GameState, now: Timestamp)
    requires GameThunks.HandleHit(s).Fulfilled? && GameThunks.HandleHit(s).payload.Some?
    ensures SelectDisplayedCardCount(GameSlice.HandleHitFulfilled(s, GameThunks.HandleHit(s).payload, now))
            == SelectDisplayedCardCount(s) - 1
  {
  }

  predicate SelectCanBet(s: GameState) { s.gameStatus == Betting }

  predicate SelectIsPlaying(s: GameState) { s.gameStatus == Playing }

  predicate SelectIsDealerTurn(s: GameState) { s.gameStatus == DealerTurn }

  predicate SelectIsFinished(s: GameState) { s.gameStatus == Finished }

  /** Number of phase selectors that hold. */
  function PhaseCount(s: GameState): nat
  {
    (if SelectCanBet(s) then 1 else 0) + (if SelectIsPlaying(s) then 1 else 0)
    + (if SelectIsDealerTurn(s) then 1 else 0) + (if SelectIsFinished(s) then 1 else 0)
  }

  /** The phase selectors exclude each other, and none holds only while dealing. */
  lemma PhaseSelectorsExclusive(s: GameState)
    ensures PhaseCount(s) <= 1
    ensures PhaseCount(s) == 0 <==> s.gameStatus == Dealing
  {
  }

  /** selectCanDealCards: betting with a positive stake. */
  predicate SelectCanDealCards(s: GameState)
  {
    s.gameStatus == Betting && s.currentBet > 0
  }

  /** When dealing is offered, the startNewHand thunk deals; in the betting
      phase with a non-negative stake the two agree exactly. */
  lemma CanDealCardsMeansThunkDeals(s: GameState, choose: nat -> nat)
    ensures SelectCanDealCards(s) ==> GameThunks.StartNewHand(s, choose).payload.Some?
    ensures s.gameStatus == Betting && s.currentBet >= 0 ==>
              (SelectCanDealCards(s) <==> GameThunks.StartNewHand(s, choose).payload.Some?)
  {
  }
}
