/** The decision logic of the async thunks: what each one computes from the
    state it reads, as the payload the slices receive. */
module GameThunks {
  import opened Types
  import opened DeckUtils
  import BetUtils

  /** How a thunk settles: fulfilled with a payload or with null, or rejected
      (the source throws when it scores a card popped from an empty deck). */
  datatype ThunkResult<+P> = Fulfilled(payload: Option<P>) | Rejected

  const MinCardsBeforeShuffle: nat := 10

  /** needsNewDeck. */
  predicate NeedsNewDeck(deck: seq<Card>)
  {
    |deck| < MinCardsBeforeShuffle
  }

  /** A hand whose score and bust flag are computed from its cards. */
  function Scored(cards: seq<Card>): (h: Hand)
    ensures h.cards == cards && ScoredHand(h)
  {
    Hand(cards, HandScore(cards), HandScore(cards) > 21)
  }

  /** The top k cards of a deck in the order `pop` removes them. */
  function DrawTop(deck: seq<Card>, k: nat): (r: seq<Card>)
    requires k <= |deck|
    ensures |r| == k && forall i :: 0 <= i < k ==> r[i] == deck[|deck| - 1 - i]
  {
    seq(k, i requires 0 <= i < k => deck[|deck| - 1 - i])
  }

  // ----- startNewHand -----

  datatype DealPayload = DealPayload(currentDeck: seq<Card>, playerCards: seq<Card>,
                                     dealerCards: seq<Card>, previousBet: int)

  /** The deal itself: two cards popped for the player, then two for the dealer. */
  function DealFrom(d: seq<Card>, bet: int): (p: DealPayload)
    requires |d| >= 4
    ensures |p.playerCards| == 2 && |p.dealerCards| == 2
    ensures p.playerCards == DrawTop(d, 2) && p.dealerCards == DrawTop(d[..|d| - 2], 2)
    ensures p.currentDeck + [p.dealerCards[1], p.dealerCards[0], p.playerCards[1], p.playerCards[0]] == d
    ensures p.previousBet == bet
  {
    var n := |d|;
    DealPayload(d[..n - 4], [d[n - 1], d[n - 2]], [d[n - 3], d[n - 4]], bet)
  }

  /** The four dealt cards and the remaining deck are a rearrangement of the deck dealt from. */
  lemma DealFromIsPermutation(d: seq<Card>, bet: int)
    requires |d| >= 4
    ensures var p := DealFrom(d, bet);
            multiset(p.currentDeck + p.playerCards + p.dealerCards) == multiset(d)
  {
    var n := |d|;
    var front := d[..n - 4];
    var w, x, y, z := d[n - 4], d[n - 3], d[n - 2], d[n - 1];
    assert d == front + [w, x, y, z];
    var p := DealFrom(d, bet);
    assert p.currentDeck + p.playerCards + p.dealerCards == front + [z, y, x, w];
    calc {
      multiset(front + [z, y, x, w]);
      multiset(front) + multiset([z, y, x, w]);
      { assert multiset([z, y, x, w]) == multiset{w, x, y, z}; }
      multiset(front) + multiset([w, x, y, z]);
      multiset(front + [w, x, y, z]);
    }
  }

  /** startNewHand: null without a stake; otherwise the player takes the top
      two cards and the dealer the next two (not alternating), and the stake
      is remembered as the previous bet. */
  function StartNewHand(state: GameState, choose: nat -> nat): (r: ThunkResult<DealPayload>)
    ensures r.Fulfilled?
    ensures r.payload.None? <==> state.currentBet == 0
    ensures r.payload.Some? ==>
              var p := r.payload.value;
              var d := Replenished(state.deck, MinCardsBeforeShuffle, choose);
              && |p.playerCards| == 2 && |p.dealerCards| == 2
              && p.playerCards == DrawTop(d, 2)
              && p.dealerCards == DrawTop(d[..|d| - 2], 2)
              && p.currentDeck + [p.dealerCards[1], p.dealerCards[0], p.playerCards[1], p.playerCards[0]] == d
              && |p.currentDeck| == |d| - 4
              && multiset(p.currentDeck + p.playerCards + p.dealerCards) == multiset(d)
              && p.previousBet == state.currentBet
  {
    if state.currentBet == 0 then Fulfilled(None)
    else
      var d := Replenished(state.deck, MinCardsBeforeShuffle, choose);
      DealFromIsPermutation(d, state.currentBet);
      Fulfilled(Some(DealFrom(d, state.currentBet)))
  }

  // ----- handleDealerTurn -----

  datatype DealerDraw = DealerDraw(draws: seq<Hand>, deck: seq<Card>)

  /** The draw loop of handleDealerTurn: while the recomputed score is at most
      16, pop a card onto the hand and record the scored hand. None when the
      deck runs out first (the source then scores an undefined card and throws). */
  function DealerDraws(cards: seq<Card>, deck: seq<Card>): (r: Option<DealerDraw>)
    ensures r.Some? ==> |r.value.draws| <= |deck| && r.value.deck == deck[..|deck| - |r.value.draws|]
    decreases |deck|
  {
    if HandScore(cards) > 16 then Some(DealerDraw([], deck))
    else if |deck| == 0 then None
    else
      var top := deck[|deck| - 1];
      match DealerDraws(cards + [top], deck[..|deck| - 1])
      case None => None
      case Some(d) => Some(DealerDraw([Scored(cards + [top])] + d.draws, d.deck))
  }

  /** Drawing k + 1 cards is drawing the top card and then k from the rest. */
  lemma DrawTopStep(cards: seq<Card>, deck: seq<Card>, k: nat)
    requires 0 < |deck| && k + 1 <= |deck|
    ensures cards + DrawTop(deck, k + 1) == (cards + [deck[|deck| - 1]]) + DrawTop(deck[..|deck| - 1], k)
  {
    var lhs := cards + DrawTop(deck, k + 1);
    var rhs := (cards + [deck[|deck| - 1]]) + DrawTop(deck[..|deck| - 1], k);
    assert |lhs| == |rhs|;
    forall i | 0 <= i < |lhs| ensures lhs[i] == rhs[i] {
      if i > |cards| {
        assert rhs[i] == DrawTop(deck[..|deck| - 1], k)[i - |cards| - 1];
      }
    }
  }

  /** The dealer loop stops at the first number of draws whose hand scores
      more than 16; every recorded hand is the start plus the cards popped so
      far, scored; and it fails only if no number of draws reaches 17. */
  lemma {:induction false} DealerDrawsStopRule(cards: seq<Card>, deck: seq<Card>)
    ensures var r := DealerDraws(cards, deck);
            r.Some? ==>
              var n := |r.value.draws|;
              && (forall i :: 0 <= i < n ==> r.value.draws[i] == Scored(cards + DrawTop(deck, i + 1)))
              && (forall k :: 0 <= k < n ==> HandScore(cards + DrawTop(deck, k)) <= 16)
              && HandScore(cards + DrawTop(deck, n)) > 16
    ensures DealerDraws(cards, deck).None? ==>
              forall k :: 0 <= k <= |deck| ==> HandScore(cards + DrawTop(deck, k)) <= 16
    decreases |deck|
  {
    assert cards + DrawTop(deck, 0) == cards;
    if HandScore(cards) <= 16 && |deck| > 0 {
      var top, rest := deck[|deck| - 1], deck[..|deck| - 1];
      DealerDrawsStopRule(cards + [top], rest);
      forall k | 0 <= k < |deck|
        ensures cards + DrawTop(deck, k + 1) == (cards + [top]) + DrawTop(rest, k)
      {
        DrawTopStep(cards, deck, k);
      }
      var r := DealerDraws(cards, deck);
      if r.Some? {
        var d := DealerDraws(cards + [top], rest).value;
        assert r.value.draws == [Scored(cards + [top])] + d.draws;
        forall k | 0 <= k < |r.value.draws| ensures HandScore(cards + DrawTop(deck, k)) <= 16 {
          if k > 0 {
            assert cards + DrawTop(deck, k) == (cards + [top]) + DrawTop(rest, k - 1);
          }
        }
        assert cards + DrawTop(deck, 1) == cards + [top] by {
          assert cards + DrawTop(deck, 1) == (cards + [top]) + DrawTop(rest, 0);
        }
      } else {
        forall k | 0 <= k <= |deck| ensures HandScore(cards + DrawTop(deck, k)) <= 16 {
          if k > 0 {
            assert cards + DrawTop(deck, k) == (cards + [top]) + DrawTop(rest, k - 1);
          }
        }
      }
    }
  }

  datatype DealerTurnPayload = DealerTurnPayload(dealerResults: seq<Hand>, currentDeck: seq<Card>,
                                                 winnings: BetUtils.Winnings, isBusted: bool, finalScore: int)

  /** handleDealerTurn: the starting hand (score recomputed, bust flag false),
      then one recorded hand per draw; settlement through calculateWinnings
      with the final score and no blackjack flags. */
  function HandleDealerTurn(state: GameState): (r: ThunkResult<DealerTurnPayload>)
    ensures r.Rejected? <==> DealerDraws(state.dealerHand.cards, state.deck).None?
    ensures r.Fulfilled? ==> r.payload.Some?
    ensures r.Fulfilled? ==>
              var p := r.payload.value;
              var cards := state.dealerHand.cards;
              |p.dealerResults| >= 1 &&
              var last := p.dealerResults[|p.dealerResults| - 1];
              && p.dealerResults[0] == Hand(cards, HandScore(cards), false)
              && |p.dealerResults| - 1 + |p.currentDeck| == |state.deck|
              && last.cards == cards + DrawTop(state.deck, |p.dealerResults| - 1)
              && p.finalScore == HandScore(last.cards) && p.finalScore >= 17
              && p.isBusted == (p.finalScore > 21)
              && p.winnings == BetUtils.CalculateWinnings(p.finalScore, state.playerHand.score,
                                                          state.currentBet, p.isBusted, false, false)
  {
    var cards := state.dealerHand.cards;
    var start := Hand(cards, HandScore(cards), false);
    match DealerDraws(cards, state.deck)
    case None => Rejected
    case Some(d) =>
      DealerDrawsStopRule(cards, state.deck);
      assert cards + DrawTop(state.deck, 0) == cards;
      var results := [start] + d.draws;
      var finalScore := HandScore(results[|results| - 1].cards);
      var isBusted := finalScore > 21;
      Fulfilled(Some(DealerTurnPayload(results, d.deck,
        BetUtils.CalculateWinnings(finalScore, state.playerHand.score, state.currentBet, isBusted, false, false),
        isBusted, finalScore)))
  }

  /** Every recorded hand after the first carries its own score and a bust
      flag that agrees with it, and holds exactly one card more than the one before. */
  lemma DealerResultsScored(state: GameState)
    requires HandleDealerTurn(state).Fulfilled?
    ensures var rs := HandleDealerTurn(state).payload.value.dealerResults;
            && (forall i :: 1 <= i < |rs| ==> ScoredHand(rs[i]))
            && (forall i :: 1 <= i < |rs| ==> |rs[i].cards| == |rs[i - 1].cards| + 1
                                              && rs[i].cards[..|rs[i - 1].cards|] == rs[i - 1].cards)
  {
    var cards := state.dealerHand.cards;
    DealerDrawsStopRule(cards, state.deck);
    var rs := HandleDealerTurn(state).payload.value.dealerResults;
    forall i | 1 <= i < |rs|
      ensures |rs[i].cards| == |rs[i - 1].cards| + 1 && rs[i].cards[..|rs[i - 1].cards|] == rs[i - 1].cards
    {
      assert rs[i].cards == cards + DrawTop(state.deck, i);
      assert rs[i - 1].cards == cards + DrawTop(state.deck, i - 1);
      assert DrawTop(state.deck, i)[..i - 1] == DrawTop(state.deck, i - 1);
      assert (cards + DrawTop(state.deck, i))[..|cards| + i - 1] == cards + DrawTop(state.deck, i)[..i - 1];
    }
  }

  /** With no blackjack flags a player natural against a standing dealer below
      21 is paid as an ordinary win, twice the stake. */
  lemma DealerTurnPaysNaturalAsWin(state: GameState)
    requires HandleDealerTurn(state).Fulfilled?
    requires state.playerHand.score == 21 && |state.playerHand.cards| == 2
    requires HandleDealerTurn(state).payload.value.finalScore < 21
    ensures HandleDealerTurn(state).payload.value.winnings.amount == 2 * state.currentBet
  {
  }

  // ----- placePreviousBet -----

  /** The guard of placePreviousBet: null when there is no previous stake, the
      chips do not cover it, or a stake is already down. */
  predicate PreviousBetRefused(state: GameState)
  {
    state.previousBet == 0 || state.chips < state.previousBet || state.currentBet > 0
  }

  /** The state after dispatching placeBet(previousBet), which applies only in
      the betting phase (the guard has checked the chips). */
  function StakePreviousBet(state: GameState): (r: GameState)
    requires !PreviousBetRefused(state)
    ensures state.gameStatus == Betting ==> r.chips == state.chips - state.previousBet
    ensures state.gameStatus != Betting ==> r == state
    ensures state.gameStatus == Betting ==> r.currentBet == state.currentBet + state.previousBet
    ensures r.chips + r.currentBet == state.chips + state.currentBet
  {
    if state.gameStatus == Betting
    then state.(chips := state.chips - state.previousBet, currentBet := state.currentBet + state.previousBet)
    else state
  }

  /** placePreviousBet: refused by the guard, or stake the previous bet and run
      startNewHand on the resulting state. Outside the betting phase nothing is
      staked, so startNewHand returns null. */
  function PlacePreviousBet(state: GameState, choose: nat -> nat): (r: ThunkResult<DealPayload>)
    ensures r.Fulfilled?
    ensures PreviousBetRefused(state) ==> r.payload.None?
    ensures state.currentBet == 0 ==>
              (r.payload.Some? <==> !PreviousBetRefused(state) && state.gameStatus == Betting)
    ensures state.currentBet == 0 && r.payload.Some? ==> r.payload.value.previousBet == state.previousBet
  {
    if PreviousBetRefused(state) then Fulfilled(None)
    else StartNewHand(StakePreviousBet(state), choose)
  }

  // ----- handleHit and handleDoubleDown -----

  datatype HitPayload = HitPayload(newDeck: seq<Card>, newCards: seq<Card>, score: int, isBusted: bool)

  /** handleHit: null outside the playing phase; otherwise the top card moves
      from the deck onto the player's cards. */
  function HandleHit(state: GameState): (r: ThunkResult<HitPayload>)
    ensures r.Fulfilled? && r.payload.None? <==> state.gameStatus != Playing
    ensures r.Rejected? <==> state.gameStatus == Playing && |state.deck| == 0
    ensures r.Fulfilled? && r.payload.Some? ==>
              var p := r.payload.value;
              && |p.newCards| == |state.playerHand.cards| + 1
              && p.newCards == state.playerHand.cards + [p.newCards[|p.newCards| - 1]]
              && p.newDeck + [p.newCards[|p.newCards| - 1]] == state.deck
              && p.score == HandScore(p.newCards) && p.isBusted == (p.score > 21)
  {
    if state.gameStatus != Playing then Fulfilled(None)
    else if |state.deck| == 0 then Rejected
    else
      var newCards := state.playerHand.cards + [state.deck[|state.deck| - 1]];
      var score := HandScore(newCards);
      assert state.deck[..|state.deck| - 1] + [newCards[|newCards| - 1]] == state.deck;
      Fulfilled(Some(HitPayload(state.deck[..|state.deck| - 1], newCards, score, score > 21)))
  }

  datatype DoubleDownPayload = DoubleDownPayload(newDeck: seq<Card>, newCards: seq<Card>, score: int,
                                                 isBusted: bool, newBet: int, additionalBet: int)

  /** The refusal test of handleDoubleDown. It allows fewer than two cards and
      does not ask for a positive stake. */
  predicate DoubleDownRefused(state: GameState)
  {
    state.gameStatus != Playing || state.chips < state.currentBet || |state.playerHand.cards| > 2
  }

  /** handleDoubleDown: refused as above; otherwise the stake doubles and
      exactly one card is drawn. */
  function HandleDoubleDown(state: GameState): (r: ThunkResult<DoubleDownPayload>)
    ensures r.Fulfilled? && r.payload.None? <==> DoubleDownRefused(state)
    ensures r.Rejected? <==> !DoubleDownRefused(state) && |state.deck| == 0
    ensures r.Fulfilled? && r.payload.Some? ==>
              var p := r.payload.value;
              |p.newCards| == |state.playerHand.cards| + 1 &&
              p.newBet == 2 * state.currentBet && p.additionalBet == state.currentBet &&
              p.newCards == state.playerHand.cards + [p.newCards[|p.newCards| - 1]] &&
              p.newDeck + [p.newCards[|p.newCards| - 1]] == state.deck &&
              p.score == HandScore(p.newCards) && p.isBusted == (p.score > 21)
  {
    if DoubleDownRefused(state) then Fulfilled(None)
    else if |state.deck| == 0 then Rejected
    else
      var newCards := state.playerHand.cards + [state.deck[|state.deck| - 1]];
      var score := HandScore(newCards);
      assert state.deck[..|state.deck| - 1] + [newCards[|newCards| - 1]] == state.deck;
      Fulfilled(Some(DoubleDownPayload(state.deck[..|state.deck| - 1], newCards, score, score > 21,
                                       state.currentBet * 2, state.currentBet)))
  }
}
