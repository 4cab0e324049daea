/** The dealer helpers: the stand threshold and the initial dealer hand. */
module DealerUtils {
  import opened Types
  import opened DeckUtils

  const DealerStandThreshold: int := 17

  /** shouldDealerHit: draw below 17, stand on every 17 (soft ones included). */
  predicate ShouldDealerHit(score: int)
  {
    score < DealerStandThreshold
  }

  /** The dealer stands exactly from 17 up, and the thunk's `score <= 16` test is the same rule. */
  lemma ShouldDealerHitThreshold(score: int)
    ensures ShouldDealerHit(score) <==> score <= 16
    ensures !ShouldDealerHit(17)
  {
  }

  /** getInitialDealerState: same cards, the score recomputed from them (the
      incoming score field is ignored), and the bust flag cleared. */
  function GetInitialDealerState(hand: Hand): (r: Hand)
    ensures r.cards == hand.cards
    ensures r.score == NonAceSum(hand.cards) + AceCount(hand.cards) + (if IsSoft(hand.cards) then 10 else 0)
    ensures !r.isBusted
  {
    HandScoreClosedForm(hand.cards);
    Hand(hand.cards, HandScore(hand.cards), false)
  }

  /** For a dealt two-card hand of standard cards the cleared bust flag is right. */
  lemma InitialDealerStateScored(hand: Hand)
    requires |hand.cards| == 2 && StandardHand(hand.cards)
    ensures ScoredHand(GetInitialDealerState(hand))
    ensures GetInitialDealerState(hand).score <= 21
  {
    assert hand.cards == [hand.cards[0], hand.cards[1]];
    TwoCardScoreAtMost21(hand.cards[0], hand.cards[1]);
  }

  /** The unit test: K, 7 scores 17 whatever score the input carried. */
  lemma ExampleInitialDealerState()
    ensures GetInitialDealerState(Hand([Card(Hearts, 10, King), Card(Clubs, 7, Pip(7))], 0, false)).score == 17
  {
    var cards := [Card(Hearts, 10, King), Card(Clubs, 7, Pip(7))];
    PairTotals(cards[0], cards[1]);
    assert cards == [cards[0], cards[1]];
  }
}
