/** calculateWinnings, the payout rule used by the dealer-turn code paths,
    and the initial chip balance. */
module BetUtils {
  import opened Types

  /** Chips a new session starts with. */
  const InitialChips: int := 5000

  /** What calculateWinnings returns: the settlement text and the amount credited. */
  datatype Winnings = Winnings(message: string, amount: int)

  /** calculateWinnings. `Math.floor(bet * 2.5)` is written `(5 * bet) / 2`:
      for a divisor of 2, Dafny's division rounds down, as floor does. The
      dealer-blackjack flag is checked first, then the player-blackjack flag,
      then a dealer bust or a higher player score, then a tie. */
  function CalculateWinnings(dealerScore: int, playerScore: int, currentBet: int,
                             dealerBusted: bool, isBlackjack: bool, isDealerBlackjack: bool): (r: Winnings)
    ensures isDealerBlackjack ==> r == Winnings(DealerBlackjackMessage.text, 0)
    ensures !isDealerBlackjack && isBlackjack ==> r == Winnings(BlackjackWinMessage.text, (5 * currentBet) / 2)
    ensures !isDealerBlackjack && !isBlackjack && (dealerBusted || playerScore > dealerScore) ==>
              r == Winnings(PlayerWinsMessage.text, 2 * currentBet)
    ensures !isDealerBlackjack && !isBlackjack && !dealerBusted && playerScore == dealerScore ==>
              r == Winnings(PushMessage.text, currentBet)
    ensures !isDealerBlackjack && !isBlackjack && !dealerBusted && playerScore < dealerScore ==>
              r == Winnings(DealerWinsMessage.text, 0)
  {
    if isDealerBlackjack then Winnings(DealerBlackjackMessage.text, 0)
    else if isBlackjack then Winnings(BlackjackWinMessage.text, (5 * currentBet) / 2)
    else if dealerBusted || playerScore > dealerScore then Winnings(PlayerWinsMessage.text, currentBet * 2)
    else if playerScore == dealerScore then Winnings(PushMessage.text, currentBet)
    else Winnings(DealerWinsMessage.text, 0)
  }

  /** The amount is always one of 0, the bet, twice the bet, or the 2.5x blackjack payout. */
  lemma WinningsRange(dealerScore: int, playerScore: int, bet: int, dealerBusted: bool, bj: bool, dealerBj: bool)
    ensures CalculateWinnings(dealerScore, playerScore, bet, dealerBusted, bj, dealerBj).amount
              in {0, bet, 2 * bet, (5 * bet) / 2}
  {
  }

  /** floor(2.5 * bet) equals bet + floor(1.5 * bet) for every integer bet. */
  lemma BlackjackPayoutSplit(bet: int)
    ensures (5 * bet) / 2 == bet + (3 * bet) / 2
  {
  }

  /** With no blackjack flags and a standing dealer, a better player score never pays less. */
  lemma WinningsMonotoneInPlayerScore(dealerScore: int, p1: int, p2: int, bet: int)
    requires p1 <= p2 && bet >= 0
    ensures CalculateWinnings(dealerScore, p1, bet, false, false, false).amount
              <= CalculateWinnings(dealerScore, p2, bet, false, false, false).amount
  {
  }

  /** The function never looks at a player bust: a busted player score still
      collects twice the bet when the dealer busted too. */
  lemma PlayerBustNotInspected(bet: int)
    ensures CalculateWinnings(22, 25, bet, true, false, false).amount == 2 * bet
  {
  }

  /** The settlements the unit tests expect for a bet of 100. */
  lemma ExampleSettlements()
    ensures CalculateWinnings(18, 20, 100, false, false, false) == Winnings("You win!", 200)
    ensures CalculateWinnings(20, 18, 100, false, false, false) == Winnings("Dealer wins!", 0)
    ensures CalculateWinnings(20, 20, 100, false, false, false) == Winnings("Push!", 100)
    ensures CalculateWinnings(22, 20, 100, true, false, false).amount == 200
    ensures CalculateWinnings(0, 21, 100, false, true, false).amount == 250
  {
  }
}
