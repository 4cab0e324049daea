/** GameFlowService: round settlement, the end-of-round state, the
    hit-soft-17 dealer rule and the bet / double-down guards. */
module GameFlowService {
  import opened Types
  import opened DeckUtils

  datatype ResultKind = Win | Loss | Push | Blackjack | Bust

  datatype GameResult = GameResult(kind: ResultKind, playerScore: int, dealerScore: int,
                                   winnings: int, message: string)

  /** Amount credited for each outcome, counting the returned stake. A natural
      pays the stake plus floor(1.5 * bet). */
  function Payoff(kind: ResultKind, bet: int): int
  {
    match kind
    case Win => 2 * bet
    case Blackjack => bet + (3 * bet) / 2
    case Push => bet
    case Loss => 0
    case Bust => 0
  }

  /** A natural, judged on the STORED score: 21 with exactly two cards. */
  predicate IsNatural(h: Hand)
  {
    h.score == 21 && |h.cards| == 2
  }

  /** determineGameResult. The checks run in this order: player bust, dealer bust,
      both naturals, player natural, dealer natural, then score comparison. The
      contract characterises each outcome on its own, independent of that order. */
  function DetermineGameResult(player: Hand, dealer: Hand, bet: int): (r: GameResult)
    ensures r.playerScore == player.score && r.dealerScore == dealer.score
    ensures r.winnings == Payoff(r.kind, bet)
    ensures r.kind == Bust <==> player.isBusted
    ensures r.kind == Win <==>
              !player.isBusted && (dealer.isBusted ||
                (!IsNatural(player) && !IsNatural(dealer) && player.score > dealer.score))
    ensures r.kind == Blackjack <==>
              !player.isBusted && !dealer.isBusted && IsNatural(player) && !IsNatural(dealer)
    ensures r.kind == Push <==>
              !player.isBusted && !dealer.isBusted && IsNatural(player) == IsNatural(dealer)
                && player.score == dealer.score
    ensures r.kind == Loss <==>
              !player.isBusted && !dealer.isBusted && !IsNatural(player)
                && (IsNatural(dealer) || player.score < dealer.score)
    ensures r.kind == Loss ==> (r.message == DealerBlackjackMessage.text <==> IsNatural(dealer))
  {
    var ps := player.score;
    var ds := dealer.score;
    if player.isBusted then GameResult(Bust, ps, ds, 0, PlayerBustMessage.text)
    else if dealer.isBusted then GameResult(Win, ps, ds, bet * 2, PlayerWinsMessage.text)
    else if IsNatural(player) && IsNatural(dealer) then GameResult(Push, ps, ds, bet, PushMessage.text)
    else if IsNatural(player) then GameResult(Blackjack, ps, ds, bet + (3 * bet) / 2, BlackjackWinMessage.text)
    else if IsNatural(dealer) then GameResult(Loss, ps, ds, 0, DealerBlackjackMessage.text)
    else if ps > ds then GameResult(Win, ps, ds, bet * 2, PlayerWinsMessage.text)
    else if ds > ps then GameResult(Loss, ps, ds, 0, DealerWinsMessage.text)
    else GameResult(Push, ps, ds, bet, PushMessage.text)
  }

  /** For a positive bet, an outcome in the player's favour always returns more
      than the stake, a push exactly the stake, and a loss nothing. */
  lemma PayoffAgainstStake(kind: ResultKind, bet: int)
    requires bet > 0
    ensures Payoff(kind, bet) > bet <==> kind == Win || kind == Blackjack
    ensures Payoff(kind, bet) == bet <==> kind == Push
    ensures Payoff(kind, bet) == 0 <==> kind == Loss || kind == Bust
  {
  }

  /** What buildGameEndState returns. */
  datatype GameEndState = GameEndState(
    gameStatus: GameStatus,
    message: Message,
    chips: int,
    currentBet: int,
    bettingHistory: seq<BetResult>,
    stats: Stats,
    showConfetti: bool,
    nextGameStatus: Option<GameStatus>,
    nextMessage: Option<Message>)

  /** buildGameEndState: settle the round against the current stake. `now` is
      the timestamp the source reads from the clock. */
  function BuildGameEndState(state: GameState, result: GameResult, now: Timestamp): (r: GameEndState)
    ensures r.gameStatus == Finished
    ensures r.message == WithDealerScore(result.message, result.dealerScore)
    ensures r.chips == state.chips + result.winnings
    ensures r.currentBet == 0
    ensures r.showConfetti <==> result.winnings > state.currentBet
    ensures r.bettingHistory == RecordBet(state.bettingHistory, BetResult(state.currentBet, r.showConfetti, now))
    ensures TotalGames(r.stats) == TotalGames(state.stats) + 1
    ensures r.stats.totalWins >= state.stats.totalWins
    ensures r.stats.totalPushes >= state.stats.totalPushes
    ensures r.stats.totalLosses >= state.stats.totalLosses
    ensures r.stats.totalWins > state.stats.totalWins <==> r.showConfetti
    ensures r.stats.totalPushes > state.stats.totalPushes <==> result.winnings == state.currentBet
    ensures r.nextGameStatus == Some(Betting) && r.nextMessage == Some(PlaceBetMessage)
  {
    var bet := state.currentBet;
    var won := result.winnings > bet;
    var s := state.stats;
    var stats :=
      if won then s.(totalWins := s.totalWins + 1)
      else if result.winnings == bet then s.(totalPushes := s.totalPushes + 1)
      else s.(totalLosses := s.totalLosses + 1);
    GameEndState(Finished, WithDealerScore(result.message, result.dealerScore),
                 state.chips + result.winnings, 0,
                 RecordBet(state.bettingHistory, BetResult(bet, won, now)),
                 stats, won, Some(Betting), Some(PlaceBetMessage))
  }

  /** Settling a positive stake with determineGameResult bumps the win tally
      exactly for wins and naturals, the push tally exactly for pushes, and the
      loss tally exactly for losses and busts. */
  lemma EndStateTallies(state: GameState, player: Hand, dealer: Hand, now: Timestamp)
    requires state.currentBet > 0
    ensures var res := DetermineGameResult(player, dealer, state.currentBet);
            var e := BuildGameEndState(state, res, now);
            && (e.stats.totalWins > state.stats.totalWins <==> res.kind in {Win, Blackjack})
            && (e.stats.totalPushes > state.stats.totalPushes <==> res.kind == Push)
            && (e.stats.totalLosses > state.stats.totalLosses <==> res.kind in {Loss, Bust})
  {
    var res := DetermineGameResult(player, dealer, state.currentBet);
    PayoffAgainstStake(res.kind, state.currentBet);
  }

  /** A zero stake settles every round as a push in the tallies: nothing can
      exceed it and every outcome pays at least it. */
  lemma ZeroStakeTalliesPush(state: GameState, player: Hand, dealer: Hand, now: Timestamp)
    requires state.currentBet == 0
    ensures var e := BuildGameEndState(state, DetermineGameResult(player, dealer, 0), now);
            e.stats.totalPushes == state.stats.totalPushes + 1 && !e.showConfetti
  {
  }

  // ----- the hit-soft-17 dealer rule -----

  /** isSoftSeventeen's counting pass: a card whose value is 1 is tallied as an
      ace and counts 11; any other card counts min(value, 10). */
  function ElevenTotal(cards: seq<Card>): int
  {
    if |cards| == 0 then 0
    else (if cards[0].value == 1 then 11 else Min(cards[0].value, 10)) + ElevenTotal(cards[1..])
  }

  function ValueOneCount(cards: seq<Card>): nat
  {
    if |cards| == 0 then 0
    else (if cards[0].value == 1 then 1 else 0) + ValueOneCount(cards[1..])
  }

  datatype Softened = Softened(total: int, aces: nat)

  /** isSoftSeventeen's adjustment loop: while over 21 with an ace still
      counted as 11, count it as 1 instead. */
  function Soften(total: int, aces: nat): (r: Softened)
    ensures r.aces <= aces && r.total == total - 10 * (aces - r.aces)
    ensures r.total > 21 ==> r.aces == 0
    decreases aces
  {
    if total > 21 && aces > 0 then Soften(total - 10, aces - 1) else Softened(total, aces)
  }

  /** isSoftSeventeen: the stored score is 17 and, after adjustment, 17 is
      reached with an ace still counted as 11. */
  predicate IsSoftSeventeen(h: Hand)
  {
    h.score == 17 &&
    var s := Soften(ElevenTotal(h.cards), ValueOneCount(h.cards));
    s.total == 17 && s.aces > 0
  }

  /** shouldDealerHit (service version): draw below 17 and on a soft 17. */
  predicate ShouldDealerHit(h: Hand)
  {
    h.score < 17 || (h.score == 17 && IsSoftSeventeen(h))
  }

  /** On standard cards the counting pass counts every ace as 11 and every other card at its value. */
  lemma {:induction false} StandardElevenTotal(cards: seq<Card>)
    requires StandardHand(cards)
    ensures ElevenTotal(cards) == NonAceSum(cards) + 11 * AceCount(cards)
    ensures ValueOneCount(cards) == AceCount(cards)
  {
    if |cards| > 0 {
      assert StandardHand(cards[1..]) by {
        forall i | 0 <= i < |cards[1..]| ensures StandardCard(cards[1..][i]) {
          assert cards[1..][i] == cards[i + 1];
        }
      }
      StandardElevenTotal(cards[1..]);
      assert StandardCard(cards[0]);
    }
  }

  /** The adjustment loop from a total of b + 10m with m aces still counted as 11
      ends at 17 with an ace left exactly when there is an ace and b is 7. */
  lemma {:induction false} SoftenSeventeen(b: int, m: nat)
    requires b >= 0
    ensures var s := Soften(b + 10 * m, m); (s.total == 17 && s.aces > 0) <==> (m >= 1 && b == 7)
    decreases m
  {
    if m > 0 && b + 10 * m > 21 {
      SoftenSeventeen(b, m - 1);
      assert b + 10 * (m - 1) == b + 10 * m - 10;
    }
  }

  /** On a hand of standard cards whose stored score is its greedy score, the
      service's soft-17 test is exactly "scores 17 with an ace counted as 11". */
  lemma SoftSeventeenMeansSoft(h: Hand)
    requires StandardHand(h.cards) && h.score == HandScore(h.cards)
    ensures IsSoftSeventeen(h) <==> h.score == 17 && IsSoft(h.cards)
  {
    StandardElevenTotal(h.cards);
    HandScoreClosedForm(h.cards);
    var n, a := NonAceSum(h.cards), AceCount(h.cards);
    SoftenSeventeen(n + a, a);
    assert n + a + 10 * a == n + 11 * a;
  }

  /** The service rule and the utility rule (`score < 17`) agree except on a soft 17,
      where only the service draws. */
  lemma DealerRulesDifferOnlyOnSoftSeventeen(h: Hand)
    requires StandardHand(h.cards) && h.score == HandScore(h.cards)
    ensures ShouldDealerHit(h) <==> h.score < 17 || (h.score == 17 && IsSoft(h.cards))
  {
    SoftSeventeenMeansSoft(h);
  }

  /** The soft-17 test looks for value 1, so an ace carrying value 11 is not
      recognised: ace(11) with a 6 stores 17 yet is not a soft 17. */
  lemma ElevenValuedAceNotSoft()
    ensures !IsSoftSeventeen(Hand([Card(Hearts, 11, Ace), Card(Clubs, 6, Pip(6))], 17, false))
  {
    var cards := [Card(Hearts, 11, Ace), Card(Clubs, 6, Pip(6))];
    assert ElevenTotal(cards) == 16 by {
      assert cards[1..][1..] == [];
    }
    assert ValueOneCount(cards) == 0 by {
      assert cards[1..][1..] == [];
    }
  }

  // ----- guards -----

  /** validateBet: the chips cover the addition and the resulting stake is positive. */
  predicate ValidateBet(chips: int, currentBet: int, additionalBet: int)
  {
    chips >= additionalBet && currentBet + additionalBet > 0
  }

  /** canDoubleDown (service version): two cards, chips covering the stake, a positive stake. */
  predicate CanDoubleDown(h: Hand, chips: int, currentBet: int)
  {
    |h.cards| == 2 && chips >= currentBet && currentBet > 0
  }
}
