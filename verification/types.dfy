/** Shared data model of the blackjack game: cards, hands, bet records, phases,
    messages and the full game state that the slices and the hook operate on. */
module Types {

  datatype Option<+T> = None | Some(value: T)

  datatype Suit = Hearts | Diamonds | Clubs | Spades

  /** The face printed on a card: a pip rank (2-10), a court card or an ace.
      The source keeps this as a string; only `face === 'A'` is ever inspected. */
  datatype Face = Pip(rank: int) | Jack | Queen | King | Ace

  /** A card; `value` is the numeric value the deck assigns (documented as 1-10). */
  datatype Card = Card(suit: Suit, value: nat, face: Face)

  /** A hand stores its score and bust flag next to the cards; the game code
      keeps them in step with the cards, but the type does not force it. */
  datatype Hand = Hand(cards: seq<Card>, score: int, isBusted: bool)

  const EmptyHand: Hand := Hand([], 0, false)

  /** `new Date()` values are opaque to the game logic. */
  type Timestamp = nat

  datatype BetResult = BetResult(amount: int, won: bool, timestamp: Timestamp)

  /** The five round phases. */
  datatype GameStatus = Betting | Dealing | Playing | DealerTurn | Finished

  /** A displayed message: a fixed text, or a text followed by " (Dealer: n)". */
  datatype Message = Text(text: string) | WithDealerScore(text: string, dealerScore: int)

  const PlaceBetMessage: Message := Text("Place your bet!")
  const DealingCardsMessage: Message := Text("Dealing cards...")
  const YourTurnMessage: Message := Text("Your turn!")
  const DealerTurnMessage: Message := Text("Dealer's turn...")
  const PlayerBustMessage: Message := Text("Bust! Dealer wins!")
  const PushMessage: Message := Text("Push!")
  const PlayerWinsMessage: Message := Text("You win!")
  const DealerWinsMessage: Message := Text("Dealer wins!")
  const DealerBlackjackMessage: Message := Text("Dealer Blackjack!")
  const BlackjackWinMessage: Message := Text("Blackjack! You win!")
  const DealerBustsMessage: Message := Text("Dealer busts!")
  const GameOverMessage: Message := Text("Game Over!")
  const DealErrorMessage: Message := Text("Error dealing cards. Try again.")

  datatype Stats = Stats(totalWins: int, totalLosses: int, totalPushes: int)

  function TotalGames(s: Stats): int
  {
    s.totalWins + s.totalLosses + s.totalPushes
  }

  /** The complete game state (player and dealer hands, deck, phase, ledger). */
  datatype GameState = GameState(
    playerHand: Hand,
    dealerHand: Hand,
    deck: seq<Card>,
    gameStatus: GameStatus,
    message: Message,
    chips: int,
    currentBet: int,
    previousBet: int,
    revealIndex: int,
    bettingHistory: seq<BetResult>,
    stats: Stats,
    nextGameStatus: Option<GameStatus>,
    nextMessage: Option<Message>,
    showConfetti: bool)

  /** The fields of the game state, for stating which of them an update touches. */
  datatype Key = PlayerHandKey | DealerHandKey | DeckKey | GameStatusKey | MessageKey | ChipsKey
               | CurrentBetKey | PreviousBetKey | RevealIndexKey | BettingHistoryKey | StatsKey
               | NextGameStatusKey | NextMessageKey | ShowConfettiKey

  const AllKeys: set<Key> := {PlayerHandKey, DealerHandKey, DeckKey, GameStatusKey, MessageKey, ChipsKey,
                              CurrentBetKey, PreviousBetKey, RevealIndexKey, BettingHistoryKey, StatsKey,
                              NextGameStatusKey, NextMessageKey, ShowConfettiKey}

  predicate KeyDiffers(a: GameState, b: GameState, k: Key)
  {
    match k
    case PlayerHandKey => a.playerHand != b.playerHand
    case DealerHandKey => a.dealerHand != b.dealerHand
    case DeckKey => a.deck != b.deck
    case GameStatusKey => a.gameStatus != b.gameStatus
    case MessageKey => a.message != b.message
    case ChipsKey => a.chips != b.chips
    case CurrentBetKey => a.currentBet != b.currentBet
    case PreviousBetKey => a.previousBet != b.previousBet
    case RevealIndexKey => a.revealIndex != b.revealIndex
    case BettingHistoryKey => a.bettingHistory != b.bettingHistory
    case StatsKey => a.stats != b.stats
    case NextGameStatusKey => a.nextGameStatus != b.nextGameStatus
    case NextMessageKey => a.nextMessage != b.nextMessage
    case ShowConfettiKey => a.showConfetti != b.showConfetti
  }

  /** The fields whose values differ between two game states. */
  function ChangedKeys(a: GameState, b: GameState): set<Key>
  {
    set k | k in AllKeys && KeyDiffers(a, b, k)
  }

  /** No field differs exactly when the states are equal. */
  lemma NoKeyChangedIffEqual(a: GameState, b: GameState)
    ensures ChangedKeys(a, b) == {} <==> a == b
  {
    if a != b {
      var k :=
        if a.playerHand != b.playerHand then PlayerHandKey
        else if a.dealerHand != b.dealerHand then DealerHandKey
        else if a.deck != b.deck then DeckKey
        else if a.gameStatus != b.gameStatus then GameStatusKey
        else if a.message != b.message then MessageKey
        else if a.chips != b.chips then ChipsKey
        else if a.currentBet != b.currentBet then CurrentBetKey
        else if a.previousBet != b.previousBet then PreviousBetKey
        else if a.revealIndex != b.revealIndex then RevealIndexKey
        else if a.bettingHistory != b.bettingHistory then BettingHistoryKey
        else if a.stats != b.stats then StatsKey
        else if a.nextGameStatus != b.nextGameStatus then NextGameStatusKey
        else if a.nextMessage != b.nextMessage then NextMessageKey
        else ShowConfettiKey;
      assert k in ChangedKeys(a, b);
    }
  }

  /** Number of betting results kept. */
  const HistoryLimit: nat := 5

  function Min(a: int, b: int): int
  {
    if a <= b then a else b
  }

  function Max(a: int, b: int): int
  {
    if a >= b then a else b
  }

  function Abs(a: int): (r: int)
    ensures r >= 0 && (r == a || r == -a)
  {
    if a >= 0 then a else -a
  }

  /** `[entry, ...history].slice(0, 5)`: the new entry goes first and the
      oldest entries beyond the limit are dropped. */
  function RecordBet(history: seq<BetResult>, entry: BetResult): (r: seq<BetResult>)
    ensures |r| == Min(|history| + 1, HistoryLimit)
    ensures r[0] == entry
    ensures r[1..] == history[..|r| - 1]
  {
    var full := [entry] + history;
    var kept := full[..Min(|full|, HistoryLimit)];
    assert kept[1..] == history[..|kept| - 1];
    kept
  }
}
