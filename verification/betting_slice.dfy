/** The betting slice: chips, the stake on the table, the last stake and the
    capped betting history. Each reducer is a pure state -> state function. */
module BettingSlice {
  import opened Types
  import BetUtils

  datatype BettingState = BettingState(chips: int, currentBet: int, previousBet: int,
                                       bettingHistory: seq<BetResult>)

  /** Chips in hand plus chips staked: what the player owns during a round. */
  function Holdings(s: BettingState): int
  {
    s.chips + s.currentBet
  }

  /** Neither the balance nor the stake is negative. */
  predicate Solvent(s: BettingState)
  {
    s.chips >= 0 && s.currentBet >= 0
  }

  predicate HistoryBounded(s: BettingState)
  {
    |s.bettingHistory| <= HistoryLimit
  }

  function InitialBettingState(): (r: BettingState)
    ensures Solvent(r) && HistoryBounded(r) && Holdings(r) == BetUtils.InitialChips
    ensures r.previousBet == 0 && r.bettingHistory == []
  {
    BettingState(BetUtils.InitialChips, 0, 0, [])
  }

  /** placeBet: move `amount` from chips to the stake when the chips cover it. */
  function PlaceBet(s: BettingState, amount: int): (r: BettingState)
    ensures Holdings(r) == Holdings(s)
    ensures r.previousBet == s.previousBet && r.bettingHistory == s.bettingHistory
    ensures s.chips >= amount ==> r.chips == s.chips - amount && r.currentBet == s.currentBet + amount
    ensures s.chips < amount ==> r == s
  {
    if s.chips >= amount then s.(chips := s.chips - amount, currentBet := s.currentBet + amount)
    else s
  }

  /** clearBet: refund the stake. */
  function ClearBet(s: BettingState): (r: BettingState)
    ensures Holdings(r) == Holdings(s)
    ensures r.currentBet == 0 && r.chips == Holdings(s)
    ensures r.previousBet == s.previousBet && r.bettingHistory == s.bettingHistory
  {
    s.(chips := s.chips + s.currentBet, currentBet := 0)
  }

  /** Clearing twice is clearing once. */
  lemma ClearBetIdempotent(s: BettingState)
    ensures ClearBet(ClearBet(s)) == ClearBet(s)
  {
  }

  /** setPreviousBet: only the remembered stake changes. */
  function SetPreviousBet(s: BettingState, amount: int): (r: BettingState)
    ensures r.previousBet == amount
    ensures r.chips == s.chips && r.currentBet == s.currentBet && r.bettingHistory == s.bettingHistory
  {
    s.(previousBet := amount)
  }

  /** addWinnings: only chips change, by the payload. */
  function AddWinnings(s: BettingState, amount: int): (r: BettingState)
    ensures Holdings(r) == Holdings(s) + amount
    ensures r.currentBet == s.currentBet && r.previousBet == s.previousBet
    ensures r.bettingHistory == s.bettingHistory
  {
    s.(chips := s.chips + amount)
  }

  /** finalizeBet: remember the stake, take it off the table, log the result
      newest first. The stake is not returned to chips. */
  function FinalizeBet(s: BettingState, entry: BetResult): (r: BettingState)
    ensures r.previousBet == s.currentBet && r.currentBet == 0 && r.chips == s.chips
    ensures r.bettingHistory == RecordBet(s.bettingHistory, entry)
    ensures HistoryBounded(r) && r.bettingHistory[0] == entry
  {
    s.(previousBet := s.currentBet, currentBet := 0,
       bettingHistory := RecordBet(s.bettingHistory, entry))
  }

  /** doubleDown: stake the same amount again when the chips cover it. */
  function DoubleDown(s: BettingState): (r: BettingState)
    ensures Holdings(r) == Holdings(s)
    ensures r.previousBet == s.previousBet && r.bettingHistory == s.bettingHistory
    ensures s.chips >= s.currentBet ==> r.currentBet == 2 * s.currentBet
    ensures s.chips < s.currentBet ==> r == s
  {
    if s.chips >= s.currentBet then s.(chips := s.chips - s.currentBet, currentBet := s.currentBet * 2)
    else s
  }

  /** resetBetting. */
  function ResetBetting(s: BettingState): (r: BettingState)
    ensures r.chips == BetUtils.InitialChips && r.currentBet == 0 && r.previousBet == 0
    ensures r.bettingHistory == []
  {
    BettingState(BetUtils.InitialChips, 0, 0, [])
  }

  /** Resetting from any state lands on the initial state. */
  lemma ResetIsInitial(s: BettingState)
    ensures ResetBetting(s) == InitialBettingState()
  {
  }

  /** placePreviousBet: stake previousBet * multiplier when the last stake was
      positive and the chips cover it. The stake is SET, not added to. */
  function PlacePreviousBet(s: BettingState, multiplier: int): (r: BettingState)
    ensures var amount := s.previousBet * multiplier;
            (s.chips >= amount && s.previousBet > 0) ==> r.chips == s.chips - amount && r.currentBet == amount
    ensures !(s.chips >= s.previousBet * multiplier && s.previousBet > 0) ==> r == s
    ensures r.previousBet == s.previousBet && r.bettingHistory == s.bettingHistory
  {
    var amount := s.previousBet * multiplier;
    if s.chips >= amount && s.previousBet > 0 then s.(chips := s.chips - amount, currentBet := amount)
    else s
  }

  /** A stake already on the table is lost when placePreviousBet applies: the
      holdings drop by it. */
  lemma PlacePreviousBetDiscardsStake(s: BettingState, multiplier: int)
    requires s.previousBet > 0 && s.chips >= s.previousBet * multiplier
    ensures Holdings(PlacePreviousBet(s, multiplier)) == Holdings(s) - s.currentBet
  {
  }

  /** The reducers, as actions carrying their payloads. */
  datatype Action =
    | PlaceBetAction(amount: int)
    | ClearBetAction
    | SetPreviousBetAction(previous: int)
    | AddWinningsAction(winnings: int)
    | FinalizeBetAction(entry: BetResult)
    | DoubleDownAction
    | ResetBettingAction
    | PlacePreviousBetAction(multiplier: int)

  function Reduce(s: BettingState, a: Action): BettingState
  {
    match a
    case PlaceBetAction(amount) => PlaceBet(s, amount)
    case ClearBetAction => ClearBet(s)
    case SetPreviousBetAction(p) => SetPreviousBet(s, p)
    case AddWinningsAction(w) => AddWinnings(s, w)
    case FinalizeBetAction(e) => FinalizeBet(s, e)
    case DoubleDownAction => DoubleDown(s)
    case ResetBettingAction => ResetBetting(s)
    case PlacePreviousBetAction(m) => PlacePreviousBet(s, m)
  }

  function ReduceAll(s: BettingState, actions: seq<Action>): BettingState
    decreases |actions|
  {
    if |actions| == 0 then s else ReduceAll(Reduce(s, actions[0]), actions[1..])
  }

  /** No payload is negative. */
  predicate NonNegativePayload(a: Action)
  {
    match a
    case PlaceBetAction(amount) => amount >= 0
    case AddWinningsAction(w) => w >= 0
    case PlacePreviousBetAction(m) => m >= 0
    case _ => true
  }

  /** One reducer with a non-negative payload keeps the balance and stake
      non-negative and the history within its cap. */
  lemma ReducePreservesSolvency(s: BettingState, a: Action)
    requires Solvent(s) && HistoryBounded(s) && NonNegativePayload(a)
    ensures Solvent(Reduce(s, a)) && HistoryBounded(Reduce(s, a))
  {
    if a.PlacePreviousBetAction? && s.previousBet > 0 {
      assert s.previousBet * a.multiplier >= 0;
    }
  }

  /** Any run of reducers with non-negative payloads keeps the balance and
      stake non-negative and the history within its cap. */
  lemma {:induction false} ReduceAllPreservesSolvency(s: BettingState, actions: seq<Action>)
    requires Solvent(s) && HistoryBounded(s)
    requires forall i :: 0 <= i < |actions| ==> NonNegativePayload(actions[i])
    ensures Solvent(ReduceAll(s, actions)) && HistoryBounded(ReduceAll(s, actions))
    decreases |actions|
  {
    if |actions| > 0 {
      ReducePreservesSolvency(s, actions[0]);
      ReduceAllPreservesSolvency(Reduce(s, actions[0]), actions[1..]);
    }
  }

  /** Moving chips between balance and stake never changes the holdings, so
      only addWinnings, finalizeBet, resetBetting and placePreviousBet can. */
  lemma TransfersConserveHoldings(s: BettingState, a: Action)
    requires a.PlaceBetAction? || a.ClearBetAction? || a.DoubleDownAction? || a.SetPreviousBetAction?
    ensures Holdings(Reduce(s, a)) == Holdings(s)
  {
  }
}
