/** The statistics slice: result tallies, net winnings, biggest win and the
    win / loss streak bookkeeping. */
module StatisticsSlice {
  import opened Types

  datatype StatisticsState = StatisticsState(
    totalWins: int,
    totalLosses: int,
    totalPushes: int,
    totalHands: int,
    totalWinnings: int,
    biggestWin: int,
    currentStreak: int,
    longestWinStreak: int,
    longestLossStreak: int)

  /** GameResultType. */
  datatype Outcome = Won | Lost | Pushed

  /** The payload of recordGameResult. */
  datatype Record = Record(result: Outcome, amount: int, winnings: int)

  function InitialStatistics(): StatisticsState
  {
    StatisticsState(0, 0, 0, 0, 0, 0, 0, 0, 0)
  }

  /** The three tallies add up to the number of hands. */
  predicate TalliesMatchHands(s: StatisticsState)
  {
    s.totalWins + s.totalLosses + s.totalPushes == s.totalHands
  }

  /** The longest runs bound the current run: a winning streak by the longest
      win streak, a losing streak (stored negative) by the longest loss streak. */
  predicate StreakBounds(s: StatisticsState)
  {
    s.longestWinStreak >= Max(s.currentStreak, 0) && s.longestLossStreak >= Max(-s.currentStreak, 0)
  }

  /** recordGameResult. */
  function RecordGameResult(s: StatisticsState, rec: Record): (r: StatisticsState)
    ensures r.totalHands == s.totalHands + 1
    ensures r.totalWins == s.totalWins + (if rec.result == Won then 1 else 0)
    ensures r.totalLosses == s.totalLosses + (if rec.result == Lost then 1 else 0)
    ensures r.totalPushes == s.totalPushes + (if rec.result == Pushed then 1 else 0)
    ensures r.totalWinnings == s.totalWinnings + rec.winnings - rec.amount
    ensures r.biggestWin == Max(s.biggestWin, rec.winnings)
    ensures rec.result == Won ==> r.currentStreak == (if s.currentStreak >= 0 then s.currentStreak + 1 else 1)
    ensures rec.result == Lost ==> r.currentStreak == (if s.currentStreak <= 0 then s.currentStreak - 1 else -1)
    ensures rec.result == Pushed ==> r.currentStreak == 0
    ensures TalliesMatchHands(s) ==> TalliesMatchHands(r)
    ensures StreakBounds(s) ==> StreakBounds(r)
  {
    var s1 := s.(totalHands := s.totalHands + 1,
                 totalWinnings := s.totalWinnings + (rec.winnings - rec.amount),
                 biggestWin := if rec.winnings > s.biggestWin then rec.winnings else s.biggestWin);
    match rec.result
    case Won =>
      var streak := if s1.currentStreak >= 0 then s1.currentStreak + 1 else 1;
      s1.(totalWins := s1.totalWins + 1, currentStreak := streak,
          longestWinStreak := if streak > s1.longestWinStreak then streak else s1.longestWinStreak)
    case Lost =>
      var streak := if s1.currentStreak <= 0 then s1.currentStreak - 1 else -1;
      s1.(totalLosses := s1.totalLosses + 1, currentStreak := streak,
          longestLossStreak := if Abs(streak) > s1.longestLossStreak then Abs(streak) else s1.longestLossStreak)
    case Pushed =>
      s1.(totalPushes := s1.totalPushes + 1, currentStreak := 0)
  }

  /** resetStatistics: every field back to its initial value. */
  function ResetStatistics(s: StatisticsState): (r: StatisticsState)
    ensures r.totalHands == 0 && r.totalWinnings == 0 && r.biggestWin == 0
    ensures TalliesMatchHands(r) && StreakBounds(r)
    ensures r.currentStreak == 0 && r.longestWinStreak == 0 && r.longestLossStreak == 0
    ensures r == InitialStatistics()
  {
    InitialStatistics()
  }

  /** updateWinStreak: set the streak and raise the longest win streak to it. */
  function UpdateWinStreak(s: StatisticsState, streak: int): (r: StatisticsState)
    ensures r.currentStreak == streak
    ensures r.longestWinStreak == Max(s.longestWinStreak, streak)
    ensures r.longestLossStreak == s.longestLossStreak && r.totalHands == s.totalHands
    ensures r.totalWins == s.totalWins && r.totalLosses == s.totalLosses && r.totalPushes == s.totalPushes
    ensures r.totalWinnings == s.totalWinnings && r.biggestWin == s.biggestWin
  {
    s.(currentStreak := streak,
       longestWinStreak := if streak > s.longestWinStreak then streak else s.longestWinStreak)
  }

  /** updateLossStreak: store the streak negated and raise the longest loss streak to its size. */
  function UpdateLossStreak(s: StatisticsState, streak: int): (r: StatisticsState)
    ensures r.currentStreak == -Abs(streak)
    ensures r.longestLossStreak == Max(s.longestLossStreak, Abs(streak))
    ensures r.longestWinStreak == s.longestWinStreak && r.totalHands == s.totalHands
    ensures r.totalWins == s.totalWins && r.totalLosses == s.totalLosses && r.totalPushes == s.totalPushes
    ensures r.totalWinnings == s.totalWinnings && r.biggestWin == s.biggestWin
  {
    s.(currentStreak := -Abs(streak),
       longestLossStreak := if Abs(streak) > s.longestLossStreak then Abs(streak) else s.longestLossStreak)
  }

  /** The loss-streak update keeps the streak bounds for any payload; the
      win-streak update only for a non-negative one. */
  lemma StreakUpdatesKeepBounds(s: StatisticsState, streak: int)
    requires StreakBounds(s)
    ensures StreakBounds(UpdateLossStreak(s, streak))
    ensures streak >= 0 ==> StreakBounds(UpdateWinStreak(s, streak))
  {
  }

  /** A negative payload to updateWinStreak stores a losing streak the longest
      loss streak does not cover. */
  lemma NegativeWinStreakBreaksBounds()
    ensures !StreakBounds(UpdateWinStreak(InitialStatistics(), -3))
  {
  }

  // ----- a session of recorded results -----

  /** The statistics after recording `rs` in order, starting from `s`. */
  function RecordAll(s: StatisticsState, rs: seq<Record>): StatisticsState
    decreases |rs|
  {
    if |rs| == 0 then s else RecordGameResult(RecordAll(s, rs[..|rs| - 1]), rs[|rs| - 1])
  }

  /** Number of consecutive results equal to `o` at the end of `rs`. */
  function TrailingRun(rs: seq<Record>, o: Outcome): nat
    decreases |rs|
  {
    if |rs| == 0 || rs[|rs| - 1].result != o then 0 else TrailingRun(rs[..|rs| - 1], o) + 1
  }

  /** The longest run of consecutive results equal to `o` anywhere in `rs`. */
  function LongestRun(rs: seq<Record>, o: Outcome): nat
    decreases |rs|
  {
    if |rs| == 0 then 0 else Max(LongestRun(rs[..|rs| - 1], o), TrailingRun(rs, o))
  }

  /** Recorded from the initial state, the statistics describe the session:
      the tallies add up, the current streak is the trailing run of wins (or
      minus the trailing run of losses), and the longest streaks are the
      longest runs of wins and of losses. */
  lemma {:induction false} RecordAllDescribesSession(rs: seq<Record>)
    ensures var st := RecordAll(InitialStatistics(), rs);
            && TalliesMatchHands(st) && st.totalHands == |rs|
            && st.currentStreak == TrailingRun(rs, Won) - TrailingRun(rs, Lost)
            && st.longestWinStreak == LongestRun(rs, Won)
            && st.longestLossStreak == LongestRun(rs, Lost)
    decreases |rs|
  {
    if |rs| > 0 {
      var prefix, x := rs[..|rs| - 1], rs[|rs| - 1];
      RecordAllDescribesSession(prefix);
      TrailingRunsExclusive(prefix);
      var before := RecordAll(InitialStatistics(), prefix);
      assert RecordAll(InitialStatistics(), rs) == RecordGameResult(before, x);
      RecordStep(before, x, TrailingRun(prefix, Won), TrailingRun(prefix, Lost),
                 LongestRun(prefix, Won), LongestRun(prefix, Lost));
    }
  }

  /** One recorded result moves the streak fields the way the run counts move. */
  lemma RecordStep(s: StatisticsState, x: Record, wins: nat, losses: nat, longestWins: nat, longestLosses: nat)
    requires wins == 0 || losses == 0
    requires s.currentStreak == wins - losses
    requires s.longestWinStreak == longestWins && s.longestLossStreak == longestLosses
    ensures var r := RecordGameResult(s, x);
            var w := if x.result == Won then wins + 1 else 0;
            var l := if x.result == Lost then losses + 1 else 0;
            && r.currentStreak == w - l
            && r.longestWinStreak == Max(longestWins, w)
            && r.longestLossStreak == Max(longestLosses, l)
  {
  }

  /** A sequence cannot end in both a win and a loss. */
  lemma TrailingRunsExclusive(rs: seq<Record>)
    ensures TrailingRun(rs, Won) == 0 || TrailingRun(rs, Lost) == 0
  {
  }
}
