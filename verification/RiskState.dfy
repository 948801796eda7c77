/** The latency bot's risk state as a function of what happened (LatencyRiskManager): daily and session figures, losing
    streak and its pause, oracle divergence. Dates are day numbers, times milliseconds; both are inputs. */
module RiskState {
  import opened Common

  datatype Config = Config(
    maxDailyLoss: real, maxSessionDrawdown: real, divergenceLimit: real, divergenceDurationMs: int,
    maxConsecutiveLosses: int, streakPauseMs: int)

  datatype Risk = Risk(
    totalWindows: int, windowsTraded: int, windowsSkipped: int, wins: int, losses: int, totalTrades: int,
    totalProfit: real, totalLoss: real, sessionPnl: real, dailyProfit: real, dailyVolume: real, dailyDate: int,
    consecutiveLosses: int, divergenceEvents: int, pauseUntil: int, divergenceStart: int, divergenceActive: bool)

  /** What the risk manager is told: an oracle comparison, a trading check that gets as far as the date, a settled window. */
  datatype Event =
    | Check(over: bool, first: int, second: int)
    | Query(today: int, at: int)
    | Settled(today: int, at: int, trades: nat, gross: real, volume: real)

  // The step functions, as the methods of the source compute them

  function DailyReset(r: Risk, today: int): Risk {
    if r.dailyDate == today then r
    else r.(dailyProfit := 0.0, dailyVolume := 0.0, dailyDate := today, pauseUntil := 0, consecutiveLosses := 0)
  }

  function CheckDivergence(cfg: Config, r: Risk, over: bool, first: int, second: int): Risk {
    if over then
      var start := if r.divergenceStart == 0 then first else r.divergenceStart;
      if second - start >= cfg.divergenceDurationMs && !r.divergenceActive then
        r.(divergenceStart := start, divergenceActive := true, divergenceEvents := r.divergenceEvents + 1)
      else r.(divergenceStart := start)
    else r.(divergenceActive := false, divergenceStart := 0)
  }

  function RecordTraded(cfg: Config, r: Risk, e: Event): Risk
    requires e.Settled?
  {
    var counted := r.(windowsTraded := r.windowsTraded + 1, totalTrades := r.totalTrades + e.trades,
                      dailyVolume := r.dailyVolume + e.volume, totalWindows := r.totalWindows + 1,
                      dailyProfit := r.dailyProfit + e.gross, sessionPnl := r.sessionPnl + e.gross);
    if e.gross >= 0.0 then
      counted.(wins := r.wins + 1, totalProfit := r.totalProfit + e.gross, consecutiveLosses := 0)
    else
      var streak := r.consecutiveLosses + 1;
      counted.(losses := r.losses + 1, totalLoss := r.totalLoss - e.gross, consecutiveLosses := streak,
               pauseUntil := if streak >= cfg.maxConsecutiveLosses then e.at + cfg.streakPauseMs else r.pauseUntil)
  }

  function RecordSettled(cfg: Config, r: Risk, e: Event): Risk
    requires e.Settled?
  {
    var today := DailyReset(r, e.today);
    if e.trades == 0 then today.(windowsSkipped := r.windowsSkipped + 1, totalWindows := r.totalWindows + 1)
    else RecordTraded(cfg, today, e)
  }

  function Apply(cfg: Config, r: Risk, e: Event): Risk {
    match e
    case Check(over, first, second) => CheckDivergence(cfg, r, over, first, second)
    case Query(today, _) => DailyReset(r, today)
    case Settled(_, _, _, _, _) => RecordSettled(cfg, r, e)
  }

  // Independent readings of a history of events

  function CurrentDay(firstDay: int, log: seq<Event>): int {
    if |log| == 0 then firstDay
    else if log[|log| - 1].Check? then CurrentDay(firstDay, log[..|log| - 1])
    else log[|log| - 1].today
  }

  function TimeOf(e: Event): int {
    if e.Check? then e.second else e.at
  }

  function LastTime(log: seq<Event>): int {
    if |log| == 0 then 0 else TimeOf(log[|log| - 1])
  }

  /** Neither the date nor the clock goes back; clock readings are positive. */
  ghost predicate Follows(firstDay: int, log: seq<Event>, e: Event) {
    && (if e.Check? then LastTime(log) <= e.first <= e.second && 0 < e.first else LastTime(log) <= e.at && 0 < e.at)
    && (!e.Check? ==> CurrentDay(firstDay, log) <= e.today)
  }

  ghost predicate History(firstDay: int, log: seq<Event>) {
    |log| > 0 ==>
      History(firstDay, log[..|log| - 1]) && Follows(firstDay, log[..|log| - 1], log[|log| - 1])
  }

  /** The traded windows of a day, oldest first. */
  function TradedOn(log: seq<Event>, day: int): seq<Event> {
    if |log| == 0 then []
    else
      var e := log[|log| - 1];
      TradedOn(log[..|log| - 1], day) + if e.Settled? && e.trades > 0 && e.today == day then [e] else []
  }

  function AllTraded(log: seq<Event>): seq<Event> {
    if |log| == 0 then []
    else
      var e := log[|log| - 1];
      AllTraded(log[..|log| - 1]) + if e.Settled? && e.trades > 0 then [e] else []
  }

  function Gross(s: seq<Event>): real
    requires forall i :: 0 <= i < |s| ==> s[i].Settled?
  {
    if |s| == 0 then 0.0 else Gross(s[..|s| - 1]) + s[|s| - 1].gross
  }

  function Volume(s: seq<Event>): real
    requires forall i :: 0 <= i < |s| ==> s[i].Settled?
  {
    if |s| == 0 then 0.0 else Volume(s[..|s| - 1]) + s[|s| - 1].volume
  }

  /** Windows that did not lose. */
  function Wins(s: seq<Event>): (n: nat)
    requires forall i :: 0 <= i < |s| ==> s[i].Settled?
    ensures n <= |s|
  {
    if |s| == 0 then 0 else Wins(s[..|s| - 1]) + if s[|s| - 1].gross >= 0.0 then 1 else 0
  }

  /** What the windows that did not lose brought in. */
  function Won(s: seq<Event>): real
    requires forall i :: 0 <= i < |s| ==> s[i].Settled?
  {
    if |s| == 0 then 0.0 else Won(s[..|s| - 1]) + if s[|s| - 1].gross >= 0.0 then s[|s| - 1].gross else 0.0
  }

  function Fills(s: seq<Event>): int
    requires forall i :: 0 <= i < |s| ==> s[i].Settled?
  {
    if |s| == 0 then 0 else Fills(s[..|s| - 1]) + s[|s| - 1].trades
  }

  /** Settled windows without a trade. */
  function Skipped(log: seq<Event>): nat {
    if |log| == 0 then 0
    else Skipped(log[..|log| - 1]) + if log[|log| - 1].Settled? && log[|log| - 1].trades == 0 then 1 else 0
  }

  /** Length of the losing run a sequence of windows ends with. */
  function TrailingLosses(s: seq<Event>): (n: nat)
    requires forall i :: 0 <= i < |s| ==> s[i].Settled?
    ensures n <= |s| && (forall i :: |s| - n <= i < |s| ==> s[i].gross < 0.0)
    ensures n < |s| ==> s[|s| - n - 1].gross >= 0.0
  {
    if |s| == 0 || s[|s| - 1].gross >= 0.0 then 0 else 1 + TrailingLosses(s[..|s| - 1])
  }

  lemma {:induction false} TradedAreSettled(log: seq<Event>, day: int)
    ensures forall i :: 0 <= i < |TradedOn(log, day)| ==>
                          TradedOn(log, day)[i].Settled? && TradedOn(log, day)[i].today == day && TradedOn(log, day)[i] in log
    ensures forall i :: 0 <= i < |AllTraded(log)| ==> AllTraded(log)[i].Settled?
  {
    if |log| > 0 {
      TradedAreSettled(log[..|log| - 1], day);
    }
  }

  ghost function DayProfit(log: seq<Event>, day: int): real {
    TradedAreSettled(log, day);
    Gross(TradedOn(log, day))
  }

  ghost function DayVolume(log: seq<Event>, day: int): real {
    TradedAreSettled(log, day);
    Volume(TradedOn(log, day))
  }

  /** All traded windows, in one record of readings. */
  datatype Totals = Totals(traded: nat, wins: nat, fills: int, profit: real, won: real)

  ghost function Overall(log: seq<Event>): Totals {
    TradedAreSettled(log, 0);
    var s := AllTraded(log);
    Totals(|s|, Wins(s), Fills(s), Gross(s), Won(s))
  }

  ghost function DayStreak(log: seq<Event>, day: int): nat {
    TradedAreSettled(log, day);
    TrailingLosses(TradedOn(log, day))
  }

  /** The streak counter: the losing run the current day's traded windows end with; on the first day it goes on from the
      count the bot started with, as long as every traded window lost. */
  ghost function Streak(start: Risk, log: seq<Event>): int {
    var day := CurrentDay(start.dailyDate, log);
    var run := DayStreak(log, day);
    if day == start.dailyDate && run == |TradedOn(log, day)| then start.consecutiveLosses + run else run
  }

  /** i is an over-limit check and no check since has been within the limit: i belongs to the current unbroken run. */
  ghost predicate InRun(log: seq<Event>, i: nat) {
    i < |log| && log[i].Check? && forall j :: i <= j < |log| && log[j].Check? ==> log[j].over
  }

  ghost predicate StartsRun(log: seq<Event>, i: nat) {
    InRun(log, i) && forall j: nat :: j < i ==> !InRun(log, j)
  }

  /** A window whose loss brought the streak to the configured length. */
  ghost predicate Triggers(cfg: Config, start: Risk, log: seq<Event>, i: nat) {
    i < |log| && log[i].Settled? && log[i].trades > 0 && log[i].gross < 0.0
    && Streak(start, log[..i + 1]) >= cfg.maxConsecutiveLosses
  }

  // The risk state explained by the history

  ghost predicate DivergenceExplained(cfg: Config, log: seq<Event>, r: Risk) {
    && (r.divergenceStart == 0 <==> forall i: nat :: !InRun(log, i))
    && (forall i: nat :: StartsRun(log, i) ==> r.divergenceStart == log[i].first)
    && (r.divergenceActive <==> Halted(cfg, log))
  }

  /** The current run has lasted the configured time: some check of it came that long after the one that started it. */
  ghost predicate Halted(cfg: Config, log: seq<Event>) {
    exists s: nat, k: nat ::
      StartsRun(log, s) && InRun(log, k) && log[k].second - log[s].first >= cfg.divergenceDurationMs
  }

  /** How often a halt began. */
  ghost function Halts(cfg: Config, log: seq<Event>): nat {
    if |log| == 0 then 0
    else Halts(cfg, log[..|log| - 1]) + if Halted(cfg, log) && !Halted(cfg, log[..|log| - 1]) then 1 else 0
  }

  ghost predicate DayExplained(start: Risk, log: seq<Event>, r: Risk) {
    var day := CurrentDay(start.dailyDate, log);
    && r.dailyDate == day
    && r.dailyProfit == DayProfit(log, day) + (if day == start.dailyDate then start.dailyProfit else 0.0)
    && r.dailyVolume == DayVolume(log, day) + (if day == start.dailyDate then start.dailyVolume else 0.0)
    && r.consecutiveLosses == Streak(start, log)
  }

  ghost predicate CountsExplained(start: Risk, log: seq<Event>, r: Risk) {
    var all := Overall(log);
    && r.windowsTraded == start.windowsTraded + all.traded
    && r.windowsSkipped == start.windowsSkipped + Skipped(log)
    && r.totalWindows == start.totalWindows + all.traded + Skipped(log)
    && r.wins == start.wins + all.wins && r.losses == start.losses + (all.traded - all.wins)
    && r.totalTrades == start.totalTrades + all.fills
    && r.sessionPnl == start.sessionPnl + all.profit
    && r.totalProfit == start.totalProfit + all.won && r.totalLoss == start.totalLoss + all.won - all.profit
  }

  ghost predicate PauseExplained(cfg: Config, start: Risk, log: seq<Event>, r: Risk) {
    var day := CurrentDay(start.dailyDate, log);
    && (forall i: nat :: Triggers(cfg, start, log, i) && log[i].today == day ==> log[i].at + cfg.streakPauseMs <= r.pauseUntil)
    && (r.pauseUntil == 0
        || exists i: nat :: Triggers(cfg, start, log, i) && log[i].today == day && r.pauseUntil == log[i].at + cfg.streakPauseMs)
  }

  ghost predicate Explained(cfg: Config, start: Risk, log: seq<Event>, r: Risk) {
    && History(start.dailyDate, log)
    && DivergenceExplained(cfg, log, r)
    && r.divergenceEvents == start.divergenceEvents + Halts(cfg, log)
    && DayExplained(start, log, r)
    && CountsExplained(start, log, r)
    && PauseExplained(cfg, start, log, r)
  }

  /** A state as a restart leaves it: no divergence seen, no pause. */
  ghost predicate Fresh(r: Risk) {
    r.divergenceStart == 0 && !r.divergenceActive && r.pauseUntil == 0
  }

  lemma FreshIsExplained(cfg: Config, start: Risk)
    requires Fresh(start)
    ensures Explained(cfg, start, [], start)
  {
  }

  // One event keeps the explanation

  lemma Dropped(log: seq<Event>, e: Event)
    ensures (log + [e])[..|log + [e]| - 1] == log && (log + [e])[|log + [e]| - 1] == e
  {
  }

  lemma RunGrows(log: seq<Event>, e: Event)
    ensures var more := log + [e];
            && (forall i: nat :: i < |log| ==> (InRun(more, i) <==> InRun(log, i) && (e.Check? ==> e.over)))
            && (InRun(more, |log|) <==> e.Check? && e.over)
            && (forall i: nat :: InRun(more, i) ==> i <= |log|)
  {
    var more := log + [e];
    assert more[|log|] == e;
    forall i: nat | i < |log|
      ensures InRun(more, i) <==> InRun(log, i) && (e.Check? ==> e.over)
    {
      assert more[i] == log[i];
      if InRun(log, i) && (e.Check? ==> e.over) {
        forall j | i <= j < |more| && more[j].Check?
          ensures more[j].over
        {
          if j < |log| {
            assert more[j] == log[j];
          }
        }
      }
      if InRun(more, i) {
        forall j | i <= j < |log| && log[j].Check?
          ensures log[j].over
        {
          assert more[j] == log[j];
        }
      }
    }
  }

  /** The first check of the current run exists whenever the run does. */
  lemma {:induction false} RunHasStart(log: seq<Event>, i: nat) returns (s: nat)
    requires InRun(log, i)
    ensures StartsRun(log, s) && s <= i
    decreases i
  {
    if j: nat :| j < i && InRun(log, j) {
      s := RunHasStart(log, j);
    } else {
      s := i;
    }
  }

  lemma {:induction false} TimesPositive(firstDay: int, log: seq<Event>, i: nat)
    requires History(firstDay, log) && i < |log|
    ensures log[i].Check? ==> 0 < log[i].first <= log[i].second
    ensures TimeOf(log[i]) <= LastTime(log)
    ensures !log[i].Check? ==> log[i].today <= CurrentDay(firstDay, log) && firstDay <= CurrentDay(firstDay, log)
    decreases |log|
  {
    var rest := log[..|log| - 1];
    if i < |rest| {
      TimesPositive(firstDay, rest, i);
      assert log[i] == rest[i];
    } else {
      DayNotBefore(firstDay, log);
    }
  }

  lemma {:induction false} DayNotBefore(firstDay: int, log: seq<Event>)
    requires History(firstDay, log)
    ensures firstDay <= CurrentDay(firstDay, log)
  {
    if |log| > 0 {
      DayNotBefore(firstDay, log[..|log| - 1]);
    }
  }

  /** An over-limit check goes on with the current run, or starts one. */
  lemma RunGoesOn(firstDay: int, log: seq<Event>, e: Event) returns (s: nat)
    requires History(firstDay, log) && Follows(firstDay, log, e) && e.Check? && e.over
    ensures StartsRun(log + [e], s) && forall t: nat :: StartsRun(log + [e], t) ==> t == s
    ensures 0 < (log + [e])[s].first
    ensures if s < |log| then StartsRun(log, s) else forall i: nat :: !InRun(log, i)
  {
    RunGrows(log, e);
    if i: nat :| InRun(log, i) {
      s := RunHasStart(log, i);
      TimesPositive(firstDay, log, s);
    } else {
      s := |log|;
    }
  }

  lemma OverCheckExplained(cfg: Config, firstDay: int, log: seq<Event>, r: Risk, e: Event)
    requires History(firstDay, log) && Follows(firstDay, log, e) && DivergenceExplained(cfg, log, r)
    requires e.Check? && e.over
    ensures DivergenceExplained(cfg, log + [e], Apply(cfg, r, e))
  {
    hide History, Follows;
    var more, next := log + [e], Apply(cfg, r, e);
    var s := RunGoesOn(firstDay, log, e);
    RunGrows(log, e);
    assert more[|log|] == e && InRun(more, |log|);
    assert next.divergenceStart == more[s].first;
    if r.divergenceActive {
      var t: nat, k: nat :| StartsRun(log, t) && InRun(log, k) && log[k].second - log[t].first >= cfg.divergenceDurationMs;
      assert StartsRun(more, s) && InRun(more, k) && more[k] == log[k] && more[s] == log[t];
      assert Halted(cfg, more);
    } else if Halted(cfg, more) {
      var t: nat, k: nat :| StartsRun(more, t) && InRun(more, k) && more[k].second - more[t].first >= cfg.divergenceDurationMs;
      assert t == s;
      assert k == |log|;
    }
  }

  lemma OtherEventExplained(cfg: Config, log: seq<Event>, r: Risk, next: Risk, e: Event)
    requires DivergenceExplained(cfg, log, r)
    requires !e.Check? && next.divergenceStart == r.divergenceStart && next.divergenceActive == r.divergenceActive
    ensures DivergenceExplained(cfg, log + [e], next)
  {
    var more := log + [e];
    RunGrows(log, e);
    forall i: nat
      ensures InRun(more, i) <==> InRun(log, i)
      ensures StartsRun(more, i) <==> StartsRun(log, i)
      ensures InRun(log, i) ==> more[i] == log[i]
    {
    }
  }

  lemma WithinLimitExplained(cfg: Config, log: seq<Event>, r: Risk, e: Event)
    requires e.Check? && !e.over
    ensures DivergenceExplained(cfg, log + [e], Apply(cfg, r, e))
  {
    RunGrows(log, e);
  }

  lemma DivergenceStep(cfg: Config, firstDay: int, log: seq<Event>, r: Risk, e: Event)
    requires History(firstDay, log) && Follows(firstDay, log, e) && DivergenceExplained(cfg, log, r)
    ensures DivergenceExplained(cfg, log + [e], Apply(cfg, r, e))
  {
    hide DivergenceExplained, History;
    if e.Check? && e.over {
      OverCheckExplained(cfg, firstDay, log, r, e);
    } else if e.Check? {
      WithinLimitExplained(cfg, log, r, e);
    } else {
      OtherEventExplained(cfg, log, r, Apply(cfg, r, e), e);
    }
  }

  lemma HaltsStep(cfg: Config, firstDay: int, start: Risk, log: seq<Event>, r: Risk, e: Event)
    requires History(firstDay, log) && Follows(firstDay, log, e) && DivergenceExplained(cfg, log, r)
    requires r.divergenceEvents == start.divergenceEvents + Halts(cfg, log)
    ensures Apply(cfg, r, e).divergenceEvents == start.divergenceEvents + Halts(cfg, log + [e])
  {
    hide History, Follows, Halted;
    Dropped(log, e);
    DivergenceStep(cfg, firstDay, log, r, e);
  }

  lemma {:induction false} NothingTradedOnLaterDay(firstDay: int, log: seq<Event>, day: int)
    requires History(firstDay, log) && CurrentDay(firstDay, log) < day
    ensures TradedOn(log, day) == []
  {
    if |log| > 0 {
      var rest := log[..|log| - 1];
      TimesPositive(firstDay, log, |log| - 1);
      NothingTradedOnLaterDay(firstDay, rest, day);
    }
  }

  lemma SettledSums(s: seq<Event>, e: Event)
    requires e.Settled? && forall i :: 0 <= i < |s| ==> s[i].Settled?
    ensures Gross(s + [e]) == Gross(s) + e.gross && Volume(s + [e]) == Volume(s) + e.volume
    ensures TrailingLosses(s + [e]) == if e.gross >= 0.0 then 0 else TrailingLosses(s) + 1
  {
    Dropped(s, e);
  }

  /** Moving to the date of an event, before anything is recorded. */
  lemma ResetExplained(start: Risk, log: seq<Event>, r: Risk, today: int)
    requires History(start.dailyDate, log) && DayExplained(start, log, r)
    requires CurrentDay(start.dailyDate, log) <= today
    ensures var t := DailyReset(r, today);
            && t.dailyDate == today
            && t.dailyProfit == DayProfit(log, today) + (if today == start.dailyDate then start.dailyProfit else 0.0)
            && t.dailyVolume == DayVolume(log, today) + (if today == start.dailyDate then start.dailyVolume else 0.0)
            && t.consecutiveLosses == (if today == start.dailyDate && DayStreak(log, today) == |TradedOn(log, today)|
                                       then start.consecutiveLosses else 0) + DayStreak(log, today)
  {
    DayNotBefore(start.dailyDate, log);
    if CurrentDay(start.dailyDate, log) < today {
      NothingTradedOnLaterDay(start.dailyDate, log, today);
    }
  }

  lemma TradedGrows(log: seq<Event>, e: Event, day: int)
    ensures TradedOn(log + [e], day) ==
            if e.Settled? && e.trades > 0 && e.today == day then TradedOn(log, day) + [e] else TradedOn(log, day)
    ensures AllTraded(log + [e]) == if e.Settled? && e.trades > 0 then AllTraded(log) + [e] else AllTraded(log)
  {
    Dropped(log, e);
    assert TradedOn(log, day) + [] == TradedOn(log, day) && AllTraded(log) + [] == AllTraded(log);
  }

  lemma DayGrows(firstDay: int, log: seq<Event>, e: Event)
    ensures CurrentDay(firstDay, log + [e]) == if e.Check? then CurrentDay(firstDay, log) else e.today
  {
    Dropped(log, e);
  }

  /** How the readings of the traded windows of a day change with one event. */
  lemma DayReadings(log: seq<Event>, e: Event, day: int)
    ensures var traded := e.Settled? && e.trades > 0 && e.today == day;
            && DayProfit(log + [e], day) == DayProfit(log, day) + (if traded then e.gross else 0.0)
            && DayVolume(log + [e], day) == DayVolume(log, day) + (if traded then e.volume else 0.0)
            && DayStreak(log + [e], day) ==
               (if !traded then DayStreak(log, day) else if e.gross >= 0.0 then 0 else DayStreak(log, day) + 1)
            && |TradedOn(log + [e], day)| == |TradedOn(log, day)| + (if traded then 1 else 0)
  {
    TradedGrows(log, e, day);
    TradedAreSettled(log, day);
    if e.Settled? {
      SettledSums(TradedOn(log, day), e);
    }
  }

  lemma DayStep(cfg: Config, start: Risk, log: seq<Event>, r: Risk, e: Event)
    requires History(start.dailyDate, log) && Follows(start.dailyDate, log, e) && DayExplained(start, log, r)
    ensures DayExplained(start, log + [e], Apply(cfg, r, e))
  {
    hide TradedOn, DayProfit, DayVolume, DayStreak;
    var day := CurrentDay(start.dailyDate, log + [e]);
    DayGrows(start.dailyDate, log, e);
    DayReadings(log, e, day);
    if !e.Check? {
      ResetExplained(start, log, r, e.today);
      StreakWithin(log, day);
    }
  }

  lemma StreakWithin(log: seq<Event>, day: int)
    ensures DayStreak(log, day) <= |TradedOn(log, day)|
  {
    TradedAreSettled(log, day);
  }

  lemma TotalsGrow(s: seq<Event>, e: Event)
    requires e.Settled? && forall i :: 0 <= i < |s| ==> s[i].Settled?
    ensures Wins(s + [e]) == Wins(s) + (if e.gross >= 0.0 then 1 else 0) && Fills(s + [e]) == Fills(s) + e.trades
    ensures Won(s + [e]) == Won(s) + (if e.gross >= 0.0 then e.gross else 0.0) && Gross(s + [e]) == Gross(s) + e.gross
  {
    Dropped(s, e);
  }

  lemma OverallGrows(log: seq<Event>, e: Event)
    ensures var a, b := Overall(log), Overall(log + [e]);
            b == if e.Settled? && e.trades > 0 then
                   Totals(a.traded + 1, a.wins + (if e.gross >= 0.0 then 1 else 0), a.fills + e.trades, a.profit + e.gross,
                          a.won + if e.gross >= 0.0 then e.gross else 0.0)
                 else a
    ensures Skipped(log + [e]) == Skipped(log) + if e.Settled? && e.trades == 0 then 1 else 0
  {
    hide AllTraded, Wins, Fills, Won, Gross;
    Dropped(log, e);
    TradedGrows(log, e, 0);
    TradedAreSettled(log, 0);
    if e.Settled? {
      TotalsGrow(AllTraded(log), e);
    }
  }

  lemma CountsStep(cfg: Config, start: Risk, log: seq<Event>, r: Risk, e: Event)
    requires CountsExplained(start, log, r)
    ensures CountsExplained(start, log + [e], Apply(cfg, r, e))
  {
    hide Overall, Skipped;
    OverallGrows(log, e);
  }

  lemma TriggersKept(cfg: Config, start: Risk, log: seq<Event>, e: Event, i: nat)
    requires i < |log|
    ensures (log + [e])[i] == log[i] && (Triggers(cfg, start, log + [e], i) <==> Triggers(cfg, start, log, i))
  {
    assert (log + [e])[..i + 1] == log[..i + 1];
  }

  lemma PauseStep(cfg: Config, start: Risk, log: seq<Event>, r: Risk, e: Event)
    requires History(start.dailyDate, log) && Follows(start.dailyDate, log, e)
    requires DayExplained(start, log, r) && PauseExplained(cfg, start, log, r)
    ensures PauseExplained(cfg, start, log + [e], Apply(cfg, r, e))
  {
    hide Apply, TradedOn, CurrentDay, Streak, History;
    var more, next := log + [e], Apply(cfg, r, e);
    var before, day := CurrentDay(start.dailyDate, log), CurrentDay(start.dailyDate, more);
    DayGrows(start.dailyDate, log, e);
    PauseEffect(cfg, start, log, r, e);
    assert more[|log|] == e;
    forall i: nat | Triggers(cfg, start, more, i) && more[i].today == day
      ensures more[i].at + cfg.streakPauseMs <= next.pauseUntil
    {
      if i < |log| {
        TriggersKept(cfg, start, log, e, i);
        TimesPositive(start.dailyDate, log, i);
      }
    }
    if next.pauseUntil != 0 && !Triggers(cfg, start, more, |log|) {
      var i: nat :| Triggers(cfg, start, log, i) && log[i].today == before && r.pauseUntil == log[i].at + cfg.streakPauseMs;
      TriggersKept(cfg, start, log, e, i);
    }
  }

  /** A triggering loss sets the pause, a later date clears it, anything else leaves it. */
  lemma PauseEffect(cfg: Config, start: Risk, log: seq<Event>, r: Risk, e: Event)
    requires History(start.dailyDate, log) && Follows(start.dailyDate, log, e) && DayExplained(start, log, r)
    ensures var next := Apply(cfg, r, e);
            next.pauseUntil == if Triggers(cfg, start, log + [e], |log|) then e.at + cfg.streakPauseMs
                               else if CurrentDay(start.dailyDate, log) != CurrentDay(start.dailyDate, log + [e]) then 0
                               else r.pauseUntil
  {
    hide Streak, History, TradedOn;
    var more := log + [e];
    DayStep(cfg, start, log, r, e);
    DayGrows(start.dailyDate, log, e);
    assert more[..|log| + 1] == more && more[|log|] == e;
  }

  lemma StepExplained(cfg: Config, start: Risk, log: seq<Event>, r: Risk, e: Event)
    requires Explained(cfg, start, log, r) && Follows(start.dailyDate, log, e)
    ensures Explained(cfg, start, log + [e], Apply(cfg, r, e))
  {
    hide DivergenceExplained, DayExplained, CountsExplained, PauseExplained, Apply;
    Dropped(log, e);
    DivergenceStep(cfg, start.dailyDate, log, r, e);
    HaltsStep(cfg, start.dailyDate, start, log, r, e);
    DayStep(cfg, start, log, r, e);
    CountsStep(cfg, start, log, r, e);
    PauseStep(cfg, start, log, r, e);
  }

  // Whole runs

  function Run(cfg: Config, start: Risk, log: seq<Event>): Risk {
    if |log| == 0 then start else Apply(cfg, Run(cfg, start, log[..|log| - 1]), log[|log| - 1])
  }

  lemma RunStep(cfg: Config, start: Risk, log: seq<Event>, e: Event)
    requires History(start.dailyDate, log) && Follows(start.dailyDate, log, e)
    ensures History(start.dailyDate, log + [e]) && Run(cfg, start, log + [e]) == Apply(cfg, Run(cfg, start, log), e)
  {
    Dropped(log, e);
  }

  /** Whatever happens, in an order the clock allows, the risk state is the function of the history that the definitions
      above read off it. */
  lemma {:induction false} RunExplained(cfg: Config, start: Risk, log: seq<Event>)
    requires Fresh(start) && History(start.dailyDate, log)
    ensures Explained(cfg, start, log, Run(cfg, start, log))
  {
    hide Explained, Fresh, Follows, Apply;
    if |log| == 0 {
      FreshIsExplained(cfg, start);
    } else {
      var rest, e := log[..|log| - 1], log[|log| - 1];
      RunExplained(cfg, start, rest);
      StepExplained(cfg, start, rest, Run(cfg, start, rest), e);
      assert rest + [e] == log;
    }
  }

  /** The streak counter is the losing run of today's traded windows exactly when no earlier count was carried in: it is
      not when the bot came up today with a count and every window traded since has lost. */
  lemma StreakIsTodaysRunIff(cfg: Config, start: Risk, log: seq<Event>)
    requires Fresh(start) && History(start.dailyDate, log)
    ensures var day := CurrentDay(start.dailyDate, log);
            Run(cfg, start, log).consecutiveLosses == DayStreak(log, day) <==>
            !(start.consecutiveLosses != 0 && day == start.dailyDate && DayStreak(log, day) == |TradedOn(log, day)|)
  {
    RunExplained(cfg, start, log);
  }

  // Starting up from stored figures

  /** A count of two losses from before the restart and one loss today make three. */
  lemma StreakExample(cfg: Config, start: Risk, e: Event)
    requires Fresh(start) && start.consecutiveLosses == 2
    requires e == Settled(start.dailyDate, 1, 1, -1.0, 1.0)
    ensures History(start.dailyDate, [e]) && Run(cfg, start, [e]).consecutiveLosses == 3
    ensures DayStreak([e], CurrentDay(start.dailyDate, [e])) == 1
  {
    RunStep(cfg, start, [], e);
    assert [] + [e] == [e];
    TradedGrows([], e, e.today);
    assert TradedOn([e], e.today) == [e];
    TradedAreSettled([e], e.today);
  }

  /** A pause is in force exactly when a window settled since the start, on the current date, triggered it and it is not over.
      A pause that was running before a restart is none. */
  lemma PausedIff(cfg: Config, start: Risk, log: seq<Event>, now: int)
    requires Fresh(start) && History(start.dailyDate, log) && now > 0
    ensures Run(cfg, start, log).pauseUntil > now <==>
            exists i: nat :: Triggers(cfg, start, log, i) && log[i].today == CurrentDay(start.dailyDate, log) &&
                             log[i].at + cfg.streakPauseMs > now
  {
    RunExplained(cfg, start, log);
    hide History, Run, Triggers, Halted, Streak, DayExplained, CountsExplained, DivergenceExplained;
  }

  /** What initialize makes of stored figures: the session starts at zero, and on a later day the daily figures do; the
      streak does not, although the daily reset of a running bot would clear it. */
  function Restored(stored: Risk, today: int): Risk {
    var r := stored.(sessionPnl := 0.0, pauseUntil := 0, divergenceStart := 0, divergenceActive := false);
    if r.dailyDate == today then r else r.(dailyProfit := 0.0, dailyVolume := 0.0, dailyDate := today)
  }

  /** Restarting on a later day keeps the streak and drops the pause; running through midnight drops both. */
  lemma RestartKeepsStreak(stored: Risk, today: int)
    requires stored.dailyDate != today
    ensures Fresh(Restored(stored, today))
    ensures Restored(stored, today).consecutiveLosses == stored.consecutiveLosses
    ensures DailyReset(stored, today).consecutiveLosses == 0 == DailyReset(stored, today).pauseUntil
    ensures Restored(stored, today) == DailyReset(Restored(stored, stored.dailyDate), today) <==> stored.consecutiveLosses == 0
  {
  }
}
