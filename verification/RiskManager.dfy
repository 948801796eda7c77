/** LatencyRiskManager with its fields, proved against the history of what it was told (RiskState). */
module RiskManager {
  import opened Common
  import opened RiskState

  datatype Verdict = Allowed | GlobalOff | LatencyOff | DailyLoss | Drawdown | StreakPause | DivergenceHalt

  // The four reasons to forbid trading, read off the history

  /** The current day's profit on record. */
  ghost function DayProfitOf(start: Risk, log: seq<Event>): real {
    var day := CurrentDay(start.dailyDate, log);
    DayProfit(log, day) + if day == start.dailyDate then start.dailyProfit else 0.0
  }

  ghost function SessionProfitOf(start: Risk, log: seq<Event>): real {
    start.sessionPnl + Overall(log).profit
  }

  /** A losing streak of the current date has set a pause that is not over. */
  ghost predicate Paused(cfg: Config, start: Risk, log: seq<Event>, now: int) {
    exists i: nat :: Triggers(cfg, start, log, i) && log[i].today == CurrentDay(start.dailyDate, log) &&
                     log[i].at + cfg.streakPauseMs > now
  }

  ghost predicate NothingForbids(cfg: Config, start: Risk, log: seq<Event>, now: int) {
    && DayProfitOf(start, log) > -cfg.maxDailyLoss
    && SessionProfitOf(start, log) > -cfg.maxSessionDrawdown
    && !Paused(cfg, start, log, now) && !Halted(cfg, log)
  }

  /** Each test canTrade makes on the fields is one of the four reasons. */
  lemma ReasonsIff(cfg: Config, start: Risk, log: seq<Event>, r: Risk, now: int)
    requires Explained(cfg, start, log, r) && now > 0
    ensures r.dailyProfit == DayProfitOf(start, log) && r.sessionPnl == SessionProfitOf(start, log)
    ensures r.pauseUntil > now <==> Paused(cfg, start, log, now)
    ensures r.divergenceActive <==> Halted(cfg, log)
  {
    hide History, Halted, Streak, Triggers;
  }

  lemma QueriedLater(start: Risk, log: seq<Event>, today: int, now: int)
    requires Follows(start.dailyDate, log, Query(today, now))
    ensures now > 0
  {
  }

  lemma ActiveIffHalted(cfg: Config, start: Risk, log: seq<Event>, r: Risk)
    requires Explained(cfg, start, log, r)
    ensures r.divergenceActive <==> Halted(cfg, log)
  {
    hide Halted;
  }

  /** Two prices are at least the configured limit apart. */
  predicate Apart(cfg: Config, exchangePrice: real, chainlinkPrice: real) {
    exchangePrice - chainlinkPrice >= cfg.divergenceLimit || chainlinkPrice - exchangePrice >= cfg.divergenceLimit
  }

  function Initial(today: int): Risk {
    Risk(0, 0, 0, 0, 0, 0, 0.0, 0.0, 0.0, 0.0, 0.0, today, 0, 0, 0, 0, false)
  }

  /** The stats record; it never leaves the manager. */
  datatype Stats = Stats(
    totalWindows: int, windowsTraded: int, windowsSkipped: int, wins: int, losses: int, totalTrades: int,
    totalProfit: real, totalLoss: real, sessionPnl: real, dailyProfit: real, dailyVolume: real, dailyProfitDate: int,
    consecutiveLosses: int, oracleDivergenceEvents: int)

  class LatencyRiskManager {
    const cfg: Config
    var stats: Stats
    var pauseUntil: int
    var divergenceStartMs: int
    var divergenceActive: bool
    var currentWindowTs: int
    var windowUpSpent: real
    var windowDownSpent: real
    ghost var start: Risk
    ghost var log: seq<Event>

    ghost function View(): Risk
      reads this
    {
      Risk(stats.totalWindows, stats.windowsTraded, stats.windowsSkipped, stats.wins, stats.losses, stats.totalTrades,
           stats.totalProfit, stats.totalLoss, stats.sessionPnl, stats.dailyProfit, stats.dailyVolume,
           stats.dailyProfitDate, stats.consecutiveLosses, stats.oracleDivergenceEvents, pauseUntil,
           divergenceStartMs, divergenceActive)
    }

    /** The fields are what the whole history since the start makes of them. */
    ghost predicate Valid()
      reads this
    {
      Fresh(start) && History(start.dailyDate, log) && View() == Run(cfg, start, log)
    }

    ghost predicate Accepts(e: Event)
      reads this
    {
      Follows(start.dailyDate, log, e)
    }

    constructor (cfg: Config, today: int)
      ensures Valid() && this.cfg == cfg && start == Initial(today) && log == []
      ensures windowUpSpent == 0.0 == windowDownSpent
    {
      this.cfg := cfg;
      stats := Stats(0, 0, 0, 0, 0, 0, 0.0, 0.0, 0.0, 0.0, 0.0, today, 0, 0);
      pauseUntil, divergenceStartMs, divergenceActive := 0, 0, false;
      currentWindowTs, windowUpSpent, windowDownSpent := 0, 0.0, 0.0;
      start, log := Initial(today), [];
    }

    /** Loads stored figures, if there are any. Only the daily ones are reset when they are from another day. */
    method Initialize(stored: Option<Risk>, today: int)
      requires Valid() && log == []
      modifies this
      ensures Valid() && log == []
      ensures start == if stored.Some? then Restored(stored.value, today) else old(start)
      ensures stored.Some? ==>
                && stats.sessionPnl == 0.0 && pauseUntil == 0 && !divergenceActive && stats.dailyProfitDate == today
                && stats.dailyProfit == (if stored.value.dailyDate == today then stored.value.dailyProfit else 0.0)
                && stats.dailyVolume == (if stored.value.dailyDate == today then stored.value.dailyVolume else 0.0)
                && stats.consecutiveLosses == stored.value.consecutiveLosses
    {
      hide Halted, Explained;
      if stored.Some? {
        var r := stored.value;
        stats := Stats(r.totalWindows, r.windowsTraded, r.windowsSkipped, r.wins, r.losses, r.totalTrades, r.totalProfit,
                       r.totalLoss, 0.0, r.dailyProfit, r.dailyVolume, r.dailyDate, r.consecutiveLosses, r.divergenceEvents);
        if stats.dailyProfitDate != today {
          stats := stats.(dailyProfit := 0.0, dailyVolume := 0.0, dailyProfitDate := today);
        }
        start := View();
      }
    }

    method CheckDailyReset(today: int)
      modifies this
      ensures View() == DailyReset(old(View()), today)
      ensures stats.dailyProfitDate == today
      ensures old(stats.dailyProfitDate) == today ==> View() == old(View())
      ensures old(stats.dailyProfitDate) != today ==>
                stats.dailyProfit == 0.0 == stats.dailyVolume && pauseUntil == 0 == stats.consecutiveLosses &&
                stats.sessionPnl == old(stats.sessionPnl)
      ensures unchanged(`windowUpSpent, `windowDownSpent, `currentWindowTs, `start, `log)
    {
      if stats.dailyProfitDate != today {
        stats := stats.(dailyProfit := 0.0, dailyVolume := 0.0, dailyProfitDate := today);
        pauseUntil := 0;
        stats := stats.(consecutiveLosses := 0);
      }
    }

    /** May trading go on? Asks the kill switches first; a daily loss at the limit also turns the latency switch off. */
    method CanTrade(globalOn: bool, latencyOn: bool, today: int, now: int) returns (v: Verdict, switchOff: bool)
      requires Valid() && Accepts(Query(today, now))
      modifies this
      ensures Valid() && unchanged(`windowUpSpent, `windowDownSpent, `currentWindowTs, `start)
      ensures log == if globalOn && latencyOn then old(log) + [Query(today, now)] else old(log)
      ensures v == GlobalOff <==> !globalOn
      ensures v == LatencyOff <==> globalOn && !latencyOn
      ensures var on, lost, down := globalOn && latencyOn, DayProfitOf(start, log) <= -cfg.maxDailyLoss,
                                    SessionProfitOf(start, log) <= -cfg.maxSessionDrawdown;
              && (switchOff <==> on && lost)
              && (v == DailyLoss <==> on && lost)
              && (v == Drawdown <==> on && !lost && down)
              && (v == StreakPause <==> on && !lost && !down && Paused(cfg, start, log, now))
              && (v == DivergenceHalt <==> on && !lost && !down && !Paused(cfg, start, log, now) && Halted(cfg, log))
              && (v == Allowed <==> on && NothingForbids(cfg, start, log, now))
    {
      hide Run, History, Follows, CurrentDay, Halted, Paused, DayProfitOf, SessionProfitOf, Explained, Fresh;
      if !globalOn {
        return GlobalOff, false;
      }
      if !latencyOn {
        return LatencyOff, false;
      }
      RunStep(cfg, start, log, Query(today, now));
      CheckDailyReset(today);
      log := log + [Query(today, now)];
      RunExplained(cfg, start, log);
      QueriedLater(start, old(log), today, now);
      ReasonsIff(cfg, start, log, View(), now);
      if -stats.dailyProfit >= cfg.maxDailyLoss {
        return DailyLoss, true;
      }
      if -stats.sessionPnl >= cfg.maxSessionDrawdown {
        return Drawdown, false;
      }
      if pauseUntil > now {
        return StreakPause, false;
      }
      if divergenceActive {
        return DivergenceHalt, false;
      }
      return Allowed, false;
    }

    /** Compares the two prices; the clock is read when a run starts and again for its duration. */
    method CheckOracleDivergence(exchangePrice: real, chainlinkPrice: real, first: int, second: int)
      requires Valid()
      requires Accepts(Check(Over(exchangePrice, chainlinkPrice), first, second))
      modifies this
      ensures Valid() && unchanged(`windowUpSpent, `windowDownSpent, `currentWindowTs, `start)
      ensures var over := exchangePrice - chainlinkPrice >= cfg.divergenceLimit ||
                          chainlinkPrice - exchangePrice >= cfg.divergenceLimit;
              log == old(log) + [Check(over, first, second)]
      ensures divergenceActive <==> Halted(cfg, log)
    {
      hide Run, History, Follows, CurrentDay, Halted, NothingForbids, Triggers, Explained, Fresh;
      ghost var e := Check(Over(exchangePrice, chainlinkPrice), first, second);
      RunStep(cfg, start, log, e);
      var difference := exchangePrice - chainlinkPrice;
      var divergence := if difference < 0.0 then -difference else difference;
      if divergence >= cfg.divergenceLimit {
        if divergenceStartMs == 0 {
          divergenceStartMs := first;
        }
        var elapsed := second - divergenceStartMs;
        if elapsed >= cfg.divergenceDurationMs && !divergenceActive {
          divergenceActive := true;
          stats := stats.(oracleDivergenceEvents := stats.oracleDivergenceEvents + 1);
        }
      } else {
        if divergenceActive {
          divergenceActive := false;
        }
        divergenceStartMs := 0;
      }
      assert View() == Apply(cfg, old(View()), e);
      log := log + [e];
      RunExplained(cfg, start, log);
      ActiveIffHalted(cfg, start, log, View());
    }

    predicate Over(exchangePrice: real, chainlinkPrice: real) {
      Apart(cfg, exchangePrice, chainlinkPrice)
    }

    method ResetWindowPosition(windowTs: int)
      modifies this
      ensures windowUpSpent == 0.0 == windowDownSpent && currentWindowTs == windowTs
      ensures View() == old(View()) && unchanged(`start, `log) && (old(Valid()) ==> Valid())
    {
      currentWindowTs, windowUpSpent, windowDownSpent := windowTs, 0.0, 0.0;
    }

    method AddWindowPosition(side: Direction, cost: real)
      modifies this
      ensures windowUpSpent == old(windowUpSpent) + (if side.Up? then cost else 0.0)
      ensures windowDownSpent == old(windowDownSpent) + (if side.Down? then cost else 0.0)
      ensures View() == old(View()) && unchanged(`start, `log, `currentWindowTs) && (old(Valid()) ==> Valid())
    {
      if side.Up? {
        windowUpSpent := windowUpSpent + cost;
      } else {
        windowDownSpent := windowDownSpent + cost;
      }
    }

    /** Records a settled window. */
    method RecordWindowResult(numTrades: nat, grossPnl: real, volume: real, today: int, now: int)
      requires Valid() && Accepts(Settled(today, now, numTrades, grossPnl, volume))
      modifies this
      ensures Valid() && unchanged(`windowUpSpent, `windowDownSpent, `currentWindowTs, `start)
      ensures log == old(log) + [Settled(today, now, numTrades, grossPnl, volume)]
    {
      hide Run, History, Follows, CurrentDay, Fresh;
      ghost var e := Settled(today, now, numTrades, grossPnl, volume);
      RunStep(cfg, start, log, e);
      CheckDailyReset(today);
      if numTrades == 0 {
        stats := stats.(windowsSkipped := stats.windowsSkipped + 1);
      } else {
        stats := stats.(windowsTraded := stats.windowsTraded + 1, totalTrades := stats.totalTrades + numTrades,
                        dailyVolume := stats.dailyVolume + volume);
        if grossPnl >= 0.0 {
          stats := stats.(wins := stats.wins + 1, totalProfit := stats.totalProfit + grossPnl, consecutiveLosses := 0);
        } else {
          stats := stats.(losses := stats.losses + 1, totalLoss := stats.totalLoss + -grossPnl,
                          consecutiveLosses := stats.consecutiveLosses + 1);
          if stats.consecutiveLosses >= cfg.maxConsecutiveLosses {
            pauseUntil := now + cfg.streakPauseMs;
          }
        }
        stats := stats.(dailyProfit := stats.dailyProfit + grossPnl, sessionPnl := stats.sessionPnl + grossPnl);
      }
      stats := stats.(totalWindows := stats.totalWindows + 1);
      assert View() == Apply(cfg, old(View()), e);
      log := log + [e];
    }
  }
}
