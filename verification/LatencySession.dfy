/** A session of the latency bot, window after window: what the risk manager has on record for a day against what the windows
    really made, and how far a day's recorded loss can go. */
module LatencySession {
  import opened Common
  import opened LatencyWindow
  import Signals = LatencySignal
  import Tracking = WindowTracker
  import Risks = RiskState
  import Managers = RiskManager

  /** A window counts for a day when it was settled on it with at least one fill. */
  predicate CountsFor(w: Window, day: int) {
    w.input.close.today == day && |FillsOf(w.log)| > 0
  }

  ghost function ResultOf(w: Window, one: nat): Risks.Event
    requires w.input.Played()
  {
    WindowResult(true, w.log, w.input.priceToBeat.value, w.input.close, one)
  }

  /** The records of the windows that count for a day, oldest first. */
  ghost function ResultsOn(ws: seq<Window>, day: int, one: nat): seq<Risks.Event>
    requires forall i :: 0 <= i < |ws| ==> ws[i].input.Played()
  {
    if |ws| == 0 then []
    else
      var w := ws[|ws| - 1];
      ResultsOn(ws[..|ws| - 1], day, one) + if CountsFor(w, day) then [ResultOf(w, one)] else []
  }

  lemma SessionPrefix(u: Setup, logs: seq<seq<Risks.Event>>, ws: seq<Window>)
    requires Session(u, logs, ws) && |ws| > 0
    ensures Session(u, logs[..|ws|], ws[..|ws| - 1]) && Ran(u, logs[|ws| - 1], logs[|ws|], ws[|ws| - 1])
  {
    hide Ran;
    var before, rest := logs[..|ws|], ws[..|ws| - 1];
    forall i | 0 <= i < |rest|
      ensures Ran(u, before[i], before[i + 1], rest[i])
    {
      assert before[i] == logs[i] && before[i + 1] == logs[i + 1] && rest[i] == ws[i];
    }
  }

  lemma AllPlayed(u: Setup, logs: seq<seq<Risks.Event>>, ws: seq<Window>)
    requires Session(u, logs, ws)
    ensures forall i :: 0 <= i < |ws| ==> ws[i].input.Played()
  {
    forall i | 0 <= i < |ws|
      ensures ws[i].input.Played()
    {
      assert Ran(u, logs[i], logs[i + 1], ws[i]);
    }
  }

  /** Risk checks settle nothing. */
  lemma {:induction false} ChecksTradeNothing(log: seq<Risks.Event>, more: seq<Risks.Event>, day: int)
    requires OnlyChecked(log, more)
    ensures Risks.TradedOn(more, day) == Risks.TradedOn(log, day)
    decreases |more|
  {
    if |more| == |log| {
      assert more == log;
    } else {
      var rest := more[..|more| - 1];
      assert !more[|more| - 1].Settled?;
      ChecksTradeNothing(log, rest, day);
    }
  }

  /** A window adds its own record to the traded windows of its day, if it has a fill. */
  lemma WindowTrades(u: Setup, before: seq<Risks.Event>, after: seq<Risks.Event>, w: Window, day: int)
    requires Ran(u, before, after, w)
    ensures Risks.TradedOn(after, day) ==
            Risks.TradedOn(before, day) + if CountsFor(w, day) then [ResultOf(w, u.one)] else []
  {
    hide Placed, Reachable, InOrder, FillsOf;
    ChecksTradeNothing(before, after[..|after| - 1], day);
    assert Risks.TradedOn(before, day) + [] == Risks.TradedOn(before, day);
  }

  /** The traded windows of a day, in the risk manager's history, are the records of the windows that count for it. */
  lemma {:induction false} SessionTrades(u: Setup, logs: seq<seq<Risks.Event>>, ws: seq<Window>, day: int)
    requires Session(u, logs, ws)
    ensures forall i :: 0 <= i < |ws| ==> ws[i].input.Played()
    ensures Risks.TradedOn(logs[|ws|], day) == ResultsOn(ws, day, u.one)
    decreases |ws|
  {
    hide Ran, ResultOf, CountsFor;
    AllPlayed(u, logs, ws);
    if |ws| > 0 {
      SessionPrefix(u, logs, ws);
      SessionTrades(u, logs[..|ws|], ws[..|ws| - 1], day);
      WindowTrades(u, logs[|ws| - 1], logs[|ws|], ws[|ws| - 1], day);
    }
  }

  // Recorded against true profit

  /** A window with its fills, its resolution, and how its market in fact ended. */
  function SettlementOf(w: Window, actual: Direction): Tracking.Settlement
    requires w.input.Played()
  {
    Tracking.Settlement(Tracking.AllRecorded(Tracking.Opened(w.input.priceToBeat.value), FillsOf(w.log)), w.input.close.resolved, actual)
  }

  function SettlementsOn(ws: seq<Window>, actual: seq<Direction>, day: int): seq<Tracking.Settlement>
    requires |actual| == |ws| && forall i :: 0 <= i < |ws| ==> ws[i].input.Played()
  {
    if |ws| == 0 then []
    else
      var n := |ws| - 1;
      SettlementsOn(ws[..n], actual[..n], day) + if CountsFor(ws[n], day) then [SettlementOf(ws[n], actual[n])] else []
  }

  /** A resolution, where there is one, says how the market ended. */
  ghost predicate ResolvedRight(ws: seq<Window>, actual: seq<Direction>)
    requires |actual| == |ws|
  {
    forall i :: 0 <= i < |ws| && ws[i].input.close.resolved.Some? ==> ws[i].input.close.resolved.value == actual[i]
  }

  /** What a window that counts is recorded with is what the tracker makes of its fills and its resolution. */
  lemma ResultIsRecorded(w: Window, actual: Direction, one: nat)
    requires w.input.Played() && |FillsOf(w.log)| > 0
    ensures ResultOf(w, one).Settled? && ResultOf(w, one).gross == Tracking.RecordedGross(SettlementOf(w, actual), one)
  {
    hide FillsOf, Tracking.Payout, Tracking.AllRecorded, Tracking.CostOn, Tracking.SharesOn, Tracking.Value;
    Tracking.FillsConserved(w.input.priceToBeat.value, FillsOf(w.log));
  }

  lemma {:induction false} ResultsMatch(ws: seq<Window>, actual: seq<Direction>, day: int, one: nat)
    requires |actual| == |ws| && forall i :: 0 <= i < |ws| ==> ws[i].input.Played()
    requires ResolvedRight(ws, actual)
    ensures var es, ss := ResultsOn(ws, day, one), SettlementsOn(ws, actual, day);
            |es| == |ss| && forall i :: 0 <= i < |ss| ==>
              Tracking.Authoritative(ss[i]) && es[i].Settled? && es[i].gross == Tracking.RecordedGross(ss[i], one)
    decreases |ws|
  {
    hide ResultOf, SettlementOf, Tracking.RecordedGross, FillsOf;
    if |ws| > 0 {
      var n := |ws| - 1;
      assert ResolvedRight(ws[..n], actual[..n]);
      ResultsMatch(ws[..n], actual[..n], day, one);
      if CountsFor(ws[n], day) {
        ResultIsRecorded(ws[n], actual[n], one);
        SettledRight(ws[n], actual[n]);
        assert ws[n].input.close.resolved.Some? ==> ws[n].input.close.resolved.value == actual[n];
      }
    }
  }

  lemma SettledRight(w: Window, actual: Direction)
    requires w.input.Played()
    ensures SettlementOf(w, actual).resolved == w.input.close.resolved && SettlementOf(w, actual).actual == actual
  {
  }

  /** After any session the profit on record for the day is at most the true profit of the windows that count for it, on top
      of what the bot started the day with, however the windows without a resolution end; it is the true one exactly when
      none of those holds shares of the side that won. */
  lemma SessionProfitNeverExceedsTrue(u: Setup, logs: seq<seq<Risks.Event>>, ws: seq<Window>, actual: seq<Direction>)
    requires Session(u, logs, ws) && |actual| == |ws| && ResolvedRight(ws, actual) && u.one > 0
    requires Risks.Fresh(u.start) && Risks.History(u.start.dailyDate, logs[|ws|])
    ensures forall i :: 0 <= i < |ws| ==> ws[i].input.Played()
    ensures var log := logs[|ws|];
            var day := Risks.CurrentDay(u.start.dailyDate, log);
            var carried := if day == u.start.dailyDate then u.start.dailyProfit else 0.0;
            var ss := SettlementsOn(ws, actual, day);
            var profit := Risks.Run(u.risk, u.start, log).dailyProfit;
            && profit <= carried + Tracking.TrueTotal(ss, u.one)
            && (profit == carried + Tracking.TrueTotal(ss, u.one) <==>
                  forall i :: 0 <= i < |ss| ==> ss[i].resolved.Some? || Tracking.SharesOf(ss[i].pnl, ss[i].actual) == 0)
  {
    hide Ran, Risks.History, Risks.Run, Risks.TradedOn, Tracking.RecordedGross, ResultsOn, SettlementsOn, ResolvedRight;
    var day := Risks.CurrentDay(u.start.dailyDate, logs[|ws|]);
    SessionTrades(u, logs, ws, day);
    ResultsMatch(ws, actual, day, u.one);
    Tracking.DailyProfitNeverExceedsTrue(u.risk, u.start, logs[|ws|], SettlementsOn(ws, actual, day), u.one);
  }

  // How far a day's recorded loss can go

  /** A floor for the profit on record at every moment of a session: zero, what the bot started with, or minus the daily loss
      limit and what one window can still spend after the clearance it trades under, whichever is lowest. */
  ghost function Floor(u: Setup, ratio: real): real {
    Signals.MinReal(Signals.MinReal(0.0, u.start.dailyProfit), Signals.MinReal(0.0, -u.risk.maxDailyLoss) - ratio * u.signal.maxPositionPerWindow)
  }

  /** No order of a window was limited above the given multiple of its best ask. */
  ghost predicate RatioWithin(w: Window, ratio: real) {
    forall k :: 0 <= k < |w.log| ==>
      w.log[k].decision.limitPrice as real <= ratio * w.log[k].decision.marketPrice as real
  }

  lemma FillsTakeAttempts(log: seq<Attempt>)
    requires |FillsOf(log)| > 0
    ensures |log| > 0
  {
  }

  /** A window that counts cost at most the budget times the ratio, and that is the most it can lose. */
  lemma WindowLoss(u: Setup, w: Window, ratio: real)
    requires w.input.Played() && Reachable(u.signal, w.log) && |FillsOf(w.log)| > 0 && RatioWithin(w, ratio) && ratio >= 1.0
    ensures ResultOf(w, u.one).Settled? && ResultOf(w, u.one).gross >= -(ratio * u.signal.maxPositionPerWindow)
  {
    hide FillsOf, Reachable, Spent, Filled, Tracking.CostOn, Tracking.SharesOn;
    FillsTakeAttempts(w.log);
    assert w.log[|w.log| - 1].decision.limitPrice as real <= ratio * w.log[|w.log| - 1].decision.marketPrice as real;
    SpendBound(u.signal, w.log, ratio);
    FilledAtMostSpent(w.log, Up);
    FilledAtMostSpent(w.log, Down);
    FilledIsTracked(w.log, Up);
    FilledIsTracked(w.log, Down);
  }

  /** A day that has moved on starts from nothing; until then checks change nothing. */
  lemma ChecksKeepProfit(start: Risks.Risk, log: seq<Risks.Event>, more: seq<Risks.Event>, floor: real)
    requires Risks.History(start.dailyDate, more) && OnlyChecked(log, more)
    requires floor <= 0.0 && floor <= Managers.DayProfitOf(start, log)
    ensures Risks.History(start.dailyDate, log) && Risks.CurrentDay(start.dailyDate, log) <= Risks.CurrentDay(start.dailyDate, more)
    ensures floor <= Managers.DayProfitOf(start, more)
  {
    hide Risks.History, Risks.TradedOn, Risks.CurrentDay;
    var day := Risks.CurrentDay(start.dailyDate, more);
    DayMoves(start.dailyDate, log, more);
    ChecksTradeNothing(log, more, day);
    if Risks.CurrentDay(start.dailyDate, log) < day {
      Risks.DayNotBefore(start.dailyDate, log);
      Risks.NothingTradedOnLaterDay(start.dailyDate, log, day);
    }
  }

  lemma {:induction false} DayMoves(firstDay: int, log: seq<Risks.Event>, more: seq<Risks.Event>)
    requires Risks.History(firstDay, more) && log <= more
    ensures Risks.History(firstDay, log) && Risks.CurrentDay(firstDay, log) <= Risks.CurrentDay(firstDay, more)
    decreases |more|
  {
    if |more| == |log| {
      assert more == log;
    } else {
      DayMoves(firstDay, log, more[..|more| - 1]);
    }
  }

  lemma ChecksInside(u: Setup, before: seq<Risks.Event>, after: seq<Risks.Event>, w: Window, n: nat)
    requires Ran(u, before, after, w) && |before| <= n < |after|
    ensures OnlyChecked(before, after[..n])
  {
    hide Reachable, Placed, InOrder, WindowResult;
    assert after[..|after| - 1][..n] == after[..n];
  }

  /** The clearance a window with a fill traded under: a check inside the window that found nothing to forbid trading. */
  lemma ClearanceOf(u: Setup, before: seq<Risks.Event>, after: seq<Risks.Event>, w: Window) returns (n: nat, now: int)
    requires Ran(u, before, after, w) && |FillsOf(w.log)| > 0
    ensures |before| < n < |after| && OnlyChecked(before, after[..n])
    ensures Managers.NothingForbids(u.risk, u.start, after[..n], now)
  {
    hide Managers.NothingForbids, FillsOf, Reachable, WindowResult, InOrder, MadeOn, OnlyChecked, Guarded;
    FillsTakeAttempts(w.log);
    var j, m := WitnessOf(u, after, |before|, w.input.ticks, w.when[0]);
    n, now := m, w.input.ticks[j].at;
    SettledLast(u, after, w);
    ChecksInside(u, before, after, w, n);
  }

  lemma WitnessOf(u: Setup, after: seq<Risks.Event>, from: nat, ticks: seq<Tick>, i: nat) returns (j: nat, n: nat)
    requires Guarded(u.risk, u.start, after, from, ticks, i)
    ensures j <= i < |ticks| && from < n <= |after| && after[n - 1].Query?
    ensures Managers.NothingForbids(u.risk, u.start, after[..n], ticks[j].at)
  {
    hide Managers.NothingForbids;
    j, n :| j <= i && ticks[i].now - ticks[j].now < RISK_CHECK_INTERVAL_MS && Cleared(u.risk, u.start, after, from, ticks[j], n);
  }

  /** Nothing forbids trading, in particular neither the day's loss nor the session's drawdown. */
  lemma ClearedProfits(u: Setup, log: seq<Risks.Event>, now: int)
    requires Managers.NothingForbids(u.risk, u.start, log, now)
    ensures -Managers.DayProfitOf(u.start, log) < u.risk.maxDailyLoss
    ensures -(u.start.sessionPnl + Risks.Overall(log).profit) < u.risk.maxSessionDrawdown
  {
    hide Risks.Halted, Managers.Paused, Managers.DayProfitOf, Risks.Overall;
  }

  lemma SettledLast(u: Setup, after: seq<Risks.Event>, w: Window)
    requires w.input.Played() && |after| > 0
    requires after[|after| - 1] == WindowResult(true, w.log, w.input.priceToBeat.value, w.input.close, u.one)
    ensures after[|after| - 1].Settled?
  {
  }

  /** The record of a window moves the day's profit by its gross, from where the clearance found it or from a new day's zero. */
  lemma WindowKeepsFloor(u: Setup, before: seq<Risks.Event>, after: seq<Risks.Event>, w: Window, ratio: real)
    requires Ran(u, before, after, w) && RatioWithin(w, ratio) && ratio >= 1.0
    requires Risks.History(u.start.dailyDate, after) && Floor(u, ratio) <= Managers.DayProfitOf(u.start, before)
    ensures Floor(u, ratio) <= Managers.DayProfitOf(u.start, after)
  {
    hide Ran, Risks.History, Risks.TradedOn, FillsOf, ResultOf;
    var day := w.input.close.today;
    WindowTrades(u, before, after, w, day);
    DayOfResult(u, before, after, w);
    if CountsFor(w, day) {
      var n, now := ClearanceOf(u, before, after, w);
      ClearedProfits(u, after[..n], now);
      WindowLoss(u, w, ratio);
      FromClearance(u, before, after, w, n);
      FloorBelow(u, ratio, ResultOf(w, u.one).gross, Managers.DayProfitOf(u.start, after[..n]));
    } else {
      assert Risks.TradedOn(before, day) + [] == Risks.TradedOn(before, day);
      DayMoves(u.start.dailyDate, before, after);
      if Risks.CurrentDay(u.start.dailyDate, before) < day {
        Risks.DayNotBefore(u.start.dailyDate, before);
        Risks.NothingTradedOnLaterDay(u.start.dailyDate, before, day);
      }
    }
  }

  lemma FloorBelow(u: Setup, ratio: real, gross: real, cleared: real)
    requires gross >= -(ratio * u.signal.maxPositionPerWindow) && -cleared < u.risk.maxDailyLoss
    ensures Floor(u, ratio) <= 0.0 && Floor(u, ratio) <= gross && Floor(u, ratio) <= gross + cleared
  {
  }

  lemma DayOfResult(u: Setup, before: seq<Risks.Event>, after: seq<Risks.Event>, w: Window)
    requires Ran(u, before, after, w)
    ensures w.input.Played() && Reachable(u.signal, w.log)
    ensures before <= after && Risks.CurrentDay(u.start.dailyDate, after) == w.input.close.today
  {
    hide Reachable, Placed, InOrder;
  }

  lemma ResultIsSettled(w: Window, one: nat)
    requires w.input.Played()
    ensures ResultOf(w, one).Settled?
  {
  }

  lemma FromClearance(u: Setup, before: seq<Risks.Event>, after: seq<Risks.Event>, w: Window, n: nat)
    requires Ran(u, before, after, w) && CountsFor(w, w.input.close.today) && Risks.History(u.start.dailyDate, after)
    requires n < |after| && OnlyChecked(before, after[..n])
    ensures ResultOf(w, u.one).Settled?
    ensures Managers.DayProfitOf(u.start, after) == ResultOf(w, u.one).gross + Managers.DayProfitOf(u.start, after[..n]) ||
            Managers.DayProfitOf(u.start, after) == ResultOf(w, u.one).gross
  {
    hide Ran, Risks.History, FillsOf, Risks.TradedOn, Risks.CurrentDay, ResultOf, OnlyChecked;
    var day := w.input.close.today;
    DayOfResult(u, before, after, w);
    ResultIsSettled(w, u.one);
    WindowTrades(u, before, after, w, day);
    DayMoves(u.start.dailyDate, after[..n], after);
    ChecksTradeNothing(before, after[..n], day);
    Risks.TradedAreSettled(before, day);
    Risks.SettledSums(Risks.TradedOn(before, day), ResultOf(w, u.one));
    if Risks.CurrentDay(u.start.dailyDate, after[..n]) < day {
      Risks.DayNotBefore(u.start.dailyDate, after[..n]);
      Risks.NothingTradedOnLaterDay(u.start.dailyDate, after[..n], day);
    }
  }

  /** Inside a window, and right after it, the floor holds if it held before. */
  lemma WindowPrefixesKeepFloor(u: Setup, before: seq<Risks.Event>, after: seq<Risks.Event>, w: Window, ratio: real, n: nat)
    requires Ran(u, before, after, w) && RatioWithin(w, ratio) && ratio >= 1.0
    requires Risks.History(u.start.dailyDate, after) && Floor(u, ratio) <= Managers.DayProfitOf(u.start, before)
    requires |before| <= n <= |after|
    ensures Floor(u, ratio) <= Managers.DayProfitOf(u.start, after[..n])
  {
    hide Ran, Risks.History, Managers.DayProfitOf;
    if n == |after| {
      assert after[..n] == after;
      WindowKeepsFloor(u, before, after, w, ratio);
    } else {
      ChecksInside(u, before, after, w, n);
      DayMoves(u.start.dailyDate, after[..n], after);
      assert Floor(u, ratio) <= 0.0;
      ChecksKeepProfit(u.start, before, after[..n], Floor(u, ratio));
    }
  }

  /** Over any session, at every moment of it, the daily profit on record is at least minus the daily loss limit and the
      window budget, the latter times the largest ratio of limit to best ask used, unless the bot already started below. */
  lemma SessionLossBounded(u: Setup, logs: seq<seq<Risks.Event>>, ws: seq<Window>, ratio: real, n: nat)
    requires Session(u, logs, ws) && Risks.Fresh(u.start) && Risks.History(u.start.dailyDate, logs[|ws|]) && n <= |logs[|ws|]|
    requires ratio >= 1.0 && forall i :: 0 <= i < |ws| ==> RatioWithin(ws[i], ratio)
    ensures Floor(u, ratio) <= Risks.Run(u.risk, u.start, logs[|ws|][..n]).dailyProfit
  {
    hide Ran, Risks.History, Risks.Run, RatioWithin, Managers.DayProfitOf, Floor;
    ProfitNeverBelow(u, logs, ws, ratio, n);
    DayMoves(u.start.dailyDate, logs[|ws|][..n], logs[|ws|]);
    ProfitIsOnRecord(u, logs[|ws|][..n]);
  }

  lemma ProfitIsOnRecord(u: Setup, log: seq<Risks.Event>)
    requires Risks.Fresh(u.start) && Risks.History(u.start.dailyDate, log)
    ensures Risks.Run(u.risk, u.start, log).dailyProfit == Managers.DayProfitOf(u.start, log)
  {
    hide Risks.History, Risks.Run, Risks.DivergenceExplained, Risks.CountsExplained, Risks.PauseExplained, Risks.Streak;
    Risks.RunExplained(u.risk, u.start, log);
  }

  lemma {:induction false} ProfitNeverBelow(u: Setup, logs: seq<seq<Risks.Event>>, ws: seq<Window>, ratio: real, n: nat)
    requires Session(u, logs, ws) && Risks.History(u.start.dailyDate, logs[|ws|]) && n <= |logs[|ws|]|
    requires ratio >= 1.0 && forall i :: 0 <= i < |ws| ==> RatioWithin(ws[i], ratio)
    ensures Floor(u, ratio) <= Managers.DayProfitOf(u.start, logs[|ws|][..n])
    decreases |ws|
  {
    hide Ran, Risks.History, RatioWithin;
    if |ws| == 0 {
      assert logs[0][..n] == [];
      assert Managers.DayProfitOf(u.start, []) == u.start.dailyProfit;
    } else {
      hide Managers.DayProfitOf, Floor;
      var k := |ws| - 1;
      SessionPrefix(u, logs, ws);
      DayOfResult(u, logs[k], logs[k + 1], ws[k]);
      DayMoves(u.start.dailyDate, logs[k], logs[k + 1]);
      if n <= |logs[k]| {
        ProfitNeverBelow(u, logs[..k + 1], ws[..k], ratio, n);
        assert logs[k + 1][..n] == logs[k][..n];
      } else {
        ProfitNeverBelow(u, logs[..k + 1], ws[..k], ratio, |logs[k]|);
        assert logs[k][..|logs[k]|] == logs[k];
        WindowPrefixesKeepFloor(u, logs[k], logs[k + 1], ws[k], ratio, n);
      }
    }
  }

  // The same for the session's drawdown

  lemma {:induction false} ChecksEarnNothing(log: seq<Risks.Event>, more: seq<Risks.Event>)
    requires OnlyChecked(log, more)
    ensures Risks.Overall(more).profit == Risks.Overall(log).profit
    decreases |more|
  {
    hide Risks.Overall;
    if |more| == |log| {
      assert more == log;
    } else {
      var rest, e := more[..|more| - 1], more[|more| - 1];
      ChecksEarnNothing(log, rest);
      Risks.OverallGrows(rest, e);
      assert rest + [e] == more && !e.Settled?;
    }
  }

  /** A window moves the session's profit by its gross, if it has a fill, and otherwise not. */
  lemma WindowEarns(u: Setup, before: seq<Risks.Event>, after: seq<Risks.Event>, w: Window)
    requires Ran(u, before, after, w)
    ensures ResultOf(w, u.one).Settled?
    ensures Managers.SessionProfitOf(u.start, after) ==
            Managers.SessionProfitOf(u.start, before) + if |FillsOf(w.log)| > 0 then ResultOf(w, u.one).gross else 0.0
  {
    hide Placed, Reachable, InOrder, FillsOf, Risks.Overall, Complete, StateAt;
    var rest := after[..|after| - 1];
    ChecksEarnNothing(before, rest);
    Risks.OverallGrows(rest, ResultOf(w, u.one));
    assert rest + [ResultOf(w, u.one)] == after;
  }

  /** A floor for the session's profit: what the bot started with, or minus the drawdown limit and what one window can still
      spend after its clearance. */
  ghost function SessionFloor(u: Setup, ratio: real): real {
    Signals.MinReal(u.start.sessionPnl, -(u.risk.maxSessionDrawdown + ratio * u.signal.maxPositionPerWindow))
  }

  lemma WindowKeepsSessionFloor(u: Setup, before: seq<Risks.Event>, after: seq<Risks.Event>, w: Window, ratio: real)
    requires Ran(u, before, after, w) && RatioWithin(w, ratio) && ratio >= 1.0
    requires SessionFloor(u, ratio) <= Managers.SessionProfitOf(u.start, before)
    ensures SessionFloor(u, ratio) <= Managers.SessionProfitOf(u.start, after)
  {
    hide Ran, FillsOf, ResultOf, Risks.Overall, SessionFloor, OnlyChecked, Managers.DayProfitOf, RatioWithin, Managers.NothingForbids;
    WindowEarns(u, before, after, w);
    if |FillsOf(w.log)| > 0 {
      DayOfResult(u, before, after, w);
      var n, now := ClearanceOf(u, before, after, w);
      ClearedProfits(u, after[..n], now);
      ChecksEarnNothing(before, after[..n]);
      WindowLoss(u, w, ratio);
      SessionFloorBelow(u, ratio, ResultOf(w, u.one).gross, Managers.SessionProfitOf(u.start, before));
    }
  }

  lemma SessionFloorBelow(u: Setup, ratio: real, gross: real, cleared: real)
    requires gross >= -(ratio * u.signal.maxPositionPerWindow) && -cleared < u.risk.maxSessionDrawdown
    ensures SessionFloor(u, ratio) <= cleared + gross
  {
  }

  lemma {:induction false} SessionNeverBelow(u: Setup, logs: seq<seq<Risks.Event>>, ws: seq<Window>, ratio: real, n: nat)
    requires Session(u, logs, ws) && n <= |logs[|ws|]|
    requires ratio >= 1.0 && forall i :: 0 <= i < |ws| ==> RatioWithin(ws[i], ratio)
    ensures SessionFloor(u, ratio) <= Managers.SessionProfitOf(u.start, logs[|ws|][..n])
    decreases |ws|
  {
    hide Ran, RatioWithin;
    if |ws| == 0 {
      assert logs[0][..n] == [];
      assert Managers.SessionProfitOf(u.start, []) == u.start.sessionPnl;
    } else {
      hide SessionFloor, Risks.Overall;
      var k := |ws| - 1;
      var before, after := logs[k], logs[k + 1];
      SessionPrefix(u, logs, ws);
      DayOfResult(u, before, after, ws[k]);
      SessionNeverBelow(u, logs[..k + 1], ws[..k], ratio, if n <= |before| then n else |before|);
      assert before[..|before|] == before;
      if n <= |before| {
        assert after[..n] == before[..n];
      } else if n < |after| {
        ChecksInside(u, before, after, ws[k], n);
        ChecksEarnNothing(before, after[..n]);
      } else {
        assert after[..n] == after;
        WindowKeepsSessionFloor(u, before, after, ws[k], ratio);
      }
    }
  }

  /** Over any session, at every moment of it, the session's profit on record is at least minus the drawdown limit and the
      window budget, the latter times the largest ratio of limit to best ask used, unless the bot already started below. */
  lemma SessionDrawdownBounded(u: Setup, logs: seq<seq<Risks.Event>>, ws: seq<Window>, ratio: real, n: nat)
    requires Session(u, logs, ws) && Risks.Fresh(u.start) && Risks.History(u.start.dailyDate, logs[|ws|]) && n <= |logs[|ws|]|
    requires ratio >= 1.0 && forall i :: 0 <= i < |ws| ==> RatioWithin(ws[i], ratio)
    ensures SessionFloor(u, ratio) <= Risks.Run(u.risk, u.start, logs[|ws|][..n]).sessionPnl
  {
    hide Ran, Risks.History, Risks.Run, RatioWithin, SessionFloor, Managers.SessionProfitOf;
    SessionNeverBelow(u, logs, ws, ratio, n);
    DayMoves(u.start.dailyDate, logs[|ws|][..n], logs[|ws|]);
    SessionPnlIsOnRecord(u, logs[|ws|][..n]);
  }

  lemma SessionPnlIsOnRecord(u: Setup, log: seq<Risks.Event>)
    requires Risks.Fresh(u.start) && Risks.History(u.start.dailyDate, log)
    ensures Risks.Run(u.risk, u.start, log).sessionPnl == Managers.SessionProfitOf(u.start, log)
  {
    hide Risks.History, Risks.Run, Risks.DivergenceExplained, Risks.DayExplained, Risks.PauseExplained, Risks.Overall;
    Risks.RunExplained(u.risk, u.start, log);
  }
}
