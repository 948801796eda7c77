/** One window of the latency bot (processWindow): evaluate, execute and record, tick after tick, then settle. Three ledgers
    are kept on the way: the signal's spend, the risk manager's window position and the tracker's record. */
module LatencyWindow {
  import opened Common
  import opened Book
  import opened Orders
  import Signals = LatencySignal
  import Tracking = WindowTracker
  import Risks = RiskState
  import Managers = RiskManager

  const RISK_CHECK_INTERVAL_MS := 1000

  /** A decision and what became of it. */
  datatype Attempt = Attempt(decision: Signals.Decision, result: Execution)

  function FillCost(a: Attempt): real {
    a.result.size as real * a.result.price
  }

  /** What an attempt is charged with in the signal: its fill on success, its intended cost on failure. */
  function Charged(a: Attempt): real {
    if a.result.success then FillCost(a) else a.decision.totalCost as real
  }

  function Spent(log: seq<Attempt>, side: Direction): real {
    if |log| == 0 then 0.0
    else Spent(log[..|log| - 1], side) + if log[|log| - 1].decision.side == side then Charged(log[|log| - 1]) else 0.0
  }

  function Filled(log: seq<Attempt>, side: Direction): real {
    if |log| == 0 then 0.0
    else
      var a := log[|log| - 1];
      Filled(log[..|log| - 1], side) + if a.decision.side == side && a.result.success then FillCost(a) else 0.0
  }

  function FailedIntent(log: seq<Attempt>, side: Direction): real {
    if |log| == 0 then 0.0
    else
      var a := log[|log| - 1];
      FailedIntent(log[..|log| - 1], side)
      + if a.decision.side == side && !a.result.success then a.decision.totalCost as real else 0.0
  }

  function AsFill(a: Attempt): Tracking.Fill {
    Tracking.Fill(a.decision.side, a.result.size, a.result.price, a.result.orderIds)
  }

  function FillsOf(log: seq<Attempt>): seq<Tracking.Fill> {
    if |log| == 0 then []
    else FillsOf(log[..|log| - 1]) + if log[|log| - 1].result.success then [AsFill(log[|log| - 1])] else []
  }

  /** An execution stays within its order. */
  ghost predicate Within(a: Attempt) {
    a.result.success ==> 0 < a.result.size <= a.decision.shares && 0.0 < a.result.price <= a.decision.limitPrice as real
  }

  /** An attempt the bot can make after the given ones: on an allowed side, sound for what is spent there, executed within
      the order. */
  ghost predicate Next(cfg: Signals.Config, log: seq<Attempt>, a: Attempt) {
    && a.decision.side in Signals.Sides(Spent(log, Up), Spent(log, Down))
    && Signals.Sound(cfg, Spent(log, a.decision.side), a.decision)
    && Within(a)
  }

  /** The attempts of a window, as far as it got. */
  ghost predicate Reachable(cfg: Signals.Config, log: seq<Attempt>) {
    |log| > 0 ==> Reachable(cfg, log[..|log| - 1]) && Next(cfg, log[..|log| - 1], log[|log| - 1])
  }

  lemma Grown(log: seq<Attempt>, a: Attempt)
    ensures (log + [a])[..|log + [a]| - 1] == log
    ensures forall side :: Spent(log + [a], side) == Spent(log, side) + if a.decision.side == side then Charged(a) else 0.0
    ensures forall side :: Filled(log + [a], side) ==
                           Filled(log, side) + if a.decision.side == side && a.result.success then FillCost(a) else 0.0
    ensures FillsOf(log + [a]) == if a.result.success then FillsOf(log) + [AsFill(a)] else FillsOf(log)
  {
    assert (log + [a])[..|log + [a]| - 1] == log;
    assert FillsOf(log) + [] == FillsOf(log);
  }

  lemma ReachableGrows(cfg: Signals.Config, log: seq<Attempt>, a: Attempt)
    requires Reachable(cfg, log) && Next(cfg, log, a)
    ensures Reachable(cfg, log + [a])
  {
    assert (log + [a])[..|log + [a]| - 1] == log;
  }

  // Bounds of one attempt

  lemma ChargeBounds(cfg: Signals.Config, spent: real, a: Attempt)
    requires Signals.Sound(cfg, spent, a.decision) && Within(a)
    ensures 0.0 < Charged(a) <= Signals.Money(a.decision.shares, a.decision.limitPrice)
  {
    if a.result.success {
      ProductBound(a.result.size as real, a.decision.shares as real, a.result.price, a.decision.limitPrice as real);
      assert Charged(a) == a.result.size as real * a.result.price;
    }
  }

  lemma ProductBound(n: real, m: real, p: real, q: real)
    requires 0.0 < n <= m && 0.0 < p <= q
    ensures 0.0 < n * p <= m * q
  {
    assert n * p <= m * p;
    assert m * p <= m * q;
  }

  // Claims over every run of a window

  lemma {:induction false} SpendPositive(cfg: Signals.Config, log: seq<Attempt>)
    requires Reachable(cfg, log)
    ensures Spent(log, Up) >= 0.0 && Spent(log, Down) >= 0.0
    ensures |log| > 0 ==> Spent(log, log[|log| - 1].decision.side) > 0.0
  {
    hide Charged, Signals.Sound, Within;
    if |log| > 0 {
      SpendPositive(cfg, log[..|log| - 1]);
      var a := log[|log| - 1];
      ChargeBounds(cfg, Spent(log[..|log| - 1], a.decision.side), a);
    }
  }

  /** One-sided window: every attempt is on the same side, and nothing is spent on the other. */
  lemma {:induction false} OneSided(cfg: Signals.Config, log: seq<Attempt>)
    requires Reachable(cfg, log) && |log| > 0
    ensures forall i :: 0 <= i < |log| ==> log[i].decision.side == log[|log| - 1].decision.side
    ensures forall side :: side != log[|log| - 1].decision.side ==> Spent(log, side) == 0.0 == Filled(log, side)
  {
    hide Charged, Signals.Sound, Within;
    var rest := log[..|log| - 1];
    SpendPositive(cfg, rest);
    if |rest| > 0 {
      OneSided(cfg, rest);
      forall i | 0 <= i < |log|
        ensures log[i].decision.side == log[|log| - 1].decision.side
      {
        if i < |rest| {
          assert log[i] == rest[i];
        }
      }
    }
  }

  /** The signal's spend exceeds the money in fills by exactly the intended cost of the failed attempts. */
  lemma {:induction false} SpendSplits(log: seq<Attempt>, side: Direction)
    ensures Spent(log, side) == Filled(log, side) + FailedIntent(log, side)
  {
    if |log| > 0 {
      SpendSplits(log[..|log| - 1], side);
    }
  }

  /** Money in fills is the cost of the fills handed to the tracker. */
  lemma {:induction false} FilledIsTracked(log: seq<Attempt>, side: Direction)
    ensures Filled(log, side) == Tracking.CostOn(FillsOf(log), side)
  {
    if |log| > 0 {
      var rest, a := log[..|log| - 1], log[|log| - 1];
      FilledIsTracked(rest, side);
      if a.result.success {
        Tracking.FillsGrow(FillsOf(rest), AsFill(a), side);
      } else {
        assert FillsOf(rest) + [] == FillsOf(rest);
      }
    }
  }

  /** No attempt once the budget is spent: before each one, strictly less than the budget has been. */
  lemma BudgetLeftBefore(cfg: Signals.Config, log: seq<Attempt>)
    requires Reachable(cfg, log) && |log| > 0
    ensures var a := log[|log| - 1];
            && Spent(log[..|log| - 1], a.decision.side) < cfg.maxPositionPerWindow
            && Spent(log[..|log| - 1], a.decision.side) + Signals.Money(a.decision.shares, a.decision.marketPrice)
               <= cfg.maxPositionPerWindow
            && a.decision.limitPrice <= a.decision.trueProb - cfg.edgeBuffer
  {
  }

  /** Window spend bound: the spend recorded for the window, failed attempts included, is at most the budget times the
      ratio of limit to best ask of the last attempt, so at most the budget times the largest such ratio of the run. */
  lemma SpendBound(cfg: Signals.Config, log: seq<Attempt>, ratio: real)
    requires Reachable(cfg, log) && |log| > 0 && ratio >= 1.0
    requires log[|log| - 1].decision.limitPrice as real <= ratio * log[|log| - 1].decision.marketPrice as real
    ensures Spent(log, Up) + Spent(log, Down) <= ratio * cfg.maxPositionPerWindow
  {
    hide Charged, Signals.Money, Reachable, Signals.Sound, Within;
    var rest, a := log[..|log| - 1], log[|log| - 1];
    var side := a.decision.side;
    LastAttempt(cfg, log);
    SpendPositive(cfg, rest);
    OneSided(cfg, log);
    BudgetLeftBefore(cfg, log);
    ChargeBounds(cfg, Spent(rest, side), a);
    LimitMoney(a.decision.shares, a.decision.marketPrice, a.decision.limitPrice, ratio);
    Stretch(Spent(rest, side), Signals.Money(a.decision.shares, a.decision.marketPrice), cfg.maxPositionPerWindow, ratio);
    assert Spent(log, if side.Up? then Down else Up) == 0.0;
  }

  lemma LastAttempt(cfg: Signals.Config, log: seq<Attempt>)
    requires Reachable(cfg, log) && |log| > 0
    ensures Reachable(cfg, log[..|log| - 1]) && Within(log[|log| - 1])
    ensures Signals.Sound(cfg, Spent(log[..|log| - 1], log[|log| - 1].decision.side), log[|log| - 1].decision)
  {
  }

  /** Money in fills is part of the spend, so the same bound holds for what the risk manager and the tracker record. */
  lemma {:induction false} FilledAtMostSpent(log: seq<Attempt>, side: Direction)
    ensures 0.0 <= FailedIntent(log, side) && Filled(log, side) <= Spent(log, side)
  {
    SpendSplits(log, side);
    if |log| > 0 {
      FilledAtMostSpent(log[..|log| - 1], side);
    }
  }

  lemma LimitMoney(shares: nat, best: nat, limit: nat, ratio: real)
    requires limit as real <= ratio * best as real
    ensures Signals.Money(shares, limit) <= ratio * Signals.Money(shares, best)
  {
    assert shares as real * limit as real <= shares as real * (ratio * best as real);
    assert shares as real * (ratio * best as real) == ratio * (shares as real * best as real);
  }

  lemma Stretch(before: real, atBest: real, budget: real, ratio: real)
    requires 0.0 <= before && atBest <= budget - before && ratio >= 1.0
    ensures before + ratio * atBest <= ratio * budget
  {
    assert ratio * atBest <= ratio * (budget - before);
    assert ratio * (budget - before) == ratio * budget - ratio * before;
    assert before <= ratio * before;
  }

  // The bot

  datatype Timing = Timing(minTimeRemaining: real, maxTimeRemaining: real, maxOrderShares: nat)

  /** All that a turn of the loop can read from outside: clocks, prices, switches, feeds, and how an order of a given size
      would be answered. */
  datatype Tick = Tick(
    timeRemaining: real, now: int, first: int, second: int, at: int, today: int, prices: Option<(real, real)>,
    globalOn: bool, latencyOn: bool, healthy: bool, reading: Signals.Reading, up: Signals.Feed, down: Signals.Feed,
    venue: nat -> Venue)

  ghost predicate Proper(t: Tick, maxChunk: nat)
    requires maxChunk > 0
  {
    && RISK_CHECK_INTERVAL_MS <= t.now <= t.first <= t.second <= t.at
    && WellFormed(t.up.fetched.asks) && WellFormed(t.down.fetched.asks)
    && forall shares: nat :: CanServe(t.venue(shares), shares, maxChunk)
  }

  /** How the window closes: the last oracle price, the resolution if one came, and when it is recorded. */
  datatype Close = Close(finalChainlink: Option<real>, resolved: Option<Direction>, today: int, at: int)

  ghost predicate InOrder(ticks: seq<Tick>, close: Close) {
    && (forall i, j :: 0 <= i < j < |ticks| ==> ticks[i].at <= ticks[j].now && ticks[i].today <= ticks[j].today)
    && (forall i :: 0 <= i < |ticks| ==> ticks[i].at <= close.at && ticks[i].today <= close.today)
    && 0 < close.at
  }

  /** What the risk check of a tick adds to the risk manager's history. */
  ghost function GateEvents(t: Tick, over: bool): seq<Risks.Event> {
    (if t.prices.Some? then [Risks.Check(over, t.first, t.second)] else []) +
    (if t.globalOn && t.latencyOn then [Risks.Query(t.today, t.at)] else [])
  }

  lemma GateAsks(log: seq<Risks.Event>, t: Tick, over: bool)
    ensures var more := log + GateEvents(t, over);
            && (t.prices.Some? ==> |more| > |log| && more[|log|] == Risks.Check(over, t.first, t.second))
            && (t.globalOn && t.latencyOn ==> |more| > |log| && more[|more| - 1] == Risks.Query(t.today, t.at))
  {
  }

  /** The risk manager was asked on a tick, as the n-th event of its history and after the first "from" events, and nothing
      in the history forbade trading. */
  ghost predicate Cleared(cfg: Risks.Config, start: Risks.Risk, log: seq<Risks.Event>, from: nat, t: Tick, n: nat) {
    && t.globalOn && t.latencyOn && from < n <= |log| && log[n - 1] == Risks.Query(t.today, t.at)
    && Managers.NothingForbids(cfg, start, log[..n], t.at)
  }

  /** When the loop came to tick i, the last clearance was less than a second old. */
  ghost predicate Guarded(cfg: Risks.Config, start: Risks.Risk, log: seq<Risks.Event>, from: nat, ticks: seq<Tick>, i: nat) {
    i < |ticks| &&
    exists j: nat, n: nat ::
      j <= i && ticks[i].now - ticks[j].now < RISK_CHECK_INTERVAL_MS && Cleared(cfg, start, log, from, ticks[j], n)
  }

  /** The last throttled check, as far as there was one, cleared its tick. */
  ghost predicate LastCleared(cfg: Risks.Config, start: Risks.Risk, log: seq<Risks.Event>, from: nat, ticks: seq<Tick>, i: nat,
                              checked: int)
  {
    i <= |ticks| &&
    (checked == 0 ||
     exists j: nat, n: nat :: j < i && ticks[j].now == checked && Cleared(cfg, start, log, from, ticks[j], n))
  }

  /** Every attempt was made on a tick of its own, in order, inside the trading hours of the window, on healthy feeds, under
      a fresh clearance, and its result is what the exchange of that tick answered. */
  ghost predicate Placed(timing: Timing, cfg: Risks.Config, start: Risks.Risk, riskLog: seq<Risks.Event>, from: nat,
                         ticks: seq<Tick>, log: seq<Attempt>, when: seq<nat>)
  {
    && timing.maxOrderShares > 0 && |when| == |log|
    && (forall k :: 0 < k < |when| ==> when[k - 1] < when[k])
    && (forall k :: 0 <= k < |when| ==> Guarded(cfg, start, riskLog, from, ticks, when[k]))
    && (forall k :: 0 <= k < |when| ==> MadeOn(timing, ticks[when[k]], log[k]))
  }

  ghost predicate MadeOn(timing: Timing, t: Tick, a: Attempt)
    requires timing.maxOrderShares > 0
  {
    var d := a.decision;
    && timing.minTimeRemaining <= t.timeRemaining <= timing.maxTimeRemaining && t.healthy
    && CanServe(t.venue(d.shares), d.shares, timing.maxOrderShares)
    && a.result == Executed(d.limitPrice, d.shares, timing.maxOrderShares, t.venue(d.shares))
  }

  lemma ClearedStays(cfg: Risks.Config, start: Risks.Risk, log: seq<Risks.Event>, more: seq<Risks.Event>, from: nat, t: Tick,
                     n: nat)
    requires Cleared(cfg, start, log, from, t, n) && log <= more
    ensures Cleared(cfg, start, more, from, t, n)
  {
    hide Managers.NothingForbids;
    assert more[..n] == log[..n];
  }

  lemma GuardedStays(cfg: Risks.Config, start: Risks.Risk, log: seq<Risks.Event>, more: seq<Risks.Event>, from: nat,
                     ticks: seq<Tick>, i: nat)
    requires Guarded(cfg, start, log, from, ticks, i) && log <= more
    ensures Guarded(cfg, start, more, from, ticks, i)
  {
    hide Cleared;
    var j: nat, n: nat :|
      j <= i && ticks[i].now - ticks[j].now < RISK_CHECK_INTERVAL_MS && Cleared(cfg, start, log, from, ticks[j], n);
    ClearedStays(cfg, start, log, more, from, ticks[j], n);
  }

  lemma PlacedStays(timing: Timing, cfg: Risks.Config, start: Risks.Risk, riskLog: seq<Risks.Event>, more: seq<Risks.Event>,
                    from: nat, ticks: seq<Tick>, log: seq<Attempt>, when: seq<nat>)
    requires Placed(timing, cfg, start, riskLog, from, ticks, log, when) && riskLog <= more
    ensures Placed(timing, cfg, start, more, from, ticks, log, when)
  {
    hide Guarded, MadeOn;
    forall k | 0 <= k < |when|
      ensures Guarded(cfg, start, more, from, ticks, when[k])
    {
      GuardedStays(cfg, start, riskLog, more, from, ticks, when[k]);
    }
  }

  /** A turn on tick i: the throttle and the gate keep both predicates. */
  lemma TurnCleared(cfg: Risks.Config, start: Risks.Risk, log: seq<Risks.Event>, more: seq<Risks.Event>, from: nat,
                    ticks: seq<Tick>, i: nat, before: int, after: int)
    requires LastCleared(cfg, start, log, from, ticks, i, before) && i < |ticks| && log <= more
    requires RISK_CHECK_INTERVAL_MS <= ticks[i].now
    requires if ticks[i].now - before >= RISK_CHECK_INTERVAL_MS
             then after == ticks[i].now && Cleared(cfg, start, more, from, ticks[i], |more|) else after == before && more == log
    ensures LastCleared(cfg, start, more, from, ticks, i + 1, after) && Guarded(cfg, start, more, from, ticks, i)
  {
    hide Cleared;
    if ticks[i].now - before < RISK_CHECK_INTERVAL_MS {
      var j: nat, n: nat :| j < i && ticks[j].now == before && Cleared(cfg, start, log, from, ticks[j], n);
      assert Cleared(cfg, start, more, from, ticks[j], n);
    }
  }

  ghost predicate AllBelow(when: seq<nat>, i: nat) {
    forall k :: 0 <= k < |when| ==> when[k] < i
  }

  lemma NothingPlaced(timing: Timing, cfg: Risks.Config, start: Risks.Risk, riskLog: seq<Risks.Event>, from: nat, ticks: seq<Tick>)
    requires timing.maxOrderShares > 0
    ensures Placed(timing, cfg, start, riskLog, from, ticks, [], []) && AllBelow([], 0)
    ensures LastCleared(cfg, start, riskLog, from, ticks, 0, 0)
  {
  }

  lemma TickSkipped(cfg: Risks.Config, start: Risks.Risk, log: seq<Risks.Event>, from: nat, ticks: seq<Tick>, i: nat,
                    checked: int, when: seq<nat>)
    requires LastCleared(cfg, start, log, from, ticks, i, checked) && i < |ticks| && AllBelow(when, i)
    ensures LastCleared(cfg, start, log, from, ticks, i + 1, checked) && AllBelow(when, i + 1)
  {
    hide Cleared;
  }

  lemma GateClears(cfg: Risks.Config, start: Risks.Risk, log: seq<Risks.Event>, more: seq<Risks.Event>, from: nat, t: Tick,
                   over: bool)
    requires more == log + GateEvents(t, over) && from <= |log|
    requires t.globalOn && t.latencyOn && Managers.NothingForbids(cfg, start, more, t.at)
    ensures Cleared(cfg, start, more, from, t, |more|)
  {
    hide Managers.NothingForbids;
    assert more[..|more|] == more;
  }

  /** What a turn that goes on, on tick i, does to the record of placements. */
  lemma TurnPlaced(timing: Timing, cfg: Risks.Config, start: Risks.Risk, before: seq<Risks.Event>, after: seq<Risks.Event>,
                   from: nat, ticks: seq<Tick>, i: nat, over: bool, checked: int, now: int, log: seq<Attempt>, more: seq<Attempt>,
                   when: seq<nat>)
    requires LastCleared(cfg, start, before, from, ticks, i, checked) && i < |ticks|
    requires from <= |before| && RISK_CHECK_INTERVAL_MS <= ticks[i].now
    requires Placed(timing, cfg, start, before, from, ticks, log, when) && AllBelow(when, i)
    requires if ticks[i].now - checked >= RISK_CHECK_INTERVAL_MS
             then now == ticks[i].now && after == before + GateEvents(ticks[i], over) &&
                  ticks[i].globalOn && ticks[i].latencyOn && Managers.NothingForbids(cfg, start, after, ticks[i].at)
             else now == checked && after == before
    requires more == log || (|more| == |log| + 1 && more[..|log|] == log && MadeOn(timing, ticks[i], more[|log|]))
    ensures LastCleared(cfg, start, after, from, ticks, i + 1, now)
    ensures var next := if more == log then when else when + [i];
            Placed(timing, cfg, start, after, from, ticks, more, next) && AllBelow(next, i + 1)
  {
    hide GateEvents, Managers.NothingForbids, Cleared, Guarded, MadeOn, LastCleared, Placed;
    if ticks[i].now - checked >= RISK_CHECK_INTERVAL_MS {
      GateClears(cfg, start, before, after, from, ticks[i], over);
    }
    TurnCleared(cfg, start, before, after, from, ticks, i, checked, now);
    PlacedStays(timing, cfg, start, before, after, from, ticks, log, when);
    if more != log {
      PlacedOneMore(timing, cfg, start, after, from, ticks, i, log, more, when);
    }
  }

  lemma PlacedOneMore(timing: Timing, cfg: Risks.Config, start: Risks.Risk, riskLog: seq<Risks.Event>, from: nat, ticks: seq<Tick>, i: nat,
                      log: seq<Attempt>, more: seq<Attempt>, when: seq<nat>)
    requires Placed(timing, cfg, start, riskLog, from, ticks, log, when) && AllBelow(when, i) && i < |ticks|
    requires Guarded(cfg, start, riskLog, from, ticks, i)
    requires |more| == |log| + 1 && more[..|log|] == log && MadeOn(timing, ticks[i], more[|log|])
    ensures Placed(timing, cfg, start, riskLog, from, ticks, more, when + [i]) && AllBelow(when + [i], i + 1)
  {
    hide Guarded, MadeOn;
    var next := when + [i];
    forall k | 0 <= k < |next|
      ensures MadeOn(timing, ticks[next[k]], more[k])
    {
      if k < |log| {
        assert more[k] == more[..|log|][k] == log[k];
      }
    }
  }

  /** Both risk checks of a tick come in the order of the clock. */
  lemma GateInOrder(firstDay: int, log: seq<Risks.Event>, t: Tick, over: bool)
    requires 0 < t.now <= t.first <= t.second <= t.at
    requires Risks.LastTime(log) <= t.now && Risks.CurrentDay(firstDay, log) <= t.today
    ensures Risks.Follows(firstDay, log, Risks.Check(over, t.first, t.second))
    ensures var checked := if t.prices.Some? then log + [Risks.Check(over, t.first, t.second)] else log;
            && Risks.Follows(firstDay, checked, Risks.Query(t.today, t.at))
            && log + GateEvents(t, over) == if t.globalOn && t.latencyOn then checked + [Risks.Query(t.today, t.at)] else checked
    ensures var more := log + GateEvents(t, over);
            Risks.LastTime(more) <= t.at && Risks.CurrentDay(firstDay, more) <= t.today
  {
    var checked := if t.prices.Some? then log + [Risks.Check(over, t.first, t.second)] else log;
    Risks.Dropped(log, Risks.Check(over, t.first, t.second));
    Risks.Dropped(checked, Risks.Query(t.today, t.at));
    assert log + GateEvents(t, over) == if t.globalOn && t.latencyOn then checked + [Risks.Query(t.today, t.at)] else checked;
  }

  lemma GateOnlyChecks(log: seq<Risks.Event>, t: Tick, over: bool)
    ensures OnlyChecked(log, log) && OnlyChecked(log, log + GateEvents(t, over))
  {
  }

  /** A turn's attempt, if it made one, is one made on its tick. */
  lemma AttemptMade(timing: Timing, t: Tick, log: seq<Attempt>, d: Signals.Decision)
    requires timing.maxOrderShares > 0 && Proper(t, timing.maxOrderShares)
    requires timing.minTimeRemaining <= t.timeRemaining <= timing.maxTimeRemaining && t.healthy
    ensures CanServe(t.venue(d.shares), d.shares, timing.maxOrderShares)
    ensures var more := log + [Attempt(d, Executed(d.limitPrice, d.shares, timing.maxOrderShares, t.venue(d.shares)))];
            |more| == |log| + 1 && more[..|log|] == log && MadeOn(timing, t, more[|log|])
  {
    hide Executed, CanServe, WellFormed;
  }

  // The course of a window, tick by tick

  datatype Setup = Setup(timing: Timing, signal: Signals.Config, risk: Risks.Config, start: Risks.Risk, one: nat)

  /** How far the loop has come: whether it still runs, the time of the last risk check, the risk manager's history, the
      cached books, the attempts made and the ticks they were made on. */
  datatype Progress = Progress(open: bool, checked: int, history: seq<Risks.Event>, upCache: Option<Signals.Snapshot>,
                               downCache: Option<Signals.Snapshot>, log: seq<Attempt>, when: seq<nat>)

  ghost predicate AllProper(ticks: seq<Tick>, maxChunk: nat) {
    maxChunk > 0 && forall i :: 0 <= i < |ticks| ==> Proper(ticks[i], maxChunk)
  }

  predicate InHours(timing: Timing, t: Tick) {
    timing.minTimeRemaining <= t.timeRemaining <= timing.maxTimeRemaining
  }

  predicate OverOn(cfg: Risks.Config, t: Tick) {
    t.prices.Some? && Managers.Apart(cfg, t.prices.value.0, t.prices.value.1)
  }

  ghost predicate Clears(u: Setup, t: Tick, history: seq<Risks.Event>) {
    t.globalOn && t.latencyOn && Managers.NothingForbids(u.risk, u.start, history, t.at)
  }

  ghost function DecisionOn(u: Setup, p: Progress, t: Tick): Option<Signals.Decision> {
    Signals.Decided(u.signal, t.reading, Spent(p.log, Up), Spent(p.log, Down), Signals.Fresher(p.upCache, t.up).asks,
                    Signals.Fresher(p.downCache, t.down).asks)
  }

  ghost function CacheOn(u: Setup, p: Progress, t: Tick, side: Direction): Option<Signals.Snapshot> {
    Signals.CacheAfter(u.signal, t.reading, Spent(p.log, Up), Spent(p.log, Down), Signals.Fresher(p.upCache, t.up).asks, side,
                       if side.Up? then p.upCache else p.downCache, if side.Up? then t.up else t.down)
  }

  /** A tick inside the hours: the risk check when it is due, and on healthy feeds the decision and what comes of it. */
  ghost function AfterTurn(u: Setup, p: Progress, t: Tick, i: nat): Progress
    requires u.timing.maxOrderShares > 0 && Proper(t, u.timing.maxOrderShares)
  {
    var due := t.now - p.checked >= RISK_CHECK_INTERVAL_MS;
    var history := p.history + if due then GateEvents(t, OverOn(u.risk, t)) else [];
    var q := p.(history := history, checked := if due then t.now else p.checked);
    if due && !Clears(u, t, history) then q.(open := false)
    else if !t.healthy then q
    else
      var d, looked := DecisionOn(u, p, t), q.(upCache := CacheOn(u, p, t, Up), downCache := CacheOn(u, p, t, Down));
      if d.None? then looked
      else looked.(log := p.log + [AttemptOn(u, t, d.value)], when := p.when + [i])
  }

  ghost function AttemptOn(u: Setup, t: Tick, d: Signals.Decision): Attempt
    requires u.timing.maxOrderShares > 0 && Proper(t, u.timing.maxOrderShares)
  {
    Attempt(d, Executed(d.limitPrice, d.shares, u.timing.maxOrderShares, t.venue(d.shares)))
  }

  ghost function AfterTick(u: Setup, p: Progress, t: Tick, i: nat): Progress
    requires u.timing.maxOrderShares > 0 && Proper(t, u.timing.maxOrderShares)
  {
    if !p.open then p
    else if t.timeRemaining < u.timing.minTimeRemaining then p.(open := false)
    else if t.timeRemaining > u.timing.maxTimeRemaining then p
    else AfterTurn(u, p, t, i)
  }

  ghost function StateAt(u: Setup, before: seq<Risks.Event>, ticks: seq<Tick>, n: nat): Progress
    requires AllProper(ticks, u.timing.maxOrderShares) && n <= |ticks|
  {
    if n == 0 then Progress(true, 0, before, None, None, [], [])
    else AfterTick(u, StateAt(u, before, ticks, n - 1), ticks[n - 1], n - 1)
  }

  // When a tick carries an attempt

  /** The risk check is due: inside the hours, a second after the last one. */
  ghost predicate DueAt(u: Setup, before: seq<Risks.Event>, ticks: seq<Tick>, j: nat)
    requires AllProper(ticks, u.timing.maxOrderShares) && j < |ticks|
  {
    InHours(u.timing, ticks[j]) && ticks[j].now - StateAt(u, before, ticks, j).checked >= 1000
  }

  /** The risk check of a tick finds both switches on and nothing in the history, this check included, to forbid trading. */
  ghost predicate ClearedAt(u: Setup, before: seq<Risks.Event>, ticks: seq<Tick>, j: nat)
    requires AllProper(ticks, u.timing.maxOrderShares) && j < |ticks|
  {
    var t := ticks[j];
    && t.globalOn && t.latencyOn
    && Managers.NothingForbids(u.risk, u.start, StateAt(u, before, ticks, j).history + GateEvents(t, OverOn(u.risk, t)), t.at)
  }

  /** Up to tick i no tick fell under the minimum time, and every risk check that was due let trading go on. */
  ghost predicate RunsThrough(u: Setup, before: seq<Risks.Event>, ticks: seq<Tick>, i: nat)
    requires AllProper(ticks, u.timing.maxOrderShares) && i <= |ticks|
  {
    && (forall j :: 0 <= j < i ==> u.timing.minTimeRemaining <= ticks[j].timeRemaining)
    && (forall j: nat :: j < i && DueAt(u, before, ticks, j) ==> ClearedAt(u, before, ticks, j))
  }

  /** A decision on some side is warranted by the reading, on what the attempts so far have spent and the books cached by
      then. */
  ghost predicate WarrantedAt(u: Setup, before: seq<Risks.Event>, ticks: seq<Tick>, i: nat)
    requires AllProper(ticks, u.timing.maxOrderShares) && i < |ticks|
  {
    var p, t := StateAt(u, before, ticks, i), ticks[i];
    exists side :: Signals.Warranted(u.signal, t.reading, Spent(p.log, Up), Spent(p.log, Down),
                                     Signals.Fresher(p.upCache, t.up).asks, Signals.Fresher(p.downCache, t.down).asks, side)
  }

  ghost predicate ShouldTrade(u: Setup, before: seq<Risks.Event>, ticks: seq<Tick>, i: nat)
    requires AllProper(ticks, u.timing.maxOrderShares) && i < |ticks|
  {
    && InHours(u.timing, ticks[i]) && ticks[i].healthy
    && RunsThrough(u, before, ticks, i + 1) && WarrantedAt(u, before, ticks, i)
  }

  /** The attempts of a window are those of its ticks: a tick carries one if and only if it should, on the decision of that
      tick after the attempts before it. */
  ghost predicate Complete(u: Setup, before: seq<Risks.Event>, ticks: seq<Tick>, log: seq<Attempt>, when: seq<nat>) {
    && AllProper(ticks, u.timing.maxOrderShares) && |when| == |log|
    && (forall i: nat :: i < |ticks| ==> (i in when <==> ShouldTrade(u, before, ticks, i)))
    && (forall k :: 0 <= k < |when| ==> when[k] < |ticks| && OnTurn(u, before, ticks, log, k, when[k]))
  }

  ghost predicate OnTurn(u: Setup, before: seq<Risks.Event>, ticks: seq<Tick>, log: seq<Attempt>, k: nat, i: nat)
    requires AllProper(ticks, u.timing.maxOrderShares) && k < |log| && i < |ticks|
  {
    var p := StateAt(u, before, ticks, i);
    p.log == log[..k] && DecisionOn(u, p, ticks[i]) == Some(log[k].decision)
  }

  /** The loop still runs at a tick if and only if it has run through all before it. */
  lemma {:induction false} OpenIff(u: Setup, before: seq<Risks.Event>, ticks: seq<Tick>, i: nat)
    requires AllProper(ticks, u.timing.maxOrderShares) && i <= |ticks|
    ensures StateAt(u, before, ticks, i).open <==> RunsThrough(u, before, ticks, i)
  {
    hide DueAt, ClearedAt, AllProper, StateAt, RunsThrough;
    if i > 0 {
      OpenIff(u, before, ticks, i - 1);
      StaysOpenIff(u, before, ticks, i - 1);
      RunsOnIff(u, before, ticks, i - 1);
    } else {
      OpenAtFirst(u, before, ticks);
    }
  }

  lemma OpenAtFirst(u: Setup, before: seq<Risks.Event>, ticks: seq<Tick>)
    requires AllProper(ticks, u.timing.maxOrderShares)
    ensures StateAt(u, before, ticks, 0).open && RunsThrough(u, before, ticks, 0)
  {
    hide DueAt, ClearedAt, AllProper;
  }

  lemma StaysOpenIff(u: Setup, before: seq<Risks.Event>, ticks: seq<Tick>, i: nat)
    requires AllProper(ticks, u.timing.maxOrderShares) && i < |ticks|
    ensures StateAt(u, before, ticks, i + 1).open <==>
            && StateAt(u, before, ticks, i).open && u.timing.minTimeRemaining <= ticks[i].timeRemaining
            && (DueAt(u, before, ticks, i) ==> ClearedAt(u, before, ticks, i))
  {
    hide GateEvents, Managers.NothingForbids, DecisionOn, CacheOn, AttemptOn, OverOn, WellFormed, CanServe;
    assert Proper(ticks[i], u.timing.maxOrderShares);
    var p := StateAt(u, before, ticks, i);
    assert StateAt(u, before, ticks, i + 1) == AfterTick(u, p, ticks[i], i);
    hide StateAt;
  }

  lemma RunsOnIff(u: Setup, before: seq<Risks.Event>, ticks: seq<Tick>, i: nat)
    requires AllProper(ticks, u.timing.maxOrderShares) && i < |ticks|
    ensures RunsThrough(u, before, ticks, i + 1) <==>
            && RunsThrough(u, before, ticks, i) && u.timing.minTimeRemaining <= ticks[i].timeRemaining
            && (DueAt(u, before, ticks, i) ==> ClearedAt(u, before, ticks, i))
  {
    hide DueAt, ClearedAt, AllProper;
  }

  lemma {:induction false} CachesUsable(u: Setup, before: seq<Risks.Event>, ticks: seq<Tick>, i: nat)
    requires AllProper(ticks, u.timing.maxOrderShares) && i <= |ticks|
    ensures Signals.Usable(StateAt(u, before, ticks, i).upCache) && Signals.Usable(StateAt(u, before, ticks, i).downCache)
  {
    hide GateEvents, Clears, DecisionOn, AttemptOn, WellFormed, CanServe, OverOn, Signals.LooksAt;
    if i > 0 {
      CachesUsable(u, before, ticks, i - 1);
      assert Proper(ticks[i - 1], u.timing.maxOrderShares);
    }
  }

  /** One more tick carries an attempt if and only if it should. */
  lemma TickTradesIff(u: Setup, before: seq<Risks.Event>, ticks: seq<Tick>, i: nat)
    requires AllProper(ticks, u.timing.maxOrderShares) && i < |ticks| && u.signal.Valid()
    ensures var p, q := StateAt(u, before, ticks, i), StateAt(u, before, ticks, i + 1);
            if ShouldTrade(u, before, ticks, i) then
              && DecisionOn(u, p, ticks[i]).Some? && Proper(ticks[i], u.timing.maxOrderShares)
              && q.when == p.when + [i] && q.log == p.log + [AttemptOn(u, ticks[i], DecisionOn(u, p, ticks[i]).value)]
            else q.when == p.when && q.log == p.log
  {
    hide GateEvents, Clears, CacheOn, AttemptOn, OverOn, DecisionOn, WarrantedAt, RunsThrough, WellFormed, CanServe;
    assert Proper(ticks[i], u.timing.maxOrderShares);
    OpenIff(u, before, ticks, i);
    OpenIff(u, before, ticks, i + 1);
    RunsOnIff(u, before, ticks, i);
    DecisionIff(u, before, ticks, i);
    var p := StateAt(u, before, ticks, i);
    assert StateAt(u, before, ticks, i + 1) == AfterTick(u, p, ticks[i], i);
    hide StateAt;
  }

  lemma DecisionIff(u: Setup, before: seq<Risks.Event>, ticks: seq<Tick>, i: nat)
    requires AllProper(ticks, u.timing.maxOrderShares) && i < |ticks| && u.signal.Valid()
    ensures DecisionOn(u, StateAt(u, before, ticks, i), ticks[i]).Some? <==> WarrantedAt(u, before, ticks, i)
  {
    hide Signals.Decided, Signals.Warranted, WellFormed, CanServe, StateAt, Spent, Signals.Fresher;
    var p, t := StateAt(u, before, ticks, i), ticks[i];
    CachesUsable(u, before, ticks, i);
    assert Proper(t, u.timing.maxOrderShares);
    Signals.FresherUsable(p.upCache, t.up);
    Signals.FresherUsable(p.downCache, t.down);
    var upAsks, downAsks := Signals.Fresher(p.upCache, t.up).asks, Signals.Fresher(p.downCache, t.down).asks;
    var d := DecisionOn(u, p, t);
    if d.Some? {
      Signals.DecidesIff(u.signal, t.reading, Spent(p.log, Up), Spent(p.log, Down), upAsks, downAsks, d.value.side);
    }
    forall side | Signals.Warranted(u.signal, t.reading, Spent(p.log, Up), Spent(p.log, Down), upAsks, downAsks, side)
      ensures d.Some?
    {
      Signals.DecidesIff(u.signal, t.reading, Spent(p.log, Up), Spent(p.log, Down), upAsks, downAsks, side);
    }
  }

  lemma {:induction false} StateComplete(u: Setup, before: seq<Risks.Event>, ticks: seq<Tick>, n: nat)
    requires AllProper(ticks, u.timing.maxOrderShares) && n <= |ticks| && u.signal.Valid()
    ensures var p := StateAt(u, before, ticks, n);
            && |p.when| == |p.log| && (forall k :: 0 <= k < |p.when| ==> p.when[k] < n)
            && (forall i: nat :: i < n ==> (i in p.when <==> ShouldTrade(u, before, ticks, i)))
            && (forall k :: 0 <= k < |p.when| ==> OnTurn(u, before, ticks, p.log, k, p.when[k]))
  {
    hide ShouldTrade, OnTurn, AllProper, StateAt, AttemptOn, DecisionOn;
    if n == 0 {
      NothingYetAt(u, before, ticks);
    } else {
      var p, q := StateAt(u, before, ticks, n - 1), StateAt(u, before, ticks, n);
      StateComplete(u, before, ticks, n - 1);
      TickTradesIff(u, before, ticks, n - 1);
      MembersGrow(p.when, q.when, n - 1, ShouldTrade(u, before, ticks, n - 1));
      if ShouldTrade(u, before, ticks, n - 1) {
        ProperAt(ticks, n - 1, u.timing.maxOrderShares);
        AttemptDecides(u, ticks[n - 1], DecisionOn(u, p, ticks[n - 1]).value);
      }
      forall k | 0 <= k < |q.when|
        ensures OnTurn(u, before, ticks, q.log, k, q.when[k])
      {
        TurnsKept(u, before, ticks, p, q, n - 1, k);
      }
    }
  }

  lemma WindowComplete(u: Setup, before: seq<Risks.Event>, ticks: seq<Tick>, log: seq<Attempt>, when: seq<nat>)
    requires AllProper(ticks, u.timing.maxOrderShares) && u.signal.Valid()
    requires log == StateAt(u, before, ticks, |ticks|).log && when == StateAt(u, before, ticks, |ticks|).when
    ensures Complete(u, before, ticks, log, when)
  {
    hide StateAt, ShouldTrade, OnTurn, AllProper;
    StateComplete(u, before, ticks, |ticks|);
  }

  lemma NothingYetAt(u: Setup, before: seq<Risks.Event>, ticks: seq<Tick>)
    requires AllProper(ticks, u.timing.maxOrderShares)
    ensures StateAt(u, before, ticks, 0) == Progress(true, 0, before, None, None, [], [])
  {
    hide AllProper;
  }

  lemma MembersGrow(when: seq<nat>, more: seq<nat>, n: nat, one: bool)
    requires forall k :: 0 <= k < |when| ==> when[k] < n
    requires more == if one then when + [n] else when
    ensures forall k :: 0 <= k < |more| ==> more[k] < n + 1
    ensures forall i: nat :: i < n ==> (i in more <==> i in when)
    ensures n in more <==> one
  {
  }

  lemma AttemptDecides(u: Setup, t: Tick, d: Signals.Decision)
    requires u.timing.maxOrderShares > 0 && Proper(t, u.timing.maxOrderShares)
    ensures AttemptOn(u, t, d).decision == d
  {
    hide Proper, Executed;
  }

  lemma TurnsKept(u: Setup, before: seq<Risks.Event>, ticks: seq<Tick>, p: Progress, q: Progress, i: nat, k: nat)
    requires AllProper(ticks, u.timing.maxOrderShares) && i < |ticks| && p == StateAt(u, before, ticks, i)
    requires |p.when| == |p.log| && |q.when| == |q.log| && k < |q.when|
    requires forall j :: 0 <= j < |p.when| ==> p.when[j] < i && OnTurn(u, before, ticks, p.log, j, p.when[j])
    requires (q.when == p.when && q.log == p.log) ||
             (q.when == p.when + [i] && DecisionOn(u, p, ticks[i]).Some? && |q.log| == |p.log| + 1 && q.log[..|p.log|] == p.log
              && q.log[|p.log|].decision == DecisionOn(u, p, ticks[i]).value)
    ensures q.when[k] < |ticks| && OnTurn(u, before, ticks, q.log, k, q.when[k])
  {
    hide StateAt, DecisionOn, AllProper;
    if k < |p.when| {
      assert OnTurn(u, before, ticks, p.log, k, p.when[k]);
      assert q.log[..k] == q.log[..|p.log|][..k] && q.log[k] == q.log[..|p.log|][k];
    }
  }

  /** A turn from what it asked, looked at and did. */
  lemma TurnIs(u: Setup, p: Progress, t: Tick, i: nat, q: Progress)
    requires u.timing.maxOrderShares > 0 && Proper(t, u.timing.maxOrderShares) && p.open
    requires var due := t.now - p.checked >= RISK_CHECK_INTERVAL_MS;
             && q.checked == (if due then t.now else p.checked)
             && q.history == p.history + (if due then GateEvents(t, OverOn(u.risk, t)) else [])
             && (q.open <==> due ==> Clears(u, t, q.history))
    requires if q.open && t.healthy then
               && q.upCache == CacheOn(u, p, t, Up) && q.downCache == CacheOn(u, p, t, Down)
               && var d := DecisionOn(u, p, t);
                  if d.Some? then q.log == p.log + [AttemptOn(u, t, d.value)] && q.when == p.when + [i]
                  else q.log == p.log && q.when == p.when
             else q.upCache == p.upCache && q.downCache == p.downCache && q.log == p.log && q.when == p.when
    ensures AfterTurn(u, p, t, i) == q
  {
    hide Proper, GateEvents, Clears, CacheOn, DecisionOn, AttemptOn, OverOn;
  }

  lemma ProperAt(ticks: seq<Tick>, i: nat, maxChunk: nat)
    requires AllProper(ticks, maxChunk) && i < |ticks|
    ensures maxChunk > 0 && Proper(ticks[i], maxChunk)
  {
    hide Proper;
  }

  lemma StateStep(u: Setup, before: seq<Risks.Event>, ticks: seq<Tick>, i: nat)
    requires AllProper(ticks, u.timing.maxOrderShares) && i < |ticks|
    ensures Proper(ticks[i], u.timing.maxOrderShares)
    ensures StateAt(u, before, ticks, i + 1) == AfterTick(u, StateAt(u, before, ticks, i), ticks[i], i)
  {
    hide Proper, AfterTurn;
  }

  /** A loop that has stopped makes no more attempts. */
  lemma {:induction false} StaysClosed(u: Setup, before: seq<Risks.Event>, ticks: seq<Tick>, i: nat, n: nat)
    requires AllProper(ticks, u.timing.maxOrderShares) && i <= n <= |ticks| && !StateAt(u, before, ticks, i).open
    ensures StateAt(u, before, ticks, n) == StateAt(u, before, ticks, i)
    decreases n
  {
    hide StateAt, AfterTurn, AllProper;
    if i < n {
      StaysClosed(u, before, ticks, i, n - 1);
      StateStep(u, before, ticks, n - 1);
    }
  }

  /** The last risk check, while the loop runs: that of the latest tick it was due on, if there was one. */
  lemma {:induction false} LastCheckIs(u: Setup, before: seq<Risks.Event>, ticks: seq<Tick>, i: nat)
    requires AllProper(ticks, u.timing.maxOrderShares) && i <= |ticks| && StateAt(u, before, ticks, i).open
    ensures var checked := StateAt(u, before, ticks, i).checked;
            || (checked == 0 && forall k: nat :: k < i ==> !DueAt(u, before, ticks, k))
            || exists j: nat :: j < i && DueAt(u, before, ticks, j) && checked == ticks[j].now &&
                                forall k: nat :: j < k < i ==> !DueAt(u, before, ticks, k)
  {
    hide StateAt, DueAt, AllProper;
    if i == 0 {
      NothingYetAt(u, before, ticks);
    } else {
      CheckStep(u, before, ticks, i - 1);
      LastCheckIs(u, before, ticks, i - 1);
    }
  }

  lemma CheckStep(u: Setup, before: seq<Risks.Event>, ticks: seq<Tick>, i: nat)
    requires AllProper(ticks, u.timing.maxOrderShares) && i < |ticks| && StateAt(u, before, ticks, i + 1).open
    ensures StateAt(u, before, ticks, i).open
    ensures StateAt(u, before, ticks, i + 1).checked ==
            if DueAt(u, before, ticks, i) then ticks[i].now else StateAt(u, before, ticks, i).checked
  {
    StateStep(u, before, ticks, i);
    hide StateAt, AllProper, Proper, GateEvents, Clears, DecisionOn, CacheOn, AttemptOn, OverOn;
  }

  function FeedOf(t: Tick, side: Direction): Signals.Feed {
    if side.Up? then t.up else t.down
  }

  ghost function CacheAt(u: Setup, before: seq<Risks.Event>, ticks: seq<Tick>, i: nat, side: Direction): Option<Signals.Snapshot>
    requires AllProper(ticks, u.timing.maxOrderShares) && i <= |ticks|
  {
    if side.Up? then StateAt(u, before, ticks, i).upCache else StateAt(u, before, ticks, i).downCache
  }

  /** The book a side is judged on at a tick is the one fetched on it, or one that an earlier tick of the window fetched less
      than half a second ago. */
  lemma BookIsRecent(u: Setup, before: seq<Risks.Event>, ticks: seq<Tick>, i: nat, side: Direction)
    requires AllProper(ticks, u.timing.maxOrderShares) && i < |ticks|
    ensures var feed := FeedOf(ticks[i], side);
            var book := Signals.Fresher(CacheAt(u, before, ticks, i, side), feed);
            book == feed.fetched ||
            (feed.now - book.fetchedAt < 500 && exists j: nat :: j < i && book == FeedOf(ticks[j], side).fetched)
  {
    hide StateAt, AllProper;
    CachedByTick(u, before, ticks, i, side);
  }

  lemma {:induction false} CachedByTick(u: Setup, before: seq<Risks.Event>, ticks: seq<Tick>, i: nat, side: Direction)
    requires AllProper(ticks, u.timing.maxOrderShares) && i <= |ticks|
    ensures var cache := CacheAt(u, before, ticks, i, side);
            cache.Some? ==> exists j: nat :: j < i && cache.value == FeedOf(ticks[j], side).fetched
  {
    hide StateAt, AllProper, Signals.LooksAt;
    if i == 0 {
      NothingYetAt(u, before, ticks);
    } else {
      CachedByTick(u, before, ticks, i - 1, side);
      CacheStep(u, before, ticks, i - 1, side);
    }
  }

  lemma CacheStep(u: Setup, before: seq<Risks.Event>, ticks: seq<Tick>, i: nat, side: Direction)
    requires AllProper(ticks, u.timing.maxOrderShares) && i < |ticks|
    ensures var old', new' := CacheAt(u, before, ticks, i, side), CacheAt(u, before, ticks, i + 1, side);
            new' == old' || new' == Some(Signals.Fresher(old', FeedOf(ticks[i], side)))
  {
    StateStep(u, before, ticks, i);
    hide StateAt, AllProper, Proper, GateEvents, Clears, DecisionOn, AttemptOn, OverOn, Signals.LooksAt, Signals.Fresher;
  }

  // Windows in a row

  /** What mainLoop meets at a window: its timestamp, its market and price if there are any, and all that is read later. */
  datatype Input = Input(windowTs: int, marketFound: bool, priceToBeat: Option<real>, ticks: seq<Tick>, close: Close) {
    predicate Played() {
      marketFound && priceToBeat.Some?
    }
  }

  datatype Window = Window(input: Input, log: seq<Attempt>, when: seq<nat>)

  /** A window took the risk manager's history from one state to another: checks, then the record of a tracked window. */
  ghost predicate Ran(u: Setup, before: seq<Risks.Event>, after: seq<Risks.Event>, w: Window) {
    && w.input.Played() && InOrder(w.input.ticks, w.input.close) && Reachable(u.signal, w.log)
    && Placed(u.timing, u.risk, u.start, after, |before|, w.input.ticks, w.log, w.when)
    && Complete(u, before, w.input.ticks, w.log, w.when)
    && |after| > 0 && OnlyChecked(before, after[..|after| - 1])
    && after[..|after| - 1] == StateAt(u, before, w.input.ticks, |w.input.ticks|).history
    && after[|after| - 1] == WindowResult(true, w.log, w.input.priceToBeat.value, w.input.close, u.one)
  }

  /** The windows of a session, with the risk manager's history before each and after the last. */
  ghost predicate Session(u: Setup, logs: seq<seq<Risks.Event>>, ws: seq<Window>) {
    |logs| == |ws| + 1 && logs[0] == [] && forall i :: 0 <= i < |ws| ==> Ran(u, logs[i], logs[i + 1], ws[i])
  }

  /** One window is over before the next begins, and its timestamp is not later. */
  ghost predicate Precedes(a: Input, b: Input) {
    && a.windowTs <= b.windowTs && a.close.at <= b.close.at && a.close.today <= b.close.today
    && forall i :: 0 <= i < |b.ticks| ==> a.close.at <= b.ticks[i].now && a.close.today <= b.ticks[i].today
  }

  ghost predicate InSequence(inputs: seq<Input>, firstDay: int, maxChunk: nat)
    requires maxChunk > 0
  {
    && (forall i, j :: 0 <= i < j < |inputs| ==> Precedes(inputs[i], inputs[j]))
    && (forall i :: 0 <= i < |inputs| ==>
          && InOrder(inputs[i].ticks, inputs[i].close) && firstDay <= inputs[i].close.today
          && forall k :: 0 <= k < |inputs[i].ticks| ==>
               Proper(inputs[i].ticks[k], maxChunk) && firstDay <= inputs[i].ticks[k].today)
  }

  function PlayedOf(inputs: seq<Input>): seq<Input> {
    if |inputs| == 0 then []
    else PlayedOf(inputs[..|inputs| - 1]) + if inputs[|inputs| - 1].Played() then [inputs[|inputs| - 1]] else []
  }

  function InputsOf(ws: seq<Window>): (r: seq<Input>)
    ensures |r| == |ws| && forall k :: 0 <= k < |ws| ==> r[k] == ws[k].input
  {
    seq(|ws|, k requires 0 <= k < |ws| => ws[k].input)
  }

  lemma FirstInTime(inputs: seq<Input>, firstDay: int, maxChunk: nat)
    requires maxChunk > 0 && InSequence(inputs, firstDay, maxChunk)
    ensures forall j :: 0 <= j < |inputs| ==> NotLater(firstDay, [], inputs[j].ticks, 0, inputs[j].close)
    ensures PlayedOf(inputs[..0]) == []
  {
    hide WellFormed, CanServe;
  }

  lemma NextInput(inputs: seq<Input>, i: nat, firstDay: int, maxChunk: nat)
    requires maxChunk > 0 && InSequence(inputs, firstDay, maxChunk) && i < |inputs|
    ensures InOrder(inputs[i].ticks, inputs[i].close)
    ensures forall k :: 0 <= k < |inputs[i].ticks| ==> Proper(inputs[i].ticks[k], maxChunk)
    ensures PlayedOf(inputs[..i + 1]) == PlayedOf(inputs[..i]) + if inputs[i].Played() then [inputs[i]] else []
  {
    hide Proper, InOrder, Precedes;
    assert inputs[..i + 1][..i] == inputs[..i];
  }

  lemma SettledInTime(firstDay: int, log: seq<Risks.Event>, w: Window, one: nat, inputs: seq<Input>, i: nat, j: nat,
                      maxChunk: nat)
    requires maxChunk > 0 && InSequence(inputs, firstDay, maxChunk) && i < j < |inputs| && w.input == inputs[i]
    requires w.input.Played() && |log| > 0
    requires log[|log| - 1] == WindowResult(true, w.log, w.input.priceToBeat.value, w.input.close, one)
    ensures NotLater(firstDay, log, inputs[j].ticks, 0, inputs[j].close) && inputs[i].windowTs <= inputs[j].windowTs
  {
    hide Proper, InOrder;
    assert Precedes(inputs[i], inputs[j]);
  }

  lemma RanBy(u: Setup, before: seq<Risks.Event>, after: seq<Risks.Event>, w: Window)
    requires w.input.Played() && InOrder(w.input.ticks, w.input.close) && Reachable(u.signal, w.log)
    requires Placed(u.timing, u.risk, u.start, after, |before|, w.input.ticks, w.log, w.when)
    requires Complete(u, before, w.input.ticks, w.log, w.when)
    requires |after| > 0 && OnlyChecked(before, after[..|after| - 1])
    requires after[..|after| - 1] == StateAt(u, before, w.input.ticks, |w.input.ticks|).history
    requires after[|after| - 1] == WindowResult(true, w.log, w.input.priceToBeat.value, w.input.close, u.one)
    ensures Ran(u, before, after, w)
  {
  }

  lemma SessionGrows(u: Setup, logs: seq<seq<Risks.Event>>, ws: seq<Window>, after: seq<Risks.Event>, w: Window)
    requires Session(u, logs, ws) && Ran(u, logs[|ws|], after, w)
    ensures Session(u, logs + [after], ws + [w]) && InputsOf(ws + [w]) == InputsOf(ws) + [w.input]
  {
    hide Ran;
    var more, all := logs + [after], ws + [w];
    forall i | 0 <= i < |all|
      ensures Ran(u, more[i], more[i + 1], all[i])
    {
      if i < |ws| {
        assert more[i] == logs[i] && more[i + 1] == logs[i + 1] && all[i] == ws[i];
      }
    }
  }

  class LatencyBot {
    const signal: Signals.Signal
    const tracker: Tracking.WindowTracker
    const risk: Managers.LatencyRiskManager
    const timing: Timing
    const one: nat

    constructor (signal: Signals.Signal, tracker: Tracking.WindowTracker, risk: Managers.LatencyRiskManager, timing: Timing, one: nat)
      ensures this.signal == signal && this.tracker == tracker && this.risk == risk && this.timing == timing && this.one == one
    {
      this.signal, this.tracker, this.risk, this.timing, this.one := signal, tracker, risk, timing, one;
    }

    ghost predicate Valid()
      reads signal, tracker, risk
    {
      signal.Valid() && tracker.Valid() && risk.Valid() && timing.maxOrderShares > 0
    }

    /** The three ledgers after some attempts. */
    ghost predicate Agree(log: seq<Attempt>, windowTs: int, priceToBeat: real)
      reads signal, tracker, risk, tracker.windows.Values
    {
      && Reachable(signal.cfg, log)
      && signal.upSpent == Spent(log, Up) && signal.downSpent == Spent(log, Down)
      && risk.windowUpSpent == Filled(log, Up) && risk.windowDownSpent == Filled(log, Down)
      && (windowTs in tracker.windows ==>
            tracker.windows[windowTs].View() == Tracking.AllRecorded(Tracking.Opened(priceToBeat), FillsOf(log)))
    }

    /** The throttled risk check: the oracle comparison first, then the question whether trading may go on. */
    method RiskGate(t: Tick) returns (allowed: bool)
      requires risk.Valid() && timing.maxOrderShares > 0 && Proper(t, timing.maxOrderShares)
      requires Risks.LastTime(risk.log) <= t.now && Risks.CurrentDay(risk.start.dailyDate, risk.log) <= t.today
      modifies risk
      ensures risk.Valid() && unchanged(risk`windowUpSpent, risk`windowDownSpent, risk`start)
      ensures Risks.LastTime(risk.log) <= t.at && Risks.CurrentDay(risk.start.dailyDate, risk.log) <= t.today
      ensures risk.log == old(risk.log) + GateEvents(t, t.prices.Some? && risk.Over(t.prices.value.0, t.prices.value.1))
      ensures t.prices.Some? ==>
                var difference := t.prices.value.0 - t.prices.value.1;
                |risk.log| > |old(risk.log)| &&
                risk.log[|old(risk.log)|] ==
                Risks.Check(difference >= risk.cfg.divergenceLimit || -difference >= risk.cfg.divergenceLimit, t.first, t.second)
      ensures t.globalOn && t.latencyOn ==>
                |risk.log| > |old(risk.log)| && risk.log[|risk.log| - 1] == Risks.Query(t.today, t.at)
      ensures allowed <==> t.globalOn && t.latencyOn && Managers.NothingForbids(risk.cfg, risk.start, risk.log, t.at)
    {
      hide Risks.Run, Risks.History, Risks.Fresh, Managers.NothingForbids, Risks.Halted, Managers.Paused, Managers.DayProfitOf, Managers.SessionProfitOf, GateEvents;
      hide Risks.LastTime, Risks.CurrentDay, Risks.Follows, WellFormed, CanServe;
      ghost var over := t.prices.Some? && risk.Over(t.prices.value.0, t.prices.value.1);
      GateAsks(risk.log, t, over);
      GateInOrder(risk.start.dailyDate, risk.log, t, over);
      if t.prices.Some? {
        risk.CheckOracleDivergence(t.prices.value.0, t.prices.value.1, t.first, t.second);
      }
      var verdict, switchOff := risk.CanTrade(t.globalOn, t.latencyOn, t.today, t.at);
      return verdict == Managers.Allowed;
    }

    /** Executes a decision and records it in the ledgers. */
    method Trade(d: Signals.Decision, venue: Venue, windowTs: int, priceToBeat: real, ghost log: seq<Attempt>)
      returns (ghost more: seq<Attempt>)
      requires Valid() && Agree(log, windowTs, priceToBeat)
      requires CanServe(venue, d.shares, timing.maxOrderShares)
      requires d.side in Signals.Sides(signal.upSpent, signal.downSpent)
      requires Signals.Sound(signal.cfg, if d.side.Up? then signal.upSpent else signal.downSpent, d)
      modifies signal, risk, if windowTs in tracker.windows then {tracker.windows[windowTs]} else {}
      ensures Valid() && Agree(more, windowTs, priceToBeat) && unchanged(risk`log, risk`start)
      ensures unchanged(signal`upBookCache, signal`downBookCache)
      ensures |more| == |log| + 1 && more[..|log|] == log && more[|log|].decision == d
      ensures more[|log|].result == Executed(d.limitPrice, d.shares, timing.maxOrderShares, venue)
    {
      hide Signals.Sound, Signals.Sides, Executed, CanServe, FillsOf, Filled, Spent, Within, Reachable;
      hide Tracking.Recorded, Tracking.AllRecorded, Risks.Run, Risks.History, Risks.Fresh, Tracking.Cost;
      var result := ExecuteSingle(d.limitPrice, d.shares, timing.maxOrderShares, venue);
      ghost var a := Attempt(d, result);
      more := log + [a];
      ExecutionWithin(signal.cfg, if d.side.Up? then signal.upSpent else signal.downSpent, d, timing.maxOrderShares, venue);
      Grown(log, a);
      ReachableGrows(signal.cfg, log, a);
      var positionCost := if result.success then FillCost(Attempt(d, result)) else d.totalCost as real;
      signal.RecordFill(d.side, positionCost);
      if result.success {
        RecordedLast(Tracking.Opened(priceToBeat), FillsOf(log), AsFill(a));
        tracker.RecordFill(windowTs, Tracking.Fill(d.side, result.size, result.price, result.orderIds));
        risk.AddWindowPosition(d.side, FillCost(Attempt(d, result)));
      }
    }

    /** One turn of the loop inside the trading hours of the window: the risk check when it is due, the health check, the
        evaluation, and the trade it may lead to. Without "go" the loop stops. */
    method Turn(t: Tick, windowTs: int, priceToBeat: real, lastRiskCheckMs: int, ghost log: seq<Attempt>, ghost p: Progress,
                ghost i: nat)
      returns (go: bool, lastCheck: int, ghost more: seq<Attempt>)
      requires Valid() && Agree(log, windowTs, priceToBeat) && Proper(t, timing.maxOrderShares)
      requires p == Progress(true, lastRiskCheckMs, risk.log, signal.upBookCache, signal.downBookCache, log, p.when)
      requires Risks.LastTime(risk.log) <= t.now && Risks.CurrentDay(risk.start.dailyDate, risk.log) <= t.today
      modifies signal, risk, if windowTs in tracker.windows then {tracker.windows[windowTs]} else {}
      ensures Valid() && Agree(more, windowTs, priceToBeat) && unchanged(risk`start)
      ensures Risks.LastTime(risk.log) <= t.at && Risks.CurrentDay(risk.start.dailyDate, risk.log) <= t.today
      ensures OnlyChecked(old(risk.log), risk.log)
      ensures var due := t.now - lastRiskCheckMs >= RISK_CHECK_INTERVAL_MS;
              && lastCheck == (if due then t.now else lastRiskCheckMs)
              && risk.log == old(risk.log) +
                 (if due then GateEvents(t, t.prices.Some? && risk.Over(t.prices.value.0, t.prices.value.1)) else [])
              && (go <==> due ==> t.globalOn && t.latencyOn && Managers.NothingForbids(risk.cfg, risk.start, risk.log, t.at))
      ensures var d := Signals.Decided(signal.cfg, t.reading, old(signal.upSpent), old(signal.downSpent),
                                       Signals.Fresher(old(signal.upBookCache), t.up).asks,
                                       Signals.Fresher(old(signal.downBookCache), t.down).asks);
              if go && t.healthy && d.Some?
              then more == log + [Attempt(d.value, Executed(d.value.limitPrice, d.value.shares, timing.maxOrderShares,
                                                            t.venue(d.value.shares)))]
              else more == log
      ensures AfterTurn(Setup(timing, signal.cfg, risk.cfg, risk.start, one), p, t, i) ==
              Progress(go, lastCheck, risk.log, signal.upBookCache, signal.downBookCache, more,
                       if |more| == |log| then p.when else p.when + [i])
    {
      hide Signals.CacheAfter, Signals.Warranted, Signals.LooksAt, Signals.Fresher, AfterTurn;
      hide Signals.Sound, Signals.Decided, Signals.Sides, Reachable, Spent, Filled, FillsOf, Tracking.AllRecorded;
      hide Risks.Run, Risks.History, Risks.Fresh, Managers.NothingForbids, WellFormed, CanServe, Executed, GateEvents, OnlyChecked;
      GateOnlyChecks(risk.log, t, t.prices.Some? && risk.Over(t.prices.value.0, t.prices.value.1));
      go, lastCheck, more := true, lastRiskCheckMs, log;
      if t.now - lastRiskCheckMs >= RISK_CHECK_INTERVAL_MS {
        lastCheck := t.now;
        go := RiskGate(t);
      }
      if go && t.healthy {
        ghost var upAsks, downAsks := Signals.Fresher(signal.upBookCache, t.up).asks, Signals.Fresher(signal.downBookCache, t.down).asks;
        Signals.FresherUsable(signal.upBookCache, t.up);
        Signals.FresherUsable(signal.downBookCache, t.down);
        var decision := signal.Evaluate(t.reading, t.up, t.down);
        if decision.Some? {
          Signals.DecidedSound(signal.cfg, t.reading, signal.upSpent, signal.downSpent, upAsks, downAsks);
          more := Trade(decision.value, t.venue(decision.value.shares), windowTs, priceToBeat, log);
        }
      }
      TurnIs(Setup(timing, signal.cfg, risk.cfg, risk.start, one), p, t, i,
             Progress(go, lastCheck, risk.log, signal.upBookCache, signal.downBookCache, more,
                      if |more| == |log| then p.when else p.when + [i]));
    }

    /** Opens a window's record and clears what signal and risk manager hold of the window before. */
    method StartWindow(windowTs: int, priceToBeat: real)
      requires Valid()
      modifies signal, tracker, risk
      ensures Valid() && Agree([], windowTs, priceToBeat) && unchanged(risk`start, risk`log)
      ensures signal.upBookCache == None == signal.downBookCache
      ensures var keys := old(tracker.windows).Keys + {windowTs};
              && (forall k :: k in tracker.windows <==> k in keys && !Tracking.DroppedOf(keys, k))
              && ((forall k :: k in keys ==> k <= windowTs) ==> windowTs in tracker.windows)
      ensures windowTs in tracker.windows ==> fresh(tracker.windows[windowTs])
    {
      hide Reachable, Spent, Filled, FillsOf, Tracking.AllRecorded, Tracking.DroppedOf, Tracking.NewestTen;
      hide Risks.Run, Risks.History, Risks.Fresh;
      tracker.StartWindow(windowTs, priceToBeat);
      ghost var keys := old(tracker.windows).Keys + {windowTs};
      if forall k :: k in keys ==> k <= windowTs {
        Tracking.NewestIsKept(keys, windowTs);
      }
      risk.ResetWindowPosition(windowTs);
      signal.ResetWindow(windowTs);
      NothingYet(signal.cfg, priceToBeat);
    }

    /** One window. On every way through it the ledgers agree with the attempts made, and what the risk manager records at
        the end is the settled record of exactly those attempts. */
    method ProcessWindow(windowTs: int, marketFound: bool, priceToBeat: Option<real>, ticks: seq<Tick>, close: Close)
      returns (ghost log: seq<Attempt>, ghost when: seq<nat>)
      requires Valid() && InOrder(ticks, close)
      requires forall i :: 0 <= i < |ticks| ==> Proper(ticks[i], timing.maxOrderShares)
      requires NotLater(risk.start.dailyDate, risk.log, ticks, 0, close)
      modifies signal, tracker, risk
      ensures Valid() && risk.start == old(risk.start)
      ensures !marketFound || priceToBeat.None? ==> log == [] && risk.log == old(risk.log) && tracker.windows == old(tracker.windows)
      ensures var keys := old(tracker.windows).Keys + {windowTs};
              marketFound && priceToBeat.Some? ==>
                && (forall k :: k in tracker.windows <==> k in keys && !Tracking.DroppedOf(keys, k))
                && ((forall k :: k in keys ==> k <= windowTs) ==> windowTs in tracker.windows)
      ensures marketFound && priceToBeat.Some? ==>
                && Reachable(signal.cfg, log)
                && Placed(timing, risk.cfg, risk.start, risk.log, |old(risk.log)|, ticks, log, when)
                && Complete(Setup(timing, signal.cfg, risk.cfg, risk.start, one), old(risk.log), ticks, log, when)
                && signal.upSpent == Spent(log, Up) && signal.downSpent == Spent(log, Down)
                && risk.windowUpSpent == Filled(log, Up) && risk.windowDownSpent == Filled(log, Down)
                && (windowTs in tracker.windows ==> tracker.windows[windowTs].fills == FillsOf(log))
                && |risk.log| > 0 && OnlyChecked(old(risk.log), risk.log[..|risk.log| - 1])
                && risk.log[..|risk.log| - 1] ==
                   StateAt(Setup(timing, signal.cfg, risk.cfg, risk.start, one), old(risk.log), ticks, |ticks|).history
                && risk.log[|risk.log| - 1] == WindowResult(windowTs in tracker.windows, log, priceToBeat.value, close, one)
    {
      hide Reachable, Spent, Filled, FillsOf, Tracking.AllRecorded, Proper, InOrder, NotLater, OnlyChecked, Tracking.DroppedOf;
      hide Risks.Run, Risks.History, Risks.Fresh, WindowResult, Risks.LastTime, Risks.CurrentDay, Placed, Complete, StateAt;
      log, when := [], [];
      if !marketFound || priceToBeat.None? {
        return;
      }
      StartWindow(windowTs, priceToBeat.value);
      log, when := TradeWindow(windowTs, priceToBeat.value, ticks, close);
      ghost var checked := risk.log;
      SettleAndRecord(windowTs, priceToBeat.value, close, log);
      PlacedStays(timing, risk.cfg, risk.start, checked, risk.log, |old(risk.log)|, ticks, log, when);
      Risks.Dropped(checked, risk.log[|risk.log| - 1]);
    }

    /** The loop over windows. Every window that has a market and a price is tracked and settled with the record of exactly
        its own attempts, whatever happens in between. */
    method MainLoop(inputs: seq<Input>) returns (ghost logs: seq<seq<Risks.Event>>, ghost ws: seq<Window>)
      requires Valid() && risk.log == [] && tracker.windows == map[]
      requires InSequence(inputs, risk.start.dailyDate, timing.maxOrderShares)
      modifies signal, tracker, risk
      ensures Valid() && risk.start == old(risk.start)
      ensures Session(Setup(timing, signal.cfg, risk.cfg, risk.start, one), logs, ws) && risk.log == logs[|ws|]
      ensures |ws| == |PlayedOf(inputs)| && forall k :: 0 <= k < |ws| ==> ws[k].input == PlayedOf(inputs)[k]
    {
      hide Ran, NotLater, InOrder, Proper, WindowResult, Reachable, Placed, OnlyChecked, Risks.Run, Risks.History, Risks.Fresh;
      hide Spent, Filled, FillsOf, Tracking.DroppedOf, Precedes, InSequence, PlayedOf;
      ghost var u := Setup(timing, signal.cfg, risk.cfg, risk.start, one);
      logs, ws := [[]], [];
      FirstInTime(inputs, risk.start.dailyDate, timing.maxOrderShares);
      for i := 0 to |inputs|
        invariant Valid() && risk.start == u.start
        invariant Session(u, logs, ws) && risk.log == logs[|ws|] && InputsOf(ws) == PlayedOf(inputs[..i])
        invariant forall j :: i <= j < |inputs| ==>
                    NotLater(u.start.dailyDate, risk.log, inputs[j].ticks, 0, inputs[j].close) &&
                    forall k :: k in tracker.windows ==> k <= inputs[j].windowTs
      {
        var w := inputs[i];
        NextInput(inputs, i, risk.start.dailyDate, timing.maxOrderShares);
        ghost var before := risk.log;
        ghost var log, when := ProcessWindow(w.windowTs, w.marketFound, w.priceToBeat, w.ticks, w.close);
        if w.Played() {
          ghost var run := Window(w, log, when);
          RanBy(u, before, risk.log, run);
          SessionGrows(u, logs, ws, risk.log, run);
          logs, ws := logs + [risk.log], ws + [run];
          forall j | i < j < |inputs|
            ensures NotLater(u.start.dailyDate, risk.log, inputs[j].ticks, 0, inputs[j].close)
            ensures w.windowTs <= inputs[j].windowTs
          {
            SettledInTime(u.start.dailyDate, risk.log, run, u.one, inputs, i, j, timing.maxOrderShares);
          }
        }
      }
      assert inputs[..|inputs|] == inputs;
    }

    /** The loop of a window, from its start until time runs out, trading is forbidden or the bot is stopped. */
    method TradeWindow(windowTs: int, priceToBeat: real, ticks: seq<Tick>, close: Close)
      returns (ghost log: seq<Attempt>, ghost when: seq<nat>)
      requires Valid() && Agree([], windowTs, priceToBeat) && InOrder(ticks, close)
      requires signal.upBookCache == None == signal.downBookCache && AllProper(ticks, timing.maxOrderShares)
      requires NotLater(risk.start.dailyDate, risk.log, ticks, 0, close)
      modifies signal, risk, if windowTs in tracker.windows then {tracker.windows[windowTs]} else {}
      ensures Valid() && Agree(log, windowTs, priceToBeat) && unchanged(risk`start)
      ensures OnlyChecked(old(risk.log), risk.log)
      ensures Placed(timing, risk.cfg, risk.start, risk.log, |old(risk.log)|, ticks, log, when)
      ensures var u := Setup(timing, signal.cfg, risk.cfg, risk.start, one);
              Complete(u, old(risk.log), ticks, log, when) &&
              risk.log == StateAt(u, old(risk.log), ticks, |ticks|).history
      ensures Risks.LastTime(risk.log) <= close.at && Risks.CurrentDay(risk.start.dailyDate, risk.log) <= close.today && 0 < close.at
    {
      hide Reachable, Spent, Filled, FillsOf, Tracking.AllRecorded, Proper, InOrder, NotLater, OnlyChecked;
      hide Risks.Run, Risks.History, Risks.Fresh, Risks.LastTime, Risks.CurrentDay, Placed, LastCleared, Guarded, MadeOn;
      hide Signals.Decided, GateEvents, Managers.NothingForbids, Executed, AfterTurn, AllProper, StateAt, Complete;
      hide Signals.Fresher, ShouldTrade, OnTurn;
      log, when := [], [];
      ghost var u, m := Setup(timing, signal.cfg, risk.cfg, risk.start, one), 0;
      ghost var from := |risk.log|;
      NothingPlaced(timing, risk.cfg, risk.start, risk.log, from, ticks);
      NothingYetAt(u, risk.log, ticks);
      NothingChecked(risk.log);
      var lastRiskCheckMs := 0;
      for i := 0 to |ticks|
        invariant Valid() && Agree(log, windowTs, priceToBeat) && unchanged(risk`start)
        invariant NotLater(risk.start.dailyDate, risk.log, ticks, i, close)
        invariant OnlyChecked(old(risk.log), risk.log)
        invariant LastCleared(risk.cfg, risk.start, risk.log, from, ticks, i, lastRiskCheckMs)
        invariant Placed(timing, risk.cfg, risk.start, risk.log, from, ticks, log, when) && AllBelow(when, i)
        invariant m == i
        invariant StateAt(u, old(risk.log), ticks, m) ==
                  Progress(true, lastRiskCheckMs, risk.log, signal.upBookCache, signal.downBookCache, log, when)
      {
        ProperAt(ticks, i, timing.maxOrderShares);
        StateStep(u, old(risk.log), ticks, i);
        m := i + 1;
        ClockAdvances(risk.start.dailyDate, risk.log, ticks, i, close);
        GrownSince(old(risk.log), risk.log);
        var t := ticks[i];
        PastFirstSecond(t, timing.maxOrderShares);
        if t.timeRemaining < timing.minTimeRemaining {
          break;
        }
        if t.timeRemaining > timing.maxTimeRemaining {
          TickSkipped(risk.cfg, risk.start, risk.log, from, ticks, i, lastRiskCheckMs, when);
          continue;
        }
        label turn:
        ghost var before, checked := log, lastRiskCheckMs;
        ghost var over := t.prices.Some? && risk.Over(t.prices.value.0, t.prices.value.1);
        ghost var d := Signals.Decided(signal.cfg, t.reading, signal.upSpent, signal.downSpent,
                                       Signals.Fresher(signal.upBookCache, t.up).asks, Signals.Fresher(signal.downBookCache, t.down).asks);
        var go;
        go, lastRiskCheckMs, log := Turn(t, windowTs, priceToBeat, lastRiskCheckMs, log, StateAt(u, old(risk.log), ticks, i), i);
        PlacedStays(timing, risk.cfg, risk.start, old@turn(risk.log), risk.log, from, ticks, before, when);
        if go {
          if t.healthy && d.Some? {
            AttemptMade(timing, t, before, d.value);
          }
          TurnPlaced(timing, risk.cfg, risk.start, old@turn(risk.log), risk.log, from, ticks, i, over, checked,
                     lastRiskCheckMs, before, log, when);
          when := if log == before then when else when + [i];
        }
        TurnTaken(risk.start.dailyDate, risk.log, ticks, i, close);
        CheckedOn(old(risk.log), old@turn(risk.log), risk.log);
        if !go {
          break;
        }
      }
      NotLaterThanClose(risk.start.dailyDate, risk.log, ticks, close);
      if m < |ticks| {
        StaysClosed(u, old(risk.log), ticks, m, |ticks|);
      }
      WindowComplete(u, old(risk.log), ticks, log, when);
    }

    /** Settlement: the tracker's record at the last oracle price, overruled by the resolution, or by a full loss without
        one; then the risk manager's books. A window without a trade is recorded as skipped. */
    method SettleAndRecord(windowTs: int, priceToBeat: real, close: Close, ghost log: seq<Attempt>)
      requires Valid() && Agree(log, windowTs, priceToBeat)
      requires Risks.LastTime(risk.log) <= close.at && Risks.CurrentDay(risk.start.dailyDate, risk.log) <= close.today && 0 < close.at
      modifies risk, if windowTs in tracker.windows then {tracker.windows[windowTs]} else {}
      ensures Valid() && unchanged(risk`windowUpSpent, risk`windowDownSpent, risk`start)
      ensures risk.log == old(risk.log) + [WindowResult(windowTs in tracker.windows, log, priceToBeat, close, one)]
      ensures windowTs in tracker.windows ==> tracker.windows[windowTs].fills == FillsOf(log)
    {
      hide Signals.Sound, Reachable, Spent, Filled, FillsOf, Tracking.AllRecorded, Tracking.SettledAt, Tracking.Resolved;
      hide Risks.Run, Risks.History, Risks.Fresh, WindowResult;
      var hasTraded := tracker.HasTraded(windowTs);
      var finalPrice := if close.finalChainlink.Some? then close.finalChainlink.value else priceToBeat;
      RecordOfWindow(priceToBeat, log, close, one);
      var pnl := tracker.SettleWindow(windowTs, finalPrice, one);
      if hasTraded {
        pnl.Resolve(close.resolved, one);
      } else if close.resolved.Some? {
        pnl.outcome := close.resolved;
      }
      risk.RecordWindowResult(pnl.numTrades, pnl.grossPnl, pnl.totalVolume, close.today, close.at);
    }
  }

  /** More only adds risk checks, no settled window. */
  ghost predicate OnlyChecked(log: seq<Risks.Event>, more: seq<Risks.Event>) {
    log <= more && forall i :: |log| <= i < |more| ==> !more[i].Settled?
  }

  lemma GrownSince(log: seq<Risks.Event>, more: seq<Risks.Event>)
    requires OnlyChecked(log, more)
    ensures log <= more && |log| <= |more|
  {
  }

  lemma PastFirstSecond(t: Tick, maxChunk: nat)
    requires maxChunk > 0 && Proper(t, maxChunk)
    ensures RISK_CHECK_INTERVAL_MS <= t.now
  {
  }

  lemma CheckedOn(a: seq<Risks.Event>, b: seq<Risks.Event>, c: seq<Risks.Event>)
    requires OnlyChecked(a, b) && OnlyChecked(b, c)
    ensures OnlyChecked(a, c)
  {
  }

  /** The risk history so far is not later than the ticks from i on, nor than the close. */
  ghost predicate NotLater(firstDay: int, log: seq<Risks.Event>, ticks: seq<Tick>, i: nat, close: Close) {
    && Risks.LastTime(log) <= close.at && Risks.CurrentDay(firstDay, log) <= close.today
    && forall j :: i <= j < |ticks| ==> Risks.LastTime(log) <= ticks[j].now && Risks.CurrentDay(firstDay, log) <= ticks[j].today
  }

  lemma ClockAdvances(firstDay: int, log: seq<Risks.Event>, ticks: seq<Tick>, i: nat, close: Close)
    requires NotLater(firstDay, log, ticks, i, close) && i < |ticks|
    ensures NotLater(firstDay, log, ticks, i + 1, close)
    ensures Risks.LastTime(log) <= ticks[i].now && Risks.CurrentDay(firstDay, log) <= ticks[i].today
  {
  }

  lemma TurnTaken(firstDay: int, log: seq<Risks.Event>, ticks: seq<Tick>, i: nat, close: Close)
    requires InOrder(ticks, close) && i < |ticks|
    requires Risks.LastTime(log) <= ticks[i].at && Risks.CurrentDay(firstDay, log) <= ticks[i].today
    ensures NotLater(firstDay, log, ticks, i + 1, close)
  {
  }

  lemma NotLaterThanClose(firstDay: int, log: seq<Risks.Event>, ticks: seq<Tick>, close: Close)
    requires InOrder(ticks, close)
    requires exists i: nat :: NotLater(firstDay, log, ticks, i, close)
    ensures Risks.LastTime(log) <= close.at && Risks.CurrentDay(firstDay, log) <= close.today && 0 < close.at
  {
  }

  lemma NothingChecked(log: seq<Risks.Event>)
    ensures OnlyChecked(log, log)
  {
  }

  lemma NothingYet(cfg: Signals.Config, priceToBeat: real)
    ensures Reachable(cfg, []) && FillsOf([]) == []
    ensures Spent([], Up) == 0.0 == Spent([], Down) && Filled([], Up) == 0.0 == Filled([], Down)
    ensures Tracking.AllRecorded(Tracking.Opened(priceToBeat), []) == Tracking.Opened(priceToBeat)
  {
  }

  /** The settled and resolved record of a window is what WindowResult says. */
  lemma RecordOfWindow(priceToBeat: real, log: seq<Attempt>, close: Close, one: nat)
    ensures var fills := FillsOf(log);
            var p := Tracking.AllRecorded(Tracking.Opened(priceToBeat), fills);
            var finalPrice := if close.finalChainlink.Some? then close.finalChainlink.value else priceToBeat;
            var settled := Tracking.SettledAt(p, finalPrice, one);
            var last := if p.numTrades > 0 then Tracking.Resolved(settled, close.resolved, one) else settled;
            && p.numTrades == settled.numTrades && settled.fills == last.fills == fills
            && WindowResult(true, log, priceToBeat, close, one) ==
               Risks.Settled(close.today, close.at, last.numTrades, last.grossPnl, last.totalVolume)
    ensures WindowResult(false, log, priceToBeat, close, one) == Risks.Settled(close.today, close.at, 0, 0.0, 0.0)
  {
    var fills := FillsOf(log);
    var p := Tracking.AllRecorded(Tracking.Opened(priceToBeat), fills);
    hide FillsOf, Tracking.AllRecorded, Tracking.Value;
    Tracking.FillsConserved(priceToBeat, fills);
    if p.numTrades == 0 {
      assert fills == [];
    }
  }

  lemma RecordedLast(p: Tracking.Pnl, fills: seq<Tracking.Fill>, f: Tracking.Fill)
    ensures Tracking.AllRecorded(p, fills + [f]) == Tracking.Recorded(Tracking.AllRecorded(p, fills), f)
  {
    assert (fills + [f])[..|fills + [f]| - 1] == fills;
  }

  lemma ExecutionWithin(cfg: Signals.Config, spent: real, d: Signals.Decision, maxChunk: nat, venue: Venue)
    requires Signals.Sound(cfg, spent, d) && maxChunk > 0 && CanServe(venue, d.shares, maxChunk)
    ensures Within(Attempt(d, Executed(d.limitPrice, d.shares, maxChunk, venue)))
  {
    ExecutedWithinOrder(d.limitPrice, d.shares, maxChunk, venue);
  }

  /** What a window is recorded with: its fills, the resolved P&L, their volume; as skipped without a fill. */
  ghost function WindowResult(tracked: bool, log: seq<Attempt>, priceToBeat: real, close: Close, one: nat): Risks.Event {
    var fills := if tracked then FillsOf(log) else [];
    var volume := Tracking.CostOn(fills, Up) + Tracking.CostOn(fills, Down);
    var finalPrice := if close.finalChainlink.Some? then close.finalChainlink.value else priceToBeat;
    var gross := if |fills| > 0 && close.resolved.Some? then Tracking.Payout(Tracking.SharesOn(fills, close.resolved.value), one) - volume
                 else if |fills| > 0 then -volume
                 else 0.0;
    Risks.Settled(close.today, close.at, |fills|, gross, volume)
  }
}
