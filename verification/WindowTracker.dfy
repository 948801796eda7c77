/** Per-window positions and their settlement (WindowTracker, and the resolution step of processWindow).
    Shares are in units of 0.01, prices in ticks and money in their product, as exact reals; a winning share pays "one"
    ticks. */
module WindowTracker {
  import opened Common
  import opened RiskState

  const MAX_WINDOWS := 10

  datatype Fill = Fill(side: Direction, shares: nat, price: real, orderIds: seq<string>)

  function Cost(f: Fill): real {
    f.shares as real * f.price
  }

  /** A window's record, as a value. */
  datatype Pnl = Pnl(
    priceToBeat: real, outcome: Option<Direction>, upSharesHeld: nat, upAvgCost: real, downSharesHeld: nat,
    downAvgCost: real, grossPnl: real, numTrades: nat, totalVolume: real, fills: seq<Fill>)

  function Opened(priceToBeat: real): Pnl {
    Pnl(priceToBeat, None, 0, 0.0, 0, 0.0, 0.0, 0, 0.0, [])
  }

  /** Weighted average cost after a fill; unchanged while nothing is held. */
  function Averaged(avg: real, held: nat, f: Fill): real {
    if held + f.shares > 0 then (Value(avg, held) + Cost(f)) / (held + f.shares) as real else avg
  }

  function Recorded(p: Pnl, f: Fill): Pnl {
    var q := if f.side.Up? then
               p.(upSharesHeld := p.upSharesHeld + f.shares, upAvgCost := Averaged(p.upAvgCost, p.upSharesHeld, f))
             else
               p.(downSharesHeld := p.downSharesHeld + f.shares, downAvgCost := Averaged(p.downAvgCost, p.downSharesHeld, f));
    q.(numTrades := p.numTrades + 1, totalVolume := p.totalVolume + Cost(f), fills := p.fills + [f])
  }

  /** Shares at a dollar each. */
  function Payout(shares: nat, one: nat): real {
    shares as real * one as real
  }

  function SharesOf(p: Pnl, side: Direction): nat {
    if side.Up? then p.upSharesHeld else p.downSharesHeld
  }

  /** Winning shares at a dollar each, less everything spent. */
  function GrossFor(p: Pnl, outcome: Direction, one: nat): real {
    Payout(SharesOf(p, outcome), one) - p.totalVolume
  }

  function SettledAt(p: Pnl, finalPrice: real, one: nat): Pnl {
    var outcome := if finalPrice >= p.priceToBeat then Up else Down;
    p.(outcome := Some(outcome), grossPnl := GrossFor(p, outcome, one))
  }

  /** The last word of processWindow: the resolved outcome decides; without one a full loss is assumed. */
  function Resolved(p: Pnl, resolved: Option<Direction>, one: nat): Pnl {
    if resolved.Some? then p.(outcome := resolved, grossPnl := GrossFor(p, resolved.value, one))
    else p.(grossPnl := -p.totalVolume)
  }

  // What the record says about its fills

  function SharesOn(fills: seq<Fill>, side: Direction): nat {
    if |fills| == 0 then 0
    else SharesOn(fills[..|fills| - 1], side) + if fills[|fills| - 1].side == side then fills[|fills| - 1].shares else 0
  }

  function CostOn(fills: seq<Fill>, side: Direction): real {
    if |fills| == 0 then 0.0
    else CostOn(fills[..|fills| - 1], side) + if fills[|fills| - 1].side == side then Cost(fills[|fills| - 1]) else 0.0
  }

  lemma FillsGrow(fills: seq<Fill>, f: Fill, side: Direction)
    ensures SharesOn(fills + [f], side) == SharesOn(fills, side) + if f.side == side then f.shares else 0
    ensures CostOn(fills + [f], side) == CostOn(fills, side) + if f.side == side then Cost(f) else 0.0
  {
    assert (fills + [f])[..|fills + [f]| - 1] == fills;
  }

  /** What shares held at an average cost have cost. */
  function Value(avg: real, held: nat): real {
    avg * held as real
  }

  /** Conservation: shares and cost per side are those of the fills, and average cost times shares gives the cost back. */
  ghost predicate Conserved(p: Pnl) {
    && p.numTrades == |p.fills|
    && p.upSharesHeld == SharesOn(p.fills, Up) && p.downSharesHeld == SharesOn(p.fills, Down)
    && Value(p.upAvgCost, p.upSharesHeld) == CostOn(p.fills, Up)
    && Value(p.downAvgCost, p.downSharesHeld) == CostOn(p.fills, Down)
    && p.totalVolume == CostOn(p.fills, Up) + CostOn(p.fills, Down)
  }

  lemma AveragedBack(avg: real, held: nat, f: Fill)
    ensures Value(Averaged(avg, held, f), held + f.shares) == Value(avg, held) + Cost(f)
  {
    if held + f.shares == 0 {
      assert f.shares as real == 0.0 == held as real;
      assert 0.0 * f.price == 0.0;
    }
  }

  lemma RecordedConserved(p: Pnl, f: Fill)
    requires Conserved(p)
    ensures Conserved(Recorded(p, f))
  {
    hide Averaged, Value, Cost;
    FillsGrow(p.fills, f, Up);
    FillsGrow(p.fills, f, Down);
    AveragedBack(p.upAvgCost, p.upSharesHeld, f);
    AveragedBack(p.downAvgCost, p.downSharesHeld, f);
  }

  function AllRecorded(p: Pnl, fills: seq<Fill>): Pnl {
    if |fills| == 0 then p else Recorded(AllRecorded(p, fills[..|fills| - 1]), fills[|fills| - 1])
  }

  /** Conservation over any sequence of fills: average cost times shares, summed over both sides, is the volume. */
  lemma {:induction false} FillsConserved(priceToBeat: real, fills: seq<Fill>)
    ensures var p := AllRecorded(Opened(priceToBeat), fills);
            && Conserved(p) && p.fills == fills
            && Value(p.upAvgCost, p.upSharesHeld) + Value(p.downAvgCost, p.downSharesHeld) == p.totalVolume
  {
    hide Recorded, Cost;
    if |fills| == 0 {
      assert Value(0.0, 0) == 0.0;
    } else {
      var rest, f := fills[..|fills| - 1], fills[|fills| - 1];
      FillsConserved(priceToBeat, rest);
      RecordedConserved(AllRecorded(Opened(priceToBeat), rest), f);
      RecordedFills(AllRecorded(Opened(priceToBeat), rest), f);
      assert rest + [f] == fills;
    }
  }

  lemma RecordedFills(p: Pnl, f: Fill)
    ensures Recorded(p, f).fills == p.fills + [f]
  {
  }

  /** A window settles Up exactly when its final price is at least the price to beat, and earns the shares of its fills on
      that side at a dollar each, less the cost of all its fills. */
  lemma SettledGross(priceToBeat: real, fills: seq<Fill>, finalPrice: real, one: nat)
    ensures var p := SettledAt(AllRecorded(Opened(priceToBeat), fills), finalPrice, one);
            && p.outcome == Some(if finalPrice >= priceToBeat then Up else Down)
            && p.grossPnl == SharesOn(fills, if finalPrice >= priceToBeat then Up else Down) as real * one as real
                             - (CostOn(fills, Up) + CostOn(fills, Down))
  {
    hide Value, AllRecorded, CostOn, SharesOn;
    FillsConserved(priceToBeat, fills);
    SamePriceToBeat(priceToBeat, fills);
  }

  lemma {:induction false} SamePriceToBeat(priceToBeat: real, fills: seq<Fill>)
    ensures AllRecorded(Opened(priceToBeat), fills).priceToBeat == priceToBeat
  {
    if |fills| > 0 {
      SamePriceToBeat(priceToBeat, fills[..|fills| - 1]);
    }
  }

  /** Whatever a window is resolved to, its P&L is the payout of the winning shares less the cost of all fills; unresolved,
      it is the full loss. */
  lemma ResolvedGross(priceToBeat: real, fills: seq<Fill>, finalPrice: real, resolved: Option<Direction>, one: nat)
    ensures var p := AllRecorded(Opened(priceToBeat), fills);
            Resolved(SettledAt(p, finalPrice, one), resolved, one).grossPnl ==
            (if resolved.Some? then Payout(SharesOn(fills, resolved.value), one) else 0.0)
            - (CostOn(fills, Up) + CostOn(fills, Down))
  {
    hide Payout, Value, AllRecorded, CostOn, SharesOn;
    FillsConserved(priceToBeat, fills);
  }

  // Recorded and true profit over many windows

  /** A settled window: its record, how it resolved if it did, and how the market in fact ended. */
  datatype Settlement = Settlement(pnl: Pnl, resolved: Option<Direction>, actual: Direction)

  ghost predicate Authoritative(s: Settlement) {
    s.resolved.Some? ==> s.resolved.value == s.actual
  }

  function RecordedGross(s: Settlement, one: nat): real {
    Resolved(s.pnl, s.resolved, one).grossPnl
  }

  function TrueGross(s: Settlement, one: nat): real {
    GrossFor(s.pnl, s.actual, one)
  }

  function TrueTotal(ss: seq<Settlement>, one: nat): real {
    if |ss| == 0 then 0.0 else TrueTotal(ss[..|ss| - 1], one) + TrueGross(ss[|ss| - 1], one)
  }

  lemma RecordedIsLowerBound(s: Settlement, one: nat)
    requires Authoritative(s) && one > 0
    ensures RecordedGross(s, one) <= TrueGross(s, one)
    ensures RecordedGross(s, one) == TrueGross(s, one) <==> s.resolved.Some? || SharesOf(s.pnl, s.actual) == 0
  {
    var n := SharesOf(s.pnl, s.actual);
    if s.resolved.None? && n > 0 {
      assert n as real * one as real > 0.0;
    }
  }

  /** The profit the risk manager has on record for some windows never exceeds the true one, however the unresolved windows
      end; it is the true one exactly when no unresolved window holds shares of the side that in fact won. */
  lemma {:induction false} RecordedNeverExceedsTrue(events: seq<Event>, ss: seq<Settlement>, one: nat)
    requires |events| == |ss| && one > 0
    requires forall i :: 0 <= i < |ss| ==> Authoritative(ss[i]) && events[i].Settled? && events[i].gross == RecordedGross(ss[i], one)
    ensures Gross(events) <= TrueTotal(ss, one)
    ensures Gross(events) == TrueTotal(ss, one) <==>
            forall i :: 0 <= i < |ss| ==> ss[i].resolved.Some? || SharesOf(ss[i].pnl, ss[i].actual) == 0
  {
    if |ss| > 0 {
      var n := |ss| - 1;
      RecordedNeverExceedsTrue(events[..n], ss[..n], one);
      RecordedIsLowerBound(ss[n], one);
      assert forall i :: 0 <= i < n ==> ss[..n][i] == ss[i];
    }
  }

  /** The same for the daily profit of the risk manager after any history of events, on top of what a restart carried in. */
  lemma DailyProfitNeverExceedsTrue(cfg: Config, start: Risk, log: seq<Event>, ss: seq<Settlement>, one: nat)
    requires Fresh(start) && History(start.dailyDate, log) && one > 0
    requires var day := CurrentDay(start.dailyDate, log);
             && |TradedOn(log, day)| == |ss|
             && forall i :: 0 <= i < |ss| ==> Authoritative(ss[i]) && TradedOn(log, day)[i].Settled? &&
                                              TradedOn(log, day)[i].gross == RecordedGross(ss[i], one)
    ensures var carried := if CurrentDay(start.dailyDate, log) == start.dailyDate then start.dailyProfit else 0.0;
            var profit := Run(cfg, start, log).dailyProfit;
            && profit <= carried + TrueTotal(ss, one)
            && (profit == carried + TrueTotal(ss, one) <==>
                  forall i :: 0 <= i < |ss| ==> ss[i].resolved.Some? || SharesOf(ss[i].pnl, ss[i].actual) == 0)
  {
    hide History, TradedOn;
    RunExplained(cfg, start, log);
    RecordedNeverExceedsTrue(TradedOn(log, CurrentDay(start.dailyDate, log)), ss, one);
  }

  // The record and the tracker as objects

  /** A window's record, changed in place by the tracker and, after settlement, by processWindow. */
  class WindowPnL {
    var priceToBeat: real
    var outcome: Option<Direction>
    var upSharesHeld: nat
    var upAvgCost: real
    var downSharesHeld: nat
    var downAvgCost: real
    var grossPnl: real
    var numTrades: nat
    var totalVolume: real
    var fills: seq<Fill>

    ghost function View(): Pnl
      reads this
    {
      Pnl(priceToBeat, outcome, upSharesHeld, upAvgCost, downSharesHeld, downAvgCost, grossPnl, numTrades, totalVolume, fills)
    }

    constructor (priceToBeat: real)
      ensures View() == Opened(priceToBeat)
    {
      this.priceToBeat, outcome := priceToBeat, None;
      upSharesHeld, upAvgCost, downSharesHeld, downAvgCost := 0, 0.0, 0, 0.0;
      grossPnl, numTrades, totalVolume, fills := 0.0, 0, 0.0, [];
    }

    method Record(f: Fill)
      modifies this
      ensures View() == Recorded(old(View()), f)
    {
      var cost := Cost(f);
      if f.side.Up? {
        var total := upSharesHeld + f.shares;
        if total > 0 {
          upAvgCost := (Value(upAvgCost, upSharesHeld) + cost) / total as real;
        }
        upSharesHeld := total;
      } else {
        var total := downSharesHeld + f.shares;
        if total > 0 {
          downAvgCost := (Value(downAvgCost, downSharesHeld) + cost) / total as real;
        }
        downSharesHeld := total;
      }
      numTrades, totalVolume, fills := numTrades + 1, totalVolume + cost, fills + [f];
    }

    method Settle(finalPrice: real, one: nat)
      modifies this
      ensures View() == SettledAt(old(View()), finalPrice, one)
      ensures outcome == Some(Up) <==> finalPrice >= priceToBeat
      ensures outcome == Some(Down) <==> finalPrice < priceToBeat
      ensures grossPnl == (if finalPrice >= priceToBeat then upSharesHeld else downSharesHeld) as real * one as real - totalVolume
    {
      var won := if finalPrice >= priceToBeat then Up else Down;
      outcome := Some(won);
      var upPayout := if won.Up? then Payout(upSharesHeld, one) else 0.0;
      var downPayout := if won.Down? then Payout(downSharesHeld, one) else 0.0;
      grossPnl := upPayout + downPayout - totalVolume;
    }

    method Resolve(resolved: Option<Direction>, one: nat)
      modifies this
      ensures View() == Resolved(old(View()), resolved, one)
      ensures outcome == if resolved.Some? then resolved else old(outcome)
      ensures grossPnl ==
              (if resolved == Some(Up) then upSharesHeld else if resolved == Some(Down) then downSharesHeld else 0) as real
              * one as real - totalVolume
    {
      if resolved.Some? {
        outcome := resolved;
        var upPayout := if resolved.value.Up? then Payout(upSharesHeld, one) else 0.0;
        var downPayout := if resolved.value.Down? then Payout(downSharesHeld, one) else 0.0;
        grossPnl := upPayout + downPayout - totalVolume;
      } else {
        grossPnl := -totalVolume;
      }
    }
  }

  ghost predicate Oldest(keys: set<int>, k: int) {
    k in keys && forall j :: j in keys ==> k <= j
  }

  /** The one key that starting a window drops: the oldest of more than ten, the started one among them. */
  ghost predicate DroppedOf(keys: set<int>, k: int) {
    |keys| > MAX_WINDOWS && Oldest(keys, k)
  }

  /** Up to ten windows all stay; of more, all but the oldest. */
  ghost predicate NewestTen(keys: set<int>, left: set<int>) {
    if |keys| <= 10 then left == keys else exists k :: k in keys && (forall j :: j in keys ==> k <= j) && left == keys - {k}
  }

  /** On a clock that does not go back the started window is not the one that is dropped. */
  lemma NewestIsKept(keys: set<int>, k: int)
    requires k in keys && forall j :: j in keys ==> j <= k
    ensures !DroppedOf(keys, k)
  {
    if Oldest(keys, k) {
      assert forall j :: j in keys ==> j == k;
      assert keys == {k};
    }
  }

  class WindowTracker {
    var windows: map<int, WindowPnL>

    /** No two windows share a record. */
    ghost predicate Valid()
      reads this
    {
      forall a, b :: a in windows && b in windows && a != b ==> windows[a] != windows[b]
    }

    constructor ()
      ensures Valid() && windows == map[]
    {
      windows := map[];
    }

    /** Starts a window with an empty record. With more than ten windows the oldest, and only it, is dropped, even if it is
        the one that was started. */
    method StartWindow(windowTs: int, priceToBeat: real)
      requires Valid()
      modifies this
      ensures Valid()
      ensures var keys := old(windows).Keys + {windowTs};
              (forall k :: k in windows <==> k in keys && !DroppedOf(keys, k)) && NewestTen(keys, windows.Keys)
      ensures windowTs in windows ==> fresh(windows[windowTs]) && windows[windowTs].View() == Opened(priceToBeat)
      ensures forall k :: k in windows && k != windowTs ==> windows[k] == old(windows)[k]
    {
      var pnl := new WindowPnL(priceToBeat);
      windows := windows[windowTs := pnl];
      assert windows.Keys == old(windows).Keys + {windowTs};
      if |windows| > MAX_WINDOWS {
        var oldest := Least(windows.Keys);
        assert Oldest(windows.Keys, oldest);
        windows := windows - {oldest};
      }
    }

    /** Records a fill; without a record for the window it is dropped. */
    method RecordFill(windowTs: int, f: Fill)
      requires Valid()
      modifies if windowTs in windows then {windows[windowTs]} else {}
      ensures windows == old(windows) && Valid()
      ensures windowTs in windows ==> windows[windowTs].View() == Recorded(old(windows[windowTs].View()), f)
    {
      if windowTs in windows {
        windows[windowTs].Record(f);
      }
    }

    /** Settles a window and hands out its record; without one, an empty record that stays unresolved. */
    method SettleWindow(windowTs: int, finalPrice: real, one: nat) returns (w: WindowPnL)
      requires Valid()
      modifies if windowTs in windows then {windows[windowTs]} else {}
      ensures windows == old(windows) && Valid()
      ensures windowTs in windows ==> w == windows[windowTs] && w.View() == SettledAt(old(windows[windowTs].View()), finalPrice, one)
      ensures windowTs !in windows ==> fresh(w) && w.View() == Opened(0.0)
    {
      if windowTs in windows {
        w := windows[windowTs];
        w.Settle(finalPrice, one);
      } else {
        w := new WindowPnL(0.0);
      }
    }

    method HasTraded(windowTs: int) returns (r: bool)
      ensures r <==> windowTs in windows && windows[windowTs].numTrades > 0
    {
      r := windowTs in windows && windows[windowTs].numTrades > 0;
    }
  }
}
