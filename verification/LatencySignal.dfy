/** The latency strategy's decision for one tick (LatencySignal and computeKellySize).
    Probabilities and prices are in ticks, a dollar being 100 * cent ticks; shares in units of 0.01; money, their product,
    as exact reals. */
module LatencySignal {
  import opened Common
  import opened Rounding
  import opened Book
  import opened Liquidity

  const CACHE_MS := 500

  datatype Config = Config(
    cent: nat, minEdge: nat, edgeBuffer: nat, kellyMultiplier: real, bankroll: real, maxPositionPerWindow: real,
    minBookDepth: real, minVolatility: real, minDelta: real, minZScore: real)
  {
    function One(): nat {
      100 * cent
    }

    /** What loadConfig insists on, and non-negative money. */
    predicate Valid() {
      cent > 0 && minEdge > edgeBuffer > 0 && 0.0 < kellyMultiplier <= 1.0 && bankroll >= 0.0
    }
  }

  /** What the feeds and the probability model say on a tick. */
  datatype Reading = Reading(
    stale: bool, median: real, priceToBeat: Option<real>, rollingVol: real, trueProb: int, zScore: real)

  function Abs(x: real): real {
    if x < 0.0 then -x else x
  }

  /** The gates in front of the sides. */
  predicate Passes(cfg: Config, r: Reading) {
    && !r.stale && r.median != 0.0
    && r.priceToBeat.Some?
    && r.rollingVol != 0.0 && r.rollingVol >= cfg.minVolatility
    && Abs(r.median - r.priceToBeat.value) >= cfg.minDelta
    && Abs(r.zScore) >= cfg.minZScore
  }

  datatype Decision = Decision(
    side: Direction, edge: int, trueProb: int, marketPrice: nat, limitPrice: nat, kelly: real, shares: nat, totalCost: nat)

  function MinReal(a: real, b: real): (r: real)
    ensures r <= a && r <= b && (r == a || r == b)
  {
    if a <= b then a else b
  }

  /** Fractional Kelly, capped by what is left of the window's budget. */
  function ComputeKellySize(edge: int, marketPrice: int, cfg: Config, alreadySpent: real): real {
    if edge <= 0 then 0.0
    else
      var denominator := cfg.One() - marketPrice;
      if denominator <= 0 then 0.0
      else
        var dollarSize := edge as real / denominator as real * cfg.kellyMultiplier * cfg.bankroll;
        var remaining := cfg.maxPositionPerWindow - alreadySpent;
        if remaining <= 0.0 then 0.0 else MinReal(dollarSize, remaining)
  }

  /** The size never exceeds the remaining budget, nor, for a probability of at most one, the multiplier's share of the
      bankroll; it is positive exactly when there is an edge on a price below a dollar, bankroll and budget left. */
  lemma KellyBounds(edge: int, marketPrice: int, cfg: Config, alreadySpent: real)
    requires cfg.Valid()
    ensures var k := ComputeKellySize(edge, marketPrice, cfg, alreadySpent);
            && 0.0 <= k
            && (k > 0.0 ==> k <= cfg.maxPositionPerWindow - alreadySpent)
            && (edge + marketPrice <= cfg.One() ==> k <= cfg.kellyMultiplier * cfg.bankroll)
            && (k > 0.0 <==> edge > 0 && marketPrice < cfg.One() && cfg.bankroll > 0.0 && alreadySpent < cfg.maxPositionPerWindow)
  {
    if edge > 0 && marketPrice < cfg.One() {
      var f := edge as real / (cfg.One() - marketPrice) as real;
      FractionPositive(edge, cfg.One() - marketPrice);
      FractionScales(f, cfg.kellyMultiplier, cfg.bankroll);
      if edge + marketPrice <= cfg.One() {
        ShareOfBankroll(f, cfg.kellyMultiplier, cfg.bankroll);
      }
      SizeBounds(edge, marketPrice, cfg, alreadySpent, f * cfg.kellyMultiplier * cfg.bankroll, cfg.kellyMultiplier * cfg.bankroll);
    } else {
      ShareOfBankroll(1.0, cfg.kellyMultiplier, cfg.bankroll);
    }
  }

  /** The same with the two products as numbers of their own. */
  lemma SizeBounds(edge: int, marketPrice: int, cfg: Config, alreadySpent: real, size: real, share: real)
    requires edge > 0 && marketPrice < cfg.One()
    requires size == edge as real / (cfg.One() - marketPrice) as real * cfg.kellyMultiplier * cfg.bankroll
    requires size >= 0.0 && (size > 0.0 <==> cfg.bankroll > 0.0)
    requires share >= 0.0 && (edge + marketPrice <= cfg.One() ==> size <= share)
    ensures var k := ComputeKellySize(edge, marketPrice, cfg, alreadySpent);
            && 0.0 <= k
            && (k > 0.0 ==> k <= cfg.maxPositionPerWindow - alreadySpent)
            && (edge + marketPrice <= cfg.One() ==> k <= share)
            && (k > 0.0 <==> cfg.bankroll > 0.0 && alreadySpent < cfg.maxPositionPerWindow)
  {
  }

  /** The Kelly dollars, cross-multiplied: times one dollar less the price they are edge times multiplier times bankroll,
      unless that is more than what is left of the budget; then they are what is left. */
  ghost predicate KellyDollars(cfg: Config, edge: int, price: int, spent: real, dollars: real) {
    var odds, stake, left := (cfg.One() - price) as real, edge as real * (cfg.kellyMultiplier * cfg.bankroll),
                             cfg.maxPositionPerWindow - spent;
    dollars <= left && odds * dollars <= stake && (dollars == left || odds * dollars == stake)
  }

  /** That determines them, and they are what is computed. */
  lemma KellyIs(edge: int, price: int, cfg: Config, spent: real, dollars: real)
    requires edge > 0 && price < cfg.One() && spent < cfg.maxPositionPerWindow
    ensures KellyDollars(cfg, edge, price, spent, dollars) <==> dollars == ComputeKellySize(edge, price, cfg, spent)
  {
    var odds, e, m, b := (cfg.One() - price) as real, edge as real, cfg.kellyMultiplier, cfg.bankroll;
    ScaledBy(e, odds, m, b);
    CapOfRatio(odds, e * (m * b), e / odds * m * b, cfg.maxPositionPerWindow - spent, dollars);
  }

  lemma ScaledBy(e: real, odds: real, m: real, b: real)
    requires odds > 0.0
    ensures odds * (e / odds * m * b) == e * (m * b)
  {
    var f := e / odds;
    assert f * odds == e;
    assert f * m * b == f * (m * b);
    assert odds * (f * (m * b)) == (odds * f) * (m * b);
  }

  lemma CapOfRatio(odds: real, stake: real, size: real, left: real, dollars: real)
    requires odds > 0.0 && odds * size == stake
    ensures (dollars <= left && odds * dollars <= stake && (dollars == left || odds * dollars == stake))
            <==> dollars == MinReal(size, left)
  {
    OddsKeepOrder(odds, size, dollars);
    OddsKeepOrder(odds, dollars, size);
  }

  lemma OddsKeepOrder(odds: real, a: real, b: real)
    requires odds > 0.0
    ensures odds * a <= odds * b <==> a <= b
  {
    if a > b {
      assert odds * (a - b) > 0.0;
    } else {
      assert odds * (b - a) >= 0.0;
    }
  }

  lemma FractionPositive(a: int, b: int)
    requires a > 0 && b > 0
    ensures a as real / b as real > 0.0 && (a <= b ==> a as real / b as real <= 1.0)
  {
  }

  lemma FractionScales(f: real, m: real, b: real)
    requires f > 0.0 && m > 0.0 && b >= 0.0
    ensures f * m * b >= 0.0 && (f * m * b > 0.0 <==> b > 0.0)
  {
    assert f * m > 0.0;
  }

  lemma ShareOfBankroll(f: real, m: real, b: real)
    requires 0.0 < f <= 1.0 && m > 0.0 && b >= 0.0
    ensures f * m * b <= m * b && m * b >= 0.0
  {
    assert f * m <= m;
  }

  function ProbabilityOf(cfg: Config, side: Direction, r: Reading): int {
    if side.Up? then r.trueProb else cfg.One() - r.trueProb
  }

  /** The decision of one side on its book, none if any condition of the source's loop body skips the side. */
  ghost function SideDecision(cfg: Config, side: Direction, trueProb: int, spent: real, asks: seq<Level>): Option<Decision> {
    if trueProb < cfg.minEdge + cfg.cent || cfg.maxPositionPerWindow - spent <= 0.0 || |asks| == 0 || asks[0].price == 0 then None
    else
      var bestAsk := asks[0].price;
      var edge, maxPrice := trueProb - bestAsk, trueProb - cfg.edgeBuffer;
      if edge < cfg.minEdge || maxPrice <= 0 || maxPrice < bestAsk then None
      else
        var kelly := ComputeKellySize(edge, bestAsk, cfg, spent);
        if kelly <= 0.0 then None
        else
          var walk := Available(asks, maxPrice, (kelly / bestAsk as real).Floor);
          if walk.None? || walk.value.totalCost as real < cfg.minBookDepth then None
          else Some(Decision(side, edge, trueProb, bestAsk, walk.value.worstPrice, kelly, walk.value.availableShares,
                             walk.value.totalCost))
  }

  method DecideSide(cfg: Config, side: Direction, trueProb: int, spent: real, asks: seq<Level>) returns (d: Option<Decision>)
    requires cfg.Valid() && WellFormed(asks)
    ensures d == SideDecision(cfg, side, trueProb, spent, asks)
  {
    hide Available, WellFormed, ComputeKellySize;
    if trueProb < cfg.minEdge + cfg.cent {
      return None;
    }
    var remaining := cfg.maxPositionPerWindow - spent;
    if remaining <= 0.0 {
      return None;
    }
    if |asks| == 0 {
      return None;
    }
    var bestAsk := asks[0].price;
    BestAskPositive(asks);
    var edge := trueProb - bestAsk;
    if edge < cfg.minEdge {
      return None;
    }
    var maxPrice := trueProb - cfg.edgeBuffer;
    if maxPrice <= 0 || maxPrice < bestAsk {
      return None;
    }
    var kelly := ComputeKellySize(edge, bestAsk, cfg, spent);
    if kelly <= 0.0 {
      return None;
    }
    var targetShares := (kelly / bestAsk as real).Floor;
    var liquidity := GetAvailableLiquidity(asks, maxPrice, targetShares);
    if liquidity.None? {
      return None;
    }
    if liquidity.value.totalCost as real < cfg.minBookDepth {
      return None;
    }
    return Some(Decision(side, edge, trueProb, bestAsk, liquidity.value.worstPrice, kelly, liquidity.value.availableShares,
                         liquidity.value.totalCost));
  }

  lemma BestAskPositive(asks: seq<Level>)
    requires WellFormed(asks) && |asks| > 0
    ensures asks[0].price > 0
  {
  }

  /** What every decision keeps to: its limit is a touched ask, at most the probability less the buffer; its edge is at least
      the minimum; it has at least the exchange minimum of shares; bought at the best ask it fits the remaining budget; and
      its walked cost lies between shares at the best ask and shares at the limit. */
  ghost predicate Sound(cfg: Config, spent: real, d: Decision) {
    && 0 < d.marketPrice <= d.limitPrice <= d.trueProb - cfg.edgeBuffer
    && d.edge == d.trueProb - d.marketPrice >= cfg.minEdge
    && d.shares >= MIN_SHARES
    && 0.0 < Money(d.shares, d.marketPrice) <= d.kelly <= cfg.maxPositionPerWindow - spent
    && Money(d.shares, d.marketPrice) <= d.totalCost as real <= Money(d.shares, d.limitPrice)
    && d.totalCost as real >= cfg.minBookDepth
  }

  function Money(shares: nat, price: nat): real {
    shares as real * price as real
  }

  lemma DecisionSound(cfg: Config, side: Direction, trueProb: int, spent: real, asks: seq<Level>)
    requires cfg.Valid() && WellFormed(asks) && SideDecision(cfg, side, trueProb, spent, asks).Some?
    ensures var d := SideDecision(cfg, side, trueProb, spent, asks).value;
            d.side == side && d.trueProb == trueProb && Sound(cfg, spent, d)
  {
    hide ComputeKellySize, WellFormed;
    var d := SideDecision(cfg, side, trueProb, spent, asks).value;
    var target := (d.kelly / d.marketPrice as real).Floor;
    WalkPrices(asks, trueProb - cfg.edgeBuffer, target, 1);
    KellyBounds(d.edge, d.marketPrice, cfg, spent);
    TargetFits(d.kelly, d.marketPrice, d.shares, target);
    CostAsMoney(d.shares, d.marketPrice, d.limitPrice, d.totalCost);
  }

  // When a side is decided on, in the quantities of feed, book and configuration

  /** The dollars and the shares they buy: as many as they pay for at the best ask, of what rests up to the top price. */
  ghost predicate Sizes(cfg: Config, prob: int, spent: real, asks: seq<Level>, dollars: real, n: nat)
    requires |asks| > 0
  {
    var best, eligible := asks[0].price, Eligible(asks, prob - cfg.edgeBuffer);
    && KellyDollars(cfg, prob - best, best, spent, dollars)
    && n <= eligible && Money(n, best) <= dollars && (n == eligible || dollars < Money(n + 1, best))
  }

  /** A side qualifies: probability and edge reach their minima, a price below the dollar leaves the buffer, budget and
      bankroll are left, and the sized shares reach the exchange minimum and the minimum depth. */
  ghost predicate Qualifies(cfg: Config, prob: int, spent: real, asks: seq<Level>) {
    && |asks| > 0 && prob >= cfg.minEdge + cfg.cent && spent < cfg.maxPositionPerWindow && cfg.bankroll > 0.0
    && prob - asks[0].price >= cfg.minEdge && asks[0].price + cfg.edgeBuffer <= prob && asks[0].price < cfg.One()
    && exists dollars: real, n: nat ::
         Sizes(cfg, prob, spent, asks, dollars, n) && 500 <= n <= Depth(asks) && PrefixCost(asks, n) as real >= cfg.minBookDepth
  }

  /** What a decision says of the book it was made on. */
  ghost predicate Describes(cfg: Config, side: Direction, prob: int, spent: real, asks: seq<Level>, d: Decision)
    requires |asks| > 0
  {
    && d.side == side && d.trueProb == prob && d.marketPrice == asks[0].price && d.edge == prob - asks[0].price
    && Sizes(cfg, prob, spent, asks, d.kelly, d.shares) && 0 < d.shares <= Depth(asks)
    && d.totalCost == PrefixCost(asks, d.shares) && d.limitPrice == UnitPrice(asks, d.shares - 1)
  }

  lemma SizesAre(cfg: Config, prob: int, spent: real, asks: seq<Level>, dollars: real, n: nat)
    requires cfg.Valid() && WellFormed(asks) && |asks| > 0 && spent < cfg.maxPositionPerWindow
    requires prob - asks[0].price >= cfg.minEdge && asks[0].price < cfg.One()
    requires ComputeKellySize(prob - asks[0].price, asks[0].price, cfg, spent) > 0.0
    ensures Sizes(cfg, prob, spent, asks, dollars, n) <==>
            var kelly := ComputeKellySize(prob - asks[0].price, asks[0].price, cfg, spent);
            dollars == kelly && n == Takes(asks, prob - cfg.edgeBuffer, (kelly / asks[0].price as real).Floor)
  {
    hide ComputeKellySize, KellyDollars, EligibleUpTo;
    var best := asks[0].price;
    BestAskPositive(asks);
    KellyIs(prob - best, best, cfg, spent, dollars);
    var kelly := ComputeKellySize(prob - best, best, cfg, spent);
    PaysFor(kelly, best, n);
    PaysFor(kelly, best, n + 1);
    QuotientNotNegative(kelly, best);
  }

  lemma PaysFor(dollars: real, price: nat, n: nat)
    requires price > 0
    ensures Money(n, price) <= dollars <==> n <= (dollars / price as real).Floor
  {
    var q := dollars / price as real;
    assert q * price as real == dollars;
    if n as real <= q {
      assert n as real * price as real <= q * price as real;
    } else {
      assert n as real * price as real > q * price as real;
    }
  }

  lemma QuotientNotNegative(dollars: real, price: nat)
    requires price > 0 && dollars > 0.0
    ensures (dollars / price as real).Floor >= 0
  {
    assert dollars / price as real >= 0.0;
  }

  /** A side is decided on if and only if it qualifies, and the decision describes its book. */
  lemma SideDecidesIff(cfg: Config, side: Direction, prob: int, spent: real, asks: seq<Level>)
    requires cfg.Valid() && WellFormed(asks)
    ensures SideDecision(cfg, side, prob, spent, asks).Some? <==> Qualifies(cfg, prob, spent, asks)
    ensures SideDecision(cfg, side, prob, spent, asks).Some? ==>
              |asks| > 0 && Describes(cfg, side, prob, spent, asks, SideDecision(cfg, side, prob, spent, asks).value)
  {
    hide ComputeKellySize, WellFormed, Sizes, EligibleUpTo, PrefixCost;
    if |asks| > 0 && prob >= cfg.minEdge + cfg.cent && spent < cfg.maxPositionPerWindow && prob - asks[0].price >= cfg.minEdge {
      BestAskPositive(asks);
      var best, top := asks[0].price, prob - cfg.edgeBuffer;
      KellyBounds(prob - best, best, cfg, spent);
      var kelly := ComputeKellySize(prob - best, best, cfg, spent);
      if kelly > 0.0 {
        var n := Takes(asks, top, (kelly / best as real).Floor);
        SizesAre(cfg, prob, spent, asks, kelly, n);
        EligibleFits(asks, |asks|, top);
        forall dollars: real, m: nat | Sizes(cfg, prob, spent, asks, dollars, m)
          ensures dollars == kelly && m == n
        {
          SizesAre(cfg, prob, spent, asks, dollars, m);
        }
      }
    }
  }

  lemma TargetFits(kelly: real, price: nat, shares: nat, target: int)
    requires price > 0 && target == (kelly / price as real).Floor && 0 < shares <= target
    ensures 0.0 < Money(shares, price) <= kelly
  {
    assert shares as real <= kelly / price as real;
    assert kelly / price as real * price as real == kelly;
  }

  lemma CostAsMoney(shares: nat, best: nat, limit: nat, cost: nat)
    requires best * shares <= cost <= limit * shares
    ensures Money(shares, best) <= cost as real <= Money(shares, limit)
  {
    assert (best * shares) as real == best as real * shares as real;
    assert (limit * shares) as real == limit as real * shares as real;
  }

  // Both sides

  /** The sides looked at: both, in order, until something is spent on one; then only that one. */
  function Sides(upSpent: real, downSpent: real): seq<Direction> {
    if upSpent > 0.0 then [Up] else if downSpent > 0.0 then [Down] else [Up, Down]
  }

  ghost function FirstDecision(cfg: Config, r: Reading, upSpent: real, downSpent: real, upAsks: seq<Level>,
                               downAsks: seq<Level>, i: nat): Option<Decision>
    decreases |Sides(upSpent, downSpent)| - i
  {
    var sides := Sides(upSpent, downSpent);
    if i >= |sides| then None
    else
      var d := SideDecision(cfg, sides[i], ProbabilityOf(cfg, sides[i], r), if sides[i].Up? then upSpent else downSpent,
                            if sides[i].Up? then upAsks else downAsks);
      if d.Some? then d else FirstDecision(cfg, r, upSpent, downSpent, upAsks, downAsks, i + 1)
  }

  /** The whole decision of a tick. */
  ghost function Decided(cfg: Config, r: Reading, upSpent: real, downSpent: real, upAsks: seq<Level>, downAsks: seq<Level>):
    Option<Decision>
  {
    if Passes(cfg, r) then FirstDecision(cfg, r, upSpent, downSpent, upAsks, downAsks, 0) else None
  }

  /** A decision is on an allowed side: never on the side opposite to one with money spent. */
  lemma DecidedSound(cfg: Config, r: Reading, upSpent: real, downSpent: real, upAsks: seq<Level>, downAsks: seq<Level>)
    requires cfg.Valid() && WellFormed(upAsks) && WellFormed(downAsks)
    requires Decided(cfg, r, upSpent, downSpent, upAsks, downAsks).Some?
    ensures var d := Decided(cfg, r, upSpent, downSpent, upAsks, downAsks).value;
            && d.side in Sides(upSpent, downSpent)
            && Sound(cfg, if d.side.Up? then upSpent else downSpent, d)
  {
    hide SideDecision, Sound, WellFormed;
    var first := Sides(upSpent, downSpent)[0];
    var firstDecision := SideDecision(cfg, first, ProbabilityOf(cfg, first, r), if first.Up? then upSpent else downSpent,
                                      if first.Up? then upAsks else downAsks);
    if firstDecision.Some? {
      DecisionSound(cfg, first, ProbabilityOf(cfg, first, r), if first.Up? then upSpent else downSpent,
                    if first.Up? then upAsks else downAsks);
      assert FirstDecision(cfg, r, upSpent, downSpent, upAsks, downAsks, 0) == firstDecision;
    } else {
      var i := 1;
      assert FirstDecision(cfg, r, upSpent, downSpent, upAsks, downAsks, 0) ==
             FirstDecision(cfg, r, upSpent, downSpent, upAsks, downAsks, i);
      assert i < |Sides(upSpent, downSpent)|;
      DecisionSound(cfg, Down, ProbabilityOf(cfg, Down, r), downSpent, downAsks);
    }
  }

  /** When a tick leads to a decision: the feed is fresh with a median, the price to beat is known, volatility, move and
      z-score reach their minima, and an allowed side qualifies, up before down. */
  ghost predicate Warranted(cfg: Config, r: Reading, upSpent: real, downSpent: real, upAsks: seq<Level>, downAsks: seq<Level>,
                            side: Direction)
  {
    && Significant(cfg, r)
    && var up, down := UpAllowed(upSpent, downSpent) && Qualifies(cfg, r.trueProb, upSpent, upAsks),
                       DownAllowed(upSpent, downSpent) && Qualifies(cfg, cfg.One() - r.trueProb, downSpent, downAsks);
       if side.Up? then up else down && !up
  }

  ghost predicate Significant(cfg: Config, r: Reading) {
    && !r.stale && r.median != 0.0 && r.priceToBeat.Some?
    && r.rollingVol != 0.0 && r.rollingVol >= cfg.minVolatility
    && (r.median - r.priceToBeat.value >= cfg.minDelta || r.priceToBeat.value - r.median >= cfg.minDelta)
    && (r.zScore >= cfg.minZScore || r.zScore <= -cfg.minZScore)
  }

  /** A side is closed once money is spent on the other one; should both have some, down is. */
  ghost predicate UpAllowed(upSpent: real, downSpent: real) {
    upSpent > 0.0 || downSpent <= 0.0
  }

  ghost predicate DownAllowed(upSpent: real, downSpent: real) {
    upSpent <= 0.0
  }

  /** A tick leads to a decision on a side if and only if one is warranted on it, and then the decision describes the book of
      that side. */
  lemma DecidesIff(cfg: Config, r: Reading, upSpent: real, downSpent: real, upAsks: seq<Level>, downAsks: seq<Level>,
                   side: Direction)
    requires cfg.Valid() && WellFormed(upAsks) && WellFormed(downAsks)
    ensures var d := Decided(cfg, r, upSpent, downSpent, upAsks, downAsks);
            && (d.Some? && d.value.side == side <==> Warranted(cfg, r, upSpent, downSpent, upAsks, downAsks, side))
            && (d.Some? && d.value.side == side ==>
                  var asks := if side.Up? then upAsks else downAsks;
                  |asks| > 0 && Describes(cfg, side, if side.Up? then r.trueProb else cfg.One() - r.trueProb,
                                          if side.Up? then upSpent else downSpent, asks, d.value))
  {
    hide SideDecision, WellFormed, Qualifies, Describes, Sizes;
    SideDecidesIff(cfg, Up, r.trueProb, upSpent, upAsks);
    SideDecidesIff(cfg, Down, cfg.One() - r.trueProb, downSpent, downAsks);
    SideNamed(cfg, Up, r.trueProb, upSpent, upAsks);
    SideNamed(cfg, Down, cfg.One() - r.trueProb, downSpent, downAsks);
    FirstOf(cfg, r, upSpent, downSpent, upAsks, downAsks);
  }

  lemma SideNamed(cfg: Config, side: Direction, prob: int, spent: real, asks: seq<Level>)
    ensures SideDecision(cfg, side, prob, spent, asks).Some? ==> SideDecision(cfg, side, prob, spent, asks).value.side == side
  {
  }

  lemma FirstOf(cfg: Config, r: Reading, upSpent: real, downSpent: real, upAsks: seq<Level>, downAsks: seq<Level>)
    ensures var up, down := SideDecision(cfg, Up, ProbabilityOf(cfg, Up, r), upSpent, upAsks),
                            SideDecision(cfg, Down, ProbabilityOf(cfg, Down, r), downSpent, downAsks);
            FirstDecision(cfg, r, upSpent, downSpent, upAsks, downAsks, 0) ==
            if upSpent > 0.0 then up else if downSpent > 0.0 then down else if up.Some? then up else down
  {
    hide SideDecision;
    var i, j := 1, 2;
    assert FirstDecision(cfg, r, upSpent, downSpent, upAsks, downAsks, j) == None;
    assert upSpent <= 0.0 && downSpent <= 0.0 ==>
             FirstDecision(cfg, r, upSpent, downSpent, upAsks, downAsks, i) ==
             SideDecision(cfg, Down, ProbabilityOf(cfg, Down, r), downSpent, downAsks);
    assert upSpent > 0.0 || downSpent > 0.0 ==> FirstDecision(cfg, r, upSpent, downSpent, upAsks, downAsks, i) == None;
  }

  // The signal as an object

  datatype Snapshot = Snapshot(asks: seq<Level>, fetchedAt: int)

  /** What a book request of this tick would see: the clock, and the fetched book. */
  datatype Feed = Feed(now: int, fetched: Snapshot)

  function Fresher(cache: Option<Snapshot>, feed: Feed): Snapshot {
    if cache.Some? && feed.now - cache.value.fetchedAt < CACHE_MS then cache.value else feed.fetched
  }

  /** A book fetched less than half a second ago is used again, an older one is not. */
  lemma FresherIs(book: Snapshot, feed: Feed)
    ensures feed.now - book.fetchedAt <= 499 ==> Fresher(Some(book), feed) == book
    ensures feed.now - book.fetchedAt >= 500 ==> Fresher(Some(book), feed) == feed.fetched
    ensures Fresher(None, feed) == feed.fetched
  {
  }

  /** A side's book is looked at, hence fetched where it is not fresh, when the reading is significant, the side is allowed,
      neither its probability nor its budget rules it out, and for down when up does not lead to a decision. */
  ghost predicate LooksAt(cfg: Config, r: Reading, upSpent: real, downSpent: real, upAsks: seq<Level>, side: Direction) {
    && Significant(cfg, r)
    && if side.Up? then
         UpAllowed(upSpent, downSpent) && r.trueProb >= cfg.minEdge + cfg.cent && upSpent < cfg.maxPositionPerWindow
       else
         && DownAllowed(upSpent, downSpent) && cfg.One() - r.trueProb >= cfg.minEdge + cfg.cent
         && downSpent < cfg.maxPositionPerWindow
         && !(UpAllowed(upSpent, downSpent) && Qualifies(cfg, r.trueProb, upSpent, upAsks))
  }

  /** The cached book of a side after a tick. */
  ghost function CacheAfter(cfg: Config, r: Reading, upSpent: real, downSpent: real, upAsks: seq<Level>, side: Direction,
                            cache: Option<Snapshot>, feed: Feed): Option<Snapshot>
  {
    if LooksAt(cfg, r, upSpent, downSpent, upAsks, side) then Some(Fresher(cache, feed)) else cache
  }

  ghost predicate Usable(s: Option<Snapshot>) {
    s.Some? ==> WellFormed(s.value.asks)
  }

  class Signal {
    const cfg: Config
    var windowTs: int
    var upSpent: real
    var downSpent: real
    var upBookCache: Option<Snapshot>
    var downBookCache: Option<Snapshot>

    ghost predicate Valid()
      reads this
    {
      cfg.Valid() && Usable(upBookCache) && Usable(downBookCache)
    }

    constructor (cfg: Config)
      requires cfg.Valid()
      ensures Valid() && this.cfg == cfg && upSpent == 0.0 == downSpent
    {
      this.cfg, windowTs, upSpent, downSpent := cfg, 0, 0.0, 0.0;
      upBookCache, downBookCache := None, None;
    }

    /** Starts a window with nothing spent and nothing cached. */
    method ResetWindow(ts: int)
      requires cfg.Valid()
      modifies this
      ensures Valid() && windowTs == ts && upSpent == 0.0 == downSpent && upBookCache == None == downBookCache
    {
      windowTs, upSpent, downSpent, upBookCache, downBookCache := ts, 0.0, 0.0, None, None;
    }

    method RecordFill(side: Direction, cost: real)
      requires Valid()
      modifies this
      ensures Valid() && unchanged(`windowTs, `upBookCache, `downBookCache)
      ensures upSpent == old(upSpent) + (if side.Up? then cost else 0.0)
      ensures downSpent == old(downSpent) + (if side.Down? then cost else 0.0)
    {
      if side.Up? {
        upSpent := upSpent + cost;
      } else {
        downSpent := downSpent + cost;
      }
    }

    method GetCachedOrderBook(side: Direction, feed: Feed) returns (book: Snapshot)
      requires Valid() && WellFormed(feed.fetched.asks)
      modifies this
      ensures Valid() && unchanged(`windowTs, `upSpent, `downSpent) && WellFormed(book.asks)
      ensures book == Fresher(old(if side.Up? then upBookCache else downBookCache), feed)
      ensures (if side.Up? then upBookCache else downBookCache) == Some(book)
      ensures if side.Up? then unchanged(`downBookCache) else unchanged(`upBookCache)
    {
      var cache := if side.Up? then upBookCache else downBookCache;
      if cache.Some? && feed.now - cache.value.fetchedAt < CACHE_MS {
        return cache.value;
      }
      book := feed.fetched;
      if side.Up? {
        upBookCache := Some(book);
      } else {
        downBookCache := Some(book);
      }
    }

    /** Decides on the books that are cached or fetched now; what is spent does not change. */
    method Evaluate(r: Reading, up: Feed, down: Feed) returns (d: Option<Decision>)
      requires Valid() && WellFormed(up.fetched.asks) && WellFormed(down.fetched.asks)
      modifies this
      ensures Valid() && unchanged(`windowTs, `upSpent, `downSpent)
      ensures d == Decided(cfg, r, upSpent, downSpent, Fresher(old(upBookCache), up).asks, Fresher(old(downBookCache), down).asks)
      ensures var upAsks, downAsks := Fresher(old(upBookCache), up).asks, Fresher(old(downBookCache), down).asks;
              && (forall side :: d.Some? && d.value.side == side <==>
                                 Warranted(cfg, r, upSpent, downSpent, upAsks, downAsks, side))
              && upBookCache == CacheAfter(cfg, r, upSpent, downSpent, upAsks, Up, old(upBookCache), up)
              && downBookCache == CacheAfter(cfg, r, upSpent, downSpent, upAsks, Down, old(downBookCache), down)
    {
      hide SideDecision, WellFormed, Qualifies, Describes, FirstDecision, Fresher;
      ghost var upAsks, downAsks := Fresher(upBookCache, up).asks, Fresher(downBookCache, down).asks;
      FresherUsable(upBookCache, up);
      FresherUsable(downBookCache, down);
      DecidesIff(cfg, r, upSpent, downSpent, upAsks, downAsks, Up);
      DecidesIff(cfg, r, upSpent, downSpent, upAsks, downAsks, Down);
      SideDecidesIff(cfg, Up, r.trueProb, upSpent, upAsks);
      SideDecidesIff(cfg, Down, cfg.One() - r.trueProb, downSpent, downAsks);
      FirstOf(cfg, r, upSpent, downSpent, upAsks, downAsks);
      if !Passes(cfg, r) {
        return None;
      }
      var sides := Sides(upSpent, downSpent);
      for i := 0 to |sides|
        invariant Valid() && unchanged(`windowTs, `upSpent, `downSpent)
        invariant upBookCache == if Up in sides[..i] then CacheAfter(cfg, r, upSpent, downSpent, upAsks, Up, old(upBookCache), up)
                                 else old(upBookCache)
        invariant downBookCache == if Down in sides[..i] then CacheAfter(cfg, r, upSpent, downSpent, upAsks, Down, old(downBookCache), down)
                                   else old(downBookCache)
        invariant Up in sides[..i] ==> SideDecision(cfg, Up, r.trueProb, upSpent, upAsks) == None
        invariant Down in sides[..i] ==> SideDecision(cfg, Down, cfg.One() - r.trueProb, downSpent, downAsks) == None
      {
        var side := sides[i];
        var spent, trueProb := if side.Up? then upSpent else downSpent, ProbabilityOf(cfg, side, r);
        assert sides[..i + 1] == sides[..i] + [side];
        assert side.Down? && UpAllowed(upSpent, downSpent) ==> i == 1 && sides[..i][0] == Up;
        // the book is fetched only when neither the probability nor the budget already rules the side out
        if trueProb >= cfg.minEdge + cfg.cent && cfg.maxPositionPerWindow - spent > 0.0 {
          var book := GetCachedOrderBook(side, if side.Up? then up else down);
          d := DecideSide(cfg, side, trueProb, spent, book.asks);
          if d.Some? {
            return d;
          }
        } else {
          RuledOut(cfg, side, trueProb, spent, if side.Up? then upAsks else downAsks);
        }
      }
      assert sides[..|sides|] == sides;
      assert UpAllowed(upSpent, downSpent) ==> sides[0] == Up;
      assert DownAllowed(upSpent, downSpent) ==> sides[|sides| - 1] == Down;
      return None;
    }
  }

  lemma FresherUsable(cache: Option<Snapshot>, feed: Feed)
    requires Usable(cache) && WellFormed(feed.fetched.asks)
    ensures WellFormed(Fresher(cache, feed).asks)
  {
    hide WellFormed;
  }

  lemma RuledOut(cfg: Config, side: Direction, trueProb: int, spent: real, asks: seq<Level>)
    requires trueProb < cfg.minEdge + cfg.cent || cfg.maxPositionPerWindow - spent <= 0.0
    ensures SideDecision(cfg, side, trueProb, spent, asks) == None
  {
  }
}
