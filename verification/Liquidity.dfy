/** The single-book walk (OrderbookChecker.getAvailableLiquidity, shared by the latency and momentum strategies), the paper
    fill that reuses it, and the momentum strategy's budget scaling. Shares, ticks and money as in Book. */
module Liquidity {
  import opened Common
  import opened Rounding
  import opened Book

  datatype LiquidityResult = LiquidityResult(availableShares: nat, worstPrice: nat, totalCost: nat)

  /** Shares resting, on the first i levels, at prices up to maxPrice. */
  function EligibleUpTo(b: seq<Level>, i: nat, maxPrice: int): nat
    requires i <= |b|
  {
    if i == 0 then 0 else EligibleUpTo(b, i - 1, maxPrice) + if b[i - 1].price <= maxPrice then b[i - 1].size else 0
  }

  function Eligible(b: seq<Level>, maxPrice: int): nat {
    EligibleUpTo(b, |b|, maxPrice)
  }

  /** What the walk should take: all that is eligible, up to maxShares. */
  function Takes(b: seq<Level>, maxPrice: int, maxShares: int): nat {
    Max(0, Min(maxShares, Eligible(b, maxPrice)))
  }

  lemma {:induction false} EligibleFits(b: seq<Level>, i: nat, maxPrice: int)
    requires i <= |b|
    ensures EligibleUpTo(b, i, maxPrice) <= Before(b, i)
  {
    if i > 0 {
      EligibleFits(b, i - 1, maxPrice);
    }
  }

  lemma {:induction false} EligiblePrefix(b: seq<Level>, i: nat, j: nat, maxPrice: int)
    requires WellFormed(b) && i <= j <= |b|
    requires forall k :: 0 <= k < i ==> b[k].price <= maxPrice
    requires i < |b| ==> b[i].price > maxPrice
    ensures EligibleUpTo(b, j, maxPrice) == Before(b, i)
    decreases j
  {
    if j > i {
      EligiblePrefix(b, i, j - 1, maxPrice);
    } else if i > 0 {
      EligibleAll(b, i, maxPrice);
    }
  }

  lemma {:induction false} EligibleAll(b: seq<Level>, i: nat, maxPrice: int)
    requires i <= |b| && forall k :: 0 <= k < i ==> b[k].price <= maxPrice
    ensures EligibleUpTo(b, i, maxPrice) == Before(b, i)
  {
    if i > 0 {
      EligibleAll(b, i - 1, maxPrice);
    }
  }

  lemma {:induction false} EligibleGrows(b: seq<Level>, i: nat, j: nat, maxPrice: int)
    requires i <= j <= |b|
    ensures EligibleUpTo(b, i, maxPrice) <= EligibleUpTo(b, j, maxPrice)
    decreases j
  {
    if i < j {
      EligibleGrows(b, i, j - 1, maxPrice);
    }
  }

  /** The result of the walk, as a value. */
  ghost function Available(b: seq<Level>, maxPrice: int, maxShares: int): (r: Option<LiquidityResult>)
    ensures r.None? <==> Takes(b, maxPrice, maxShares) < MIN_SHARES
    ensures r.Some? ==> r.value.availableShares == Takes(b, maxPrice, maxShares) <= Depth(b)
  {
    EligibleFits(b, |b|, maxPrice);
    var n := Takes(b, maxPrice, maxShares);
    if n < MIN_SHARES then None else Some(LiquidityResult(n, UnitPrice(b, n - 1), PrefixCost(b, n)))
  }

  /** Loop head of the walk: the levels before i were all eligible and taken whole, and more is wanted. */
  ghost predicate Walking(b: seq<Level>, maxPrice: int, maxShares: int, i: nat, shares: nat, cost: nat, worst: nat) {
    && i <= |b| && shares == Before(b, i) <= Depth(b)
    && (forall k :: 0 <= k < i ==> b[k].price <= maxPrice)
    && (i > 0 ==> shares < maxShares)
    && cost == PrefixCost(b, shares)
    && (shares > 0 ==> worst == UnitPrice(b, shares - 1))
  }

  lemma WalkStart(b: seq<Level>, maxPrice: int, maxShares: int)
    ensures Walking(b, maxPrice, maxShares, 0, 0, 0, 0)
    ensures |b| == 0 ==> Available(b, maxPrice, maxShares) == None
  {
    BeforeMonotone(b, 0, |b|);
  }

  lemma StopsAt(b: seq<Level>, maxPrice: int, maxShares: int, shares: nat, cost: nat, worst: nat)
    requires shares == Takes(b, maxPrice, maxShares) <= Depth(b) && cost == PrefixCost(b, shares)
    requires shares > 0 ==> worst == UnitPrice(b, shares - 1)
    ensures Available(b, maxPrice, maxShares) == if shares < MIN_SHARES then None else Some(LiquidityResult(shares, worst, cost))
  {
  }

  lemma WalkEnd(b: seq<Level>, maxPrice: int, maxShares: int, shares: nat, cost: nat, worst: nat)
    requires Walking(b, maxPrice, maxShares, |b|, shares, cost, worst)
    ensures Available(b, maxPrice, maxShares) == if shares < MIN_SHARES then None else Some(LiquidityResult(shares, worst, cost))
  {
    EligibleAll(b, |b|, maxPrice);
    StopsAt(b, maxPrice, maxShares, shares, cost, worst);
  }

  /** One turn: a level above the price limit or an exhausted size limit stops the walk; otherwise the level, or what is
      still wanted of it, is taken, and the walk stops or goes on. */
  lemma WalkTurn(b: seq<Level>, maxPrice: int, maxShares: int, i: nat, shares: nat, cost: nat, worst: nat)
    requires WellFormed(b) && i < |b| && Walking(b, maxPrice, maxShares, i, shares, cost, worst)
    ensures b[i].price > maxPrice || maxShares <= shares ==>
              Available(b, maxPrice, maxShares) ==
              if shares < MIN_SHARES then None else Some(LiquidityResult(shares, worst, cost))
    ensures b[i].price <= maxPrice && shares < maxShares ==>
              var taken := if b[i].size > maxShares - shares then maxShares - shares else b[i].size;
              var newShares, newCost := shares + taken, cost + Notional(taken, b[i].price);
              if newShares >= maxShares then
                Available(b, maxPrice, maxShares) ==
                if newShares < MIN_SHARES then None else Some(LiquidityResult(newShares, b[i].price, newCost))
              else
                Walking(b, maxPrice, maxShares, i + 1, newShares, newCost, b[i].price)
  {
    hide PrefixCost, UnitPrice, Notional, Available;
    EligibleGrows(b, i, |b|, maxPrice);
    EligibleAll(b, i, maxPrice);
    if b[i].price > maxPrice {
      EligiblePrefix(b, i, |b|, maxPrice);
      StopsAt(b, maxPrice, maxShares, shares, cost, worst);
    } else if maxShares <= shares {
      StopsAt(b, maxPrice, maxShares, shares, cost, worst);
    } else {
      var taken := if b[i].size > maxShares - shares then maxShares - shares else b[i].size;
      LevelTaken(b, i, shares, taken);
      EligibleAll(b, i + 1, maxPrice);
      EligibleGrows(b, i + 1, |b|, maxPrice);
      if shares + taken >= maxShares {
        StopsAt(b, maxPrice, maxShares, shares + taken, cost + Notional(taken, b[i].price), b[i].price);
      }
    }
  }

  lemma LevelTaken(b: seq<Level>, i: nat, shares: nat, taken: nat)
    requires i < |b| && shares == Before(b, i) && 0 < taken <= b[i].size
    ensures shares + taken <= Before(b, i + 1) <= Depth(b)
    ensures PrefixCost(b, shares + taken) == PrefixCost(b, shares) + Notional(taken, b[i].price)
    ensures UnitPrice(b, shares + taken - 1) == b[i].price
  {
    BeforeMonotone(b, i + 1, |b|);
    CostWithinLevel(b, i, shares, shares + taken);
    LevelUnique(b, shares + taken - 1, i);
  }

  /** Walks the asks within a price and a size limit. */
  method GetAvailableLiquidity(asks: seq<Level>, maxPrice: int, maxShares: int) returns (r: Option<LiquidityResult>)
    requires WellFormed(asks)
    ensures r == Available(asks, maxPrice, maxShares)
  {
    hide *;
    WalkStart(asks, maxPrice, maxShares);
    if |asks| == 0 {
      return None;
    }
    var totalShares: nat, totalCost: nat, worstPrice: nat := 0, 0, 0;
    ghost var done := false;
    for i := 0 to |asks|
      invariant !done && Walking(asks, maxPrice, maxShares, i, totalShares, totalCost, worstPrice)
    {
      WalkTurn(asks, maxPrice, maxShares, i, totalShares, totalCost, worstPrice);
      var price := asks[i].price;
      if price > maxPrice {
        done := true;
        break;
      }
      var sharesToTake := asks[i].size;
      var remaining := maxShares - totalShares;
      if remaining <= 0 {
        done := true;
        break;
      }
      if sharesToTake > remaining {
        sharesToTake := remaining;
      }
      totalShares := totalShares + sharesToTake;
      totalCost := totalCost + Notional(sharesToTake, price);
      worstPrice := price;
      if totalShares >= maxShares {
        done := true;
        break;
      }
    }
    if !done {
      WalkEnd(asks, maxPrice, maxShares, totalShares, totalCost, worstPrice);
    }
    assert Available(asks, maxPrice, maxShares) ==
           if totalShares < MIN_SHARES then None else Some(LiquidityResult(totalShares, worstPrice, totalCost));
    if totalShares < MIN_SHARES {
      return None;
    }
    return Some(LiquidityResult(totalShares, worstPrice, totalCost));
  }

  lemma {:induction false} EligibleWithinPrice(b: seq<Level>, i: nat, k: nat, maxPrice: int)
    requires WellFormed(b) && i <= |b| && k < EligibleUpTo(b, i, maxPrice)
    ensures k < Before(b, i) <= Depth(b) && UnitPrice(b, k) <= maxPrice
  {
    EligibleFits(b, i, maxPrice);
    BeforeMonotone(b, i, |b|);
    if k < EligibleUpTo(b, i - 1, maxPrice) {
      EligibleWithinPrice(b, i - 1, k, maxPrice);
    } else {
      assert b[i - 1].price <= maxPrice;
      if LevelOf(b, k) > i - 1 {
        BeforeMonotone(b, i, LevelOf(b, k));
      }
    }
  }

  /** The walk takes n units if and only if the book has them at prices up to the limit and the size limit allows them. */
  lemma TakesIff(b: seq<Level>, maxPrice: int, maxShares: int, n: nat)
    requires WellFormed(b) && n > 0
    ensures n <= Takes(b, maxPrice, maxShares) <==> n <= Depth(b) && UnitPrice(b, n - 1) <= maxPrice && n <= maxShares
    ensures Available(b, maxPrice, maxShares).Some? <==> Takes(b, maxPrice, maxShares) >= 500
  {
    hide UnitPrice;
    EligibleFits(b, |b|, maxPrice);
    if n <= Eligible(b, maxPrice) {
      EligibleWithinPrice(b, |b|, n - 1, maxPrice);
    }
    if n <= Depth(b) && UnitPrice(b, n - 1) <= maxPrice {
      PricedIsEligible(b, n - 1, maxPrice);
    }
  }

  lemma PricedIsEligible(b: seq<Level>, k: nat, maxPrice: int)
    requires WellFormed(b) && k < Depth(b) && UnitPrice(b, k) <= maxPrice
    ensures k < Eligible(b, maxPrice)
  {
    var i := LevelOf(b, k);
    assert b[i].price == UnitPrice(b, k);
    EligibleAll(b, i + 1, maxPrice);
    EligibleGrows(b, i + 1, |b|, maxPrice);
  }

  /** Every price of a walk lies between the best ask and the limit: bestAsk <= average <= worst <= maxPrice, and
      truncating the average to any number of digits that can express ticks does not change that. */
  lemma WalkPrices(b: seq<Level>, maxPrice: int, maxShares: int, scale: nat)
    requires WellFormed(b) && scale > 0 && Available(b, maxPrice, maxShares).Some?
    ensures var l := Available(b, maxPrice, maxShares).value;
            && |b| > 0 && 0 < b[0].price <= l.worstPrice <= maxPrice
            && b[0].price * l.availableShares <= l.totalCost <= l.worstPrice * l.availableShares
            && b[0].price * scale <= TruncDiv(l.totalCost * scale, l.availableShares) <= l.worstPrice * scale
  {
    var l := Available(b, maxPrice, maxShares).value;
    var n := l.availableShares;
    EligibleWithinPrice(b, |b|, n - 1, maxPrice);
    LevelUnique(b, 0, 0);
    forall k | 0 <= k < n
      ensures b[0].price <= UnitPrice(b, k) <= l.worstPrice
    {
      UnitPriceMonotone(b, 0, k);
      UnitPriceMonotone(b, k, n - 1);
    }
    CostBetween(b, 0, n, b[0].price, l.worstPrice);
    AverageDigits(l.totalCost, n, b[0].price, l.worstPrice, scale);
  }

  lemma AverageDigits(cost: nat, n: nat, lo: nat, hi: nat, scale: nat)
    requires n > 0 && scale > 0 && lo * n <= cost <= hi * n
    ensures lo * scale <= TruncDiv(cost * scale, n) <= hi * scale
  {
    hide TruncDiv;
    var v := TruncDiv(cost * scale, n);
    TruncDivBound(cost * scale, n);
    MulMonotone(lo * n, cost, scale);
    MulSwap(lo, n, scale);
    AtMostQuotient(lo * scale, cost * scale, v, n);
    MulMonotone(cost, hi * n, scale);
    MulSwap(hi, n, scale);
    Cancel(v, hi * scale, n);
  }

  lemma AtMostQuotient(lo: nat, a: nat, v: nat, n: nat)
    requires n > 0 && lo * n <= a < (v + 1) * n
    ensures lo <= v
  {
    if v < lo {
      MulMonotone(v + 1, lo, n);
    }
  }

  // The paper simulator

  datatype SimResult = SimResult(
    success: bool, fillShares: nat, fillPrice: real, slippageBps: real, fillRatio: real,
    partialFill: bool, missedFill: bool, bookDepthLevels: nat, bestAskPrice: nat, totalCost: nat)

  function Missed(bestAsk: nat): SimResult {
    SimResult(false, 0, 0.0, 0.0, 0.0, false, true, 0, bestAsk, 0)
  }

  /** The digits kept of the average price, of the fill ratio and of the slippage, as powers of ten. */
  datatype Kept = Kept(average: nat, ratio: nat, slippage: nat) {
    predicate Valid() {
      average > 0 && ratio > 0 && slippage > 0
    }
  }

  function PaperFill(fill: nat, requested: int, cost: nat, bestAsk: nat, levels: nat, kept: Kept): SimResult
    requires 0 < fill <= requested && 0 < bestAsk && bestAsk * fill <= cost && kept.Valid()
  {
    AverageDigits(cost, fill, bestAsk, cost, kept.average);
    var price := TruncDiv(cost * kept.average, fill);
    SimResult(true, fill, Truncated(cost, fill, kept.average),
              Truncated(price - bestAsk * kept.average, bestAsk * kept.average, kept.slippage) * 10000.0,
              Truncated(fill, requested, kept.ratio), fill < requested, false, levels, bestAsk, cost)
  }

  /** x is a / b, short by less than the last kept digit. */
  ghost predicate Approximates(x: real, a: real, b: real, digit: real) {
    x * b <= a < (x + digit) * b
  }

  /** Average price, fill ratio and slippage of a paper fill are those of its shares and cost, each short by less than its
      last kept digit. */
  ghost predicate Consistent(r: SimResult, requested: int, kept: Kept)
    requires kept.Valid()
  {
    && r.bestAskPrice as real <= r.fillPrice
    && Approximates(r.fillPrice, r.totalCost as real, r.fillShares as real, 1.0 / kept.average as real)
    && 0.0 <= r.fillRatio <= 1.0 && (r.partialFill <==> r.fillShares < requested)
    && Approximates(r.fillRatio, r.fillShares as real, requested as real, 1.0 / kept.ratio as real)
    && 0.0 <= r.slippageBps
    && Approximates(r.slippageBps, (r.fillPrice - r.bestAskPrice as real) * 10000.0, r.bestAskPrice as real,
                    10000.0 / kept.slippage as real)
  }

  lemma PaperFillConsistent(fill: nat, requested: int, cost: nat, bestAsk: nat, levels: nat, kept: Kept)
    requires 0 < fill <= requested && 0 < bestAsk && bestAsk * fill <= cost && kept.Valid()
    ensures Consistent(PaperFill(fill, requested, cost, bestAsk, levels, kept), requested, kept)
  {
    AverageDigits(cost, fill, bestAsk, cost, kept.average);
    var price := TruncDiv(cost * kept.average, fill);
    assert Truncated(cost, fill, kept.average) == price as real / kept.average as real;
    hide Truncated, TruncDiv, Approximates;
    TruncatedApproximates(cost, fill, kept.average);
    TruncatedApproximates(fill, requested, kept.ratio);
    Share(price, bestAsk, kept.average);
    SlippageBounds(price, bestAsk, kept.average, kept.slippage);
  }

  lemma TruncatedApproximates(a: nat, b: nat, scale: nat)
    requires b > 0 && scale > 0
    ensures Approximates(Truncated(a, b, scale), a as real, b as real, 1.0 / scale as real)
    ensures 0.0 <= Truncated(a, b, scale) && (a <= b ==> Truncated(a, b, scale) <= 1.0)
  {
    hide Truncated;
    TruncatedBounds(a, b, scale);
  }

  lemma SlippageBounds(price: nat, best: nat, scale: nat, digits: nat)
    requires best > 0 && scale > 0 && digits > 0 && best * scale <= price
    ensures var slip := Truncated(price - best * scale, best * scale, digits) * 10000.0;
            0.0 <= slip &&
            Approximates(slip, (price as real / scale as real - best as real) * 10000.0, best as real, 10000.0 / digits as real)
  {
    hide Truncated;
    var t, z := Truncated(price - best * scale, best * scale, digits), scale as real;
    var u := t + 1.0 / digits as real;
    TruncatedBounds(price - best * scale, best * scale, digits);
    assert (best * scale) as real == best as real * z;
    Unscaled(t, price as real, best as real, z);
    Unscaled(u, price as real, best as real, z);
    InBasisPoints(t, u, price as real / z - best as real, best as real);
    assert u * 10000.0 == t * 10000.0 + 10000.0 / digits as real;
  }

  lemma InBasisPoints(t: real, u: real, above: real, best: real)
    requires t * best <= above < u * best
    ensures (t * 10000.0) * best <= above * 10000.0 < (u * 10000.0) * best
  {
    assert (u * 10000.0) * best == (u * best) * 10000.0;
    assert (t * 10000.0) * best == (t * best) * 10000.0;
  }

  lemma Unscaled(t: real, price: real, best: real, z: real)
    requires z > 0.0
    ensures t * (best * z) <= price - best * z <==> t * best <= price / z - best
    ensures price - best * z < t * (best * z) <==> price / z - best < t * best
  {
    var above := price / z - best;
    assert above * z == price - best * z;
    assert t * (best * z) == (t * best) * z;
  }

  /** The second loop of the simulator: it stops at the level that holds the last share of the fill, and no level before
      it is above the limit. */
  method CountLevels(asks: seq<Level>, limitPrice: int, fill: nat) returns (levels: nat)
    requires WellFormed(asks) && 0 < fill <= Eligible(asks, limitPrice)
    ensures fill <= Depth(asks) && levels == LevelOf(asks, fill - 1) + 1
  {
    EligibleWithinPrice(asks, |asks|, fill - 1, limitPrice);
    ghost var last := LevelOf(asks, fill - 1);
    levels := 0;
    var counted := 0;
    for i := 0 to |asks|
      invariant levels == i <= last && counted == Before(asks, i)
    {
      if asks[i].price > limitPrice {
        assert false;
        break;
      }
      levels := levels + 1;
      counted := counted + asks[i].size;
      if counted >= fill {
        assert i == last by {
          BeforeMonotone(asks, i + 1, if i < last then last else i + 1);
        }
        break;
      }
    }
  }

  /** The order fills exactly when the walk of the fresh book does, at its truncated average price, and the separate count
      of levels agrees with the walk. */
  method SimulateFill(asks: seq<Level>, limitPrice: int, shares: int, kept: Kept) returns (r: SimResult)
    requires WellFormed(asks) && kept.Valid()
    ensures r.missedFill == !r.success && (r.success <==> Takes(asks, limitPrice, shares) >= MIN_SHARES)
    ensures !r.success ==> r == Missed(if |asks| == 0 then 0 else asks[0].price)
    ensures r.success ==>
              var l := Available(asks, limitPrice, shares).value;
              && r.fillShares == l.availableShares && r.totalCost == l.totalCost && r.bestAskPrice == asks[0].price
              && r.bookDepthLevels == LevelOf(asks, r.fillShares - 1) + 1
              && r.fillPrice == Truncated(l.totalCost, l.availableShares, kept.average)
              && Consistent(r, shares, kept)
  {
    hide Consistent, WellFormed, LevelOf, UnitPrice, PrefixCost;
    if |asks| == 0 {
      return Missed(0);
    }
    var bestAsk := asks[0].price;
    var liquidity := GetAvailableLiquidity(asks, limitPrice, shares);
    if liquidity.None? {
      return Missed(bestAsk);
    }
    WalkPrices(asks, limitPrice, shares, 1);
    var levels := CountLevels(asks, limitPrice, liquidity.value.availableShares);
    PaperFillConsistent(liquidity.value.availableShares, shares, liquidity.value.totalCost, bestAsk, levels, kept);
    r := PaperFill(liquidity.value.availableShares, shares, liquidity.value.totalCost, bestAsk, levels, kept);
  }

  // Momentum: scaling an order down to a budget

  datatype MomentumConfig = MomentumConfig(minEntryPrice: nat, maxEntryPrice: nat, maxBet: nat)

  /** The powers of ten that the kept digits of the scaling ratio and of the average price stand for; costs are reported
      times the latter. */
  datatype Digits = Digits(ratio: nat, price: nat) {
    predicate Valid() {
      ratio > 0 && price > 0
    }
  }

  datatype MomentumDecision = MomentumDecision(
    direction: Direction, entryPrice: nat, shares: nat, totalCostScaled: nat)

  function ScaleDown(n: nat, cost: nat, budget: nat, digits: nat): nat
    requires cost > 0 && digits > 0
  {
    TruncDiv(n * TruncDiv(budget * digits, cost), digits)
  }

  /** Cost, times digits, of m shares at the truncated average price of n shares. */
  function CostAtAverage(m: nat, n: nat, cost: nat, digits: nat): nat
    requires n > 0
  {
    m * TruncDiv(cost * digits, n)
  }

  /** Scaling n shares that cost "cost" down to a smaller budget. Both quotients are truncated. The scaled size is within
      the budget at the average price and short of the exact proportion by less than one unit plus the truncation. */
  lemma ScaledWithinBudget(n: nat, cost: nat, budget: nat, digits: Digits)
    requires n > 0 && cost > budget && digits.Valid()
    ensures var m := ScaleDown(n, cost, budget, digits.ratio);
            && m <= n
            && m * cost <= n * budget
            && n * budget * digits.ratio < (m + 1) * cost * digits.ratio + n * cost
            && CostAtAverage(m, n, cost, digits.price) <= budget * digits.price
  {
    var m := ScaleDown(n, cost, budget, digits.ratio);
    ScaleDownBounds(n, cost, budget, digits.ratio);
    ScaledIsSmaller(n, m, cost, budget);
    ReportedWithinBudget(n, m, cost, budget, digits.price);
  }

  function CeilDiv(a: nat, b: nat): nat
    requires b > 0
  {
    (a + b - 1) / b
  }

  /** The budget still pays for the exchange minimum at the truncated ratio. */
  predicate PaysMinimum(n: nat, cost: nat, budget: nat, digits: nat)
    requires n > 0
  {
    cost * CeilDiv(MIN_SHARES * digits, n) <= budget * digits
  }

  /** The scaled size is not compared with the exchange minimum again; it keeps it exactly when the budget pays for it. */
  lemma ScaledMinimumIff(n: nat, cost: nat, budget: nat, digits: nat)
    requires n > 0 && cost > 0 && digits > 0
    ensures ScaleDown(n, cost, budget, digits) >= MIN_SHARES <==> PaysMinimum(n, cost, budget, digits)
  {
    var q, c := TruncDiv(budget * digits, cost), CeilDiv(MIN_SHARES * digits, n);
    TruncDivAtLeast(n * q, digits, MIN_SHARES);
    CeilDivAtMost(MIN_SHARES * digits, n, q);
    TruncDivAtLeast(budget * digits, cost, c);
  }

  lemma CeilDivAtMost(a: nat, b: nat, q: nat)
    requires a > 0 && b > 0
    ensures CeilDiv(a, b) >= 1 && (CeilDiv(a, b) <= q <==> a <= b * q)
  {
    QuotientAtLeast(a + b - 1, b, q + 1);
    QuotientAtLeast(a + b - 1, b, 1);
    assert (q + 1) * b == b * q + b;
  }

  lemma ScaleDownBounds(n: nat, cost: nat, budget: nat, digits: nat)
    requires n > 0 && cost > 0 && digits > 0
    ensures var m := ScaleDown(n, cost, budget, digits);
            m * cost <= n * budget && n * budget * digits < (m + 1) * cost * digits + n * cost
  {
    hide TruncDiv;
    var q := TruncDiv(budget * digits, cost);
    var m := ScaleDown(n, cost, budget, digits);
    TruncDivBound(budget * digits, cost);
    TruncDivBound(n * q, digits);
    TwiceTruncatedBelow(n, q, m, cost, budget, digits);
    TwiceTruncatedAbove(n, q, m, cost, budget, digits);
  }

  lemma ScaledIsSmaller(n: nat, m: nat, cost: nat, budget: nat)
    requires cost > budget && m * cost <= n * budget
    ensures m <= n
  {
    if m > n {
      MulStrict(n, m, cost);
      MulMonotone(budget, cost, n);
    }
  }

  /** The cost reported for m shares, at the truncated average price of n shares, is within a budget m shares meet. */
  lemma ReportedWithinBudget(n: nat, m: nat, cost: nat, budget: nat, digits: nat)
    requires n > 0 && m * cost <= n * budget
    ensures CostAtAverage(m, n, cost, digits) <= budget * digits
  {
    hide TruncDiv;
    var v := TruncDiv(cost * digits, n);
    TruncDivBound(cost * digits, n);
    calc {
      m * v * n;
    == { assert m * v * n == m * (v * n); }
      v * n * m;
    <= { MulMonotone(v * n, cost * digits, m); }
      cost * digits * m;
    == { assert cost * digits * m == m * (cost * digits) == m * cost * digits; }
      m * cost * digits;
    <= { MulMonotone(m * cost, n * budget, digits); }
      n * budget * digits;
    == { assert n * budget * digits == n * (budget * digits) == budget * digits * n; }
      budget * digits * n;
    }
    Cancel(m * v, budget * digits, n);
  }

  /** ... and is those shares at that average, short by less than a kept digit per share. */
  lemma ReportedAtAverage(n: nat, m: nat, cost: nat, digits: nat)
    requires n > 0
    ensures var c := CostAtAverage(m, n, cost, digits);
            c * n <= m * cost * digits <= c * n + m * n
  {
    var v := TruncDiv(cost * digits, n);
    TruncDivBound(cost * digits, n);
    hide TruncDiv;
    MulMonotone(v * n, cost * digits, m);
    MulMonotone(cost * digits, (v + 1) * n, m);
    assert v * n * m == m * v * n && cost * digits * m == m * cost * digits && (v + 1) * n * m == m * v * n + m * n;
  }

  /** By convexity the smaller size, walked anew, is within the budget too. */
  lemma SmallerWalkWithinBudget(b: seq<Level>, n: nat, m: nat, budget: nat)
    requires WellFormed(b) && 0 < n <= Depth(b) && m <= n && m * PrefixCost(b, n) <= n * budget
    ensures PrefixCost(b, m) <= budget
  {
    hide PrefixCost, WellFormed;
    AverageNeverFalls(b, m, n);
    assert n * PrefixCost(b, m) == PrefixCost(b, m) * n && n * budget == budget * n;
    Cancel(PrefixCost(b, m), budget, n);
  }

  function BookFor(d: Direction, upAsks: seq<Level>, downAsks: seq<Level>): seq<Level> {
    if d.Up? then upAsks else downAsks
  }

  /** The size limit of the walk: what the budget buys at the lowest accepted price. Without a lowest price the quotient is
      infinite or not a number, which never limits; all that rests on the book does not either. */
  function ShareLimit(cfg: MomentumConfig, asks: seq<Level>): nat {
    if cfg.minEntryPrice == 0 then Depth(asks) else cfg.maxBet / cfg.minEntryPrice
  }

  /** Without a lowest price everything up to the highest is walked. */
  lemma NoLimit(cfg: MomentumConfig, asks: seq<Level>, maxShares: nat)
    requires cfg.minEntryPrice == 0 && maxShares >= ShareLimit(cfg, asks)
    ensures Wanted(cfg, asks) == Eligible(asks, cfg.maxEntryPrice) == Takes(asks, cfg.maxEntryPrice, maxShares)
  {
    EligibleFits(asks, |asks|, cfg.maxEntryPrice);
  }

  /** Walked size before the budget is applied. */
  function Wanted(cfg: MomentumConfig, asks: seq<Level>): nat
  {
    Takes(asks, cfg.maxEntryPrice, ShareLimit(cfg, asks))
  }

  predicate Enters(cfg: MomentumConfig, asks: seq<Level>)
  {
    |asks| > 0 && cfg.minEntryPrice <= asks[0].price <= cfg.maxEntryPrice && Wanted(cfg, asks) >= MIN_SHARES
  }

  /** What an order of the momentum strategy promises about the book it was sized on. */
  ghost predicate WithinBudget(cfg: MomentumConfig, asks: seq<Level>, digits: Digits, d: MomentumDecision)
  {
    var n := Wanted(cfg, asks);
    && |asks| > 0 && 0 < n <= Depth(asks) && d.entryPrice == UnitPrice(asks, n - 1) && asks[0].price <= d.entryPrice <= cfg.maxEntryPrice
    && d.totalCostScaled <= cfg.maxBet * digits.price
    && d.totalCostScaled * n <= d.shares * PrefixCost(asks, n) * digits.price <= d.totalCostScaled * n + d.shares * n
    && d.shares <= n && PrefixCost(asks, d.shares) <= cfg.maxBet
    && (PrefixCost(asks, n) <= cfg.maxBet ==> d.shares == n && d.totalCostScaled == Notional(PrefixCost(asks, n), digits.price))
    && (PrefixCost(asks, n) > cfg.maxBet ==>
          d.shares * PrefixCost(asks, n) <= n * cfg.maxBet &&
          n * cfg.maxBet * digits.ratio < (d.shares + 1) * PrefixCost(asks, n) * digits.ratio + n * PrefixCost(asks, n))
    && n >= MIN_SHARES
    && (d.shares >= MIN_SHARES <==>
          PrefixCost(asks, n) <= cfg.maxBet || PaysMinimum(n, PrefixCost(asks, n), cfg.maxBet, digits.ratio))
  }

  lemma UnscaledOrder(cfg: MomentumConfig, asks: seq<Level>, digits: Digits, d: MomentumDecision)
    requires WellFormed(asks) && Enters(cfg, asks) && digits.Valid()
    requires var l := Available(asks, cfg.maxEntryPrice, ShareLimit(cfg, asks)).value;
             && l.totalCost <= cfg.maxBet
             && d.entryPrice == l.worstPrice && d.shares == l.availableShares && d.totalCostScaled == Notional(l.totalCost, digits.price)
    ensures WithinBudget(cfg, asks, digits, d)
  {
    hide PrefixCost, WellFormed, UnitPrice;
    WalkPrices(asks, cfg.maxEntryPrice, ShareLimit(cfg, asks), 1);
    ReportedWhole(d.shares, PrefixCost(asks, d.shares), cfg.maxBet, digits.price);
  }

  lemma ReportedWhole(n: nat, cost: nat, budget: nat, digits: nat)
    requires cost <= budget
    ensures var c := Notional(cost, digits);
            c <= budget * digits && c * n <= n * cost * digits <= c * n + n * n
  {
    MulMonotone(cost, budget, digits);
    assert cost * digits * n == n * cost * digits;
  }

  lemma ScaledOrder(cfg: MomentumConfig, asks: seq<Level>, digits: Digits, d: MomentumDecision)
    requires WellFormed(asks) && Enters(cfg, asks) && digits.Valid()
    requires var l := Available(asks, cfg.maxEntryPrice, ShareLimit(cfg, asks)).value;
             && l.totalCost > cfg.maxBet
             && d.entryPrice == l.worstPrice
             && d.shares == ScaleDown(l.availableShares, l.totalCost, cfg.maxBet, digits.ratio)
             && d.totalCostScaled == CostAtAverage(d.shares, l.availableShares, l.totalCost, digits.price)
    ensures WithinBudget(cfg, asks, digits, d)
  {
    hide PrefixCost, WellFormed, UnitPrice, ScaleDown, CostAtAverage, PaysMinimum;
    var l := Available(asks, cfg.maxEntryPrice, ShareLimit(cfg, asks)).value;
    WalkPrices(asks, cfg.maxEntryPrice, ShareLimit(cfg, asks), 1);
    ScaledWithinBudget(l.availableShares, l.totalCost, cfg.maxBet, digits);
    SmallerWalkWithinBudget(asks, l.availableShares, d.shares, cfg.maxBet);
    ReportedAtAverage(l.availableShares, d.shares, l.totalCost, digits.price);
    ScaledMinimumIff(l.availableShares, l.totalCost, cfg.maxBet, digits.ratio);
  }

  /** The direction picks the book. The order it leads to never costs more than the bet limit, neither as reported nor
      when the reported size is walked, is scaled down no further than the limit asks, and has the exchange minimum exactly
      when the limit pays for it. */
  method EvaluateMomentum(cfg: MomentumConfig, direction: Option<Direction>, upAsks: seq<Level>, downAsks: seq<Level>,
                          digits: Digits)
    returns (r: Option<MomentumDecision>)
    requires WellFormed(upAsks) && WellFormed(downAsks) && digits.Valid()
    ensures r.Some? <==> direction.Some? && Enters(cfg, BookFor(direction.value, upAsks, downAsks))
    ensures direction.Some? ==>
              var asks := if direction.value.Up? then upAsks else downAsks;
              (r.Some? <==>
                 && |asks| > 0 && cfg.minEntryPrice <= asks[0].price <= cfg.maxEntryPrice
                 && Eligible(asks, cfg.maxEntryPrice) >= 500 && (cfg.minEntryPrice == 0 || cfg.maxBet / cfg.minEntryPrice >= 500))
    ensures r.Some? ==> r.value.direction == direction.value &&
                        WithinBudget(cfg, BookFor(direction.value, upAsks, downAsks), digits, r.value)
  {
    hide WithinBudget, WellFormed, ScaleDown, CostAtAverage, Notional, PrefixCost, UnitPrice;
    if direction.None? {
      return None;
    }
    var asks := BookFor(direction.value, upAsks, downAsks);
    EligibleFits(asks, |asks|, cfg.maxEntryPrice);
    if |asks| == 0 || asks[0].price < cfg.minEntryPrice || asks[0].price > cfg.maxEntryPrice {
      return None;
    }
    var liquidity := GetAvailableLiquidity(asks, cfg.maxEntryPrice, ShareLimit(cfg, asks));
    if liquidity.None? {
      return None;
    }
    var shares, totalCost := liquidity.value.availableShares, liquidity.value.totalCost;
    var entryPrice := liquidity.value.worstPrice;
    if totalCost <= cfg.maxBet {
      var d := MomentumDecision(direction.value, entryPrice, shares, Notional(totalCost, digits.price));
      UnscaledOrder(cfg, asks, digits, d);
      return Some(d);
    }
    var scaled := ScaleDown(shares, totalCost, cfg.maxBet, digits.ratio);
    var d := MomentumDecision(direction.value, entryPrice, scaled, CostAtAverage(scaled, shares, totalCost, digits.price));
    ScaledOrder(cfg, asks, digits, d);
    return Some(d);
  }

  /** An order below the exchange minimum: 5 shares at 99 ticks under a bet limit of 425, lowest accepted price 85. */
  lemma UndersizedExample(cfg: MomentumConfig, asks: seq<Level>, digits: Digits, d: MomentumDecision)
    requires cfg == MomentumConfig(85, 99, 42500) && asks == [Level(99, 500)] && digits.Valid()
    requires WithinBudget(cfg, asks, digits, d)
    ensures WellFormed(asks) && Enters(cfg, asks) && d.shares < MIN_SHARES
  {
    assert Before(asks, 0) == 0 && Before(asks, |asks|) == 500;
    assert EligibleUpTo(asks, 0, 99) == 0 && EligibleUpTo(asks, |asks|, 99) == 500;
    CostWithinLevel(asks, 0, 0, d.shares);
  }
}
