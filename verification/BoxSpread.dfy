/** The box-spread sweep (ArbScanner.findOptimalFill) and the edge filter of ArbScanner.scan.
    Sizes are in units of 0.01 shares, prices in ticks, money in their product. */
module BoxSpread {
  import opened Common
  import opened Rounding
  import opened Book
  import Cutoff

  datatype OptimalFill = OptimalFill(
    shares: nat, upWorstPrice: nat, downWorstPrice: nat, upTotalCost: nat, downTotalCost: nat)

  /** The two ask books with the two limits the sweep works under. */
  datatype Sweep = Sweep(up: seq<Level>, down: seq<Level>, threshold: nat, cap: int) {

    ghost predicate Valid() {
      WellFormed(up) && WellFormed(down)
    }

    /** Depth of the thinner book. */
    function Thin(): (r: nat)
      ensures r <= Depth(up) && r <= Depth(down)
      ensures r == Depth(up) || r == Depth(down)
    {
      if Depth(up) < Depth(down) then Depth(up) else Depth(down)
    }

    /** n shares of each side, bought as cheaply as possible, average strictly below the threshold. */
    predicate Profitable(n: nat)
      requires n <= Thin()
    {
      n > 0 && PrefixCost(up, n) + PrefixCost(down, n) < threshold * n
    }

    /** Neither side of n shares costs more than the cap. */
    predicate Affordable(n: nat)
      requires n <= Thin()
    {
      PrefixCost(up, n) <= cap && PrefixCost(down, n) <= cap
    }

    function ProfitableUpTo(n: nat): (p: nat)
      requires n <= Thin()
      ensures p <= n && (p > 0 ==> Profitable(p)) && forall x: nat :: p < x <= n ==> !Profitable(x)
    {
      if n == 0 || Profitable(n) then n else ProfitableUpTo(n - 1)
    }

    function AffordableUpTo(n: nat): (k: nat)
      requires n <= Thin()
      ensures k <= n && (k > 0 ==> Affordable(k)) && forall x: nat :: k < x <= n ==> !Affordable(x)
    {
      if n == 0 || Affordable(n) then n else AffordableUpTo(n - 1)
    }

    /** P: the greatest profitable size within the thinner book, 0 if there is none. */
    function MaxProfitable(): (p: nat)
      ensures p <= Thin() && (p > 0 ==> Profitable(p)) && forall x: nat :: p < x <= Thin() ==> !Profitable(x)
    {
      ProfitableUpTo(Thin())
    }

    /** K: the greatest size under the cap within the thinner book, 0 if there is none. */
    function MaxAffordable(): (k: nat)
      ensures k <= Thin() && (k > 0 ==> Affordable(k)) && forall x: nat :: k < x <= Thin() ==> !Affordable(x)
    {
      AffordableUpTo(Thin())
    }

    /** A step of the sweep ends where a level of either book ends. */
    ghost predicate Boundary(n: nat) {
      || (exists i: nat :: i <= |up| && Before(up, i) == n)
      || (exists i: nat :: i <= |down| && Before(down, i) == n)
    }

    /** p and k lie inside the same step: no level ends after p and up to k. */
    ghost predicate SameStep(p: nat, k: nat) {
      forall n: nat :: p < n <= k ==> !Boundary(n)
    }

    /** The size the sweep arrives at. */
    ghost function Arrived(): nat {
      var p, k := MaxProfitable(), MaxAffordable();
      if p == 0 || (p < k && !SameStep(p, k)) then p else k
    }

    /** The fill is exact: the size the sweep arrives at, the cheapest costs of that size, neither above the cap, and as
        worst prices those of the last level touched on either side. */
    ghost predicate Fills(f: OptimalFill) {
      && 0 < f.shares == Arrived() <= Thin()
      && f.upTotalCost == PrefixCost(up, f.shares) <= cap
      && f.downTotalCost == PrefixCost(down, f.shares) <= cap
      && f.upWorstPrice == UnitPrice(up, f.shares - 1)
      && f.downWorstPrice == UnitPrice(down, f.shares - 1)
    }
  }

  // The feasible sizes are downward closed

  lemma ProfitableDownward(s: Sweep, m: nat, n: nat)
    requires s.Valid() && 0 < m <= n <= s.Thin() && s.Profitable(n)
    ensures s.Profitable(m)
  {
    AverageNeverFalls(s.up, m, n);
    AverageNeverFalls(s.down, m, n);
    SmallerAverage(m, n, PrefixCost(s.up, m), PrefixCost(s.down, m), PrefixCost(s.up, n), PrefixCost(s.down, n), s.threshold);
  }

  lemma SmallerAverage(m: nat, n: nat, upM: nat, downM: nat, upN: nat, downN: nat, threshold: nat)
    requires 0 < m && 0 < n && n * upM <= m * upN && n * downM <= m * downN && upN + downN < threshold * n
    ensures upM + downM < threshold * m
  {
    var costM, costN := upM + downM, upN + downN;
    assert n * costM <= m * costN by {
      assert n * costM == n * upM + n * downM && m * costN == m * upN + m * downN;
    }
    MulStrict(costN, threshold * n, m);
    MulSwap(threshold, n, m);
    if costM >= threshold * m {
      MulMonotone(threshold * m, costM, n);
    }
  }

  lemma AffordableDownward(s: Sweep, m: nat, n: nat)
    requires s.Valid() && m <= n <= s.Thin() && s.Affordable(n)
    ensures s.Affordable(m)
  {
    CostGrows(s.up, m, n);
    CostGrows(s.down, m, n);
  }

  /** A size is profitable exactly when some way of buying it on both books costs less than the threshold per share. */
  lemma ProfitableIffSomeAllocation(s: Sweep, n: nat)
    requires s.Valid() && 0 < n <= s.Thin()
    ensures s.Profitable(n) <==>
            exists a: seq<nat>, b: seq<nat> ::
              Allocates(s.up, a, n) && Allocates(s.down, b, n) &&
              AllocationCost(s.up, a, |a|) + AllocationCost(s.down, b, |b|) < s.threshold * n
  {
    WalkAttainsPrefixCost(s.up, n);
    WalkAttainsPrefixCost(s.down, n);
    forall a: seq<nat>, b: seq<nat> | Allocates(s.up, a, n) && Allocates(s.down, b, n)
      ensures PrefixCost(s.up, n) + PrefixCost(s.down, n) <= AllocationCost(s.up, a, |a|) + AllocationCost(s.down, b, |b|)
    {
      WalkIsCheapest(s.up, a, n);
      WalkIsCheapest(s.down, b, n);
    }
  }

  // The state of the sweep at the head of its loop

  /** (idx, consumed) is where the walk of n shares stands in b. */
  ghost predicate Located(b: seq<Level>, idx: nat, consumed: nat, n: nat) {
    && idx <= |b|
    && Before(b, idx) + consumed == n
    && (if idx < |b| then consumed < b[idx].size else consumed == 0)
  }

  /** The highest ask the walk of n shares touched; the best ask before anything is bought. */
  function WorstPrice(b: seq<Level>, n: nat): nat
    requires |b| > 0 && n <= Depth(b)
  {
    if n == 0 then b[0].price else UnitPrice(b, n - 1)
  }

  lemma LocatedFits(b: seq<Level>, idx: nat, consumed: nat, n: nat)
    requires Located(b, idx, consumed, n)
    ensures n <= Depth(b) && (idx < |b| ==> n < Before(b, idx + 1) <= Depth(b))
  {
    BeforeMonotone(b, idx, |b|);
    if idx < |b| {
      BeforeMonotone(b, idx + 1, |b|);
    }
  }

  /** Buying x more shares inside the current level. */
  lemma StepCost(b: seq<Level>, idx: nat, consumed: nat, n: nat, x: nat)
    requires Located(b, idx, consumed, n) && idx < |b| && x <= b[idx].size - consumed
    ensures n + x <= Depth(b)
    ensures PrefixCost(b, n + x) == PrefixCost(b, n) + Notional(x, b[idx].price)
    ensures x > 0 ==> WorstPrice(b, n + x) == b[idx].price
  {
    LocatedFits(b, idx, consumed, n);
    CostWithinLevel(b, idx, n, n + x);
    if x > 0 {
      LevelUnique(b, n + x - 1, idx);
    }
  }

  /** No level of b ends strictly inside the step. */
  lemma NoEndInside(b: seq<Level>, idx: nat, consumed: nat, n: nat, e: nat)
    requires Located(b, idx, consumed, n) && idx < |b| && n < e <= Before(b, idx + 1)
    ensures forall i: nat :: i <= |b| ==> !(n < Before(b, i) < e)
  {
    forall i: nat | i <= |b|
      ensures !(n < Before(b, i) < e)
    {
      if i <= idx {
        BeforeMonotone(b, i, idx);
      } else {
        BeforeMonotone(b, idx + 1, i);
      }
    }
  }

  /** The loop head: where both walks stand, and that the position so far is under both limits. */
  ghost predicate AtHead(s: Sweep, upIdx: nat, upConsumed: nat, downIdx: nat, downConsumed: nat, n: nat) {
    && s.Valid()
    && Located(s.up, upIdx, upConsumed, n) && Located(s.down, downIdx, downConsumed, n)
    && n <= s.Thin()
    && (n > 0 ==> s.Profitable(n) && s.Affordable(n))
  }

  /** The shares the next step can contribute: what is left of the thinner current level. */
  ghost function StepSize(s: Sweep, upIdx: nat, upConsumed: nat, downIdx: nat, downConsumed: nat): nat
    requires upIdx < |s.up| && downIdx < |s.down|
    requires upConsumed < s.up[upIdx].size && downConsumed < s.down[downIdx].size
  {
    Min(s.up[upIdx].size - upConsumed, s.down[downIdx].size - downConsumed)
  }

  /** A step ends where a level ends, and no level ends inside it. */
  lemma StepSpansNoBoundary(s: Sweep, upIdx: nat, upConsumed: nat, downIdx: nat, downConsumed: nat, n: nat)
    requires AtHead(s, upIdx, upConsumed, downIdx, downConsumed, n) && upIdx < |s.up| && downIdx < |s.down|
    ensures var e := n + StepSize(s, upIdx, upConsumed, downIdx, downConsumed);
            n < e <= s.Thin() && s.Boundary(e) && forall x: nat :: n < x < e ==> !s.Boundary(x)
  {
    var e := n + StepSize(s, upIdx, upConsumed, downIdx, downConsumed);
    LocatedFits(s.up, upIdx, upConsumed, n);
    LocatedFits(s.down, downIdx, downConsumed, n);
    NoEndInside(s.up, upIdx, upConsumed, n, e);
    NoEndInside(s.down, downIdx, downConsumed, n, e);
    assert Before(s.up, upIdx + 1) == e || Before(s.down, downIdx + 1) == e;
  }

  ghost predicate AffordsMore(s: Sweep, n: nat, x: nat) {
    n + x <= s.Thin() && s.Affordable(n + x)
  }

  ghost predicate ProfitsMore(s: Sweep, n: nat, x: nat) {
    n + x <= s.Thin() && s.Profitable(n + x)
  }

  /** Inside a step the cap allows exactly the truncated quotients of the room left on either side. */
  lemma CapRoom(s: Sweep, upIdx: nat, upConsumed: nat, downIdx: nat, downConsumed: nat, n: nat, byUp: int, byDown: int)
    requires AtHead(s, upIdx, upConsumed, downIdx, downConsumed, n) && upIdx < |s.up| && downIdx < |s.down|
    requires byUp == TruncDiv(s.cap - PrefixCost(s.up, n), s.up[upIdx].price)
    requires byDown == TruncDiv(s.cap - PrefixCost(s.down, n), s.down[downIdx].price)
    ensures forall x: nat :: 1 <= x <= StepSize(s, upIdx, upConsumed, downIdx, downConsumed) ==>
                               (AffordsMore(s, n, x) <==> x <= byUp && x <= byDown)
  {
    forall x: nat | 1 <= x <= StepSize(s, upIdx, upConsumed, downIdx, downConsumed)
      ensures AffordsMore(s, n, x) <==> x <= byUp && x <= byDown
    {
      StepCost(s.up, upIdx, upConsumed, n, x);
      StepCost(s.down, downIdx, downConsumed, n, x);
      TruncDivAtLeast(s.cap - PrefixCost(s.up, n), s.up[upIdx].price, x);
      TruncDivAtLeast(s.cap - PrefixCost(s.down, n), s.down[downIdx].price, x);
    }
  }

  /** Inside a step the binary search tests the average of the whole position. */
  lemma SearchTestsPosition(s: Sweep, upIdx: nat, upConsumed: nat, downIdx: nat, downConsumed: nat, n: nat, x: nat)
    requires AtHead(s, upIdx, upConsumed, downIdx, downConsumed, n) && upIdx < |s.up| && downIdx < |s.down|
    requires 1 <= x <= StepSize(s, upIdx, upConsumed, downIdx, downConsumed)
    ensures ProfitsMore(s, n, x) <==> SearchInside(s, upIdx, upConsumed, downIdx, downConsumed, n).Keeps(x)
  {
    hide PrefixCost, UnitPrice, WorstPrice, Before, WellFormed;
    StepCost(s.up, upIdx, upConsumed, n, x);
    StepCost(s.down, downIdx, downConsumed, n, x);
    assert x * (s.up[upIdx].price + s.down[downIdx].price) == x * s.up[upIdx].price + x * s.down[downIdx].price;
  }

  /** The cutoff of the search is the last size of the step that is profitable. */
  lemma CutoffIsLastProfitable(s: Sweep, upIdx: nat, upConsumed: nat, downIdx: nat, downConsumed: nat, n: nat, cutoff: nat)
    requires AtHead(s, upIdx, upConsumed, downIdx, downConsumed, n) && upIdx < |s.up| && downIdx < |s.down|
    requires SearchInside(s, upIdx, upConsumed, downIdx, downConsumed, n).IsCutoff(cutoff)
    requires cutoff < StepSize(s, upIdx, upConsumed, downIdx, downConsumed)
    ensures (cutoff > 0 ==> ProfitsMore(s, n, cutoff)) && !ProfitsMore(s, n, cutoff + 1)
  {
    SearchTestsPosition(s, upIdx, upConsumed, downIdx, downConsumed, n, cutoff + 1);
    if cutoff > 0 {
      SearchTestsPosition(s, upIdx, upConsumed, downIdx, downConsumed, n, cutoff);
    }
  }

  ghost function SearchInside(s: Sweep, upIdx: nat, upConsumed: nat, downIdx: nat, downConsumed: nat, n: nat): (r: Cutoff.Search)
    requires AtHead(s, upIdx, upConsumed, downIdx, downConsumed, n) && upIdx < |s.up| && downIdx < |s.down|
    ensures r.grid == 1
  {
    Cutoff.Search(n, PrefixCost(s.up, n) + PrefixCost(s.down, n), s.up[upIdx].price + s.down[downIdx].price,
                  StepSize(s, upIdx, upConsumed, downIdx, downConsumed), s.threshold, 1)
  }

  lemma LastAffordable(s: Sweep, k: nat)
    requires s.Valid() && k < s.Thin() && (k > 0 ==> s.Affordable(k)) && !s.Affordable(k + 1)
    ensures s.MaxAffordable() == k
  {
    forall x: nat | k < x <= s.Thin()
      ensures !s.Affordable(x)
    {
      if s.Affordable(x) {
        AffordableDownward(s, k + 1, x);
      }
    }
  }

  lemma LastProfitable(s: Sweep, p: nat)
    requires s.Valid() && p < s.Thin() && (p > 0 ==> s.Profitable(p)) && !s.Profitable(p + 1)
    ensures s.MaxProfitable() == p
  {
    forall x: nat | p < x <= s.Thin()
      ensures !s.Profitable(x)
    {
      if s.Profitable(x) {
        ProfitableDownward(s, p + 1, x);
      }
    }
  }

  /** Once a step n..e holds the last affordable size k, the sweep arrives at k, whatever P is. */
  lemma ArrivesAtLastAffordable(s: Sweep, n: nat, e: nat, k: nat)
    requires s.Valid() && s.MaxProfitable() > 0 && n <= k < e <= s.Thin()
    requires n > 0 ==> s.Profitable(n)
    requires k > 0 ==> s.Affordable(k)
    requires !s.Affordable(k + 1)
    requires forall x: nat :: n < x < e ==> !s.Boundary(x)
    ensures s.Arrived() == s.MaxAffordable() == k
  {
    LastAffordable(s, k);
    assert n <= s.MaxProfitable();
  }

  /** The cap fires in a step of the given size: the truncated quotients leave exactly the last affordable size. */
  lemma ArrivesAtCap(s: Sweep, n: nat, size: nat, byUp: int, byDown: int, step: int)
    requires s.Valid() && s.MaxProfitable() > 0 && 1 <= size && n + size <= s.Thin()
    requires n > 0 ==> s.Profitable(n) && s.Affordable(n)
    requires forall x: nat :: n < x < n + size ==> !s.Boundary(x)
    requires forall x: nat :: 1 <= x <= size ==> (AffordsMore(s, n, x) <==> x <= byUp && x <= byDown)
    requires !AffordsMore(s, n, size)
    requires step == Min(size, Min(byUp, byDown))
    ensures s.Arrived() == s.MaxAffordable() == (if step <= 0 then n else n + step)
  {
    hide Sweep.Boundary, Sweep.Profitable, PrefixCost;
    var taken: nat := if step <= 0 then 0 else step;
    assert !AffordsMore(s, n, taken + 1);
    if taken > 0 {
      assert AffordsMore(s, n, taken);
    }
    ArrivesAtLastAffordable(s, n, n + size, n + taken);
  }

  /** Once a step the cap allows holds the last profitable size p, the sweep arrives at p. */
  lemma ArrivesAtLastProfitable(s: Sweep, e: nat, p: nat)
    requires s.Valid() && p < e <= s.Thin()
    requires p > 0 ==> s.Profitable(p)
    requires !s.Profitable(p + 1)
    requires s.Affordable(e) && s.Boundary(e)
    ensures s.Arrived() == s.MaxProfitable() == p && s.Affordable(p)
  {
    LastProfitable(s, p);
    assert s.MaxAffordable() >= e;
    AffordableDownward(s, p, e);
  }

  /** Both books up to the thinner depth are under both limits. */
  lemma ArrivesAtDepth(s: Sweep, n: nat)
    requires s.Valid() && n == s.Thin() && (n > 0 ==> s.Profitable(n) && s.Affordable(n))
    ensures s.Arrived() == n
  {
  }

  /** What taking x shares of the current step does to both running costs and both worst prices. */
  lemma StepEffect(s: Sweep, upIdx: nat, upConsumed: nat, downIdx: nat, downConsumed: nat, n: nat, x: nat)
    requires AtHead(s, upIdx, upConsumed, downIdx, downConsumed, n) && upIdx < |s.up| && downIdx < |s.down|
    requires x <= StepSize(s, upIdx, upConsumed, downIdx, downConsumed)
    ensures n + x <= s.Thin()
    ensures PrefixCost(s.up, n + x) == PrefixCost(s.up, n) + Notional(x, s.up[upIdx].price)
    ensures PrefixCost(s.down, n + x) == PrefixCost(s.down, n) + Notional(x, s.down[downIdx].price)
    ensures x > 0 ==> WorstPrice(s.up, n + x) == s.up[upIdx].price && WorstPrice(s.down, n + x) == s.down[downIdx].price
  {
    StepCost(s.up, upIdx, upConsumed, n, x);
    StepCost(s.down, downIdx, downConsumed, n, x);
  }

  /** The cap fires in a step: what its truncated quotients leave ends the sweep at K. */
  lemma CapEndsSweep(s: Sweep, upIdx: nat, upConsumed: nat, downIdx: nat, downConsumed: nat, n: nat, byUp: int, byDown: int)
    requires AtHead(s, upIdx, upConsumed, downIdx, downConsumed, n) && upIdx < |s.up| && downIdx < |s.down|
    requires s.MaxProfitable() > 0
    requires !AffordsMore(s, n, StepSize(s, upIdx, upConsumed, downIdx, downConsumed))
    requires byUp == TruncDiv(s.cap - PrefixCost(s.up, n), s.up[upIdx].price)
    requires byDown == TruncDiv(s.cap - PrefixCost(s.down, n), s.down[downIdx].price)
    ensures var step := Min(StepSize(s, upIdx, upConsumed, downIdx, downConsumed), Min(byUp, byDown));
            s.Arrived() == s.MaxAffordable() == (if step <= 0 then n else n + step)
  {
    hide Sweep.Boundary, Sweep.Arrived, Sweep.MaxProfitable, Sweep.MaxAffordable, Sweep.Profitable, Sweep.Affordable;
    hide AffordsMore, PrefixCost, TruncDiv;
    var size := StepSize(s, upIdx, upConsumed, downIdx, downConsumed);
    StepSpansNoBoundary(s, upIdx, upConsumed, downIdx, downConsumed, n);
    CapRoom(s, upIdx, upConsumed, downIdx, downConsumed, n, byUp, byDown);
    ArrivesAtCap(s, n, size, byUp, byDown, Min(size, Min(byUp, byDown)));
  }

  /** The threshold is crossed in a step the cap allows: the cutoff of the search ends the sweep at P. */
  lemma CutoffEndsSweep(s: Sweep, upIdx: nat, upConsumed: nat, downIdx: nat, downConsumed: nat, n: nat, cutoff: nat)
    requires AtHead(s, upIdx, upConsumed, downIdx, downConsumed, n) && upIdx < |s.up| && downIdx < |s.down|
    requires SearchInside(s, upIdx, upConsumed, downIdx, downConsumed, n).IsCutoff(cutoff)
    requires cutoff < StepSize(s, upIdx, upConsumed, downIdx, downConsumed)
    requires AffordsMore(s, n, StepSize(s, upIdx, upConsumed, downIdx, downConsumed))
    ensures s.Arrived() == s.MaxProfitable() == n + cutoff
  {
    hide Cutoff.Search.IsCutoff, PrefixCost, Sweep.Boundary;
    StepSpansNoBoundary(s, upIdx, upConsumed, downIdx, downConsumed, n);
    CutoffIsLastProfitable(s, upIdx, upConsumed, downIdx, downConsumed, n, cutoff);
    ArrivesAtLastProfitable(s, n + StepSize(s, upIdx, upConsumed, downIdx, downConsumed), n + cutoff);
  }

  /** A whole step under both limits leads to the next loop head, on which at least one cursor has advanced. */
  lemma StepAdvances(s: Sweep, upIdx: nat, upConsumed: nat, downIdx: nat, downConsumed: nat, n: nat)
    requires AtHead(s, upIdx, upConsumed, downIdx, downConsumed, n) && upIdx < |s.up| && downIdx < |s.down|
    requires var e := n + StepSize(s, upIdx, upConsumed, downIdx, downConsumed);
             e <= s.Thin() && s.Profitable(e) && s.Affordable(e)
    ensures var x := StepSize(s, upIdx, upConsumed, downIdx, downConsumed);
            var upDone, downDone := upConsumed + x >= s.up[upIdx].size, downConsumed + x >= s.down[downIdx].size;
            && (upDone || downDone)
            && AtHead(s, if upDone then upIdx + 1 else upIdx, if upDone then 0 else upConsumed + x,
                      if downDone then downIdx + 1 else downIdx, if downDone then 0 else downConsumed + x, n + x)
  {
  }

  /** The call of the binary search meets what the search expects. */
  lemma SearchIsValid(s: Sweep, upIdx: nat, upConsumed: nat, downIdx: nat, downConsumed: nat, n: nat)
    requires AtHead(s, upIdx, upConsumed, downIdx, downConsumed, n) && upIdx < |s.up| && downIdx < |s.down|
    requires var e := n + StepSize(s, upIdx, upConsumed, downIdx, downConsumed); e <= s.Thin() && !s.Profitable(e)
    ensures var search := SearchInside(s, upIdx, upConsumed, downIdx, downConsumed, n);
            && search.Valid() && !search.Stalls()
            && search == Cutoff.Search(n, PrefixCost(s.up, n) + PrefixCost(s.down, n), s.up[upIdx].price + s.down[downIdx].price,
                                       StepSize(s, upIdx, upConsumed, downIdx, downConsumed), s.threshold, 1)
  {
    hide UnitPrice, Before, WellFormed;
    SearchTestsPosition(s, upIdx, upConsumed, downIdx, downConsumed, n, StepSize(s, upIdx, upConsumed, downIdx, downConsumed));
  }

  /** The tests the loop makes on its running costs are the two limits at the end of the step. */
  lemma LimitsAt(s: Sweep, n: nat, x: nat)
    requires n + x <= s.Thin()
    ensures AffordsMore(s, n, x) <==> s.Affordable(n + x)
    ensures s.Affordable(n + x) <==> Max(PrefixCost(s.up, n + x), PrefixCost(s.down, n + x)) <= s.cap
    ensures s.Profitable(n + x) <==>
            n + x > 0 && PrefixCost(s.up, n + x) + PrefixCost(s.down, n + x) < Notional(n + x, s.threshold)
  {
  }

  lemma HeadStart(s: Sweep)
    requires s.Valid() && |s.up| > 0 && |s.down| > 0
    ensures AtHead(s, 0, 0, 0, 0, 0)
    ensures PrefixCost(s.up, 0) == 0 == PrefixCost(s.down, 0)
    ensures WorstPrice(s.up, 0) == s.up[0].price && WorstPrice(s.down, 0) == s.down[0].price
  {
  }

  lemma HeadBounds(s: Sweep, upIdx: nat, upConsumed: nat, downIdx: nat, downConsumed: nat, n: nat)
    requires AtHead(s, upIdx, upConsumed, downIdx, downConsumed, n)
    ensures upIdx <= |s.up| && downIdx <= |s.down|
    ensures upIdx < |s.up| ==> upConsumed < s.up[upIdx].size && s.up[upIdx].price > 0
    ensures downIdx < |s.down| ==> downConsumed < s.down[downIdx].size && s.down[downIdx].price > 0
    ensures upIdx < |s.up| && downIdx < |s.down| ==>
              StepSize(s, upIdx, upConsumed, downIdx, downConsumed) ==
              Min(s.up[upIdx].size - upConsumed, s.down[downIdx].size - downConsumed)
    ensures n <= s.Thin() && (upIdx == |s.up| || downIdx == |s.down| ==> s.Arrived() == n)
  {
    if upIdx == |s.up| || downIdx == |s.down| {
      ArrivesAtDepth(s, n);
    }
  }

  /** Walks both ask sides at once. The result is exact: the size is what Arrived says, the costs are the cheapest ones
      for that size, the worst prices are those of the last levels touched, and neither side exceeds the cap. */
  method FindOptimalFill(upAsks: seq<Level>, downAsks: seq<Level>, maxLevels: nat, threshold: nat, cap: int)
    returns (r: Option<OptimalFill>, ghost rounds: nat)
    requires WellFormed(upAsks) && WellFormed(downAsks)
    ensures var s := Sliced(upAsks, downAsks, maxLevels, threshold, cap);
            (r.None? <==> s.Arrived() < MIN_SHARES) && (r.Some? ==> s.Fills(r.value))
    ensures rounds <= Min(maxLevels, |upAsks|) + Min(maxLevels, |downAsks|)
  {
    hide *;
    var up, down := upAsks[..Min(maxLevels, |upAsks|)], downAsks[..Min(maxLevels, |downAsks|)];
    ghost var s := Sliced(upAsks, downAsks, maxLevels, threshold, cap);
    rounds := 0;
    if |up| == 0 || |down| == 0 {
      NothingProfitable(s);
      return None, 0;
    }
    if up[0].price + down[0].price >= threshold {
      NothingProfitable(s);
      return None, 0;
    }
    SomethingProfitable(s);
    HeadStart(s);
    var total: nat, upCost: nat, downCost: nat := 0, 0, 0;
    var upWorst, downWorst := up[0].price, down[0].price;
    var upIdx: nat, downIdx: nat, upConsumed: nat, downConsumed: nat := 0, 0, 0, 0;
    ghost var done := false;
    while upIdx < |up| && downIdx < |down|
      invariant !done && AtHead(s, upIdx, upConsumed, downIdx, downConsumed, total)
      invariant upIdx <= |up| && downIdx <= |down| && total <= s.Thin()
      invariant upCost == PrefixCost(up, total) && downCost == PrefixCost(down, total)
      invariant upWorst == WorstPrice(up, total) && downWorst == WorstPrice(down, total)
      invariant total > 0 ==> s.Affordable(total)
      invariant rounds <= upIdx + downIdx
      decreases |up| - upIdx + |down| - downIdx
    {
      HeadBounds(s, upIdx, upConsumed, downIdx, downConsumed, total);
      var upPrice, downPrice := up[upIdx].price, down[downIdx].price;
      var step := Min(up[upIdx].size - upConsumed, down[downIdx].size - downConsumed);
      StepSpansNoBoundary(s, upIdx, upConsumed, downIdx, downConsumed, total);
      StepEffect(s, upIdx, upConsumed, downIdx, downConsumed, total, step);
      LimitsAt(s, total, step);
      rounds := rounds + 1;

      var newUp, newDown := upCost + Notional(step, upPrice), downCost + Notional(step, downPrice);
      if Max(newUp, newDown) > cap {
        var byUp, byDown := TruncDiv(cap - upCost, upPrice), TruncDiv(cap - downCost, downPrice);
        step := Min(step, Min(byUp, byDown));
        CapEndsSweep(s, upIdx, upConsumed, downIdx, downConsumed, total, byUp, byDown);
        done := true;
        if step <= 0 {
          break;
        }
        StepEffect(s, upIdx, upConsumed, downIdx, downConsumed, total, step);
        total, upCost, downCost := total + step, upCost + Notional(step, upPrice), downCost + Notional(step, downPrice);
        upWorst, downWorst := upPrice, downPrice;
        break;
      }

      if newUp + newDown >= Notional(total + step, threshold) {
        SearchIsValid(s, upIdx, upConsumed, downIdx, downConsumed, total);
        var cutoff := Cutoff.BinarySearchCutoff(
          Cutoff.Search(total, upCost + downCost, upPrice + downPrice, step, threshold, 1));
        CutoffEndsSweep(s, upIdx, upConsumed, downIdx, downConsumed, total, cutoff);
        StepEffect(s, upIdx, upConsumed, downIdx, downConsumed, total, cutoff);
        done := true;
        if cutoff > 0 {
          total, upCost, downCost := total + cutoff, upCost + Notional(cutoff, upPrice), downCost + Notional(cutoff, downPrice);
          upWorst, downWorst := upPrice, downPrice;
        }
        break;
      }

      StepAdvances(s, upIdx, upConsumed, downIdx, downConsumed, total);
      total, upCost, downCost := total + step, newUp, newDown;
      upWorst, downWorst := upPrice, downPrice;
      upConsumed, downConsumed := upConsumed + step, downConsumed + step;
      if upConsumed >= up[upIdx].size {
        upIdx, upConsumed := upIdx + 1, 0;
      }
      if downConsumed >= down[downIdx].size {
        downIdx, downConsumed := downIdx + 1, 0;
      }
    }
    if !done {
      HeadBounds(s, upIdx, upConsumed, downIdx, downConsumed, total);
    }
    assert total == s.Arrived();
    if total < MIN_SHARES {
      return None, rounds;
    }
    FillIsExact(s, total);
    return Some(OptimalFill(total, upWorst, downWorst, upCost, downCost)), rounds;
  }

  /** The size the sweep arrives at never costs more than the cap on either side. */
  lemma SizeWithinCap(s: Sweep)
    requires s.Valid() && s.Arrived() > 0
    ensures s.Arrived() <= s.Thin() && s.Affordable(s.Arrived())
    ensures PrefixCost(s.up, s.Arrived()) <= s.cap && PrefixCost(s.down, s.Arrived()) <= s.cap
    ensures WorstPrice(s.up, s.Arrived()) == UnitPrice(s.up, s.Arrived() - 1)
    ensures WorstPrice(s.down, s.Arrived()) == UnitPrice(s.down, s.Arrived() - 1)
  {
    AffordableDownward(s, s.Arrived(), s.MaxAffordable());
  }

  lemma FillIsExact(s: Sweep, n: nat)
    requires s.Valid() && n == s.Arrived() >= MIN_SHARES && n <= s.Thin()
    ensures |s.up| > 0 && |s.down| > 0
    ensures s.Fills(OptimalFill(n, WorstPrice(s.up, n), WorstPrice(s.down, n), PrefixCost(s.up, n), PrefixCost(s.down, n)))
  {
    SizeWithinCap(s);
  }

  ghost function Sliced(upAsks: seq<Level>, downAsks: seq<Level>, maxLevels: nat, threshold: nat, cap: int): (s: Sweep)
    requires WellFormed(upAsks) && WellFormed(downAsks)
    ensures s.Valid() && s.threshold == threshold && s.cap == cap
    ensures s.up == upAsks[..Min(maxLevels, |upAsks|)] && s.down == downAsks[..Min(maxLevels, |downAsks|)]
  {
    Sweep(upAsks[..Min(maxLevels, |upAsks|)], downAsks[..Min(maxLevels, |downAsks|)], threshold, cap)
  }

  /** When even the best two asks reach the threshold, no size is profitable and the sweep may stop before it starts. */
  lemma NothingProfitable(s: Sweep)
    requires s.Valid()
    requires |s.up| == 0 || |s.down| == 0 || s.up[0].price + s.down[0].price >= s.threshold
    ensures s.MaxProfitable() == 0 == s.Arrived() < MIN_SHARES
  {
    if s.Thin() > 0 {
      LevelUnique(s.up, 0, 0);
      LevelUnique(s.down, 0, 0);
      assert !s.Profitable(1) by {
        assert PrefixCost(s.up, 1) == s.up[0].price && PrefixCost(s.down, 1) == s.down[0].price;
      }
      if s.MaxProfitable() > 0 {
        ProfitableDownward(s, 1, s.MaxProfitable());
      }
    }
  }

  lemma SomethingProfitable(s: Sweep)
    requires s.Valid() && |s.up| > 0 && |s.down| > 0 && s.up[0].price + s.down[0].price < s.threshold
    ensures s.MaxProfitable() > 0
  {
    BeforeMonotone(s.up, 1, |s.up|);
    BeforeMonotone(s.down, 1, |s.down|);
    LevelUnique(s.up, 0, 0);
    LevelUnique(s.down, 0, 0);
    assert s.Thin() >= 1 && s.Profitable(1);
  }

  // What the sweep promises, and when

  /** The sizes under both limits are exactly those up to the smaller of P and K. */
  lemma UnderBothLimits(s: Sweep, n: nat)
    requires s.Valid() && 0 < n <= s.Thin()
    ensures s.Profitable(n) && s.Affordable(n) <==> n <= s.MaxProfitable() && n <= s.MaxAffordable()
  {
    if n <= s.MaxProfitable() && n <= s.MaxAffordable() {
      ProfitableDownward(s, n, s.MaxProfitable());
      AffordableDownward(s, n, s.MaxAffordable());
    }
  }

  /** Cap interplay: the sweep arrives at the greatest size under both limits (none if there is none) if and only if it is
      not the case that P < K with no level ending after P and up to K. There the cap fires first, its branch does not
      test the average, and the sweep arrives at K instead. */
  lemma GreatestUnderBothLimitsIff(s: Sweep)
    requires s.Valid()
    ensures (s.Arrived() > 0 ==> s.Profitable(s.Arrived()) && s.Affordable(s.Arrived())) &&
            (forall n: nat :: s.Arrived() < n <= s.Thin() ==> !(s.Profitable(n) && s.Affordable(n)))
            <==> !(0 < s.MaxProfitable() < s.MaxAffordable() && s.SameStep(s.MaxProfitable(), s.MaxAffordable()))
  {
    var p, k := s.MaxProfitable(), s.MaxAffordable();
    var best := if p < k then p else k;
    if best > 0 {
      UnderBothLimits(s, best);
    }
    forall n: nat | best < n <= s.Thin()
      ensures !(s.Profitable(n) && s.Affordable(n))
    {
      UnderBothLimits(s, n);
    }
    if 0 < p < k && s.SameStep(p, k) {
      assert s.Arrived() == k && !s.Profitable(k);
    }
  }

  /** The average of what the sweep returns is below the threshold under exactly the same condition. */
  lemma BelowThresholdIff(s: Sweep)
    requires s.Valid() && s.Arrived() > 0
    ensures s.Profitable(s.Arrived())
            <==> !(s.MaxProfitable() < s.MaxAffordable() && s.SameStep(s.MaxProfitable(), s.MaxAffordable()))
  {
    UnderBothLimits(s, s.Arrived());
    SizeWithinCap(s);
  }

  /** The cap leaves the step that holds P alone: it allows the end of that step, the next level end after P, or P itself
      where P uses up the thinner book. */
  ghost predicate CapAllowsStep(s: Sweep) {
    var p := s.MaxProfitable();
    p == 0 || (p == s.Thin() && s.Affordable(p)) || exists e: nat :: p < e <= s.Thin() && s.Boundary(e) && s.Affordable(e)
  }

  /** Maximality when the cap does not bind in the step that holds P: the greatest size, within the thinner of the sliced
      books, whose cheapest combined cost is strictly below the threshold per share. */
  lemma MaximalWithoutCap(s: Sweep)
    requires s.Valid() && CapAllowsStep(s)
    ensures s.Arrived() == s.MaxProfitable()
    ensures forall n: nat :: 0 < n <= s.Thin() ==> (s.Profitable(n) <==> n <= s.Arrived())
  {
    hide Sweep.Boundary, Sweep.Profitable, Sweep.Affordable;
    ProfitableUpToMax(s);
    if s.MaxProfitable() > 0 && s.MaxProfitable() < s.Thin() {
      var e: nat :| s.MaxProfitable() < e <= s.Thin() && s.Boundary(e) && s.Affordable(e);
    }
  }

  /** The sweep arrives at the maximum whatever the cap if and only if the cap allows that step, or K happens to be P. */
  lemma MaximalIff(s: Sweep)
    requires s.Valid()
    ensures (forall n: nat :: 0 < n <= s.Thin() ==> (s.Profitable(n) <==> n <= s.Arrived()))
            <==> CapAllowsStep(s) || s.MaxProfitable() == s.MaxAffordable()
  {
    hide Sweep.Boundary, Sweep.Profitable, Sweep.Affordable;
    var p, k := s.MaxProfitable(), s.MaxAffordable();
    ProfitableUpToMax(s);
    if p != s.Arrived() {
      // the greater of the two tells them apart
      var n := if p < s.Arrived() then s.Arrived() else p;
      assert !(s.Profitable(n) <==> n <= s.Arrived());
    }
    if 0 < p < k && !s.SameStep(p, k) {
      var e: nat :| p < e <= k && s.Boundary(e);
      AffordableDownward(s, e, k);
    }
    if CapAllowsStep(s) {
      MaximalWithoutCap(s);
    }
  }

  lemma ProfitableUpToMax(s: Sweep)
    requires s.Valid()
    ensures forall n: nat :: 0 < n <= s.Thin() ==> (s.Profitable(n) <==> n <= s.MaxProfitable())
  {
    forall n: nat | 0 < n <= s.Thin()
      ensures s.Profitable(n) <==> n <= s.MaxProfitable()
    {
      if n <= s.MaxProfitable() {
        ProfitableDownward(s, n, s.MaxProfitable());
      }
    }
  }

  // The edge filter of scan, in ticks: "one" is a dollar

  /** Edge of a fill in basis points at least minEdgeBps. */
  predicate EdgeAtLeast(f: OptimalFill, one: nat, minEdgeBps: int) {
    (one * f.shares - (f.upTotalCost + f.downTotalCost)) * 10000 >= minEdgeBps * (one * f.shares)
  }

  /** A configuration whose minimum edge is at least the margin the threshold leaves below a dollar. The first two cases are
      degenerate: with one level a side nothing can overshoot, and under three ticks nothing is profitable. */
  predicate EdgeCoversThreshold(maxLevels: nat, threshold: nat, one: nat, minEdgeBps: int) {
    maxLevels <= 1 || threshold <= 2 || (10000 - minEdgeBps) * one <= 10000 * threshold
  }

  /** The average of a fill is at most the threshold. */
  predicate KeepsThreshold(f: OptimalFill, threshold: nat) {
    f.upTotalCost + f.downTotalCost <= threshold * f.shares
  }

  lemma FillSize(s: Sweep, f: OptimalFill)
    requires s.Fills(f)
    ensures f.shares == s.Arrived()
  {
    hide PrefixCost, UnitPrice, Sweep.Arrived;
  }

  method Scan(upAsks: seq<Level>, downAsks: seq<Level>, maxLevels: nat, threshold: nat, cap: int, one: nat, minEdgeBps: int)
    returns (r: Option<OptimalFill>)
    requires WellFormed(upAsks) && WellFormed(downAsks)
    ensures var s := Sliced(upAsks, downAsks, maxLevels, threshold, cap);
            && (r.Some? ==> s.Fills(r.value) && r.value.shares >= MIN_SHARES && EdgeAtLeast(r.value, one, minEdgeBps))
            && (r.None? ==> s.Arrived() < MIN_SHARES
                            || exists f: OptimalFill :: s.Fills(f) && !EdgeAtLeast(f, one, minEdgeBps))
    ensures r.Some? && one > 0 && EdgeCoversThreshold(maxLevels, threshold, one, minEdgeBps) ==>
              KeepsThreshold(r.value, threshold)
  {
    hide Sweep.Fills, Sweep.Arrived, WellFormed, EdgeAtLeast, EdgeCoversThreshold, KeepsThreshold;
    if |upAsks| == 0 || |downAsks| == 0 {
      NothingProfitable(Sliced(upAsks, downAsks, maxLevels, threshold, cap));
      return None;
    }
    var fill, rounds := FindOptimalFill(upAsks, downAsks, maxLevels, threshold, cap);
    if fill.None? || !EdgeAtLeast(fill.value, one, minEdgeBps) {
      return None;
    }
    FillSize(Sliced(upAsks, downAsks, maxLevels, threshold, cap), fill.value);
    if one > 0 && EdgeCoversThreshold(maxLevels, threshold, one, minEdgeBps) {
      CoveredFillsKeepThreshold(Sliced(upAsks, downAsks, maxLevels, threshold, cap), fill.value, maxLevels, one, minEdgeBps);
    }
    return fill;
  }

  /** Whatever passes the filter locks in a profit: both sides together cost less than the dollar per share one of them
      will pay, even when the sweep overshot the threshold. */
  lemma EdgeMeansProfit(f: OptimalFill, one: nat, minEdgeBps: int)
    requires f.shares > 0 && one > 0 && minEdgeBps > 0 && EdgeAtLeast(f, one, minEdgeBps)
    ensures f.upTotalCost + f.downTotalCost < one * f.shares
  {
    MulStrict(0, one, f.shares);
    MulMonotone(1, minEdgeBps, one * f.shares);
  }

  /** What scan can return under a configuration, on any books and with any cap. */
  ghost predicate Passes(s: Sweep, f: OptimalFill, maxLevels: nat, threshold: nat, one: nat, minEdgeBps: int) {
    && s.Valid() && |s.up| <= maxLevels && |s.down| <= maxLevels && s.threshold == threshold
    && s.Fills(f) && f.shares >= MIN_SHARES && EdgeAtLeast(f, one, minEdgeBps)
  }

  /** Everything scan returns averages at most the threshold, on all books and caps, if and only if the minimum edge covers
      the threshold's margin. */
  lemma FilterKeepsThresholdIff(maxLevels: nat, threshold: nat, one: nat, minEdgeBps: int)
    requires one > 0
    ensures (forall s: Sweep, f: OptimalFill ::
               Passes(s, f, maxLevels, threshold, one, minEdgeBps) ==> KeepsThreshold(f, threshold))
            <==> EdgeCoversThreshold(maxLevels, threshold, one, minEdgeBps)
  {
    hide Sweep.Fills, EdgeAtLeast;
    if EdgeCoversThreshold(maxLevels, threshold, one, minEdgeBps) {
      forall s: Sweep, f: OptimalFill | Passes(s, f, maxLevels, threshold, one, minEdgeBps)
        ensures KeepsThreshold(f, threshold)
      {
        CoveredFillsKeepThreshold(s, f, maxLevels, one, minEdgeBps);
      }
    } else {
      var s, f := UncoveredOvershoot(threshold, one, minEdgeBps);
      assert Passes(s, f, maxLevels, threshold, one, minEdgeBps);
    }
  }

  lemma CoveredFillsKeepThreshold(s: Sweep, f: OptimalFill, maxLevels: nat, one: nat, minEdgeBps: int)
    requires s.Valid() && |s.up| <= maxLevels && |s.down| <= maxLevels
    requires s.Fills(f) && EdgeAtLeast(f, one, minEdgeBps)
    requires one > 0 && EdgeCoversThreshold(maxLevels, s.threshold, one, minEdgeBps)
    ensures KeepsThreshold(f, s.threshold)
  {
    hide Sweep.Profitable, Sweep.Affordable, Sweep.SameStep;
    if f.upTotalCost + f.downTotalCost > s.threshold * f.shares {
      if maxLevels <= 1 {
        OneLevelKeepsThreshold(s, f);
      } else if s.threshold <= 2 {
        FillNeedsTwoTicks(s, f);
      } else {
        OvershootIsFilteredOut(s, f, one, minEdgeBps);
      }
    }
  }

  /** With one level a side every size costs the same per share, so a fill is profitable as the first share is. */
  lemma OneLevelKeepsThreshold(s: Sweep, f: OptimalFill)
    requires s.Valid() && s.Fills(f) && |s.up| <= 1 && |s.down| <= 1
    ensures KeepsThreshold(f, s.threshold)
  {
    hide PrefixCost, UnitPrice, Sweep.MaxProfitable, Sweep.MaxAffordable, Sweep.SameStep;
    var p := s.MaxProfitable();
    assert |s.up| == 1 && |s.down| == 1;
    assert Before(s.up, 0) == 0 && Before(s.down, 0) == 0;
    hide Before;
    OneLevelCost(s.up, p);
    OneLevelCost(s.down, p);
    OneLevelCost(s.up, f.shares);
    OneLevelCost(s.down, f.shares);
    SamePrice(s.up[0].price, s.down[0].price, s.threshold, p, f.shares);
  }

  lemma SamePrice(up: nat, down: nat, threshold: nat, p: nat, n: nat)
    requires p > 0 && p * up + p * down < threshold * p
    ensures n * up + n * down <= threshold * n
  {
    assert p * (up + down) < p * threshold;
    assert up + down < threshold;
    MulMonotone(up + down, threshold, n);
    assert n * up + n * down == (up + down) * n;
  }

  /** Two sides cost at least two ticks a share, so nothing is below a threshold of two. */
  lemma FillNeedsTwoTicks(s: Sweep, f: OptimalFill)
    requires s.Valid() && s.Fills(f)
    ensures s.threshold > 2
  {
    var p := s.MaxProfitable();
    CostGrows(s.up, 0, p);
    CostGrows(s.down, 0, p);
    if s.threshold <= 2 {
      MulMonotone(s.threshold, 2, p);
    }
  }

  /** When the sweep overshoots and the filter asks for at least the margin the threshold stands for, scan finds nothing,
      although a profitable size within the cap exists. */
  lemma OvershootIsFilteredOut(s: Sweep, f: OptimalFill, one: nat, minEdgeBps: int)
    requires s.Valid() && s.Fills(f) && s.threshold * f.shares < f.upTotalCost + f.downTotalCost
    requires 0 < one && (10000 - minEdgeBps) * one <= 10000 * s.threshold
    ensures !EdgeAtLeast(f, one, minEdgeBps)
    ensures exists n: nat :: 0 < n < f.shares && s.Profitable(n) && s.Affordable(n)
  {
    BelowThresholdIff(s);
    UnderBothLimits(s, s.MaxProfitable());
    MulMonotone((10000 - minEdgeBps) * one, 10000 * s.threshold, f.shares);
    EdgeArithmetic(f.shares, f.upTotalCost + f.downTotalCost, one, minEdgeBps, s.threshold);
  }

  lemma EdgeArithmetic(n: nat, cost: nat, one: nat, minEdgeBps: int, threshold: nat)
    requires (10000 - minEdgeBps) * one * n <= 10000 * threshold * n && threshold * n < cost
    ensures (one * n - cost) * 10000 < minEdgeBps * (one * n)
  {
    assert (10000 - minEdgeBps) * one * n == 10000 * (one * n) - minEdgeBps * (one * n);
  }

  // Books on which the sweep overshoots: the up side has a cheap first level, and the cap ends inside the second

  /** Asks 50 at threshold - 2 ticks and 100 at the threshold against 200 at one tick; the cap pays for 100.01 shares. */
  function Tempting(threshold: nat): Sweep
    requires threshold >= 3
  {
    Sweep([Level(threshold - 2, 5000), Level(threshold, 10000)], [Level(1, 20000)], threshold, 10001 * threshold - 10000)
  }

  /** The cost of n units of a two-level side, from the end of its first level on. */
  lemma TwoLevelCost(b: seq<Level>, n: nat)
    requires |b| == 2 && b[0].size <= n <= b[0].size + b[1].size
    ensures n <= Depth(b) == b[0].size + b[1].size
    ensures PrefixCost(b, n) == b[0].size * b[0].price + (n - b[0].size) * b[1].price
  {
    assert Before(b, 1) == b[0].size && Before(b, 2) == b[0].size + b[1].size;
    CostWithinLevel(b, 0, 0, b[0].size);
    CostWithinLevel(b, 1, b[0].size, n);
  }

  lemma OneLevelCost(b: seq<Level>, n: nat)
    requires |b| == 1 && n <= b[0].size
    ensures n <= Depth(b) == b[0].size && PrefixCost(b, n) == n * b[0].price
  {
    assert Before(b, 0) == 0 && Before(b, 1) == b[0].size;
    CostWithinLevel(b, 0, 0, n);
  }

  /** Inside the second level of the up side no level ends. */
  lemma InsideSecondLevel(s: Sweep, p: nat, k: nat)
    requires |s.up| == 2 && |s.down| == 1
    requires s.up[0].size <= p <= k < s.up[0].size + s.up[1].size && k < s.down[0].size
    ensures s.SameStep(p, k)
  {
    assert Before(s.up, 0) == 0 && Before(s.up, 1) == s.up[0].size && Before(s.up, 2) == s.up[0].size + s.up[1].size;
    assert Before(s.down, 0) == 0 && Before(s.down, 1) == s.down[0].size;
    forall n: nat | p < n <= k
      ensures !s.Boundary(n)
    {
    }
  }

  /** A sweep whose last profitable and last affordable sizes lie in the same step, one after the other, arrives at the
      latter with a fill that overshoots. */
  lemma Overshoots(s: Sweep, p: nat, k: nat) returns (f: OptimalFill)
    requires s.Valid() && 0 < p < k < s.Thin() && MIN_SHARES <= k && s.SameStep(p, k)
    requires s.Profitable(p) && !s.Profitable(p + 1) && s.Affordable(k) && !s.Affordable(k + 1)
    ensures s.MaxProfitable() == p && s.MaxAffordable() == k == s.Arrived()
    ensures s.Fills(f) && f.shares == k
    ensures f.upTotalCost == PrefixCost(s.up, k) && f.downTotalCost == PrefixCost(s.down, k)
  {
    hide PrefixCost, Sweep.SameStep, Sweep.Profitable, Sweep.Affordable;
    LastProfitable(s, p);
    LastAffordable(s, k);
    FillIsExact(s, k);
    f := OptimalFill(k, WorstPrice(s.up, k), WorstPrice(s.down, k), PrefixCost(s.up, k), PrefixCost(s.down, k));
  }

  /** Whenever the edge does not cover the threshold's margin, there are books and a cap on which an overshoot passes. */
  lemma UncoveredOvershoot(threshold: nat, one: nat, minEdgeBps: int) returns (s: Sweep, f: OptimalFill)
    requires threshold >= 3 && (10000 - minEdgeBps) * one > 10000 * threshold
    ensures Passes(s, f, 2, threshold, one, minEdgeBps) && !KeepsThreshold(f, threshold)
  {
    s := Tempting(threshold);
    hide PrefixCost;
    TemptingCost(threshold, 9999);
    TemptingCost(threshold, 10000);
    TemptingCost(threshold, 10001);
    TemptingCost(threshold, 10002);
    InsideSecondLevel(s, 9999, 10001);
    f := Overshoots(s, 9999, 10001);
    EdgeJustHolds((10000 - minEdgeBps) * one, one, minEdgeBps, threshold);
  }

  lemma TemptingCost(threshold: nat, n: nat)
    requires threshold >= 3 && 5000 <= n <= 15000
    ensures var s := Tempting(threshold);
            && s.Valid() && n <= s.Thin() == 15000
            && PrefixCost(s.up, n) == n * threshold - 10000 && PrefixCost(s.down, n) == n
            && (s.Profitable(n) <==> n < 10000) && (s.Affordable(n) <==> n <= 10001)
  {
    var s := Tempting(threshold);
    hide PrefixCost;
    TwoLevelCost(s.up, n);
    OneLevelCost(s.down, n);
    TemptingArithmetic(threshold, n);
  }

  lemma TemptingArithmetic(threshold: nat, n: nat)
    requires threshold >= 3 && 5000 <= n <= 15000
    ensures 5000 * (threshold - 2) + (n - 5000) * threshold == n * threshold - 10000
    ensures n <= 10001 * threshold - 10000 && n * threshold == threshold * n
    ensures n * threshold <= 10001 * threshold <==> n <= 10001
  {
    if n <= 10001 {
      MulMonotone(n, 10001, threshold);
    } else {
      MulStrict(10001, n, threshold);
    }
  }

  lemma EdgeJustHolds(margin: int, one: nat, minEdgeBps: int, threshold: nat)
    requires margin == (10000 - minEdgeBps) * one && margin > 10000 * threshold
    ensures (one * 10001 - (10001 * threshold + 1)) * 10000 >= minEdgeBps * (one * 10001)
  {
    MulMonotone(10000 * threshold + 1, margin, 10001);
    assert margin * 10001 == 10000 * (one * 10001) - minEdgeBps * (one * 10001);
  }

  /** A concrete overshoot, in ticks of 0.001: asks 5 at 0.40 and 100 at 0.60 against 200 at 0.50, threshold 0.985, cap 50.
      The sweep arrives at k = 85 shares averaging over a dollar; the greatest profitable size, also under the cap, is
      p = 8.69 shares. */
  lemma OvershootExample(s: Sweep, p: nat, k: nat)
    requires s == Sweep([Level(400, 500), Level(600, 10000)], [Level(500, 20000)], 985, 5_000_000)
    requires p == 869 && k == 8500
    ensures s.Valid() && s.MaxProfitable() == p && MIN_SHARES <= p < k == s.Arrived() <= s.Thin()
    ensures s.Profitable(p) && s.Affordable(p)
    ensures PrefixCost(s.up, k) + PrefixCost(s.down, k) > 1000 * k
  {
    hide PrefixCost;
    ExampleCosts(s, p);
    ExampleCosts(s, p + 1);
    ExampleCosts(s, k);
    ExampleCosts(s, k + 1);
    InsideSecondLevel(s, p, k);
    var f := Overshoots(s, p, k);
  }

  /** An overshoot that reaches the caller: asks 5 at 0.40 and 1000 at 0.60 against 2000 at 0.39, threshold 0.985, cap 299,
      minimum edge 1 basis point. The sweep arrives at 500 shares averaging 0.988. */
  lemma OvershootPassesExample(s: Sweep, p: nat, k: nat) returns (f: OptimalFill)
    requires s == Sweep([Level(400, 500), Level(600, 100000)], [Level(390, 200000)], 985, 29_900_000)
    requires p == 19999 && k == 50000
    ensures Passes(s, f, 2, 985, 1000, 1) && f.shares == k && !KeepsThreshold(f, 985)
    ensures f.upTotalCost + f.downTotalCost == 988 * k
  {
    hide PrefixCost;
    ExampleCosts(s, p);
    ExampleCosts(s, p + 1);
    ExampleCosts(s, k);
    ExampleCosts(s, k + 1);
    InsideSecondLevel(s, p, k);
    f := Overshoots(s, p, k);
  }

  lemma ExampleCosts(s: Sweep, n: nat)
    requires |s.up| == 2 && |s.down| == 1 && s.up[0] == Level(400, 500) && s.up[1].price == 600
    requires 500 <= n <= 500 + s.up[1].size <= s.down[0].size
    ensures n <= s.Thin() == 500 + s.up[1].size
    ensures PrefixCost(s.up, n) == 200_000 + (n - 500) * 600 && PrefixCost(s.down, n) == n * s.down[0].price
  {
    TwoLevelCost(s.up, n);
    OneLevelCost(s.down, n);
  }
}
