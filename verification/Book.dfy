/** One side of an order book and the cheapest way to buy from it.
    Sizes are in units of 0.01 shares, prices in integer ticks, money in their product. */
module Book {
  import opened Rounding

  datatype Level = Level(price: nat, size: nat)

  /** Money for some shares at one price. */
  function Notional(shares: nat, price: nat): nat {
    shares * price
  }

  /** What fetchOrderBook guarantees of the asks: positive prices and sizes, prices ascending. */
  ghost predicate WellFormed(b: seq<Level>) {
    && (forall i :: 0 <= i < |b| ==> b[i].price > 0 && b[i].size > 0)
    && (forall i, j :: 0 <= i <= j < |b| ==> b[i].price <= b[j].price)
  }

  /** Shares resting on the levels before level i. */
  function Before(b: seq<Level>, i: nat): nat
    requires i <= |b|
  {
    if i == 0 then 0 else Before(b, i - 1) + b[i - 1].size
  }

  function Depth(b: seq<Level>): nat {
    Before(b, |b|)
  }

  lemma {:induction false} BeforeMonotone(b: seq<Level>, i: nat, j: nat)
    requires i <= j <= |b|
    ensures Before(b, i) <= Before(b, j)
    decreases j
  {
    if i < j {
      BeforeMonotone(b, i, j - 1);
    }
  }

  /** The level on which the k-th cheapest unit rests, searching from level i. */
  function LevelFrom(b: seq<Level>, i: nat, k: nat): (r: nat)
    requires i <= |b| && Before(b, i) <= k < Depth(b)
    ensures i <= r < |b| && Before(b, r) <= k < Before(b, r + 1)
    decreases |b| - i
  {
    if k < Before(b, i + 1) then i else LevelFrom(b, i + 1, k)
  }

  function LevelOf(b: seq<Level>, k: nat): (r: nat)
    requires k < Depth(b)
    ensures r < |b| && Before(b, r) <= k < Before(b, r + 1)
  {
    LevelFrom(b, 0, k)
  }

  /** A unit rests on exactly one level. */
  lemma LevelUnique(b: seq<Level>, k: nat, i: nat)
    requires k < Depth(b) && i < |b| && Before(b, i) <= k < Before(b, i + 1)
    ensures LevelOf(b, k) == i
  {
    var r := LevelOf(b, k);
    if r < i {
      BeforeMonotone(b, r + 1, i);
    } else if i < r {
      BeforeMonotone(b, i + 1, r);
    }
  }

  /** Marginal price: what the k-th cheapest unit costs. */
  function UnitPrice(b: seq<Level>, k: nat): nat
    requires k < Depth(b)
  {
    b[LevelOf(b, k)].price
  }

  /** Marginal price never falls. */
  lemma UnitPriceMonotone(b: seq<Level>, k: nat, l: nat)
    requires WellFormed(b) && k <= l < Depth(b)
    ensures 0 < UnitPrice(b, k) <= UnitPrice(b, l)
  {
    var i, j := LevelOf(b, k), LevelOf(b, l);
    if j < i {
      BeforeMonotone(b, j + 1, i);
    }
  }

  /** Cost of the n cheapest units, unit by unit. */
  function PrefixCost(b: seq<Level>, n: nat): nat
    requires n <= Depth(b)
  {
    if n == 0 then 0 else PrefixCost(b, n - 1) + UnitPrice(b, n - 1)
  }

  /** Units m..n all priced between lo and hi cost between (n - m) * lo and (n - m) * hi. */
  lemma {:induction false} CostBetween(b: seq<Level>, m: nat, n: nat, lo: nat, hi: nat)
    requires m <= n <= Depth(b)
    requires forall k :: m <= k < n ==> lo <= UnitPrice(b, k) <= hi
    ensures (n - m) * lo <= PrefixCost(b, n) - PrefixCost(b, m) <= (n - m) * hi
    decreases n
  {
    hide UnitPrice;
    if m < n {
      CostBetween(b, m, n - 1, lo, hi);
      assert lo <= UnitPrice(b, n - 1) <= hi;
      assert (n - m) * lo == (n - 1 - m) * lo + lo;
      assert (n - m) * hi == (n - 1 - m) * hi + hi;
    }
  }

  /** Inside one level the cost is linear: the level-stepping walk computes the unit-by-unit cost. */
  lemma CostWithinLevel(b: seq<Level>, i: nat, m: nat, n: nat)
    requires i < |b| && Before(b, i) <= m <= n <= Before(b, i + 1)
    ensures n <= Depth(b) && PrefixCost(b, n) == PrefixCost(b, m) + Notional(n - m, b[i].price)
  {
    BeforeMonotone(b, i + 1, |b|);
    forall k | m <= k < n
      ensures UnitPrice(b, k) == b[i].price
    {
      LevelUnique(b, k, i);
    }
    CostBetween(b, m, n, b[i].price, b[i].price);
  }

  /** Buying more costs at least one tick per unit more. */
  lemma {:induction false} CostGrows(b: seq<Level>, m: nat, n: nat)
    requires WellFormed(b) && m <= n <= Depth(b)
    ensures PrefixCost(b, m) + (n - m) <= PrefixCost(b, n)
    decreases n
  {
    if m < n {
      CostGrows(b, m, n - 1);
      UnitPriceMonotone(b, n - 1, n - 1);
    }
  }

  /** Units before m cost no more each than unit m. */
  lemma CostBefore(b: seq<Level>, m: nat)
    requires WellFormed(b) && m < Depth(b)
    ensures PrefixCost(b, m) <= m * UnitPrice(b, m)
  {
    hide LevelOf, UnitPrice;
    var c := UnitPrice(b, m);
    forall k | 0 <= k < m
      ensures 0 <= UnitPrice(b, k) <= c
    {
      UnitPriceMonotone(b, k, m);
    }
    CostBetween(b, 0, m, 0, c);
  }

  /** Units from m on cost no less each than unit m. */
  lemma CostFrom(b: seq<Level>, m: nat, n: nat)
    requires WellFormed(b) && m < n <= Depth(b)
    ensures PrefixCost(b, m) + (n - m) * UnitPrice(b, m) <= PrefixCost(b, n)
  {
    hide LevelOf, UnitPrice, PrefixCost;
    forall k | m <= k < n
      ensures UnitPrice(b, m) <= UnitPrice(b, k) <= UnitPrice(b, n - 1)
    {
      UnitPriceMonotone(b, m, k);
      UnitPriceMonotone(b, k, n - 1);
    }
    CostBetween(b, m, n, UnitPrice(b, m), UnitPrice(b, n - 1));
  }

  /** Convexity: the average price of the walked prefix never falls as it grows (cross-multiplied). */
  lemma AverageNeverFalls(b: seq<Level>, m: nat, n: nat)
    requires WellFormed(b) && m <= n <= Depth(b)
    ensures n * PrefixCost(b, m) <= m * PrefixCost(b, n)
  {
    hide LevelOf, UnitPrice, PrefixCost;
    if m < n {
      CostBefore(b, m);
      CostFrom(b, m, n);
      CostGrows(b, m, n);
      AverageStep(m, n - m, PrefixCost(b, m), PrefixCost(b, n) - PrefixCost(b, m), UnitPrice(b, m));
    }
  }

  lemma AverageStep(m: nat, s: nat, head: nat, tail: nat, c: nat)
    requires head <= m * c && s * c <= tail
    ensures (m + s) * head <= m * (head + tail)
  {
    calc {
      (m + s) * head;
    ==
      m * head + s * head;
    <= { MulMonotone(head, m * c, s); }
      m * head + m * c * s;
    == { assert m * c * s == m * (s * c) by { MulSwap(m, c, s); } }
      m * head + m * (s * c);
    <= { MulMonotone(s * c, tail, m); }
      m * head + m * tail;
    }
  }

  // An allocation takes some number of units from each level of a book, in any order.

  function Taken(a: seq<nat>, i: nat): nat
    requires i <= |a|
  {
    if i == 0 then 0 else Taken(a, i - 1) + a[i - 1]
  }

  function AllocationCost(b: seq<Level>, a: seq<nat>, i: nat): nat
    requires i <= |a| && i <= |b|
  {
    if i == 0 then 0 else AllocationCost(b, a, i - 1) + a[i - 1] * b[i - 1].price
  }

  /** a buys exactly n units from b, taking no more from a level than rests there. */
  ghost predicate Allocates(b: seq<Level>, a: seq<nat>, n: nat) {
    && |a| == |b|
    && (forall i :: 0 <= i < |a| ==> a[i] <= b[i].size)
    && Taken(a, |a|) == n
  }

  lemma {:induction false} TakenFits(b: seq<Level>, a: seq<nat>, i: nat)
    requires |a| == |b| && i <= |a|
    requires forall j :: 0 <= j < |a| ==> a[j] <= b[j].size
    ensures Taken(a, i) <= Before(b, i)
  {
    if i > 0 {
      TakenFits(b, a, i - 1);
    }
  }

  lemma {:induction false} PrefixCheapestUpTo(b: seq<Level>, a: seq<nat>, i: nat)
    requires WellFormed(b) && |a| == |b| && i <= |a|
    requires forall j :: 0 <= j < |a| ==> a[j] <= b[j].size
    ensures Taken(a, i) <= Before(b, i) <= Depth(b)
    ensures PrefixCost(b, Taken(a, i)) <= AllocationCost(b, a, i)
  {
    TakenFits(b, a, i);
    BeforeMonotone(b, i, |b|);
    if i > 0 {
      PrefixCheapestUpTo(b, a, i - 1);
      var m, n := Taken(a, i - 1), Taken(a, i);
      forall k | m <= k < n
        ensures 0 <= UnitPrice(b, k) <= b[i - 1].price
      {
        if LevelOf(b, k) > i - 1 {
          BeforeMonotone(b, i, LevelOf(b, k));
        }
      }
      CostBetween(b, m, n, 0, b[i - 1].price);
    }
  }

  /** Greedy optimality: no allocation of n units across the levels is cheaper than the walked prefix. */
  lemma WalkIsCheapest(b: seq<Level>, a: seq<nat>, n: nat)
    requires WellFormed(b) && Allocates(b, a, n)
    ensures n <= Depth(b) && PrefixCost(b, n) <= AllocationCost(b, a, |a|)
  {
    PrefixCheapestUpTo(b, a, |a|);
  }

  /** Units the walk of n units takes from level i. */
  function WalkedFrom(b: seq<Level>, n: nat, i: nat): nat
    requires i < |b|
  {
    if n <= Before(b, i) then 0 else if n - Before(b, i) < b[i].size then n - Before(b, i) else b[i].size
  }

  function Walk(b: seq<Level>, n: nat): (a: seq<nat>)
    ensures |a| == |b|
  {
    seq(|b|, i requires 0 <= i < |b| => WalkedFrom(b, n, i))
  }

  lemma {:induction false} WalkUpTo(b: seq<Level>, n: nat, i: nat)
    requires i <= |b| && n <= Depth(b)
    ensures var m := if n < Before(b, i) then n else Before(b, i);
            Taken(Walk(b, n), i) == m && m <= Depth(b) && AllocationCost(b, Walk(b, n), i) == PrefixCost(b, m)
  {
    BeforeMonotone(b, i, |b|);
    if i > 0 {
      WalkUpTo(b, n, i - 1);
      BeforeMonotone(b, i - 1, i);
      var m := if n < Before(b, i) then n else Before(b, i);
      if Before(b, i - 1) <= n {
        CostWithinLevel(b, i - 1, Before(b, i - 1), m);
      }
    }
  }

  /** ... and the prefix cost is attained, by the walk itself. */
  lemma WalkAttainsPrefixCost(b: seq<Level>, n: nat)
    requires n <= Depth(b)
    ensures Allocates(b, Walk(b, n), n)
    ensures AllocationCost(b, Walk(b, n), |b|) == PrefixCost(b, n)
  {
    WalkUpTo(b, n, |b|);
  }
}
