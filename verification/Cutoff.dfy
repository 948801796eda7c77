/** The grid binary search inside a level that crosses the threshold (ArbScanner.binarySearchCutoff).
    Shares are in a unit fine enough for every input; "grid" is how many of those units make 0.01 shares. */
module Cutoff {
  import opened Rounding

  datatype Search = Search(
    shares: nat,      // existing position
    cost: nat,        // what it cost, both sides together
    unitCost: nat,    // combined price of one more unit inside the current levels
    maxShares: nat,   // the whole step
    threshold: nat,   // combined price the average must stay strictly below
    grid: nat)
  {
    /** The average with x more units is strictly below the threshold. With no units at all the quotient is 0/0, and
        comparing NaN is false. */
    predicate Keeps(x: nat) {
      cost + x * unitCost < threshold * (shares + x)
    }

    /** How findOptimalFill calls the search: the existing position is under the threshold, the whole step is not. */
    predicate Valid() {
      && grid > 0
      && (if shares == 0 then cost == 0 else Keeps(0))
      && maxShares > 0
      && !Keeps(maxShares)
    }

    /** The largest grid amount that keeps the average below the threshold, 0 if none does. */
    ghost predicate IsCutoff(r: nat)
      requires grid > 0
    {
      && r % grid == 0 && r <= maxShares
      && (r > 0 ==> Keeps(r))
      && forall x: nat :: r < x <= maxShares && x % grid == 0 ==> !Keeps(x)
    }

    function RoundDown(x: nat): nat
      requires grid > 0
    {
      x / grid * grid
    }

    /** One turn of the loop; the loop stops when hi - lo is at most one grid step. */
    predicate Running(b: Bounds) {
      b.hi - b.lo > grid
    }

    function Turn(b: Bounds): Bounds
      requires grid > 0
    {
      if !Running(b) then b
      else
        var mid := RoundDown((b.lo + b.hi) / 2);
        if Keeps(mid) then Bounds(mid, b.hi) else Bounds(b.lo, mid)
    }

    function Turns(b: Bounds, k: nat): Bounds
      requires grid > 0
      decreases k
    {
      if k == 0 then b else Turns(Turn(b), k - 1)
    }

    /** The search comes to its loop and never leaves it: the step is off the grid, and both one grid unit and the last
        grid amount but one inside the step still keep the average below the threshold. */
    predicate Stalls()
      requires grid > 0
    {
      maxShares % grid != 0 && maxShares > grid && Keeps(grid) && Keeps(RoundDown(maxShares) - grid)
    }
  }

  datatype Bounds = Bounds(lo: nat, hi: nat)

  /** The feasible amounts are downward closed. */
  lemma KeepsDownward(s: Search, y: nat, x: nat)
    requires s.Valid() && y <= x && s.Keeps(x) && (y > 0 || s.shares > 0)
    ensures s.Keeps(y)
  {
    var d := s.threshold * s.shares - s.cost;
    if s.unitCost >= s.threshold {
      MulMonotone(y, x, s.unitCost - s.threshold);
    } else if y > 0 {
      MulStrict(s.unitCost, s.threshold, y);
    }
  }

  lemma GridMultiple(q: nat, grid: nat)
    requires grid > 0
    ensures (q * grid) % grid == 0 && (q * grid) / grid == q
  {
    QuotientAtLeast(q * grid, grid, q);
    QuotientAtLeast(q * grid, grid, q + 1);
    QuotientBound(q * grid, grid);
  }

  /** The midpoint lies on the grid, at least at lo and below hi; it moves off lo when two grid steps are left. */
  lemma Midpoint(s: Search, b: Bounds)
    requires s.grid > 0 && b.lo % s.grid == 0 && s.Running(b)
    ensures var mid := s.RoundDown((b.lo + b.hi) / 2);
            mid % s.grid == 0 && b.lo <= mid < b.hi && (b.hi - b.lo >= 2 * s.grid ==> b.lo + s.grid <= mid)
    ensures var mid := s.RoundDown((b.lo + b.hi) / 2);
            b.hi - b.lo < 2 * s.grid ==> mid == b.lo
  {
    var g, h := s.grid, (b.lo + b.hi) / 2;
    var q := b.lo / g;
    assert b.lo == q * g;
    GridMultiple(h / g, g);
    QuotientBound(h, g);
    QuotientAtLeast(h, g, q);
    QuotientAtLeast(h, g, q + 1);
    MulMonotone(q, h / g, g);
    assert (q + 1) * g == q * g + g;
    if b.hi - b.lo >= 2 * g {
      MulMonotone(q + 1, h / g, g);
    } else {
      assert h / g == q;
    }
  }

  /** Two grid points more than a step apart are two steps apart. */
  lemma GridGap(lo: nat, hi: nat, g: nat)
    requires g > 0 && lo % g == 0 && hi % g == 0 && hi - lo > g
    ensures hi - lo >= 2 * g
  {
    var p, q := lo / g, hi / g;
    assert lo == p * g && hi == q * g;
    if q < p + 2 {
      MulMonotone(q, p + 1, g);
    } else {
      MulMonotone(p + 2, q, g);
    }
  }

  /** The last grid point at least one and less than two steps below an off-grid amount. */
  lemma LastButOne(lo: nat, h: nat, s: Search)
    requires s.grid > 0 && lo % s.grid == 0 && h % s.grid != 0 && s.grid < h - lo < 2 * s.grid
    ensures lo == s.RoundDown(h) - s.grid && s.RoundDown(h) >= s.grid
  {
    var g := s.grid;
    var p := lo / g;
    assert lo == p * g;
    assert (p + 1) * g == p * g + g && (p + 2) * g == p * g + 2 * g;
    QuotientAtLeast(h, g, p + 1);
    QuotientAtLeast(h, g, p + 2);
    assert h / g == p + 1;
  }

  ghost predicate Bracketed(s: Search, b: Bounds) {
    && s.grid > 0
    && b.lo < b.hi <= s.maxShares && b.lo % s.grid == 0
    && (b.hi == s.maxShares || b.hi % s.grid == 0)
    && (b.lo > 0 ==> s.Keeps(b.lo))
    && !s.Keeps(b.hi)
  }

  /** While the search does not stall, every turn moves the midpoint off lo. */
  lemma Progress(s: Search, b: Bounds)
    requires s.Valid() && Bracketed(s, b) && s.Running(b) && s.Keeps(s.grid) && !s.Stalls()
    ensures b.lo < s.RoundDown((b.lo + b.hi) / 2) < b.hi
    ensures Bracketed(s, s.Turn(b))
    ensures s.Turn(b).hi - s.Turn(b).lo < b.hi - b.lo
  {
    Midpoint(s, b);
    if b.hi - b.lo < 2 * s.grid {
      if b.hi % s.grid == 0 {
        GridGap(b.lo, b.hi, s.grid);
      } else {
        StuckMeansStalls(s, b);
      }
    }
  }

  /** The midpoint stays on lo only in a search that stalls. */
  lemma StuckMeansStalls(s: Search, b: Bounds)
    requires s.Valid() && Bracketed(s, b) && s.Running(b) && s.Keeps(s.grid)
    requires b.hi % s.grid != 0 && b.hi - b.lo < 2 * s.grid
    ensures s.Stalls()
  {
    LastButOne(b.lo, b.hi, s);
    if b.lo == 0 && s.shares == 0 {
      EmptyKeepsAll(s, s.maxShares);
    }
  }

  /** With nothing bought yet the average is the price of the step, whatever the amount. */
  lemma EmptyKeepsAll(s: Search, x: nat)
    requires s.shares == 0 == s.cost && s.grid > 0 && s.Keeps(s.grid) && x > 0
    ensures s.Keeps(x)
  {
    if s.unitCost >= s.threshold {
      MulMonotone(s.threshold, s.unitCost, s.grid);
    } else {
      MulStrict(s.unitCost, s.threshold, x);
    }
  }

  /** Returns the largest grid amount of the step that keeps the combined average strictly below the threshold. The
      source expects steps on the 0.01 grid; it is enough that the search does not stall. */
  method BinarySearchCutoff(s: Search) returns (r: nat)
    requires s.Valid() && !s.Stalls()
    ensures s.IsCutoff(r) && r < s.maxShares
  {
    var lo: nat, hi: nat := 0, s.maxShares;
    if !s.Keeps(s.grid) {
      forall x: nat | 0 < x <= s.maxShares && x % s.grid == 0
        ensures !s.Keeps(x)
      {
        if s.Keeps(x) {
          KeepsDownward(s, s.grid, x);
        }
      }
      return 0;
    }
    while hi - lo > s.grid
      invariant Bracketed(s, Bounds(lo, hi))
      decreases hi - lo
    {
      Progress(s, Bounds(lo, hi));
      var mid := s.RoundDown((lo + hi) / 2);
      if s.Keeps(mid) {
        lo := mid;
      } else {
        hi := mid;
      }
    }
    forall x: nat | lo < x <= s.maxShares && x % s.grid == 0
      ensures !s.Keeps(x)
    {
      if s.Keeps(x) {
        if x < hi {
          GridApart(lo, x, s.grid);
        } else {
          KeepsDownward(s, hi, x);
        }
      }
    }
    return lo;
  }

  lemma GridApart(lo: nat, x: nat, g: nat)
    requires g > 0 && lo % g == 0 && x % g == 0 && lo < x
    ensures x - lo >= g
  {
    var p, q := lo / g, x / g;
    assert lo == p * g && x == q * g;
    if q <= p {
      MulMonotone(q, p, g);
    } else {
      MulMonotone(p + 1, q, g);
    }
  }

  lemma {:induction false} TurnsReachEnd(s: Search, b: Bounds) returns (k: nat)
    requires s.Valid() && Bracketed(s, b) && s.Keeps(s.grid) && !s.Stalls()
    ensures !s.Running(s.Turns(b, k))
    decreases b.hi - b.lo
  {
    if s.Running(b) {
      Progress(s, b);
      var j := TurnsReachEnd(s, s.Turn(b));
      k := j + 1;
    } else {
      k := 0;
    }
  }

  lemma {:induction false} StallsForever(s: Search, b: Bounds, k: nat)
    requires s.Valid() && s.Stalls()
    requires b.hi == s.maxShares && b.lo % s.grid == 0 && b.lo <= s.RoundDown(s.maxShares) - s.grid
    ensures s.Running(s.Turns(b, k))
    decreases k
  {
    var g, h := s.grid, s.maxShares;
    QuotientBound(h, g);
    QuotientAtLeast(h, g, 1);
    GridMultiple(h / g, g);
    assert s.RoundDown(h) < h;
    assert s.Running(b);
    if k > 0 {
      Midpoint(s, b);
      var mid := s.RoundDown((b.lo + b.hi) / 2);
      var last := s.RoundDown(h) - g;
      assert mid <= last by {
        if b.hi - b.lo < 2 * g {
          assert mid == b.lo;
        } else {
          MidpointShort(b.lo, h, g);
        }
      }
      if mid > 0 || s.shares > 0 {
        KeepsDownward(s, mid, last);
      } else {
        // an empty position and midpoint 0: the last grid amount but one would be 0, which keeps nothing
        assert last > 0;
        MidpointOff(h, g);
      }
      StallsForever(s, s.Turn(b), k - 1);
    }
  }

  /** From two steps or more below an off-grid amount, the rounded midpoint stops short of its last grid point. */
  lemma MidpointShort(lo: nat, h: nat, g: nat)
    requires g > 0 && lo % g == 0 && h % g != 0 && h - lo >= 2 * g
    ensures (lo + h) / 2 / g * g <= h / g * g - g
  {
    var p, q, m := lo / g, h / g, (lo + h) / 2;
    assert lo == p * g;
    QuotientBound(h, g);
    QuotientAtLeast(m, g, q);
    QuotientAtLeast(h, g, p + 2);
    assert (p + 2) * g == p * g + 2 * g;
    assert (q + 1) * g == q * g + g;
    assert q * g > m by {
      MulMonotone(p + 2, q, g);
    }
    MulMonotone(m / g, q - 1, g);
    assert (q - 1) * g == q * g - g;
  }

  lemma MidpointOff(h: nat, g: nat)
    requires g > 0 && h / g * g - g > 0
    ensures h / 2 / g * g > 0
  {
    QuotientBound(h, g);
    QuotientAtLeast(h, g, 2);
    assert h / g >= 2 by {
      if h / g < 2 {
        MulMonotone(h / g, 1, g);
      }
    }
    QuotientAtLeast(h / 2, g, 1);
    MulMonotone(1, h / 2 / g, g);
  }

  /** The search that passes its quick check leaves its loop if and only if it does not stall. In particular it always
      ends when the step lies on the 0.01 grid. */
  lemma EndsIffNotStalling(s: Search)
    requires s.Valid() && s.Keeps(s.grid)
    ensures (exists k: nat :: !s.Running(s.Turns(Bounds(0, s.maxShares), k))) <==> !s.Stalls()
    ensures s.maxShares % s.grid == 0 ==> !s.Stalls()
  {
    var b := Bounds(0, s.maxShares);
    if s.Stalls() {
      QuotientAtLeast(s.maxShares, s.grid, 1);
      MulMonotone(1, s.maxShares / s.grid, s.grid);
      forall k: nat
        ensures s.Running(s.Turns(b, k))
      {
        StallsForever(s, b, k);
      }
    } else {
      var k := TurnsReachEnd(s, b);
    }
  }

  /** A concrete stall, in thousandths of a share and of a dollar: one share of each side bought for 0.973, then a step of 0.015
      shares at 0.995 a side, against a threshold of 0.985. */
  lemma StallExample()
    ensures var s := Search(1000, 973_000, 1990, 15, 985, 10);
            s.Valid() && s.Stalls()
  {
  }
}
