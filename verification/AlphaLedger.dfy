/** Open positions of the alpha executor (PositionManager): a record per market, a running exposure counter, and the set of
    markets per vertical. */
module AlphaLedger {
  import opened Common
  import opened AlphaRisk

  datatype Position = Position(marketId: string, shares: nat, entryPrice: real, entryCost: real, source: Source)

  /** The stored keys: positions:open:*, positions:total_exposure, positions:by_vertical:*. */
  datatype Ledger = Ledger(open: map<string, Position>, exposure: real, verticals: map<Source, set<string>>)

  const SOURCES: seq<Source> := [Crypto, Sports, Econ, News, Arbitrage]

  function Members(l: Ledger, s: Source): set<string> {
    if s in l.verticals then l.verticals[s] else {}
  }

  function Opened(l: Ledger, p: Position): Ledger {
    Ledger(l.open[p.marketId := p], l.exposure + p.entryCost,
           l.verticals[p.source := Members(l, p.source) + {p.marketId}])
  }

  function Closed(l: Ledger, id: string): Ledger {
    if id !in l.open then l
    else
      var p := l.open[id];
      Ledger(l.open - {id}, l.exposure - p.entryCost, l.verticals[p.source := Members(l, p.source) - {id}])
  }

  /** Sum of the entry costs of some markets. */
  ghost function CostOf(open: map<string, Position>, ids: set<string>): real
    decreases |ids|
  {
    if ids == {} then 0.0
    else
      var id :| id in ids;
      (if id in open then open[id].entryCost else 0.0) + CostOf(open, ids - {id})
  }

  ghost function TotalCost(open: map<string, Position>): real {
    CostOf(open, open.Keys)
  }

  /** Any member can be taken out of the sum first. */
  lemma {:induction false} CostWithout(open: map<string, Position>, ids: set<string>, id: string)
    requires id in ids
    ensures CostOf(open, ids) == (if id in open then open[id].entryCost else 0.0) + CostOf(open, ids - {id})
    decreases |ids|
  {
    var first :| first in ids && CostOf(open, ids) == (if first in open then open[first].entryCost else 0.0) + CostOf(open, ids - {first});
    if first != id {
      CostWithout(open, ids - {first}, id);
      CostWithout(open, ids - {id}, first);
      assert ids - {first} - {id} == ids - {id} - {first};
    }
  }

  lemma {:induction false} CostAgrees(a: map<string, Position>, b: map<string, Position>, ids: set<string>)
    requires forall id :: id in ids ==> (id in a <==> id in b) && (id in a ==> a[id] == b[id])
    ensures CostOf(a, ids) == CostOf(b, ids)
    decreases |ids|
  {
    if ids != {} {
      var id :| id in ids;
      CostWithout(a, ids, id);
      CostWithout(b, ids, id);
      CostAgrees(a, b, ids - {id});
    }
  }

  lemma {:induction false} CostOfUnion(open: map<string, Position>, a: set<string>, b: set<string>)
    requires a !! b
    ensures CostOf(open, a + b) == CostOf(open, a) + CostOf(open, b)
    decreases |a|
  {
    if a == {} {
      assert a + b == b;
    } else {
      var id :| id in a;
      CostWithout(open, a, id);
      CostWithout(open, a + b, id);
      assert a + b - {id} == (a - {id}) + b;
      CostOfUnion(open, a - {id}, b);
    }
  }

  /** The counter is the sum of the open entry costs, and every vertical lists exactly its open markets. */
  ghost predicate Balanced(l: Ledger) {
    && l.exposure == TotalCost(l.open)
    && (forall s: Source, id: string :: id in Members(l, s) <==> id in l.open && l.open[id].source == s)
    && (forall id :: id in l.open ==> l.open[id].marketId == id && l.open[id].entryCost >= 0.0)
  }

  lemma {:induction false} CostNonNegative(open: map<string, Position>, ids: set<string>)
    requires forall id :: id in open ==> open[id].entryCost >= 0.0
    ensures CostOf(open, ids) >= 0.0
    decreases |ids|
  {
    if ids != {} {
      var id :| id in ids;
      CostWithout(open, ids, id);
      CostNonNegative(open, ids - {id});
    }
  }

  lemma TotalAfterOpening(open: map<string, Position>, p: Position)
    ensures TotalCost(open[p.marketId := p]) ==
            TotalCost(open) + p.entryCost - (if p.marketId in open then open[p.marketId].entryCost else 0.0)
  {
    var id, more := p.marketId, open[p.marketId := p];
    CostWithout(more, more.Keys, id);
    assert more.Keys - {id} == open.Keys - {id};
    CostAgrees(more, open, open.Keys - {id});
    if id in open {
      CostWithout(open, open.Keys, id);
    } else {
      assert open.Keys - {id} == open.Keys;
    }
  }

  /** Opening keeps the books balanced exactly when the market has no open position, or one of the same vertical that cost
      nothing: openPosition overwrites the record but adds to the counter. */
  lemma OpeningBalancedIff(l: Ledger, p: Position)
    requires Balanced(l) && p.entryCost >= 0.0
    ensures Balanced(Opened(l, p)) <==>
            p.marketId !in l.open || (l.open[p.marketId].entryCost == 0.0 && l.open[p.marketId].source == p.source)
  {
    var m := Opened(l, p);
    TotalAfterOpening(l.open, p);
    if p.marketId in l.open && l.open[p.marketId].source != p.source {
      var s := l.open[p.marketId].source;
      assert p.marketId in Members(l, s) && Members(m, s) == Members(l, s);
      assert m.open[p.marketId].source == p.source;
    } else {
      forall s: Source, id: string
        ensures id in Members(m, s) <==> id in m.open && m.open[id].source == s
      {
        assert id in Members(l, s) <==> id in l.open && l.open[id].source == s;
      }
    }
  }

  /** Opening a position that cost a dollar twice: the counter says two dollars, the records one. */
  lemma OpenedTwiceExample(p: Position)
    requires p.entryCost == 1.0
    ensures var l := Opened(Ledger(map[], 0.0, map[]), p);
            && Balanced(l) && !Balanced(Opened(l, p))
            && Opened(l, p).exposure == 2.0 && TotalCost(Opened(l, p).open) == 1.0
  {
    var l := Ledger(map[], 0.0, map[]);
    assert Balanced(l);
    OpeningBalancedIff(l, p);
    OpeningBalancedIff(Opened(l, p), p);
    TotalAfterOpening(l.open, p);
    TotalAfterOpening(Opened(l, p).open, p);
  }

  lemma ClosingBalanced(l: Ledger, id: string)
    requires Balanced(l)
    ensures Balanced(Closed(l, id)) && id !in Closed(l, id).open
  {
    if id in l.open {
      var m := Closed(l, id);
      CostWithout(l.open, l.open.Keys, id);
      assert m.open.Keys == l.open.Keys - {id};
      CostAgrees(l.open, m.open, m.open.Keys);
      forall s: Source, k: string
        ensures k in Members(m, s) <==> k in m.open && m.open[k].source == s
      {
        assert k in Members(l, s) <==> k in l.open && l.open[k].source == s;
      }
    }
  }

  /** Closing what was opened restores the ledger's books. */
  lemma OpenThenClose(l: Ledger, p: Position)
    requires Balanced(l) && p.marketId !in l.open
    ensures var m := Closed(Opened(l, p), p.marketId);
            m.open == l.open && m.exposure == l.exposure && forall s: Source :: Members(m, s) == Members(l, s)
  {
    var m := Closed(Opened(l, p), p.marketId);
    assert m.open == l.open;
    forall s: Source
      ensures Members(m, s) == Members(l, s)
    {
      assert p.marketId !in Members(l, s);
    }
  }

  ghost function VerticalCost(l: Ledger, s: Source): real {
    CostOf(l.open, Members(l, s))
  }

  ghost function VerticalsUpTo(l: Ledger, n: nat): real
    requires n <= |SOURCES|
  {
    if n == 0 then 0.0 else VerticalsUpTo(l, n - 1) + VerticalCost(l, SOURCES[n - 1])
  }

  ghost function MarketsUpTo(l: Ledger, n: nat): set<string>
    requires n <= |SOURCES|
  {
    if n == 0 then {} else MarketsUpTo(l, n - 1) + Members(l, SOURCES[n - 1])
  }

  lemma {:induction false} VerticalsPartition(l: Ledger, n: nat)
    requires Balanced(l) && n <= |SOURCES|
    ensures forall id :: id in MarketsUpTo(l, n) <==> id in l.open && l.open[id].source in SOURCES[..n]
    ensures VerticalsUpTo(l, n) == CostOf(l.open, MarketsUpTo(l, n))
  {
    if n > 0 {
      VerticalsPartition(l, n - 1);
      assert SOURCES[..n] == SOURCES[..n - 1] + [SOURCES[n - 1]];
      assert SOURCES[n - 1] !in SOURCES[..n - 1];
      CostOfUnion(l.open, MarketsUpTo(l, n - 1), Members(l, SOURCES[n - 1]));
    }
  }

  /** The counter is also the sum of the exposures of the five verticals. */
  lemma ExposureIsSumOfVerticals(l: Ledger)
    requires Balanced(l)
    ensures l.exposure == VerticalsUpTo(l, |SOURCES|) && l.exposure >= 0.0
  {
    VerticalsPartition(l, |SOURCES|);
    AllMarkets(l);
    CostNonNegative(l.open, l.open.Keys);
  }

  class PositionManager {
    var open: map<string, Position>
    var exposure: real
    var verticals: map<Source, set<string>>

    ghost function View(): Ledger
      reads this
    {
      Ledger(open, exposure, verticals)
    }

    constructor ()
      ensures View() == Ledger(map[], 0.0, map[]) && Balanced(View())
    {
      open, exposure, verticals := map[], 0.0, map[];
    }

    method OpenPosition(p: Position)
      modifies this
      ensures View() == Opened(old(View()), p)
    {
      open := open[p.marketId := p];
      exposure := exposure + p.entryCost;
      verticals := verticals[p.source := (if p.source in verticals then verticals[p.source] else {}) + {p.marketId}];
    }

    method ClosePosition(id: string) returns (p: Option<Position>)
      modifies this
      ensures View() == Closed(old(View()), id)
      ensures p == if id in old(open) then Some(old(open)[id]) else None
    {
      if id !in open {
        return None;
      }
      var pos := open[id];
      open := open - {id};
      exposure := exposure - pos.entryCost;
      verticals := verticals[pos.source := (if pos.source in verticals then verticals[pos.source] else {}) - {id}];
      return Some(pos);
    }

    method HasPosition(id: string) returns (r: bool)
      ensures r <==> id in open
    {
      r := id in open;
    }

    /** Sums the open records of a vertical, in whatever order the members come. */
    method GetVerticalExposure(s: Source) returns (total: real)
      ensures total == VerticalCost(View(), s)
    {
      total := 0.0;
      ghost var all := Members(View(), s);
      var rest := if s in verticals then verticals[s] else {};
      while rest != {}
        invariant rest <= all && total + CostOf(open, rest) == CostOf(open, all)
        decreases rest
      {
        var id :| id in rest;
        CostWithout(open, rest, id);
        if id in open {
          total := total + open[id].entryCost;
        }
        rest := rest - {id};
      }
    }

    /** Collects the open records vertical by vertical: all of them, each once. */
    method GetAllOpenPositions() returns (ps: seq<Position>)
      requires Balanced(View())
      ensures Lists(open, open.Keys, ps)
    {
      hide Lists, Balanced, Members;
      ps := [];
      ghost var l := View();
      ListsNothing(l);
      for n := 0 to |SOURCES|
        invariant Lists(open, MarketsUpTo(l, n), ps)
      {
        NextVertical(l, n);
        ps := AppendVertical(SOURCES[n], MarketsUpTo(l, n), ps);
      }
      AllMarkets(l);
    }

    /** The inner loop of getAllOpenPositions: appends the open records of one vertical. */
    method AppendVertical(s: Source, ghost listed: set<string>, before: seq<Position>) returns (ps: seq<Position>)
      requires Lists(open, listed, before) && listed !! Members(View(), s)
      ensures Lists(open, listed + Members(View(), s), ps)
    {
      hide Lists;
      ps := before;
      var rest := if s in verticals then verticals[s] else {};
      ghost var members := rest;
      assert listed + (members - rest) == listed;
      while rest != {}
        invariant rest <= members && Lists(open, listed + (members - rest), ps)
        decreases rest
      {
        var id :| id in rest;
        ListsOneMore(open, listed + (members - rest), ps, id);
        assert listed + (members - rest) + {id} == listed + (members - (rest - {id}));
        if id in open {
          ps := ps + [open[id]];
        }
        rest := rest - {id};
      }
      assert listed + (members - rest) == listed + members;
    }
  }

  /** ps holds the open records of the given markets, each once, and nothing else. */
  ghost predicate Lists(open: map<string, Position>, ids: set<string>, ps: seq<Position>) {
    && (forall i :: 0 <= i < |ps| ==> ps[i].marketId in ids && ps[i].marketId in open && open[ps[i].marketId] == ps[i])
    && (forall i, j :: 0 <= i < j < |ps| ==> ps[i].marketId != ps[j].marketId)
    && (forall id :: id in ids && id in open ==> open[id] in ps)
    && (forall id :: id in open ==> open[id].marketId == id)
  }

  lemma ListsOneMore(open: map<string, Position>, ids: set<string>, ps: seq<Position>, id: string)
    requires Lists(open, ids, ps) && id !in ids
    ensures Lists(open, ids + {id}, if id in open then ps + [open[id]] else ps)
  {
  }

  lemma ListsNothing(l: Ledger)
    requires Balanced(l)
    ensures Lists(l.open, {}, [])
  {
  }

  lemma NextVertical(l: Ledger, n: nat)
    requires Balanced(l) && n < |SOURCES|
    ensures MarketsUpTo(l, n + 1) == MarketsUpTo(l, n) + Members(l, SOURCES[n])
    ensures MarketsUpTo(l, n) !! Members(l, SOURCES[n])
  {
    VerticalsPartition(l, n);
    assert SOURCES[n] !in SOURCES[..n];
  }

  lemma AllMarkets(l: Ledger)
    requires Balanced(l)
    ensures MarketsUpTo(l, |SOURCES|) == l.open.Keys
  {
    VerticalsPartition(l, |SOURCES|);
    forall s: Source
      ensures s in SOURCES[..|SOURCES|]
    {
      match s
      case Crypto => assert SOURCES[0] == s;
      case Sports => assert SOURCES[1] == s;
      case Econ => assert SOURCES[2] == s;
      case News => assert SOURCES[3] == s;
      case Arbitrage => assert SOURCES[4] == s;
    }
  }
}
