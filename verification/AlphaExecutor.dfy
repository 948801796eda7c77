/** The alpha executor's message handler with signals handled one at a time: validation, deduplication, sizing, risk checks,
    chunked submission and the position ledger. */
module AlphaExecutor {
  import opened Common
  import opened AlphaRisk
  import opened AlphaLedger

  const DEDUP_WINDOW_MS := 5_000

  datatype Signal = Signal(
    marketId: string, source: Source, confidence: real, currentAsk: real, edge: real, liquidity: real, ttlMs: int,
    timestampMs: int)

  /** How the exchange answers a chunk; the list ends where the service stops running. */
  datatype Outcome = Accepted | Refused | Threw

  /** A signal with everything its handling reads from outside: clocks, switches, stored figures, answers. */
  datatype Input = Input(
    signal: Signal, validatedAt: int, checkedAt: int, recordedAt: int, masterOn: bool, alphaOn: bool, safeBalance: real,
    peak: Option<real>, dailyLoss: real, windowsTraded: int, btc5mVolume: real, outcomes: seq<Outcome>)

  datatype Config = Config(takerFeeBps: real, maxOrderShares: nat, dryRun: bool) {
    predicate Valid() {
      maxOrderShares > 0
    }
  }

  datatype State = State(ledger: Ledger, recent: map<string, int>)

  function Fresh(s: Signal, now: int): bool {
    now - s.timestampMs <= s.ttlMs && s.edge > 0.0 && s.confidence > s.currentAsk && s.liquidity > 0.0
  }

  function Duplicate(recent: map<string, int>, market: string, now: int): bool {
    market in recent && now - recent[market] <= DEDUP_WINDOW_MS
  }

  function PortfolioFor(l: Ledger, i: Input): Portfolio {
    PortfolioOf(i.safeBalance, l.exposure, i.peak, i.dailyLoss, i.windowsTraded)
  }

  /** The size processSignal decides on, none when it rejects. A bet that is not a number is rejected for want of room
      (NoNumberNoRoom). */
  ghost function Size(cfg: Config, st: State, i: Input): Option<real>
    requires cfg.Valid()
  {
    var s, p := i.signal, PortfolioFor(st.ledger, i);
    if !Fresh(s, i.validatedAt) || Duplicate(st.recent, s.marketId, i.checkedAt) || s.marketId in st.ledger.open then None
    else
      var size := BetSize(s.confidence, s.currentAsk, s.liquidity, cfg.takerFeeBps, p);
      if size.None? || size.value <= 0 then None
      else
        var checks := RunAllChecks(p, size.value as real, s.source, VerticalCost(st.ledger, s.source), i.btc5mVolume);
        if checks.Rejected? || FinalSize(checks, size.value as real) <= 0.0 then None
        else Some(FinalSize(checks, size.value as real))
  }

  /** The dedup map after processSignal: a stale entry of the market is dropped when it is looked at, and an accepted signal
      is entered. */
  ghost function Remembered(cfg: Config, st: State, i: Input): map<string, int>
    requires cfg.Valid()
  {
    var m := i.signal.marketId;
    if !Fresh(i.signal, i.validatedAt) || Duplicate(st.recent, m, i.checkedAt) then st.recent
    else if Size(cfg, st, i).Some? then st.recent[m := i.recordedAt]
    else st.recent - {m}
  }

  // When a signal is accepted, on the figures themselves

  /** The whole dollars, at least one, that Kelly bets on a signal. */
  ghost predicate Bets(cfg: Config, l: Ledger, i: Input, n: int) {
    var s, c := i.signal, ConfigOf(DeterminePhase(i.safeBalance, i.windowsTraded));
    var edge := s.confidence - cfg.takerFeeBps / 10_000.0 - s.currentAsk;
    && s.currentAsk <= 1.0 && edge > 0.0 && l.exposure < i.safeBalance
    && 1 <= n
    && exists bet :: KellyBet(edge, s.currentAsk, i.safeBalance - l.exposure, c.kellyMultiplier, c.maxPerTradePct, s.liquidity, bet)
                     && bet.Floor == n
  }

  /** Nothing in the books stands against a signal of the source: the balance is above the phase's share of its peak, the
      day's loss, for sports with half of what is open in it, is within a tenth of the balance, and less than a half of the
      balance is open in crypto, two fifths in sports. */
  ghost predicate BooksPermit(l: Ledger, i: Input) {
    var source, open := i.signal.source, VerticalCost(l, i.signal.source);
    var c := ConfigOf(DeterminePhase(i.safeBalance, i.windowsTraded));
    && (i.peak.Some? && i.peak.value > 0.0 ==> i.safeBalance > i.peak.value * (1.0 - c.maxDrawdown))
    && i.dailyLoss <= i.safeBalance / 10.0
    && (source == Sports ==> i.dailyLoss + open / 2.0 <= i.safeBalance / 10.0 && open < i.safeBalance * 2.0 / 5.0)
    && (source == Crypto ==> open < i.safeBalance / 2.0)
  }

  /** What the balance, less the volume of the latency bot, leaves of the phase's trade and of its exposure. */
  ghost predicate RoomIs(l: Ledger, i: Input, trade: real, room: real) {
    var c := ConfigOf(DeterminePhase(i.safeBalance, i.windowsTraded));
    var unreserved := if i.btc5mVolume < i.safeBalance then i.safeBalance - i.btc5mVolume else 0.0;
    trade == unreserved * c.maxPerTradePct && room == unreserved * c.maxExposureRatio - l.exposure
  }

  /** The size is the whole bet where the room holds it, else the whole dollars of the room if that is at least half a trade. */
  predicate Fits(n: int, trade: real, room: real, size: real) {
    && room > 0.0 && size > 0.0
    && (if n as real <= room then size == n as real else 2.0 * room >= trade && size == room.Floor as real)
  }

  ghost predicate Sized(cfg: Config, l: Ledger, i: Input, size: real) {
    BooksPermit(l, i) && exists n, trade, room :: Bets(cfg, l, i, n) && RoomIs(l, i, trade, room) && Fits(n, trade, room, size)
  }

  /** A signal is accepted with a size: it is no older than its time to live, has an edge, a confidence above the ask and
      liquidity, its market is neither remembered from within the last five seconds nor open, and books, Kelly bet and room
      make the size. */
  ghost predicate Accepts(cfg: Config, st: State, i: Input, size: real) {
    && i.validatedAt - i.signal.timestampMs <= i.signal.ttlMs && i.signal.edge > 0.0
    && i.signal.confidence > i.signal.currentAsk && i.signal.liquidity > 0.0
    && (i.signal.marketId in st.recent ==> i.checkedAt - st.recent[i.signal.marketId] > 5_000)
    && i.signal.marketId !in st.ledger.open
    && Sized(cfg, st.ledger, i, size)
  }

  lemma SizeIff(cfg: Config, st: State, i: Input, size: real)
    requires cfg.Valid() && Balanced(st.ledger)
    ensures Size(cfg, st, i) == Some(size) <==> Accepts(cfg, st, i, size)
  {
    hide BetSize, RunAllChecks, FinalSize, Sized, Balanced, VerticalCost;
    SizedIff(cfg, st.ledger, i, size);
  }

  /** The Kelly size of a signal, if it passes the checks. */
  lemma SizedIff(cfg: Config, l: Ledger, i: Input, size: real)
    requires Balanced(l)
    ensures var s, p := i.signal, PortfolioFor(l, i);
            var bet := BetSize(s.confidence, s.currentAsk, s.liquidity, cfg.takerFeeBps, p);
            Sized(cfg, l, i, size) <==>
            (&& bet.Some? && bet.value > 0
             && var r := RunAllChecks(p, bet.value as real, s.source, VerticalCost(l, s.source), i.btc5mVolume);
                r.Passed? && FinalSize(r, bet.value as real) == size && size > 0.0)
  {
    hide BetSize, RunAllChecks, FinalSize, Bets, BooksPermit, RoomIs, Fits, Balanced, VerticalCost;
    var s, p := i.signal, PortfolioFor(l, i);
    var bet := BetSize(s.confidence, s.currentAsk, s.liquidity, cfg.takerFeeBps, p);
    ExposureNotNegative(l);
    forall n
      ensures Bets(cfg, l, i, n) <==> bet == Some(n) && n > 0
    {
      BetsIff(cfg, l, i, n);
    }
    RoomExists(l, i);
    if bet.Some? && bet.value > 0 {
      forall trade, room | RoomIs(l, i, trade, room)
        ensures var r := RunAllChecks(p, bet.value as real, s.source, VerticalCost(l, s.source), i.btc5mVolume);
                BooksPermit(l, i) && Fits(bet.value, trade, room, size) <==>
                r.Passed? && FinalSize(r, bet.value as real) == size && size > 0.0
      {
        ChecksIff(cfg, l, i, bet.value, trade, room, size);
      }
    }
  }

  lemma ExposureNotNegative(l: Ledger)
    requires Balanced(l)
    ensures l.exposure >= 0.0 && forall s :: VerticalCost(l, s) >= 0.0
  {
    CostNonNegative(l.open, l.open.Keys);
    forall s
      ensures VerticalCost(l, s) >= 0.0
    {
      CostNonNegative(l.open, Members(l, s));
    }
  }

  lemma RoomExists(l: Ledger, i: Input)
    ensures exists trade, room :: RoomIs(l, i, trade, room)
  {
    hide ConfigOf, DeterminePhase;
    var c := ConfigOf(DeterminePhase(i.safeBalance, i.windowsTraded));
    var unreserved := if i.btc5mVolume < i.safeBalance then i.safeBalance - i.btc5mVolume else 0.0;
    assert RoomIs(l, i, unreserved * c.maxPerTradePct, unreserved * c.maxExposureRatio - l.exposure);
  }

  lemma BetsIff(cfg: Config, l: Ledger, i: Input, n: int)
    requires l.exposure >= 0.0
    ensures var s := i.signal;
            Bets(cfg, l, i, n) <==>
            BetSize(s.confidence, s.currentAsk, s.liquidity, cfg.takerFeeBps, PortfolioFor(l, i)) == Some(n) && n > 0
  {
    var s, p := i.signal, PortfolioFor(l, i);
    var c := ConfigOf(p.phase);
    var edge := s.confidence - cfg.takerFeeBps / 10_000.0 - s.currentAsk;
    KellyBetBounds(s.confidence, s.currentAsk, p.availableCapital, c.kellyMultiplier, c.maxPerTradePct, s.liquidity, cfg.takerFeeBps);
    hide KellyBetSize, KellyBet, ConfigOf, DeterminePhase;
    if s.currentAsk <= 1.0 && edge > 0.0 && l.exposure < i.safeBalance {
      forall bet
        ensures KellyBet(edge, s.currentAsk, p.availableCapital, c.kellyMultiplier, c.maxPerTradePct, s.liquidity, bet) <==>
                KellyBetSize(s.confidence, s.currentAsk, p.availableCapital, c.kellyMultiplier, c.maxPerTradePct, s.liquidity,
                             cfg.takerFeeBps) == Some(bet)
      {
        PhasePositive(p.phase);
        KellyBetIff(s.confidence, s.currentAsk, p.availableCapital, c.kellyMultiplier, c.maxPerTradePct, s.liquidity,
                    cfg.takerFeeBps, bet);
      }
    }
  }

  lemma PhasePositive(p: Phase)
    ensures ConfigOf(p).kellyMultiplier > 0.0 && 0.0 < ConfigOf(p).maxDrawdown < 1.0
  {
  }

  /** The checks on a Kelly size, which no other cap touches. */
  lemma ChecksIff(cfg: Config, l: Ledger, i: Input, n: int, trade: real, room: real, size: real)
    requires Balanced(l) && n > 0 && RoomIs(l, i, trade, room)
    requires BetSize(i.signal.confidence, i.signal.currentAsk, i.signal.liquidity, cfg.takerFeeBps, PortfolioFor(l, i)) == Some(n)
    ensures var s := i.signal;
            var r := RunAllChecks(PortfolioFor(l, i), n as real, s.source, VerticalCost(l, s.source), i.btc5mVolume);
            BooksPermit(l, i) && Fits(n, trade, room, size) <==> r.Passed? && FinalSize(r, n as real) == size && size > 0.0
  {
    var s, p := i.signal, PortfolioFor(l, i);
    hide BetSize, RunAllChecks, FinalSize, BooksPermit, BooksAllow, Balanced, VerticalCost, ConfigOf, DeterminePhase;
    hide CheckPerTradeCap, CheckPerMarketCap, CutToTrade, Holds, MaxExposure, RoomIs, Fits;
    ExposureNotNegative(l);
    KellySizedWithinCaps(s.confidence, s.currentAsk, s.liquidity, cfg.takerFeeBps, i.safeBalance, l.exposure, i.peak, i.dailyLoss,
                         i.windowsTraded);
    PassedIff(p, n as real, s.source, VerticalCost(l, s.source), i.btc5mVolume);
    PermitIff(l, i);
    CapsLeave(p, n as real);
    HoldsIff(l, i, n, trade, room, size);
  }

  lemma CapsLeave(p: Portfolio, size: real)
    requires CheckPerTradeCap(p, size) == Passed(None) && CheckPerMarketCap(p, size) == Passed(None)
    ensures CutToTrade(p, size) == size && size * 10.0 <= p.safeBalance * 3.0
  {
    hide ConfigOf;
  }

  lemma HoldsIff(l: Ledger, i: Input, n: int, trade: real, room: real, size: real)
    requires RoomIs(l, i, trade, room)
    ensures room == MaxExposure(PortfolioFor(l, i), i.btc5mVolume) - l.exposure
    ensures Fits(n, trade, room, size) <==>
            && Holds(PortfolioFor(l, i), n as real, room, i.btc5mVolume) && size > 0.0
            && size == if n as real <= room then n as real else room.Floor as real
  {
    hide ConfigOf, DeterminePhase;
  }

  lemma PermitIff(l: Ledger, i: Input)
    requires l.exposure >= 0.0 && VerticalCost(l, i.signal.source) >= 0.0
    ensures BooksPermit(l, i) <==> BooksAllow(PortfolioFor(l, i), i.signal.source, VerticalCost(l, i.signal.source))
  {
    hide VerticalCost, ConfigOf, DeterminePhase;
    PhasePositive(DeterminePhase(i.safeBalance, i.windowsTraded));
    BelowItself(i.safeBalance, ConfigOf(DeterminePhase(i.safeBalance, i.windowsTraded)).maxDrawdown);
  }

  lemma BelowItself(balance: real, drawdown: real)
    requires drawdown > 0.0
    ensures balance > 0.0 ==> balance > balance * (1.0 - drawdown)
  {
    if balance > 0.0 {
      assert balance * drawdown > 0.0;
    }
  }

  function AcceptedCount(outcomes: seq<Outcome>): (k: nat)
    ensures k <= |outcomes| && (forall j :: 0 <= j < k ==> outcomes[j].Accepted?) && (k < |outcomes| ==> !outcomes[k].Accepted?)
  {
    if |outcomes| == 0 || !outcomes[0].Accepted? then 0 else 1 + AcceptedCount(outcomes[1..])
  }

  function SharesFor(size: real, ask: real): int {
    if ask > 0.0 then (size / ask).Floor else 0
  }

  function EntryCost(shares: nat, ask: real): real {
    shares as real * ask
  }

  /** Shares bought: all of them in a dry run, else as many full chunks as are accepted in a row, up to the order. */
  function Bought(cfg: Config, shares: nat, outcomes: seq<Outcome>): nat {
    if cfg.dryRun then shares else Min(shares, AcceptedCount(outcomes) * cfg.maxOrderShares)
  }

  /** Of the whole shares the size pays for, all in a dry run, else those in the first chunks accepted in a row. */
  ghost predicate Fills(cfg: Config, size: real, i: Input, shares: nat) {
    exists whole: nat, chunks: nat ::
      && whole as real * i.signal.currentAsk <= size < (whole + 1) as real * i.signal.currentAsk
      && FillsOf(cfg, i.outcomes, whole, chunks, shares)
  }

  predicate FillsOf(cfg: Config, outcomes: seq<Outcome>, whole: nat, chunks: nat, shares: nat) {
    if cfg.dryRun then shares == whole
    else
      && chunks <= |outcomes| && (forall k :: 0 <= k < chunks ==> outcomes[k] == Accepted)
      && (chunks < |outcomes| ==> outcomes[chunks] != Accepted)
      && (shares == whole <= chunks * cfg.maxOrderShares || shares == chunks * cfg.maxOrderShares <= whole)
  }

  /** Shares are bought exactly when the size pays for one and, outside a dry run, the first chunk is accepted; and how many. */
  lemma BoughtIs(cfg: Config, size: real, i: Input, shares: nat)
    requires cfg.Valid() && size > 0.0
    ensures var ask := i.signal.currentAsk;
            && (SharesFor(size, ask) > 0 <==> 0.0 < ask <= size)
            && (0.0 < ask ==> SharesFor(size, ask) >= 0)
            && (0.0 < ask <= size ==>
                  && (Bought(cfg, SharesFor(size, ask), i.outcomes) > 0 <==>
                      cfg.dryRun || (|i.outcomes| > 0 && i.outcomes[0] == Accepted))
                  && (shares == Bought(cfg, SharesFor(size, ask), i.outcomes) <==> Fills(cfg, size, i, shares)))
  {
    var ask := i.signal.currentAsk;
    hide AcceptedCount, FillsOf;
    if ask > 0.0 {
      WholeShares(size, ask, 1);
      WholeShares(size, ask, 0);
    }
    if 0.0 < ask <= size {
      FirstAccepted(cfg, SharesFor(size, ask), i.outcomes);
      FillsIff(cfg, size, i, shares);
    }
  }

  lemma FirstAccepted(cfg: Config, whole: nat, outcomes: seq<Outcome>)
    requires cfg.Valid() && whole > 0
    ensures Bought(cfg, whole, outcomes) > 0 <==> cfg.dryRun || (|outcomes| > 0 && outcomes[0] == Accepted)
  {
    AtLeastOneChunk(AcceptedCount(outcomes), cfg.maxOrderShares);
  }

  lemma FillsIff(cfg: Config, size: real, i: Input, shares: nat)
    requires 0.0 < i.signal.currentAsk <= size
    ensures SharesFor(size, i.signal.currentAsk) >= 0
    ensures shares == Bought(cfg, SharesFor(size, i.signal.currentAsk), i.outcomes) <==> Fills(cfg, size, i, shares)
  {
    hide AcceptedCount, FillsOf, Bought, SharesFor;
    var ask := i.signal.currentAsk;
    var whole := SharesFor(size, ask);
    WholeShares(size, ask, 0);
    WholeShares(size, ask, whole);
    WholeShares(size, ask, whole + 1);
    OneFill(cfg, i.outcomes, whole, AcceptedCount(i.outcomes), Bought(cfg, whole, i.outcomes));
    forall w: nat, c: nat | w as real * ask <= size < (w + 1) as real * ask && FillsOf(cfg, i.outcomes, w, c, shares)
      ensures shares == Bought(cfg, whole, i.outcomes)
    {
      WholeShares(size, ask, w);
      WholeShares(size, ask, w + 1);
      OneFill(cfg, i.outcomes, w, c, shares);
    }
  }

  lemma OneFill(cfg: Config, outcomes: seq<Outcome>, whole: nat, chunks: nat, shares: nat)
    ensures FillsOf(cfg, outcomes, whole, chunks, shares) ==> shares == Bought(cfg, whole, outcomes)
    ensures FillsOf(cfg, outcomes, whole, AcceptedCount(outcomes), Bought(cfg, whole, outcomes))
  {
    var all := AcceptedCount(outcomes);
    if FillsOf(cfg, outcomes, whole, chunks, shares) && !cfg.dryRun {
      assert chunks == all;
    }
  }

  lemma WholeShares(size: real, ask: real, n: int)
    requires ask > 0.0
    ensures n <= SharesFor(size, ask) <==> n as real * ask <= size
  {
    var q := size / ask;
    assert q * ask == size;
    if n as real <= q {
      assert n as real * ask <= q * ask;
    } else {
      assert n as real * ask > q * ask;
    }
  }

  lemma AtLeastOneChunk(chunks: nat, size: nat)
    requires size > 0
    ensures chunks * size > 0 <==> chunks > 0
  {
  }

  /** The submission loop. */
  method SubmitChunks(cfg: Config, totalShares: nat, outcomes: seq<Outcome>) returns (filledShares: nat)
    requires cfg.Valid() && !cfg.dryRun
    ensures filledShares == Bought(cfg, totalShares, outcomes)
  {
    filledShares := 0;
    var remainingShares, next: nat := totalShares, 0;
    while remainingShares > 0 && next < |outcomes|
      invariant next <= |outcomes| && remainingShares == totalShares - filledShares
      invariant filledShares == Min(totalShares, next * cfg.maxOrderShares)
      invariant AcceptedCount(outcomes) == next + AcceptedCount(outcomes[next..])
      decreases |outcomes| - next
    {
      var chunkShares := Min(remainingShares, cfg.maxOrderShares);
      if !outcomes[next].Accepted? {
        break;
      }
      assert outcomes[next..][1..] == outcomes[next + 1..];
      assert (next + 1) * cfg.maxOrderShares == next * cfg.maxOrderShares + cfg.maxOrderShares;
      filledShares := filledShares + chunkShares;
      remainingShares := remainingShares - chunkShares;
      next := next + 1;
    }
    if remainingShares == 0 {
      MoreChunks(next, AcceptedCount(outcomes), cfg.maxOrderShares);
    }
  }

  lemma MoreChunks(a: nat, b: nat, size: nat)
    requires a <= b
    ensures a * size <= b * size
  {
  }

  /** The position a signal leads to, if any. */
  ghost function NewPosition(cfg: Config, st: State, i: Input): Option<Position>
    requires cfg.Valid()
  {
    var size := Size(cfg, st, i);
    if !i.masterOn || !i.alphaOn || size.None? || SharesFor(size.value, i.signal.currentAsk) <= 0 then None
    else
      var filled := Bought(cfg, SharesFor(size.value, i.signal.currentAsk), i.outcomes);
      if filled == 0 then None
      else Some(Position(i.signal.marketId, filled, i.signal.currentAsk, EntryCost(filled, i.signal.currentAsk), i.signal.source))
  }

  /** The state after a signal. */
  ghost function Handled(cfg: Config, st: State, i: Input): State
    requires cfg.Valid()
  {
    if !i.masterOn || !i.alphaOn then st
    else
      var p := NewPosition(cfg, st, i);
      State(if p.Some? then Opened(st.ledger, p.value) else st.ledger, Remembered(cfg, st, i))
  }

  /** A signal opens a position: the switches are on, it is accepted with a size that pays for at least one share, and,
      outside a dry run, its first chunk is accepted; the position is the shares filled, at the ask. */
  ghost predicate Opens(cfg: Config, st: State, i: Input, p: Position) {
    i.masterOn && i.alphaOn && exists size :: Accepts(cfg, st, i, size) && Buys(cfg, i, size, p)
  }

  ghost predicate Buys(cfg: Config, i: Input, size: real, p: Position) {
    && 0.0 < i.signal.currentAsk <= size && (cfg.dryRun || (|i.outcomes| > 0 && i.outcomes[0] == Accepted))
    && Fills(cfg, size, i, p.shares)
    && p == Position(i.signal.marketId, p.shares, i.signal.currentAsk, p.shares as real * i.signal.currentAsk, i.signal.source)
  }

  /** A market that was not open is open after a signal exactly when the signal opens that position, and nothing else in the
      ledger changes. */
  lemma OpensIff(cfg: Config, st: State, i: Input, p: Position)
    requires cfg.Valid() && Balanced(st.ledger)
    ensures var m, after := i.signal.marketId, Handled(cfg, st, i).ledger;
            && (Opens(cfg, st, i, p) <==> m !in st.ledger.open && m in after.open && after.open[m] == p)
            && after == if m !in st.ledger.open && m in after.open then Opened(st.ledger, after.open[m]) else st.ledger
  {
    hide Size, Accepts, Balanced, Bought, SharesFor, Fills;
    var size := Size(cfg, st, i);
    forall z
      ensures size == Some(z) <==> Accepts(cfg, st, i, z)
    {
      SizeIff(cfg, st, i, z);
    }
    if size.Some? {
      AcceptedIsNew(cfg, st, i, size.value);
      BoughtIs(cfg, size.value, i, p.shares);
    }
  }

  lemma AcceptedIsNew(cfg: Config, st: State, i: Input, size: real)
    requires Accepts(cfg, st, i, size)
    ensures i.signal.marketId !in st.ledger.open && size > 0.0
  {
    hide Bets, BooksPermit, RoomIs;
  }

  function Pruned(recent: map<string, int>, now: int): map<string, int> {
    map m | m in recent && now - recent[m] <= DEDUP_WINDOW_MS :: recent[m]
  }

  /** What an accepted trade costs is at most the size that passed the checks, so right after it the exposure is at most the
      phase's share of the balance not reserved for the latency bot; and the market was not open before. */
  lemma TradeWithinCap(cfg: Config, st: State, i: Input)
    requires cfg.Valid() && NewPosition(cfg, st, i).Some?
    ensures var p := NewPosition(cfg, st, i).value;
            && p.marketId !in st.ledger.open && 0.0 < p.entryCost <= Size(cfg, st, i).value
            && Handled(cfg, st, i).ledger.exposure <= MaxExposure(PortfolioFor(st.ledger, i), i.btc5mVolume)
  {
    hide MaxExposure, RunAllChecks, BetSize;
    var p, size := NewPosition(cfg, st, i).value, Size(cfg, st, i).value;
    var s := PortfolioFor(st.ledger, i);
    var bet := BetSize(i.signal.confidence, i.signal.currentAsk, i.signal.liquidity, cfg.takerFeeBps, s).value as real;
    SharesCost(size, i.signal.currentAsk, p.shares);
    PassedWithinExposureCap(s, bet, i.signal.source, VerticalCost(st.ledger, i.signal.source), i.btc5mVolume);
  }

  lemma SharesCost(size: real, ask: real, filled: nat)
    requires 0 < filled <= SharesFor(size, ask)
    ensures 0.0 < EntryCost(filled, ask) <= size
  {
    assert filled as real <= size / ask;
    assert size / ask * ask == size;
  }

  // Whole runs

  datatype Step = Message(input: Input) | Close(marketId: string) | Prune(now: int)

  ghost predicate Allowed(s: Step) {
    s.Message? ==> s.input.validatedAt <= s.input.checkedAt <= s.input.recordedAt
  }

  function StartOf(s: Step, last: int): int {
    match s
    case Message(i) => i.validatedAt
    case Close(_) => last
    case Prune(now) => now
  }

  function EndOf(s: Step, last: int): int {
    match s
    case Message(i) => i.recordedAt
    case Close(_) => last
    case Prune(now) => now
  }

  function ClockAfter(start: int, steps: seq<Step>): int {
    if |steps| == 0 then start else EndOf(steps[|steps| - 1], ClockAfter(start, steps[..|steps| - 1]))
  }

  /** Steps one after the other on a clock that does not go back. */
  ghost predicate Sequential(start: int, steps: seq<Step>) {
    |steps| > 0 ==>
      var rest, s := steps[..|steps| - 1], steps[|steps| - 1];
      Sequential(start, rest) && Allowed(s) && ClockAfter(start, rest) <= StartOf(s, ClockAfter(start, rest))
  }

  ghost function Stepped(cfg: Config, st: State, s: Step): State
    requires cfg.Valid() && Allowed(s)
  {
    match s
    case Message(i) => Handled(cfg, st, i)
    case Close(id) => State(Closed(st.ledger, id), st.recent)
    case Prune(now) => State(st.ledger, Pruned(st.recent, now))
  }

  ghost function After(cfg: Config, st: State, start: int, steps: seq<Step>): State
    requires cfg.Valid() && Sequential(start, steps)
  {
    if |steps| == 0 then st else Stepped(cfg, After(cfg, st, start, steps[..|steps| - 1]), steps[|steps| - 1])
  }

  /** In every reachable state the exposure counter is the sum of the open entry costs and of the five verticals. */
  lemma {:induction false} RunBalanced(cfg: Config, st: State, start: int, steps: seq<Step>)
    requires cfg.Valid() && Sequential(start, steps) && Balanced(st.ledger)
    ensures var l := After(cfg, st, start, steps).ledger;
            && Balanced(l) && l.exposure == TotalCost(l.open) == VerticalsUpTo(l, |SOURCES|) && l.exposure >= 0.0
  {
    hide Balanced, Size;
    if |steps| > 0 {
      var rest, s := steps[..|steps| - 1], steps[|steps| - 1];
      RunBalanced(cfg, st, start, rest);
      var before := After(cfg, st, start, rest);
      if s.Message? && NewPosition(cfg, before, s.input).Some? && s.input.masterOn && s.input.alphaOn {
        TradeWithinCap(cfg, before, s.input);
        OpeningBalancedIff(before.ledger, NewPosition(cfg, before, s.input).value);
      } else if s.Close? {
        ClosingBalanced(before.ledger, s.marketId);
      }
    }
    var l := After(cfg, st, start, steps).ledger;
    ExposureIsSumOfVerticals(l);
    BalancedCounter(l);
  }

  lemma BalancedCounter(l: Ledger)
    requires Balanced(l)
    ensures l.exposure == TotalCost(l.open)
  {
  }

  /** Exposure over runs: right after each accepted trade of any run the exposure, still the sum of the open entry costs, is
      at most the cap. */
  lemma RunWithinCap(cfg: Config, st: State, start: int, steps: seq<Step>)
    requires cfg.Valid() && Sequential(start, steps) && Balanced(st.ledger)
    requires |steps| > 0 && steps[|steps| - 1].Message?
    requires NewPosition(cfg, After(cfg, st, start, steps[..|steps| - 1]), steps[|steps| - 1].input).Some?
    ensures var before, i := After(cfg, st, start, steps[..|steps| - 1]), steps[|steps| - 1].input;
            TotalCost(After(cfg, st, start, steps).ledger.open) <= MaxExposure(PortfolioFor(before.ledger, i), i.btc5mVolume)
  {
    hide Balanced, Size, MaxExposure;
    RunBalanced(cfg, st, start, steps);
    TradeWithinCap(cfg, After(cfg, st, start, steps[..|steps| - 1]), steps[|steps| - 1].input);
  }

  /** In every reachable state the Kelly size passes the per-trade and per-market checks untouched. */
  lemma RunSizedWithinCaps(cfg: Config, st: State, start: int, steps: seq<Step>, i: Input)
    requires cfg.Valid() && Sequential(start, steps) && Balanced(st.ledger)
    ensures var p := PortfolioFor(After(cfg, st, start, steps).ledger, i);
            var size := BetSize(i.signal.confidence, i.signal.currentAsk, i.signal.liquidity, cfg.takerFeeBps, p);
            size.Some? && size.value > 0 ==>
              CheckPerTradeCap(p, size.value as real) == Passed(None) && CheckPerMarketCap(p, size.value as real) == Passed(None)
  {
    hide Balanced, Sequential, After;
    RunBalanced(cfg, st, start, steps);
    KellySizedWithinCaps(i.signal.confidence, i.signal.currentAsk, i.signal.liquidity, cfg.takerFeeBps, i.safeBalance,
                         After(cfg, st, start, steps).ledger.exposure, i.peak, i.dailyLoss, i.windowsTraded);
  }

  /** The n-th step of a run is a signal processSignal accepts. */
  ghost predicate Executes(cfg: Config, st: State, start: int, steps: seq<Step>, n: nat)
    requires cfg.Valid()
  {
    && n < |steps| && Sequential(start, steps[..n]) && Allowed(steps[n]) && steps[n].Message?
    && steps[n].input.masterOn && steps[n].input.alphaOn
    && Size(cfg, After(cfg, st, start, steps[..n]), steps[n].input).Some?
  }

  lemma {:induction false} SequentialPrefix(start: int, steps: seq<Step>, n: nat)
    requires Sequential(start, steps) && n <= |steps|
    ensures Sequential(start, steps[..n]) && (n < |steps| ==> Allowed(steps[n]))
    ensures n < |steps| ==> ClockAfter(start, steps[..n]) <= StartOf(steps[n], ClockAfter(start, steps[..n]))
    decreases |steps|
  {
    if n < |steps| {
      var rest := steps[..|steps| - 1];
      if n < |rest| {
        SequentialPrefix(start, rest, n);
        assert rest[..n] == steps[..n];
      }
    } else {
      assert steps[..n] == steps;
    }
  }

  lemma SizeMeans(cfg: Config, st: State, i: Input)
    requires cfg.Valid() && Size(cfg, st, i).Some?
    ensures Fresh(i.signal, i.validatedAt) && !Duplicate(st.recent, i.signal.marketId, i.checkedAt)
  {
  }

  /** After an accepted signal its market stays remembered at the recorded time until more than the window has passed. */
  lemma {:induction false} Remembers(cfg: Config, st: State, start: int, steps: seq<Step>, n: nat, k: nat)
    requires cfg.Valid() && Sequential(start, steps) && Executes(cfg, st, start, steps, n) && n < k <= |steps|
    ensures Sequential(start, steps[..k])
    ensures var recent, m, t := After(cfg, st, start, steps[..k]).recent, steps[n].input.signal.marketId, steps[n].input.recordedAt;
            (m in recent && recent[m] == t) || ClockAfter(start, steps[..k]) - t > 5_000
    decreases k
  {
    hide Size;
    SequentialPrefix(start, steps, k);
    SequentialPrefix(start, steps, k - 1);
    assert steps[..k][..k - 1] == steps[..k - 1];
    if k - 1 > n {
      Remembers(cfg, st, start, steps, n, k - 1);
    } else {
      SizeMeans(cfg, After(cfg, st, start, steps[..n]), steps[n].input);
    }
  }

  /** Deduplication over runs: two accepted signals for the same market are more than the window apart. */
  lemma AcceptedSignalsSpaced(cfg: Config, st: State, start: int, steps: seq<Step>, n: nat, k: nat)
    requires cfg.Valid() && Sequential(start, steps)
    requires n < k && Executes(cfg, st, start, steps, n) && Executes(cfg, st, start, steps, k)
    requires steps[n].input.signal.marketId == steps[k].input.signal.marketId
    ensures steps[k].input.checkedAt - steps[n].input.recordedAt > 5_000
  {
    Remembers(cfg, st, start, steps, n, k);
    SequentialPrefix(start, steps, k);
  }

  /** The n-th step of a run is an accepted signal, said on the run itself: the switches are on, the signal is in time, has an
      edge, a confidence above the ask and liquidity, every accepted signal for its market was recorded more than five
      seconds before, the market is not open, and the books of that moment make a size. */
  ghost predicate AcceptedAt(cfg: Config, st: State, start: int, steps: seq<Step>, n: nat)
    requires cfg.Valid()
  {
    && n < |steps| && Sequential(start, steps[..n]) && Allowed(steps[n]) && steps[n].Message?
    && var i, l := steps[n].input, After(cfg, st, start, steps[..n]).ledger;
    && i.masterOn && i.alphaOn && i.validatedAt - i.signal.timestampMs <= i.signal.ttlMs
    && i.signal.edge > 0.0 && i.signal.confidence > i.signal.currentAsk && i.signal.liquidity > 0.0
    && i.signal.marketId !in l.open
    && (exists size :: Sized(cfg, l, i, size))
    && (forall k :: 0 <= k < n && AcceptedAt(cfg, st, start, steps, k) && steps[k].input.signal.marketId == i.signal.marketId ==>
                    i.checkedAt - steps[k].input.recordedAt > 5_000)
  }

  /** What the service remembers of a market is the time an accepted signal for it was recorded. */
  lemma {:induction false} RememberedFromRun(cfg: Config, st: State, start: int, steps: seq<Step>, n: nat, market: string)
    returns (k: nat)
    requires cfg.Valid() && Sequential(start, steps) && n <= |steps| && st.recent == map[]
    requires Sequential(start, steps[..n]) && market in After(cfg, st, start, steps[..n]).recent
    ensures k < n && Executes(cfg, st, start, steps, k) && steps[k].input.signal.marketId == market
    ensures steps[k].input.recordedAt == After(cfg, st, start, steps[..n]).recent[market]
  {
    hide Size, Fresh, Duplicate, NewPosition;
    SequentialPrefix(start, steps, n - 1);
    assert steps[..n][..n - 1] == steps[..n - 1];
    var before, s := After(cfg, st, start, steps[..n - 1]), steps[n - 1];
    if s.Message? && Executes(cfg, st, start, steps, n - 1) && s.input.signal.marketId == market {
      k := n - 1;
      SizeMeans(cfg, before, s.input);
    } else {
      k := RememberedFromRun(cfg, st, start, steps, n - 1, market);
    }
  }

  /** In a run from a start with nothing remembered, the accepted signals are those that meet the conditions. */
  lemma {:induction false} AcceptedAtIff(cfg: Config, st: State, start: int, steps: seq<Step>, n: nat)
    requires cfg.Valid() && Sequential(start, steps) && Balanced(st.ledger) && st.recent == map[] && n < |steps|
    ensures AcceptedAt(cfg, st, start, steps, n) <==> Executes(cfg, st, start, steps, n)
  {
    hide Size, Sized, Balanced, After, Sequential;
    SequentialPrefix(start, steps, n);
    if steps[n].Message? {
      var before, i := After(cfg, st, start, steps[..n]), steps[n].input;
      RunBalanced(cfg, st, start, steps[..n]);
      SizeIffAny(cfg, before, i);
      forall k | 0 <= k < n
        ensures AcceptedAt(cfg, st, start, steps, k) <==> Executes(cfg, st, start, steps, k)
      {
        AcceptedAtIff(cfg, st, start, steps, k);
      }
      RecentInRun(cfg, st, start, steps, n);
      if AcceptedAt(cfg, st, start, steps, n) {
        var size :| Sized(cfg, before.ledger, i, size);
        assert Accepts(cfg, before, i, size);
      }
    }
  }

  lemma SizeIffAny(cfg: Config, st: State, i: Input)
    requires cfg.Valid() && Balanced(st.ledger)
    ensures Size(cfg, st, i).Some? <==> exists size :: Accepts(cfg, st, i, size)
  {
    hide Size, Accepts, Balanced;
    if Size(cfg, st, i).Some? {
      SizeIff(cfg, st, i, Size(cfg, st, i).value);
    }
    if size :| Accepts(cfg, st, i, size) {
      SizeIff(cfg, st, i, size);
    }
  }

  /** An accepted signal found every earlier one for its market too old; and if all are, none is remembered as too young. */
  lemma RecentInRun(cfg: Config, st: State, start: int, steps: seq<Step>, n: nat)
    requires cfg.Valid() && Sequential(start, steps) && st.recent == map[] && n < |steps| && steps[n].Message?
    requires Sequential(start, steps[..n])
    ensures var recent, i := After(cfg, st, start, steps[..n]).recent, steps[n].input;
            (i.signal.marketId in recent ==> i.checkedAt - recent[i.signal.marketId] > 5_000) <==>
            (forall k :: 0 <= k < n && Executes(cfg, st, start, steps, k)
                         && steps[k].input.signal.marketId == i.signal.marketId ==>
                         i.checkedAt - steps[k].input.recordedAt > 5_000)
  {
    hide Size, After;
    var recent, i := After(cfg, st, start, steps[..n]).recent, steps[n].input;
    SequentialPrefix(start, steps, n);
    if i.signal.marketId in recent {
      var k := RememberedFromRun(cfg, st, start, steps, n, i.signal.marketId);
    }
    forall k | 0 <= k < n && Executes(cfg, st, start, steps, k) && steps[k].input.signal.marketId == i.signal.marketId
      ensures (i.signal.marketId in recent && recent[i.signal.marketId] == steps[k].input.recordedAt)
              || i.checkedAt - steps[k].input.recordedAt > 5_000
    {
      Remembers(cfg, st, start, steps, k, n);
    }
  }

  /** Over any run from a start with nothing remembered, a message leaves its market open that was not open before exactly
      when it is an accepted signal whose size pays for a share and, outside a dry run, whose first chunk is accepted. The
      position is what was bought, and only that market changes. */
  lemma MessageOpensIff(cfg: Config, st: State, start: int, steps: seq<Step>, n: nat, p: Position)
    requires cfg.Valid() && Sequential(start, steps) && Balanced(st.ledger) && st.recent == map[]
    requires n < |steps| && steps[n].Message?
    ensures Sequential(start, steps[..n]) && Sequential(start, steps[..n + 1])
    ensures var i, before, after := steps[n].input, After(cfg, st, start, steps[..n]).ledger, After(cfg, st, start, steps[..n + 1]).ledger;
            var m := i.signal.marketId;
            && (m !in before.open && m in after.open && after.open[m] == p <==>
                AcceptedAt(cfg, st, start, steps, n) && exists size :: Sized(cfg, before, i, size) && Buys(cfg, i, size, p))
            && after == if m !in before.open && m in after.open then Opened(before, after.open[m]) else before
  {
    hide Size, Sized, Buys, Balanced, After, Sequential;
    SequentialPrefix(start, steps, n);
    SequentialPrefix(start, steps, n + 1);
    LastStep(cfg, st, start, steps, n);
    var before, i := After(cfg, st, start, steps[..n]), steps[n].input;
    RunBalanced(cfg, st, start, steps[..n]);
    OpensIff(cfg, before, i, p);
    AcceptedAtIff(cfg, st, start, steps, n);
    SizeIffAny(cfg, before, i);
  }

  lemma LastStep(cfg: Config, st: State, start: int, steps: seq<Step>, n: nat)
    requires cfg.Valid() && n < |steps| && Sequential(start, steps[..n]) && Sequential(start, steps[..n + 1]) && Allowed(steps[n])
    ensures After(cfg, st, start, steps[..n + 1]) == Stepped(cfg, After(cfg, st, start, steps[..n]), steps[n])
  {
    assert steps[..n + 1][..n] == steps[..n];
  }

  // The service as an object

  class AlphaService {
    const cfg: Config
    const positions: PositionManager
    var recentSignals: map<string, int>

    constructor (cfg: Config)
      requires cfg.Valid()
      ensures this.cfg == cfg && fresh(positions) && View() == State(Ledger(map[], 0.0, map[]), map[])
    {
      this.cfg, recentSignals := cfg, map[];
      positions := new PositionManager();
    }

    ghost function View(): State
      reads this, positions
    {
      State(positions.View(), recentSignals)
    }

    /** Is there a signal for the market within the window? Drops an older one. */
    method IsDuplicate(market: string, now: int) returns (r: bool)
      modifies this
      ensures r <==> market in old(recentSignals) && now - old(recentSignals)[market] <= 5_000
      ensures recentSignals == if r then old(recentSignals) else old(recentSignals) - {market}
    {
      if market !in recentSignals {
        return false;
      }
      if now - recentSignals[market] > DEDUP_WINDOW_MS {
        recentSignals := recentSignals - {market};
        return false;
      }
      return true;
    }

    method PruneStaleEntries(now: int)
      modifies this
      ensures View() == State(old(View()).ledger, Pruned(old(recentSignals), now))
      ensures forall m :: m in recentSignals <==> m in old(recentSignals) && now - old(recentSignals)[m] <= 5_000
      ensures forall m :: m in recentSignals ==> recentSignals[m] == old(recentSignals)[m]
    {
      var keys := recentSignals.Keys;
      ghost var all := recentSignals;
      while keys != {}
        invariant keys <= all.Keys && recentSignals.Keys <= all.Keys && positions.View() == old(positions.View())
        invariant forall m :: m in recentSignals ==> recentSignals[m] == all[m]
        invariant forall m :: m in all ==> (m in recentSignals <==> m in keys || now - all[m] <= DEDUP_WINDOW_MS)
        decreases keys
      {
        var m :| m in keys;
        if now - recentSignals[m] > DEDUP_WINDOW_MS {
          recentSignals := recentSignals - {m};
        }
        keys := keys - {m};
      }
      assert recentSignals == Pruned(all, now);
    }

    method ProcessSignal(i: Input, p: Portfolio) returns (size: Option<real>)
      requires cfg.Valid() && p == PortfolioFor(positions.View(), i)
      modifies this
      ensures size == Size(cfg, old(View()), i) && recentSignals == Remembered(cfg, old(View()), i)
      ensures Balanced(old(View()).ledger) ==> forall z :: size == Some(z) <==> Accepts(cfg, old(View()), i, z)
      ensures RemembersAfter(old(recentSignals), recentSignals, i, size.Some?)
    {
      hide RunAllChecks, BetSize, VerticalCost, Balanced, Accepts;
      SizeIffHere(cfg, View(), i);
      var s := i.signal;
      if !Fresh(s, i.validatedAt) {
        return None;
      }
      var duplicate := IsDuplicate(s.marketId, i.checkedAt);
      if duplicate {
        return None;
      }
      var held := positions.HasPosition(s.marketId);
      if held {
        return None;
      }
      var bet := BetSize(s.confidence, s.currentAsk, s.liquidity, cfg.takerFeeBps, p);
      if bet.None? || bet.value <= 0 {
        return None;
      }
      var verticalExposure := positions.GetVerticalExposure(s.source);
      var checks := RunAllChecks(p, bet.value as real, s.source, verticalExposure, i.btc5mVolume);
      if checks.Rejected? {
        return None;
      }
      var finalSize := FinalSize(checks, bet.value as real);
      if finalSize <= 0.0 {
        return None;
      }
      recentSignals := recentSignals[s.marketId := i.recordedAt];
      return Some(finalSize);
    }

    method HandleSignal(i: Input)
      requires cfg.Valid()
      modifies this, positions
      ensures View() == Handled(cfg, old(View()), i)
      ensures var m := i.signal.marketId;
              Balanced(old(View()).ledger) && m !in old(positions.open) ==>
                && (forall p :: m in positions.open && positions.open[m] == p <==> Opens(cfg, old(View()), i, p))
                && positions.View() ==
                   if m in positions.open then Opened(old(positions.View()), positions.open[m]) else old(positions.View())
    {
      hide Size, Remembered, Bought, Opened, EntryCost, Balanced, Opens;
      OpensIffHere(cfg, View(), i);
      if !i.masterOn || !i.alphaOn {
        return;
      }
      var totalExposure := positions.exposure;
      var portfolio := PortfolioOf(i.safeBalance, totalExposure, i.peak, i.dailyLoss, i.windowsTraded);
      var size := ProcessSignal(i, portfolio);
      if size.None? {
        return;
      }
      var ask := i.signal.currentAsk;
      var totalShares := SharesFor(size.value, ask);
      if totalShares <= 0 {
        return;
      }
      var filledShares: nat;
      if cfg.dryRun {
        filledShares := totalShares;
        DryRunBuysAll(cfg, totalShares, i.outcomes);
      } else {
        filledShares := SubmitChunks(cfg, totalShares, i.outcomes);
      }
      if filledShares <= 0 {
        return;
      }
      PositionIs(cfg, old(View()), i, size.value, filledShares);
      positions.OpenPosition(Position(i.signal.marketId, filledShares, ask, EntryCost(filledShares, ask), i.signal.source));
    }
  }

  /** An accepted signal is remembered at its time; looked at and not accepted, it drops an entry past the window. */
  ghost predicate RemembersAfter(before: map<string, int>, after: map<string, int>, i: Input, accepted: bool) {
    var m := i.signal.marketId;
    var looked := i.validatedAt - i.signal.timestampMs <= i.signal.ttlMs && i.signal.edge > 0.0
                  && i.signal.confidence > i.signal.currentAsk && i.signal.liquidity > 0.0;
    after == if accepted then before[m := i.recordedAt]
             else if looked && m in before && i.checkedAt - before[m] > 5_000 then before - {m} else before
  }

  lemma SizeIffHere(cfg: Config, st: State, i: Input)
    requires cfg.Valid()
    ensures Balanced(st.ledger) ==> forall z :: Size(cfg, st, i) == Some(z) <==> Accepts(cfg, st, i, z)
    ensures RemembersAfter(st.recent, Remembered(cfg, st, i), i, Size(cfg, st, i).Some?)
  {
    hide Balanced, Accepts, BetSize, RunAllChecks, VerticalCost, Size;
    RemembersThis(cfg, st, i);
    if Balanced(st.ledger) {
      forall z
        ensures Size(cfg, st, i) == Some(z) <==> Accepts(cfg, st, i, z)
      {
        SizeIff(cfg, st, i, z);
      }
    }
  }

  lemma RemembersThis(cfg: Config, st: State, i: Input)
    requires cfg.Valid()
    ensures RemembersAfter(st.recent, Remembered(cfg, st, i), i, Size(cfg, st, i).Some?)
  {
    hide BetSize, RunAllChecks, VerticalCost;
    var m := i.signal.marketId;
    if m !in st.recent {
      assert st.recent - {m} == st.recent;
    }
  }

  lemma OpensIffHere(cfg: Config, st: State, i: Input)
    requires cfg.Valid()
    ensures var m, after := i.signal.marketId, Handled(cfg, st, i).ledger;
            Balanced(st.ledger) && m !in st.ledger.open ==>
              && (forall p :: m in after.open && after.open[m] == p <==> Opens(cfg, st, i, p))
              && after == if m in after.open then Opened(st.ledger, after.open[m]) else st.ledger
  {
    hide Balanced, Opens, Handled, Opened;
    if Balanced(st.ledger) && i.signal.marketId !in st.ledger.open {
      OpensIff(cfg, st, i, Position(i.signal.marketId, 0, 0.0, 0.0, i.signal.source));
      forall p
        ensures var after := Handled(cfg, st, i).ledger;
                i.signal.marketId in after.open && after.open[i.signal.marketId] == p <==> Opens(cfg, st, i, p)
      {
        OpensIff(cfg, st, i, p);
      }
    }
  }

  lemma PositionIs(cfg: Config, st: State, i: Input, size: real, filled: nat)
    requires cfg.Valid() && i.masterOn && i.alphaOn && Size(cfg, st, i) == Some(size)
    requires SharesFor(size, i.signal.currentAsk) > 0
    requires filled == Bought(cfg, SharesFor(size, i.signal.currentAsk), i.outcomes) > 0
    ensures NewPosition(cfg, st, i) ==
            Some(Position(i.signal.marketId, filled, i.signal.currentAsk, EntryCost(filled, i.signal.currentAsk), i.signal.source))
  {
    hide Size, Bought, SharesFor, EntryCost;
  }

  lemma DryRunBuysAll(cfg: Config, shares: nat, outcomes: seq<Outcome>)
    requires cfg.dryRun
    ensures Bought(cfg, shares, outcomes) == shares
  {
  }
}
