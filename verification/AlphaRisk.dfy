/** Sizing and risk checks of the alpha executor (kelly, PortfolioRiskManager, SignalProcessor.calculateBetSize), in exact
    reals. */
module AlphaRisk {
  import opened Common

  datatype Source = Crypto | Sports | Econ | News | Arbitrage

  datatype PhaseConfig = PhaseConfig(
    kellyMultiplier: real, maxPerTradePct: real, maxExposureRatio: real, maxDrawdown: real)

  type Phase = p: int | 1 <= p <= 3 witness 1

  const PHASE_2_THRESHOLD := 10_000.0
  const PHASE_3_THRESHOLD := 100_000.0
  const PER_MARKET_CAP := 0.30
  const DAILY_LOSS_LIMIT := 0.10
  const UNREALIZED_LOSS_HAIRCUT := 0.50

  function ConfigOf(p: Phase): PhaseConfig {
    match p
    case 1 => PhaseConfig(0.25, 0.10, 0.40, 0.15)
    case 2 => PhaseConfig(0.50, 0.20, 0.60, 0.20)
    case _ => PhaseConfig(0.75, 0.30, 0.70, 0.25)
  }

  function DeterminePhase(capital: real, windowsTraded: int): Phase {
    if capital >= PHASE_3_THRESHOLD then
      if windowsTraded < 200 then 2 else 3
    else if capital >= PHASE_2_THRESHOLD then
      if windowsTraded < 50 then 1 else 2
    else 1
  }

  /** The numbers of the three phases, and the balance and traded windows from which each is in force. */
  lemma PhaseNumbers(capital: real, windowsTraded: int, c: PhaseConfig)
    ensures c == ConfigOf(DeterminePhase(capital, windowsTraded)) <==>
            (if capital >= 100_000.0 && windowsTraded >= 200 then c == PhaseConfig(0.75, 0.30, 0.70, 0.25)
             else if capital >= 100_000.0 || (capital >= 10_000.0 && windowsTraded >= 50) then c == PhaseConfig(0.50, 0.20, 0.60, 0.20)
             else c == PhaseConfig(0.25, 0.10, 0.40, 0.15))
  {
  }

  datatype Portfolio = Portfolio(
    safeBalance: real, totalExposure: real, availableCapital: real, peakCapital: real, dailyLoss: real, phase: Phase)

  function MaxReal(a: real, b: real): real {
    if a < b then b else a
  }

  function MinReal(a: real, b: real): real {
    if b < a then b else a
  }

  function VerticalCap(s: Source): Option<real> {
    match s
    case Crypto => Some(0.50)
    case Sports => Some(0.40)
    case _ => None
  }

  // Sizing

  /** Kelly bet on a probability and an ask. At an ask of exactly one the fraction is infinite, and infinity times an empty
      bankroll is not a number (None); above one the fraction is negative. */
  function KellyBetSize(confidence: real, ask: real, bankroll: real, multiplier: real, maxBetPct: real, liquidity: real,
                        takerFeeBps: real): Option<real>
    requires bankroll >= 0.0 && multiplier > 0.0
  {
    var edge, maxBet := confidence - takerFeeBps / 10_000.0 - ask, bankroll * maxBetPct;
    if edge <= 0.0 then Some(0.0)
    else if ask != 1.0 then Some(MinReal(MinReal(bankroll * (edge / (1.0 - ask)) * multiplier, maxBet), liquidity))
    else if bankroll > 0.0 then Some(MinReal(maxBet, liquidity))
    else None
  }

  function BetSize(confidence: real, ask: real, liquidity: real, takerFeeBps: real, s: Portfolio): Option<int>
    requires s.availableCapital >= 0.0
  {
    var c := ConfigOf(s.phase);
    var bet := KellyBetSize(confidence, ask, s.availableCapital, c.kellyMultiplier, c.maxPerTradePct, liquidity, takerFeeBps);
    if bet.Some? then Some(bet.value.Floor) else None
  }

  /** A positive bet is at most its share of the bankroll and at most the liquidity, and only an edge after fees, an ask of
      at most one and a bankroll make one. */
  lemma KellyBetBounds(confidence: real, ask: real, bankroll: real, multiplier: real, maxBetPct: real, liquidity: real,
                       takerFeeBps: real)
    requires bankroll >= 0.0 && multiplier > 0.0
    ensures var bet := KellyBetSize(confidence, ask, bankroll, multiplier, maxBetPct, liquidity, takerFeeBps);
            bet.Some? && bet.value > 0.0 ==>
              && bet.value <= bankroll * maxBetPct && bet.value <= liquidity
              && 0.0 < bankroll && ask <= 1.0 && ask < confidence - takerFeeBps / 10_000.0
  {
    var edge := confidence - takerFeeBps / 10_000.0 - ask;
    if edge > 0.0 && ask > 1.0 {
      NoPositiveBet(bankroll, edge, 1.0 - ask, multiplier);
    }
  }

  lemma NoPositiveBet(bankroll: real, edge: real, odds: real, multiplier: real)
    requires bankroll >= 0.0 && multiplier > 0.0 && edge > 0.0 > odds
    ensures bankroll * (edge / odds) * multiplier <= 0.0
  {
    var fraction := edge / odds;
    assert fraction * odds == edge;
    assert fraction < 0.0;
    assert bankroll * fraction <= 0.0;
  }

  /** A Kelly bet without a division: at the ask's odds it stakes at most the multiplier's share of bankroll times edge, it
      is at most a share of the bankroll and at most the liquidity, and one of the three it attains. */
  predicate KellyBet(edge: real, ask: real, bankroll: real, multiplier: real, maxBetPct: real, liquidity: real, bet: real) {
    && (1.0 - ask) * bet <= multiplier * (bankroll * edge) && bet <= bankroll * maxBetPct && bet <= liquidity
    && ((1.0 - ask) * bet == multiplier * (bankroll * edge) || bet == bankroll * maxBetPct || bet == liquidity)
  }

  /** With an edge, a bankroll and an ask of at most one there is exactly one Kelly bet, and it is the size computed. */
  lemma KellyBetIff(confidence: real, ask: real, bankroll: real, multiplier: real, maxBetPct: real, liquidity: real,
                    takerFeeBps: real, bet: real)
    requires bankroll > 0.0 && multiplier > 0.0 && ask <= 1.0 && confidence - takerFeeBps / 10_000.0 - ask > 0.0
    ensures KellyBet(confidence - takerFeeBps / 10_000.0 - ask, ask, bankroll, multiplier, maxBetPct, liquidity, bet) <==>
            KellyBetSize(confidence, ask, bankroll, multiplier, maxBetPct, liquidity, takerFeeBps) == Some(bet)
  {
    var edge, odds := confidence - takerFeeBps / 10_000.0 - ask, 1.0 - ask;
    StakePositive(multiplier, bankroll, edge);
    if ask < 1.0 {
      FractionAtOdds(bankroll, edge, odds, multiplier);
      var stake, kelly := multiplier * (bankroll * edge), bankroll * (edge / odds) * multiplier;
      OddsKeepOrder(odds, bet, kelly);
      OddsKeepOrder(odds, kelly, bet);
      LeastOfThree(odds * bet, stake, kelly, bankroll * maxBetPct, liquidity, bet);
    }
  }

  lemma StakePositive(multiplier: real, bankroll: real, edge: real)
    requires multiplier > 0.0 && bankroll > 0.0 && edge > 0.0
    ensures multiplier * (bankroll * edge) > 0.0
  {
    assert bankroll * edge > 0.0;
  }

  lemma FractionAtOdds(bankroll: real, edge: real, odds: real, multiplier: real)
    requires odds > 0.0
    ensures odds * (bankroll * (edge / odds) * multiplier) == multiplier * (bankroll * edge)
  {
    var f := edge / odds;
    assert odds * f == edge;
    assert odds * (bankroll * f * multiplier) == multiplier * (bankroll * (odds * f));
  }

  lemma LeastOfThree(atOdds: real, stake: real, kelly: real, share: real, liquidity: real, bet: real)
    requires (atOdds <= stake <==> bet <= kelly) && (stake <= atOdds <==> kelly <= bet)
    ensures (atOdds <= stake && bet <= share && bet <= liquidity && (atOdds == stake || bet == share || bet == liquidity))
            <==> bet == MinReal(MinReal(kelly, share), liquidity)
  {
  }

  lemma OddsKeepOrder(odds: real, a: real, b: real)
    requires odds > 0.0
    ensures odds * a <= odds * b <==> a <= b
  {
    if a > b {
      assert odds * a > odds * b;
    }
  }

  // Checks

  datatype Reason =
    | DrawdownLimit | DailyLossLimit | UnrealizedLossLimit | VerticalLimit | MarketLimit | ExposureLimit | RoomTooSmall

  datatype CheckResult = Rejected(reason: Reason) | Passed(adjusted: Option<real>)

  function CheckDrawdown(s: Portfolio): CheckResult {
    if s.peakCapital <= 0.0 then Passed(None)
    else if (s.peakCapital - s.safeBalance) / s.peakCapital >= ConfigOf(s.phase).maxDrawdown then Rejected(DrawdownLimit)
    else Passed(None)
  }

  function CheckDailyLoss(s: Portfolio): CheckResult {
    if s.dailyLoss > s.safeBalance * DAILY_LOSS_LIMIT then Rejected(DailyLossLimit) else Passed(None)
  }

  function CheckUnrealized(s: Portfolio, unrealized: real): CheckResult {
    if s.dailyLoss + unrealized * UNREALIZED_LOSS_HAIRCUT > s.safeBalance * DAILY_LOSS_LIMIT then Rejected(UnrealizedLossLimit)
    else Passed(None)
  }

  function CheckVertical(s: Portfolio, source: Source, verticalExposure: real): CheckResult {
    if VerticalCap(source).Some? && verticalExposure >= s.safeBalance * VerticalCap(source).value then Rejected(VerticalLimit)
    else Passed(None)
  }

  function CheckPerMarketCap(s: Portfolio, size: real): CheckResult {
    if size > s.safeBalance * PER_MARKET_CAP then Rejected(MarketLimit) else Passed(None)
  }

  function CheckPerTradeCap(s: Portfolio, size: real): CheckResult {
    var maxTrade := s.safeBalance * ConfigOf(s.phase).maxPerTradePct;
    if size > maxTrade then Passed(Some(maxTrade.Floor as real)) else Passed(None)
  }

  /** What may be at stake: the phase's share of the balance not reserved for the latency bot on the same account. */
  function MaxExposure(s: Portfolio, btc5mVolume: real): real {
    MaxReal(0.0, s.safeBalance - btc5mVolume) * ConfigOf(s.phase).maxExposureRatio
  }

  function CheckExposureCap(s: Portfolio, size: real, btc5mVolume: real): CheckResult {
    var c := ConfigOf(s.phase);
    var maxExposure := MaxExposure(s, btc5mVolume);
    var room := maxExposure - s.totalExposure;
    if room <= 0.0 then Rejected(ExposureLimit)
    else if s.totalExposure + size > maxExposure then
      if room < MaxReal(0.0, s.safeBalance - btc5mVolume) * c.maxPerTradePct * 0.5 then Rejected(RoomTooSmall)
      else Passed(Some(room.Floor as real))
    else Passed(None)
  }

  function RunAllChecks(s: Portfolio, size: real, source: Source, verticalExposure: real, btc5mVolume: real): CheckResult {
    var unrealized := source.Sports? && verticalExposure > 0.0;
    if CheckDrawdown(s).Rejected? then CheckDrawdown(s)
    else if CheckDailyLoss(s).Rejected? then CheckDailyLoss(s)
    else if unrealized && CheckUnrealized(s, verticalExposure).Rejected? then CheckUnrealized(s, verticalExposure)
    else if CheckVertical(s, source, verticalExposure).Rejected? then CheckVertical(s, source, verticalExposure)
    else if CheckPerMarketCap(s, size).Rejected? then CheckPerMarketCap(s, size)
    else
      var perTrade := CheckPerTradeCap(s, size);
      var first := if perTrade.adjusted.Some? then perTrade.adjusted.value else size;
      var exposure := CheckExposureCap(s, first, btc5mVolume);
      if exposure.Rejected? then exposure
      else
        var last := if exposure.adjusted.Some? then exposure.adjusted.value else first;
        if last != size then Passed(Some(last)) else Passed(None)
  }

  function FinalSize(r: CheckResult, size: real): real
    requires r.Passed?
  {
    if r.adjusted.Some? then r.adjusted.value else size
  }

  /** How the handler builds the portfolio from what is stored. */
  function PortfolioOf(safeBalance: real, totalExposure: real, peak: Option<real>, dailyLoss: real, windowsTraded: int): Portfolio {
    Portfolio(safeBalance, totalExposure, MaxReal(0.0, safeBalance - totalExposure),
              if peak.Some? then peak.value else safeBalance, dailyLoss, DeterminePhase(safeBalance, windowsTraded))
  }

  /** What the books must look like before any trade of a source: the balance above the phase's share of its peak, the day's
      loss, with half of what is open in sports for a sports signal, within a tenth of the balance, and the vertical below
      its share of it. */
  predicate BooksAllow(s: Portfolio, source: Source, verticalExposure: real) {
    && (s.peakCapital > 0.0 ==> s.safeBalance > s.peakCapital * (1.0 - ConfigOf(s.phase).maxDrawdown))
    && s.dailyLoss + (if source.Sports? then MaxReal(0.0, verticalExposure) / 2.0 else 0.0) <= s.safeBalance / 10.0
    && (source.Crypto? ==> verticalExposure < s.safeBalance / 2.0)
    && (source.Sports? ==> verticalExposure * 5.0 < s.safeBalance * 2.0)
  }

  /** A size cut to the whole dollars of what the phase trades at once. */
  function CutToTrade(s: Portfolio, size: real): real {
    var trade := s.safeBalance * ConfigOf(s.phase).maxPerTradePct;
    if size <= trade then size else trade.Floor as real
  }

  /** The room holds the size, or at least half of the phase's trade on the unreserved balance. */
  predicate Holds(s: Portfolio, size: real, room: real, btc5mVolume: real) {
    room > 0.0 &&
    (size <= room || 2.0 * room >= MaxReal(0.0, s.safeBalance - btc5mVolume) * ConfigOf(s.phase).maxPerTradePct)
  }

  /** A size passes exactly when the books allow a trade, it is within three tenths of the balance, there is room under the
      exposure cap, and the room holds it or at least half of the phase's trade on the unreserved balance. What passes is
      the size cut to the whole dollars of the phase's trade and, if that is still too much, of the room. */
  lemma PassedIff(s: Portfolio, size: real, source: Source, verticalExposure: real, btc5mVolume: real)
    ensures var r := RunAllChecks(s, size, source, verticalExposure, btc5mVolume);
            var cut, room := CutToTrade(s, size), MaxExposure(s, btc5mVolume) - s.totalExposure;
            && (r.Passed? <==>
                  && BooksAllow(s, source, verticalExposure) && size * 10.0 <= s.safeBalance * 3.0
                  && Holds(s, cut, room, btc5mVolume))
            && (r.Passed? ==> FinalSize(r, size) == if cut <= room then cut else room.Floor as real)
  {
    hide MaxExposure, BooksAllow, CheckDrawdown, CheckDailyLoss, CheckUnrealized, CheckVertical, CheckExposureCap;
    hide Holds, CutToTrade, CheckPerTradeCap;
    BooksIff(s, source, verticalExposure);
    PerTradeCuts(s, size);
    ExposureIff(s, CutToTrade(s, size), btc5mVolume);
  }

  lemma PerTradeCuts(s: Portfolio, size: real)
    ensures CheckPerTradeCap(s, size).Passed? && FinalSize(CheckPerTradeCap(s, size), size) == CutToTrade(s, size)
  {
    hide ConfigOf;
  }

  lemma ExposureIff(s: Portfolio, size: real, btc5mVolume: real)
    ensures var r := CheckExposureCap(s, size, btc5mVolume);
            var room := MaxExposure(s, btc5mVolume) - s.totalExposure;
            && (r.Passed? <==> Holds(s, size, room, btc5mVolume))
            && (r.Passed? ==> r.adjusted == if size <= room then None else Some(room.Floor as real))
  {
    hide MaxExposure, ConfigOf, MaxReal;
  }

  lemma BooksIff(s: Portfolio, source: Source, verticalExposure: real)
    ensures BooksAllow(s, source, verticalExposure) <==>
            && CheckDrawdown(s).Passed? && CheckDailyLoss(s).Passed? && CheckVertical(s, source, verticalExposure).Passed?
            && (source.Sports? && verticalExposure > 0.0 ==> CheckUnrealized(s, verticalExposure).Passed?)
  {
    hide CheckDrawdown, ConfigOf;
    DrawdownIff(s);
  }

  lemma DrawdownIff(s: Portfolio)
    ensures CheckDrawdown(s).Passed? <==>
            (s.peakCapital > 0.0 ==> s.safeBalance > s.peakCapital * (1.0 - ConfigOf(s.phase).maxDrawdown))
  {
    if s.peakCapital > 0.0 {
      var ratio, limit := (s.peakCapital - s.safeBalance) / s.peakCapital, ConfigOf(s.phase).maxDrawdown;
      assert ratio * s.peakCapital == s.peakCapital - s.safeBalance;
      if ratio >= limit {
        assert ratio * s.peakCapital >= limit * s.peakCapital;
      } else {
        assert ratio * s.peakCapital < limit * s.peakCapital;
      }
    }
  }

  /** A size that passes all checks never takes the exposure past the cap. */
  lemma PassedWithinExposureCap(s: Portfolio, size: real, source: Source, verticalExposure: real, btc5mVolume: real)
    requires RunAllChecks(s, size, source, verticalExposure, btc5mVolume).Passed?
    ensures s.totalExposure + FinalSize(RunAllChecks(s, size, source, verticalExposure, btc5mVolume), size)
            <= MaxExposure(s, btc5mVolume)
    ensures s.totalExposure < MaxExposure(s, btc5mVolume)
    ensures FinalSize(RunAllChecks(s, size, source, verticalExposure, btc5mVolume), size) <= size
  {
    hide MaxExposure;
  }

  /** A Kelly-sized bet is already within the per-trade and the per-market cap: neither check ever shrinks or rejects it. */
  lemma KellySizedWithinCaps(confidence: real, ask: real, liquidity: real, takerFeeBps: real, safeBalance: real,
                             totalExposure: real, peak: Option<real>, dailyLoss: real, windowsTraded: int)
    requires totalExposure >= 0.0
    ensures var s := PortfolioOf(safeBalance, totalExposure, peak, dailyLoss, windowsTraded);
            var size := BetSize(confidence, ask, liquidity, takerFeeBps, s);
            size.Some? && size.value > 0 ==>
              && CheckPerTradeCap(s, size.value as real) == Passed(None)
              && CheckPerMarketCap(s, size.value as real) == Passed(None)
              && size.value as real <= s.availableCapital && size.value as real <= liquidity
  {
    var s := PortfolioOf(safeBalance, totalExposure, peak, dailyLoss, windowsTraded);
    var pct := ConfigOf(s.phase).maxPerTradePct;
    var size := BetSize(confidence, ask, liquidity, takerFeeBps, s);
    KellyBetBounds(confidence, ask, s.availableCapital, ConfigOf(s.phase).kellyMultiplier, pct, liquidity, takerFeeBps);
    hide KellyBetSize, DeterminePhase;
    if size.Some? && size.value > 0 {
      ShareWithin(s.availableCapital, safeBalance, pct);
      WithinCaps(s, size.value as real, s.availableCapital * pct);
    }
  }

  lemma WithinCaps(s: Portfolio, size: real, share: real)
    requires size <= share <= s.safeBalance * ConfigOf(s.phase).maxPerTradePct && share <= s.safeBalance * PER_MARKET_CAP
    ensures CheckPerTradeCap(s, size) == Passed(None) && CheckPerMarketCap(s, size) == Passed(None)
  {
    hide ConfigOf;
  }

  /** A bet that is not a number never gets past the checks: it needs an empty bankroll, and then there is no room under the
      exposure cap, whatever the size, unless the stored volume of the latency bot is negative. */
  lemma NoNumberNoRoom(confidence: real, ask: real, liquidity: real, takerFeeBps: real, safeBalance: real,
                       totalExposure: real, peak: Option<real>, dailyLoss: real, windowsTraded: int, size: real, btc5mVolume: real)
    requires totalExposure >= 0.0 && btc5mVolume >= 0.0
    requires BetSize(confidence, ask, liquidity, takerFeeBps,
                     PortfolioOf(safeBalance, totalExposure, peak, dailyLoss, windowsTraded)).None?
    ensures CheckExposureCap(PortfolioOf(safeBalance, totalExposure, peak, dailyLoss, windowsTraded), size, btc5mVolume)
            == Rejected(ExposureLimit)
  {
    var s := PortfolioOf(safeBalance, totalExposure, peak, dailyLoss, windowsTraded);
    var balance, ratio := MaxReal(0.0, safeBalance - btc5mVolume), ConfigOf(s.phase).maxExposureRatio;
    assert balance <= totalExposure;
    assert 0.0 <= ratio <= 1.0;
    assert balance * ratio <= balance;
  }

  lemma ShareWithin(available: real, balance: real, pct: real)
    requires available == 0.0 || 0.0 < available <= balance
    requires 0.0 <= pct <= 0.30
    ensures available * pct <= available
    ensures available > 0.0 ==> available * pct <= balance * pct <= balance * 0.30
  {
    if available > 0.0 {
      assert available * pct <= balance * pct;
    }
  }

  /** So only the exposure cap can change a Kelly-sized bet. */
  lemma OnlyExposureAdjusts(confidence: real, ask: real, liquidity: real, takerFeeBps: real, s: Portfolio, size: real,
                            source: Source, verticalExposure: real, btc5mVolume: real)
    requires CheckPerTradeCap(s, size) == Passed(None) && RunAllChecks(s, size, source, verticalExposure, btc5mVolume).Passed?
    ensures FinalSize(RunAllChecks(s, size, source, verticalExposure, btc5mVolume), size) ==
            if s.totalExposure + size > MaxExposure(s, btc5mVolume)
            then (MaxExposure(s, btc5mVolume) - s.totalExposure).Floor as real else size
  {
    hide MaxExposure;
  }
}
