/** Order submission: splitting a large order into chunks, accounting for the responses, and the integer amounts signed
    on chain (TradeExecutor of btc-5m-latency, executeOneSide of btc-5m). Shares are in units of 0.01. */
module Orders {
  import opened Common
  import opened Rounding
  import opened Book
  import opened Liquidity

  const MIN_CHUNK := MIN_SHARES

  function Sum(s: seq<nat>): nat {
    if |s| == 0 then 0 else Sum(s[..|s| - 1]) + s[|s| - 1]
  }

  /** The chunks of an order: full chunks, and a last one that absorbs a remainder too small to stand alone. */
  function Split(shares: nat, maxChunk: nat): seq<nat>
    requires maxChunk > 0
    decreases shares
  {
    if shares == 0 then []
    else if shares <= maxChunk || shares - maxChunk < MIN_CHUNK then [shares]
    else [maxChunk] + Split(shares - maxChunk, maxChunk)
  }

  /** The splitting loop. */
  method SplitOrder(shares: nat, maxChunk: nat) returns (chunks: seq<nat>)
    requires maxChunk > 0
    ensures chunks == Split(shares, maxChunk)
  {
    chunks := [];
    var remaining: nat := shares;
    while remaining > 0
      invariant chunks + Split(remaining, maxChunk) == Split(shares, maxChunk)
    {
      var chunk: nat := Min(remaining, maxChunk);
      var afterThis: nat := remaining - chunk;
      assert chunks + ([chunk] + Split(afterThis, maxChunk)) == chunks + [chunk] + Split(afterThis, maxChunk);
      assert chunks + [remaining] + [] == chunks + [remaining];
      if afterThis > 0 && afterThis < MIN_CHUNK {
        chunks := chunks + [remaining];
        remaining := 0;
      } else {
        chunks := chunks + [chunk];
        remaining := afterThis;
      }
    }
  }

  lemma {:induction false} SumPrepend(x: nat, s: seq<nat>)
    ensures Sum([x] + s) == x + Sum(s)
  {
    if |s| == 0 {
      assert ([x] + s)[..|[x] + s| - 1] == [];
    } else {
      assert ([x] + s)[..|[x] + s| - 1] == [x] + s[..|s| - 1];
      SumPrepend(x, s[..|s| - 1]);
    }
  }

  /** The chunks sum to the order; all but the last are full; the last lies below a full chunk plus the minimum; and when
      a full chunk is at least the minimum, so is every chunk of an order that is. */
  lemma {:induction false} SplitIsExact(shares: nat, maxChunk: nat)
    requires maxChunk > 0
    ensures var chunks := Split(shares, maxChunk);
            && Sum(chunks) == shares
            && (forall i :: 0 <= i < |chunks| - 1 ==> chunks[i] == maxChunk)
            && (forall i :: 0 <= i < |chunks| ==> 0 < chunks[i] < maxChunk + MIN_CHUNK)
            && (maxChunk >= MIN_CHUNK && shares >= MIN_CHUNK ==> forall i :: 0 <= i < |chunks| ==> chunks[i] >= MIN_CHUNK)
    decreases shares
  {
    if shares > 0 {
      if shares <= maxChunk || shares - maxChunk < MIN_CHUNK {
        SumPrepend(shares, []);
        assert [shares] == [shares] + [];
      } else {
        SplitIsExact(shares - maxChunk, maxChunk);
        SumPrepend(maxChunk, Split(shares - maxChunk, maxChunk));
      }
    }
  }

  /** For an order that needs splitting, no chunk is below the exchange minimum exactly when a full chunk is not, or when
      the whole order ends up in one chunk of at least the minimum. */
  lemma NoSmallChunkIff(shares: nat, maxChunk: nat)
    requires 0 < maxChunk < shares
    ensures (forall i :: 0 <= i < |Split(shares, maxChunk)| ==> Split(shares, maxChunk)[i] >= MIN_CHUNK)
            <==> maxChunk >= MIN_CHUNK || MIN_CHUNK <= shares < maxChunk + MIN_CHUNK
  {
    SplitIsExact(shares, maxChunk);
    var chunks := Split(shares, maxChunk);
    if shares - maxChunk < MIN_CHUNK {
      assert chunks == [shares] && chunks[0] == shares;
    } else {
      assert chunks[0] == maxChunk;
    }
  }

  /** What one turn of the splitting loop leaves, for any configured chunk size, also one that is not positive. */
  function Left(remaining: int, maxChunk: int): int {
    if remaining <= 0 then remaining
    else
      var afterThis := remaining - Min(remaining, maxChunk);
      if 0 < afterThis < MIN_CHUNK then 0 else afterThis
  }

  function LeftAfter(remaining: int, maxChunk: int, turns: nat): int
    decreases turns
  {
    if turns == 0 then remaining else LeftAfter(Left(remaining, maxChunk), maxChunk, turns - 1)
  }

  lemma {:induction false} LeftForever(remaining: int, maxChunk: int, turns: nat)
    requires remaining > 0 && maxChunk <= 0 && remaining - maxChunk >= MIN_CHUNK
    ensures LeftAfter(remaining, maxChunk, turns) > 0
    decreases turns
  {
    if turns > 0 {
      LeftForever(Left(remaining, maxChunk), maxChunk, turns - 1);
    }
  }

  lemma {:induction false} LeftRunsOut(remaining: nat, maxChunk: nat) returns (turns: nat)
    requires maxChunk > 0
    ensures LeftAfter(remaining, maxChunk, turns) <= 0
    decreases remaining
  {
    turns := 0;
    if remaining > 0 {
      var more := LeftRunsOut(Left(remaining, maxChunk), maxChunk);
      turns := more + 1;
    }
  }

  /** The splitting loop of a positive order ends if and only if the chunk size is positive, or the very first turn takes
      the whole order because it counts as a small remainder. */
  lemma SplittingEndsIff(shares: int, maxChunk: int)
    requires shares > 0
    ensures (exists turns: nat :: LeftAfter(shares, maxChunk, turns) <= 0) <==> maxChunk > 0 || shares - maxChunk < MIN_CHUNK
  {
    if maxChunk > 0 {
      var turns := LeftRunsOut(shares, maxChunk);
    } else if shares - maxChunk < MIN_CHUNK {
      var once := 1;
      assert LeftAfter(Left(shares, maxChunk), maxChunk, 0) == 0;
      assert LeftAfter(shares, maxChunk, once) <= 0;
    } else {
      forall turns: nat
        ensures LeftAfter(shares, maxChunk, turns) > 0
      {
        LeftForever(shares, maxChunk, turns);
      }
    }
  }

  // Responses

  datatype Response = Accepted(orderId: Option<string>) | Rejected(orderId: Option<string>) | Threw

  function Ids(orderId: Option<string>): seq<string> {
    if orderId.Some? then [orderId.value] else []
  }

  /** How many chunks are accepted before the first that is not. */
  function AcceptedPrefix(responses: seq<Response>, n: nat): (k: nat)
    requires n <= |responses|
    ensures k <= n && (forall i :: 0 <= i < k ==> responses[i].Accepted?) && (k < n ==> !responses[k].Accepted?)
  {
    if n == 0 then 0
    else
      var k := AcceptedPrefix(responses, n - 1);
      if k == n - 1 && responses[n - 1].Accepted? then n else k
  }

  function OrderIds(responses: seq<Response>, k: nat): seq<string>
    requires k <= |responses| && forall i :: 0 <= i < k ==> responses[i].Accepted?
  {
    if k == 0 then []
    else OrderIds(responses, k - 1) + Ids(responses[k - 1].orderId)
  }

  lemma AcceptedPrefixIs(responses: seq<Response>, n: nat, k: nat)
    requires k <= n <= |responses|
    requires (forall i :: 0 <= i < k ==> responses[i].Accepted?) && (k < n ==> !responses[k].Accepted?)
    ensures AcceptedPrefix(responses, n) == k
  {
    var a := AcceptedPrefix(responses, n);
  }

  datatype Execution = Execution(success: bool, price: real, size: nat, orderIds: seq<string>)

  lemma SumTakeOne(s: seq<nat>, k: nat)
    requires k < |s|
    ensures Sum(s[..k + 1]) == Sum(s[..k]) + s[k]
  {
    assert s[..k + 1][..k] == s[..k];
  }

  lemma {:induction false} SumOfPrefix(s: seq<nat>, k: nat)
    requires k <= |s|
    ensures Sum(s[..k]) <= Sum(s)
    ensures k > 0 && s[0] > 0 ==> Sum(s[..k]) > 0
    ensures k < |s| && s[k] > 0 ==> Sum(s[..k]) < Sum(s)
    decreases |s| - k, k
  {
    if k < |s| {
      SumTakeOne(s, k);
      SumOfPrefix(s, k + 1);
    } else {
      assert s[..k] == s;
    }
    if k > 0 && s[0] > 0 {
      FirstInSum(s, k);
    }
  }

  lemma {:induction false} FirstInSum(s: seq<nat>, k: nat)
    requires 0 < k <= |s|
    ensures Sum(s[..k]) >= s[0]
  {
    SumTakeOne(s, k - 1);
    if k > 1 {
      FirstInSum(s, k - 1);
    }
  }

  /** Result of submitting the chunks in order: the accepted prefix counts, and nothing after it. */
  ghost function ChunkedResult(limitPrice: nat, shares: nat, maxChunk: nat, responses: seq<Response>): Execution
    requires maxChunk > 0 && |Split(shares, maxChunk)| <= |responses|
  {
    var chunks := Split(shares, maxChunk);
    var k := AcceptedPrefix(responses, |chunks|);
    var threw := k < |chunks| && responses[k].Threw?;
    Execution(k > 0, limitPrice as real, Sum(chunks[..k]), if threw then [] else OrderIds(responses, k))
  }

  lemma PositiveExactlyWhenFilled(shares: nat, maxChunk: nat, k: nat)
    requires maxChunk > 0 && k <= |Split(shares, maxChunk)|
    ensures Sum(Split(shares, maxChunk)[..k]) <= shares && (Sum(Split(shares, maxChunk)[..k]) > 0 <==> k > 0)
    ensures Sum(Split(shares, maxChunk)[..k]) == shares <==> k == |Split(shares, maxChunk)|
  {
    var chunks := Split(shares, maxChunk);
    SplitIsExact(shares, maxChunk);
    SumOfPrefix(chunks, k);
    assert chunks[..|chunks|] == chunks;
  }

  /** executeChunked of the latency bot: submits chunk after chunk until one is not accepted or throws. */
  method ExecuteChunked(limitPrice: nat, shares: nat, maxChunk: nat, responses: seq<Response>) returns (r: Execution)
    requires maxChunk > 0 && |Split(shares, maxChunk)| <= |responses|
    ensures r == ChunkedResult(limitPrice, shares, maxChunk, responses)
  {
    var chunks := SplitOrder(shares, maxChunk);
    var filledShares: nat, orderIds: seq<string>, threw := 0, [], false;
    ghost var k := 0;
    for i := 0 to |chunks|
      invariant !threw && k == i && filledShares == Sum(chunks[..i])
      invariant forall j :: 0 <= j < i ==> responses[j].Accepted?
      invariant orderIds == OrderIds(responses, i)
    {
      match responses[i]
      case Accepted(id) =>
        SumTakeOne(chunks, i);
        filledShares := filledShares + chunks[i];
        if id.Some? {
          orderIds := orderIds + [id.value];
        }
        k := k + 1;
      case Rejected(_) =>
        break;
      case Threw =>
        threw := true;
        break;
    }
    AcceptedPrefixIs(responses, |chunks|, k);
    PositiveExactlyWhenFilled(shares, maxChunk, k);
    r := Execution(filledShares > 0, limitPrice as real, filledShares, if threw then [] else orderIds);
  }

  /** Where an order goes: the paper simulator with a freshly fetched book, nowhere in a dry run without a simulator, or the
      exchange with its responses. */
  datatype Venue = Paper(asks: seq<Level>, kept: Kept) | NoSimulator | Live(responses: seq<Response>)

  ghost predicate CanServe(v: Venue, shares: nat, maxChunk: nat)
    requires maxChunk > 0
  {
    match v
    case Paper(asks, kept) => WellFormed(asks) && kept.Valid()
    case NoSimulator => true
    case Live(responses) => |responses| >= 1 && |Split(shares, maxChunk)| <= |responses|
  }

  /** What executeSingle reports. */
  ghost function Executed(limitPrice: nat, shares: nat, maxChunk: nat, v: Venue): Execution
    requires maxChunk > 0 && CanServe(v, shares, maxChunk)
  {
    match v
    case Paper(asks, kept) =>
      var walk := Available(asks, limitPrice, shares);
      if walk.None? then Execution(false, 0.0, 0, [])
      else
        Execution(true, Truncated(walk.value.totalCost, walk.value.availableShares, kept.average), walk.value.availableShares, [])
    case NoSimulator => Execution(false, limitPrice as real, 0, [])
    case Live(responses) =>
      if shares <= maxChunk then
        (match responses[0]
         case Accepted(id) => Execution(true, limitPrice as real, shares, Ids(id))
         case Rejected(id) => Execution(false, limitPrice as real, 0, Ids(id))
         case Threw => Execution(false, limitPrice as real, 0, []))
      else ChunkedResult(limitPrice, shares, maxChunk, responses)
  }

  method ExecuteSingle(limitPrice: nat, shares: nat, maxChunk: nat, v: Venue) returns (r: Execution)
    requires maxChunk > 0 && CanServe(v, shares, maxChunk)
    ensures r == Executed(limitPrice, shares, maxChunk, v)
  {
    hide Available, Consistent, Takes, Split, ChunkedResult, Truncated;
    match v
    case Paper(asks, kept) =>
      var sim := SimulateFill(asks, limitPrice, shares, kept);
      r := Execution(sim.success, sim.fillPrice, sim.fillShares, []);
    case NoSimulator =>
      r := Execution(false, limitPrice as real, 0, []);
    case Live(responses) =>
      if shares <= maxChunk {
        match responses[0]
        case Accepted(id) =>
          r := Execution(true, limitPrice as real, shares, Ids(id));
        case Rejected(id) =>
          r := Execution(false, limitPrice as real, 0, Ids(id));
        case Threw =>
          r := Execution(false, limitPrice as real, 0, []);
      } else {
        r := ExecuteChunked(limitPrice, shares, maxChunk, responses);
      }
  }

  /** A successful execution buys between one unit and the order, at a positive price not above the limit, on paper and
      live, whatever the venue answers; a failed one buys nothing. */
  lemma ExecutedWithinOrder(limitPrice: nat, shares: nat, maxChunk: nat, v: Venue)
    requires maxChunk > 0 && CanServe(v, shares, maxChunk) && limitPrice > 0 && shares > 0
    ensures var r := Executed(limitPrice, shares, maxChunk, v);
            && (r.success ==> 0 < r.size <= shares && 0.0 < r.price <= limitPrice as real)
            && (!r.success ==> r.size == 0)
  {
    match v
    case Paper(asks, kept) =>
      if Available(asks, limitPrice, shares).Some? {
        WalkPrices(asks, limitPrice, shares, kept.average);
        var l := Available(asks, limitPrice, shares).value;
        MulMonotone(l.worstPrice, limitPrice, kept.average);
        Share(TruncDiv(l.totalCost * kept.average, l.availableShares), asks[0].price, kept.average);
        Share(TruncDiv(l.totalCost * kept.average, l.availableShares), limitPrice, kept.average);
      }
    case NoSimulator =>
    case Live(responses) =>
      if shares > maxChunk {
        PositiveExactlyWhenFilled(shares, maxChunk, AcceptedPrefix(responses, |Split(shares, maxChunk)|));
      }
  }

  /** A paper execution buys the cheapest shares up to the limit and the order, at their average price, short of it by less
      than a kept digit; it fails exactly when fewer than five shares (500 units) are for sale at the limit. */
  lemma PaperReports(limitPrice: nat, shares: nat, maxChunk: nat, asks: seq<Level>, kept: Kept)
    requires maxChunk > 0 && WellFormed(asks) && kept.Valid()
    ensures var r := Executed(limitPrice, shares, maxChunk, Paper(asks, kept));
            && (r.success <==> 500 <= shares && 500 <= Depth(asks) && UnitPrice(asks, 499) <= limitPrice)
            && (!r.success ==> r.size == 0 && r.price == 0.0)
            && (r.success ==>
                  && r.size <= Depth(asks)
                  && (forall k :: 0 <= k < Depth(asks) ==> (k < r.size <==> k < shares && UnitPrice(asks, k) <= limitPrice))
                  && r.price * r.size as real <= PrefixCost(asks, r.size) as real
                     < (r.price + 1.0 / kept.average as real) * r.size as real)
            && r.orderIds == []
  {
    hide Takes, Truncated, UnitPrice, PrefixCost;
    TakesIff(asks, limitPrice, shares, 500);
    forall k | 0 <= k < Depth(asks)
      ensures k < Takes(asks, limitPrice, shares) <==> k < shares && UnitPrice(asks, k) <= limitPrice
    {
      TakesIff(asks, limitPrice, shares, k + 1);
    }
    var walk := Available(asks, limitPrice, shares);
    if walk.Some? {
      TruncatedBounds(walk.value.totalCost, walk.value.availableShares, kept.average);
    }
  }

  // executeOneSide of the box-spread bot: the same split and submission, other reports

  ghost function OneSideResult(price: nat, shares: nat, maxChunk: nat, responses: seq<Response>): (r: Execution)
    requires maxChunk > 0 && 1 <= |responses| && |Split(shares, maxChunk)| <= |responses|
  {
    if shares <= maxChunk then
      Execution(responses[0].Accepted?, price as real, shares, [])
    else
      var chunks := Split(shares, maxChunk);
      var k := AcceptedPrefix(responses, |chunks|);
      var threw := k < |chunks| && responses[k].Threw?;
      Execution(if threw then k > 0 else k == |chunks|, price as real, Sum(chunks[..k]), [])
  }

  method ExecuteOneSide(price: nat, shares: nat, maxChunk: nat, responses: seq<Response>) returns (r: Execution)
    requires maxChunk > 0 && 1 <= |responses| && |Split(shares, maxChunk)| <= |responses|
    ensures r == OneSideResult(price, shares, maxChunk, responses)
  {
    if shares <= maxChunk {
      return Execution(responses[0].Accepted?, price as real, shares, []);
    }
    var chunks := SplitOrder(shares, maxChunk);
    var results: seq<Response>, filledShares: nat := [], 0;
    for i := 0 to |chunks|
      invariant results == responses[..i] && filledShares == Sum(chunks[..i])
      invariant forall j :: 0 <= j < i ==> responses[j].Accepted?
    {
      if responses[i].Threw? {
        AcceptedPrefixIs(responses, |chunks|, i);
        PositiveExactlyWhenFilled(shares, maxChunk, i);
        return Execution(filledShares > 0, price as real, filledShares, []);
      }
      results := results + [responses[i]];
      if responses[i].Accepted? {
        SumTakeOne(chunks, i);
        filledShares := filledShares + chunks[i];
      } else {
        AcceptedPrefixIs(responses, |chunks|, i);
        assert results == responses[..i + 1] && !results[i].Accepted?;
        break;
      }
    }
    assert forall j :: 0 <= j < |results| ==> results[j] == responses[j];
    var allSucceeded := |results| == |chunks| && forall j :: 0 <= j < |results| ==> results[j].Accepted?;
    if allSucceeded {
      AcceptedPrefixIs(responses, |chunks|, |chunks|);
    }
    r := Execution(allSucceeded, price as real, filledShares, []);
  }

  /** Shares the exchange accepted. */
  ghost function AcceptedShares(shares: nat, maxChunk: nat, responses: seq<Response>): nat
    requires maxChunk > 0 && 1 <= |responses| && |Split(shares, maxChunk)| <= |responses|
  {
    var chunks := Split(shares, maxChunk);
    Sum(chunks[..AcceptedPrefix(responses, |chunks|)])
  }

  ghost predicate EndsInException(shares: nat, maxChunk: nat, responses: seq<Response>)
    requires maxChunk > 0 && |Split(shares, maxChunk)| <= |responses|
  {
    var k := AcceptedPrefix(responses, |Split(shares, maxChunk)|);
    k < |Split(shares, maxChunk)| && responses[k].Threw?
  }

  /** The box-spread bot reports the accepted shares except after a failed order that was not split: then it reports the
      whole order, with success false. It reports success exactly when everything was accepted, except that an exception
      after an accepted chunk counts as success. */
  lemma OneSideReportsAcceptedIff(price: nat, shares: nat, maxChunk: nat, responses: seq<Response>)
    requires maxChunk > 0 && shares > 0 && 1 <= |responses| && |Split(shares, maxChunk)| <= |responses|
    ensures var r := OneSideResult(price, shares, maxChunk, responses);
            var accepted := AcceptedShares(shares, maxChunk, responses);
            && r.price == price as real
            && (r.size == accepted <==> !(shares <= maxChunk && !responses[0].Accepted?))
            && (r.success ==> 0 < accepted == r.size)
            && ((r.success <==> accepted == shares) <==>
                  !(shares > maxChunk && accepted > 0 && EndsInException(shares, maxChunk, responses)))
  {
    var chunks := Split(shares, maxChunk);
    var k := AcceptedPrefix(responses, |chunks|);
    PositiveExactlyWhenFilled(shares, maxChunk, k);
    if shares <= maxChunk {
      assert chunks == [shares];
    }
  }

  /** Five shares refused in one order are reported as filled size; of 15 shares in two chunks, the first accepted and the
      second ending in an exception, 10 are reported as a success. */
  lemma OneSideExample(whole: nat, split: nat, maxChunk: nat)
    requires whole == 500 && split == 1500 && maxChunk == 1000
    ensures |Split(whole, maxChunk)| == 1 && |Split(split, maxChunk)| == 2
    ensures var r := OneSideResult(600, whole, maxChunk, [Rejected(None)]);
            r.size == whole && AcceptedShares(whole, maxChunk, [Rejected(None)]) == 0
    ensures var r := OneSideResult(600, split, maxChunk, [Accepted(None), Threw]);
            r.success && r.size == AcceptedShares(split, maxChunk, [Accepted(None), Threw]) == 1000
  {
    var rest := split - maxChunk;
    assert Split(rest, maxChunk) == [rest];
    assert Split(split, maxChunk) == [maxChunk, rest];
    AcceptedPrefixIs([Accepted(None), Threw], 2, 1);
    AcceptedPrefixIs([Rejected(None)], 1, 0);
    assert Split(split, maxChunk)[..1] == [maxChunk];
    assert Sum([maxChunk]) == maxChunk;
  }

  /** The latency bot's report is always the accepted shares, at the limit price, and a success exactly when there are any.
      Its order ids are those that the accepted chunks came with, none after an exception; an order that was not split also
      reports the id of a refusal. */
  lemma SingleReportsAccepted(limitPrice: nat, shares: nat, maxChunk: nat, responses: seq<Response>)
    requires maxChunk > 0 && shares > 0 && 1 <= |responses| && |Split(shares, maxChunk)| <= |responses|
    ensures var r := Executed(limitPrice, shares, maxChunk, Live(responses));
            && r.price == limitPrice as real
            && r.size == AcceptedShares(shares, maxChunk, responses) && (r.success <==> r.size > 0)
            && forall id :: id in r.orderIds <==>
                 if shares <= maxChunk then !responses[0].Threw? && responses[0].orderId == Some(id)
                 else
                   && !EndsInException(shares, maxChunk, responses)
                   && exists i :: 0 <= i < AcceptedPrefix(responses, |Split(shares, maxChunk)|) && responses[i].orderId == Some(id)
  {
    var chunks := Split(shares, maxChunk);
    var k := AcceptedPrefix(responses, |chunks|);
    PositiveExactlyWhenFilled(shares, maxChunk, k);
    if shares <= maxChunk {
      assert chunks == [shares];
    } else {
      forall id
        ensures id in OrderIds(responses, k) <==> exists i :: 0 <= i < k && responses[i].orderId == Some(id)
      {
        OrderIdsAre(responses, k, id);
      }
    }
  }

  lemma {:induction false} OrderIdsAre(responses: seq<Response>, k: nat, id: string)
    requires k <= |responses| && forall i :: 0 <= i < k ==> responses[i].Accepted?
    ensures id in OrderIds(responses, k) <==> exists i :: 0 <= i < k && responses[i].orderId == Some(id)
  {
    if k > 0 {
      OrderIdsAre(responses, k - 1, id);
    }
  }

  // Amounts signed on chain: USDC and shares with 6 decimals. "one" is a dollar in ticks, so price * size is money in
  // units of 1 / (100 * one) dollars.

  /** USDC base units: floored, then cut to a whole cent (a multiple of 10^4). */
  function MakerAmount(price: nat, size: nat, one: nat): nat
    requires one > 0
  {
    TruncDiv(TruncDiv(price * size * 1_000_000, 100 * one), 10_000) * 10_000
  }

  /** Share base units: floored, then cut to a multiple of 10. */
  function TakerAmount(size: nat): nat {
    TruncDiv(TruncDiv(size * 1_000_000, 100), 10) * 10
  }

  function MakerTotal(price: nat, chunks: seq<nat>, one: nat): nat
    requires one > 0
  {
    if |chunks| == 0 then 0 else MakerTotal(price, chunks[..|chunks| - 1], one) + MakerAmount(price, chunks[|chunks| - 1], one)
  }

  function TakerTotal(chunks: seq<nat>): nat {
    if |chunks| == 0 then 0 else TakerTotal(chunks[..|chunks| - 1]) + TakerAmount(chunks[|chunks| - 1])
  }

  lemma MakerAmountShort(price: nat, size: nat, one: nat)
    requires one > 0
    ensures var m := MakerAmount(price, size, one);
            m % 10_000 == 0 && m * (100 * one) <= price * size * 1_000_000 < (m + 10_000) * (100 * one)
  {
    var a, d := price * size * 1_000_000, 100 * one;
    var cents := TruncDiv(TruncDiv(a, d), 10_000);
    TruncDivBound(a, d);
    MulMonotone(cents * 10_000, TruncDiv(a, d), d);
    MulMonotone(TruncDiv(a, d) + 1, (cents + 1) * 10_000, d);
  }

  lemma TakerAmountExact(size: nat)
    ensures TakerAmount(size) == size * 10_000
  {
  }

  lemma {:induction false} TotalsShort(price: nat, chunks: seq<nat>, one: nat)
    requires one > 0
    ensures TakerTotal(chunks) == Sum(chunks) * 10_000
    ensures var m := MakerTotal(price, chunks, one);
            && m * (100 * one) <= price * Sum(chunks) * 1_000_000
            && (|chunks| > 0 ==> price * Sum(chunks) * 1_000_000 < (m + |chunks| * 10_000) * (100 * one))
  {
    hide MakerAmount, TakerAmount;
    if |chunks| > 0 {
      var rest, last := chunks[..|chunks| - 1], chunks[|chunks| - 1];
      TotalsShort(price, rest, one);
      MakerAmountShort(price, last, one);
      TakerAmountExact(last);
      AddUp(price, Sum(rest), last, MakerTotal(price, rest, one), MakerAmount(price, last, one), |rest|, 100 * one);
    }
  }

  lemma AddUp(price: nat, sum: nat, last: nat, total: nat, amount: nat, count: nat, d: nat)
    requires total * d <= price * sum * 1_000_000
    requires count > 0 ==> price * sum * 1_000_000 < (total + count * 10_000) * d
    requires count == 0 ==> total == 0 == sum
    requires amount * d <= price * last * 1_000_000 < (amount + 10_000) * d
    ensures (total + amount) * d <= price * (sum + last) * 1_000_000
    ensures price * (sum + last) * 1_000_000 < (total + amount + (count + 1) * 10_000) * d
  {
    assert price * (sum + last) == price * sum + price * last;
    assert (total + amount) * d == total * d + amount * d;
    assert (total + amount + (count + 1) * 10_000) * d == (total + count * 10_000) * d + (amount + 10_000) * d;
  }

  /** Over all chunks of an order the USDC amounts never exceed price times shares and fall short of it by less than a cent
      per chunk, while the share amounts are exact. */
  lemma SplitAmounts(price: nat, shares: nat, maxChunk: nat, one: nat)
    requires one > 0 && maxChunk > 0 && shares > 0
    ensures var chunks := Split(shares, maxChunk);
            && TakerTotal(chunks) == shares * 10_000
            && MakerTotal(price, chunks, one) * (100 * one) <= price * shares * 1_000_000
            && price * shares * 1_000_000 < (MakerTotal(price, chunks, one) + |chunks| * 10_000) * (100 * one)
  {
    SplitIsExact(shares, maxChunk);
    TotalsShort(price, Split(shares, maxChunk), one);
  }
}
