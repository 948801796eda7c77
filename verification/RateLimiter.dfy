/** The sliding-window rate limiter of the trade executors (waitForRateLimit), with one caller that awaits each
    submission. Times are in milliseconds; every reading of the clock is an input. */
module RateLimiter {

  const WINDOW := 1000
  const LIMIT := 10

  /** Clock readings of one call: on entry, one per element of the second filter, and the recorded one. */
  datatype Call = Call(now: int, rereads: seq<int>, stamp: int)

  ghost predicate Sorted(s: seq<int>) {
    forall i, j :: 0 <= i <= j < |s| ==> s[i] <= s[j]
  }

  /** The timestamps younger than the window, read against one clock value. */
  function Recent(ts: seq<int>, now: int): (r: seq<int>)
    ensures |r| <= |ts|
  {
    if |ts| == 0 then []
    else (if now - ts[0] < WINDOW then [ts[0]] else []) + Recent(ts[1..], now)
  }

  /** The same with the clock read anew for every element. */
  function RecentEach(ts: seq<int>, clock: seq<int>): (r: seq<int>)
    requires |ts| == |clock|
    ensures |r| <= |ts|
  {
    if |ts| == 0 then []
    else (if clock[0] - ts[0] < WINDOW then [ts[0]] else []) + RecentEach(ts[1..], clock[1..])
  }

  /** How long a full window makes the caller wait. */
  function Wait(kept: seq<int>, now: int): int
    requires |kept| > 0
  {
    WINDOW - (now - kept[0])
  }

  /** The clock never goes back. How long a sleep takes on it is left open. */
  ghost predicate Clocked(ts: seq<int>, last: int, c: Call) {
    var kept := Recent(ts, c.now);
    && last <= c.now <= c.stamp
    && (|kept| >= LIMIT ==>
          && |c.rereads| == |kept| && Sorted(c.rereads)
          && forall i :: 0 <= i < |c.rereads| ==> c.now <= c.rereads[i] <= c.stamp)
  }

  /** After a sleep the clock has moved on by at least what was asked for. */
  ghost predicate Honoured(h: seq<int>, c: Call) {
    var recent := Recent(h, c.now);
    |recent| >= LIMIT ==> |c.rereads| > 0 && c.rereads[0] >= c.now + Wait(recent, c.now)
  }

  /** The second filter of a full window drops something: some entry is a window old at its own reading of the clock. */
  ghost predicate Drops(h: seq<int>, c: Call) {
    var recent := Recent(h, c.now);
    |recent| >= LIMIT ==> exists i :: 0 <= i < |recent| && i < |c.rereads| && c.rereads[i] - recent[i] >= WINDOW
  }

  /** By the recorded time of a request all but the nine youngest of the recent ones are a window old. */
  ghost predicate InTime(h: seq<int>, c: Call) {
    var recent := Recent(h, c.now);
    |recent| >= LIMIT ==> c.stamp - recent[|recent| - LIMIT] >= WINDOW
  }

  /** The kept list after a call: what is recent, and the recorded time. */
  ghost function Admit(ts: seq<int>, last: int, c: Call): seq<int>
    requires Clocked(ts, last, c)
  {
    var kept := Recent(ts, c.now);
    (if |kept| >= LIMIT then RecentEach(kept, c.rereads) else kept) + [c.stamp]
  }

  // Filters

  lemma {:induction false} RecentAppend(a: seq<int>, b: seq<int>, now: int)
    ensures Recent(a + b, now) == Recent(a, now) + Recent(b, now)
  {
    if |a| == 0 {
      assert a + b == b;
    } else {
      assert (a + b)[1..] == a[1..] + b;
      RecentAppend(a[1..], b, now);
    }
  }

  lemma {:induction false} RecentAgain(ts: seq<int>, a: int, b: int)
    requires a <= b
    ensures Recent(Recent(ts, a), b) == Recent(ts, b)
  {
    if |ts| > 0 {
      RecentAgain(ts[1..], a, b);
      RecentAppend(if a - ts[0] < WINDOW then [ts[0]] else [], Recent(ts[1..], a), b);
      assert [ts[0]][1..] == [];
    }
  }

  lemma {:induction false} RecentEachAgain(ts: seq<int>, clock: seq<int>, b: int)
    requires |ts| == |clock| && forall i :: 0 <= i < |clock| ==> clock[i] <= b
    ensures Recent(RecentEach(ts, clock), b) == Recent(ts, b)
  {
    if |ts| > 0 {
      RecentEachAgain(ts[1..], clock[1..], b);
      RecentAppend(if clock[0] - ts[0] < WINDOW then [ts[0]] else [], RecentEach(ts[1..], clock[1..]), b);
      assert [ts[0]][1..] == [];
    }
  }

  lemma {:induction false} RecentKeepsAll(ts: seq<int>, now: int)
    requires forall i :: 0 <= i < |ts| ==> now - ts[i] < WINDOW
    ensures Recent(ts, now) == ts
  {
    if |ts| > 0 {
      RecentKeepsAll(ts[1..], now);
    }
  }

  lemma {:induction false} RecentDropsAll(ts: seq<int>, now: int)
    requires forall i :: 0 <= i < |ts| ==> now - ts[i] >= WINDOW
    ensures Recent(ts, now) == []
  {
    if |ts| > 0 {
      RecentDropsAll(ts[1..], now);
    }
  }

  /** On a sorted history, what is recent is a suffix of it. */
  lemma RecentIsSuffix(h: seq<int>, now: int, k: nat)
    requires Sorted(h) && k <= |h|
    requires forall i :: 0 <= i < |h| ==> (now - h[i] < WINDOW <==> k <= i)
    ensures Recent(h, now) == h[k..]
  {
    assert h == h[..k] + h[k..];
    RecentAppend(h[..k], h[k..], now);
    RecentDropsAll(h[..k], now);
    RecentKeepsAll(h[k..], now);
  }

  lemma {:induction false} SuffixStart(h: seq<int>, now: int) returns (k: nat)
    requires Sorted(h)
    ensures k <= |h| && forall i :: 0 <= i < |h| ==> (now - h[i] < WINDOW <==> k <= i)
  {
    k := |h|;
    while k > 0 && now - h[k - 1] < WINDOW
      invariant k <= |h| && forall i :: k <= i < |h| ==> now - h[i] < WINDOW
    {
      k := k - 1;
    }
  }

  // Invariant of the limiter over its full history of recorded times

  /** Any LIMIT + 1 consecutive recorded requests span at least the window. */
  ghost predicate Spaced(h: seq<int>) {
    forall i :: 0 <= i && i + LIMIT < |h| ==> h[i + LIMIT] - h[i] >= WINDOW
  }

  /** The kept list agrees with the history on everything younger than the window. */
  ghost predicate Agrees(ts: seq<int>, h: seq<int>, last: int) {
    && Sorted(h) && (|h| > 0 ==> h[|h| - 1] <= last)
    && Recent(ts, last) == Recent(h, last)
  }

  /** What the limiter is for: the kept list agrees with the history and is no longer than the limit, and the requests are
      spaced. */
  ghost predicate Tracks(ts: seq<int>, h: seq<int>, last: int) {
    Agrees(ts, h, last) && |ts| <= LIMIT && Spaced(h)
  }

  /** After the first filter of a call the kept list is exactly the part of the history younger than the window. */
  lemma FirstFilterIsExact(ts: seq<int>, h: seq<int>, last: int, now: int)
    requires Agrees(ts, h, last) && last <= now
    ensures Recent(ts, now) == Recent(h, now)
    ensures exists k: nat :: k <= |h| && Recent(ts, now) == h[k..] && forall i :: 0 <= i < |h| ==> (now - h[i] < WINDOW <==> k <= i)
  {
    RecentAgain(ts, last, now);
    RecentAgain(h, last, now);
    var k := SuffixStart(h, now);
    RecentIsSuffix(h, now, k);
  }

  /** One call keeps the agreement, however long it slept. */
  lemma AdmitAgrees(ts: seq<int>, h: seq<int>, last: int, c: Call)
    requires Agrees(ts, h, last) && Clocked(ts, last, c)
    ensures Agrees(Admit(ts, last, c), h + [c.stamp], c.stamp)
  {
    hide Recent, RecentEach;
    FirstFilterIsExact(ts, h, last, c.now);
    var kept := Recent(h, c.now);
    var rest := if |kept| >= LIMIT then RecentEach(kept, c.rereads) else kept;
    if |kept| >= LIMIT {
      RecentEachAgain(kept, c.rereads, c.stamp);
    }
    RecentAgain(h, c.now, c.stamp);
    RecentAppend(rest, [c.stamp], c.stamp);
    RecentAppend(h, [c.stamp], c.stamp);
  }

  lemma {:induction false} EachShorterIff(ts: seq<int>, clock: seq<int>)
    requires |ts| == |clock|
    ensures |RecentEach(ts, clock)| < |ts| <==> exists i :: 0 <= i < |ts| && clock[i] - ts[i] >= WINDOW
  {
    if |ts| > 0 {
      EachShorterIff(ts[1..], clock[1..]);
      if i :| 0 <= i < |ts| && clock[i] - ts[i] >= WINDOW {
        if i > 0 {
          assert clock[1..][i - 1] - ts[1..][i - 1] >= WINDOW;
        }
      }
    }
  }

  /** The next request keeps the spacing if and only if it is recorded in time. */
  lemma SpacedCallIff(h: seq<int>, c: Call)
    requires Sorted(h) && (|h| > 0 ==> h[|h| - 1] <= c.now) && c.now <= c.stamp && Spaced(h)
    ensures Spaced(h + [c.stamp]) <==> InTime(h, c)
  {
    var k := SuffixStart(h, c.now);
    RecentIsSuffix(h, c.now, k);
    hide Recent;
    var more := h + [c.stamp];
    if |h| >= LIMIT {
      assert more[|h|] == c.stamp && more[|h| - LIMIT] == h[|h| - LIMIT];
      if |h| - LIMIT >= k {
        assert h[k..][|h| - k - LIMIT] == h[|h| - LIMIT];
      }
    }
  }

  /** One call keeps everything the limiter is for if and only if its second filter, where it comes to that, drops
      something. */
  lemma AdmitTracksIff(ts: seq<int>, h: seq<int>, last: int, c: Call)
    requires Tracks(ts, h, last) && Clocked(ts, last, c)
    ensures Tracks(Admit(ts, last, c), h + [c.stamp], c.stamp) <==> Drops(h, c)
  {
    hide Recent, RecentEach, Spaced;
    AdmitAgrees(ts, h, last, c);
    FirstFilterIsExact(ts, h, last, c.now);
    RecentNoLonger(ts, c.now);
    SpacedCallIff(h, c);
    var kept := Recent(h, c.now);
    if |kept| >= LIMIT {
      EachShorterIff(kept, c.rereads);
      if i :| 0 <= i < |kept| && c.rereads[i] - kept[i] >= WINDOW {
        assert kept[0] <= kept[i];
      }
    }
  }

  lemma RecentNoLonger(ts: seq<int>, now: int)
    ensures |Recent(ts, now)| <= |ts|
  {
  }

  /** A sleep that is honoured outlasts the oldest entry. */
  lemma HonouredDrops(ts: seq<int>, last: int, h: seq<int>, c: Call)
    requires Agrees(ts, h, last) && Clocked(ts, last, c) && Honoured(h, c)
    ensures Drops(h, c)
  {
    hide Recent;
    FirstFilterIsExact(ts, h, last, c.now);
    var recent := Recent(h, c.now);
    if |recent| >= LIMIT {
      assert c.rereads[0] - recent[0] >= WINDOW;
    }
  }

  // When a call leaves exactly the recent history

  /** The readings of the clock that decided on the recent entries of the history: those of the second filter when the window
      is full, else the one on entry for all of them. */
  function KeepClock(h: seq<int>, c: Call): seq<int> {
    if |Recent(h, c.now)| >= LIMIT then c.rereads else seq(|Recent(h, c.now)|, i => c.now)
  }

  ghost predicate Young(ts: seq<int>, now: int) {
    forall t :: t in ts ==> now - t < WINDOW
  }

  /** Whatever its own reading of the clock keeps is still young at a later time. */
  ghost predicate StaysYoung(ts: seq<int>, clock: seq<int>, later: int)
    requires |ts| == |clock|
  {
    forall i :: 0 <= i < |ts| && clock[i] - ts[i] < WINDOW ==> later - ts[i] < WINDOW
  }

  /** No entry of the history turns a window old between the reading that kept it and the recorded time. */
  ghost predicate NoneAges(h: seq<int>, c: Call) {
    |KeepClock(h, c)| == |Recent(h, c.now)| && StaysYoung(Recent(h, c.now), KeepClock(h, c), c.stamp)
  }

  lemma {:induction false} RecentIsAllIff(ts: seq<int>, now: int)
    ensures Recent(ts, now) == ts <==> Young(ts, now)
    ensures Young(Recent(ts, now), now)
  {
    if |ts| > 0 {
      RecentIsAllIff(ts[1..], now);
      assert ts == [ts[0]] + ts[1..];
      YoungAppend([ts[0]], ts[1..], now);
      assert ts[0] in [ts[0]];
      if now - ts[0] < WINDOW {
        assert Recent(ts, now)[1..] == Recent(ts[1..], now);
        YoungAppend([ts[0]], Recent(ts[1..], now), now);
      } else {
        assert Recent(ts, now) == Recent(ts[1..], now);
        assert |Recent(ts, now)| < |ts|;
      }
    }
  }

  lemma {:induction false} EachYoungIff(ts: seq<int>, clock: seq<int>, later: int)
    requires |ts| == |clock|
    ensures Young(RecentEach(ts, clock), later) <==> StaysYoung(ts, clock, later)
  {
    if |ts| > 0 {
      EachYoungIff(ts[1..], clock[1..], later);
      YoungFirst(ts, clock, later);
      var kept := if clock[0] - ts[0] < WINDOW then [ts[0]] else [];
      assert clock[0] - ts[0] < WINDOW ==> ts[0] in kept;
      YoungAppend(kept, RecentEach(ts[1..], clock[1..]), later);
    }
  }

  lemma YoungAppend(a: seq<int>, b: seq<int>, now: int)
    ensures Young(a + b, now) <==> Young(a, now) && Young(b, now)
  {
    assert forall t :: t in a + b <==> t in a || t in b;
  }

  lemma YoungFirst(ts: seq<int>, clock: seq<int>, later: int)
    requires |ts| == |clock| > 0
    ensures StaysYoung(ts, clock, later) <==>
            (clock[0] - ts[0] < WINDOW ==> later - ts[0] < WINDOW) && StaysYoung(ts[1..], clock[1..], later)
  {
    if StaysYoung(ts[1..], clock[1..], later) {
      forall i | 1 <= i < |ts| && clock[i] - ts[i] < WINDOW
        ensures later - ts[i] < WINDOW
      {
        assert clock[1..][i - 1] - ts[1..][i - 1] < WINDOW;
      }
    }
  }

  /** The list a call leaves behind is exactly the recent part of the full history, its own request included, if and only if
      no entry ages while the call is under way. */
  lemma LeavesRecentIff(ts: seq<int>, h: seq<int>, last: int, c: Call)
    requires Agrees(ts, h, last) && Clocked(ts, last, c)
    ensures Recent(ts, c.now) == Recent(h, c.now)
    ensures Admit(ts, last, c) == Recent(h + [c.stamp], c.stamp) <==> NoneAges(h, c)
  {
    hide Recent, RecentEach;
    FirstFilterIsExact(ts, h, last, c.now);
    var kept := Recent(h, c.now);
    RecentAgain(h, c.now, c.stamp);
    RecentIsAllIff(h, c.now);
    if |kept| >= LIMIT {
      RecentEachAgain(kept, c.rereads, c.stamp);
      EachYoungIff(kept, c.rereads, c.stamp);
      ExactIff(RecentEach(kept, c.rereads), h, c.stamp);
    } else {
      ExactIff(kept, h, c.stamp);
      assert forall i :: 0 <= i < |kept| ==> kept[i] in kept;
    }
  }

  /** A list that agrees with the history on what is recent is, with a new request added, exactly what is recent of both when
      all of it is young. */
  lemma ExactIff(rest: seq<int>, h: seq<int>, stamp: int)
    requires Recent(rest, stamp) == Recent(h, stamp)
    ensures rest + [stamp] == Recent(h + [stamp], stamp) <==> Young(rest, stamp)
  {
    RecentAppend(h, [stamp], stamp);
    assert Recent([stamp], stamp) == [stamp] + Recent([stamp][1..], stamp) == [stamp];
    hide Recent;
    RecentIsAllIff(rest, stamp);
    var r := Recent(rest, stamp);
    assert (rest + [stamp])[..|rest|] == rest && (r + [stamp])[..|r|] == r;
  }

  /** An entry that was young on entry and old when the request is recorded stays in the list. */
  lemma LeftoverExample(c: Call)
    requires c == Call(999, [], 1000)
    ensures Tracks([0], [0], 0) && Clocked([0], 0, c)
    ensures Admit([0], 0, c) == [0, 1000] && Recent([0] + [1000], 1000) == [1000]
  {
    assert Recent([0][1..], 999) == [] && Recent([0, 1000][1..], 1000) == [1000];
  }

  /** A clock read anew for every entry can drop an entry and keep an older one: what is left need not be a suffix of the
      history. Requests at times 0 to 9; time 999 on entry, 1000 for the first two entries and 1002 from then on. */
  lemma NoSuffixExample(h: seq<int>, c: Call)
    requires |h| == 10 && forall i :: 0 <= i < 10 ==> h[i] == i
    requires c.now == 999 && c.stamp == 1002 && |c.rereads| == 10
    requires forall i :: 0 <= i < 10 ==> c.rereads[i] == if i < 2 then 1000 else 1002
    ensures Tracks(h, h, 9) && Clocked(h, 9, c)
    ensures Admit(h, 9, c) == [1] + h[3..] + [1002]
  {
    hide Recent, RecentEach;
    RecentKeepsAll(h, 9);
    RecentKeepsAll(h, 999);
    EachStep(h, c.rereads);
    EachStep(h[1..], c.rereads[1..]);
    EachStep(h[1..][1..], c.rereads[1..][1..]);
    assert h[1..][1..][1..] == h[3..] && c.rereads[1..][1..][1..] == c.rereads[3..];
    EachKeepsAll(h[3..], c.rereads[3..]);
  }

  lemma EachStep(ts: seq<int>, clock: seq<int>)
    requires |ts| == |clock| > 0
    ensures RecentEach(ts, clock) ==
            (if clock[0] - ts[0] < WINDOW then [ts[0]] else []) + RecentEach(ts[1..], clock[1..])
  {
  }

  lemma {:induction false} EachKeepsAll(ts: seq<int>, clock: seq<int>)
    requires |ts| == |clock| && forall i :: 0 <= i < |ts| ==> clock[i] - ts[i] < WINDOW
    ensures RecentEach(ts, clock) == ts
  {
    if |ts| > 0 {
      EachKeepsAll(ts[1..], clock[1..]);
    }
  }

  /** A sleep that ends a millisecond early on this clock: requests at time 0 and nine times 900; a call on entry at 950 sleeps
      only until 999 and leaves eleven entries. The next one, on entry at 999, sleeps as asked until 1000, drops only the
      first, and so eleven consecutive requests span a tenth of a second. */
  lemma EarlySleepExample(h: seq<int>, c: Call, d: Call)
    requires |h| == 10 && h[0] == 0 && forall i :: 1 <= i < 10 ==> h[i] == 900
    requires c.now == 950 && c.stamp == 999 && |c.rereads| == 10 && forall i :: 0 <= i < 10 ==> c.rereads[i] == 999
    requires d.now == 999 && d.stamp == 1000 && |d.rereads| == 11 && forall i :: 0 <= i < 11 ==> d.rereads[i] == 1000
    ensures Tracks(h, h, 900) && Clocked(h, 900, c) && !Drops(h, c) && Admit(h, 900, c) == h + [999]
    ensures Clocked(h + [999], 999, d) && Honoured(h + [999], d) && Drops(h + [999], d)
    ensures var all := h + [999] + [1000]; all[11] - all[1] == 100 && !Spaced(all)
  {
    EarlyFirst(h, c);
    RecentKeepsAll(h + [999], 999);
    hide Recent, Admit, Tracks, Drops;
    assert d.rereads[0] - (h + [999])[0] >= WINDOW;
    assert Drops(h + [999], d) by {
      SomeDropped(h + [999], d, 0);
    }
  }

  lemma EarlyFirst(h: seq<int>, c: Call)
    requires |h| == 10 && h[0] == 0 && forall i :: 1 <= i < 10 ==> h[i] == 900
    requires c.now == 950 && c.stamp == 999 && |c.rereads| == 10 && forall i :: 0 <= i < 10 ==> c.rereads[i] == 999
    ensures Tracks(h, h, 900) && Clocked(h, 900, c) && !Drops(h, c) && Admit(h, 900, c) == h + [999]
  {
    hide Recent, RecentEach;
    RecentKeepsAll(h, 900);
    RecentKeepsAll(h, 950);
    EachKeepsAll(h, c.rereads);
    SortedByOne(h);
    SortedByOne(c.rereads);
    hide Sorted;
  }

  lemma {:induction false} SortedByOne(ts: seq<int>)
    requires forall i :: 0 < i < |ts| ==> ts[i - 1] <= ts[i]
    ensures Sorted(ts)
  {
    if |ts| > 0 {
      var rest := ts[..|ts| - 1];
      SortedByOne(rest);
      forall i, j | 0 <= i <= j < |ts|
        ensures ts[i] <= ts[j]
      {
        if j == |ts| - 1 && i < j {
          assert rest[i] <= rest[j - 1];
        }
      }
    }
  }

  lemma SomeDropped(h: seq<int>, c: Call, i: nat)
    requires i < |Recent(h, c.now)| && i < |c.rereads| && c.rereads[i] - Recent(h, c.now)[i] >= WINDOW
    ensures Drops(h, c)
  {
    hide Recent;
  }

  // Whole runs

  datatype State = State(kept: seq<int>, history: seq<int>, last: int)

  ghost predicate Runs(s: State, calls: seq<Call>)
    decreases |calls|
  {
    |calls| == 0 || (Clocked(s.kept, s.last, calls[0]) && Runs(Next(s, calls[0]), calls[1..]))
  }

  ghost function Next(s: State, c: Call): State
    requires Clocked(s.kept, s.last, c)
  {
    State(Admit(s.kept, s.last, c), s.history + [c.stamp], c.stamp)
  }

  ghost function After(s: State, calls: seq<Call>): State
    requires Runs(s, calls)
    decreases |calls|
  {
    if |calls| == 0 then s else After(Next(s, calls[0]), calls[1..])
  }

  function Stamps(calls: seq<Call>): (r: seq<int>)
    ensures |r| == |calls| && forall i :: 0 <= i < |calls| ==> r[i] == calls[i].stamp
  {
    seq(|calls|, i requires 0 <= i < |calls| => calls[i].stamp)
  }

  /** Every run keeps the agreement, and its history is the list of recorded times. */
  lemma {:induction false} RunAgrees(s: State, calls: seq<Call>)
    requires Runs(s, calls) && Agrees(s.kept, s.history, s.last)
    ensures var e := After(s, calls);
            Agrees(e.kept, e.history, e.last) && e.history == s.history + Stamps(calls)
    decreases |calls|
  {
    hide Agrees, Clocked, Admit, Recent, RecentEach, Stamps;
    if |calls| > 0 {
      AdmitAgrees(s.kept, s.history, s.last, calls[0]);
      RunAgrees(Next(s, calls[0]), calls[1..]);
      StampsFirst(calls);
      assert s.history + ([calls[0].stamp] + Stamps(calls[1..])) == (s.history + [calls[0].stamp]) + Stamps(calls[1..]);
    } else {
      assert s.history + Stamps(calls) == s.history;
    }
  }

  lemma StampsFirst(calls: seq<Call>)
    requires |calls| > 0
    ensures Stamps(calls) == [calls[0].stamp] + Stamps(calls[1..])
  {
  }

  /** Any number of calls into a run, the next one is on the clock. */
  lemma {:induction false} RunPrefix(s: State, calls: seq<Call>, n: nat)
    requires Runs(s, calls) && n <= |calls|
    ensures Runs(s, calls[..n])
    ensures n < |calls| ==>
              var b := After(s, calls[..n]);
              Clocked(b.kept, b.last, calls[n]) && Runs(s, calls[..n + 1]) && After(s, calls[..n + 1]) == Next(b, calls[n])
    decreases n
  {
    if n > 0 {
      RunPrefix(Next(s, calls[0]), calls[1..], n - 1);
      assert calls[..n][1..] == calls[1..][..n - 1];
      if n < |calls| {
        assert calls[..n + 1][1..] == calls[1..][..n];
      }
    } else if |calls| > 0 {
      assert calls[..1][1..] == [];
      assert calls[..1][0] == calls[0];
      assert Runs(Next(s, calls[0]), []);
    }
  }

  /** The state before the n-th call of a run from an empty limiter, and after it. */
  lemma CallInRun(start: int, calls: seq<Call>, n: nat)
    requires Runs(State([], [], start), calls) && n < |calls|
    ensures Runs(State([], [], start), calls[..n]) && Runs(State([], [], start), calls[..n + 1])
    ensures var before := After(State([], [], start), calls[..n]);
            && before.history == Stamps(calls[..n]) && Agrees(before.kept, before.history, before.last)
            && Clocked(before.kept, before.last, calls[n])
            && After(State([], [], start), calls[..n + 1]) == Next(before, calls[n])
            && Stamps(calls[..n + 1]) == Stamps(calls[..n]) + [calls[n].stamp]
  {
    hide Runs, After, Clocked, Recent, Admit, Stamps, Agrees;
    EmptyAgrees(start);
    RunPrefix(State([], [], start), calls, n);
    RunAgrees(State([], [], start), calls[..n]);
    StampsLast(calls, n);
    assert [] + Stamps(calls[..n]) == Stamps(calls[..n]);
  }

  lemma StampsLast(calls: seq<Call>, n: nat)
    requires n < |calls|
    ensures Stamps(calls[..n + 1]) == Stamps(calls[..n]) + [calls[n].stamp]
  {
  }

  lemma EmptyAgrees(start: int)
    ensures Agrees([], [], start) && Tracks([], [], start)
  {
  }

  /** For every call of every run from an empty limiter: the list it leaves is exactly what is recent of all requests recorded
      so far if and only if none of the earlier ones aged during the call. */
  lemma RunLeavesRecentIff(start: int, calls: seq<Call>, n: nat)
    requires Runs(State([], [], start), calls) && n < |calls|
    ensures Runs(State([], [], start), calls[..n + 1])
    ensures After(State([], [], start), calls[..n + 1]).kept == Recent(Stamps(calls[..n + 1]), calls[n].stamp)
            <==> NoneAges(Stamps(calls[..n]), calls[n])
  {
    hide Agrees, Clocked, Runs, After, Recent, NoneAges;
    CallInRun(start, calls, n);
    var b := After(State([], [], start), calls[..n]);
    LeavesRecentIff(b.kept, b.history, b.last, calls[n]);
  }

  /** Rate limit over whole runs from an empty limiter, however long the sleeps take: any eleven consecutive recorded requests
      span at least a second if and only if every request is recorded in time. */
  lemma {:induction false} RunSpacedIff(start: int, calls: seq<Call>)
    requires Runs(State([], [], start), calls)
    ensures Spaced(Stamps(calls)) <==> forall n: nat :: n < |calls| ==> InTime(Stamps(calls[..n]), calls[n])
  {
    assert calls[..|calls|] == calls;
    SpacedUpTo(start, calls, |calls|);
  }

  lemma {:induction false} SpacedUpTo(start: int, calls: seq<Call>, m: nat)
    requires Runs(State([], [], start), calls) && m <= |calls|
    ensures Spaced(Stamps(calls[..m])) <==> forall n: nat :: n < m ==> InTime(Stamps(calls[..n]), calls[n])
  {
    hide Runs, After, Clocked, InTime, Recent, Stamps, Spaced, Agrees, Sorted;
    if m > 0 {
      SpacedUpTo(start, calls, m - 1);
      CallInRun(start, calls, m - 1);
      ClockedOnHistory(start, calls, m - 1);
      var h := Stamps(calls[..m - 1]);
      if Spaced(h) {
        SpacedCallIff(h, calls[m - 1]);
      } else {
        StaysUnspaced(h, calls[m - 1].stamp);
      }
    } else {
      NothingSpaced(Stamps(calls[..0]));
    }
  }

  lemma StaysUnspaced(h: seq<int>, stamp: int)
    requires !Spaced(h)
    ensures !Spaced(h + [stamp])
  {
    var i :| 0 <= i && i + LIMIT < |h| && h[i + LIMIT] - h[i] < WINDOW;
    assert (h + [stamp])[i + LIMIT] - (h + [stamp])[i] < WINDOW;
  }

  lemma NothingSpaced(h: seq<int>)
    requires |h| == 0
    ensures Spaced(h)
  {
  }

  lemma ClockedOnHistory(start: int, calls: seq<Call>, n: nat)
    requires Runs(State([], [], start), calls) && n < |calls|
    ensures var h := Stamps(calls[..n]);
            Sorted(h) && (|h| > 0 ==> h[|h| - 1] <= calls[n].now) && calls[n].now <= calls[n].stamp
  {
    hide Runs, After, Recent;
    CallInRun(start, calls, n);
  }

  /** The limiter does all it is for after every call of a run if and only if the second filter always drops something. */
  lemma RunTracksIff(start: int, calls: seq<Call>)
    requires Runs(State([], [], start), calls)
    ensures (forall m: nat :: m <= |calls| ==> TracksAfter(start, calls, m))
            <==> forall n: nat :: n < |calls| ==> Drops(Stamps(calls[..n]), calls[n])
  {
    hide Runs, Drops, TracksAfter;
    if forall n: nat :: n < |calls| ==> Drops(Stamps(calls[..n]), calls[n]) {
      forall m: nat | m <= |calls|
        ensures TracksAfter(start, calls, m)
      {
        DropsTrack(start, calls, m);
      }
    }
    if forall m: nat :: m <= |calls| ==> TracksAfter(start, calls, m) {
      forall n: nat | n < |calls|
        ensures Drops(Stamps(calls[..n]), calls[n])
      {
        assert TracksAfter(start, calls, n) && TracksAfter(start, calls, n + 1);
        TracksStepIff(start, calls, n);
      }
    }
  }

  ghost predicate TracksAfter(start: int, calls: seq<Call>, m: nat) {
    && m <= |calls| && Runs(State([], [], start), calls[..m])
    && var e := After(State([], [], start), calls[..m]); Tracks(e.kept, e.history, e.last)
  }

  lemma TracksStepIff(start: int, calls: seq<Call>, n: nat)
    requires Runs(State([], [], start), calls) && n < |calls| && TracksAfter(start, calls, n)
    ensures TracksAfter(start, calls, n + 1) <==> Drops(Stamps(calls[..n]), calls[n])
  {
    hide Runs, After, Clocked, Drops, Agrees, Tracks;
    CallInRun(start, calls, n);
    var b := After(State([], [], start), calls[..n]);
    AdmitTracksIff(b.kept, b.history, b.last, calls[n]);
  }

  lemma {:induction false} DropsTrack(start: int, calls: seq<Call>, m: nat)
    requires Runs(State([], [], start), calls) && m <= |calls|
    requires forall n: nat :: n < m ==> Drops(Stamps(calls[..n]), calls[n])
    ensures TracksAfter(start, calls, m)
  {
    hide Drops;
    if m > 0 {
      hide Runs, TracksAfter;
      DropsTrack(start, calls, m - 1);
      TracksStepIff(start, calls, m - 1);
    }
  }

  /** Where every sleep is honoured, any eleven consecutive recorded requests span at least a second. */
  lemma ElevenSpanASecond(start: int, calls: seq<Call>, i: nat)
    requires Runs(State([], [], start), calls) && i + 10 < |calls|
    requires forall n: nat :: n < |calls| ==> Honoured(Stamps(calls[..n]), calls[n])
    ensures calls[i + 10].stamp - calls[i].stamp >= 1000
  {
    hide Runs, After, Honoured, Drops, Clocked, Agrees;
    forall n: nat | n < |calls|
      ensures Drops(Stamps(calls[..n]), calls[n])
    {
      CallInRun(start, calls, n);
      var b := After(State([], [], start), calls[..n]);
      HonouredDrops(b.kept, b.last, b.history, calls[n]);
    }
    hide TracksAfter, Stamps, Recent;
    DropsTrack(start, calls, |calls|);
    TrackedIsSpaced(start, calls);
    assert Stamps(calls)[i + LIMIT] - Stamps(calls)[i] >= WINDOW;
  }

  lemma TrackedIsSpaced(start: int, calls: seq<Call>)
    requires Runs(State([], [], start), calls) && TracksAfter(start, calls, |calls|)
    ensures Spaced(Stamps(calls))
  {
    hide Runs, After, Clocked, Agrees, Recent, Stamps, Spaced;
    EmptyAgrees(start);
    assert calls[..|calls|] == calls;
    RunAgrees(State([], [], start), calls);
    assert [] + Stamps(calls) == Stamps(calls);
  }

  /** The limiter as the executor holds it: the kept list is a field, the history is only for the proof. */
  class Limiter {
    var requestTimestamps: seq<int>
    ghost var history: seq<int>
    ghost var last: int

    ghost predicate Valid()
      reads this
    {
      Agrees(requestTimestamps, history, last)
    }

    constructor (start: int)
      ensures Valid() && requestTimestamps == [] && history == [] && last == start
    {
      requestTimestamps, history, last := [], [], start;
    }

    method WaitForRateLimit(c: Call)
      requires Valid() && Clocked(requestTimestamps, last, c)
      modifies this
      ensures Valid() && history == old(history) + [c.stamp] && last == c.stamp
      ensures requestTimestamps == Admit(old(requestTimestamps), old(last), c)
      ensures requestTimestamps == Recent(history, c.stamp) <==> NoneAges(old(history), c)
      ensures old(Tracks(requestTimestamps, history, last)) ==>
                (Tracks(requestTimestamps, history, last) <==> Drops(old(history), c))
    {
      hide Agrees, NoneAges, Drops, Recent, RecentEach;
      LeavesRecentIff(requestTimestamps, history, last, c);
      AdmitAgrees(requestTimestamps, history, last, c);
      if Tracks(requestTimestamps, history, last) {
        AdmitTracksIff(requestTimestamps, history, last, c);
      }
      requestTimestamps := Recent(requestTimestamps, c.now);
      if |requestTimestamps| >= LIMIT {
        // sleeps for Wait(requestTimestamps, c.now); c.rereads says for how long it did
        requestTimestamps := RecentEach(requestTimestamps, c.rereads);
      }
      requestTimestamps := requestTimestamps + [c.stamp];
      history, last := history + [c.stamp], c.stamp;
    }
  }
}
