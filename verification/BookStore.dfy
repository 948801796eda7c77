/** The order-book store of the ingestion service: per token and side a ZSET of price strings scored by their parsed value and
    a HASH of their sizes (RedisStore), fed by price changes and snapshots (the websocket handlers). Prices and sizes stay
    the strings they arrive as; how a string parses to a 64-bit float is a parameter, exact on finite values. */
module BookStore {
  import opened Common

  datatype F64 = Finite(r: real) | PosInf | NegInf | NaN

  /** str::parse::<f64>; None is a parse error. */
  type Parser = string -> Option<F64>

  predicate Negative(x: F64) {
    x.NegInf? || (x.Finite? && x.r < 0.0)
  }

  predicate Positive(x: F64) {
    x.PosInf? || (x.Finite? && x.r > 0.0)
  }

  /** Order of scores; NaN is not one. */
  predicate AtMost(a: F64, b: F64) {
    a.NegInf? || b.PosInf? || (a.Finite? && b.Finite? && a.r <= b.r)
  }

  datatype Side = Bid | Ask

  // Keys

  function SideName(s: Side): string {
    if s.Bid? then ":bids" else ":asks"
  }

  function BookKey(token: string, s: Side): string {
    "ob:" + token + SideName(s)
  }

  function SizesKey(token: string, s: Side): string {
    BookKey(token, s) + ":sizes"
  }

  lemma BookKeysDiffer(token: string, s: Side, token': string, s': Side)
    ensures BookKey(token, s) == BookKey(token', s') <==> token == token' && s == s'
  {
    var k, k' := BookKey(token, s), BookKey(token', s');
    if k == k' {
      assert k[|k| - 4] == SideName(s)[1] && k'[|k'| - 4] == SideName(s')[1];
      assert k[3..|k| - 5] == token && k'[3..|k'| - 5] == token';
    }
  }

  lemma SizesKeysDiffer(token: string, s: Side, token': string, s': Side)
    ensures SizesKey(token, s) == SizesKey(token', s') <==> token == token' && s == s'
  {
    var k, k' := SizesKey(token, s), SizesKey(token', s');
    if k == k' {
      assert k[..|k| - 6] == BookKey(token, s) && k'[..|k'| - 6] == BookKey(token', s');
      BookKeysDiffer(token, s, token', s');
    }
  }

  // Redis

  datatype Keyspace = Keyspace(zsets: map<string, map<string, F64>>, hashes: map<string, map<string, string>>)

  function ZsetAt(k: Keyspace, key: string): map<string, F64> {
    if key in k.zsets then k.zsets[key] else map[]
  }

  function HashAt(k: Keyspace, key: string): map<string, string> {
    if key in k.hashes then k.hashes[key] else map[]
  }

  datatype Command =
    | ZAdd(key: string, member: string, score: F64)
    | ZRem(key: string, member: string)
    | HSet(key: string, member: string, text: string)
    | HDel(key: string, member: string)
    | Del(key: string)

  /** Redis refuses a score that is not a number; every other command of a pipeline still takes effect. */
  predicate Refused(c: Command) {
    c.ZAdd? && c.score.NaN?
  }

  function Exec1(k: Keyspace, c: Command): Keyspace {
    match c
    case ZAdd(key, m, score) => if score.NaN? then k else k.(zsets := k.zsets[key := ZsetAt(k, key)[m := score]])
    case ZRem(key, m) => k.(zsets := k.zsets[key := ZsetAt(k, key) - {m}])
    case HSet(key, m, text) => k.(hashes := k.hashes[key := HashAt(k, key)[m := text]])
    case HDel(key, m) => k.(hashes := k.hashes[key := HashAt(k, key) - {m}])
    case Del(key) => Keyspace(k.zsets - {key}, k.hashes - {key})
  }

  function Exec(k: Keyspace, cs: seq<Command>): Keyspace {
    if |cs| == 0 then k else Exec1(Exec(k, cs[..|cs| - 1]), cs[|cs| - 1])
  }

  lemma {:induction false} ExecAppend(k: Keyspace, a: seq<Command>, b: seq<Command>)
    ensures Exec(k, a + b) == Exec(Exec(k, a), b)
  {
    if |b| == 0 {
      assert a + b == a;
    } else {
      assert (a + b)[..|a + b| - 1] == a + b[..|b| - 1];
      ExecAppend(k, a, b[..|b| - 1]);
    }
  }

  lemma ExecTwo(k: Keyspace, a: Command, b: Command)
    ensures Exec(k, [a, b]) == Exec1(Exec1(k, a), b)
  {
    assert [a, b][..1] == [a] && [a][..0] == [];
    assert Exec(k, [a]) == Exec1(k, a);
  }

  // What the store is told

  datatype Entry = Entry(token: string, side: Side, price: string, size: string)

  datatype Message = PriceChanges(entries: seq<Entry>) | Snapshot(token: string, bids: seq<(string, string)>, asks: seq<(string, string)>)

  datatype Outcome = Done | InvalidPrice | InvalidSize | RedisError

  /** The validation of update_price_level, in its order. */
  function Validated(parse: Parser, e: Entry): Outcome {
    if parse(e.price).None? then InvalidPrice
    else if parse(e.size).None? then InvalidSize
    else if Negative(parse(e.price).value) then InvalidPrice
    else if Negative(parse(e.size).value) then InvalidSize
    else Done
  }

  function UpdateCommands(parse: Parser, e: Entry): seq<Command>
    requires Validated(parse, e) == Done
  {
    var zset, sizes := BookKey(e.token, e.side), SizesKey(e.token, e.side);
    if parse(e.size).value == Finite(0.0) then [ZRem(zset, e.price), HDel(sizes, e.price)]
    else [ZAdd(zset, e.price, parse(e.price).value), HSet(sizes, e.price, e.size)]
  }

  function UpdateOutcome(parse: Parser, e: Entry): Outcome {
    if Validated(parse, e) != Done then Validated(parse, e)
    else if Refused(UpdateCommands(parse, e)[0]) then RedisError
    else Done
  }

  function Updated(parse: Parser, k: Keyspace, e: Entry): Keyspace {
    if Validated(parse, e) != Done then k else Exec(k, UpdateCommands(parse, e))
  }

  /** The commands a snapshot queues for the levels of one side: only positive prices are kept, sizes are not looked at. */
  function LevelCommands(parse: Parser, zset: string, sizes: string, levels: seq<(string, string)>): seq<Command> {
    if |levels| == 0 then []
    else
      var (price, size) := levels[|levels| - 1];
      LevelCommands(parse, zset, sizes, levels[..|levels| - 1])
      + if parse(price).Some? && Positive(parse(price).value)
        then [ZAdd(zset, price, parse(price).value), HSet(sizes, price, size)] else []
  }

  function ClearCommands(token: string): seq<Command> {
    [Del(BookKey(token, Bid)), Del(BookKey(token, Ask)), Del(SizesKey(token, Bid)), Del(SizesKey(token, Ask))]
  }

  function SnapshotCommands(parse: Parser, token: string, bids: seq<(string, string)>, asks: seq<(string, string)>): seq<Command> {
    ClearCommands(token)
    + LevelCommands(parse, BookKey(token, Bid), SizesKey(token, Bid), bids)
    + LevelCommands(parse, BookKey(token, Ask), SizesKey(token, Ask), asks)
  }

  /** Entries are applied in turn; the first error ends the message. */
  function EntriesApplied(parse: Parser, k: Keyspace, entries: seq<Entry>): (Keyspace, Outcome) {
    if |entries| == 0 then (k, Done)
    else
      var (before, outcome) := EntriesApplied(parse, k, entries[..|entries| - 1]);
      var e := entries[|entries| - 1];
      if outcome != Done then (before, outcome) else (Updated(parse, before, e), UpdateOutcome(parse, e))
  }

  function Handled(parse: Parser, k: Keyspace, m: Message): Keyspace {
    match m
    case PriceChanges(entries) => EntriesApplied(parse, k, entries).0
    case Snapshot(token, bids, asks) => Exec(k, SnapshotCommands(parse, token, bids, asks))
  }

  // The plain reference: per token and side a map from price strings to size strings

  type Books = map<(string, Side), map<string, string>>

  function PlainSide(b: Books, token: string, s: Side): map<string, string> {
    if (token, s) in b then b[(token, s)] else map[]
  }

  function PlainUpdated(parse: Parser, b: Books, e: Entry): Books {
    if Validated(parse, e) != Done then b
    else
      var side := PlainSide(b, e.token, e.side);
      b[(e.token, e.side) := if parse(e.size).value == Finite(0.0) then side - {e.price} else side[e.price := e.size]]
  }

  function PlainLevels(parse: Parser, levels: seq<(string, string)>): map<string, string> {
    if |levels| == 0 then map[]
    else
      var (price, size) := levels[|levels| - 1];
      var rest := PlainLevels(parse, levels[..|levels| - 1]);
      if parse(price).Some? && Positive(parse(price).value) then rest[price := size] else rest
  }

  function PlainEntries(parse: Parser, b: Books, entries: seq<Entry>): (Books, Outcome) {
    if |entries| == 0 then (b, Done)
    else
      var (before, outcome) := PlainEntries(parse, b, entries[..|entries| - 1]);
      var e := entries[|entries| - 1];
      if outcome != Done then (before, outcome) else (PlainUpdated(parse, before, e), UpdateOutcome(parse, e))
  }

  function PlainHandled(parse: Parser, b: Books, m: Message): Books {
    match m
    case PriceChanges(entries) => PlainEntries(parse, b, entries).0
    case Snapshot(token, bids, asks) => b[(token, Bid) := PlainLevels(parse, bids)][(token, Ask) := PlainLevels(parse, asks)]
  }

  // What the reference holds, price by price

  predicate Holds(side: map<string, string>, price: string, size: string) {
    price in side && side[price] == size
  }

  /** A price string for a number above zero, infinity included. */
  predicate Priced(x: Option<F64>) {
    match x
    case None => false
    case Some(Finite(r)) => r > 0.0
    case Some(PosInf) => true
    case Some(_) => false
  }

  /** The k-th level is the last that names the price, and has the size. */
  predicate LastLevel(levels: seq<(string, string)>, k: int, price: string, size: string) {
    0 <= k < |levels| && levels[k] == (price, size) && forall j :: k < j < |levels| ==> levels[j].0 != price
  }

  /** A snapshot leaves a price at a size exactly when the price is above zero and the last level that names it has that
      size. */
  lemma {:induction false} SnapshotHoldsIff(parse: Parser, levels: seq<(string, string)>, price: string, size: string)
    ensures Holds(PlainLevels(parse, levels), price, size) <==>
            Priced(parse(price)) && exists k :: LastLevel(levels, k, price, size)
  {
    hide LastLevel;
    if |levels| > 0 {
      var n := |levels| - 1;
      SnapshotHoldsIff(parse, levels[..n], price, size);
      forall k
        ensures LastLevel(levels, k, price, size) <==>
                if k == n then levels[n] == (price, size) else levels[n].0 != price && LastLevel(levels[..n], k, price, size)
      {
        LastOfMore(levels, k, price, size);
      }
      assert LastLevel(levels, n, price, size) <==> levels[n] == (price, size);
      assert forall k :: LastLevel(levels[..n], k, price, size) && levels[n].0 != price && k != n ==> LastLevel(levels, k, price, size);
      LastBelow(levels[..n], price, size);
    } else {
      LastOfNone(price, size);
    }
  }

  lemma LastOfMore(levels: seq<(string, string)>, k: int, price: string, size: string)
    requires |levels| > 0
    ensures var n := |levels| - 1;
            LastLevel(levels, k, price, size) <==>
            if k == n then levels[n] == (price, size) else levels[n].0 != price && LastLevel(levels[..n], k, price, size)
  {
    var n := |levels| - 1;
    assert forall j :: 0 <= j < n ==> levels[..n][j] == levels[j];
  }

  lemma LastBelow(levels: seq<(string, string)>, price: string, size: string)
    ensures forall k :: LastLevel(levels, k, price, size) ==> 0 <= k < |levels|
  {
  }

  lemma LastOfNone(price: string, size: string)
    ensures forall k :: !LastLevel([], k, price, size)
  {
  }

  /** A change is refused for a price or size that does not parse or is below zero, the price looked at first unless the
      size does not parse. */
  predicate Refuses(parse: Parser, e: Entry, o: Outcome) {
    var price, size := parse(e.price), parse(e.size);
    match o
    case InvalidPrice => price == None || (size != None && Below(price))
    case InvalidSize => price != None && (size == None || (!Below(price) && Below(size)))
    case _ => false
  }

  predicate Below(x: Option<F64>) {
    match x
    case Some(Finite(r)) => r < 0.0
    case Some(NegInf) => true
    case _ => false
  }

  /** A change that is not refused puts its price at its size or, at size zero, takes it away, and is reported as a Redis
      error only for a price that is not a number with a size; no other price changes. */
  lemma ChangeHoldsIff(parse: Parser, b: Books, e: Entry, token: string, s: Side, price: string, size: string)
    ensures var o := UpdateOutcome(parse, e);
            && (o == InvalidPrice || o == InvalidSize ==> Refuses(parse, e, o))
            && (Refuses(parse, e, InvalidPrice) ==> o == InvalidPrice) && (Refuses(parse, e, InvalidSize) ==> o == InvalidSize)
            && (o == RedisError <==> parse(e.price) == Some(NaN) && parse(e.size) != Some(Finite(0.0)) &&
                                     parse(e.size) != None && !Below(parse(e.size)))
    ensures var o := UpdateOutcome(parse, e);
            Holds(PlainSide(PlainUpdated(parse, b, e), token, s), price, size) <==>
            if (token, s, price) == (e.token, e.side, e.price) && (o == Done || o == RedisError)
            then size == e.size && parse(size) != Some(Finite(0.0))
            else Holds(PlainSide(b, token, s), price, size)
  {
  }

  // Refinement

  ghost predicate SideRefines(parse: Parser, z: map<string, F64>, h: map<string, string>, plain: map<string, string>) {
    && h == plain
    && (forall m :: m in h ==> parse(m).Some?)
    && (forall m :: m in z <==> m in h && parse(m) != Some(NaN))
    && (forall m :: m in z ==> parse(m) == Some(z[m]))
  }

  /** Every side's HASH is the plain map, its ZSET holds the same members except prices that parse to NaN, and every score is
      the parsed member. */
  ghost predicate Refines(parse: Parser, k: Keyspace, b: Books) {
    forall token: string, s: Side ::
      SideRefines(parse, ZsetAt(k, BookKey(token, s)), HashAt(k, SizesKey(token, s)), PlainSide(b, token, s))
  }

  /** What a pair of commands, one on the ZSET and one on the HASH of a side, does to any side. */
  ghost predicate PairDone(k: Keyspace, k': Keyspace, same: bool, zset: string, sizes: string, a: Command, b: Command) {
    && ZsetAt(k', zset) == (if !same || Refused(a) then ZsetAt(k, zset)
                            else if a.ZAdd? then ZsetAt(k, zset)[a.member := a.score]
                            else if a.ZRem? then ZsetAt(k, zset) - {a.member} else ZsetAt(k, zset))
    && HashAt(k', sizes) == (if !same then HashAt(k, sizes)
                             else if b.HSet? then HashAt(k, sizes)[b.member := b.text]
                             else if b.HDel? then HashAt(k, sizes) - {b.member} else HashAt(k, sizes))
  }

  lemma PairEffect(k: Keyspace, token: string, s: Side, a: Command, b: Command, token': string, s': Side)
    requires (a.ZAdd? || a.ZRem?) && a.key == BookKey(token, s)
    requires (b.HSet? || b.HDel?) && b.key == SizesKey(token, s)
    ensures PairDone(k, Exec(k, [a, b]), token == token' && s == s', BookKey(token', s'), SizesKey(token', s'), a, b)
  {
    hide BookKey, SizesKey, Exec;
    ExecTwo(k, a, b);
    BookKeysDiffer(token, s, token', s');
    SizesKeysDiffer(token, s, token', s');
  }

  lemma UpdateRefines(parse: Parser, k: Keyspace, b: Books, e: Entry)
    requires Refines(parse, k, b)
    ensures Refines(parse, Updated(parse, k, e), PlainUpdated(parse, b, e))
  {
    hide BookKey, SizesKey, Exec;
    if Validated(parse, e) == Done {
      var cs := UpdateCommands(parse, e);
      assert cs == [cs[0], cs[1]];
      var k', b' := Updated(parse, k, e), PlainUpdated(parse, b, e);
      forall token: string, s: Side
        ensures SideRefines(parse, ZsetAt(k', BookKey(token, s)), HashAt(k', SizesKey(token, s)), PlainSide(b', token, s))
      {
        assert SideRefines(parse, ZsetAt(k, BookKey(token, s)), HashAt(k, SizesKey(token, s)), PlainSide(b, token, s));
        PairEffect(k, e.token, e.side, cs[0], cs[1], token, s);
      }
    }
  }

  lemma {:induction false} EntriesRefine(parse: Parser, k: Keyspace, b: Books, entries: seq<Entry>)
    requires Refines(parse, k, b)
    ensures Refines(parse, EntriesApplied(parse, k, entries).0, PlainEntries(parse, b, entries).0)
    ensures EntriesApplied(parse, k, entries).1 == PlainEntries(parse, b, entries).1
  {
    hide Refines;
    if |entries| > 0 {
      var rest := entries[..|entries| - 1];
      EntriesRefine(parse, k, b, rest);
      UpdateRefines(parse, EntriesApplied(parse, k, rest).0, PlainEntries(parse, b, rest).0, entries[|entries| - 1]);
    }
  }

  /** Deleting keys empties them and leaves all others. */
  lemma {:induction false} DeleteEffect(k: Keyspace, cs: seq<Command>, key: string)
    requires forall i :: 0 <= i < |cs| ==> cs[i].Del?
    ensures var k' := Exec(k, cs);
            if exists i :: 0 <= i < |cs| && cs[i].key == key then ZsetAt(k', key) == map[] && HashAt(k', key) == map[]
            else ZsetAt(k', key) == ZsetAt(k, key) && HashAt(k', key) == HashAt(k, key)
  {
    if |cs| > 0 {
      DeleteEffect(k, cs[..|cs| - 1], key);
    }
  }

  /** Clearing a token empties its two sides and leaves all others. */
  lemma ClearEffect(k: Keyspace, token: string, token': string, s': Side)
    ensures var k' := Exec(k, ClearCommands(token));
            && (token == token' ==> ZsetAt(k', BookKey(token', s')) == map[] && HashAt(k', SizesKey(token', s')) == map[])
            && (token != token' ==> ZsetAt(k', BookKey(token', s')) == ZsetAt(k, BookKey(token', s')) &&
                                    HashAt(k', SizesKey(token', s')) == HashAt(k, SizesKey(token', s')))
  {
    hide BookKey, SizesKey, Exec;
    var cs := ClearCommands(token);
    DeleteEffect(k, cs, BookKey(token', s'));
    DeleteEffect(k, cs, SizesKey(token', s'));
    forall s: Side
      ensures BookKey(token', s') == BookKey(token, s) <==> token' == token && s' == s
      ensures SizesKey(token', s') == SizesKey(token, s) <==> token' == token && s' == s
      ensures BookKey(token', s') != SizesKey(token, s) && SizesKey(token', s') != BookKey(token, s)
    {
      BookKeysDiffer(token', s', token, s);
      SizesKeysDiffer(token', s', token, s);
      BookIsNotSizes(token', s', token, s);
      BookIsNotSizes(token, s, token', s');
    }
    assert cs[0].key == BookKey(token, Bid) && cs[1].key == BookKey(token, Ask);
    assert cs[2].key == SizesKey(token, Bid) && cs[3].key == SizesKey(token, Ask);
  }

  lemma BookIsNotSizes(token: string, s: Side, token': string, s': Side)
    ensures BookKey(token, s) != SizesKey(token', s')
  {
    var k, k' := BookKey(token, s), SizesKey(token', s');
    assert k[|k| - 3] == SideName(s)[2] && k'[|k'| - 3] == 'z';
  }

  /** Queueing the levels of a side on an empty one gives the plain levels; other sides keep what they have. */
  lemma {:induction false} LevelsRefine(parse: Parser, k: Keyspace, token: string, s: Side, levels: seq<(string, string)>)
    requires ZsetAt(k, BookKey(token, s)) == map[] && HashAt(k, SizesKey(token, s)) == map[]
    ensures var k' := Exec(k, LevelCommands(parse, BookKey(token, s), SizesKey(token, s), levels));
            && SideRefines(parse, ZsetAt(k', BookKey(token, s)), HashAt(k', SizesKey(token, s)), PlainLevels(parse, levels))
            && forall token': string, s': Side :: token' != token || s' != s ==>
                 && ZsetAt(k', BookKey(token', s')) == ZsetAt(k, BookKey(token', s'))
                 && HashAt(k', SizesKey(token', s')) == HashAt(k, SizesKey(token', s'))
  {
    hide BookKey, SizesKey, Exec1;
    if |levels| > 0 {
      var rest := levels[..|levels| - 1];
      var (price, size) := levels[|levels| - 1];
      LevelsRefine(parse, k, token, s, rest);
      var before := LevelCommands(parse, BookKey(token, s), SizesKey(token, s), rest);
      if parse(price).Some? && Positive(parse(price).value) {
        var a, b := ZAdd(BookKey(token, s), price, parse(price).value), HSet(SizesKey(token, s), price, size);
        ExecAppend(k, before, [a, b]);
        PairEffect(Exec(k, before), token, s, a, b, token, s);
        forall token': string, s': Side | token' != token || s' != s
          ensures var k' := Exec(k, before + [a, b]);
                  && ZsetAt(k', BookKey(token', s')) == ZsetAt(k, BookKey(token', s'))
                  && HashAt(k', SizesKey(token', s')) == HashAt(k, SizesKey(token', s'))
        {
          PairEffect(Exec(k, before), token, s, a, b, token', s');
        }
      } else {
        assert before + [] == before;
      }
    }
  }

  lemma SnapshotRefines(parse: Parser, k: Keyspace, b: Books, token: string, bids: seq<(string, string)>, asks: seq<(string, string)>)
    requires Refines(parse, k, b)
    ensures Refines(parse, Handled(parse, k, Snapshot(token, bids, asks)), PlainHandled(parse, b, Snapshot(token, bids, asks)))
  {
    var k', b' := Handled(parse, k, Snapshot(token, bids, asks)), PlainHandled(parse, b, Snapshot(token, bids, asks));
    hide *;
    forall token': string, s: Side
      ensures SideRefines(parse, ZsetAt(k', BookKey(token', s)), HashAt(k', SizesKey(token', s)), PlainSide(b', token', s))
    {
      SnapshotSide(parse, k, b, token, bids, asks, token', s);
    }
    RefinesFromSides(parse, k', b');
  }

  lemma RefinesFromSides(parse: Parser, k: Keyspace, b: Books)
    requires forall token: string, s: Side ::
               SideRefines(parse, ZsetAt(k, BookKey(token, s)), HashAt(k, SizesKey(token, s)), PlainSide(b, token, s))
    ensures Refines(parse, k, b)
  {
  }

  lemma SnapshotSide(parse: Parser, k: Keyspace, b: Books, token: string, bids: seq<(string, string)>,
                     asks: seq<(string, string)>, token': string, s: Side)
    requires Refines(parse, k, b)
    ensures var k' := Handled(parse, k, Snapshot(token, bids, asks));
            SideRefines(parse, ZsetAt(k', BookKey(token', s)), HashAt(k', SizesKey(token', s)),
                        PlainSide(PlainHandled(parse, b, Snapshot(token, bids, asks)), token', s))
  {
    hide BookKey, SizesKey, Exec, LevelCommands, PlainLevels, ClearCommands, SideRefines, ZsetAt, HashAt;
    var clear := ClearCommands(token);
    var onBids := LevelCommands(parse, BookKey(token, Bid), SizesKey(token, Bid), bids);
    var onAsks := LevelCommands(parse, BookKey(token, Ask), SizesKey(token, Ask), asks);
    ExecAppend(k, clear + onBids, onAsks);
    ExecAppend(k, clear, onBids);
    ClearEffect(k, token, token, Bid);
    ClearEffect(k, token, token, Ask);
    ClearEffect(k, token, token', s);
    LevelsRefine(parse, Exec(k, clear), token, Bid, bids);
    LevelsRefine(parse, Exec(k, clear + onBids), token, Ask, asks);
    assert SideRefines(parse, ZsetAt(k, BookKey(token', s)), HashAt(k, SizesKey(token', s)), PlainSide(b, token', s));
  }

  // Whole runs

  function After(parse: Parser, k: Keyspace, ms: seq<Message>): Keyspace {
    if |ms| == 0 then k else Handled(parse, After(parse, k, ms[..|ms| - 1]), ms[|ms| - 1])
  }

  function PlainAfter(parse: Parser, b: Books, ms: seq<Message>): Books {
    if |ms| == 0 then b else PlainHandled(parse, PlainAfter(parse, b, ms[..|ms| - 1]), ms[|ms| - 1])
  }

  const EMPTY := Keyspace(map[], map[])

  /** After any sequence of messages, however they fail, the store refines the plain fold of the same messages. */
  lemma {:induction false} RunRefines(parse: Parser, ms: seq<Message>)
    ensures Refines(parse, After(parse, EMPTY, ms), PlainAfter(parse, map[], ms))
  {
    hide Handled, PlainHandled;
    if |ms| > 0 {
      var rest, m := ms[..|ms| - 1], ms[|ms| - 1];
      RunRefines(parse, rest);
      MessageRefines(parse, After(parse, EMPTY, rest), PlainAfter(parse, map[], rest), m);
    }
  }

  lemma MessageRefines(parse: Parser, k: Keyspace, b: Books, m: Message)
    requires Refines(parse, k, b)
    ensures Refines(parse, Handled(parse, k, m), PlainHandled(parse, b, m))
  {
    hide Refines;
    match m
    case PriceChanges(entries) => EntriesRefine(parse, k, b, entries);
    case Snapshot(token, bids, asks) => SnapshotRefines(parse, k, b, token, bids, asks);
  }

  /** ZSET members equal HASH keys on a side exactly when no stored price of it parses to NaN. */
  lemma MembersEqualKeysIff(parse: Parser, ms: seq<Message>, token: string, s: Side)
    ensures var k := After(parse, EMPTY, ms);
            ZsetAt(k, BookKey(token, s)).Keys == HashAt(k, SizesKey(token, s)).Keys
            <==> forall m :: m in PlainSide(PlainAfter(parse, map[], ms), token, s) ==> parse(m) != Some(NaN)
  {
    hide After, PlainAfter, BookKey, SizesKey;
    RunRefines(parse, ms);
    var k, b := After(parse, EMPTY, ms), PlainAfter(parse, map[], ms);
    assert SideRefines(parse, ZsetAt(k, BookKey(token, s)), HashAt(k, SizesKey(token, s)), PlainSide(b, token, s));
    if forall m :: m in PlainSide(b, token, s) ==> parse(m) != Some(NaN) {
      assert ZsetAt(k, BookKey(token, s)).Keys == HashAt(k, SizesKey(token, s)).Keys;
    }
  }

  /** No price change with a NaN price, nor a snapshot, ever stores one, so then the two always agree. */
  ghost predicate NoNaN(parse: Parser, m: Message) {
    m.PriceChanges? ==> forall i :: 0 <= i < |m.entries| ==> parse(m.entries[i].price) != Some(NaN)
  }

  lemma {:induction false} PlainStaysNumeric(parse: Parser, ms: seq<Message>, token: string, s: Side)
    requires forall i :: 0 <= i < |ms| ==> NoNaN(parse, ms[i])
    ensures forall m :: m in PlainSide(PlainAfter(parse, map[], ms), token, s) ==> parse(m) != Some(NaN)
  {
    if |ms| > 0 {
      var rest, last := ms[..|ms| - 1], ms[|ms| - 1];
      PlainStaysNumeric(parse, rest, token, s);
      assert NoNaN(parse, ms[|ms| - 1]);
      match last
      case PriceChanges(entries) => PlainEntriesNumeric(parse, PlainAfter(parse, map[], rest), entries, token, s);
      case Snapshot(_, bids, asks) =>
        PlainLevelsNumeric(parse, bids);
        PlainLevelsNumeric(parse, asks);
    }
  }

  lemma {:induction false} PlainEntriesNumeric(parse: Parser, b: Books, entries: seq<Entry>, token: string, s: Side)
    requires forall m :: m in PlainSide(b, token, s) ==> parse(m) != Some(NaN)
    requires forall i :: 0 <= i < |entries| ==> parse(entries[i].price) != Some(NaN)
    ensures forall m :: m in PlainSide(PlainEntries(parse, b, entries).0, token, s) ==> parse(m) != Some(NaN)
  {
    if |entries| > 0 {
      PlainEntriesNumeric(parse, b, entries[..|entries| - 1], token, s);
    }
  }

  lemma {:induction false} PlainLevelsNumeric(parse: Parser, levels: seq<(string, string)>)
    ensures forall m :: m in PlainLevels(parse, levels) ==> parse(m) != Some(NaN)
  {
    if |levels| > 0 {
      PlainLevelsNumeric(parse, levels[..|levels| - 1]);
    }
  }

  /** Without NaN prices in the price changes, members and keys agree on every side after every run. */
  lemma MembersEqualKeys(parse: Parser, ms: seq<Message>, token: string, s: Side)
    requires forall i :: 0 <= i < |ms| ==> NoNaN(parse, ms[i])
    ensures var k := After(parse, EMPTY, ms);
            ZsetAt(k, BookKey(token, s)).Keys == HashAt(k, SizesKey(token, s)).Keys
  {
    PlainStaysNumeric(parse, ms, token, s);
    MembersEqualKeysIff(parse, ms, token, s);
  }

  /** One price change with a NaN price and a size is enough to part them. */
  lemma NaNPartsThem(parse: Parser, token: string, s: Side, price: string, size: string)
    requires parse(price) == Some(NaN) && parse(size).Some? && Positive(parse(size).value)
    ensures var k := After(parse, EMPTY, [PriceChanges([Entry(token, s, price, size)])]);
            price in HashAt(k, SizesKey(token, s)) && price !in ZsetAt(k, BookKey(token, s))
  {
    hide BookKey, SizesKey;
    var e := Entry(token, s, price, size);
    var ms := [PriceChanges([e])];
    RunRefines(parse, ms);
    assert ms[..0] == [] && [e][..0] == [];
    assert PlainEntries(parse, map[], [e]).0 == PlainUpdated(parse, map[], e);
    assert PlainAfter(parse, map[], ms) == PlainHandled(parse, map[], ms[0]);
    var k := After(parse, EMPTY, ms);
    assert SideRefines(parse, ZsetAt(k, BookKey(token, s)), HashAt(k, SizesKey(token, s)), PlainSide(PlainAfter(parse, map[], ms), token, s));
  }

  // Best prices

  /** a is at least as good a price on the side as b. */
  predicate NotWorse(s: Side, a: F64, b: F64) {
    if s.Bid? then AtMost(b, a) else AtMost(a, b)
  }

  /** Order of members with equal scores, by code points. */
  predicate LexAtMost(a: string, b: string) {
    |a| == 0 || (|b| > 0 && (a[0] < b[0] || (a[0] == b[0] && LexAtMost(a[1..], b[1..]))))
  }

  lemma {:induction false} LexTotal(a: string, b: string)
    ensures LexAtMost(a, b) || LexAtMost(b, a)
    ensures LexAtMost(a, b) && LexAtMost(b, a) ==> a == b
  {
    if |a| > 0 && |b| > 0 && a[0] == b[0] {
      LexTotal(a[1..], b[1..]);
      assert a == [a[0]] + a[1..] && b == [b[0]] + b[1..];
    }
  }

  lemma {:induction false} LexTransitive(a: string, b: string, c: string)
    requires LexAtMost(a, b) && LexAtMost(b, c)
    ensures LexAtMost(a, c)
  {
    if |a| > 0 && |b| > 0 && |c| > 0 && a[0] == b[0] && b[0] == c[0] {
      LexTransitive(a[1..], b[1..], c[1..]);
    }
  }

  /** Member m with score a comes before member x with score b when a side is read from its best price on: asks upwards, bids
      downwards, members with equal scores included. */
  predicate Ahead(s: Side, a: F64, m: string, b: F64, x: string) {
    if a != b then NotWorse(s, a, b) else if s.Bid? then LexAtMost(x, m) else LexAtMost(m, x)
  }

  lemma AheadTotal(s: Side, a: F64, m: string, b: F64, x: string)
    requires !a.NaN? && !b.NaN?
    ensures Ahead(s, a, m, b, x) || Ahead(s, b, x, a, m)
    ensures Ahead(s, a, m, b, x) && Ahead(s, b, x, a, m) ==> a == b && m == x
  {
    hide LexAtMost;
    LexTotal(m, x);
  }

  lemma AheadTransitive(s: Side, a: F64, m: string, b: F64, x: string, c: F64, y: string)
    requires !a.NaN? && !b.NaN? && !c.NaN? && Ahead(s, a, m, b, x) && Ahead(s, b, x, c, y)
    ensures Ahead(s, a, m, c, y)
  {
    hide LexAtMost;
    if a == b == c {
      if s.Bid? {
        LexTransitive(y, x, m);
      } else {
        LexTransitive(m, x, y);
      }
    }
  }

  /** What a range of one element returns. */
  predicate BestAmong(z: map<string, F64>, members: set<string>, s: Side, m: string) {
    m in members && m in z && forall x :: x in members && x in z ==> Ahead(s, z[m], m, z[x], x)
  }

  lemma {:induction false} HasBest(z: map<string, F64>, members: set<string>, s: Side) returns (best: string)
    requires members != {} && members <= z.Keys && forall m :: m in z ==> !z[m].NaN?
    ensures BestAmong(z, members, s, best)
    decreases |members|
  {
    hide Ahead;
    var m :| m in members;
    var rest := members - {m};
    AheadTotal(s, z[m], m, z[m], m);
    if rest == {} {
      assert members == {m};
      best := m;
    } else {
      var h := HasBest(z, rest, s);
      AheadTotal(s, z[h], h, z[m], m);
      best := if Ahead(s, z[h], h, z[m], m) then h else m;
      forall x | x in members && x in z
        ensures Ahead(s, z[best], best, z[x], x)
      {
        assert x == m || x in rest;
        if best == m && x != m {
          AheadTransitive(s, z[m], m, z[h], h, z[x], x);
        }
      }
    }
  }

  function SizeOf(parse: Parser, text: string): F64 {
    if parse(text).Some? then parse(text).value else Finite(0.0)
  }

  /** The best price of a side is stored under m: the first of all stored prices that are numbers, with the size stored for
      it. */
  ghost predicate IsBest(parse: Parser, plain: map<string, string>, s: Side, m: string, best: (F64, F64)) {
    && m in plain && parse(m) == Some(best.0) && !best.0.NaN? && best.1 == SizeOf(parse, plain[m])
    && forall x :: x in plain && parse(x).Some? && !parse(x).value.NaN? ==> Ahead(s, best.0, m, parse(x).value, x)
  }

  /** That determines price and size, no stored price is better, which on the bid side means higher and on the ask side
      lower, and the size is what is stored, zero if that is no number. */
  lemma BestIsUnique(parse: Parser, plain: map<string, string>, s: Side, m: string, best: (F64, F64), m': string, best': (F64, F64))
    requires IsBest(parse, plain, s, m, best) && IsBest(parse, plain, s, m', best')
    ensures best == best'
    ensures forall x :: x in plain && parse(x).Some? && !parse(x).value.NaN? ==> NotWorse(s, best.0, parse(x).value)
    ensures forall x :: x in plain && parse(x).Some? && parse(x).value.Finite? ==>
              && (s == Bid ==> best.0 == PosInf || (best.0.Finite? && parse(x).value.r <= best.0.r))
              && (s == Ask ==> best.0 == NegInf || (best.0.Finite? && parse(x).value.r >= best.0.r))
    ensures parse(plain[m]) == None ==> best.1 == Finite(0.0)
    ensures parse(plain[m]) != None ==> Some(best.1) == parse(plain[m])
  {
    AheadTotal(s, best.0, m, best'.0, m');
  }

  lemma BestOfSide(parse: Parser, z: map<string, F64>, h: map<string, string>, plain: map<string, string>, s: Side, m: string)
    requires SideRefines(parse, z, h, plain) && m in z && BestAmong(z, z.Keys, s, m)
    ensures IsBest(parse, plain, s, m, (z[m], SizeOf(parse, h[m])))
  {
    hide Ahead;
    forall x | x in plain && parse(x).Some? && !parse(x).value.NaN?
      ensures Ahead(s, z[m], m, parse(x).value, x)
    {
      assert x in z.Keys;
    }
  }

  // The store as an object

  class RedisStore {
    const parse: Parser
    var zsets: map<string, map<string, F64>>
    var hashes: map<string, map<string, string>>

    ghost function View(): Keyspace
      reads this
    {
      Keyspace(zsets, hashes)
    }

    constructor (parse: Parser)
      ensures View() == EMPTY && this.parse == parse
    {
      this.parse, zsets, hashes := parse, map[], map[];
    }

    /** Runs a pipeline; an error in one command does not keep the others from running. */
    method RunPipeline(cs: seq<Command>) returns (ok: bool)
      modifies this
      ensures View() == Exec(old(View()), cs)
      ensures ok <==> forall i :: 0 <= i < |cs| ==> !Refused(cs[i])
    {
      ok := true;
      for i := 0 to |cs|
        invariant View() == Exec(old(View()), cs[..i])
        invariant ok <==> forall j :: 0 <= j < i ==> !Refused(cs[j])
      {
        assert cs[..i + 1][..i] == cs[..i];
        match cs[i] {
          case ZAdd(key, m, score) =>
            if score.NaN? {
              ok := false;
            } else {
              zsets := zsets[key := (if key in zsets then zsets[key] else map[])[m := score]];
            }
          case ZRem(key, m) =>
            zsets := zsets[key := (if key in zsets then zsets[key] else map[]) - {m}];
          case HSet(key, m, text) =>
            hashes := hashes[key := (if key in hashes then hashes[key] else map[])[m := text]];
          case HDel(key, m) =>
            hashes := hashes[key := (if key in hashes then hashes[key] else map[]) - {m}];
          case Del(key) =>
            zsets, hashes := zsets - {key}, hashes - {key};
        }
      }
      assert cs[..|cs|] == cs;
    }

    method UpdatePriceLevel(e: Entry) returns (r: Outcome)
      modifies this
      ensures View() == Updated(parse, old(View()), e) && r == UpdateOutcome(parse, e)
      ensures r == InvalidPrice || r == InvalidSize ==> Refuses(parse, e, r) && View() == old(View())
      ensures r == Done || r == RedisError ==> !Refuses(parse, e, InvalidPrice) && !Refuses(parse, e, InvalidSize)
    {
      hide Exec, BookKey, SizesKey;
      var price, size := parse(e.price), parse(e.size);
      if price.None? {
        return InvalidPrice;
      }
      if size.None? {
        return InvalidSize;
      }
      if Negative(price.value) {
        return InvalidPrice;
      }
      if Negative(size.value) {
        return InvalidSize;
      }
      var zset, sizes := BookKey(e.token, e.side), SizesKey(e.token, e.side);
      var ok;
      if size.value == Finite(0.0) {
        ok := RunPipeline([ZRem(zset, e.price), HDel(sizes, e.price)]);
      } else {
        ok := RunPipeline([ZAdd(zset, e.price, price.value), HSet(sizes, e.price, e.size)]);
      }
      r := if ok then Done else RedisError;
    }

    /** Queues the levels of one side. */
    method QueueLevels(zset: string, sizes: string, levels: seq<(string, string)>, before: seq<Command>) returns (pipe: seq<Command>)
      ensures pipe == before + LevelCommands(parse, zset, sizes, levels)
    {
      pipe := before;
      for i := 0 to |levels|
        invariant pipe == before + LevelCommands(parse, zset, sizes, levels[..i])
      {
        assert levels[..i + 1][..i] == levels[..i];
        var price := parse(levels[i].0);
        if price.Some? && Positive(price.value) {
          pipe := pipe + [ZAdd(zset, levels[i].0, price.value), HSet(sizes, levels[i].0, levels[i].1)];
        }
      }
      assert levels[..|levels|] == levels;
    }

    method ApplySnapshotAtomic(token: string, bids: seq<(string, string)>, asks: seq<(string, string)>)
      modifies this
      ensures View() == Handled(parse, old(View()), Snapshot(token, bids, asks))
    {
      hide Exec, BookKey, SizesKey, LevelCommands;
      var pipe := [Del(BookKey(token, Bid)), Del(BookKey(token, Ask)), Del(SizesKey(token, Bid)), Del(SizesKey(token, Ask))];
      pipe := QueueLevels(BookKey(token, Bid), SizesKey(token, Bid), bids, pipe);
      pipe := QueueLevels(BookKey(token, Ask), SizesKey(token, Ask), asks, pipe);
      var ok := RunPipeline(pipe);
    }

    method HandlePriceChanges(entries: seq<Entry>) returns (r: Outcome)
      modifies this
      ensures View() == Handled(parse, old(View()), PriceChanges(entries))
      ensures r == EntriesApplied(parse, old(View()), entries).1
    {
      hide Updated, UpdateOutcome;
      r := Done;
      for i := 0 to |entries|
        invariant r == Done && EntriesApplied(parse, old(View()), entries[..i]) == (View(), Done)
      {
        assert entries[..i + 1][..i] == entries[..i];
        r := UpdatePriceLevel(entries[i]);
        if r != Done {
          StopsAtError(parse, old(View()), entries, i + 1);
          return;
        }
      }
      assert entries[..|entries|] == entries;
    }

    /** Best bid or ask: the first member of the ZSET from that end, and its size from the HASH. */
    method GetBest(token: string, s: Side, ghost ms: seq<Message>) returns (r: Option<(F64, F64)>)
      requires View() == After(parse, EMPTY, ms)
      ensures var plain := PlainSide(PlainAfter(parse, map[], ms), token, s);
              && (r.None? <==> forall m :: m in plain ==> parse(m) == Some(NaN))
              && (r.Some? ==> exists m :: IsBest(parse, plain, s, m, r.value))
    {
      hide After, PlainAfter, BookKey, SizesKey, Ahead, IsBest;
      RunRefines(parse, ms);
      ghost var plain := PlainSide(PlainAfter(parse, map[], ms), token, s);
      var zset, sizes := BookKey(token, s), SizesKey(token, s);
      var z := if zset in zsets then zsets[zset] else map[];
      assert SideRefines(parse, z, HashAt(View(), sizes), plain);
      if z.Keys == {} {
        assert forall m :: m in plain ==> m !in z.Keys;
        return None;
      }
      ghost var some := HasBest(z, z.Keys, s);
      var m :| m in z.Keys && BestAmong(z, z.Keys, s, m);
      BestOfSide(parse, z, HashAt(View(), sizes), plain, s, m);
      r := Some((z[m], SizeOf(parse, hashes[sizes][m])));
    }
  }

  lemma {:induction false} StopsAtError(parse: Parser, k: Keyspace, entries: seq<Entry>, i: nat)
    requires i <= |entries| && EntriesApplied(parse, k, entries[..i]).1 != Done
    ensures EntriesApplied(parse, k, entries) == EntriesApplied(parse, k, entries[..i])
    decreases |entries|
  {
    if i == |entries| {
      assert entries[..i] == entries;
    } else {
      var rest := entries[..|entries| - 1];
      assert rest[..i] == entries[..i];
      StopsAtError(parse, k, rest, i);
    }
  }
}
