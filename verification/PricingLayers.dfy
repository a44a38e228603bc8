/**
 The two layers of the pricing cache as steps on values: entries in memory for an hour, and rows in a table for a day.
 Times are in nanoseconds. An operation reads the clock several times, and carries every reading.
 */
module PricingLayers {
  import opened Wrappers

  type Time = int

  type Prices = map<string, real>

  const SECOND: Time := 1_000_000_000
  const HOUR: Time := 3600 * SECOND
  const MEMORY_TTL: Time := HOUR
  const TABLE_TTL: Time := 24 * HOUR

  const MIN_PRICE: real := 0.001
  const MAX_PRICE: real := 200.0

  predicate IsValidPrice(price: real) {
    MIN_PRICE <= price <= MAX_PRICE
  }

  function Sanitized(prices: Prices): Prices {
    map it | it in prices && IsValidPrice(prices[it]) :: prices[it]
  }

  datatype RowKey = RowKey(provider: string, region: string, instanceType: string)

  /** A price with the second it was written in. */
  datatype Row = Row(price: real, updatedAt: int)

  type Table = map<RowKey, Row>

  datatype Entry = Entry(prices: Prices, loaded: Time)

  /** Without a database the table stays empty. */
  datatype Layers = Layers(hasDb: bool, mem: map<string, Entry>, table: Table)

  function CacheKey(provider: string, region: string): string {
    provider + (":" + region)
  }

  /** The second a time is in. */
  function Unix(t: Time): int {
    t / SECOND
  }

  predicate InMemory(s: Layers, key: string, now: Time) {
    key in s.mem && now - s.mem[key].loaded < MEMORY_TTL
  }

  /** What the query for newer rows of a provider and region yields. */
  function Query(table: Table, provider: string, region: string, cutoff: int): Prices {
    map k | k in table && k.provider == provider && k.region == region && table[k].updatedAt > cutoff
      :: k.instanceType := table[k].price
  }

  /**
   The clock readings of a Get: for the first look at the memory, for the second one under the write lock, for the
   oldest rows to query, and for the stamp of what was loaded.
   */
  datatype Instants = Instants(first: Time, second: Time, cutoff: Time, loaded: Time)

  predicate InOrder(at: Instants) {
    at.first <= at.second <= at.cutoff <= at.loaded
  }

  function Stored(s: Layers, provider: string, region: string, cutoff: Time): Prices {
    Query(s.table, provider, region, Unix(cutoff - TABLE_TTL))
  }

  /** One of the two looks finds a fresh entry; without a database there is only one. */
  predicate Hits(s: Layers, key: string, at: Instants) {
    InMemory(s, key, at.first) || (s.hasDb && InMemory(s, key, at.second))
  }

  /** `queryOk` says that the query, if there is one, succeeds. */
  function GetResult(s: Layers, provider: string, region: string, at: Instants, queryOk: bool): Option<Prices> {
    var stored := Stored(s, provider, region, at.cutoff);
    if Hits(s, CacheKey(provider, region), at) then Some(s.mem[CacheKey(provider, region)].prices)
    else if s.hasDb && queryOk && stored != map[] then Some(stored)
    else None
  }

  function AfterGet(s: Layers, provider: string, region: string, at: Instants, queryOk: bool): Layers {
    var key := CacheKey(provider, region);
    if Hits(s, key, at) then s
    else
      match GetResult(s, provider, region, at, queryOk)
      case None => s
      case Some(prices) => s.(mem := s.mem[key := Entry(prices, at.loaded)])
  }

  /** Inserts or replaces a row for every price, and removes none. */
  function Written(table: Table, provider: string, region: string, prices: Prices, now: Time): Table {
    table + map k: RowKey | k in RowKeys(provider, region, prices) :: Row(prices[k.instanceType], Unix(now))
  }

  function RowKeys(provider: string, region: string, prices: Prices): set<RowKey> {
    set it | it in prices :: RowKey(provider, region, it)
  }

  /** The entry is stamped when it is kept, the rows when they are written; `dbOk` says that the transaction commits. */
  function AfterPut(
      s: Layers, provider: string, region: string, prices: Prices, kept: Time, written: Time, dbOk: bool): Layers
  {
    Layers(s.hasDb,
           s.mem[CacheKey(provider, region) := Entry(prices, kept)],
           if s.hasDb && dbOk then Written(s.table, provider, region, prices, written) else s.table)
  }

  datatype Op =
    | Get(provider: string, region: string, at: Instants, ok: bool)
    | Put(provider: string, region: string, kept: Time, written: Time, ok: bool, prices: Prices)

  function KeyOf(op: Op): string {
    CacheKey(op.provider, op.region)
  }

  /** The operation takes no longer than `d`, as far as its stamps show. */
  predicate Lasts(op: Op, d: nat) {
    match op
    case Get(_, _, at, _) => at.loaded - at.cutoff <= d
    case Put(_, _, kept, written, _, _) => written - kept <= d
  }

  function Step(s: Layers, op: Op): Layers {
    match op
    case Get(p, r, at, ok) => AfterGet(s, p, r, at, ok)
    case Put(p, r, kept, written, ok, prices) => AfterPut(s, p, r, prices, kept, written, ok)
  }

  function Run(hasDb: bool, ops: seq<Op>): Layers {
    if ops == [] then Layers(hasDb, map[], map[]) else Step(Run(hasDb, ops[..|ops| - 1]), ops[|ops| - 1])
  }

  lemma RunsOn(hasDb: bool, ops: seq<Op>, op: Op)
    ensures Run(hasDb, ops + [op]) == Step(Run(hasDb, ops), op)
  {
    assert (ops + [op])[..|ops|] == ops;
  }

  // ---- Where prices come from ----------------------------------------------

  /** The operation puts this price, after the given time. */
  predicate Puts(op: Op, instanceType: string, price: real, after: Time) {
    op.Put? && instanceType in op.prices && op.prices[instanceType] == price && op.kept > after
  }

  /** The price was put, after the given time, under the cache key. */
  ghost predicate WasPutUnder(ops: seq<Op>, key: string, instanceType: string, price: real, after: Time) {
    exists op :: op in ops && KeyOf(op) == key && Puts(op, instanceType, price, after)
  }

  /** The price was put, after the given time, for the provider and region. */
  ghost predicate WasPut(ops: seq<Op>, provider: string, region: string, instanceType: string, price: real, after: Time) {
    exists op :: op in ops && op.provider == provider && op.region == region && Puts(op, instanceType, price, after)
  }

  /** How long before it was loaded the prices of an entry can have been put: a day, and a query and a put in between. */
  function LoadAge(d: nat): Time {
    TABLE_TTL + 2 * d
  }

  ghost predicate EntryIsPut(ops: seq<Op>, d: nat, key: string, e: Entry) {
    forall it | it in e.prices :: WasPutUnder(ops, key, it, e.prices[it], e.loaded - LoadAge(d))
  }

  /** The row was written by a put of its price in its second. */
  ghost predicate RowIsPut(ops: seq<Op>, k: RowKey, row: Row) {
    exists op :: op in ops && op.Put? && op.provider == k.provider && op.region == k.region &&
                 k.instanceType in op.prices && op.prices[k.instanceType] == row.price && Unix(op.written) == row.updatedAt
  }

  ghost predicate IsPut(s: Layers, ops: seq<Op>, d: nat) {
    && (forall key | key in s.mem :: EntryIsPut(ops, d, key, s.mem[key]))
    && (forall k | k in s.table :: RowIsPut(ops, k, s.table[k]))
  }

  lemma EntryStaysPut(ops: seq<Op>, d: nat, op: Op, key: string, e: Entry)
    requires EntryIsPut(ops, d, key, e)
    ensures EntryIsPut(ops + [op], d, key, e)
  {
    forall it | it in e.prices ensures WasPutUnder(ops + [op], key, it, e.prices[it], e.loaded - LoadAge(d)) {
      assert WasPutUnder(ops, key, it, e.prices[it], e.loaded - LoadAge(d));
    }
  }

  lemma RowStaysPut(ops: seq<Op>, op: Op, k: RowKey, row: Row)
    requires RowIsPut(ops, k, row)
    ensures RowIsPut(ops + [op], k, row)
  {
  }

  lemma PutIsPut(ops: seq<Op>, d: nat, op: Op)
    requires op.Put?
    ensures EntryIsPut(ops + [op], d, KeyOf(op), Entry(op.prices, op.kept))
    ensures forall it | it in op.prices ::
              RowIsPut(ops + [op], RowKey(op.provider, op.region, it), Row(op.prices[it], Unix(op.written)))
  {
    assert op in ops + [op];
    forall it | it in op.prices ensures WasPutUnder(ops + [op], KeyOf(op), it, op.prices[it], op.kept - LoadAge(d)) {
      assert Puts(op, it, op.prices[it], op.kept - LoadAge(d));
    }
  }

  lemma StoredIsPut(s: Layers, ops: seq<Op>, d: nat, provider: string, region: string, cutoff: Time, it: string)
    requires IsPut(s, ops, d) && it in Stored(s, provider, region, cutoff) && forall op | op in ops :: Lasts(op, d)
    ensures WasPut(ops, provider, region, it, Stored(s, provider, region, cutoff)[it], cutoff - TABLE_TTL - d)
  {
    var k := RowKey(provider, region, it);
    QueryHolds(s.table, provider, region, Unix(cutoff - TABLE_TTL), it);
    assert RowIsPut(ops, k, s.table[k]);
    var op :| op in ops && op.Put? && op.provider == provider && op.region == region && it in op.prices &&
              op.prices[it] == s.table[k].price && Unix(op.written) == s.table[k].updatedAt;
    assert Lasts(op, d);
    LaterSecond(op.written, cutoff - TABLE_TTL);
    assert Puts(op, it, s.table[k].price, cutoff - TABLE_TTL - d);
  }

  lemma LaterSecond(a: Time, b: Time)
    requires Unix(a) > Unix(b)
    ensures a > b
  {
  }

  lemma LoadIsPut(s: Layers, ops: seq<Op>, d: nat, provider: string, region: string, cutoff: Time, loaded: Time)
    requires IsPut(s, ops, d) && loaded - cutoff <= d && forall op | op in ops :: Lasts(op, d)
    ensures EntryIsPut(ops, d, CacheKey(provider, region), Entry(Stored(s, provider, region, cutoff), loaded))
  {
    var prices := Stored(s, provider, region, cutoff);
    forall it | it in prices
      ensures WasPutUnder(ops, CacheKey(provider, region), it, prices[it], loaded - LoadAge(d))
    {
      StoredIsPut(s, ops, d, provider, region, cutoff, it);
      var op :| op in ops && op.provider == provider && op.region == region &&
                Puts(op, it, prices[it], cutoff - TABLE_TTL - d);
      assert Puts(op, it, prices[it], loaded - LoadAge(d));
    }
  }

  lemma StepIsPut(s: Layers, ops: seq<Op>, d: nat, op: Op)
    requires IsPut(s, ops, d) && Lasts(op, d) && forall op | op in ops :: Lasts(op, d)
    ensures IsPut(Step(s, op), ops + [op], d)
  {
    var next := Step(s, op);
    forall key | key in next.mem ensures EntryIsPut(ops + [op], d, key, next.mem[key]) {
      if key in s.mem && next.mem[key] == s.mem[key] {
        EntryStaysPut(ops, d, op, key, s.mem[key]);
      } else if op.Put? {
        PutIsPut(ops, d, op);
      } else {
        LoadIsPut(s, ops, d, op.provider, op.region, op.at.cutoff, op.at.loaded);
        EntryStaysPut(ops, d, op, key, next.mem[key]);
      }
    }
    forall k | k in next.table ensures RowIsPut(ops + [op], k, next.table[k]) {
      if k in s.table && next.table[k] == s.table[k] {
        RowStaysPut(ops, op, k, s.table[k]);
      } else {
        PutIsPut(ops, d, op);
      }
    }
  }

  lemma {:induction false} RunIsPut(hasDb: bool, ops: seq<Op>, d: nat)
    requires forall op | op in ops :: Lasts(op, d)
    ensures IsPut(Run(hasDb, ops), ops, d)
  {
    if ops != [] {
      assert ops == ops[..|ops| - 1] + [ops[|ops| - 1]];
      RunIsPut(hasDb, ops[..|ops| - 1], d);
      StepIsPut(Run(hasDb, ops[..|ops| - 1]), ops[..|ops| - 1], d, ops[|ops| - 1]);
    }
  }

  /** The bound on the age of what is found: both times to live, and a query and a put in between. */
  function FindAge(d: nat): Time {
    25 * HOUR + 2 * d
  }

  /**
   Whatever happened, a price that is found was put, under the same cache key, less than 25 hours before the Get began,
   not counting the time that a query and a put take.
   */
  lemma FoundWasPutUnder(
      hasDb: bool, ops: seq<Op>, d: nat, provider: string, region: string, at: Instants, ok: bool, it: string)
    requires InOrder(at) && forall op | op in ops :: Lasts(op, d)
    requires GetResult(Run(hasDb, ops), provider, region, at, ok).Some?
    requires it in GetResult(Run(hasDb, ops), provider, region, at, ok).value
    ensures var price := GetResult(Run(hasDb, ops), provider, region, at, ok).value[it];
            WasPutUnder(ops, CacheKey(provider, region), it, price, at.first - FindAge(d))
  {
    var s, key := Run(hasDb, ops), CacheKey(provider, region);
    RunIsPut(hasDb, ops, d);
    var price := GetResult(s, provider, region, at, ok).value[it];
    var since: Time;
    if Hits(s, key, at) {
      assert EntryIsPut(ops, d, key, s.mem[key]);
      since := s.mem[key].loaded - LoadAge(d);
    } else {
      LoadIsPut(s, ops, d, provider, region, at.cutoff, at.cutoff);
      since := at.cutoff - LoadAge(d);
    }
    assert WasPutUnder(ops, key, it, price, since);
    var op :| op in ops && KeyOf(op) == key && Puts(op, it, price, since);
    assert Puts(op, it, price, at.first - FindAge(d));
  }

  // ---- Keys ----------------------------------------------------------------

  lemma KeyPrefix(provider: string, region: string, i: nat)
    ensures i < |provider| ==> CacheKey(provider, region)[i] == provider[i]
    ensures CacheKey(provider, region)[|provider|] == ':'
    ensures CacheKey(provider, region)[..|provider|] == provider
    ensures CacheKey(provider, region)[|provider| + 1..] == region
  {
  }

  /** Providers without a colon have their own cache keys. */
  lemma KeysDiffer(p: string, r: string, q: string, t: string)
    requires ':' !in p && ':' !in q && CacheKey(p, r) == CacheKey(q, t)
    ensures p == q && r == t
  {
    KeyPrefix(p, r, |q|);
    KeyPrefix(q, t, |p|);
  }

  /** No put for another provider and region shares the cache key. */
  predicate KeyIsOwn(ops: seq<Op>, provider: string, region: string) {
    forall op | op in ops && op.Put? && KeyOf(op) == CacheKey(provider, region) ::
      op.provider == provider && op.region == region
  }

  lemma ColonFreeKeysAreOwn(ops: seq<Op>, provider: string, region: string)
    requires ':' !in provider && forall op | op in ops :: ':' !in op.provider
    ensures KeyIsOwn(ops, provider, region)
  {
    forall op | op in ops && op.Put? && KeyOf(op) == CacheKey(provider, region)
      ensures op.provider == provider && op.region == region
    {
      KeysDiffer(op.provider, op.region, provider, region);
    }
  }

  /** A price that is found was put for that provider, region and instance type less than 25 hours before. */
  lemma FoundWasPut(
      hasDb: bool, ops: seq<Op>, d: nat, provider: string, region: string, at: Instants, ok: bool, it: string)
    requires KeyIsOwn(ops, provider, region)
    requires InOrder(at) && forall op | op in ops :: Lasts(op, d)
    requires GetResult(Run(hasDb, ops), provider, region, at, ok).Some?
    requires it in GetResult(Run(hasDb, ops), provider, region, at, ok).value
    ensures var price := GetResult(Run(hasDb, ops), provider, region, at, ok).value[it];
            WasPut(ops, provider, region, it, price, at.first - FindAge(d))
  {
    FoundWasPutUnder(hasDb, ops, d, provider, region, at, ok, it);
    var price := GetResult(Run(hasDb, ops), provider, region, at, ok).value[it];
    var op :| op in ops && KeyOf(op) == CacheKey(provider, region) && Puts(op, it, price, at.first - FindAge(d));
    assert op.provider == provider && op.region == region;
  }

  lemma SamePrices(a: Prices, b: Prices)
    requires forall it :: it in a <==> it in b
    requires forall it | it in a :: a[it] == b[it]
    ensures a == b
  {
  }

  lemma WrittenElsewhere(table: Table, q: string, t: string, prices: Prices, written: Time, k: RowKey)
    requires (k.provider, k.region) != (q, t)
    ensures var after := Written(table, q, t, prices, written);
            (k in after <==> k in table) && (k in table ==> after[k] == table[k])
  {
  }

  lemma QueryAfterOtherPut(
      table: Table, p: string, r: string, q: string, t: string, prices: Prices, written: Time, cutoff: int)
    requires (p, r) != (q, t)
    ensures Query(Written(table, q, t, prices, written), p, r, cutoff) == Query(table, p, r, cutoff)
  {
    var after := Written(table, q, t, prices, written);
    var a, b := Query(after, p, r, cutoff), Query(table, p, r, cutoff);
    forall it ensures (it in a <==> it in b) && (it in a ==> a[it] == b[it]) {
      QueryHolds(after, p, r, cutoff, it);
      QueryHolds(table, p, r, cutoff, it);
      WrittenElsewhere(table, q, t, prices, written, RowKey(p, r, it));
    }
    SamePrices(a, b);
  }

  lemma ResultDependsOn(s: Layers, s': Layers, p: string, r: string, at: Instants, ok: bool)
    requires s.hasDb == s'.hasDb && Stored(s, p, r, at.cutoff) == Stored(s', p, r, at.cutoff)
    requires CacheKey(p, r) in s.mem <==> CacheKey(p, r) in s'.mem
    requires CacheKey(p, r) in s.mem ==> s.mem[CacheKey(p, r)] == s'.mem[CacheKey(p, r)]
    ensures GetResult(s, p, r, at, ok) == GetResult(s', p, r, at, ok)
  {
  }

  lemma SeenUnderKey(s: Layers, put: Op, p: string, r: string, at: Instants, ok: bool)
    requires put.Put? && CacheKey(p, r) == KeyOf(put) && at.first == put.kept
    ensures GetResult(Step(s, put), p, r, at, ok) == Some(put.prices)
  {
    assert InMemory(Step(s, put), KeyOf(put), at.first);
  }

  lemma StoredElsewhere(s: Layers, put: Op, p: string, r: string, cutoff: Time)
    requires put.Put? && (p, r) != (put.provider, put.region)
    ensures Stored(Step(s, put), p, r, cutoff) == Stored(s, p, r, cutoff)
  {
    QueryAfterOtherPut(s.table, p, r, put.provider, put.region, put.prices, put.written, Unix(cutoff - TABLE_TTL));
    var after := Step(s, put);
    assert after.table == s.table || after.table == Written(s.table, put.provider, put.region, put.prices, put.written);
  }

  lemma EntryElsewhere(s: Layers, put: Op, key: string)
    requires put.Put? && key != KeyOf(put)
    ensures Step(s, put).hasDb == s.hasDb && (key in Step(s, put).mem <==> key in s.mem)
    ensures key in s.mem ==> Step(s, put).mem[key] == s.mem[key]
  {
  }

  lemma NotSeenElsewhere(s: Layers, s': Layers, put: Op, p: string, r: string, at: Instants, ok: bool)
    requires put.Put? && (p, r) != (put.provider, put.region) && CacheKey(p, r) != KeyOf(put) && s' == Step(s, put)
    ensures GetResult(s', p, r, at, ok) == GetResult(s, p, r, at, ok)
  {
    StoredElsewhere(s, put, p, r, at.cutoff);
    EntryElsewhere(s, put, CacheKey(p, r));
    ResultDependsOn(s', s, p, r, at, ok);
  }

  /**
   After any run, a put for one provider and region decides what is found for another one, at the time of its stamp,
   exactly when their cache keys are the same; otherwise it changes nothing there.
   */
  lemma PutIsSeenIffSameKey(
      hasDb: bool, ops: seq<Op>, put: Op, p: string, r: string, at: Instants, ok: bool)
    requires put.Put? && (p, r) != (put.provider, put.region) && at.first == put.kept
    ensures var found := GetResult(Run(hasDb, ops + [put]), p, r, at, ok);
            if CacheKey(p, r) == KeyOf(put) then found == Some(put.prices)
            else found == GetResult(Run(hasDb, ops), p, r, at, ok)
  {
    RunsOn(hasDb, ops, put);
    if CacheKey(p, r) == KeyOf(put) {
      SeenUnderKey(Run(hasDb, ops), put, p, r, at, ok);
    } else {
      NotSeenElsewhere(Run(hasDb, ops), Run(hasDb, ops + [put]), put, p, r, at, ok);
    }
  }

  /** With a colon in a provider the keys of two regions can be the same. */
  lemma ColonsMixKeys()
    ensures CacheKey("a", "b:c") == CacheKey("a:b", "c")
  {
    assert CacheKey("a", "b:c") == "a:b:c" == CacheKey("a:b", "c");
  }

  /** All readings at one time. */
  function Instantly(t: Time): Instants {
    Instants(t, t, t, t)
  }

  const NO_ROWS: Layers := Layers(true, map[], map[])

  /** One price in memory, stamped as given, and in the table since the beginning. */
  function OneLayered(provider: string, region: string, price: real, loaded: Time): Layers {
    Layers(true, map[CacheKey(provider, region) := Entry(map["t" := price], loaded)],
           map[RowKey(provider, region, "t") := Row(price, 0)])
  }

  lemma PutOne(provider: string, region: string, price: real)
    ensures AfterPut(NO_ROWS, provider, region, map["t" := price], 0, 0, true) == OneLayered(provider, region, price, 0)
  {
    var prices, k := map["t" := price], RowKey(provider, region, "t");
    assert RowKeys(provider, region, prices) == {k};
    assert Written(map[], provider, region, prices, 0) == map[k := Row(price, 0)];
  }

  /** A row from the beginning is found until a day has passed. */
  lemma StoredOne(provider: string, region: string, price: real, loaded: Time, cutoff: Time)
    ensures Stored(OneLayered(provider, region, price, loaded), provider, region, cutoff)
         == if Unix(cutoff - TABLE_TTL) < 0 then map["t" := price] else map[]
  {
    var l, t := OneLayered(provider, region, price, loaded), Unix(cutoff - TABLE_TTL);
    var a, b := Stored(l, provider, region, cutoff), if t < 0 then map["t" := price] else map[];
    forall it ensures (it in a <==> it in b) && (it in a ==> a[it] == b[it]) {
      QueryHolds(l.table, provider, region, t, it);
    }
    SamePrices(a, b);
  }

  lemma LoadOne(provider: string, region: string, price: real)
    ensures AfterGet(OneLayered(provider, region, price, 0), provider, region, Instantly(24 * HOUR - 1), true)
         == OneLayered(provider, region, price, 24 * HOUR - 1)
  {
    var l, at := OneLayered(provider, region, price, 0), Instantly(24 * HOUR - 1);
    StoredOne(provider, region, price, 0, 24 * HOUR - 1);
    NotEmpty(map["t" := price], "t");
    assert GetResult(l, provider, region, at, true) == Some(map["t" := price]);
  }

  lemma HitOne(provider: string, region: string, price: real, t: Time)
    requires t - (24 * HOUR - 1) < HOUR
    ensures var l := OneLayered(provider, region, price, 24 * HOUR - 1);
            && GetResult(l, provider, region, Instantly(t), true) == Some(map["t" := price])
            && AfterGet(l, provider, region, Instantly(t), true) == l
  {
  }

  lemma MissOne(provider: string, region: string, price: real, t: Time)
    requires t - (24 * HOUR - 1) >= HOUR
    ensures var l := OneLayered(provider, region, price, 24 * HOUR - 1);
            && GetResult(l, provider, region, Instantly(t), true) == None
            && AfterGet(l, provider, region, Instantly(t), true) == l
  {
    StoredOne(provider, region, price, 24 * HOUR - 1, t);
  }

  /** The bound of 25 hours is tight: a price can be served two nanoseconds before it is reached. */
  lemma AlmostTwentyFiveHours(provider: string, region: string, price: real)
    ensures var ops := [Put(provider, region, 0, 0, true, map["t" := price]),
                        Get(provider, region, Instantly(24 * HOUR - 1), true)];
            GetResult(Run(true, ops), provider, region, Instantly(25 * HOUR - 2), true) == Some(map["t" := price])
  {
    var put := Put(provider, region, 0, 0, true, map["t" := price]);
    var get := Get(provider, region, Instantly(24 * HOUR - 1), true);
    RunsOn(true, [], put);
    RunsOn(true, [put], get);
    assert [] + [put] == [put] && [put] + [get] == [put, get];
    PutOne(provider, region, price);
    LoadOne(provider, region, price);
    HitOne(provider, region, price, 25 * HOUR - 2);
  }

  // ---- What is found -------------------------------------------------------

  /** The last committed row for a key. */
  function LastRow(hasDb: bool, ops: seq<Op>, k: RowKey): Option<Row> {
    if ops == [] then None
    else
      var op := ops[|ops| - 1];
      if hasDb && op.Put? && op.ok && op.provider == k.provider && op.region == k.region && k.instanceType in op.prices then
        Some(Row(op.prices[k.instanceType], Unix(op.written)))
      else
        LastRow(hasDb, ops[..|ops| - 1], k)
  }

  lemma {:induction false} TableHoldsLastRows(hasDb: bool, ops: seq<Op>, k: RowKey)
    ensures Run(hasDb, ops).hasDb == hasDb && (LastRow(hasDb, ops, k).Some? ==> hasDb)
    ensures k in Run(hasDb, ops).table <==> LastRow(hasDb, ops, k).Some?
    ensures k in Run(hasDb, ops).table ==> Run(hasDb, ops).table[k] == LastRow(hasDb, ops, k).value
  {
    if ops != [] {
      TableHoldsLastRows(hasDb, ops[..|ops| - 1], k);
    }
  }

  lemma QueryHolds(table: Table, provider: string, region: string, cutoff: int, it: string)
    ensures var k := RowKey(provider, region, it);
            var prices := Query(table, provider, region, cutoff);
            && (it in prices <==> k in table && table[k].updatedAt > cutoff)
            && (it in prices ==> prices[it] == table[k].price)
  {
    var k := RowKey(provider, region, it);
    if k in table && table[k].updatedAt > cutoff {
      assert k.instanceType in Query(table, provider, region, cutoff);
    }
  }

  lemma NotEmpty(prices: Prices, it: string)
    ensures it in prices ==> prices != map[]
  {
  }

  /** What a map of prices that is only found when it is not empty holds. */
  lemma FoundHolds(found: Option<Prices>, stored: Prices, hasDb: bool, it: string)
    requires found == if hasDb && stored != map[] then Some(stored) else None
    ensures found.Some? && it in found.value <==> hasDb && it in stored
  {
    NotEmpty(stored, it);
  }

  /**
   Once memory has expired, exactly the instance types are found whose last committed put is recent enough, with the
   price of that put. A type that later puts left out is among them, as no put removes a row.
   */
  lemma ExpiredMemoryFindsLastRows(hasDb: bool, ops: seq<Op>, provider: string, region: string, at: Instants, it: string)
    requires !Hits(Run(hasDb, ops), CacheKey(provider, region), at)
    ensures var found := GetResult(Run(hasDb, ops), provider, region, at, true);
            var row := LastRow(hasDb, ops, RowKey(provider, region, it));
            && (found.Some? && it in found.value <==> row.Some? && row.value.updatedAt > Unix(at.cutoff - TABLE_TTL))
            && (found.Some? && it in found.value ==> found.value[it] == row.value.price)
  {
    TableHoldsLastRows(hasDb, ops, RowKey(provider, region, it));
    var s := Run(hasDb, ops);
    var stored := Stored(s, provider, region, at.cutoff);
    QueryHolds(s.table, provider, region, Unix(at.cutoff - TABLE_TTL), it);
    FoundHolds(GetResult(s, provider, region, at, true), stored, hasDb, it);
  }

  /** Operations that put nothing under the key, and whose Gets begin no later than `to`. */
  predicate LeaveAlone(ops: seq<Op>, key: string, to: Time) {
    forall op | op in ops :: (op.Get? ==> op.at.first <= to) && (op.Put? ==> KeyOf(op) != key)
  }

  lemma {:induction false} EntryIsKept(hasDb: bool, ops: seq<Op>, put: Op, later: seq<Op>, now: Time)
    requires put.Put? && LeaveAlone(later, KeyOf(put), now) && now - put.kept < MEMORY_TTL
    ensures var s := Run(hasDb, ops + [put] + later);
            KeyOf(put) in s.mem && s.mem[KeyOf(put)] == Entry(put.prices, put.kept)
  {
    var all := ops + [put] + later;
    if later == [] {
      assert all[..|all| - 1] == ops;
    } else {
      assert all[..|all| - 1] == ops + [put] + later[..|later| - 1];
      EntryIsKept(hasDb, ops, put, later[..|later| - 1], now);
    }
  }

  /** Within the hour, and until the next put under its key, exactly what was put is found, whatever happens between. */
  lemma FindsWhatWasPut(hasDb: bool, ops: seq<Op>, put: Op, later: seq<Op>, at: Instants, ok: bool)
    requires put.Put? && LeaveAlone(later, KeyOf(put), at.first) && at.first - put.kept < MEMORY_TTL
    ensures GetResult(Run(hasDb, ops + [put] + later), put.provider, put.region, at, ok) == Some(put.prices)
  {
    EntryIsKept(hasDb, ops, put, later, at.first);
  }
}
