/** The pricing cache on mutable maps that it shares with nobody, as a refinement of the layers on values. */
module PricingCache {
  import opened Wrappers
  import L = PricingLayers
  import opened PricingLayers

  /** A mutable map of prices, which its holders share. */
  class PriceMap {
    var prices: Prices

    constructor ()
      ensures prices == map[]
    {
      prices := map[];
    }

    method Set(instanceType: string, price: real)
      modifies this
      ensures prices == old(prices)[instanceType := price]
    {
      prices := prices[instanceType := price];
    }
  }

  /** A copy that shares nothing with the original. */
  method Copy(m: PriceMap) returns (cp: PriceMap)
    ensures fresh(cp) && cp.prices == m.prices
  {
    cp := new PriceMap();
    var keys := m.prices.Keys;
    while keys != {}
      invariant keys <= m.prices.Keys
      invariant cp.prices.Keys == m.prices.Keys - keys
      invariant forall k | k in cp.prices :: cp.prices[k] == m.prices[k]
      decreases |keys|
    {
      var k :| k in keys;
      cp.Set(k, m.prices[k]);
      keys := keys - {k};
    }
  }

  lemma DropOne(m: Prices, k: string)
    requires k in m
    ensures |m - {k}| == |m| - 1
  {
  }

  /** `m` is what is left of `all` when the invalid prices outside `keys` are removed. */
  predicate IsSanitizedExcept(m: Prices, all: Prices, keys: set<string>) {
    && m.Keys <= all.Keys
    && (forall k | k in m :: m[k] == all[k])
    && (forall k | k in all :: k in m <==> k in keys || IsValidPrice(all[k]))
  }

  /** Removes the prices that are not valid from the map itself. */
  method SanitizePrices(m: PriceMap) returns (removed: nat)
    modifies m
    ensures m.prices == Sanitized(old(m.prices))
    ensures removed == |old(m.prices)| - |m.prices|
    ensures forall it | it in old(m.prices) ::
              it in m.prices <==> 1.0 <= 1000.0 * old(m.prices)[it] && old(m.prices)[it] <= 200.0
  {
    removed := 0;
    var keys := m.prices.Keys;
    ghost var all := m.prices;
    while keys != {}
      invariant keys <= all.Keys
      invariant IsSanitizedExcept(m.prices, all, keys)
      invariant removed == |all| - |m.prices|
      decreases |keys|
    {
      var k :| k in keys;
      if !IsValidPrice(m.prices[k]) {
        DropOne(m.prices, k);
        m.prices := m.prices - {k};
        removed := removed + 1;
      }
      keys := keys - {k};
    }
    assert m.prices == Sanitized(all);
  }

  class Cache {
    const hasDb: bool
    var mem: map<string, PriceMap>
    var memTime: map<string, Time>
    var table: Table

    ghost predicate Valid()
      reads this
    {
      mem.Keys == memTime.Keys
    }

    /** The maps the cache holds. */
    ghost function Objects(): set<PriceMap>
      reads this
    {
      set k | k in mem :: mem[k]
    }

    ghost function View(): Layers
      requires Valid()
      reads this, Objects()
    {
      Layers(hasDb, map k | k in mem :: Entry(mem[k].prices, memTime[k]), table)
    }

    constructor (hasDb: bool)
      ensures Valid() && Objects() == {} && View() == L.Run(hasDb, []) && this.hasDb == hasDb
    {
      this.hasDb := hasDb;
      mem, memTime, table := map[], map[], map[];
    }

    /** Replaces the entry of a key. */
    method Keep(key: string, m: PriceMap, now: Time)
      requires Valid()
      modifies `mem, `memTime
      ensures Valid() && Objects() <= old(Objects()) + {m}
      ensures View() == old(View()).(mem := old(View()).mem[key := Entry(m.prices, now)])
    {
      mem := mem[key := m];
      memTime := memTime[key := now];
    }

    /** A copy of a fresh entry. */
    method Look(key: string, now: Time) returns (r: Option<PriceMap>)
      requires Valid()
      ensures r.Some? <==> InMemory(View(), key, now)
      ensures r.Some? ==> fresh(r.value) && r.value.prices == View().mem[key].prices
    {
      if key in mem {
        if now - memTime[key] < MEMORY_TTL {
          var cp := Copy(mem[key]);
          return Some(cp);
        }
      }
      return None;
    }

    /** The rows that are young enough, in a new map that becomes the entry if it holds any. */
    method Load(provider: string, region: string, at: Instants, queryOk: bool) returns (r: Option<PriceMap>)
      requires Valid() && hasDb
      modifies `mem, `memTime
      ensures Valid() && fresh(Objects() - old(Objects()))
      ensures var stored := Stored(old(View()), provider, region, at.cutoff);
              && (r.Some? <==> queryOk && stored != map[])
              && (r.Some? ==> fresh(r.value) && r.value !in Objects() && r.value.prices == stored)
              && View() == if r.None? then old(View()) else
                             old(View()).(mem := old(View()).mem[CacheKey(provider, region) := Entry(stored, at.loaded)])
    {
      var cutoff := Unix(at.cutoff - TABLE_TTL);
      if !queryOk {
        return None;
      }
      var prices := new PriceMap();
      prices.prices := Query(table, provider, region, cutoff);
      if prices.prices == map[] {
        return None;
      }
      Keep(CacheKey(provider, region), prices, at.loaded);
      var cp := Copy(prices);
      r := Some(cp);
    }

    /** The result is a new map that the cache does not hold. */
    method Get(provider: string, region: string, at: Instants, queryOk: bool) returns (r: Option<PriceMap>)
      requires Valid()
      modifies `mem, `memTime
      ensures Valid() && fresh(Objects() - old(Objects()))
      ensures View() == AfterGet(old(View()), provider, region, at, queryOk)
      ensures r.Some? ==> fresh(r.value) && r.value !in Objects()
      ensures GetResult(old(View()), provider, region, at, queryOk) == if r.Some? then Some(r.value.prices) else None
    {
      var key := CacheKey(provider, region);
      r := Look(key, at.first);
      if r.Some? || !hasDb {
        return;
      }
      r := Look(key, at.second);
      if r.Some? {
        return;
      }
      assert !Hits(View(), key, at);
      r := Load(provider, region, at, queryOk);
    }

    /** Writes rows in one transaction. */
    method Persist(provider: string, region: string, prices: Prices, now: Time, dbOk: bool)
      requires Valid()
      modifies `table
      ensures Valid()
      ensures table == if hasDb && dbOk then Written(old(table), provider, region, prices, now) else old(table)
    {
      if !hasDb {
        return;
      }
      var rows := InsertAll(table, provider, region, prices, now);
      if dbOk {
        table := rows;
      }
    }

    /** What is kept is a new map, and the caller's is only read. */
    method Put(provider: string, region: string, prices: PriceMap, kept: Time, written: Time, dbOk: bool)
      requires Valid()
      modifies this
      ensures Valid() && fresh(Objects() - old(Objects()))
      ensures View() == AfterPut(old(View()), provider, region, prices.prices, kept, written, dbOk)
    {
      var cp := Copy(prices);
      Keep(CacheKey(provider, region), cp, kept);
      ghost var view := View();
      Persist(provider, region, prices.prices, written, dbOk);
      assert View() == view.(table := table);
    }
  }

  lemma WrittenOneMore(table: Table, provider: string, region: string, prices: Prices, it: string, price: real, now: Time)
    ensures Written(table, provider, region, prices[it := price], now)
         == Written(table, provider, region, prices, now)[RowKey(provider, region, it) := Row(price, Unix(now))]
  {
    var k := RowKey(provider, region, it);
    var a := Written(table, provider, region, prices[it := price], now);
    var b := Written(table, provider, region, prices, now)[k := Row(price, Unix(now))];
    forall key ensures (key in a <==> key in b) && (key in a ==> a[key] == b[key]) {
      WrittenHolds(table, provider, region, prices[it := price], now, key);
      WrittenHolds(table, provider, region, prices, now, key);
    }
    SameTable(a, b);
  }

  lemma WrittenHolds(table: Table, provider: string, region: string, prices: Prices, now: Time, k: RowKey)
    ensures var after := Written(table, provider, region, prices, now);
            var new_ := k.provider == provider && k.region == region && k.instanceType in prices;
            && (k in after <==> k in table || new_)
            && (k in after ==> after[k] == if new_ then Row(prices[k.instanceType], Unix(now)) else table[k])
  {
    assert k in RowKeys(provider, region, prices) <==>
           k.provider == provider && k.region == region && k.instanceType in prices;
  }

  lemma SameTable(a: Table, b: Table)
    requires forall k :: k in a <==> k in b
    requires forall k | k in a :: a[k] == b[k]
    ensures a == b
  {
  }

  lemma WrittenNone(table: Table, provider: string, region: string, now: Time)
    ensures Written(table, provider, region, map[], now) == table
  {
    assert RowKeys(provider, region, map[]) == {};
  }

  method InsertOne(
      rows: Table, provider: string, region: string, it: string, price: real, now: Time, ghost table: Table, ghost done: Prices)
    returns (r: Table)
    requires rows == Written(table, provider, region, done, now)
    ensures r == Written(table, provider, region, done[it := price], now)
  {
    r := rows[RowKey(provider, region, it) := Row(price, Unix(now))];
    WrittenOneMore(table, provider, region, done, it, price, now);
  }

  method InsertAll(table: Table, provider: string, region: string, prices: Prices, now: Time) returns (rows: Table)
    ensures rows == Written(table, provider, region, prices, now)
  {
    rows := table;
    var keys := prices.Keys;
    ghost var done: Prices := map[];
    WrittenNone(table, provider, region, now);
    while keys != {}
      invariant keys <= prices.Keys && done.Keys == prices.Keys - keys
      invariant forall k | k in done :: done[k] == prices[k]
      invariant rows == Written(table, provider, region, done, now)
      decreases |keys|
    {
      var it :| it in keys;
      rows := InsertOne(rows, provider, region, it, prices[it], now, table, done);
      done := done[it := prices[it]];
      keys := keys - {it};
    }
    assert done == prices;
  }

  // ---- Callers cannot interfere --------------------------------------------

  /** What a caller does: it gets maps, puts one of the maps it holds, or changes one of them as it likes. */
  datatype Action =
    | DoGet(provider: string, region: string, at: Instants, ok: bool)
    | DoPut(provider: string, region: string, index: nat, kept: Time, written: Time, ok: bool)
    | Mutate(index: nat, prices: Prices)

  /** The same on values: what the cache was asked, what the maps of the caller hold, and what was answered. */
  datatype Session = Session(ops: seq<Op>, held: seq<Prices>, answers: seq<Option<Prices>>)

  /** A caller with values for maps, to whom every answer is a value of its own. */
  function Act(hasDb: bool, s: Session, a: Action): Session {
    match a
    case DoGet(p, r, at, ok) =>
      var found := GetResult(L.Run(hasDb, s.ops), p, r, at, ok);
      Session(s.ops + [Get(p, r, at, ok)], if found.Some? then s.held + [found.value] else s.held, s.answers + [found])
    case DoPut(p, r, i, kept, written, ok) =>
      if i < |s.held| then s.(ops := s.ops + [Put(p, r, kept, written, ok, s.held[i])]) else s
    case Mutate(i, prices) =>
      if i < |s.held| then s.(held := s.held[i := prices]) else s
  }

  function Play(hasDb: bool, s: Session, actions: seq<Action>): Session {
    if actions == [] then s else Act(hasDb, Play(hasDb, s, actions[..|actions| - 1]), actions[|actions| - 1])
  }

  ghost predicate Distinct(held: seq<PriceMap>) {
    forall i, j | 0 <= i < j < |held| :: held[i] != held[j]
  }

  ghost function Contents(held: seq<PriceMap>): seq<Prices>
    reads held
  {
    seq(|held|, i requires 0 <= i < |held| reads held => held[i].prices)
  }

  /** The cache and the maps of the caller are as after the operations on values, and have no map in common. */
  ghost predicate Mirrors(c: Cache, held: seq<PriceMap>, answers: seq<Option<Prices>>, s: Session)
    reads c, c.Objects(), held
  {
    && c.Valid()
    && Distinct(held)
    && (forall m | m in held :: m !in c.Objects())
    && c.View() == L.Run(c.hasDb, s.ops)
    && Contents(held) == s.held
    && answers == s.answers
  }

  lemma ContentsPush(held: seq<PriceMap>, m: PriceMap)
    ensures Contents(held + [m]) == Contents(held) + [m.prices]
  {
  }

  method PlayGet(c: Cache, held: seq<PriceMap>, answers: seq<Option<Prices>>, a: Action, ghost s: Session)
    returns (held': seq<PriceMap>, answers': seq<Option<Prices>>)
    requires a.DoGet? && Mirrors(c, held, answers, s)
    modifies c
    ensures Mirrors(c, held', answers', Act(c.hasDb, s, a))
    ensures forall m | m in held' :: m in held || fresh(m)
  {
    RunsOn(c.hasDb, s.ops, Get(a.provider, a.region, a.at, a.ok));
    var r := c.Get(a.provider, a.region, a.at, a.ok);
    assert Contents(held) == old(Contents(held));
    held', answers' := held, answers + [None];
    if r.Some? {
      ContentsPush(held, r.value);
      held', answers' := held + [r.value], answers + [Some(r.value.prices)];
    }
  }

  method PlayPut(c: Cache, held: seq<PriceMap>, answers: seq<Option<Prices>>, a: Action, ghost s: Session)
    requires a.DoPut? && a.index < |held| && Mirrors(c, held, answers, s)
    modifies c
    ensures Mirrors(c, held, answers, Act(c.hasDb, s, a))
  {
    RunsOn(c.hasDb, s.ops, Put(a.provider, a.region, a.kept, a.written, a.ok, s.held[a.index]));
    assert held[a.index].prices == Contents(held)[a.index];
    c.Put(a.provider, a.region, held[a.index], a.kept, a.written, a.ok);
    assert Contents(held) == old(Contents(held));
  }

  method PlayMutation(c: Cache, held: seq<PriceMap>, answers: seq<Option<Prices>>, a: Action, ghost s: Session)
    requires a.Mutate? && a.index < |held| && Mirrors(c, held, answers, s)
    modifies held[a.index]
    ensures Mirrors(c, held, answers, Act(c.hasDb, s, a))
  {
    assert held[a.index] in held;
    held[a.index].prices := a.prices;
    assert c.View() == old(c.View());
    assert Contents(held) == old(Contents(held))[a.index := a.prices];
  }

  /**
   Maps are not shared: whatever callers get, put and change in the maps they hold, in any order, the cache and its
   answers are those of the operations on values, on which no change to a caller's map has any influence.
   */
  method PlayAll(c: Cache, held: seq<PriceMap>, actions: seq<Action>, ghost ops: seq<Op>)
    returns (held': seq<PriceMap>, answers: seq<Option<Prices>>)
    requires Mirrors(c, held, [], Session(ops, Contents(held), []))
    modifies c, held
    ensures Mirrors(c, held', answers, Play(c.hasDb, Session(ops, old(Contents(held)), []), actions))
  {
    held', answers := held, [];
    ghost var start := Session(ops, Contents(held), []);
    for i := 0 to |actions|
      invariant Mirrors(c, held', answers, Play(c.hasDb, start, actions[..i]))
      invariant forall m | m in held' :: m in held || fresh(m)
    {
      assert actions[..i + 1][..i] == actions[..i];
      ghost var s := Play(c.hasDb, start, actions[..i]);
      var a := actions[i];
      if a.DoGet? {
        held', answers := PlayGet(c, held', answers, a, s);
      } else if a.DoPut? && a.index < |held'| {
        PlayPut(c, held', answers, a, s);
      } else if a.Mutate? && a.index < |held'| {
        assert held'[a.index] in held';
        PlayMutation(c, held', answers, a, s);
      }
    }
    assert actions[..|actions|] == actions;
  }
}
