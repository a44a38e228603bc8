/** The AWS pricing service as an object with mutable caches, as a refinement of its steps on values. */
module AwsService {
  import opened Wrappers
  import opened PricingLayers
  import opened AwsPricing
  import opened PricingCache

  /** Prices with the time they were obtained; the map is shared by everyone who was given it. */
  datatype PricingInfo = PricingInfo(prices: PriceMap, updatedAt: Time)

  class PricingService {
    const store: Cache?
    var cache: map<string, PricingInfo>
    var typeCache: map<string, seq<InstanceType>>
    var typeCacheTime: map<string, Time>

    ghost function Maps(): set<PriceMap>
      reads `cache
    {
      set k | k in cache :: cache[k].prices
    }

    /** The maps of the pricing cache. */
    ghost function StoreMaps(): set<PriceMap>
      reads store
    {
      if store == null then {} else store.Objects()
    }

    /** The service and its pricing cache hold different maps. */
    ghost predicate Valid()
      reads this, store
    {
      && (store != null ==> store.Valid())
      && Maps() !! StoreMaps()
      && typeCache.Keys == typeCacheTime.Keys
    }

    ghost function Infos(): map<string, Info>
      reads `cache, Maps()
    {
      map k | k in cache :: Info(cache[k].prices.prices, cache[k].updatedAt)
    }

    ghost function Lists(): map<string, TypeList>
      requires typeCache.Keys == typeCacheTime.Keys
      reads `typeCache, `typeCacheTime
    {
      map k | k in typeCache :: TypeList(typeCache[k], typeCacheTime[k])
    }

    ghost function StoreView(): Option<Layers>
      requires store != null ==> store.Valid()
      reads store, StoreMaps()
    {
      if store == null then None else Some(store.View())
    }

    ghost function View(): Service
      requires Valid()
      reads this, store, Maps(), StoreMaps()
    {
      Service(Infos(), Lists(), StoreView())
    }

    constructor (store: Cache?)
      requires store != null ==> store.Valid()
      ensures Valid() && this.store == store && Maps() == {}
      ensures Infos() == map[] && Lists() == map[]
    {
      this.store := store;
      cache, typeCache, typeCacheTime := map[], map[], map[];
    }

    method Remember(region: string, prices: PriceMap, now: Time) returns (info: PricingInfo)
      requires Valid() && prices !in StoreMaps()
      modifies `cache
      ensures Valid() && region in cache && cache[region] == info && info.prices == prices
      ensures Maps() <= old(Maps()) + {prices}
      ensures Infos() == old(Infos())[region := Info(prices.prices, now)]
      ensures StoreView() == old(StoreView()) && StoreMaps() == old(StoreMaps()) && Lists() == old(Lists())
    {
      info := PricingInfo(prices, now);
      cache := cache[region := info];
    }

    method RememberTypes(region: string, types: seq<InstanceType>, now: Time)
      requires Valid()
      modifies `typeCache, `typeCacheTime
      ensures Valid() && Lists() == old(Lists())[region := TypeList(types, now)]
      ensures StoreView() == old(StoreView()) && StoreMaps() == old(StoreMaps()) && Infos() == old(Infos())
    {
      typeCache := typeCache[region := types];
      typeCacheTime := typeCacheTime[region := now];
    }

    /** Asks the pricing cache, if there is one. */
    method AskStore(region: string, at: Instants, queryOk: bool) returns (r: PriceMap?)
      requires Valid()
      modifies if store == null then {} else {store}
      ensures Valid() && fresh(StoreMaps() - old(StoreMaps()))
      ensures StoreView() == StoreGot(old(StoreView()), region, at, queryOk)
      ensures Infos() == old(Infos())
      ensures FromStore(old(StoreView()), region, at, queryOk) == if r == null then None else Some(r.prices)
      ensures r != null ==> fresh(r) && r !in StoreMaps()
    {
      if store == null {
        return null;
      }
      var found := store.Get(PROVIDER, region, at, queryOk);
      r := if found.Some? && found.value.prices != map[] then found.value else null;
    }

    /** Prices that are known, from the pricing cache or else from the price list. */
    method FindRealPrices(region: string, c: TypeClock, a: TypeAnswers) returns (realPrices: Prices)
      requires Valid()
      modifies if store == null then {} else {store}
      ensures Valid() && fresh(StoreMaps() - old(StoreMaps())) && Infos() == old(Infos())
      ensures StoreView() == StoreGot(old(StoreView()), region, c.get, a.queryOk)
      ensures realPrices == RealPrices(FromStore(old(StoreView()), region, c.get, a.queryOk), a.api)
    {
      var found := AskStore(region, c.get, a.queryOk);
      realPrices := map[];
      if found != null {
        realPrices := found.prices;
      } else if a.api.Some? {
        realPrices := a.api.value;
      }
    }

    /** A new list of the described types, if there is a description. */
    method ListTypes(region: string, c: TypeClock, a: TypeAnswers) returns (r: Option<seq<InstanceType>>)
      requires Valid()
      modifies if store == null then {} else {store}
      ensures Valid() && fresh(StoreMaps() - old(StoreMaps()))
      ensures View() == Asked(old(View()), region, c.get, a.queryOk)
      ensures r == NewTypes(old(View()), region, c, a)
    {
      ghost var asked, made := Asked(View(), region, c.get, a.queryOk), NewTypes(View(), region, c, a);
      var realPrices := FindRealPrices(region, c, a);
      assert View() == asked;
      if a.described.None? {
        return None;
      }
      var types := PriceAll(a.described.value, realPrices);
      assert made == Some(types);
      r := Some(types);
    }

    /** The instance types of a region with their prices, which are estimates only where no price is known. */
    method GetInstanceTypes(region: string, c: TypeClock, a: TypeAnswers) returns (r: Option<seq<InstanceType>>)
      requires Valid()
      modifies `typeCache, `typeCacheTime, if store == null then {} else {store}
      ensures Valid() && fresh(StoreMaps() - old(StoreMaps()))
      ensures View() == AfterTypes(old(View()), region, c, a)
      ensures r == TypesOf(old(View()), region, c, a)
    {
      if region in typeCache {
        if region in typeCacheTime && c.check - typeCacheTime[region] < TYPES_TTL {
          return Some(typeCache[region]);
        }
      }
      assert !HasTypes(View(), region, c.check);
      ghost var made, asked := NewTypes(View(), region, c, a), Asked(View(), region, c.get, a.queryOk);
      r := ListTypes(region, c, a);
      assert View() == asked && r == made;
      if r.Some? {
        RememberTypes(region, r.value, c.stamp);
        assert View() == asked.(types := asked.types[region := TypeList(r.value, c.stamp)]);
      }
    }

    /** Puts fetched prices into the pricing cache, if there is one. */
    method StoreFetched(region: string, kept: Time, written: Time, prices: PriceMap, putOk: bool)
      requires Valid()
      modifies if store == null then {} else {store}
      ensures Valid() && Infos() == old(Infos())
      ensures StoreView() == StorePut(old(StoreView()), region, prices.prices, kept, written, putOk)
    {
      if store != null {
        store.Put(PROVIDER, region, prices, kept, written, putOk);
      }
    }

    method SanitizeFetched(api: PriceMap)
      requires Valid() && api !in StoreMaps() && api !in Maps()
      modifies api
      ensures Valid() && api.prices == Sanitized(old(api.prices))
      ensures Infos() == old(Infos()) && StoreView() == old(StoreView())
    {
      var removed := SanitizePrices(api);
    }

    /** Takes fetched prices, from which the invalid ones are removed in place, into both caches. */
    method TakeFetched(region: string, c: Clock, api: PriceMap, putOk: bool) returns (info: PricingInfo)
      requires Valid() && api !in StoreMaps() && api !in Maps()
      modifies `cache, api, if store == null then {} else {store}
      ensures Valid() && region in cache && cache[region] == info && info.prices == api
      ensures Infos() == old(Infos())[region := Info(Sanitized(old(api.prices)), c.stamp)]
      ensures StoreView() == StorePut(old(StoreView()), region, Sanitized(old(api.prices)), c.kept, c.written, putOk)
    {
      SanitizeFetched(api);
      info := Remember(region, api, c.stamp);
      StoreFetched(region, c.kept, c.written, api, putOk);
    }

    method RememberTypePrices(region: string, types: seq<InstanceType>, stamp: Time) returns (info: PricingInfo)
      requires Valid()
      modifies `cache
      ensures Valid() && region in cache && cache[region] == info
      ensures View() == FellBack(old(View()), Some(types), region, stamp)
    {
      var prices := CollectPrices(types);
      info := Remember(region, prices, stamp);
    }

    /** Falls back on the instance types. */
    method FallBack(region: string, c: Clock, a: TypeAnswers) returns (r: Option<PricingInfo>)
      requires Valid()
      modifies this, if store == null then {} else {store}
      ensures Valid() && (r.Some? ==> region in cache && cache[region] == r.value)
      ensures r.Some? <==> TypesOf(old(View()), region, c.types, a).Some?
      ensures View() == FellBack(AfterTypes(old(View()), region, c.types, a), TypesOf(old(View()), region, c.types, a),
                                 region, c.stamp)
    {
      ghost var listed, made := AfterTypes(View(), region, c.types, a), TypesOf(View(), region, c.types, a);
      var types := GetInstanceTypes(region, c.types, a);
      assert View() == listed && types == made;
      if types.None? {
        return None;
      }
      var info := RememberTypePrices(region, types.value, c.stamp);
      r := Some(info);
    }

    /** Uses what the pricing cache had, or else the price list, or else the instance types. */
    method Settle(
        stored: PriceMap?, region: string, c: Clock, putOk: bool, api: PriceMap?, types: TypeAnswers, ghost a: Answers)
      returns (r: Option<PricingInfo>)
      requires Valid() && a.putOk == putOk && a.types == types
      requires a.api == (if api == null then None else Some(api.prices))
      requires stored != null ==> stored !in StoreMaps()
      requires api != null ==> api !in Maps() && api !in StoreMaps()
      modifies this, if store == null then {} else {store}, if api == null then {} else {api}
      ensures Valid() && (r.Some? ==> region in cache && cache[region] == r.value)
      ensures r.Some? <==> stored != null || (a.api.Some? && a.api.value != map[]) ||
                           TypesOf(old(View()), region, c.types, types).Some?
      ensures View() == Combined(old(View()), if stored == null then None else Some(old(stored.prices)), region, c, a)
    {
      if stored != null {
        var info := Remember(region, stored, c.stamp);
        r := Some(info);
      } else if api != null && api.prices != map[] {
        var info := TakeFetched(region, c, api, putOk);
        r := Some(info);
      } else {
        r := FallBack(region, c, types);
      }
    }

    /** The layers below the service's own cache. */
    method LookUp(
        region: string, c: Clock, queryOk: bool, putOk: bool, api: PriceMap?, types: TypeAnswers, ghost a: Answers)
      returns (r: Option<PricingInfo>)
      requires Valid() && !IsFresh(View(), region, c.check)
      requires a == Answers(queryOk, putOk, if api == null then None else Some(api.prices), types)
      requires api != null ==> api !in Maps() && api !in StoreMaps()
      modifies this, if store == null then {} else {store}, if api == null then {} else {api}
      ensures Valid() && View() == After(old(View()), region, c, a)
      ensures r.Some? <==> SourceOf(old(View()), region, c, a) != Failure
      ensures r.Some? ==> region in cache && cache[region] == r.value
    {
      var stored := AskStore(region, c.get, queryOk);
      r := Settle(stored, region, c, putOk, api, types, a);
    }

    /**
     The prices of a region from the first layer that has them; what is fetched for this call is in a map made for it.
     The caller is given the map that the service keeps, so that, unlike in the pricing cache, what the caller does to
     it is seen by later lookups.
     */
    method GetCurrentPricing(
        region: string, c: Clock, queryOk: bool, putOk: bool, api: PriceMap?, types: TypeAnswers, ghost a: Answers)
      returns (r: Option<PricingInfo>)
      requires Valid()
      requires a == Answers(queryOk, putOk, if api == null then None else Some(api.prices), types)
      requires api != null ==> api !in Maps() && api !in StoreMaps()
      modifies this, if store == null then {} else {store}, if api == null then {} else {api}
      ensures Valid() && View() == After(old(View()), region, c, a)
      ensures r.Some? <==> Served(old(View()), region, c, a).Some?
      ensures r.Some? ==> region in cache && cache[region] == r.value
    {
      if region in cache {
        if c.check - cache[region].updatedAt < INFO_TTL {
          assert IsFresh(View(), region, c.check);
          return Some(cache[region]);
        }
      }
      r := LookUp(region, c, queryOk, putOk, api, types, a);
    }
  }

  method PriceAll(described: seq<Described>, realPrices: Prices) returns (types: seq<InstanceType>)
    ensures types == Priced(described, realPrices)
  {
    types := [];
    for i := 0 to |described|
      invariant |types| == i
      invariant forall j | 0 <= j < i :: types[j] == InstanceType(described[j].name, PriceOf(described[j], realPrices))
    {
      var price;
      if described[i].name in realPrices {
        price := realPrices[described[i].name];
      } else {
        price := described[i].estimate;
      }
      types := types + [InstanceType(described[i].name, price)];
    }
  }

  method CollectPrices(types: seq<InstanceType>) returns (m: PriceMap)
    ensures fresh(m) && m.prices == PricesOf(types)
  {
    m := new PriceMap();
    for i := 0 to |types|
      invariant m.prices == PricesOf(types[..i])
    {
      assert types[..i + 1][..i] == types[..i];
      m.Set(types[i].name, types[i].price);
    }
    assert types[..|types|] == types;
  }
}
