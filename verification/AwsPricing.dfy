/**
 The AWS price lookup as steps on values: an hour in its own cache, on top of the two layers of the pricing cache, and
 with the instance types to fall back on, which are cached for an hour themselves.
 */
module AwsPricing {
  import opened Wrappers
  import L = PricingLayers
  import opened PricingLayers

  const PROVIDER := "aws"
  const INFO_TTL: Time := HOUR
  const TYPES_TTL: Time := HOUR

  datatype Info = Info(prices: Prices, updatedAt: Time)

  /** An instance type with its price; what else is known of it is not represented. */
  datatype InstanceType = InstanceType(name: string, price: real)

  datatype TypeList = TypeList(types: seq<InstanceType>, at: Time)

  /** The service's own caches by region, and the pricing cache if it was given one. */
  datatype Service = Service(cache: map<string, Info>, types: map<string, TypeList>, store: Option<Layers>)

  /** An instance type as EC2 describes it, with the estimate computed from its components. */
  datatype Described = Described(name: string, estimate: real)

  /**
   What the outside would answer while instance types are listed: whether a query of the table succeeds, the prices of
   the AWS price list (None without a client or on an error), and the types that EC2 describes (None on an error).
   */
  datatype TypeAnswers = TypeAnswers(queryOk: bool, api: Option<Prices>, described: Option<seq<Described>>)

  /** What the outside would answer during a lookup, which lists instance types last. */
  datatype Answers = Answers(queryOk: bool, putOk: bool, api: Option<Prices>, types: TypeAnswers)

  /** The clock readings while instance types are listed. */
  datatype TypeClock = TypeClock(start: Time, check: Time, get: Instants, stamp: Time)

  /** The clock readings of a lookup; those of a put are used when there is one. */
  datatype Clock = Clock(start: Time, check: Time, get: Instants, stamp: Time, kept: Time, written: Time, types: TypeClock)

  datatype Source = Memory | Layered | Api | Fallback | Failure

  predicate IsFresh(s: Service, region: string, now: Time) {
    region in s.cache && now - s.cache[region].updatedAt < INFO_TTL
  }

  predicate HasTypes(s: Service, region: string, now: Time) {
    region in s.types && now - s.types[region].at < TYPES_TTL
  }

  /** What the pricing cache finds, unless that is nothing at all. */
  function FromStore(store: Option<Layers>, region: string, at: Instants, queryOk: bool): Option<Prices> {
    match store
    case None => None
    case Some(l) =>
      var found := GetResult(l, PROVIDER, region, at, queryOk);
      if found.Some? && found.value != map[] then found else None
  }

  function StoreGot(store: Option<Layers>, region: string, at: Instants, queryOk: bool): Option<Layers> {
    match store
    case None => None
    case Some(l) => Some(AfterGet(l, PROVIDER, region, at, queryOk))
  }

  function StorePut(
      store: Option<Layers>, region: string, prices: Prices, kept: Time, written: Time, putOk: bool): Option<Layers>
  {
    match store
    case None => None
    case Some(l) => Some(AfterPut(l, PROVIDER, region, prices, kept, written, putOk))
  }

  // ---- Instance types ------------------------------------------------------

  /** The prices that go before the estimates: those of the pricing cache, or else of the price list as they are. */
  function RealPrices(found: Option<Prices>, api: Option<Prices>): Prices {
    if found.Some? then found.value else api.GetOr(map[])
  }

  function PriceOf(d: Described, real_: Prices): real {
    if d.name in real_ then real_[d.name] else d.estimate
  }

  function Priced(described: seq<Described>, real_: Prices): seq<InstanceType> {
    seq(|described|, i requires 0 <= i < |described| => InstanceType(described[i].name, PriceOf(described[i], real_)))
  }

  /** The list made when none is cached. */
  function NewTypes(s: Service, region: string, c: TypeClock, a: TypeAnswers): Option<seq<InstanceType>> {
    match a.described
    case None => None
    case Some(ds) => Some(Priced(ds, RealPrices(FromStore(s.store, region, c.get, a.queryOk), a.api)))
  }

  function TypesOf(s: Service, region: string, c: TypeClock, a: TypeAnswers): Option<seq<InstanceType>> {
    if HasTypes(s, region, c.check) then Some(s.types[region].types) else NewTypes(s, region, c, a)
  }

  function AfterTypes(s: Service, region: string, c: TypeClock, a: TypeAnswers): Service {
    if HasTypes(s, region, c.check) then s
    else
      var made := NewTypes(s, region, c, a);
      Service(s.cache,
              if made.Some? then s.types[region := TypeList(made.value, c.stamp)] else s.types,
              StoreGot(s.store, region, c.get, a.queryOk))
  }

  /** The price of each name; of several types with one name the last counts. */
  function PricesOf(types: seq<InstanceType>): Prices {
    if types == [] then map[]
    else
      var t := types[|types| - 1];
      PricesOf(types[..|types| - 1])[t.name := t.price]
  }

  // ---- Lookups -------------------------------------------------------------

  /** The service after asking the pricing cache. */
  function Asked(s: Service, region: string, at: Instants, queryOk: bool): Service {
    s.(store := StoreGot(s.store, region, at, queryOk))
  }

  function SourceOf(s: Service, region: string, c: Clock, a: Answers): Source {
    if IsFresh(s, region, c.check) then Memory
    else if FromStore(s.store, region, c.get, a.queryOk).Some? then Layered
    else if a.api.Some? && a.api.value != map[] then Api
    else if TypesOf(Asked(s, region, c.get, a.queryOk), region, c.types, a.types).Some? then Fallback
    else Failure
  }

  function Served(s: Service, region: string, c: Clock, a: Answers): Option<Info> {
    match SourceOf(s, region, c, a)
    case Memory => Some(s.cache[region])
    case Layered => Some(Info(FromStore(s.store, region, c.get, a.queryOk).value, c.stamp))
    case Api => Some(Info(Sanitized(a.api.value), c.stamp))
    case Fallback => Some(Info(PricesOf(TypesOf(Asked(s, region, c.get, a.queryOk), region, c.types, a.types).value), c.stamp))
    case Failure => None
  }

  /** The service with an entry made from instance types, if there are any. */
  function FellBack(listed: Service, types: Option<seq<InstanceType>>, region: string, stamp: Time): Service {
    match types
    case None => listed
    case Some(ts) => listed.(cache := listed.cache[region := Info(PricesOf(ts), stamp)])
  }

  /** The service once the pricing cache was asked and has answered. */
  function Combined(asked: Service, found: Option<Prices>, region: string, c: Clock, a: Answers): Service {
    if found.Some? then
      asked.(cache := asked.cache[region := Info(found.value, c.stamp)])
    else if a.api.Some? && a.api.value != map[] then
      asked.(cache := asked.cache[region := Info(Sanitized(a.api.value), c.stamp)],
             store := StorePut(asked.store, region, Sanitized(a.api.value), c.kept, c.written, a.putOk))
    else
      FellBack(AfterTypes(asked, region, c.types, a.types), TypesOf(asked, region, c.types, a.types), region, c.stamp)
  }

  function After(s: Service, region: string, c: Clock, a: Answers): Service {
    if IsFresh(s, region, c.check) then s
    else Combined(Asked(s, region, c.get, a.queryOk), FromStore(s.store, region, c.get, a.queryOk), region, c, a)
  }

  // ---- Which source is used ---------------------------------------------------

  /** Nothing in the pricing cache, or no pricing cache. */
  predicate StoreHasNothing(s: Service, region: string, at: Instants, queryOk: bool) {
    s.store.Some? ==>
      var found := GetResult(s.store.value, "aws", region, at, queryOk);
      found.None? || found.value == map[]
  }

  /** Memory for an hour, then the pricing cache, then the price list without its invalid prices, then instance types. */
  lemma SourcesInOrder(s: Service, region: string, c: Clock, a: Answers)
    ensures var inMemory := region in s.cache && c.check - s.cache[region].updatedAt < 3600 * 1_000_000_000;
            var nothing := StoreHasNothing(s, region, c.get, a.queryOk);
            var unlisted := a.api.None? || a.api.value == map[];
            && (inMemory ==> Served(s, region, c, a) == Some(s.cache[region]) && After(s, region, c, a) == s)
            && (!inMemory && !nothing ==>
                  var found := GetResult(s.store.value, "aws", region, c.get, a.queryOk).value;
                  Served(s, region, c, a) == Some(Info(found, c.stamp)))
            && (!inMemory && nothing && !unlisted ==>
                  Served(s, region, c, a) == Some(Info(Sanitized(a.api.value), c.stamp)))
            && (!inMemory && nothing && unlisted ==> SourceOf(s, region, c, a) in {Fallback, Failure})
  {
  }

  /** A listed type has the price of the pricing cache; when that has nothing, of the price list; else its estimate. */
  lemma TypePricesInOrder(s: Service, region: string, c: TypeClock, a: TypeAnswers, i: nat)
    requires !HasTypes(s, region, c.check) && a.described.Some? && i < |a.described.value|
    ensures var made, d := TypesOf(s, region, c, a), a.described.value[i];
            && made.Some? && |made.value| == |a.described.value| && made.value[i].name == d.name
            && (!StoreHasNothing(s, region, c.get, a.queryOk) ==>
                  var found := GetResult(s.store.value, "aws", region, c.get, a.queryOk).value;
                  made.value[i].price == if d.name in found then found[d.name] else d.estimate)
            && (StoreHasNothing(s, region, c.get, a.queryOk) ==>
                  made.value[i].price ==
                  if a.api.Some? && d.name in a.api.value then a.api.value[d.name] else d.estimate)
  {
  }

  // ---- Runs ----------------------------------------------------------------

  /** A lookup, a list of instance types, or an operation of another provider on the same pricing cache. */
  datatype Event =
    | Ask(region: string, clock: Clock, answers: Answers)
    | AskTypes(region: string, typeClock: TypeClock, typeAnswers: TypeAnswers)
    | Other(op: Op)

  predicate TypesTimely(c: TypeClock, d: nat) {
    c.start <= c.check <= c.get.first && InOrder(c.get) && c.get.loaded <= c.stamp <= c.start + d
  }

  /** The readings of an event are in order, and the event takes no longer than `d`. */
  predicate Timely(e: Event, d: nat) {
    match e
    case Ask(_, c, _) =>
      && c.start <= c.check <= c.get.first && InOrder(c.get) && c.get.loaded <= c.stamp <= c.kept <= c.written
      && c.start <= c.types.start && TypesTimely(c.types, d) && c.types.stamp <= c.stamp
      && c.written <= c.start + d
    case AskTypes(_, c, _) => TypesTimely(c, d)
    case Other(op) => Lasts(op, d) && op.provider != PROVIDER && ':' !in op.provider
  }

  predicate AreTimely(events: seq<Event>, d: nat) {
    forall e | e in events :: Timely(e, d)
  }

  function Step(s: Service, e: Event): Service {
    match e
    case Ask(region, c, a) => After(s, region, c, a)
    case AskTypes(region, c, a) => AfterTypes(s, region, c, a)
    case Other(op) => if s.store.Some? then s.(store := Some(L.Step(s.store.value, op))) else s
  }

  function Start(store: Option<bool>): Service {
    Service(map[], map[], match store case None => None case Some(hasDb) => Some(L.Run(hasDb, [])))
  }

  /** `store` says whether there is a pricing cache, and whether it has a database. */
  function Run(store: Option<bool>, events: seq<Event>): Service {
    if events == [] then Start(store) else Step(Run(store, events[..|events| - 1]), events[|events| - 1])
  }

  /** A lookup that makes the entry of the region. */
  predicate MakesEntry(s: Service, e: Event, region: string) {
    e.Ask? && e.region == region && SourceOf(s, region, e.clock, e.answers) in {Layered, Api, Fallback}
  }

  /** Where the entry of a region comes from: the source of the last lookup that made it. */
  function Origin(store: Option<bool>, events: seq<Event>, region: string): Source {
    if events == [] then Failure
    else
      var before, e := events[..|events| - 1], events[|events| - 1];
      if MakesEntry(Run(store, before), e, region) then SourceOf(Run(store, before), region, e.clock, e.answers)
      else Origin(store, before, region)
  }

  /**
   What became known, and when the call began that learned it: prices of the price list without the invalid ones,
   prices of the price list as they are, and estimates.
   */
  datatype Fact =
    | Listed(region: string, prices: Prices, at: Time)
    | Raw(region: string, prices: Prices, at: Time)
    | Estimated(region: string, described: seq<Described>, at: Time)

  function FactsOfTypes(s: Service, region: string, c: TypeClock, a: TypeAnswers): seq<Fact> {
    if HasTypes(s, region, c.check) || a.described.None? then []
    else
      [Estimated(region, a.described.value, c.start)] +
      if FromStore(s.store, region, c.get, a.queryOk).None? && a.api.Some? then [Raw(region, a.api.value, c.start)] else []
  }

  function FactsOf(s: Service, e: Event): seq<Fact> {
    match e
    case Other(_) => []
    case AskTypes(region, c, a) => FactsOfTypes(s, region, c, a)
    case Ask(region, c, a) =>
      match SourceOf(s, region, c, a)
      case Api => [Listed(region, Sanitized(a.api.value), c.start)]
      case Fallback => FactsOfTypes(Asked(s, region, c.get, a.queryOk), region, c.types, a.types)
      case _ => []
  }

  /** Everything that became known in a run. */
  function Facts(store: Option<bool>, events: seq<Event>): seq<Fact> {
    if events == [] then []
    else
      var before := events[..|events| - 1];
      Facts(store, before) + FactsOf(Run(store, before), events[|events| - 1])
  }

  /** The event is no lookup of the region at a time when its entry of `stamp` has expired. */
  predicate FindsFresh(e: Event, region: string, stamp: Time) {
    e.Ask? && e.region == region ==> e.clock.check - stamp < 3600 * 1_000_000_000
  }

  lemma FreshIsKept(s: Service, e: Event, region: string, info: Info)
    requires region in s.cache && s.cache[region] == info && FindsFresh(e, region, info.updatedAt)
    ensures region in Step(s, e).cache && Step(s, e).cache[region] == info
  {
  }

  /**
   What one lookup fetched is what every lookup of the region finds for an hour, in memory, whatever happens to other
   regions, to the instance types and to the pricing cache in between.
   */
  lemma {:induction false} ServesWhatWasServed(
      store: Option<bool>, events: seq<Event>, first: Event, later: seq<Event>, info: Info, c: Clock, a: Answers)
    requires first.Ask? && MakesEntry(Run(store, events), first, first.region)
    requires Served(Run(store, events), first.region, first.clock, first.answers) == Some(info)
    requires forall e | e in later :: FindsFresh(e, first.region, info.updatedAt)
    requires c.check - info.updatedAt < 3600 * 1_000_000_000
    ensures var s := Run(store, events + [first] + later);
            && first.region in s.cache && s.cache[first.region] == info
            && SourceOf(s, first.region, c, a) == Memory && Served(s, first.region, c, a) == Some(info)
  {
    var all := events + [first] + later;
    if later == [] {
      assert all[..|all| - 1] == events && all[|all| - 1] == first;
    } else {
      assert all[..|all| - 1] == events + [first] + later[..|later| - 1];
      ServesWhatWasServed(store, events, first, later[..|later| - 1], info, c, a);
      assert all[|all| - 1] in later;
      FreshIsKept(Run(store, all[..|all| - 1]), all[|all| - 1], first.region, info);
    }
  }

  // ---- The pricing cache underneath ----------------------------------------

  function TypeOps(s: Service, region: string, c: TypeClock, a: TypeAnswers): seq<Op> {
    if HasTypes(s, region, c.check) then [] else [Get(PROVIDER, region, c.get, a.queryOk)]
  }

  /** What an event does to the pricing cache. A lookup that falls back asks it a second time. */
  function OpsOf(s: Service, e: Event): seq<Op> {
    match e
    case Other(op) => [op]
    case AskTypes(region, c, a) => TypeOps(s, region, c, a)
    case Ask(region, c, a) =>
      match SourceOf(s, region, c, a)
      case Memory => []
      case Layered => [Get(PROVIDER, region, c.get, a.queryOk)]
      case Api => [Get(PROVIDER, region, c.get, a.queryOk),
                   Put(PROVIDER, region, c.kept, c.written, a.putOk, Sanitized(a.api.value))]
      case _ => [Get(PROVIDER, region, c.get, a.queryOk)] +
                TypeOps(Asked(s, region, c.get, a.queryOk), region, c.types, a.types)
  }

  /** Everything that happened to the pricing cache in a run. */
  function Ops(store: Option<bool>, events: seq<Event>): seq<Op> {
    if events == [] then []
    else
      var before := events[..|events| - 1];
      Ops(store, before) + OpsOf(Run(store, before), events[|events| - 1])
  }

  function Steps(l: Layers, ops: seq<Op>): Layers
    decreases |ops|
  {
    if ops == [] then l else Steps(L.Step(l, ops[0]), ops[1..])
  }

  lemma {:induction false} StepsContinueRun(hasDb: bool, ops: seq<Op>, more: seq<Op>)
    ensures Steps(L.Run(hasDb, ops), more) == L.Run(hasDb, ops + more)
    decreases |more|
  {
    if more == [] {
      assert ops + more == ops;
    } else {
      assert (ops + [more[0]])[..|ops|] == ops;
      StepsContinueRun(hasDb, ops + [more[0]], more[1..]);
      assert ops + [more[0]] + more[1..] == ops + more;
    }
  }

  lemma TwoSteps(l: Layers, a: Op, b: Op)
    ensures Steps(l, [a]) == L.Step(l, a) && Steps(l, [a, b]) == L.Step(L.Step(l, a), b)
  {
    assert [a][1..] == [] && [a, b][1..] == [b] && [b][1..] == [];
    assert Steps(L.Step(L.Step(l, a), b), []) == L.Step(L.Step(l, a), b);
  }

  lemma StepOfStore(s: Service, e: Event)
    requires s.store.Some?
    ensures Step(s, e).store == Some(Steps(s.store.value, OpsOf(s, e)))
  {
    var ops := OpsOf(s, e);
    if |ops| == 1 {
      assert ops == [ops[0]];
      TwoSteps(s.store.value, ops[0], ops[0]);
    } else if |ops| == 2 {
      assert ops == [ops[0], ops[1]];
      TwoSteps(s.store.value, ops[0], ops[1]);
    }
  }

  /** The pricing cache of a run of the service is that of a run of its own. */
  lemma {:induction false} StoreIsRun(hasDb: bool, events: seq<Event>)
    ensures Run(Some(hasDb), events).store == Some(L.Run(hasDb, Ops(Some(hasDb), events)))
  {
    if events != [] {
      var before, e := events[..|events| - 1], events[|events| - 1];
      StoreIsRun(hasDb, before);
      StepOfStore(Run(Some(hasDb), before), e);
      StepsContinueRun(hasDb, Ops(Some(hasDb), before), OpsOf(Run(Some(hasDb), before), e));
    }
  }

  lemma {:induction false} StoreExists(store: Option<bool>, events: seq<Event>)
    ensures Run(store, events).store.Some? <==> store.Some?
  {
    if events != [] {
      StoreExists(store, events[..|events| - 1]);
    }
  }

  // ---- Where prices come from ----------------------------------------------

  /** The price was on the price list, and valid, for a call that began after the given time. */
  ghost predicate WasListed(facts: seq<Fact>, region: string, it: string, price: real, after: Time) {
    exists f :: f in facts && f.Listed? && f.region == region && it in f.prices && f.prices[it] == price && f.at > after
  }

  /** The same, valid or not. */
  ghost predicate WasFetched(facts: seq<Fact>, region: string, it: string, price: real, after: Time) {
    exists f :: f in facts && !f.Estimated? && f.region == region && it in f.prices && f.prices[it] == price && f.at > after
  }

  ghost predicate WasEstimated(facts: seq<Fact>, region: string, it: string, price: real, after: Time) {
    exists f :: f in facts && f.Estimated? && f.region == region && Described(it, price) in f.described && f.at > after
  }

  /** The put is of what was listed, for a call that began no longer than `d` before. */
  ghost predicate PutIsListed(op: Op, facts: seq<Fact>, d: nat)
    requires op.Put?
  {
    exists at :: Listed(op.region, op.prices, at) in facts && at >= op.kept - d
  }

  /** The operations are short, the service only puts what was listed, and providers have no colon. */
  ghost predicate AreSound(ops: seq<Op>, facts: seq<Fact>, d: nat) {
    forall op | op in ops ::
      && Lasts(op, d)
      && ':' !in op.provider
      && (op.Put? && op.provider == PROVIDER ==> PutIsListed(op, facts, d))
  }

  lemma OpIsSound(s: Service, e: Event, op: Op, d: nat)
    requires Timely(e, d) && op in OpsOf(s, e)
    ensures Lasts(op, d) && ':' !in op.provider
    ensures op.Put? && op.provider == PROVIDER ==> PutIsListed(op, FactsOf(s, e), d)
  {
    if op.Put? && op.provider == PROVIDER {
      assert e.Ask? && SourceOf(s, e.region, e.clock, e.answers) == Api;
      assert FactsOf(s, e) == [Listed(op.region, op.prices, e.clock.start)];
    }
  }

  lemma StaysSound(ops: seq<Op>, facts: seq<Fact>, d: nat, s: Service, e: Event)
    requires AreSound(ops, facts, d) && Timely(e, d)
    ensures AreSound(ops + OpsOf(s, e), facts + FactsOf(s, e), d)
  {
    forall op | op in ops + OpsOf(s, e)
      ensures Lasts(op, d) && ':' !in op.provider
      ensures op.Put? && op.provider == PROVIDER ==> PutIsListed(op, facts + FactsOf(s, e), d)
    {
      if op in ops {
        assert op.Put? && op.provider == PROVIDER ==> PutIsListed(op, facts, d);
      } else {
        OpIsSound(s, e, op, d);
      }
    }
  }

  lemma {:induction false} RunIsSound(store: Option<bool>, events: seq<Event>, d: nat)
    requires AreTimely(events, d)
    ensures AreSound(Ops(store, events), Facts(store, events), d)
  {
    if events != [] {
      var before, e := events[..|events| - 1], events[|events| - 1];
      assert e in events;
      RunIsSound(store, before, d);
      StaysSound(Ops(store, before), Facts(store, before), d, Run(store, before), e);
    }
  }

  /** The prices were all listed for calls that began after the given time. */
  ghost predicate AreListed(facts: seq<Fact>, region: string, prices: Prices, after: Time) {
    forall it | it in prices :: WasListed(facts, region, it, prices[it], after)
  }

  /** What a pricing cache with this past finds was listed; estimates are never in it. */
  lemma FoundWasListed(hasDb: bool, ops: seq<Op>, facts: seq<Fact>, d: nat, region: string, at: Instants, ok: bool)
    requires AreSound(ops, facts, d) && InOrder(at)
    requires FromStore(Some(L.Run(hasDb, ops)), region, at, ok).Some?
    ensures AreListed(facts, region, FromStore(Some(L.Run(hasDb, ops)), region, at, ok).value, at.first - 25 * HOUR - 3 * d)
  {
    var found := FromStore(Some(L.Run(hasDb, ops)), region, at, ok).value;
    ColonFreeKeysAreOwn(ops, PROVIDER, region);
    forall it | it in found ensures WasListed(facts, region, it, found[it], at.first - 25 * HOUR - 3 * d) {
      FoundWasPut(hasDb, ops, d, PROVIDER, region, at, ok, it);
      var op :| op in ops && op.provider == PROVIDER && op.region == region && Puts(op, it, found[it], at.first - FindAge(d));
      assert PutIsListed(op, facts, d);
      var began :| Listed(op.region, op.prices, began) in facts && began >= op.kept - d;
    }
  }

  // ---- What the caches of the service hold ---------------------------------

  /** How long before its stamp the prices of an entry, or of a list of types, can have been listed. */
  function EntryAge(d: nat): Time { 25 * HOUR + 4 * d }

  ghost predicate TypeIsFounded(facts: seq<Fact>, d: nat, region: string, t: InstanceType, at: Time) {
    || WasFetched(facts, region, t.name, t.price, at - EntryAge(d))
    || WasEstimated(facts, region, t.name, t.price, at - d - 1)
  }

  ghost predicate TypesAreFounded(facts: seq<Fact>, d: nat, region: string, l: TypeList) {
    forall t | t in l.types :: TypeIsFounded(facts, d, region, t, l.at)
  }

  /** The entry was made from instance types, which were at most an hour old. */
  ghost predicate FallbackIsFounded(facts: seq<Fact>, d: nat, region: string, info: Info) {
    forall it | it in info.prices ::
      || WasFetched(facts, region, it, info.prices[it], info.updatedAt - EntryAge(d) - TYPES_TTL - d)
      || WasEstimated(facts, region, it, info.prices[it], info.updatedAt - TYPES_TTL - 2 * d)
  }

  ghost predicate InfoIsFounded(facts: seq<Fact>, d: nat, region: string, info: Info, origin: Source) {
    if origin == Fallback then FallbackIsFounded(facts, d, region, info)
    else AreListed(facts, region, info.prices, info.updatedAt - EntryAge(d))
  }

  ghost predicate CacheIsFounded(store: Option<bool>, events: seq<Event>, d: nat) {
    var s := Run(store, events);
    forall r | r in s.cache :: InfoIsFounded(Facts(store, events), d, r, s.cache[r], Origin(store, events, r))
  }

  ghost predicate ListsAreFounded(s: Service, facts: seq<Fact>, d: nat) {
    forall r | r in s.types :: TypesAreFounded(facts, d, r, s.types[r])
  }

  lemma ListedLater(facts: seq<Fact>, more: seq<Fact>, region: string, prices: Prices, after: Time, earlier: Time)
    requires AreListed(facts, region, prices, after) && earlier <= after
    ensures AreListed(facts + more, region, prices, earlier)
  {
    forall it | it in prices ensures WasListed(facts + more, region, it, prices[it], earlier) {
      assert WasListed(facts, region, it, prices[it], after);
    }
  }

  lemma TypesStayFounded(facts: seq<Fact>, more: seq<Fact>, d: nat, region: string, l: TypeList)
    requires TypesAreFounded(facts, d, region, l)
    ensures TypesAreFounded(facts + more, d, region, l)
  {
    forall t | t in l.types ensures TypeIsFounded(facts + more, d, region, t, l.at) {
      assert TypeIsFounded(facts, d, region, t, l.at);
    }
  }

  lemma InfoStaysFounded(facts: seq<Fact>, more: seq<Fact>, d: nat, region: string, info: Info, origin: Source)
    requires InfoIsFounded(facts, d, region, info, origin)
    ensures InfoIsFounded(facts + more, d, region, info, origin)
  {
    if origin == Fallback {
      forall it | it in info.prices
        ensures WasFetched(facts + more, region, it, info.prices[it], info.updatedAt - EntryAge(d) - TYPES_TTL - d)
             || WasEstimated(facts + more, region, it, info.prices[it], info.updatedAt - TYPES_TTL - 2 * d)
      {
        assert WasFetched(facts, region, it, info.prices[it], info.updatedAt - EntryAge(d) - TYPES_TTL - d)
            || WasEstimated(facts, region, it, info.prices[it], info.updatedAt - TYPES_TTL - 2 * d);
      }
    } else {
      ListedLater(facts, more, region, info.prices, info.updatedAt - EntryAge(d), info.updatedAt - EntryAge(d));
    }
  }

  /** A new list of instance types is founded on what is in the pricing cache and what the call learns. */
  lemma NewTypesAreFounded(s: Service, facts: seq<Fact>, d: nat, region: string, c: TypeClock, a: TypeAnswers)
    requires !HasTypes(s, region, c.check) && a.described.Some? && TypesTimely(c, d)
    requires var found := FromStore(s.store, region, c.get, a.queryOk);
             found.Some? ==> AreListed(facts, region, found.value, c.get.first - 25 * HOUR - 3 * d)
    ensures TypesAreFounded(facts + FactsOfTypes(s, region, c, a), d, region,
                            TypeList(NewTypes(s, region, c, a).value, c.stamp))
  {
    var ds, found, types := a.described.value, FromStore(s.store, region, c.get, a.queryOk), NewTypes(s, region, c, a).value;
    var all := facts + FactsOfTypes(s, region, c, a);
    forall t | t in types ensures TypeIsFounded(all, d, region, t, c.stamp) {
      var i :| 0 <= i < |types| && types[i] == t;
      TypePriceIsFounded(facts, all, d, region, ds[i], found, a.api, c, ds);
    }
  }

  lemma TypePriceIsFounded(
      facts: seq<Fact>, all: seq<Fact>, d: nat, region: string, x: Described, found: Option<Prices>, api: Option<Prices>,
      c: TypeClock, ds: seq<Described>)
    requires x in ds && TypesTimely(c, d) && Estimated(region, ds, c.start) in all && forall f | f in facts :: f in all
    requires found.Some? ==> AreListed(facts, region, found.value, c.get.first - 25 * HOUR - 3 * d)
    requires found.None? && api.Some? ==> Raw(region, api.value, c.start) in all
    ensures TypeIsFounded(all, d, region, InstanceType(x.name, PriceOf(x, RealPrices(found, api))), c.stamp)
  {
    if x.name !in RealPrices(found, api) {
      assert Described(x.name, x.estimate) == x;
    } else if found.Some? {
      assert WasListed(facts, region, x.name, found.value[x.name], c.get.first - 25 * HOUR - 3 * d);
    }
  }

  lemma {:induction false} PricesAreOfTypes(types: seq<InstanceType>, it: string)
    requires it in PricesOf(types)
    ensures InstanceType(it, PricesOf(types)[it]) in types
  {
    var last := types[|types| - 1];
    if it != last.name {
      PricesAreOfTypes(types[..|types| - 1], it);
    } else {
      assert last == InstanceType(it, last.price);
    }
  }

  /** Prices taken from a list that is at most an hour old. */
  lemma ListGivesFallback(facts: seq<Fact>, d: nat, region: string, l: TypeList, stamp: Time)
    requires TypesAreFounded(facts, d, region, l) && l.at > stamp - d - TYPES_TTL
    ensures FallbackIsFounded(facts, d, region, Info(PricesOf(l.types), stamp))
  {
    var prices := PricesOf(l.types);
    forall it | it in prices
      ensures WasFetched(facts, region, it, prices[it], stamp - EntryAge(d) - TYPES_TTL - d)
           || WasEstimated(facts, region, it, prices[it], stamp - TYPES_TTL - 2 * d)
    {
      PricesAreOfTypes(l.types, it);
      assert TypeIsFounded(facts, d, region, InstanceType(it, prices[it]), l.at);
    }
  }

  lemma FindsListed(store: Option<bool>, events: seq<Event>, d: nat, region: string, at: Instants, ok: bool)
    requires AreTimely(events, d) && InOrder(at) && FromStore(Run(store, events).store, region, at, ok).Some?
    ensures AreListed(Facts(store, events), region, FromStore(Run(store, events).store, region, at, ok).value,
                      at.first - 25 * HOUR - 3 * d)
  {
    StoreExists(store, events);
    StoreIsRun(store.value, events);
    RunIsSound(store, events, d);
    FoundWasListed(store.value, Ops(store, events), Facts(store, events), d, region, at, ok);
  }

  /** The second time that a lookup asks the pricing cache. */
  lemma FindsListedAgain(
      store: Option<bool>, events: seq<Event>, d: nat, region: string, first: Instants, firstOk: bool, at: Instants, ok: bool)
    requires AreTimely(events, d) && InOrder(at) && first.loaded - first.cutoff <= d
    requires FromStore(Asked(Run(store, events), region, first, firstOk).store, region, at, ok).Some?
    ensures AreListed(Facts(store, events), region,
                      FromStore(Asked(Run(store, events), region, first, firstOk).store, region, at, ok).value,
                      at.first - 25 * HOUR - 3 * d)
  {
    StoreExists(store, events);
    StoreIsRun(store.value, events);
    RunIsSound(store, events, d);
    var ops, get := Ops(store, events), Get(PROVIDER, region, first, firstOk);
    assert (ops + [get])[..|ops|] == ops;
    FoundWasListed(store.value, ops + [get], Facts(store, events), d, region, at, ok);
  }

  /** The lists after an event of instance types, or of a lookup that gets to them. */
  lemma TypesStepIsFounded(s: Service, facts: seq<Fact>, d: nat, region: string, c: TypeClock, a: TypeAnswers)
    requires ListsAreFounded(s, facts, d) && TypesTimely(c, d)
    requires var found := FromStore(s.store, region, c.get, a.queryOk);
             found.Some? ==> AreListed(facts, region, found.value, c.get.first - 25 * HOUR - 3 * d)
    ensures ListsAreFounded(AfterTypes(s, region, c, a), facts + FactsOfTypes(s, region, c, a), d)
  {
    var after, more := AfterTypes(s, region, c, a), FactsOfTypes(s, region, c, a);
    forall r | r in after.types ensures TypesAreFounded(facts + more, d, r, after.types[r]) {
      if r in s.types && after.types[r] == s.types[r] {
        TypesStayFounded(facts, more, d, r, s.types[r]);
      } else {
        NewTypesAreFounded(s, facts, d, region, c, a);
      }
    }
  }

  lemma TypesGiveFallback(s: Service, facts: seq<Fact>, d: nat, region: string, c: TypeClock, a: TypeAnswers, stamp: Time)
    requires ListsAreFounded(s, facts, d) && TypesTimely(c, d) && TypesOf(s, region, c, a).Some?
    requires c.check >= stamp - d
    requires var found := FromStore(s.store, region, c.get, a.queryOk);
             found.Some? ==> AreListed(facts, region, found.value, c.get.first - 25 * HOUR - 3 * d)
    ensures FallbackIsFounded(facts + FactsOfTypes(s, region, c, a), d, region,
                              Info(PricesOf(TypesOf(s, region, c, a).value), stamp))
  {
    TypesStepIsFounded(s, facts, d, region, c, a);
    var l := AfterTypes(s, region, c, a).types[region];
    assert l.types == TypesOf(s, region, c, a).value;
    ListGivesFallback(facts + FactsOfTypes(s, region, c, a), d, region, l, stamp);
  }

  /** The instance types of every run are founded. */
  lemma {:induction false} RunListsAreFounded(store: Option<bool>, events: seq<Event>, d: nat)
    requires AreTimely(events, d)
    ensures ListsAreFounded(Run(store, events), Facts(store, events), d)
  {
    if events != [] {
      var before, e := events[..|events| - 1], events[|events| - 1];
      assert e in events && AreTimely(before, d);
      RunListsAreFounded(store, before, d);
      ListsStepIsFounded(store, before, d, e);
    }
  }

  lemma ListedTypesAreFounded(store: Option<bool>, before: seq<Event>, d: nat, region: string, c: TypeClock, a: TypeAnswers)
    requires AreTimely(before, d) && TypesTimely(c, d) && ListsAreFounded(Run(store, before), Facts(store, before), d)
    ensures var s := Run(store, before);
            ListsAreFounded(AfterTypes(s, region, c, a), Facts(store, before) + FactsOfTypes(s, region, c, a), d)
  {
    if FromStore(Run(store, before).store, region, c.get, a.queryOk).Some? {
      FindsListed(store, before, d, region, c.get, a.queryOk);
    }
    TypesStepIsFounded(Run(store, before), Facts(store, before), d, region, c, a);
  }

  lemma LookedUpTypesAreFounded(store: Option<bool>, before: seq<Event>, d: nat, region: string, c: Clock, a: Answers)
    requires AreTimely(before, d) && Timely(Ask(region, c, a), d)
    requires ListsAreFounded(Run(store, before), Facts(store, before), d)
    ensures var asked := Asked(Run(store, before), region, c.get, a.queryOk);
            ListsAreFounded(AfterTypes(asked, region, c.types, a.types),
                            Facts(store, before) + FactsOfTypes(asked, region, c.types, a.types), d)
  {
    var asked := Asked(Run(store, before), region, c.get, a.queryOk);
    if FromStore(asked.store, region, c.types.get, a.types.queryOk).Some? {
      FindsListedAgain(store, before, d, region, c.get, a.queryOk, c.types.get, a.types.queryOk);
    }
    TypesStepIsFounded(asked, Facts(store, before), d, region, c.types, a.types);
  }

  /** A lookup that finds nothing at all learns nothing either. */
  lemma FailureLearnsNothing(s: Service, region: string, c: TypeClock, a: TypeAnswers)
    requires TypesOf(s, region, c, a).None?
    ensures FactsOfTypes(s, region, c, a) == []
  {
  }

  lemma LookupListsAreFounded(store: Option<bool>, before: seq<Event>, d: nat, e: Event)
    requires e.Ask? && AreTimely(before, d) && Timely(e, d)
    requires ListsAreFounded(Run(store, before), Facts(store, before), d)
    requires SourceOf(Run(store, before), e.region, e.clock, e.answers) in {Fallback, Failure}
    ensures ListsAreFounded(Step(Run(store, before), e), Facts(store, before) + FactsOf(Run(store, before), e), d)
  {
    var s := Run(store, before);
    var asked := Asked(s, e.region, e.clock.get, e.answers.queryOk);
    LookedUpTypesAreFounded(store, before, d, e.region, e.clock, e.answers);
    if SourceOf(s, e.region, e.clock, e.answers) == Failure {
      FailureLearnsNothing(asked, e.region, e.clock.types, e.answers.types);
    }
    TypesAfter(s, e);
  }

  /** Which lists there are after an event. */
  lemma TypesAfter(s: Service, e: Event)
    ensures Step(s, e).types ==
            if e.AskTypes? then
              AfterTypes(s, e.region, e.typeClock, e.typeAnswers).types
            else if e.Ask? && SourceOf(s, e.region, e.clock, e.answers) in {Fallback, Failure} then
              AfterTypes(Asked(s, e.region, e.clock.get, e.answers.queryOk), e.region, e.clock.types, e.answers.types).types
            else
              s.types
  {
  }

  lemma ListsStepIsFounded(store: Option<bool>, before: seq<Event>, d: nat, e: Event)
    requires AreTimely(before, d) && Timely(e, d)
    requires ListsAreFounded(Run(store, before), Facts(store, before), d)
    ensures ListsAreFounded(Step(Run(store, before), e), Facts(store, before) + FactsOf(Run(store, before), e), d)
  {
    var s := Run(store, before);
    if e.AskTypes? {
      ListedTypesAreFounded(store, before, d, e.region, e.typeClock, e.typeAnswers);
    } else if e.Ask? && SourceOf(s, e.region, e.clock, e.answers) in {Fallback, Failure} {
      LookupListsAreFounded(store, before, d, e);
    } else {
      TypesAfter(s, e);
      ListsAreKept(s, Step(s, e), Facts(store, before), FactsOf(s, e), d);
    }
  }

  lemma ListsAreKept(s: Service, s': Service, facts: seq<Fact>, more: seq<Fact>, d: nat)
    requires ListsAreFounded(s, facts, d) && s'.types == s.types
    ensures ListsAreFounded(s', facts + more, d)
  {
    forall r | r in s'.types ensures TypesAreFounded(facts + more, d, r, s'.types[r]) {
      TypesStayFounded(facts, more, d, r, s.types[r]);
    }
  }

  /** What a lookup serves that makes an entry. */
  lemma NewInfoIsFounded(store: Option<bool>, before: seq<Event>, d: nat, e: Event)
    requires e.Ask? && AreTimely(before, d) && Timely(e, d)
    requires SourceOf(Run(store, before), e.region, e.clock, e.answers) in {Layered, Api, Fallback}
    ensures var s := Run(store, before);
            InfoIsFounded(Facts(store, before) + FactsOf(s, e), d, e.region,
                          Served(s, e.region, e.clock, e.answers).value, SourceOf(s, e.region, e.clock, e.answers))
  {
    var s, facts, region, c, a := Run(store, before), Facts(store, before), e.region, e.clock, e.answers;
    match SourceOf(s, region, c, a) {
      case Layered =>
        FindsListed(store, before, d, region, c.get, a.queryOk);
        ListedLater(facts, FactsOf(s, e), region, FromStore(s.store, region, c.get, a.queryOk).value,
                    c.get.first - 25 * HOUR - 3 * d, c.stamp - EntryAge(d));
      case Api =>
        var prices := Sanitized(a.api.value);
        assert Listed(region, prices, c.start) in facts + FactsOf(s, e);
      case Fallback =>
        var asked := Asked(s, region, c.get, a.queryOk);
        RunListsAreFounded(store, before, d);
        if FromStore(asked.store, region, c.types.get, a.types.queryOk).Some? {
          FindsListedAgain(store, before, d, region, c.get, a.queryOk, c.types.get, a.types.queryOk);
        }
        TypesGiveFallback(asked, facts, d, region, c.types, a.types, c.stamp);
    }
  }

  /** Only such a lookup changes the entry of a region. */
  lemma EntryAfter(s: Service, e: Event, region: string)
    ensures var after := Step(s, e);
            if MakesEntry(s, e, region) then
              region in after.cache && after.cache[region] == Served(s, region, e.clock, e.answers).value
            else
              (region in after.cache <==> region in s.cache) && (region in s.cache ==> after.cache[region] == s.cache[region])
  {
  }

  /** The entries of every run are founded. */
  lemma {:induction false} RunCacheIsFounded(store: Option<bool>, events: seq<Event>, d: nat)
    requires AreTimely(events, d)
    ensures CacheIsFounded(store, events, d)
  {
    if events != [] {
      var before, e := events[..|events| - 1], events[|events| - 1];
      assert e in events && AreTimely(before, d);
      RunCacheIsFounded(store, before, d);
      var s, after := Run(store, before), Run(store, events);
      forall r | r in after.cache
        ensures InfoIsFounded(Facts(store, events), d, r, after.cache[r], Origin(store, events, r))
      {
        EntryAfter(s, e, r);
        if MakesEntry(s, e, r) {
          NewInfoIsFounded(store, before, d, e);
        } else {
          InfoStaysFounded(Facts(store, before), FactsOf(s, e), d, r, s.cache[r], Origin(store, before, r));
        }
      }
    }
  }

  // ---- The bounds ----------------------------------------------------------

  lemma ServedIsFounded(store: Option<bool>, events: seq<Event>, d: nat, e: Event)
    requires e.Ask? && AreTimely(events, d) && Timely(e, d)
    requires Served(Run(store, events), e.region, e.clock, e.answers).Some?
    ensures var info := Served(Run(store, events), e.region, e.clock, e.answers).value;
            && InfoIsFounded(Facts(store, events + [e]), d, e.region, info, Origin(store, events + [e], e.region))
            && info.updatedAt > e.clock.check - INFO_TTL
  {
    var s := Run(store, events);
    assert (events + [e])[..|events|] == events;
    if IsFresh(s, e.region, e.clock.check) {
      RunCacheIsFounded(store, events, d);
      InfoStaysFounded(Facts(store, events), FactsOf(s, e), d, e.region, s.cache[e.region], Origin(store, events, e.region));
    } else {
      NewInfoIsFounded(store, events, d, e);
    }
  }

  /**
   The staleness bound of everything that is served, over every interleaving of all caches and calls: a price was
   fetched from the price list for that region less than 27 hours before, or is an estimate computed less than two
   hours before, not counting the time that calls take.
   */
  lemma ServedIsRecent(store: Option<bool>, events: seq<Event>, d: nat, e: Event, it: string)
    requires e.Ask? && AreTimely(events, d) && Timely(e, d)
    requires var served := Served(Run(store, events), e.region, e.clock, e.answers);
             served.Some? && it in served.value.prices
    ensures var facts := Facts(store, events + [e]);
            var price := Served(Run(store, events), e.region, e.clock, e.answers).value.prices[it];
            || WasFetched(facts, e.region, it, price, e.clock.check - 27 * HOUR - 5 * d)
            || WasEstimated(facts, e.region, it, price, e.clock.check - 2 * HOUR - 2 * d)
  {
    ServedIsFounded(store, events, d, e);
    var facts, info := Facts(store, events + [e]), Served(Run(store, events), e.region, e.clock, e.answers).value;
    if Origin(store, events + [e], e.region) == Fallback {
      assert WasFetched(facts, e.region, it, info.prices[it], info.updatedAt - EntryAge(d) - TYPES_TTL - d)
          || WasEstimated(facts, e.region, it, info.prices[it], info.updatedAt - TYPES_TTL - 2 * d);
    } else {
      assert WasListed(facts, e.region, it, info.prices[it], info.updatedAt - EntryAge(d));
    }
  }

  /**
   A price that does not come from the fallback, now or when its entry was made, was fetched less than 26 hours before,
   and is valid.
   */
  lemma NonFallbackIsRecent(store: Option<bool>, events: seq<Event>, d: nat, e: Event, it: string)
    requires e.Ask? && AreTimely(events, d) && Timely(e, d) && Origin(store, events + [e], e.region) != Fallback
    requires var served := Served(Run(store, events), e.region, e.clock, e.answers);
             served.Some? && it in served.value.prices
    ensures var price := Served(Run(store, events), e.region, e.clock, e.answers).value.prices[it];
            && WasListed(Facts(store, events + [e]), e.region, it, price, e.clock.check - 26 * HOUR - 4 * d)
            && IsValidPrice(price)
  {
    ServedIsFounded(store, events, d, e);
    var facts, info := Facts(store, events + [e]), Served(Run(store, events), e.region, e.clock, e.answers).value;
    assert WasListed(facts, e.region, it, info.prices[it], info.updatedAt - EntryAge(d));
    var f :| f in facts && f.Listed? && f.region == e.region && it in f.prices && f.prices[it] == info.prices[it] &&
             f.at > info.updatedAt - EntryAge(d);
    ListedIsValid(store, events + [e], f, it);
  }

  lemma {:induction false} ListedIsValid(store: Option<bool>, events: seq<Event>, f: Fact, it: string)
    requires f in Facts(store, events) && f.Listed? && it in f.prices
    ensures MIN_PRICE <= f.prices[it] <= MAX_PRICE
  {
    var before := events[..|events| - 1];
    if f in Facts(store, before) {
      ListedIsValid(store, before, f, it);
    }
  }

  // ---- The bounds are tight ------------------------------------------------

  function TypesAt(t: Time): TypeClock {
    TypeClock(t, t, Instantly(t), t)
  }

  function AllAt(t: Time): Clock {
    Clock(t, t, Instantly(t), t, t, t, TypesAt(t))
  }

  const NO_TYPES := TypeAnswers(true, None, None)
  const NO_ANSWERS := Answers(true, true, None, NO_TYPES)

  function Fetch(region: string, price: real): Event {
    Ask(region, AllAt(0), Answers(true, true, Some(map["t" := price]), NO_TYPES))
  }

  function OneFetched(region: string, price: real, loaded: Time): Service {
    Service(map[region := Info(map["t" := price], 0)], map[], Some(OneLayered(PROVIDER, region, price, loaded)))
  }

  lemma NothingFound(region: string, t: Time)
    ensures var l := NO_ROWS;
            FromStore(Some(l), region, Instantly(t), true) == None && AfterGet(l, PROVIDER, region, Instantly(t), true) == l
  {
    assert Stored(NO_ROWS, PROVIDER, region, t) == map[];
  }

  lemma AfterFetch(region: string, price: real)
    requires IsValidPrice(price)
    ensures Step(Start(Some(true)), Fetch(region, price)) == OneFetched(region, price, 0)
  {
    NothingFound(region, 0);
    PutOne(PROVIDER, region, price);
    assert Sanitized(map["t" := price]) == map["t" := price];
    NotEmpty(map["t" := price], "t");
  }

  lemma AfterLoad(region: string, price: real)
    ensures Step(OneFetched(region, price, 0), AskTypes(region, TypesAt(24 * HOUR - 1), NO_TYPES))
         == OneFetched(region, price, 24 * HOUR - 1)
  {
    LoadOne(PROVIDER, region, price);
  }

  /** A price is fetched, and a day later its row is loaded by a call that has no use for it. */
  lemma LoadedAfterADay(region: string, price: real)
    requires IsValidPrice(price)
    ensures Run(Some(true), [Fetch(region, price), AskTypes(region, TypesAt(24 * HOUR - 1), NO_TYPES)])
         == OneFetched(region, price, 24 * HOUR - 1)
  {
    var e0, e1 := Fetch(region, price), AskTypes(region, TypesAt(24 * HOUR - 1), NO_TYPES);
    AfterFetch(region, price);
    AfterLoad(region, price);
    EventsGoOn(Some(true), [], e0);
    EventsGoOn(Some(true), [e0], e1);
    assert [] + [e0] == [e0] && [e0] + [e1] == [e0, e1];
  }

  lemma EventsGoOn(store: Option<bool>, events: seq<Event>, e: Event)
    ensures Run(store, events + [e]) == Step(Run(store, events), e)
  {
    assert (events + [e])[..|events|] == events;
  }

  /** A price can be served without any fallback three nanoseconds before 26 hours. */
  lemma AlmostTwentySixHours(region: string, price: real)
    requires IsValidPrice(price)
    ensures var events := [Fetch(region, price), AskTypes(region, TypesAt(24 * HOUR - 1), NO_TYPES),
                           Ask(region, AllAt(25 * HOUR - 2), NO_ANSWERS)];
            Served(Run(Some(true), events), region, AllAt(26 * HOUR - 3), NO_ANSWERS)
            == Some(Info(map["t" := price], 25 * HOUR - 2))
  {
    var e0, e1, e2 := Fetch(region, price), AskTypes(region, TypesAt(24 * HOUR - 1), NO_TYPES),
        Ask(region, AllAt(25 * HOUR - 2), NO_ANSWERS);
    assert [e0, e1] + [e2] == [e0, e1, e2];
    EventsGoOn(Some(true), [e0, e1], e2);
    LoadedAfterADay(region, price);
    var s2 := OneFetched(region, price, 24 * HOUR - 1);
    HitOne(PROVIDER, region, price, 25 * HOUR - 2);
    NotEmpty(map["t" := price], "t");
    assert SourceOf(s2, region, e2.clock, e2.answers) == Layered;
  }

  /** The types are priced with what is found in the pricing cache, whatever the estimate. */
  lemma TypesOfOne(region: string, price: real, estimate: real)
    ensures var s := OneFetched(region, price, 24 * HOUR - 1);
            var e := AskTypes(region, TypesAt(25 * HOUR - 2), TypeAnswers(true, None, Some([Described("t", estimate)])));
            Step(s, e) == s.(types := map[region := TypeList([InstanceType("t", price)], 25 * HOUR - 2)])
  {
    HitOne(PROVIDER, region, price, 25 * HOUR - 2);
    NotEmpty(map["t" := price], "t");
    assert Priced([Described("t", estimate)], map["t" := price]) == [InstanceType("t", price)];
  }

  /** They keep a price for one more hour: it can be served four nanoseconds before 27 hours. */
  lemma AlmostTwentySevenHours(region: string, price: real, estimate: real)
    requires IsValidPrice(price)
    ensures var types := TypeAnswers(true, None, Some([Described("t", estimate)]));
            var events := [Fetch(region, price), AskTypes(region, TypesAt(24 * HOUR - 1), NO_TYPES),
                           AskTypes(region, TypesAt(25 * HOUR - 2), types), Ask(region, AllAt(26 * HOUR - 3), NO_ANSWERS)];
            Served(Run(Some(true), events), region, AllAt(27 * HOUR - 4), NO_ANSWERS)
            == Some(Info(map["t" := price], 26 * HOUR - 3))
  {
    var e0, e1, e2, e3 := Fetch(region, price), AskTypes(region, TypesAt(24 * HOUR - 1), NO_TYPES),
        AskTypes(region, TypesAt(25 * HOUR - 2), TypeAnswers(true, None, Some([Described("t", estimate)]))),
        Ask(region, AllAt(26 * HOUR - 3), NO_ANSWERS);
    assert [e0, e1] + [e2] == [e0, e1, e2] && [e0, e1, e2] + [e3] == [e0, e1, e2, e3];
    EventsGoOn(Some(true), [e0, e1], e2);
    EventsGoOn(Some(true), [e0, e1, e2], e3);
    LoadedAfterADay(region, price);
    TypesOfOne(region, price, estimate);
    FallBackToOne(Step(OneFetched(region, price, 24 * HOUR - 1), e2), region, price);
  }

  lemma FallBackToOne(s: Service, region: string, price: real)
    requires s == OneFetched(region, price, 24 * HOUR - 1)
                  .(types := map[region := TypeList([InstanceType("t", price)], 25 * HOUR - 2)])
    ensures Step(s, Ask(region, AllAt(26 * HOUR - 3), NO_ANSWERS))
         == s.(cache := map[region := Info(map["t" := price], 26 * HOUR - 3)])
  {
    OneType("t", price);
    OneTypeIsListed(s, region, price);
  }

  /** The row is too old by then, and the list is not. */
  lemma OneTypeIsListed(s: Service, region: string, price: real)
    requires s == OneFetched(region, price, 24 * HOUR - 1)
                  .(types := map[region := TypeList([InstanceType("t", price)], 25 * HOUR - 2)])
    ensures var at := 26 * HOUR - 3;
            && FromStore(s.store, region, Instantly(at), true) == None
            && StoreGot(s.store, region, Instantly(at), true) == s.store
            && HasTypes(s, region, at)
  {
    MissOne(PROVIDER, region, price, 26 * HOUR - 3);
  }

  lemma OneType(name: string, price: real)
    ensures PricesOf([InstanceType(name, price)]) == map[name := price]
  {
    assert [InstanceType(name, price)][..0] == [];
    assert PricesOf([]) == map[];
  }

  function Estimates(region: string, estimate: real): Service {
    Service(map[], map[region := TypeList([InstanceType("t", estimate)], 0)], None)
  }

  lemma EstimatesAreMade(region: string, estimate: real)
    ensures Step(Start(None), AskTypes(region, TypesAt(0), TypeAnswers(true, None, Some([Described("t", estimate)]))))
         == Estimates(region, estimate)
  {
    assert Priced([Described("t", estimate)], map[]) == [InstanceType("t", estimate)];
  }

  lemma EstimatesAreTaken(region: string, estimate: real)
    ensures Step(Estimates(region, estimate), Ask(region, AllAt(HOUR - 1), NO_ANSWERS))
         == Estimates(region, estimate).(cache := map[region := Info(map["t" := estimate], HOUR - 1)])
  {
    OneType("t", estimate);
  }

  lemma TwoEvents(store: Option<bool>, e0: Event, e1: Event)
    ensures Run(store, [e0, e1]) == Step(Step(Start(store), e0), e1)
  {
    EventsGoOn(store, [], e0);
    EventsGoOn(store, [e0], e1);
    assert [] + [e0] == [e0] && [e0] + [e1] == [e0, e1];
  }

  /** Estimates are served two nanoseconds before two hours. */
  lemma AlmostTwoHours(region: string, estimate: real)
    ensures var types := TypeAnswers(true, None, Some([Described("t", estimate)]));
            var events := [AskTypes(region, TypesAt(0), types), Ask(region, AllAt(HOUR - 1), NO_ANSWERS)];
            Served(Run(None, events), region, AllAt(2 * HOUR - 2), NO_ANSWERS)
            == Some(Info(map["t" := estimate], HOUR - 1))
  {
    TwoEvents(None, AskTypes(region, TypesAt(0), TypeAnswers(true, None, Some([Described("t", estimate)]))),
              Ask(region, AllAt(HOUR - 1), NO_ANSWERS));
    EstimatesAreMade(region, estimate);
    EstimatesAreTaken(region, estimate);
  }
}
