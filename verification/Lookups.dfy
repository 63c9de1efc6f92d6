/** The cache is transparent: any sequence of calls is answered as without it. */
module Lookups {
  import opened Options
  import opened TupleService
  import opened TupleCalls

  // ---------------------------------------------------------------- without a cache

  function DirectStore(sv: Service, tenant: string): Result<string> {
    match FirstNamed(sv.stores, StoreName(tenant))
    case None => Err(NoStore)
    case Some(id) => Ok(id)
  }

  function DirectModel(sv: Service, tenant: string): Result<string> {
    var store := DirectStore(sv, tenant);
    if store.Err? then store
    else match ReadModels(sv, store.value)
      case Err(e) => Err(e)
      case Ok(models) => if models == [] then Err(NoModel) else Ok(models[0])
  }

  /** The first store of the name, said without the search: none before it has the name. */
  lemma {:induction false} FirstNamedIsFirst(stores: seq<StoreInfo>, name: string)
    ensures var r := FirstNamed(stores, name);
            && (r.None? <==> forall i :: 0 <= i < |stores| ==> stores[i].name != name)
            && (r.Some? ==> exists i :: 0 <= i < |stores| && stores[i] == StoreInfo(r.value, name)
                                        && forall j :: 0 <= j < i ==> stores[j].name != name)
  {
    if stores != [] && stores[0].name != name {
      FirstNamedIsFirst(stores[1..], name);
      var r := FirstNamed(stores, name);
      if r.Some? {
        var i :| 0 <= i < |stores[1..]| && stores[1..][i] == StoreInfo(r.value, name)
                 && forall j :: 0 <= j < i ==> stores[1..][j].name != name;
        assert stores[i + 1] == StoreInfo(r.value, name);
        forall j | 0 <= j < i + 1 ensures stores[j].name != name {
          if j > 0 {
            assert stores[j] == stores[1..][j - 1];
          }
        }
      } else {
        forall i | 0 <= i < |stores| ensures stores[i].name != name {
          if i > 0 {
            assert stores[i] == stores[1..][i - 1];
          }
        }
      }
    }
  }

  // ---------------------------------------------------------------- keys

  /** Keys of different tenants, or of a store and a model, are never the same. */
  lemma KeysNeverCollide(a: string, b: string)
    ensures StoreKey(a) != ModelKey(b)
    ensures StoreKey(a) == StoreKey(b) ==> a == b
    ensures ModelKey(a) == ModelKey(b) ==> a == b
    ensures StoreName(a) == StoreName(b) ==> a == b
  {
    assert StoreKey(a)[0] == 's' && ModelKey(b)[0] == 'm';
    assert StoreKey(a)[8..] == a && StoreKey(b)[8..] == b;
    assert ModelKey(a)[8..] == a && ModelKey(b)[8..] == b;
    assert StoreName(a)[7..] == a && StoreName(b)[7..] == b;
  }

  /** Every cached value is what a direct lookup would say now. */
  ghost predicate CacheRight(w: World) {
    && (forall tenant :: StoreKey(tenant) in w.cache ==>
          DirectStore(w.service, tenant) == Ok(w.cache[StoreKey(tenant)]))
    && (forall tenant :: ModelKey(tenant) in w.cache ==>
          DirectModel(w.service, tenant) == Ok(w.cache[ModelKey(tenant)]))
  }

  /** What a lookup does to the world: only the cache and the counters move. */
  ghost predicate OnlyLooked(w: World, r: World) {
    r.service == w.service && r.rpcs >= w.rpcs && (CacheRight(w) ==> CacheRight(r))
  }

  /** An answer is the direct one, unless one of its own requests was disturbed. */
  ghost predicate Faithful(net: Net, w: World, r: World, answer: Result<string>, direct: Result<string>) {
    && (answer.Ok? ==> answer == direct)
    && (answer != direct ==> answer == Err(Unavailable) && !Quiet(net, w.rpcs, r.rpcs))
  }

  lemma RememberRight(w: World, key: string, tenant: string, value: string)
    requires CacheRight(w)
    requires (key == StoreKey(tenant) && DirectStore(w.service, tenant) == Ok(value))
          || (key == ModelKey(tenant) && DirectModel(w.service, tenant) == Ok(value))
    ensures CacheRight(Remember(w, key, value))
  {
    var r := Remember(w, key, value);
    forall t | StoreKey(t) in r.cache ensures DirectStore(r.service, t) == Ok(r.cache[StoreKey(t)]) {
      KeysNeverCollide(t, tenant);
    }
    forall t | ModelKey(t) in r.cache ensures DirectModel(r.service, t) == Ok(r.cache[ModelKey(t)]) {
      KeysNeverCollide(tenant, t);
    }
  }

  lemma StoreLookup(net: Net, w: World, tenant: string)
    requires CacheRight(w)
    ensures var (r, answer) := StoreId(net, w, tenant);
            OnlyLooked(w, r) && Faithful(net, w, r, answer, DirectStore(w.service, tenant))
  {
    var (w1, hit) := Lookup(net, w, StoreKey(tenant));
    assert CacheRight(w1);
    if hit.None? && net.fault(w.rpcs) == Served {
      var id := FirstNamed(w.service.stores, StoreName(tenant));
      if id.Some? {
        RememberRight(Sent(w1), StoreKey(tenant), tenant, id.value);
      }
    }
  }

  lemma ModelLookup(net: Net, w: World, tenant: string)
    requires CacheRight(w)
    ensures var (r, answer) := ModelId(net, w, tenant);
            OnlyLooked(w, r) && Faithful(net, w, r, answer, DirectModel(w.service, tenant))
  {
    var (w1, hit) := Lookup(net, w, ModelKey(tenant));
    assert CacheRight(w1);
    if hit.None? {
      StoreLookup(net, w1, tenant);
      var (w2, store) := StoreId(net, w1, tenant);
      if store.Ok? && net.fault(w2.rpcs) == Served {
        var models := ReadModels(w2.service, store.value);
        if models.Ok? && models.value != [] {
          RememberRight(Sent(w2), ModelKey(tenant), tenant, models.value[0]);
        }
      }
    }
  }

  // ---------------------------------------------------------------- whole sequences

  datatype Ask = Ask(tenant: string, model: bool)

  function Answer(net: Net, w: World, a: Ask): (World, Result<string>) {
    if a.model then ModelId(net, w, a.tenant) else StoreId(net, w, a.tenant)
  }

  function Direct(sv: Service, a: Ask): Result<string> {
    if a.model then DirectModel(sv, a.tenant) else DirectStore(sv, a.tenant)
  }

  function Session(net: Net, w: World, asks: seq<Ask>): World
    decreases |asks|
  {
    if asks == [] then w else Answer(net, Session(net, w, asks[..|asks| - 1]), asks[|asks| - 1]).0
  }

  lemma {:induction false} SessionKeepsCache(net: Net, w: World, asks: seq<Ask>)
    requires CacheRight(w)
    ensures CacheRight(Session(net, w, asks)) && Session(net, w, asks).service == w.service
    decreases |asks|
  {
    if asks != [] {
      SessionKeepsCache(net, w, asks[..|asks| - 1]);
      var before := Session(net, w, asks[..|asks| - 1]);
      StoreLookup(net, before, asks[|asks| - 1].tenant);
      ModelLookup(net, before, asks[|asks| - 1].tenant);
    }
  }

  /** After any lookups for any tenants, with entries lost and requests failing at any time,
      a lookup still answers as if there were no cache. A failure is never remembered: as
      soon as its own requests get through, a lookup gives the direct answer. */
  lemma CacheIsTransparent(net: Net, sv: Service, asks: seq<Ask>, next: Ask)
    ensures var w := Session(net, World(sv, map[], 0, 0), asks);
            var (r, answer) := Answer(net, w, next);
            && Faithful(net, w, r, answer, Direct(sv, next))
            && (Quiet(net, w.rpcs, r.rpcs) ==> answer == Direct(sv, next))
  {
    SessionKeepsCache(net, World(sv, map[], 0, 0), asks);
    var w := Session(net, World(sv, map[], 0, 0), asks);
    StoreLookup(net, w, next.tenant);
    ModelLookup(net, w, next.tenant);
  }
}
