/** The client's calls as functions of the world: the cached lookups of store and model, the
    filter read, and the conditional writes. */
module TupleCalls {
  import opened Options
  import opened TupleService

  function StoreKey(tenant: string): string {
    "storeid-" + tenant
  }

  function ModelKey(tenant: string): string {
    "modelid-" + tenant
  }

  function StoreName(tenant: string): string {
    "tenant-" + tenant
  }

  /** The first store of that name. */
  function FirstNamed(stores: seq<StoreInfo>, name: string): Option<string> {
    if stores == [] then None
    else if stores[0].name == name then Some(stores[0].id)
    else FirstNamed(stores[1..], name)
  }

  /** One look into the cache, after whatever it has lost by then. */
  function Lookup(net: Net, w: World, key: string): (World, Option<string>) {
    var cache := w.cache - net.evicted(w.gets);
    (w.(cache := cache, gets := w.gets + 1), if key in cache then Some(cache[key]) else None)
  }

  function Remember(w: World, key: string, value: string): World {
    w.(cache := w.cache[key := value])
  }

  /** One request is under way. */
  function Sent(w: World): World {
    w.(rpcs := w.rpcs + 1)
  }

  function StoreId(net: Net, w: World, tenant: string): (World, Result<string>) {
    var (w1, hit) := Lookup(net, w, StoreKey(tenant));
    if hit.Some? then (w1, Ok(hit.value))
    else if net.fault(w1.rpcs) != Served then (Sent(w1), Err(Unavailable))
    else match FirstNamed(w1.service.stores, StoreName(tenant))
      case None => (Sent(w1), Err(NoStore))
      case Some(id) => (Remember(Sent(w1), StoreKey(tenant), id), Ok(id))
  }

  function ModelId(net: Net, w: World, tenant: string): (World, Result<string>) {
    var (w1, hit) := Lookup(net, w, ModelKey(tenant));
    if hit.Some? then (w1, Ok(hit.value))
    else
      var (w2, store) := StoreId(net, w1, tenant);
      if store.Err? then (w2, store)
      else if net.fault(w2.rpcs) != Served then (Sent(w2), Err(Unavailable))
      else match ReadModels(w2.service, store.value)
        case Err(e) => (Sent(w2), Err(e))
        case Ok(models) =>
          if models == [] then (Sent(w2), Err(NoModel))
          else (Remember(Sent(w2), ModelKey(tenant), models[0]), Ok(models[0]))
  }

  function ReadTuples(net: Net, w: World, key: Tuple, tenant: string): (World, Result<set<Tuple>>) {
    var (w1, store) := StoreId(net, w, tenant);
    if store.Err? then (w1, Err(store.error))
    else if net.fault(w1.rpcs) != Served then (Sent(w1), Err(Unavailable))
    else (Sent(w1), Read(w1.service, store.value, key))
  }

  function Exists(net: Net, w: World, t: Tuple, tenant: string): (World, Result<bool>) {
    var (w1, found) := ReadTuples(net, w, t, tenant);
    (w1, if found.Err? then Err(found.error) else Ok(found.value != {}))
  }

  function Writes(net: Net, w: World, writes: seq<Tuple>, deletes: seq<Tuple>, tenant: string): (World, Option<Error>) {
    var (w1, store) := StoreId(net, w, tenant);
    if store.Err? then (w1, Some(store.error))
    else
      var (w2, model) := ModelId(net, w1, tenant);
      if model.Err? then (w2, Some(model.error))
      else
        var (sv, err) := Write(w2.service, store.value, model.value, writes, deletes, net.fault(w2.rpcs));
        (Sent(w2).(service := sv), err)
  }

  /** Those of `ts` whose existence is `present`, asked one by one. */
  function Gather(net: Net, w: World, ts: seq<Tuple>, tenant: string, present: bool): (World, Result<seq<Tuple>>)
    decreases |ts|
  {
    if ts == [] then (w, Ok([]))
    else
      var (w1, got) := Gather(net, w, ts[..|ts| - 1], tenant, present);
      if got.Err? then (w1, got)
      else
        var (w2, exists_) := Exists(net, w1, ts[|ts| - 1], tenant);
        (w2,
         if exists_.Err? then Err(exists_.error)
         else if exists_.value == present then Ok(got.value + [ts[|ts| - 1]])
         else got)
  }

  function WriteIfNeeded(net: Net, w: World, ts: seq<Tuple>, tenant: string): (World, Option<Error>) {
    var (w1, missing) := Gather(net, w, ts, tenant, false);
    if missing.Err? then (w1, Some(missing.error))
    else if missing.value == [] then (w1, None)
    else Writes(net, w1, missing.value, [], tenant)
  }

  function DeleteIfNeeded(net: Net, w: World, ts: seq<Tuple>, tenant: string): (World, Option<Error>) {
    var (w1, there) := Gather(net, w, ts, tenant, true);
    if there.Err? then (w1, Some(there.error))
    else if there.value == [] then (w1, None)
    else Writes(net, w1, [], there.value, tenant)
  }

  lemma {:induction false} GatherStopsAtAnError(
    net: Net, w: World, ts: seq<Tuple>, tenant: string, present: bool, k: nat)
    requires k <= |ts| && Gather(net, w, ts[..k], tenant, present).1.Err?
    ensures Gather(net, w, ts, tenant, present) == Gather(net, w, ts[..k], tenant, present)
    decreases |ts|
  {
    if k == |ts| {
      assert ts[..k] == ts;
    } else {
      assert ts[..|ts| - 1][..k] == ts[..k];
      GatherStopsAtAnError(net, w, ts[..|ts| - 1], tenant, present, k);
    }
  }
}
