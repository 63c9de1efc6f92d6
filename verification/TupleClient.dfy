/** The client as it is programmed: a cache field that lookups fill, a search loop over the
    stores, loops that collect tuples. Every method is proved to do what the function of the
    same name in `TupleCalls` says. */
module TupleClient {
  import opened Options
  import opened TupleService
  import Calls = TupleCalls

  /** The generated client of the service: every call is one request. */
  class OpenFGAServiceClient {
    const net: Net
    var service: Service
    var rpcs: nat

    constructor (net: Net, service: Service)
      ensures this.net == net && this.service == service && rpcs == 0
    {
      this.net := net;
      this.service := service;
      rpcs := 0;
    }

    method ListStores() returns (r: Result<seq<StoreInfo>>)
      modifies `rpcs
      ensures rpcs == old(rpcs) + 1
      ensures r == if net.fault(old(rpcs)) == Served then Ok(service.stores) else Err(Unavailable)
    {
      r := if net.fault(rpcs) == Served then Ok(service.stores) else Err(Unavailable);
      rpcs := rpcs + 1;
    }

    method ReadAuthorizationModels(store: string) returns (r: Result<seq<string>>)
      modifies `rpcs
      ensures rpcs == old(rpcs) + 1
      ensures r == if net.fault(old(rpcs)) == Served then TupleService.ReadModels(service, store) else Err(Unavailable)
    {
      r := if net.fault(rpcs) == Served then TupleService.ReadModels(service, store) else Err(Unavailable);
      rpcs := rpcs + 1;
    }

    method ReadRequest(store: string, key: Tuple) returns (r: Result<set<Tuple>>)
      modifies `rpcs
      ensures rpcs == old(rpcs) + 1
      ensures r == if net.fault(old(rpcs)) == Served then TupleService.Read(service, store, key) else Err(Unavailable)
    {
      r := if net.fault(rpcs) == Served then TupleService.Read(service, store, key) else Err(Unavailable);
      rpcs := rpcs + 1;
    }

    method WriteRequest(store: string, model: string, writes: seq<Tuple>, deletes: seq<Tuple>)
      returns (err: Option<Error>)
      modifies this
      ensures rpcs == old(rpcs) + 1
      ensures (service, err) == TupleService.Write(old(service), store, model, writes, deletes, net.fault(old(rpcs)))
    {
      var (sv, e) := TupleService.Write(service, store, model, writes, deletes, net.fault(rpcs));
      service := sv;
      err := e;
      rpcs := rpcs + 1;
    }
  }

  class OpenFGAClient {
    const client: OpenFGAServiceClient
    var cache: map<string, string>
    var gets: nat

    constructor (client: OpenFGAServiceClient)
      ensures this.client == client && cache == map[] && gets == 0
    {
      this.client := client;
      cache := map[];
      gets := 0;
    }

    ghost function Abs(): World
      reads this, client
    {
      World(client.service, cache, client.rpcs, gets)
    }

    method CacheGet(key: string) returns (item: Option<string>)
      modifies this
      ensures (Abs(), item) == Calls.Lookup(client.net, old(Abs()), key)
    {
      cache := cache - client.net.evicted(gets);
      gets := gets + 1;
      item := if key in cache then Some(cache[key]) else None;
    }

    method CacheSet(key: string, value: string)
      modifies `cache
      ensures Abs() == Calls.Remember(old(Abs()), key, value)
    {
      cache := cache[key := value];
    }

    method StoreId(tenant: string) returns (r: Result<string>)
      modifies this, client`rpcs
      ensures (Abs(), r) == Calls.StoreId(client.net, old(Abs()), tenant)
    {
      var item := CacheGet(Calls.StoreKey(tenant));
      if item.Some? {
        return Ok(item.value);
      }
      var expected := Calls.StoreName(tenant);
      var resp := client.ListStores();
      if resp.Err? {
        return Err(resp.error);
      }
      var i := 0;
      while i < |resp.value|
        invariant 0 <= i <= |resp.value|
        invariant Calls.FirstNamed(resp.value[i..], expected) == Calls.FirstNamed(resp.value, expected)
      {
        var store := resp.value[i];
        if store.name == expected {
          CacheSet(Calls.StoreKey(tenant), store.id);
          return Ok(store.id);
        }
        i := i + 1;
      }
      r := Err(NoStore);
    }

    method ModelId(tenant: string) returns (r: Result<string>)
      modifies this, client`rpcs
      ensures (Abs(), r) == Calls.ModelId(client.net, old(Abs()), tenant)
    {
      var item := CacheGet(Calls.ModelKey(tenant));
      if item.Some? {
        return Ok(item.value);
      }
      var store := StoreId(tenant);
      if store.Err? {
        return store;
      }
      var resp := client.ReadAuthorizationModels(store.value);
      if resp.Err? {
        return Err(resp.error);
      }
      if |resp.value| > 0 {
        CacheSet(Calls.ModelKey(tenant), resp.value[0]);
        return Ok(resp.value[0]);
      }
      r := Err(NoModel);
    }

    /** A field that is not given is left empty, and an empty field matches anything. */
    method Read(target: Option<string>, relation: Option<string>, user: Option<string>, tenant: string)
      returns (r: Result<set<Tuple>>)
      modifies this, client`rpcs
      ensures (Abs(), r) == Calls.ReadTuples(client.net, old(Abs()),
                Tuple(if user.Some? then user.value else "",
                      if relation.Some? then relation.value else "",
                      if target.Some? then target.value else ""), tenant)
    {
      var store := StoreId(tenant);
      if store.Err? {
        return Err(store.error);
      }
      var key := Tuple("", "", "");
      if target.Some? {
        key := key.(target := target.value);
      }
      if relation.Some? {
        key := key.(relation := relation.value);
      }
      if user.Some? {
        key := key.(user := user.value);
      }
      r := client.ReadRequest(store.value, key);
    }

    method Exists(t: Tuple, tenant: string) returns (r: Result<bool>)
      modifies this, client`rpcs
      ensures (Abs(), r) == Calls.Exists(client.net, old(Abs()), t, tenant)
    {
      var resp := Read(Some(t.target), Some(t.relation), Some(t.user), tenant);
      if resp.Err? {
        return Err(resp.error);
      }
      if |resp.value| == 0 {
        return Ok(false);
      }
      r := Ok(true);
    }

    method Writes(writes: seq<Tuple>, deletes: seq<Tuple>, tenant: string) returns (err: Option<Error>)
      modifies this, client
      ensures (Abs(), err) == Calls.Writes(client.net, old(Abs()), writes, deletes, tenant)
    {
      var store := StoreId(tenant);
      if store.Err? {
        return Some(store.error);
      }
      var model := ModelId(tenant);
      if model.Err? {
        return Some(model.error);
      }
      err := client.WriteRequest(store.value, model.value, writes, deletes);
    }

    method WriteIfNeeded(tuples: seq<Tuple>, tenant: string) returns (err: Option<Error>)
      modifies this, client
      ensures (Abs(), err) == Calls.WriteIfNeeded(client.net, old(Abs()), tuples, tenant)
    {
      var tuplesToWrite: seq<Tuple> := [];
      for i := 0 to |tuples|
        invariant (Abs(), Ok(tuplesToWrite)) == Calls.Gather(client.net, old(Abs()), tuples[..i], tenant, false)
      {
        assert tuples[..i + 1][..i] == tuples[..i];
        var present := Exists(tuples[i], tenant);
        if present.Err? {
          Calls.GatherStopsAtAnError(client.net, old(Abs()), tuples, tenant, false, i + 1);
          return Some(present.error);
        }
        if !present.value {
          tuplesToWrite := tuplesToWrite + [tuples[i]];
        }
      }
      assert tuples[..|tuples|] == tuples;
      err := None;
      if |tuplesToWrite| > 0 {
        err := Writes(tuplesToWrite, [], tenant);
      }
    }

    method DeleteIfNeeded(tuples: seq<Tuple>, tenant: string) returns (err: Option<Error>)
      modifies this, client
      ensures (Abs(), err) == Calls.DeleteIfNeeded(client.net, old(Abs()), tuples, tenant)
    {
      var tuplesToDelete: seq<Tuple> := [];
      for i := 0 to |tuples|
        invariant (Abs(), Ok(tuplesToDelete)) == Calls.Gather(client.net, old(Abs()), tuples[..i], tenant, true)
      {
        assert tuples[..i + 1][..i] == tuples[..i];
        var present := Exists(tuples[i], tenant);
        if present.Err? {
          Calls.GatherStopsAtAnError(client.net, old(Abs()), tuples, tenant, true, i + 1);
          return Some(present.error);
        }
        if present.value {
          tuplesToDelete := tuplesToDelete + [tuples[i]];
        }
      }
      assert tuples[..|tuples|] == tuples;
      err := None;
      if |tuplesToDelete| > 0 {
        err := Writes([], tuplesToDelete, tenant);
      }
    }
  }
}
