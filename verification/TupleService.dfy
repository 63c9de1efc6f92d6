/** The tuple service behind the client, the network to it, and the client's cache. */
module TupleService {
  import opened Options

  datatype Tuple = Tuple(user: string, relation: string, target: string)

  datatype StoreInfo = StoreInfo(id: string, name: string)

  datatype Error = NoStore | NoModel | Rejected | Unavailable

  datatype Result<+T> = Ok(value: T) | Err(error: Error)

  /** `models` and `tuples` are keyed by store id; `writes` counts the write requests received. */
  datatype Service = Service(
    stores: seq<StoreInfo>, models: map<string, seq<string>>, tuples: map<string, set<Tuple>>, writes: nat)

  datatype Fault = Served | Refused | ReplyLost

  /** How the network treats the n-th request, and which cache entries are gone by the n-th
      look into the cache. */
  datatype Net = Net(fault: nat -> Fault, evicted: nat -> set<string>)

  datatype World = World(service: Service, cache: map<string, string>, rpcs: nat, gets: nat)

  /** No request from the `i`-th up to the `j`-th is disturbed. */
  ghost predicate Quiet(net: Net, i: nat, j: nat) {
    forall k :: i <= k < j ==> net.fault(k) == Served
  }

  // ---------------------------------------------------------------- tuples

  /** An empty field of the key matches anything. */
  predicate Matches(key: Tuple, t: Tuple) {
    && (key.user == "" || key.user == t.user)
    && (key.relation == "" || key.relation == t.relation)
    && (key.target == "" || key.target == t.target)
  }

  function Filter(have: set<Tuple>, key: Tuple): set<Tuple> {
    set t | t in have && Matches(key, t)
  }

  predicate FullySpecified(t: Tuple) {
    t.user != "" && t.relation != "" && t.target != ""
  }

  predicate Distinct<T(==)>(s: seq<T>) {
    forall i, j :: 0 <= i < j < |s| ==> s[i] != s[j]
  }

  function Elements<T>(s: seq<T>): set<T> {
    set x | x in s
  }

  // ---------------------------------------------------------------- requests

  /** A write is all or nothing: new tuples must be new, old ones must be there, none twice. */
  predicate Accepts(sv: Service, store: string, model: string, writes: seq<Tuple>, deletes: seq<Tuple>) {
    && store in sv.tuples && store in sv.models && model in sv.models[store]
    && (writes != [] || deletes != []) && Distinct(writes + deletes)
    && (forall t :: t in writes ==> FullySpecified(t) && t !in sv.tuples[store])
    && (forall t :: t in deletes ==> t in sv.tuples[store])
  }

  function Write(
    sv: Service, store: string, model: string, writes: seq<Tuple>, deletes: seq<Tuple>, fault: Fault)
    : (Service, Option<Error>)
  {
    var counted := sv.(writes := sv.writes + 1);
    if fault == Refused then (counted, Some(Unavailable))
    else if !Accepts(sv, store, model, writes, deletes) then
      (counted, Some(if fault == Served then Rejected else Unavailable))
    else
      (counted.(tuples := sv.tuples[store := sv.tuples[store] + Elements(writes) - Elements(deletes)]),
       if fault == Served then None else Some(Unavailable))
  }

  function Read(sv: Service, store: string, key: Tuple): Result<set<Tuple>> {
    if store in sv.tuples then Ok(Filter(sv.tuples[store], key)) else Err(Rejected)
  }

  function ReadModels(sv: Service, store: string): Result<seq<string>> {
    if store in sv.models then Ok(sv.models[store]) else Err(Rejected)
  }
}
