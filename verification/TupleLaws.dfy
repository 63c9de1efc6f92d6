/** Conditional writes are set union and set difference. */
module TupleLaws {
  import opened Options
  import opened TupleService
  import opened TupleCalls
  import opened Lookups

  /** What is there to start with: the service stores complete tuples only. */
  ghost predicate Good(w: World) {
    && CacheRight(w)
    && (forall s :: s in w.service.tuples ==> forall t :: t in w.service.tuples[s] ==> FullySpecified(t))
  }

  /** The tenant's tuples. */
  function Stored(sv: Service, tenant: string): Option<set<Tuple>> {
    var store := DirectStore(sv, tenant);
    if store.Ok? && store.value in sv.tuples then Some(sv.tuples[store.value]) else None
  }

  predicate Found(have: set<Tuple>, key: Tuple) {
    Filter(have, key) != {}
  }

  lemma FoundMeansMember(have: set<Tuple>, t: Tuple)
    requires FullySpecified(t)
    ensures Found(have, t) <==> t in have
  {
    if t in have {
      assert t in Filter(have, t);
    }
  }

  lemma MemberIsFound(have: set<Tuple>, t: Tuple)
    requires t in have
    ensures Found(have, t)
  {
    assert t in Filter(have, t);
  }

  /** Those of `ts` that are found, or are not, in order and with repeats. */
  function Pick(ts: seq<Tuple>, have: set<Tuple>, present: bool): (picked: seq<Tuple>)
    ensures forall t :: t in picked <==> t in ts && Found(have, t) == present
    decreases |ts|
  {
    if ts == [] then []
    else
      var before, last := Pick(ts[..|ts| - 1], have, present), ts[|ts| - 1];
      assert ts == ts[..|ts| - 1] + [last];
      if Found(have, last) == present then before + [last] else before
  }

  // ---------------------------------------------------------------- the questions

  lemma ExistsAnswers(net: Net, w: World, t: Tuple, tenant: string)
    requires CacheRight(w)
    ensures var (r, answer) := Exists(net, w, t, tenant);
            && OnlyLooked(w, r)
            && (answer.Ok? ==>
                  Stored(w.service, tenant).Some? && answer.value == Found(Stored(w.service, tenant).value, t))
            && (Stored(w.service, tenant).Some? && Quiet(net, w.rpcs, r.rpcs) ==> answer.Ok?)
  {
    StoreLookup(net, w, tenant);
  }

  lemma {:induction false} GatherPicks(net: Net, w: World, ts: seq<Tuple>, tenant: string, present: bool)
    requires CacheRight(w)
    ensures var (r, got) := Gather(net, w, ts, tenant, present);
            && OnlyLooked(w, r)
            && (got.Ok? && ts != [] ==> Stored(w.service, tenant).Some?)
            && (got.Ok? && ts != [] ==> got.value == Pick(ts, Stored(w.service, tenant).value, present))
            && (got.Ok? && ts == [] ==> got.value == [])
            && (Stored(w.service, tenant).Some? && Quiet(net, w.rpcs, r.rpcs) ==> got.Ok?)
    decreases |ts|
  {
    if ts != [] {
      GatherPicks(net, w, ts[..|ts| - 1], tenant, present);
      var (w1, got) := Gather(net, w, ts[..|ts| - 1], tenant, present);
      if got.Ok? {
        ExistsAnswers(net, w1, ts[|ts| - 1], tenant);
      }
    }
  }

  // ---------------------------------------------------------------- the write

  /** The tenant's tuples are `now`, and nothing else is different. */
  ghost predicate Became(sv: Service, sv': Service, tenant: string, now: set<Tuple>) {
    && Stored(sv, tenant).Some?
    && sv'.tuples == sv.tuples[DirectStore(sv, tenant).value := now]
    && sv'.stores == sv.stores && sv'.models == sv.models
  }

  ghost predicate Same(sv: Service, sv': Service) {
    sv'.tuples == sv.tuples && sv'.stores == sv.stores && sv'.models == sv.models
  }

  /** The last request was served, but its reply was lost. */
  predicate LostReply(net: Net, w: World, r: World, err: Option<Error>) {
    r.service.writes > w.service.writes && r.rpcs > 0 && net.fault(r.rpcs - 1) == ReplyLost && err == Some(Unavailable)
  }

  /** What the service demands of a write, tuple by tuple. */
  ghost predicate Acceptable(have: set<Tuple>, writes: seq<Tuple>, deletes: seq<Tuple>) {
    && (writes != [] || deletes != []) && Distinct(writes + deletes)
    && (forall t :: t in writes ==> FullySpecified(t) && t !in have)
    && (forall t :: t in deletes ==> t in have)
  }

  function Asked(
    net: Net, w: World, tenant: string, model: string, writes: seq<Tuple>, deletes: seq<Tuple>): (World, Option<Error>)
    requires Stored(w.service, tenant).Some?
  {
    var (sv, err) := Write(w.service, DirectStore(w.service, tenant).value, model, writes, deletes, net.fault(w.rpcs));
    (Sent(w).(service := sv), err)
  }

  /** What a call has done: the tuples are as wanted or as before. They are as wanted on
      success and, exactly, when the service did the write but its reply was lost. */
  ghost predicate Outcome(
    net: Net, w: World, r: World, err: Option<Error>, tenant: string, wanted: set<Tuple>, acceptable: bool)
  {
    && Good(r) && r.rpcs >= w.rpcs
    && (Same(w.service, r.service) || Became(w.service, r.service, tenant, wanted))
    && (err.None? ==> Became(w.service, r.service, tenant, wanted))
    && (!Same(w.service, r.service) ==> err.None? || LostReply(net, w, r, err))
    && (err.None? || !Same(w.service, r.service) ==> acceptable)
    && (LostReply(net, w, r, err) && acceptable ==> Became(w.service, r.service, tenant, wanted))
  }

  /** Store and model are known, and only the request is left. */
  lemma AskedOutcome(
    net: Net, w: World, w2: World, tenant: string, model: string, writes: seq<Tuple>, deletes: seq<Tuple>)
    requires Good(w2) && w2.service == w.service && w2.rpcs >= w.rpcs
    requires Stored(w.service, tenant).Some? && DirectModel(w.service, tenant) == Ok(model)
    ensures var (r, err) := Asked(net, w2, tenant, model, writes, deletes);
            var have := Stored(w.service, tenant).value;
            && Outcome(net, w, r, err, tenant, have + Elements(writes) - Elements(deletes),
                 Acceptable(have, writes, deletes))
            && (Quiet(net, w.rpcs, r.rpcs) ==> (err.None? <==> Acceptable(have, writes, deletes)))
  {
  }

  lemma WritesOutcome(net: Net, w: World, writes: seq<Tuple>, deletes: seq<Tuple>, tenant: string)
    requires Good(w) && Stored(w.service, tenant).Some?
    ensures var (r, err) := Writes(net, w, writes, deletes, tenant);
            var have := Stored(w.service, tenant).value;
            && Outcome(net, w, r, err, tenant, have + Elements(writes) - Elements(deletes),
                 Acceptable(have, writes, deletes))
            && (Quiet(net, w.rpcs, r.rpcs) ==>
                  (err.None? <==> DirectModel(w.service, tenant).Ok? && Acceptable(have, writes, deletes)))
  {
    StoreLookup(net, w, tenant);
    var (w1, store) := StoreId(net, w, tenant);
    if store.Ok? {
      ModelLookup(net, w1, tenant);
      var (w2, model) := ModelId(net, w1, tenant);
      if model.Ok? {
        AskedOutcome(net, w, w2, tenant, model.value, writes, deletes);
        assert Writes(net, w, writes, deletes, tenant) == Asked(net, w2, tenant, model.value, writes, deletes);
      }
    }
  }

  // ---------------------------------------------------------------- union and difference

  /** The new tuples when the call goes through. */
  function Wanted(have: set<Tuple>, ts: seq<Tuple>, writing: bool): set<Tuple> {
    if writing then have + Elements(Pick(ts, have, false)) else have - Elements(Pick(ts, have, true))
  }

  /** `WriteIfNeeded` or `DeleteIfNeeded`. */
  function Ensure(net: Net, w: World, ts: seq<Tuple>, tenant: string, writing: bool): (World, Option<Error>) {
    if writing then WriteIfNeeded(net, w, ts, tenant) else DeleteIfNeeded(net, w, ts, tenant)
  }

  lemma PickedAreSent(net: Net, w: World, w1: World, ts: seq<Tuple>, tenant: string, writing: bool)
    requires Good(w1) && Stored(w1.service, tenant).Some? && w1.service == w.service && w1.rpcs >= w.rpcs
    requires var have := Stored(w1.service, tenant).value; Pick(ts, have, !writing) != []
    ensures var have := Stored(w1.service, tenant).value;
            var picked := Pick(ts, have, !writing);
            var (r, err) :=
              if writing then Writes(net, w1, picked, [], tenant) else Writes(net, w1, [], picked, tenant);
            && Outcome(net, w, r, err, tenant, Wanted(have, ts, writing), AllAcceptable(have, ts, writing))
            && (Quiet(net, w.rpcs, r.rpcs) ==>
                  (err.None? <==> DirectModel(w.service, tenant).Ok? && AllAcceptable(have, ts, writing)))
  {
    var have := Stored(w1.service, tenant).value;
    var picked := Pick(ts, have, !writing);
    if writing {
      WritesOutcome(net, w1, picked, [], tenant);
      assert have + Elements(picked) - Elements([]) == Wanted(have, ts, true);
      assert picked + [] == picked;
      PickedAcceptable(have, ts, true);
    } else {
      WritesOutcome(net, w1, [], picked, tenant);
      assert have + Elements([]) - Elements(picked) == Wanted(have, ts, false);
      assert [] + picked == picked;
      PickedAcceptable(have, ts, false);
    }
  }

  lemma PickedAcceptable(have: set<Tuple>, ts: seq<Tuple>, writing: bool)
    requires Pick(ts, have, !writing) != []
    requires forall t :: t in have ==> FullySpecified(t)
    ensures var picked := Pick(ts, have, !writing);
            (AllAcceptable(have, ts, writing) <==>
             (if writing then Acceptable(have, picked, []) else Acceptable(have, [], picked)))
  {
    var picked := Pick(ts, have, !writing);
    assert picked + [] == picked && [] + picked == picked;
    if writing {
      forall t | t in picked && FullySpecified(t) ensures t !in have {
        FoundMeansMember(have, t);
      }
    }
  }

  /** All or nothing, whatever happens on the way. */
  lemma AllOrNothing(net: Net, w: World, ts: seq<Tuple>, tenant: string, writing: bool)
    requires Good(w) && Stored(w.service, tenant).Some?
    ensures var (r, err) := Ensure(net, w, ts, tenant, writing);
            var have := Stored(w.service, tenant).value;
            && Outcome(net, w, r, err, tenant, Wanted(have, ts, writing), AllAcceptable(have, ts, writing))
            && (r.service.writes > w.service.writes ==> Pick(ts, have, !writing) != [])
            && (Quiet(net, w.rpcs, r.rpcs) ==>
                  (err.None? <==> Pick(ts, have, !writing) == []
                                  || (DirectModel(w.service, tenant).Ok? && AllAcceptable(have, ts, writing))))
  {
    var have := Stored(w.service, tenant).value;
    GatherPicks(net, w, ts, tenant, !writing);
    var (w1, got) := Gather(net, w, ts, tenant, !writing);
    if got.Ok? {
      var picked := Pick(ts, have, !writing);
      assert got.value == picked;
      if picked == [] {
        assert Wanted(have, ts, writing) == have;
        assert w.service.tuples[DirectStore(w.service, tenant).value := have] == w.service.tuples;
      } else {
        PickedAreSent(net, w, w1, ts, tenant, writing);
      }
    }
  }

  /** The tuples a call has to touch are ones the service takes. */
  ghost predicate AllAcceptable(have: set<Tuple>, ts: seq<Tuple>, writing: bool) {
    var picked := Pick(ts, have, !writing);
    && Distinct(picked)
    && (forall t :: t in picked ==> FullySpecified(t))
    && (writing || forall t :: t in picked ==> t in have)
  }

  /** A tenant without tuples of its own: nothing is touched, and asking at all is an error. */
  lemma NoStoreNoWrite(net: Net, w: World, ts: seq<Tuple>, tenant: string, writing: bool)
    requires Good(w) && Stored(w.service, tenant).None?
    ensures var (r, err) := Ensure(net, w, ts, tenant, writing);
            r.service == w.service && (err.None? <==> ts == [])
  {
    GatherPicks(net, w, ts, tenant, !writing);
  }

  predicate Complete(ts: seq<Tuple>) {
    forall t :: t in ts ==> FullySpecified(t)
  }

  lemma WantedIsUnionOrDifference(have: set<Tuple>, ts: seq<Tuple>, writing: bool)
    requires Complete(ts)
    ensures Wanted(have, ts, writing) == if writing then have + Elements(ts) else have - Elements(ts)
    ensures Pick(ts, have, !writing) != [] ==> Wanted(have, ts, writing) != have
  {
    forall t | t in ts ensures Found(have, t) <==> t in have {
      FoundMeansMember(have, t);
    }
    var picked := Pick(ts, have, !writing);
    if picked != [] {
      assert picked[0] in picked;
      assert picked[0] in Wanted(have, ts, writing) <==> picked[0] !in have;
    }
  }

  /** For complete tuples, `WriteIfNeeded` is set union and `DeleteIfNeeded` set difference:
      success gives exactly that, and an error leaves everything as it was, exactly unless
      the service took the write and its reply was lost. No other tenant's tuples move. */
  lemma UnionAndDifference(net: Net, w: World, ts: seq<Tuple>, tenant: string, writing: bool)
    requires Good(w) && Stored(w.service, tenant).Some? && Complete(ts)
    ensures var (r, err) := Ensure(net, w, ts, tenant, writing);
            var have := Stored(w.service, tenant).value;
            var wanted := if writing then have + Elements(ts) else have - Elements(ts);
            && (err.None? ==> Became(w.service, r.service, tenant, wanted))
            && (err.Some? ==> (Same(w.service, r.service) <==>
                                 !(LostReply(net, w, r, err) && AllAcceptable(have, ts, writing))))
            && (!Same(w.service, r.service) ==> Became(w.service, r.service, tenant, wanted))
  {
    var (r, err) := Ensure(net, w, ts, tenant, writing);
    var have := Stored(w.service, tenant).value;
    AllOrNothing(net, w, ts, tenant, writing);
    WantedIsUnionOrDifference(have, ts, writing);
    if LostReply(net, w, r, err) && AllAcceptable(have, ts, writing) {
      var store := DirectStore(w.service, tenant).value;
      assert r.service.tuples[store] == Wanted(have, ts, writing) != have == w.service.tuples[store];
    }
  }

  /** With nothing in the way, complete tuples and a model to write under, success is exactly
      a matter of the tuples that are still to be touched: none of them twice. */
  lemma SucceedsExactlyWhenRepeatFree(net: Net, w: World, ts: seq<Tuple>, tenant: string, writing: bool)
    requires Good(w) && Stored(w.service, tenant).Some? && DirectModel(w.service, tenant).Ok? && Complete(ts)
    requires Quiet(net, w.rpcs, Ensure(net, w, ts, tenant, writing).0.rpcs)
    ensures Ensure(net, w, ts, tenant, writing).1.None?
       <==> Distinct(Pick(ts, Stored(w.service, tenant).value, !writing))
  {
    var have := Stored(w.service, tenant).value;
    AllOrNothing(net, w, ts, tenant, writing);
    forall t | t in ts ensures Found(have, t) <==> t in have {
      FoundMeansMember(have, t);
    }
  }

  /** After a success the same call sends no write, whatever the network and the cache do. */
  lemma RepeatSendsNothing(net: Net, w: World, again: World, ts: seq<Tuple>, tenant: string, writing: bool)
    requires Good(w) && Stored(w.service, tenant).Some? && Ensure(net, w, ts, tenant, writing).1.None?
    requires Good(again) && again.service == Ensure(net, w, ts, tenant, writing).0.service
    ensures Ensure(net, again, ts, tenant, writing).0.service == again.service
  {
    var have := Stored(w.service, tenant).value;
    AllOrNothing(net, w, ts, tenant, writing);
    AllOrNothing(net, again, ts, tenant, writing);
    var now := Stored(again.service, tenant).value;
    assert now == Wanted(have, ts, writing);
    NothingLeft(have, ts, writing, again, tenant);
    GatherPicks(net, again, ts, tenant, !writing);
  }

  lemma NothingLeft(have: set<Tuple>, ts: seq<Tuple>, writing: bool, w: World, tenant: string)
    requires Good(w) && Stored(w.service, tenant) == Some(Wanted(have, ts, writing))
    requires AllAcceptable(have, ts, writing)
    ensures Pick(ts, Wanted(have, ts, writing), !writing) == []
  {
    var now := Wanted(have, ts, writing);
    var left := Pick(ts, now, !writing);
    if left != [] {
      var t := left[0];
      assert t in left;
      if writing {
        if Found(have, t) {
        } else {
          assert t in Pick(ts, have, false);
          MemberIsFound(now, t);
        }
      } else {
        if !Found(have, t) {
        } else {
          assert t in Pick(ts, have, true);
          FoundMeansMember(now, t);
        }
      }
      assert false;
    }
  }

  lemma WrittenThenDeleted(have: set<Tuple>, ts: seq<Tuple>)
    requires Complete(ts)
    ensures Wanted(Wanted(have, ts, true), ts, false) == have - Elements(ts)
  {
    WantedIsUnionOrDifference(have, ts, true);
    WantedIsUnionOrDifference(Wanted(have, ts, true), ts, false);
  }

  /** Deleting what was written gives back the tuples there were before, if none of them
      was among the written ones; the two successes alone show that all were complete. */
  lemma DeleteUndoesWrite(net: Net, w: World, between: World, ts: seq<Tuple>, tenant: string)
    requires Good(w) && Stored(w.service, tenant).Some?
    requires WriteIfNeeded(net, w, ts, tenant).1.None?
    requires Good(between) && between.service == WriteIfNeeded(net, w, ts, tenant).0.service
    requires DeleteIfNeeded(net, between, ts, tenant).1.None?
    ensures var have, r := Stored(w.service, tenant).value, DeleteIfNeeded(net, between, ts, tenant).0;
            && Complete(ts)
            && Became(w.service, r.service, tenant, have - Elements(ts))
            && (have !! Elements(ts) ==> r.service.tuples == w.service.tuples)
  {
    var have, mid := Stored(w.service, tenant).value, Wanted(Stored(w.service, tenant).value, ts, true);
    AllOrNothing(net, w, ts, tenant, true);
    AllOrNothing(net, between, ts, tenant, false);
    NothingLeft(have, ts, true, between, tenant);
    WrittenThenDeleted(have, ts);
    var r, store := DeleteIfNeeded(net, between, ts, tenant).0, DirectStore(w.service, tenant).value;
    assert r.service.tuples == w.service.tuples[store := have - Elements(ts)];
    if have !! Elements(ts) {
      assert have - Elements(ts) == have;
    }
  }

  /** Union needs complete tuples: a successful call has written all it was given exactly
      when every tuple was complete. An incomplete one counts as there when anything
      matches it, and is skipped. */
  lemma WrittenExactlyWhenComplete(net: Net, w: World, ts: seq<Tuple>, tenant: string)
    requires Good(w) && Stored(w.service, tenant).Some?
    requires WriteIfNeeded(net, w, ts, tenant).1.None?
    ensures var r := WriteIfNeeded(net, w, ts, tenant).0;
            && Stored(r.service, tenant).Some?
            && (Elements(ts) <= Stored(r.service, tenant).value <==> Complete(ts))
  {
    var have := Stored(w.service, tenant).value;
    AllOrNothing(net, w, ts, tenant, true);
    var now := Stored(WriteIfNeeded(net, w, ts, tenant).0.service, tenant).value;
    if Complete(ts) {
      WantedIsUnionOrDifference(have, ts, true);
    }
    if Elements(ts) <= now {
      forall t | t in ts ensures FullySpecified(t) {
        assert t in Elements(ts);
      }
    }
  }

  /** Such a call exists: a tuple without a user is skipped because another user has it. */
  lemma IncompleteTupleIsSkipped()
    ensures var have := {Tuple("alice", "owner", "doc")};
            var sv := Service([StoreInfo("s", "tenant-t")], map["s" := ["m"]], map["s" := have], 0);
            var net, ts := Net(_ => Served, _ => {}), [Tuple("", "owner", "doc")];
            var (r, err) := WriteIfNeeded(net, World(sv, map[], 0, 0), ts, "t");
            err.None? && r.service == sv
  {
    var have := {Tuple("alice", "owner", "doc")};
    var sv := Service([StoreInfo("s", "tenant-t")], map["s" := ["m"]], map["s" := have], 0);
    var net, w, ts := Net(_ => Served, _ => {}), World(sv, map[], 0, 0), [Tuple("", "owner", "doc")];
    assert StoreName("t") == "tenant-t";
    assert Tuple("alice", "owner", "doc") in Filter(have, ts[0]);
    assert ts[..0] == [];
    assert Gather(net, w, ts[..0], "t", false).1 == Ok([]);
  }
}
