/** The reconcile run as it is programmed: one in-memory instance updated in place, a
    condition slice that shares its backing array with the instance, and a server. Every
    method is proved to do what the function of the same name in `Lifecycle` says. */
module Controller {
  import opened Options
  import opened Conditions
  import opened Subroutines
  import opened Cluster
  import opened Spread
  import M = ConditionManager
  import L = Lifecycle
  import Frames

  /** The in-memory copy of the resource. */
  class Instance {
    var version: nat
    var generation: int
    var deleting: bool
    var finalizers: seq<string>
    var labels: set<string>
    var conditions: M.Slice
    var data: int
    var initializers: seq<string>
    var terminators: seq<string>
    var observedGeneration: int
    var nextReconcile: int

    /** The instance as a value. */
    function Value(): Object
      requires conditions.Valid()
      reads this, conditions.cells
    {
      Object(version, generation, deleting, finalizers, labels,
        Status(conditions.View(), data, initializers, terminators, observedGeneration, nextReconcile))
    }

    constructor ()
      ensures conditions.Valid() && fresh(conditions.cells)
    {
      var a := new Condition[0];
      conditions := M.Slice(a, 0);
    }

    /** Decoding a reply into the instance: every field is replaced, and the conditions get
        a backing array of their own. */
    method Load(o: Object)
      modifies this
      ensures conditions.Valid() && fresh(conditions.cells) && Value() == o
    {
      version, generation, deleting, finalizers, labels := o.version, o.generation, o.deleting, o.finalizers, o.labels;
      data, initializers, terminators := o.status.data, o.status.initializers, o.status.terminators;
      observedGeneration, nextReconcile := o.status.observedGeneration, o.status.nextReconcile;
      conditions := M.NewSlice(o.status.conditions);
    }
  }

  /** The API server behind the client interface. */
  class Server {
    var world: World

    constructor (w: World)
      ensures world == w
    {
      world := w;
    }

    /** What others do before a call. */
    method Elapse(nudges: seq<Nudge>)
      modifies this
      ensures world == Await(old(world), nudges)
    {
      world := Await(world, nudges);
    }

    method Note(e: Event)
      modifies this
      ensures world == Log(old(world), e)
    {
      world := Log(world, e);
    }

    method Get(inst: Instance, call: Call) returns (err: Option<ApiError>)
      modifies this, inst
      ensures world == Await(old(world), call.before)
      ensures err == if call.fault.Served? then (if world.stored.None? then Some(NotFound) else None)
                     else Some(call.fault.error)
      ensures err.None? ==>
                inst.conditions.Valid() && fresh(inst.conditions.cells) && Some(inst.Value()) == world.stored
    {
      Elapse(call.before);
      if !call.fault.Served? {
        return Some(call.fault.error);
      }
      if world.stored.None? {
        return Some(NotFound);
      }
      inst.Load(world.stored.value);
      err := None;
    }

    /** A patch of the object; the reply is decoded into the instance. */
    method Patch(inst: Instance, original: Object, fault: Fault) returns (err: Option<ApiError>)
      requires inst.conditions.Valid()
      modifies this, inst
      ensures inst.conditions.Valid() && (inst.conditions == old(inst.conditions) || fresh(inst.conditions.cells))
      ensures var (w, reply) := PatchObject(old(world), MergeFrom(original, old(inst.Value())), fault);
              && world == w
              && L.Answered(w, reply, old(inst.Value())) == L.Attempt(world, inst.Value(), err)
    {
      var (w, reply) := PatchObject(world, MergeFrom(original, inst.Value()), fault);
      world := w;
      match reply {
        case Replied(o) =>
          inst.Load(o);
          err := None;
        case Failed(e) =>
          err := Some(e);
      }
    }

    /** A patch of the status subresource. */
    method StatusPatch(inst: Instance, original: Object, fault: Fault) returns (err: Option<ApiError>)
      requires inst.conditions.Valid()
      modifies this, inst
      ensures inst.conditions.Valid() && (inst.conditions == old(inst.conditions) || fresh(inst.conditions.cells))
      ensures var (w, reply) := PatchStatus(old(world), MergeFrom(original, old(inst.Value())), fault);
              && world == w
              && L.Answered(w, reply, old(inst.Value())) == L.Attempt(world, inst.Value(), err)
    {
      var (w, reply) := PatchStatus(world, MergeFrom(original, inst.Value()), fault);
      world := w;
      match reply {
        case Replied(o) =>
          inst.Load(o);
          err := None;
        case Failed(e) =>
          err := Some(e);
      }
    }

    /** An update of the status subresource under optimistic locking. */
    method StatusUpdate(inst: Instance, fault: Fault) returns (err: Option<ApiError>)
      requires inst.conditions.Valid()
      modifies this, inst
      ensures inst.conditions.Valid() && (inst.conditions == old(inst.conditions) || fresh(inst.conditions.cells))
      ensures var (w, reply) := Cluster.UpdateStatus(old(world), old(inst.Value()), fault);
              && world == w
              && L.Answered(w, reply, old(inst.Value())) == L.Attempt(world, inst.Value(), err)
    {
      var (w, reply) := Cluster.UpdateStatus(world, inst.Value(), fault);
      world := w;
      match reply {
        case Replied(o) =>
          inst.Load(o);
          err := None;
        case Failed(e) =>
          err := Some(e);
      }
    }
  }

  // ---------------------------------------------------------------- finalizers

  method AddFinalizer(inst: Instance, f: string) returns (updated: bool)
    modifies inst`finalizers
    ensures inst.finalizers == (if f in old(inst.finalizers) then old(inst.finalizers) else old(inst.finalizers) + [f])
    ensures updated <==> inst.finalizers != old(inst.finalizers)
  {
    updated := f !in inst.finalizers;
    if updated {
      inst.finalizers := inst.finalizers + [f];
    }
  }

  method RemoveFinalizer(inst: Instance, f: string) returns (updated: bool)
    modifies inst`finalizers
    ensures inst.finalizers == Without(old(inst.finalizers), f)
    ensures updated <==> inst.finalizers != old(inst.finalizers)
  {
    var kept: seq<string> := [];
    for i := 0 to |inst.finalizers|
      invariant inst.finalizers == old(inst.finalizers)
      invariant kept + Without(inst.finalizers[i..], f) == Without(inst.finalizers, f)
      invariant |kept| <= i && (|kept| == i ==> kept == inst.finalizers[..i])
    {
      assert inst.finalizers[i..][1..] == inst.finalizers[i + 1..];
      if inst.finalizers[i] != f {
        kept := kept + [inst.finalizers[i]];
      }
    }
    updated := |kept| != |inst.finalizers|;
    inst.finalizers := kept;
  }

  /** All finalizers of one subroutine. */
  method AddFinalizerIfNeeded(inst: Instance, sub: Subroutine) returns (updated: bool)
    modifies inst`finalizers
    ensures inst.finalizers == L.WithFinalizers(old(inst.finalizers), sub.finalizers)
    ensures updated <==> inst.finalizers != old(inst.finalizers)
  {
    updated := false;
    for i := 0 to |sub.finalizers|
      invariant L.WithFinalizers(inst.finalizers, sub.finalizers[i..])
             == L.WithFinalizers(old(inst.finalizers), sub.finalizers)
      invariant old(inst.finalizers) <= inst.finalizers
      invariant updated <==> inst.finalizers != old(inst.finalizers)
    {
      assert sub.finalizers[i..][1..] == sub.finalizers[i + 1..];
      var added := AddFinalizer(inst, sub.finalizers[i]);
      if added {
        updated := true;
      }
    }
  }

  method AddFinalizersIfNeeded(cfg: L.Config, server: Server, inst: Instance, call: Call)
    returns (err: Option<ApiError>)
    requires inst.conditions.Valid()
    modifies server, inst
    ensures inst.conditions.Valid() && (inst.conditions == old(inst.conditions) || fresh(inst.conditions.cells))
    ensures L.AddFinalizers(cfg, old(server.world), old(inst.Value()), call)
         == L.Attempt(server.world, inst.Value(), err)
  {
    server.Elapse(call.before);
    if cfg.readOnly {
      return None;
    }
    if inst.deleting {
      return None;
    }
    var update := false;
    var original := inst.Value();
    for i := 0 to |cfg.subroutines|
      invariant server.world == Await(old(server.world), call.before)
      invariant inst.conditions == old(inst.conditions) && inst.conditions.Valid()
      invariant inst.Value() == original.(finalizers := inst.finalizers)
      invariant L.WithAllFinalizers(inst.finalizers, cfg.subroutines[i..])
             == L.WithAllFinalizers(original.finalizers, cfg.subroutines)
      invariant original.finalizers <= inst.finalizers
      invariant update <==> inst.finalizers != original.finalizers
    {
      assert cfg.subroutines[i..][1..] == cfg.subroutines[i + 1..];
      var before := inst.finalizers;
      if |cfg.subroutines[i].finalizers| > 0 {
        WithFinalizersGrows(before, cfg.subroutines[i].finalizers);
        var needsUpdate := AddFinalizerIfNeeded(inst, cfg.subroutines[i]);
        if needsUpdate {
          update := true;
        }
      }
    }
    assert inst.finalizers == L.WithAllFinalizers(original.finalizers, cfg.subroutines);
    err := None;
    if update {
      err := server.Patch(inst, original, call.fault);
    }
  }

  lemma {:induction false} WithFinalizersGrows(fs: seq<string>, added: seq<string>)
    ensures fs <= L.WithFinalizers(fs, added)
    decreases |added|
  {
    if added != [] {
      WithFinalizersGrows(if added[0] in fs then fs else fs + [added[0]], added[1..]);
    }
  }

  predicate ContainsFinalizer(inst: Instance, fs: seq<string>)
    reads inst`finalizers
  {
    L.Contains(inst.finalizers, fs)
  }

  method RemoveFinalizersIfNeeded(
    cfg: L.Config, server: Server, inst: Instance, sub: Subroutine, fault: Fault) returns (err: Option<ApiError>)
    requires inst.conditions.Valid()
    modifies server, inst
    ensures inst.conditions.Valid() && (inst.conditions == old(inst.conditions) || fresh(inst.conditions.cells))
    ensures L.RemoveFinalizers(cfg, old(server.world), old(inst.Value()), sub.finalizers, fault)
         == L.Attempt(server.world, inst.Value(), err)
  {
    if cfg.readOnly {
      return None;
    }
    var update := false;
    var original := inst.Value();
    for i := 0 to |sub.finalizers|
      invariant server.world == old(server.world)
      invariant inst.conditions == old(inst.conditions) && inst.conditions.Valid()
      invariant inst.Value() == original.(finalizers := inst.finalizers)
      invariant L.WithoutFinalizers(inst.finalizers, sub.finalizers[i..])
             == L.WithoutFinalizers(original.finalizers, sub.finalizers)
      invariant |inst.finalizers| <= |original.finalizers|
      invariant if update then |inst.finalizers| < |original.finalizers| else inst.finalizers == original.finalizers
    {
      assert sub.finalizers[i..][1..] == sub.finalizers[i + 1..];
      WithoutShrinks(inst.finalizers, sub.finalizers[i]);
      var needsUpdate := RemoveFinalizer(inst, sub.finalizers[i]);
      if needsUpdate {
        update := true;
      }
    }
    assert inst.finalizers == L.WithoutFinalizers(original.finalizers, sub.finalizers);
    err := None;
    if update {
      err := server.Patch(inst, original, fault);
    }
  }

  lemma {:induction false} WithoutShrinks(list: seq<string>, x: string)
    ensures Without(list, x) == list || |Without(list, x)| < |list|
  {
    if list != [] {
      WithoutShrinks(list[1..], x);
      assert list == [list[0]] + list[1..];
    }
  }

  // ---------------------------------------------------------------- one subroutine

  /** What a subroutine does to the status of the instance it is given. */
  method ApplyEdits(inst: Instance, edits: seq<Edit>, now: int)
    requires inst.conditions.Valid()
    modifies inst, inst.conditions.cells
    ensures inst.conditions.Valid()
    ensures inst.conditions.cells == old(inst.conditions.cells) || fresh(inst.conditions.cells)
    ensures inst.Value() == old(inst.Value()).(status := L.Edited(old(inst.Value()).status, edits, now))
  {
    ghost var before := inst.Value();
    for i := 0 to |edits|
      invariant inst.conditions.Valid()
      invariant inst.conditions.cells == old(inst.conditions.cells) || fresh(inst.conditions.cells)
      invariant inst.Value() == before.(status := inst.Value().status)
      invariant L.Edited(inst.Value().status, edits[i..], now) == L.Edited(before.status, edits, now)
    {
      assert edits[i..][1..] == edits[i + 1..];
      match edits[i] {
        case PutCondition(c) =>
          var r, _ := M.SetStatusCondition(inst.conditions, c, now);
          inst.conditions := r;
        case DropCondition(t) =>
          var r := M.RemoveStatusCondition(inst.conditions, t);
          inst.conditions := r;
        case PutData(d) =>
          inst.data := d;
      }
    }
  }

  /** Which entry point of the subroutine the instance calls for. */
  method ChooseVerb(inst: Instance, sub: Subroutine) returns (verb: Verb)
    requires inst.conditions.Valid()
    ensures verb == L.VerbFor(sub, inst.Value())
  {
    if sub.isTerminator && inst.deleting {
      verb := Terminate;
    } else if inst.deleting && ContainsFinalizer(inst, sub.finalizers) {
      verb := Finalize;
    } else if sub.isInitializer && !inst.deleting {
      verb := Initialize;
    } else if !inst.deleting {
      verb := Process;
    } else {
      verb := Skip;
    }
  }

  method ReconcileSubroutine(
    cfg: L.Config, server: Server, inst: Instance, i: nat, step: L.Step, now: int)
    returns (requeueAfter: int, retry: bool, err: Option<string>)
    requires i < |cfg.subroutines| && inst.conditions.Valid()
    modifies server, inst, inst.conditions.cells
    ensures inst.conditions.Valid()
    ensures inst.conditions.cells == old(inst.conditions.cells) || fresh(inst.conditions.cells)
    ensures L.ReconcileSubroutine(cfg, old(server.world), old(inst.Value()), i, step, now)
         == L.SubroutineEnd(server.world, inst.Value(), requeueAfter, retry, err)
  {
    var sub := cfg.subroutines[i];
    var verb := ChooseVerb(inst, sub);
    if verb.Skip? {
      server.Elapse(step.patch.before);
      return 0, false, None;
    }
    server.Note(Ran(i, verb, step.outcome));
    server.Elapse(step.patch.before);
    ApplyEdits(inst, step.outcome.edits, now);
    requeueAfter := step.outcome.requeueAfter;
    var opErr := step.outcome.error;
    if verb == Finalize && opErr.None? && requeueAfter == 0 {
      var patchErr := RemoveFinalizersIfNeeded(cfg, server, inst, sub, step.patch.fault);
      if patchErr.Some? {
        opErr := Some(OperatorError(Some(L.ApiErrorText(patchErr.value)), true));
      }
    }
    if opErr.Some? {
      return requeueAfter, opErr.value.Retry(), opErr.value.cause;
    }
    return requeueAfter, false, None;
  }

  // ---------------------------------------------------------------- conditions and status

  /** The instance as the run means it: with the run's own condition slice in place of the
      one the instance happens to hold. */
  function Seen(cfg: L.Config, inst: Instance, conds: M.Slice): Object
    requires inst.conditions.Valid() && conds.Valid()
    reads inst, inst.conditions.cells, conds.cells
  {
    if cfg.conditions then L.WithConditions(inst.Value(), conds.View()) else inst.Value()
  }

  /** The next look is put off, and the generation noted. */
  method PutOff(cfg: L.Config, inst: Instance, now: int, jitter: nat)
    requires inst.conditions.Valid()
    modifies inst`nextReconcile, inst`observedGeneration
    ensures inst.Value() == L.PutOff(cfg, old(inst.Value()), now, jitter)
  {
    if cfg.spreader && !inst.deleting {
      inst.nextReconcile := now + Pause(cfg.border, jitter);
      inst.observedGeneration := inst.generation;
    }
  }

  /** The spread fields are set on the instance. Ready is set through a copy of the slice
      header: the caller sees it if it was in the list already, and not otherwise. */
  method MarkResourceAsFinal(
    cfg: L.Config, server: Server, inst: Instance, conds: M.Slice, status: ConditionStatus, now: int, jitter: nat)
    requires inst.conditions.Valid() && conds.Valid()
    modifies server, inst`nextReconcile, inst`observedGeneration, conds.cells
    ensures server.world == Log(old(server.world), MarkedFinal)
    ensures Seen(cfg, inst, conds) == L.MarkFinal(cfg, old(Seen(cfg, inst, conds)), status, now, jitter)
    ensures cfg.conditions && IndexOf(old(conds.View()), READY) == conds.len ==> conds.View() == old(conds.View())
    ensures !cfg.conditions ==> conds.cells[..] == old(conds.cells[..])
  {
    PutOff(cfg, inst, now, jitter);
    if cfg.conditions {
      assert Seen(cfg, inst, conds) == L.PutOff(cfg, old(Seen(cfg, inst, conds)), now, jitter);
      var _, _ := M.SetInstanceConditionReady(conds, inst.generation, status, now);
    }
    server.Note(MarkedFinal);
  }

  method UpdateStatus(cfg: L.Config, server: Server, original: Object, inst: Instance, call: Call)
    returns (err: Option<ApiError>)
    requires inst.conditions.Valid()
    modifies server, inst
    ensures inst.conditions.Valid() && (inst.conditions == old(inst.conditions) || fresh(inst.conditions.cells))
    ensures L.SendStatus(cfg, old(server.world), original, old(inst.Value()), call)
         == L.Attempt(server.world, inst.Value(), err)
  {
    server.Elapse(call.before);
    if cfg.readOnly || inst.Value().status == original.status {
      return None;
    }
    err := server.StatusUpdate(inst, call.fault);
  }

  // ---------------------------------------------------------------- the loop

  /** Before a subroutine runs it has a condition, and the instance holds the run's slice. */
  method PrepareConditions(
    cfg: L.Config, inst: Instance, given: M.Slice, name: string, deletion: bool, now: int) returns (conds: M.Slice)
    requires inst.conditions.Valid() && given.Valid()
    modifies inst`conditions, given.cells
    ensures inst.conditions.Valid() && conds.Valid()
    ensures conds.cells == given.cells || fresh(conds.cells)
    ensures inst.conditions == if cfg.conditions then conds else old(inst.conditions)
    ensures Seen(cfg, inst, conds) == L.ProcessingIfMissing(cfg, old(Seen(cfg, inst, given)), name, deletion, now)
  {
    conds := given;
    if cfg.conditions {
      var r, _ := M.SetSubroutineConditionToUnknownIfNotSet(conds, inst.generation, name, deletion, now);
      conds := r;
      inst.conditions := conds;
    }
  }

  /** The run's slice says how a subroutine ended. The instance is given the slice later. */
  method NoteOutcome(
    cfg: L.Config, inst: Instance, given: M.Slice, name: string, deletion: bool, requeueAfter: int,
    err: Option<string>, now: int) returns (conds: M.Slice)
    requires inst.conditions.Valid() && given.Valid() && (cfg.conditions ==> given == inst.conditions)
    modifies given.cells
    ensures inst.conditions.Valid() && conds.Valid()
    ensures conds.cells == given.cells || fresh(conds.cells)
    ensures !cfg.conditions ==> conds == given && given.cells[..] == old(given.cells[..])
    ensures Seen(cfg, inst, conds)
         == L.SetSubroutine(cfg, old(Seen(cfg, inst, given)), name, deletion, requeueAfter, err, now)
  {
    conds := given;
    if cfg.conditions {
      var r, _ := M.SetSubroutineCondition(conds, inst.generation, name, requeueAfter, err, deletion, now);
      conds := r;
    }
  }

  /** One turn of the loop. */
  method Turn(
    cfg: L.Config, server: Server, inst: Instance, given: M.Slice, ins: L.Inputs, deletion: bool, k: nat)
    returns (conds: M.Slice, requeueAfter: int, retry: bool, err: Option<string>)
    requires k < |cfg.subroutines| && inst.conditions.Valid() && given.Valid()
    modifies server, inst, inst.conditions.cells, given.cells
    ensures inst.conditions.Valid() && conds.Valid()
    ensures inst.conditions.cells in {old(inst.conditions.cells), given.cells} || fresh(inst.conditions.cells)
    ensures conds.cells in {old(inst.conditions.cells), given.cells} || fresh(conds.cells)
    ensures cfg.conditions && err.Some? ==> conds == inst.conditions
    ensures L.Turn(cfg, ins, deletion, k, old(server.world), old(Seen(cfg, inst, given)))
         == L.SubroutineEnd(server.world, Seen(cfg, inst, conds), requeueAfter, retry, err)
  {
    var i := L.Position(cfg, deletion, k);
    var name := cfg.subroutines[i].name;
    conds := PrepareConditions(cfg, inst, given, name, deletion, ins.now);
    ghost var prepared := Seen(cfg, inst, conds);
    assert prepared == inst.Value();
    requeueAfter, retry, err := ReconcileSubroutine(cfg, server, inst, i, L.StepAt(ins, k), ins.now);
    if cfg.conditions {
      conds := inst.conditions;
    }
    assert L.ReconcileSubroutine(cfg, old(server.world), prepared, i, L.StepAt(ins, k), ins.now)
        == L.SubroutineEnd(server.world, Seen(cfg, inst, conds), requeueAfter, retry, err);
    if err.None? && requeueAfter == 0 {
      conds := NoteOutcome(cfg, inst, conds, name, deletion, 0, None, ins.now);
    }
  }

  /** The conditions of a run that failed; the instance gets them. */
  method NoteFailure(
    cfg: L.Config, inst: Instance, given: M.Slice, name: string, deletion: bool, acc: int, err: string, now: int)
    returns (conds: M.Slice)
    requires inst.conditions.Valid() && given.Valid() && (cfg.conditions ==> given == inst.conditions)
    modifies inst`conditions, given.cells
    ensures inst.conditions.Valid() && conds.Valid()
    ensures conds.cells == given.cells || fresh(conds.cells)
    ensures cfg.conditions ==> inst.conditions == conds
    ensures Seen(cfg, inst, conds)
         == L.SetReady(cfg,
              L.SetSubroutine(cfg, old(Seen(cfg, inst, given)), name, deletion, acc, Some(err), now),
              CondFalse, now)
  {
    conds := NoteOutcome(cfg, inst, given, name, deletion, acc, Some(err), now);
    if cfg.conditions {
      var r, _ := M.SetInstanceConditionReady(conds, inst.generation, CondFalse, now);
      conds := r;
      inst.conditions := conds;
    }
  }

  /** The run ends with the error of subroutine `i`. */
  method StopRun(
    cfg: L.Config, server: Server, original: Object, inst: Instance, given: M.Slice, ins: L.Inputs, deletion: bool,
    i: nat, requeueAfter: int, retry: bool, err: string, acc: int) returns (result: L.Result)
    requires i < |cfg.subroutines| && inst.conditions.Valid() && given.Valid()
    requires cfg.conditions ==> given == inst.conditions
    modifies server, inst, given.cells
    ensures L.StopRun(cfg, ins, original, deletion, i,
              L.SubroutineEnd(old(server.world), old(Seen(cfg, inst, given)), requeueAfter, retry, Some(err)), acc)
         == L.Done(server.world, result)
  {
    var conds := NoteFailure(cfg, inst, given, cfg.subroutines[i].name, deletion, acc, err, ins.now);
    if !retry {
      MarkResourceAsFinal(cfg, server, inst, conds, CondFalse, ins.now, ins.jitter);
    }
    assert inst.Value() == Seen(cfg, inst, conds);
    var _ := UpdateStatus(cfg, server, original, inst, ins.status);
    result := if retry then L.Result(requeueAfter, Some(L.SubroutineFailure(err))) else L.Result(0, None);
  }

  // ---------------------------------------------------------------- after the loop

  /** Deleting an entry in place of the list: `slices.DeleteFunc`. */
  method DeleteEntry(list: seq<string>, x: string) returns (kept: seq<string>)
    ensures kept == Without(list, x)
    ensures |kept| == |list| <==> kept == list
  {
    kept := [];
    for i := 0 to |list|
      invariant kept + Without(list[i..], x) == Without(list, x)
      invariant |kept| <= i && (|kept| == i ==> kept == list[..i])
    {
      assert list[i..][1..] == list[i + 1..];
      if list[i] != x {
        kept := kept + [list[i]];
      }
    }
  }

  method RemoveTerminator(server: Server, inst: Instance, terminator: string, fault: Fault)
    returns (err: Option<ApiError>)
    requires inst.conditions.Valid()
    modifies server, inst
    ensures inst.conditions.Valid() && (inst.conditions == old(inst.conditions) || fresh(inst.conditions.cells))
    ensures L.RemoveTerminator(old(server.world), old(inst.Value()), terminator, fault)
         == L.Attempt(server.world, inst.Value(), err)
  {
    var original := inst.Value();
    var kept := DeleteEntry(inst.terminators, terminator);
    if |kept| == |inst.terminators| {
      return None;
    }
    inst.terminators := kept;
    err := server.StatusPatch(inst, original, fault);
  }

  method RemoveInitializer(server: Server, inst: Instance, initializer: string, fault: Fault)
    returns (err: Option<ApiError>)
    requires inst.conditions.Valid()
    modifies server, inst
    ensures inst.conditions.Valid() && (inst.conditions == old(inst.conditions) || fresh(inst.conditions.cells))
    ensures L.RemoveInitializer(old(server.world), old(inst.Value()), initializer, fault)
         == L.Attempt(server.world, inst.Value(), err)
  {
    var original := inst.Value();
    var kept := DeleteEntry(inst.initializers, initializer);
    if |kept| == |inst.initializers| {
      return None;
    }
    inst.initializers := kept;
    err := server.StatusPatch(inst, original, fault);
  }

  /** Takes the configured entry off and puts the run's condition slice back. The condition
      list plays no part in the patch, because both sides of it have the same one. */
  method PassGate(
    cfg: L.Config, server: Server, inst: Instance, conds: M.Slice, deletion: bool, requeueAfter: int, call: Call)
    returns (err: Option<ApiError>)
    requires inst.conditions.Valid() && conds.Valid()
    modifies server, inst
    ensures inst.conditions.Valid()
    ensures err.None? && cfg.conditions ==> inst.conditions == conds
    ensures var at := L.RemoveGate(cfg, old(server.world), old(Seen(cfg, inst, conds)), deletion, requeueAfter, call);
            at.world == server.world && at.error == err && (err.None? ==> at.inst == inst.Value())
  {
    server.Elapse(call.before);
    ghost var w, before, seen := server.world, inst.Value(), Seen(cfg, inst, conds);
    err := None;
    if requeueAfter == 0 && deletion && cfg.terminator != "" {
      err := RemoveTerminator(server, inst, cfg.terminator, call.fault);
      GateIgnoresConditions(w, before, conds.View(), cfg.terminator, call.fault);
    }
    if requeueAfter == 0 && !deletion && cfg.initializer != "" {
      err := RemoveInitializer(server, inst, cfg.initializer, call.fault);
      GateIgnoresConditions(w, before, conds.View(), cfg.initializer, call.fault);
    }
    if err.None? && cfg.conditions {
      inst.conditions := conds;
    }
  }

  /** The patch of a gate list is the same whatever the condition list. */
  lemma GateIgnoresConditions(w: World, inst: Object, cs: seq<Condition>, x: string, fault: Fault)
    ensures var a := L.RemoveTerminator(w, inst, x, fault);
            var b := L.RemoveTerminator(w, L.WithConditions(inst, cs), x, fault);
            a.world == b.world && a.error == b.error && L.WithConditions(a.inst, cs) == L.WithConditions(b.inst, cs)
    ensures var a := L.RemoveInitializer(w, inst, x, fault);
            var b := L.RemoveInitializer(w, L.WithConditions(inst, cs), x, fault);
            a.world == b.world && a.error == b.error && L.WithConditions(a.inst, cs) == L.WithConditions(b.inst, cs)
  {
    var inst' := L.WithConditions(inst, cs);
    var t, t' := Without(inst.status.terminators, x), Without(inst.status.initializers, x);
    assert MergeFrom(inst, inst.(status := inst.status.(terminators := t)))
        == MergeFrom(inst', inst'.(status := inst'.status.(terminators := t)));
    assert MergeFrom(inst, inst.(status := inst.status.(initializers := t')))
        == MergeFrom(inst', inst'.(status := inst'.status.(initializers := t')));
  }

  method RemoveRefreshLabelIfExists(inst: Instance) returns (removed: bool)
    modifies inst`labels
    ensures inst.labels == old(inst.labels) - {REFRESH_LABEL}
    ensures removed <==> inst.labels != old(inst.labels)
  {
    var keyCount := |inst.labels|;
    inst.labels := inst.labels - {REFRESH_LABEL};
    assert inst.labels + {REFRESH_LABEL} >= old(inst.labels);
    if REFRESH_LABEL in old(inst.labels) {
      assert inst.labels + {REFRESH_LABEL} == old(inst.labels);
      assert |old(inst.labels)| == |inst.labels| + 1;
    }
    removed := keyCount != |inst.labels|;
  }

  method DropRefreshLabel(cfg: L.Config, server: Server, inst: Instance, requeueAfter: int, call: Call)
    returns (result: L.Result)
    requires inst.conditions.Valid()
    modifies server, inst
    ensures L.RemoveRefreshLabel(cfg, old(server.world), old(inst.Value()), requeueAfter, call)
         == L.Done(server.world, result)
  {
    server.Elapse(call.before);
    if cfg.spreader && !inst.deleting {
      var original := inst.Value();
      var removed := RemoveRefreshLabelIfExists(inst);
      if removed {
        var err := server.Patch(inst, original, call.fault);
        if err.Some? {
          return L.Result(0, None);
        }
      }
    }
    result := L.Result(requeueAfter, None);
  }

  method FinishRun(
    cfg: L.Config, server: Server, original: Object, inst: Instance, given: M.Slice, ins: L.Inputs, deletion: bool,
    acc: int) returns (result: L.Result)
    requires inst.conditions.Valid() && given.Valid()
    modifies server, inst, given.cells
    ensures L.FinishRun(cfg, ins, original, deletion, old(server.world), old(Seen(cfg, inst, given)), acc)
         == L.Done(server.world, result)
  {
    var conds := given;
    if acc == 0 {
      MarkResourceAsFinal(cfg, server, inst, conds, CondTrue, ins.now, ins.jitter);
    } else if cfg.conditions {
      var r, _ := M.SetInstanceConditionReady(conds, inst.generation, CondFalse, ins.now);
      conds := r;
    }
    assert Seen(cfg, inst, conds) == L.Conclude(cfg, old(Seen(cfg, inst, given)), acc, ins);
    var err := PassGate(cfg, server, inst, conds, deletion, acc, ins.removal);
    if err.Some? {
      return L.Result(acc, Some(L.ApiFailure(err.value)));
    }
    if inst.deleting && inst.finalizers == [] {
      server.Elapse(ins.status.before);
    } else {
      err := UpdateStatus(cfg, server, original, inst, ins.status);
      if err.Some? {
        return L.Result(acc, Some(L.ApiFailure(err.value)));
      }
    }
    result := DropRefreshLabel(cfg, server, inst, acc, ins.refresh);
  }

  // ---------------------------------------------------------------- the run

  /** One reconcile run: it does to the server exactly what `Lifecycle.Reconcile` says, and
      returns the same result. */
  method Reconcile(cfg: L.Config, server: Server, inst: Instance, ins: L.Inputs) returns (result: L.Result)
    modifies server, inst
    ensures L.Done(server.world, result) == L.Reconcile(cfg, old(server.world), ins)
  {
    var err := server.Get(inst, ins.get);
    if err.Some? {
      return L.Result(0, if err.value.NotFound? then None else Some(L.ApiFailure(err.value)));
    }
    var original := inst.Value();
    var deletion := inst.deleting;
    if cfg.spreader && !inst.deleting {
      if !ReconcileRequired(inst.Value(), ins.now) {
        return L.Result(inst.nextReconcile - ins.now, None);
      }
    }
    result := RunLoaded(cfg, server, inst, original, ins);
  }

  method RunLoaded(cfg: L.Config, server: Server, inst: Instance, original: Object, ins: L.Inputs)
    returns (result: L.Result)
    requires inst.conditions.Valid() && inst.Value() == original
    modifies server, inst, inst.conditions.cells
    ensures L.Done(server.world, result) == L.RunLoaded(cfg, ins, old(server.world), original)
  {
    var deletion := inst.deleting;
    var err := AddFinalizersIfNeeded(cfg, server, inst, ins.add);
    if err.Some? {
      return L.Result(0, Some(L.ApiFailure(err.value)));
    }
    var conds := inst.conditions;
    if cfg.conditions {
      var r, _ := M.SetInstanceConditionUnknownIfNotSet(conds, inst.generation, ins.now);
      conds := r;
    }
    if ins.prepare.Some? {
      return L.Result(0,
        if ins.prepare.value.Retry() then Some(L.SubroutineFailure(ins.prepare.value.cause.value)) else None);
    }
    result := RunSubroutines(cfg, server, inst, conds, original, ins, deletion);
  }

  /** One turn of the loop: it goes on with the requeue folded in, or the run ends here. */
  method TurnOrStop(
    cfg: L.Config, server: Server, inst: Instance, given: M.Slice, original: Object, ins: L.Inputs, deletion: bool,
    k: nat, acc: int) returns (conds: M.Slice, acc': int, stopped: Option<L.Result>)
    requires k < |cfg.subroutines| && inst.conditions.Valid() && given.Valid()
    modifies server, inst, inst.conditions.cells, given.cells
    ensures stopped.None? ==>
              && inst.conditions.Valid() && conds.Valid()
              && (inst.conditions.cells in {old(inst.conditions.cells), given.cells} || fresh(inst.conditions.cells))
              && (conds.cells in {old(inst.conditions.cells), given.cells} || fresh(conds.cells))
    ensures L.RunSubroutines(cfg, ins, original, deletion, k, old(server.world), old(Seen(cfg, inst, given)), acc)
         == if stopped.Some? then L.Stopped(L.Done(server.world, stopped.value))
            else L.RunSubroutines(cfg, ins, original, deletion, k + 1, server.world, Seen(cfg, inst, conds), acc')
  {
    Frames.LoopStep(cfg, ins, original, deletion, k, server.world, Seen(cfg, inst, given), acc);
    var requeueAfter, retry, err;
    conds, requeueAfter, retry, err := Turn(cfg, server, inst, given, ins, deletion, k);
    acc', stopped := L.Fold(acc, requeueAfter), None;
    if err.Some? {
      var result := StopRun(cfg, server, original, inst, conds, ins, deletion, L.Position(cfg, deletion, k),
        requeueAfter, retry, err.value, acc);
      stopped := Some(result);
    }
  }

  method RunSubroutines(
    cfg: L.Config, server: Server, inst: Instance, given: M.Slice, original: Object, ins: L.Inputs, deletion: bool)
    returns (result: L.Result)
    requires inst.conditions.Valid() && given.Valid()
    modifies server, inst, inst.conditions.cells, given.cells
    ensures L.Done(server.world, result)
         == match L.RunSubroutines(cfg, ins, original, deletion, 0, old(server.world), old(Seen(cfg, inst, given)), 0)
            case Stopped(done) => done
            case Completed(w, seen, acc) => L.FinishRun(cfg, ins, original, deletion, w, seen, acc)
  {
    var conds, acc, stopped := Loop(cfg, server, inst, given, original, ins, deletion);
    if stopped.Some? {
      return stopped.value;
    }
    result := FinishRun(cfg, server, original, inst, conds, ins, deletion, acc);
  }

  /** The loop alone: what it answers if it stops, and the folded requeue if it does not. */
  method Loop(
    cfg: L.Config, server: Server, inst: Instance, given: M.Slice, original: Object, ins: L.Inputs, deletion: bool)
    returns (conds: M.Slice, acc: int, stopped: Option<L.Result>)
    requires inst.conditions.Valid() && given.Valid()
    modifies server, inst, inst.conditions.cells, given.cells
    ensures stopped.None? ==>
              && inst.conditions.Valid() && conds.Valid()
              && (inst.conditions.cells in {old(inst.conditions.cells), given.cells} || fresh(inst.conditions.cells))
              && (conds.cells in {old(inst.conditions.cells), given.cells} || fresh(conds.cells))
    ensures L.RunSubroutines(cfg, ins, original, deletion, 0, old(server.world), old(Seen(cfg, inst, given)), 0)
         == if stopped.Some? then L.Stopped(L.Done(server.world, stopped.value))
            else L.Completed(server.world, Seen(cfg, inst, conds), acc)
  {
    conds, acc, stopped := given, 0, None;
    ghost var goal := L.RunSubroutines(cfg, ins, original, deletion, 0, server.world, Seen(cfg, inst, given), 0);
    for k := 0 to |cfg.subroutines|
      invariant stopped.None?
      invariant inst.conditions.Valid() && conds.Valid()
      invariant inst.conditions.cells in {old(inst.conditions.cells), given.cells} || fresh(inst.conditions.cells)
      invariant conds.cells in {old(inst.conditions.cells), given.cells} || fresh(conds.cells)
      invariant goal == L.RunSubroutines(cfg, ins, original, deletion, k, server.world, Seen(cfg, inst, conds), acc)
    {
      conds, acc, stopped := TurnOrStop(cfg, server, inst, conds, original, ins, deletion, k, acc);
      if stopped.Some? {
        return;
      }
    }
  }
}
