/** What the parts of a run leave alone. */
module Frames {
  import opened Options
  import opened Conditions
  import opened Subroutines
  import opened Cluster
  import opened Lifecycle

  /** From `a` to `b` no finalizer came or went, and a deletion mark stayed. */
  predicate SameFinalizers(a: Option<Object>, b: Option<Object>) {
    && (b.Some? ==>
          && a.Some?
          && b.value.finalizers == a.value.finalizers
          && (a.value.deleting ==> b.value.deleting))
    && (b.None? ==> a.None? || a.value.finalizers == [])
  }

  /** The in-memory instance has the stored finalizers, and no deletion mark the store lacks. */
  predicate Linked(stored: Option<Object>, inst: Object) {
    && (stored.Some? ==>
          && inst.finalizers == stored.value.finalizers
          && (inst.deleting ==> stored.value.deleting))
    && (stored.None? ==> inst.finalizers == [])
  }

  /** The stored object after the events `tr`, started from `init`. */
  function StoredAfter(init: Option<Object>, tr: seq<Event>): Option<Object>
    decreases |tr|
  {
    if tr == [] then init
    else if tr[|tr| - 1].Stored? then tr[|tr| - 1].state
    else StoredAfter(init, tr[..|tr| - 1])
  }

  lemma {:induction false} StoredAfterConcat(init: Option<Object>, a: seq<Event>, b: seq<Event>)
    ensures StoredAfter(init, a + b) == StoredAfter(StoredAfter(init, a), b)
    decreases |b|
  {
    if b == [] {
      assert a + b == a;
    } else {
      assert (a + b)[..|a + b| - 1] == a + b[..|b| - 1];
      StoredAfterConcat(init, a, b[..|b| - 1]);
    }
  }

  predicate MildEvent(o: Option<Object>, e: Event) {
    !e.Ran? && (e.Stored? ==> SameFinalizers(o, e.state))
  }

  /** From `w` to `w'` no subroutine ran, and no stored state had other finalizers. */
  predicate Mild(w: World, w': World) {
    && w.trace <= w'.trace
    && StoredAfter(w.stored, w'.trace[|w.trace|..]) == w'.stored
    && SameFinalizers(w.stored, w'.stored)
    && (forall k :: |w.trace| <= k < |w'.trace| ==> MildEvent(w.stored, w'.trace[k]))
  }

  lemma MildTrans(a: World, b: World, c: World)
    requires Mild(a, b) && Mild(b, c)
    ensures Mild(a, c)
  {
    StoredAfterConcat(a.stored, b.trace[|a.trace|..], c.trace[|b.trace|..]);
    assert c.trace[|a.trace|..] == b.trace[|a.trace|..] + c.trace[|b.trace|..];
    forall k | |a.trace| <= k < |c.trace| ensures MildEvent(a.stored, c.trace[k]) {
      if k < |b.trace| {
        assert c.trace[k] == b.trace[k];
      }
    }
  }

  lemma LogIsMild(w: World, e: Event)
    requires !e.Ran? && !e.Stored?
    ensures Mild(w, Log(w, e))
  {
    assert Log(w, e).trace[|w.trace|..] == [e];
  }

  lemma {:induction false} AwaitIsMild(w: World, nudges: seq<Nudge>)
    ensures Mild(w, Await(w, nudges))
    decreases |nudges|
  {
    if nudges != [] && w.stored.Some? {
      var w1 := Put(w, Keep(Nudged(w.stored.value, nudges[0])));
      AwaitIsMild(w1, nudges[1..]);
      MildTrans(w, w1, Await(w, nudges));
    }
  }

  lemma UpdateStatusIsMild(w: World, inst: Object, fault: Fault)
    ensures Mild(w, UpdateStatus(w, inst, fault).0)
  {
    var w1 := w;
    if w.stored.Some? {
      var o := w.stored.value;
      var check := if inst.version == o.version then None else Some(Conflict);
      w1 := Write(w, check, o.(status := inst.status), fault).0;
    }
    var w2 := UpdateStatus(w, inst, fault).0;
    LogIsMild(w1, w2.trace[|w2.trace| - 1]);
    MildTrans(w, w1, w2);
  }

  lemma PatchStatusIsMild(w: World, p: Patch, fault: Fault)
    ensures Mild(w, PatchStatus(w, p, fault).0)
  {
    var w1 := w;
    if w.stored.Some? {
      w1 := Write(w, None, ApplyStatus(w.stored.value, p), fault).0;
    }
    var w2 := PatchStatus(w, p, fault).0;
    LogIsMild(w1, w2.trace[|w2.trace| - 1]);
    MildTrans(w, w1, w2);
  }

  /** A patch of the object that leaves the finalizers out. */
  lemma PatchObjectIsMild(w: World, p: Patch, fault: Fault)
    requires p.finalizers.None?
    ensures Mild(w, PatchObject(w, p, fault).0)
  {
    var w1 := w;
    if w.stored.Some? {
      var o, n := w.stored.value, ApplyMeta(w.stored.value, p);
      w1 := Write(w, CheckFinalizers(o, n), n, fault).0;
    }
    var w2 := PatchObject(w, p, fault).0;
    LogIsMild(w1, w2.trace[|w2.trace| - 1]);
    MildTrans(w, w1, w2);
  }

  lemma SendStatusIsMild(cfg: Config, w: World, original: Object, inst: Object, call: Call)
    ensures Mild(w, SendStatus(cfg, w, original, inst, call).world)
  {
    var w1 := Await(w, call.before);
    AwaitIsMild(w, call.before);
    UpdateStatusIsMild(w1, inst, call.fault);
    MildTrans(w, w1, SendStatus(cfg, w, original, inst, call).world);
  }

  lemma StopRunIsMild(
    cfg: Config, ins: Inputs, original: Object, deletion: bool, i: nat, end: SubroutineEnd, acc: int)
    requires i < |cfg.subroutines| && end.error.Some?
    ensures Mild(end.world, StopRun(cfg, ins, original, deletion, i, end, acc).world)
  {
    var failed := SetSubroutine(cfg, end.inst, cfg.subroutines[i].name, deletion, acc, end.error, ins.now);
    var unready := SetReady(cfg, failed, CondFalse, ins.now);
    var final := if end.retry then unready else MarkFinal(cfg, unready, CondFalse, ins.now, ins.jitter);
    var w := if end.retry then end.world else Log(end.world, MarkedFinal);
    LogIsMild(end.world, MarkedFinal);
    SendStatusIsMild(cfg, w, original, final, ins.status);
    MildTrans(end.world, w, SendStatus(cfg, w, original, final, ins.status).world);
  }

  lemma RemoveEntryIsMild(w: World, inst: Object, x: string, fault: Fault)
    ensures Mild(w, RemoveTerminator(w, inst, x, fault).world)
    ensures Mild(w, RemoveInitializer(w, inst, x, fault).world)
  {
    assert w.trace[|w.trace|..] == [];
    var t := inst.(status := inst.status.(terminators := Without(inst.status.terminators, x)));
    var i := inst.(status := inst.status.(initializers := Without(inst.status.initializers, x)));
    PatchStatusIsMild(w, MergeFrom(inst, t), fault);
    PatchStatusIsMild(w, MergeFrom(inst, i), fault);
  }

  lemma RemoveGateIsMild(cfg: Config, w: World, inst: Object, deletion: bool, acc: int, call: Call)
    ensures Mild(w, RemoveGate(cfg, w, inst, deletion, acc, call).world)
  {
    var w1 := Await(w, call.before);
    AwaitIsMild(w, call.before);
    RemoveEntryIsMild(w1, inst, cfg.terminator, call.fault);
    RemoveEntryIsMild(w1, inst, cfg.initializer, call.fault);
    MildTrans(w, w1, RemoveGate(cfg, w, inst, deletion, acc, call).world);
  }

  lemma RemoveRefreshLabelIsMild(cfg: Config, w: World, inst: Object, acc: int, call: Call)
    ensures Mild(w, RemoveRefreshLabel(cfg, w, inst, acc, call).world)
  {
    var w1 := Await(w, call.before);
    AwaitIsMild(w, call.before);
    var modified := inst.(labels := inst.labels - {REFRESH_LABEL});
    PatchObjectIsMild(w1, MergeFrom(inst, modified), call.fault);
    MildTrans(w, w1, RemoveRefreshLabel(cfg, w, inst, acc, call).world);
  }

  lemma FinishRunIsMild(cfg: Config, ins: Inputs, original: Object, deletion: bool, w: World, inst: Object, acc: int)
    ensures Mild(w, FinishRun(cfg, ins, original, deletion, w, inst, acc).world)
  {
    var marked := if acc == 0 then Log(w, MarkedFinal) else w;
    LogIsMild(w, MarkedFinal);
    var gate := RemoveGate(cfg, marked, Conclude(cfg, inst, acc, ins), deletion, acc, ins.removal);
    RemoveGateIsMild(cfg, marked, Conclude(cfg, inst, acc, ins), deletion, acc, ins.removal);
    MildTrans(w, marked, gate.world);
    if gate.error.None? {
      var sent := SendFinalStatus(cfg, gate.world, original, gate.inst, ins.status);
      AwaitIsMild(gate.world, ins.status.before);
      SendStatusIsMild(cfg, gate.world, original, gate.inst, ins.status);
      MildTrans(w, gate.world, sent.world);
      if sent.error.None? {
        RemoveRefreshLabelIsMild(cfg, sent.world, sent.inst, acc, ins.refresh);
        MildTrans(w, sent.world, RemoveRefreshLabel(cfg, sent.world, sent.inst, acc, ins.refresh).world);
      }
    }
  }

  /** From `w` to `w'` no stored state had other finalizers, whatever ran. */
  predicate Frozen(w: World, w': World) {
    && w.trace <= w'.trace
    && StoredAfter(w.stored, w'.trace[|w.trace|..]) == w'.stored
    && SameFinalizers(w.stored, w'.stored)
    && (forall k :: |w.trace| <= k < |w'.trace| && w'.trace[k].Stored? ==>
          SameFinalizers(w.stored, w'.trace[k].state))
  }

  lemma MildIsFrozen(w: World, w': World)
    requires Mild(w, w')
    ensures Frozen(w, w')
  {
    forall k | |w.trace| <= k < |w'.trace| && w'.trace[k].Stored?
      ensures SameFinalizers(w.stored, w'.trace[k].state)
    {
      assert MildEvent(w.stored, w'.trace[k]);
    }
  }

  lemma FrozenTrans(a: World, b: World, c: World)
    requires Frozen(a, b) && Frozen(b, c)
    ensures Frozen(a, c)
  {
    StoredAfterConcat(a.stored, b.trace[|a.trace|..], c.trace[|b.trace|..]);
    assert c.trace[|a.trace|..] == b.trace[|a.trace|..] + c.trace[|b.trace|..];
    forall k | |a.trace| <= k < |c.trace| && c.trace[k].Stored?
      ensures SameFinalizers(a.stored, c.trace[k].state)
    {
      if k < |b.trace| {
        assert c.trace[k] == b.trace[k];
      }
    }
  }

  lemma RanIsFrozen(w: World, i: nat, verb: Verb, out: Outcome)
    ensures Frozen(w, Log(w, Ran(i, verb, out)))
    ensures Frozen(w, w)
  {
    assert w.trace[|w.trace|..] == [];
    assert Log(w, Ran(i, verb, out)).trace[|w.trace|..] == [Ran(i, verb, out)];
  }

  /** A subroutine that removes no finalizers leaves every stored list of them alone. */
  lemma SubroutineIsFrozen(cfg: Config, w0: World, inst: Object, i: nat, step: Step, now: int)
    requires i < |cfg.subroutines|
    requires cfg.readOnly || !VerbFor(cfg.subroutines[i], inst).Finalize? || !step.outcome.Done()
    ensures var end := ReconcileSubroutine(cfg, w0, inst, i, step, now);
            && Frozen(w0, end.world)
            && end.inst.finalizers == inst.finalizers
            && end.inst.deleting == inst.deleting
  {
    var verb := VerbFor(cfg.subroutines[i], inst);
    RanIsFrozen(w0, i, verb, step.outcome);
    var w1 := if verb.Skip? then w0 else Log(w0, Ran(i, verb, step.outcome));
    AwaitIsMild(w1, step.patch.before);
    MildIsFrozen(w1, Await(w1, step.patch.before));
    FrozenTrans(w0, w1, Await(w1, step.patch.before));
  }

  /** A turn on an object not marked for deletion changes no finalizers. */
  lemma TurnIsFrozen(cfg: Config, ins: Inputs, deletion: bool, k: nat, w: World, inst: Object)
    requires k < |cfg.subroutines| && !inst.deleting
    ensures var end := Turn(cfg, ins, deletion, k, w, inst);
            Frozen(w, end.world) && end.inst.finalizers == inst.finalizers && !end.inst.deleting
  {
    var i := Position(cfg, deletion, k);
    var prepared := ProcessingIfMissing(cfg, inst, cfg.subroutines[i].name, deletion, ins.now);
    SubroutineIsFrozen(cfg, w, prepared, i, StepAt(ins, k), ins.now);
  }

  lemma StopRunIsFrozen(
    cfg: Config, ins: Inputs, original: Object, deletion: bool, i: nat, end: SubroutineEnd, acc: int, w: World)
    requires i < |cfg.subroutines| && end.error.Some? && Frozen(w, end.world)
    ensures Frozen(w, StopRun(cfg, ins, original, deletion, i, end, acc).world)
  {
    var done := StopRun(cfg, ins, original, deletion, i, end, acc);
    StopRunIsMild(cfg, ins, original, deletion, i, end, acc);
    MildIsFrozen(end.world, done.world);
    FrozenTrans(w, end.world, done.world);
  }

  function WorldOf(end: LoopEnd): World {
    if end.Stopped? then end.done.world else end.world
  }

  lemma {:induction false} ProcessingIsFrozen(
    cfg: Config, ins: Inputs, original: Object, deletion: bool, k: nat, w: World, inst: Object, acc: int)
    requires k <= |cfg.subroutines| && !inst.deleting
    ensures Frozen(w, WorldOf(RunSubroutines(cfg, ins, original, deletion, k, w, inst, acc)))
    decreases |cfg.subroutines| - k
  {
    RanIsFrozen(w, 0, Skip, StepAt(ins, k).outcome);
    if k < |cfg.subroutines| {
      var end := Turn(cfg, ins, deletion, k, w, inst);
      TurnIsFrozen(cfg, ins, deletion, k, w, inst);
      if end.error.Some? {
        StopRunIsFrozen(cfg, ins, original, deletion, Position(cfg, deletion, k), end, acc, w);
      } else {
        var acc' := Fold(acc, end.requeueAfter);
        ProcessingIsFrozen(cfg, ins, original, deletion, k + 1, end.world, end.inst, acc');
        FrozenTrans(w, end.world,
          WorldOf(RunSubroutines(cfg, ins, original, deletion, k + 1, end.world, end.inst, acc')));
      }
    }
  }

  /** Whatever a subroutine does, the trace only grows. */
  lemma SubroutineExtends(cfg: Config, w0: World, inst: Object, i: nat, step: Step, now: int)
    requires i < |cfg.subroutines|
    ensures w0.trace <= ReconcileSubroutine(cfg, w0, inst, i, step, now).world.trace
  {
    var verb := VerbFor(cfg.subroutines[i], inst);
    var w1 := if verb.Skip? then w0 else Log(w0, Ran(i, verb, step.outcome));
    AwaitIsMild(w1, step.patch.before);
  }

  lemma TurnExtends(cfg: Config, ins: Inputs, deletion: bool, k: nat, w: World, inst: Object)
    requires k < |cfg.subroutines|
    ensures w.trace <= Turn(cfg, ins, deletion, k, w, inst).world.trace
  {
    var i := Position(cfg, deletion, k);
    var prepared := ProcessingIfMissing(cfg, inst, cfg.subroutines[i].name, deletion, ins.now);
    SubroutineExtends(cfg, w, prepared, i, StepAt(ins, k), ins.now);
  }

  /** The loop, one turn at a time. */
  lemma LoopStep(
    cfg: Config, ins: Inputs, original: Object, deletion: bool, k: nat, w: World, inst: Object, acc: int)
    requires k < |cfg.subroutines|
    ensures var end := Turn(cfg, ins, deletion, k, w, inst);
            RunSubroutines(cfg, ins, original, deletion, k, w, inst, acc) ==
            if end.error.Some?
            then Stopped(StopRun(cfg, ins, original, deletion, Position(cfg, deletion, k), end, acc))
            else RunSubroutines(
              cfg, ins, original, deletion, k + 1, end.world, end.inst, Fold(acc, end.requeueAfter))
  {
  }

  lemma {:induction false} LoopExtends(
    cfg: Config, ins: Inputs, original: Object, deletion: bool, k: nat, w: World, inst: Object, acc: int)
    requires k <= |cfg.subroutines|
    ensures w.trace <= WorldOf(RunSubroutines(cfg, ins, original, deletion, k, w, inst, acc)).trace
    decreases |cfg.subroutines| - k
  {
    if k < |cfg.subroutines| {
      var end := Turn(cfg, ins, deletion, k, w, inst);
      TurnExtends(cfg, ins, deletion, k, w, inst);
      if end.error.Some? {
        StopRunIsMild(cfg, ins, original, deletion, Position(cfg, deletion, k), end, acc);
      } else {
        LoopExtends(cfg, ins, original, deletion, k + 1, end.world, end.inst, Fold(acc, end.requeueAfter));
      }
    }
  }
}
