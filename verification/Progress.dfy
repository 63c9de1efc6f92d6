/** Deletion makes progress: owned finalizers only go, foreign ones keep their order, and a
    run in which everything succeeds leaves no owned finalizer behind. */
module Progress {
  import opened Options
  import opened Subroutines
  import opened Cluster
  import opened Lifecycle
  import opened Finalizers
  import opened Frames
  import opened Teardown

  /** From `a` to `b` foreign finalizers stayed in order, no owned one came, and a deletion
      mark stayed. */
  predicate Shrunk(cfg: Config, a: Option<Object>, b: Option<Object>) {
    b.Some? ==>
      && a.Some?
      && (a.value.deleting ==> b.value.deleting)
      && Foreign(cfg, b.value.finalizers) == Foreign(cfg, a.value.finalizers)
      && (forall f :: f in b.value.finalizers && Owned(cfg, f) ==> f in a.value.finalizers)
  }

  predicate Shrinks(cfg: Config, w: World, w': World) {
    && w.trace <= w'.trace
    && Shrunk(cfg, w.stored, w'.stored)
    && (forall k :: |w.trace| <= k < |w'.trace| && w'.trace[k].Stored? ==> Shrunk(cfg, w.stored, w'.trace[k].state))
  }

  lemma ShrinksTrans(cfg: Config, a: World, b: World, c: World)
    requires Shrinks(cfg, a, b) && Shrinks(cfg, b, c)
    ensures Shrinks(cfg, a, c)
  {
    forall k | |a.trace| <= k < |c.trace| && c.trace[k].Stored? ensures Shrunk(cfg, a.stored, c.trace[k].state) {
      if k < |b.trace| {
        assert c.trace[k] == b.trace[k];
      }
    }
  }

  lemma MildShrinks(cfg: Config, w: World, w': World)
    requires Mild(w, w')
    ensures Shrinks(cfg, w, w')
  {
    MildIsFrozen(w, w');
  }

  /** A patch that only takes owned finalizers off a deleting object. */
  lemma PatchShrinks(cfg: Config, w: World, inst: Object, modified: Object, fault: Fault)
    requires Linked(w.stored, inst) && inst.deleting && w.stored.Some?
    requires modified == inst.(finalizers := modified.finalizers) && modified != inst
    requires forall f :: f in modified.finalizers ==> f in inst.finalizers
    requires Foreign(cfg, modified.finalizers) == Foreign(cfg, inst.finalizers)
    ensures var (w', reply) := PatchObject(w, MergeFrom(inst, modified), fault);
            && Shrinks(cfg, w, w')
            && (fault.Served? ==> reply.Replied?)
            && (reply.Replied? ==>
                  Linked(w'.stored, reply.obj) && reply.obj.deleting && reply.obj.finalizers == modified.finalizers)
  {
    var o := w.stored.value;
    var n := ApplyMeta(o, MergeFrom(inst, modified));
    assert n.finalizers == modified.finalizers && n.deleting;
    assert CheckFinalizers(o, n).None?;
    assert Shrunk(cfg, w.stored, Keep(Bump(o, n)));
    assert Shrunk(cfg, w.stored, w.stored);
  }

  /** Removing a subroutine's finalizers: the patch asks for nothing else, and when it is
      served the subroutine holds none any more and everybody else what they held. */
  lemma RemovalShrinks(cfg: Config, w: World, inst: Object, i: nat, fault: Fault)
    requires i < |cfg.subroutines| && Linked(w.stored, inst) && inst.deleting
    ensures var a := RemoveFinalizers(cfg, w, inst, cfg.subroutines[i].finalizers, fault);
            && Shrinks(cfg, w, a.world)
            && (a.error.None? ==> Linked(a.world.stored, a.inst) && a.inst.deleting)
            && (a.error.None? && !cfg.readOnly ==>
                  forall f :: f in a.inst.finalizers <==> f in inst.finalizers && f !in cfg.subroutines[i].finalizers)
            && (a.error.None? && cfg.readOnly ==> a.inst == inst)
            && (fault.Served? ==> a.error.None?)
  {
    var removed := cfg.subroutines[i].finalizers;
    var modified := inst.(finalizers := WithoutFinalizers(inst.finalizers, removed));
    WithoutFinalizersMembers(inst.finalizers, removed);
    if !cfg.readOnly && modified != inst {
      assert modified.finalizers != [] ==> modified.finalizers[0] in inst.finalizers;
      forall f | f in removed ensures Owned(cfg, f) {}
      WithoutFinalizersForeign(cfg, inst.finalizers, removed);
      PatchShrinks(cfg, w, inst, modified, fault);
    } else {
      RanIsFrozen(w, i, Skip, Outcome(0, None, []));
    }
  }

  /** Finalizing a subroutine that holds finalizers, when it is done and its patch is
      served, makes the set of owned finalizers strictly smaller. */
  lemma FinalizeStrictlyShrinks(cfg: Config, w0: World, inst: Object, i: nat, step: Step, now: int)
    requires !cfg.readOnly && i < |cfg.subroutines| && Linked(w0.stored, inst)
    requires VerbFor(cfg.subroutines[i], inst).Finalize? && step.outcome.Done() && step.patch.fault.Served?
    ensures var end := ReconcileSubroutine(cfg, w0, inst, i, step, now);
            && end.error.None?
            && Shrunk(cfg, w0.stored, end.world.stored)
            && exists f :: Owned(cfg, f) && w0.stored.Some? && f in w0.stored.value.finalizers
                 && (end.world.stored.None? || f !in end.world.stored.value.finalizers)
  {
    var sub := cfg.subroutines[i];
    var w1 := Log(w0, Ran(i, Finalize, step.outcome));
    var w := Await(w1, step.patch.before);
    AwaitIsMild(w1, step.patch.before);
    RemovalShrinks(cfg, w, inst.(status := Edited(inst.status, step.outcome.edits, now)), i, Served);
    var f :| f in sub.finalizers && f in inst.finalizers;
    assert Owned(cfg, f);
  }

  /** Up to the answer of the subroutine, and what others do meanwhile. */
  lemma CallShrinks(cfg: Config, w0: World, inst: Object, i: nat, verb: Verb, out: Outcome, before: seq<Nudge>)
    requires Linked(w0.stored, inst)
    ensures var w := Await(if verb.Skip? then w0 else Log(w0, Ran(i, verb, out)), before);
            Shrinks(cfg, w0, w) && Linked(w.stored, inst)
  {
    var w1 := if verb.Skip? then w0 else Log(w0, Ran(i, verb, out));
    var w := Await(w1, before);
    RanIsFrozen(w0, i, verb, out);
    AwaitIsMild(w1, before);
    MildIsFrozen(w1, w);
    FrozenTrans(w0, w1, w);
  }

  lemma StepShrinks(cfg: Config, w0: World, inst: Object, i: nat, step: Step, now: int)
    requires i < |cfg.subroutines| && Linked(w0.stored, inst) && inst.deleting
    ensures var end := ReconcileSubroutine(cfg, w0, inst, i, step, now);
            && Shrinks(cfg, w0, end.world)
            && (end.error.None? ==>
                  && Linked(end.world.stored, end.inst)
                  && end.inst.deleting
                  && (forall f :: f in end.inst.finalizers ==> f in inst.finalizers))
            && (Succeeds(step) ==> end.error.None? && end.requeueAfter == 0)
            && (Succeeds(step) && !cfg.readOnly && !cfg.subroutines[i].isTerminator ==>
                  forall f :: f in end.inst.finalizers ==> f !in cfg.subroutines[i].finalizers)
  {
    var verb, out := VerbFor(cfg.subroutines[i], inst), step.outcome;
    var w1 := if verb.Skip? then w0 else Log(w0, Ran(i, verb, out));
    var w := Await(w1, step.patch.before);
    CallShrinks(cfg, w0, inst, i, verb, out, step.patch.before);
    var end := ReconcileSubroutine(cfg, w0, inst, i, step, now);
    if verb.Finalize? && out.Done() {
      RemovalShrinks(cfg, w, inst.(status := Edited(inst.status, out.edits, now)), i, step.patch.fault);
      ShrinksTrans(cfg, w0, w, end.world);
    } else if verb.Skip? {
      assert !Contains(inst.finalizers, cfg.subroutines[i].finalizers);
    }
  }

  /** The subroutine is done and the patch after it is served. */
  predicate Succeeds(step: Step) {
    step.outcome.Done() && step.patch.fault.Served?
  }

  predicate AllSucceed(cfg: Config, ins: Inputs) {
    forall k :: 0 <= k < |cfg.subroutines| ==> Succeeds(StepAt(ins, k))
  }

  /** No finalizer of the last `k` subroutines is on the instance. */
  predicate Released(cfg: Config, inst: Object, k: nat) {
    forall i, f :: |cfg.subroutines| - k <= i < |cfg.subroutines| && 0 <= i && f in cfg.subroutines[i].finalizers
      ==> f !in inst.finalizers
  }

  lemma TurnShrinks(cfg: Config, ins: Inputs, k: nat, w: World, inst: Object)
    requires k < |cfg.subroutines| && Linked(w.stored, inst) && inst.deleting
    ensures var end := Turn(cfg, ins, true, k, w, inst);
            && Shrinks(cfg, w, end.world)
            && (end.error.None? ==> Linked(end.world.stored, end.inst) && end.inst.deleting)
            && (Succeeds(StepAt(ins, k)) ==> end.error.None? && end.requeueAfter == 0)
  {
    var i := Position(cfg, true, k);
    var prepared := ProcessingIfMissing(cfg, inst, cfg.subroutines[i].name, true, ins.now);
    StepShrinks(cfg, w, prepared, i, StepAt(ins, k), ins.now);
  }

  lemma TurnReleases(cfg: Config, ins: Inputs, k: nat, w: World, inst: Object)
    requires k < |cfg.subroutines| && Linked(w.stored, inst) && inst.deleting
    requires Succeeds(StepAt(ins, k)) && !cfg.readOnly && ReleasesTerminators(cfg) && Released(cfg, inst, k)
    ensures Released(cfg, Turn(cfg, ins, true, k, w, inst).inst, k + 1)
  {
    var i := Position(cfg, true, k);
    var prepared := ProcessingIfMissing(cfg, inst, cfg.subroutines[i].name, true, ins.now);
    StepShrinks(cfg, w, prepared, i, StepAt(ins, k), ins.now);
    var end := ReconcileSubroutine(cfg, w, prepared, i, StepAt(ins, k), ins.now);
    assert Turn(cfg, ins, true, k, w, inst).inst.finalizers == end.inst.finalizers;
  }

  /** Terminator subroutines own no finalizers. */
  predicate ReleasesTerminators(cfg: Config) {
    forall i :: 0 <= i < |cfg.subroutines| && cfg.subroutines[i].isTerminator ==> cfg.subroutines[i].finalizers == []
  }

  lemma {:induction false} FinalizingShrinks(
    cfg: Config, ins: Inputs, original: Object, k: nat, w: World, inst: Object, acc: int)
    requires k <= |cfg.subroutines| && Linked(w.stored, inst) && inst.deleting
    ensures var end := RunSubroutines(cfg, ins, original, true, k, w, inst, acc);
            && Shrinks(cfg, w, WorldOf(end))
            && (end.Completed? ==> Linked(end.world.stored, end.inst) && end.inst.deleting)
    decreases |cfg.subroutines| - k
  {
    RanIsFrozen(w, 0, Skip, StepAt(ins, k).outcome);
    if k < |cfg.subroutines| {
      var end := Turn(cfg, ins, true, k, w, inst);
      TurnShrinks(cfg, ins, k, w, inst);
      if end.error.Some? {
        var i := Position(cfg, true, k);
        var done := StopRun(cfg, ins, original, true, i, end, acc);
        StopRunIsMild(cfg, ins, original, true, i, end, acc);
        MildShrinks(cfg, end.world, done.world);
        ShrinksTrans(cfg, w, end.world, done.world);
      } else {
        var acc' := Fold(acc, end.requeueAfter);
        FinalizingShrinks(cfg, ins, original, k + 1, end.world, end.inst, acc');
        ShrinksTrans(cfg, w, end.world,
          WorldOf(RunSubroutines(cfg, ins, original, true, k + 1, end.world, end.inst, acc')));
      }
    }
  }

  lemma {:induction false} FinalizingReleases(
    cfg: Config, ins: Inputs, original: Object, k: nat, w: World, inst: Object)
    requires k <= |cfg.subroutines| && Linked(w.stored, inst) && inst.deleting
    requires AllSucceed(cfg, ins) && !cfg.readOnly && ReleasesTerminators(cfg) && Released(cfg, inst, k)
    ensures var end := RunSubroutines(cfg, ins, original, true, k, w, inst, 0);
            end.Completed? && Linked(end.world.stored, end.inst) && Released(cfg, end.inst, |cfg.subroutines|)
    decreases |cfg.subroutines| - k
  {
    if k < |cfg.subroutines| {
      var end := Turn(cfg, ins, true, k, w, inst);
      TurnShrinks(cfg, ins, k, w, inst);
      TurnReleases(cfg, ins, k, w, inst);
      FinalizingReleases(cfg, ins, original, k + 1, end.world, end.inst);
    }
  }

  /** In a run on a deleting object no stored state ever gains an owned finalizer or has
      the foreign ones in another order. */
  lemma DeletionRunShrinks(cfg: Config, w0: World, ins: Inputs)
    requires w0.stored.Some? && w0.stored.value.deleting
    ensures Shrinks(cfg, w0, Reconcile(cfg, w0, ins).world)
  {
    var w := Await(w0, ins.get.before);
    AwaitIsMild(w0, ins.get.before);
    MildShrinks(cfg, w0, w);
    if ins.get.fault.Served? && w.stored.Some? {
      var o := w.stored.value;
      var w1 := Await(w, ins.add.before);
      AwaitIsMild(w, ins.add.before);
      MildShrinks(cfg, w, w1);
      ShrinksTrans(cfg, w0, w, w1);
      NothingToAdd(cfg, w, o, ins.add);
      if ins.prepare.None? {
        var inst := ReadyUnknownIfMissing(cfg, o, ins.now);
        var end := RunSubroutines(cfg, ins, o, true, 0, w1, inst, 0);
        FinalizingShrinks(cfg, ins, o, 0, w1, inst, 0);
        ShrinksTrans(cfg, w0, w1, WorldOf(end));
        if end.Completed? {
          FinishRunIsMild(cfg, ins, o, true, end.world, end.inst, end.requeueAfter);
          MildShrinks(cfg, end.world, FinishRun(cfg, ins, o, true, end.world, end.inst, end.requeueAfter).world);
          ShrinksTrans(cfg, w0, end.world, FinishRun(cfg, ins, o, true, end.world, end.inst, end.requeueAfter).world);
        }
      }
    }
  }

  /** One run on a deleting object whose subroutines are all done and whose finalizer
      patches are all served leaves no owned finalizer, whatever becomes of its other
      requests. With no foreign finalizer left the object is gone. */
  lemma OneGoodRunReleasesAll(cfg: Config, w0: World, ins: Inputs)
    requires w0.stored.Some? && w0.stored.value.deleting && !cfg.readOnly
    requires AllSucceed(cfg, ins) && ins.get.fault.Served? && ins.prepare.None?
    requires ReleasesTerminators(cfg)
    ensures var stored := Reconcile(cfg, w0, ins).world.stored;
            stored.Some? ==> forall f :: f in stored.value.finalizers ==> !Owned(cfg, f)
  {
    var w := Await(w0, ins.get.before);
    AwaitIsMild(w0, ins.get.before);
    if w.stored.Some? {
      var o := w.stored.value;
      var w1 := Await(w, ins.add.before);
      AwaitIsMild(w, ins.add.before);
      NothingToAdd(cfg, w, o, ins.add);
      var inst := ReadyUnknownIfMissing(cfg, o, ins.now);
      FinalizingReleases(cfg, ins, o, 0, w1, inst);
      var end := RunSubroutines(cfg, ins, o, true, 0, w1, inst, 0);
      FinishRunIsMild(cfg, ins, o, true, end.world, end.inst, end.requeueAfter);
    }
  }

  // ---------------------------------------------------------------- histories

  predicate OwnedSubset(cfg: Config, a: Object, b: Option<Object>) {
    b.Some? ==> b.value.deleting && forall f :: f in b.value.finalizers && Owned(cfg, f) ==> f in a.finalizers
  }

  /** Over a whole history without a new object, owned finalizers never come back once the
      deletion mark is set, and the mark stays. */
  lemma {:induction false} OwnedNeverGrows(cfg: Config, o: Object, w: World, h: seq<Action>)
    requires OwnedSubset(cfg, o, w.stored)
    requires forall a :: a in h && a.Interfere? ==> !a.change.Create?
    ensures OwnedSubset(cfg, o, Play(cfg, w, h).stored)
    decreases |h|
  {
    if h != [] {
      assert h[0] in h;
      var w' := Act(cfg, w, h[0]);
      if w.stored.Some? {
        match h[0] {
          case Run(ins) =>
            DeletionRunShrinks(cfg, w, ins);
          case Interfere(c) =>
            if c.DropFinalizer? {
              WithoutMembers(w.stored.value.finalizers, c.finalizer);
            }
        }
      } else {
        match h[0] {
          case Run(ins) => assert Await(w, ins.get.before) == w;
          case Interfere(c) =>
        }
      }
      OwnedNeverGrows(cfg, o, w', h[1..]);
    }
  }
}
