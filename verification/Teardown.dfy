/** Finalization is a stack: whatever errors and failed patches happen, the subroutines that
    still hold finalizers are the first ones of the list. */
module Teardown {
  import opened Options
  import opened Subroutines
  import opened Cluster
  import opened Lifecycle
  import opened Finalizers
  import opened Frames

  /** Exactly the first `n` subroutines have their finalizers in `fs`, each of them all. */
  predicate HeldBy(cfg: Config, fs: seq<string>, n: nat) {
    && n <= |cfg.subroutines|
    && (forall i, f :: 0 <= i < |cfg.subroutines| && f in cfg.subroutines[i].finalizers ==> (f in fs <==> i < n))
  }

  /** The claim about one stored state; before the deletion mark everybody holds on. */
  predicate Stacked(cfg: Config, o: Option<Object>) {
    o.Some? ==>
      exists n | 0 <= n <= |cfg.subroutines| ::
        HeldBy(cfg, o.value.finalizers, n) && (!o.value.deleting ==> n == |cfg.subroutines|)
  }

  /** A finalization that is done, or ends in an error the run sees. */
  predicate Decisive(out: Outcome) {
    out.Done() || out.Cause().Some?
  }

  predicate AllDecisive(tr: seq<Event>) {
    forall k :: 0 <= k < |tr| && tr[k].Ran? && tr[k].verb.Finalize? ==> Decisive(tr[k].outcome)
  }

  predicate StackedThroughout(cfg: Config, tr: seq<Event>) {
    forall k :: 0 <= k < |tr| && tr[k].Stored? ==> Stacked(cfg, tr[k].state)
  }

  predicate Orderly(cfg: Config, w: World) {
    AllDecisive(w.trace) ==> StackedThroughout(cfg, w.trace) && Stacked(cfg, w.stored)
  }

  lemma PrefixDecisive(w: World, w': World)
    requires w.trace <= w'.trace && AllDecisive(w'.trace)
    ensures AllDecisive(w.trace)
  {
    forall k | 0 <= k < |w.trace| && w.trace[k].Ran? && w.trace[k].verb.Finalize?
      ensures Decisive(w.trace[k].outcome)
    {
      assert w'.trace[k] == w.trace[k];
    }
  }

  lemma SameStacked(cfg: Config, a: Option<Object>, b: Option<Object>)
    requires Stacked(cfg, a) && SameFinalizers(a, b)
    ensures Stacked(cfg, b)
  {
  }

  lemma FrozenKeepsOrder(cfg: Config, w: World, w': World)
    requires Orderly(cfg, w) && Frozen(w, w')
    ensures Orderly(cfg, w')
  {
    if AllDecisive(w'.trace) {
      PrefixDecisive(w, w');
      SameStacked(cfg, w.stored, w'.stored);
      forall k | 0 <= k < |w'.trace| && w'.trace[k].Stored? ensures Stacked(cfg, w'.trace[k].state) {
        if k < |w.trace| {
          assert w'.trace[k] == w.trace[k];
        } else {
          SameStacked(cfg, w.stored, w'.trace[k].state);
        }
      }
    }
  }

  /** Taking the last holder's finalizers off: lost replies and refusals included. */
  lemma RemovalOrder(cfg: Config, w: World, inst: Object, i: nat, fault: Fault)
    requires !cfg.readOnly && Disjoint(cfg) && i < |cfg.subroutines|
    requires Orderly(cfg, w) && Linked(w.stored, inst) && inst.deleting && HeldBy(cfg, inst.finalizers, i + 1)
    ensures var a := RemoveFinalizers(cfg, w, inst, cfg.subroutines[i].finalizers, fault);
            && w.trace <= a.world.trace
            && Orderly(cfg, a.world)
            && (a.error.None? ==>
                  Linked(a.world.stored, a.inst) && a.inst.deleting && HeldBy(cfg, a.inst.finalizers, i))
  {
    var removed := cfg.subroutines[i].finalizers;
    var modified := inst.(finalizers := WithoutFinalizers(inst.finalizers, removed));
    WithoutFinalizersMembers(inst.finalizers, removed);
    forall j, f | 0 <= j < |cfg.subroutines| && f in cfg.subroutines[j].finalizers
      ensures f in modified.finalizers <==> j < i
    {
    }
    assert HeldBy(cfg, modified.finalizers, i);
    if modified != inst {
      var w' := PatchObject(w, MergeFrom(inst, modified), fault).0;
      assert Stacked(cfg, Some(modified));
      assert Stacked(cfg, w.stored) ==> Stacked(cfg, w'.stored);
      if AllDecisive(w'.trace) {
        PrefixDecisive(w, w');
        forall k | 0 <= k < |w'.trace| && w'.trace[k].Stored? ensures Stacked(cfg, w'.trace[k].state) {
          if k < |w.trace| {
            assert w'.trace[k] == w.trace[k];
          }
        }
      }
    }
  }

  lemma StepOrder(cfg: Config, w0: World, inst0: Object, i: nat, step: Step, now: int)
    requires !cfg.readOnly && Disjoint(cfg) && i < |cfg.subroutines| && !cfg.subroutines[i].isTerminator
    requires Orderly(cfg, w0) && Linked(w0.stored, inst0) && inst0.deleting
    requires exists n | 0 <= n <= i + 1 :: HeldBy(cfg, inst0.finalizers, n)
    ensures var end := ReconcileSubroutine(cfg, w0, inst0, i, step, now);
            && w0.trace <= end.world.trace
            && Orderly(cfg, end.world)
            && (end.error.None? && AllDecisive(end.world.trace) ==>
                  && Linked(end.world.stored, end.inst)
                  && end.inst.deleting
                  && exists n | 0 <= n <= i :: HeldBy(cfg, end.inst.finalizers, n))
  {
    var n :| 0 <= n <= i + 1 && HeldBy(cfg, inst0.finalizers, n);
    var sub, verb, out := cfg.subroutines[i], VerbFor(cfg.subroutines[i], inst0), step.outcome;
    var end := ReconcileSubroutine(cfg, w0, inst0, i, step, now);
    if verb.Finalize? && out.Done() {
      var f :| f in sub.finalizers && f in inst0.finalizers;
      assert n == i + 1;
      var w1 := Log(w0, Ran(i, verb, out));
      var w := Await(w1, step.patch.before);
      RanIsFrozen(w0, i, verb, out);
      AwaitIsMild(w1, step.patch.before);
      MildIsFrozen(w1, w);
      FrozenTrans(w0, w1, w);
      FrozenKeepsOrder(cfg, w0, w);
      RemovalOrder(cfg, w, inst0.(status := Edited(inst0.status, out.edits, now)), i, step.patch.fault);
    } else {
      SubroutineIsFrozen(cfg, w0, inst0, i, step, now);
      FrozenKeepsOrder(cfg, w0, end.world);
      if end.error.None? && AllDecisive(end.world.trace) {
        if verb.Finalize? {
          assert end.world.trace[|w0.trace|] == Ran(i, verb, out) by {
            AwaitIsMild(Log(w0, Ran(i, verb, out)), step.patch.before);
          }
          assert false;
        }
        forall f | f in sub.finalizers ensures f !in inst0.finalizers {
          assert !Contains(inst0.finalizers, sub.finalizers);
        }
        var m := if n == i + 1 then i else n;
        assert HeldBy(cfg, end.inst.finalizers, m);
      }
    }
  }

  lemma {:induction false} FinalizingOrder(
    cfg: Config, ins: Inputs, original: Object, k: nat, w: World, inst: Object, acc: int)
    requires !cfg.readOnly && Disjoint(cfg) && k <= |cfg.subroutines|
    requires forall i :: 0 <= i < |cfg.subroutines| ==> !cfg.subroutines[i].isTerminator
    requires Orderly(cfg, w)
    requires AllDecisive(w.trace) ==>
               && Linked(w.stored, inst) && inst.deleting
               && exists n | 0 <= n <= |cfg.subroutines| - k :: HeldBy(cfg, inst.finalizers, n)
    ensures Orderly(cfg, WorldOf(RunSubroutines(cfg, ins, original, true, k, w, inst, acc)))
    decreases |cfg.subroutines| - k
  {
    if !AllDecisive(w.trace) {
      var w' := WorldOf(RunSubroutines(cfg, ins, original, true, k, w, inst, acc));
      LoopExtends(cfg, ins, original, true, k, w, inst, acc);
      if AllDecisive(w'.trace) {
        PrefixDecisive(w, w');
      }
    } else if k < |cfg.subroutines| {
      var i := Position(cfg, true, k);
      var prepared := ProcessingIfMissing(cfg, inst, cfg.subroutines[i].name, true, ins.now);
      var end := Turn(cfg, ins, true, k, w, inst);
      StepOrder(cfg, w, prepared, i, StepAt(ins, k), ins.now);
      if end.error.Some? {
        var done := StopRun(cfg, ins, original, true, i, end, acc);
        StopRunIsMild(cfg, ins, original, true, i, end, acc);
        MildIsFrozen(end.world, done.world);
        FrozenKeepsOrder(cfg, end.world, done.world);
      } else {
        FinalizingOrder(cfg, ins, original, k + 1, end.world, end.inst, Fold(acc, end.requeueAfter));
      }
    }
  }

  lemma FinishOrder(cfg: Config, ins: Inputs, original: Object, deletion: bool, w: World, inst: Object, acc: int)
    requires Orderly(cfg, w)
    ensures Orderly(cfg, FinishRun(cfg, ins, original, deletion, w, inst, acc).world)
  {
    var w' := FinishRun(cfg, ins, original, deletion, w, inst, acc).world;
    FinishRunIsMild(cfg, ins, original, deletion, w, inst, acc);
    MildIsFrozen(w, w');
    FrozenKeepsOrder(cfg, w, w');
  }

  /** An object that has everybody's finalizers already gets no patch. */
  lemma NothingToAdd(cfg: Config, w: World, inst: Object, call: Call)
    requires inst.deleting || HeldBy(cfg, inst.finalizers, |cfg.subroutines|)
    ensures AddFinalizers(cfg, w, inst, call) == Attempt(Await(w, call.before), inst, None)
  {
    if !inst.deleting {
      WithAllFinalizersNoop(inst.finalizers, cfg.subroutines);
    }
  }

  lemma LoopOrder(cfg: Config, ins: Inputs, o: Object, w: World, inst: Object)
    requires !cfg.readOnly && Disjoint(cfg)
    requires forall i :: 0 <= i < |cfg.subroutines| ==> !cfg.subroutines[i].isTerminator
    requires Orderly(cfg, w) && Linked(w.stored, inst) && inst.deleting == o.deleting
    requires AllDecisive(w.trace) ==> Stacked(cfg, Some(inst))
    ensures Orderly(cfg, WorldOf(RunSubroutines(cfg, ins, o, o.deleting, 0, w, inst, 0)))
  {
    if o.deleting {
      FinalizingOrder(cfg, ins, o, 0, w, inst, 0);
    } else {
      ProcessingIsFrozen(cfg, ins, o, false, 0, w, inst, 0);
      FrozenKeepsOrder(cfg, w, WorldOf(RunSubroutines(cfg, ins, o, false, 0, w, inst, 0)));
    }
  }

  lemma LoadedOrder(cfg: Config, ins: Inputs, w: World, o: Object)
    requires !cfg.readOnly && Disjoint(cfg)
    requires forall i :: 0 <= i < |cfg.subroutines| ==> !cfg.subroutines[i].isTerminator
    requires Orderly(cfg, w) && w.stored == Some(o)
    ensures Orderly(cfg, RunLoaded(cfg, ins, w, o).world)
  {
    if AllDecisive(w.trace) {
      var w1 := Await(w, ins.add.before);
      AwaitIsMild(w, ins.add.before);
      MildIsFrozen(w, w1);
      FrozenKeepsOrder(cfg, w, w1);
      NothingToAdd(cfg, w, o, ins.add);
      if ins.prepare.None? {
        var inst := ReadyUnknownIfMissing(cfg, o, ins.now);
        var end := RunSubroutines(cfg, ins, o, o.deleting, 0, w1, inst, 0);
        LoopOrder(cfg, ins, o, w1, inst);
        if end.Completed? {
          FinishOrder(cfg, ins, o, o.deleting, end.world, end.inst, end.requeueAfter);
        }
      }
    } else {
      LoadedExtends(cfg, ins, w, o);
      if AllDecisive(RunLoaded(cfg, ins, w, o).world.trace) {
        PrefixDecisive(w, RunLoaded(cfg, ins, w, o).world);
      }
    }
  }

  lemma LoadedExtends(cfg: Config, ins: Inputs, w: World, o: Object)
    ensures w.trace <= RunLoaded(cfg, ins, w, o).world.trace
  {
    var added := AddFinalizers(cfg, w, o, ins.add);
    AwaitIsMild(w, ins.add.before);
    assert w.trace <= added.world.trace;
    if added.error.None? && ins.prepare.None? {
      var inst := ReadyUnknownIfMissing(cfg, added.inst, ins.now);
      var end := RunSubroutines(cfg, ins, o, o.deleting, 0, added.world, inst, 0);
      LoopExtends(cfg, ins, o, o.deleting, 0, added.world, inst, 0);
      if end.Completed? {
        FinishRunIsMild(cfg, ins, o, o.deleting, end.world, end.inst, end.requeueAfter);
      }
    }
  }

  lemma ReconcileOrder(cfg: Config, w0: World, ins: Inputs)
    requires !cfg.readOnly && Disjoint(cfg)
    requires forall i :: 0 <= i < |cfg.subroutines| ==> !cfg.subroutines[i].isTerminator
    requires Orderly(cfg, w0)
    ensures Orderly(cfg, Reconcile(cfg, w0, ins).world)
  {
    var w := Await(w0, ins.get.before);
    AwaitIsMild(w0, ins.get.before);
    MildIsFrozen(w0, w);
    FrozenKeepsOrder(cfg, w0, w);
    if w.stored.Some? {
      LoadedOrder(cfg, ins, w, w.stored.value);
    }
  }

  // ---------------------------------------------------------------- histories

  /** Between runs nobody else touches owned finalizers, and an object that is created
      anew carries all of them. */
  predicate KeepsOut(cfg: Config, a: Action) {
    a.Interfere? ==>
      match a.change
      case DropFinalizer(f) => !Owned(cfg, f)
      case Create(fs, _, _, _) => HeldBy(cfg, fs, |cfg.subroutines|)
      case _ => true
  }

  lemma DisturbOrder(cfg: Config, w: World, c: Change)
    requires Orderly(cfg, w) && KeepsOut(cfg, Interfere(c))
    ensures Orderly(cfg, Disturb(w, c))
  {
    var w' := Disturb(w, c);
    if AllDecisive(w'.trace) {
      PrefixDecisive(w, w');
      if w.stored.Some? && w'.stored.Some? {
        var o, o' := w.stored.value, w'.stored.value;
        var n :| 0 <= n <= |cfg.subroutines| && HeldBy(cfg, o.finalizers, n)
                 && (!o.deleting ==> n == |cfg.subroutines|);
        if c.DropFinalizer? {
          WithoutMembers(o.finalizers, c.finalizer);
          forall i, f | 0 <= i < |cfg.subroutines| && f in cfg.subroutines[i].finalizers ensures f != c.finalizer {
            assert Owned(cfg, f);
          }
        }
        assert HeldBy(cfg, o'.finalizers, n);
      }
      assert Stacked(cfg, w'.stored);
      forall k | 0 <= k < |w'.trace| && w'.trace[k].Stored? ensures Stacked(cfg, w'.trace[k].state) {
        if k < |w.trace| {
          assert w'.trace[k] == w.trace[k];
        }
      }
    }
  }

  lemma {:induction false} PlayOrder(cfg: Config, w: World, h: seq<Action>)
    requires !cfg.readOnly && Disjoint(cfg)
    requires forall i :: 0 <= i < |cfg.subroutines| ==> !cfg.subroutines[i].isTerminator
    requires Orderly(cfg, w) && (forall a :: a in h ==> KeepsOut(cfg, a))
    ensures Orderly(cfg, Play(cfg, w, h))
    decreases |h|
  {
    if h != [] {
      assert h[0] in h;
      match h[0] {
        case Run(ins) => ReconcileOrder(cfg, w, ins);
        case Interfere(c) => DisturbOrder(cfg, w, c);
      }
      PlayOrder(cfg, Act(cfg, w, h[0]), h[1..]);
    }
  }

  /** Stack order. Started with all finalizers on the object, in every history whose
      finalizations are decisive the finalizers left at any moment are exactly those of
      the first so many subroutines. */
  lemma TeardownIsAStack(cfg: Config, o: Object, h: seq<Action>)
    requires !cfg.readOnly && Disjoint(cfg)
    requires forall i :: 0 <= i < |cfg.subroutines| ==> !cfg.subroutines[i].isTerminator
    requires HeldBy(cfg, o.finalizers, |cfg.subroutines|)
    requires forall a :: a in h ==> KeepsOut(cfg, a)
    requires AllDecisive(Play(cfg, World(Some(o), []), h).trace)
    ensures StackedThroughout(cfg, Play(cfg, World(Some(o), []), h).trace)
    ensures Stacked(cfg, Play(cfg, World(Some(o), []), h).stored)
  {
    PlayOrder(cfg, World(Some(o), []), h);
  }
}
