/** Once a subroutine has worked on an object, the object keeps the subroutine's finalizers
    until that subroutine has finalized it: at every moment of every history. */
module FinalizerSafety {
  import opened Options
  import opened Subroutines
  import opened Cluster
  import opened Lifecycle
  import opened Finalizers
  import opened Frames

  /** Subroutine `i` has worked on the object and not finalized it since. */
  predicate Owes(tr: seq<Event>, i: nat)
    decreases |tr|
  {
    tr != [] &&
    var e := tr[|tr| - 1];
    if e.Ran? && e.sub == i && (e.verb.Process? || e.verb.Initialize?) then true
    else if e.Ran? && e.sub == i && e.verb.Finalize? && e.outcome.Done() then false
    else Owes(tr[..|tr| - 1], i)
  }

  predicate Holds(o: Option<Object>, fs: seq<string>) {
    forall f :: f in fs ==> o.Some? && f in o.value.finalizers
  }

  predicate Protected(cfg: Config, o: Option<Object>, tr: seq<Event>) {
    forall i :: 0 <= i < |cfg.subroutines| && Owes(tr, i) ==> Holds(o, cfg.subroutines[i].finalizers)
  }

  /** The claim: at every moment, every subroutine that owes a finalization is protected. */
  predicate SafeThroughout(cfg: Config, init: Option<Object>, tr: seq<Event>) {
    forall k :: 0 <= k <= |tr| ==> Protected(cfg, StoredAfter(init, tr[..k]), tr[..k])
  }

  ghost predicate Safe(cfg: Config, init: Option<Object>, w: World) {
    SafeThroughout(cfg, init, w.trace) && StoredAfter(init, w.trace) == w.stored
  }

  // ---------------------------------------------------------------- one event at a time

  lemma Extend(cfg: Config, init: Option<Object>, w: World, e: Event)
    requires Safe(cfg, init, w)
    requires Protected(cfg, if e.Stored? then e.state else w.stored, w.trace + [e])
    ensures Safe(cfg, init, World(if e.Stored? then e.state else w.stored, w.trace + [e]))
  {
    var tr := w.trace + [e];
    assert tr[..|tr| - 1] == w.trace;
    forall k | 0 <= k <= |tr| ensures Protected(cfg, StoredAfter(init, tr[..k]), tr[..k]) {
      if k < |tr| {
        assert tr[..k] == w.trace[..k];
      } else {
        assert tr[..k] == tr;
      }
    }
  }

  lemma NowProtected(cfg: Config, init: Option<Object>, w: World)
    requires Safe(cfg, init, w)
    ensures Protected(cfg, w.stored, w.trace)
  {
    assert w.trace[..|w.trace|] == w.trace;
  }

  /** `n` mild events after a safe state lead to a safe trace whose stored state still has
      the finalizers of the beginning. */
  lemma {:induction false} MildPrefix(cfg: Config, init: Option<Object>, w: World, w': World, n: nat)
    requires Safe(cfg, init, w) && Mild(w, w') && |w.trace| <= n <= |w'.trace|
    ensures var o := StoredAfter(init, w'.trace[..n]);
            Safe(cfg, init, World(o, w'.trace[..n])) && SameFinalizers(w.stored, o)
    decreases n
  {
    if n == |w.trace| {
      assert w'.trace[..n] == w.trace;
    } else {
      MildPrefix(cfg, init, w, w', n - 1);
      var tr := w'.trace[..n - 1];
      var o := StoredAfter(init, tr);
      var e := w'.trace[n - 1];
      assert w'.trace[..n] == tr + [e];
      assert MildEvent(w.stored, e);
      NowProtected(cfg, init, w);
      NowProtected(cfg, init, World(o, tr));
      var o' := if e.Stored? then e.state else o;
      forall i | 0 <= i < |cfg.subroutines| && Owes(tr + [e], i)
        ensures Holds(o', cfg.subroutines[i].finalizers)
      {
        OwesAcrossMild(w, w', n - 1, i);
      }
      Extend(cfg, init, World(o, tr), e);
      assert (tr + [e])[..|tr|] == tr;
    }
  }

  lemma {:induction false} OwesAcrossMild(w: World, w': World, n: nat, i: nat)
    requires Mild(w, w') && |w.trace| <= n <= |w'.trace|
    ensures Owes(w'.trace[..n], i) == Owes(w.trace, i)
    decreases n
  {
    if n == |w.trace| {
      assert w'.trace[..n] == w.trace;
    } else {
      OwesAcrossMild(w, w', n - 1, i);
      assert w'.trace[..n] == w'.trace[..n - 1] + [w'.trace[n - 1]];
      assert MildEvent(w.stored, w'.trace[n - 1]);
    }
  }

  lemma MildKeepsSafe(cfg: Config, init: Option<Object>, w: World, w': World)
    requires Safe(cfg, init, w) && Mild(w, w')
    ensures Safe(cfg, init, w')
  {
    MildPrefix(cfg, init, w, w', |w'.trace|);
    assert w'.trace[..|w'.trace|] == w'.trace;
    StoredAfterConcat(init, w.trace, w'.trace[|w.trace|..]);
    assert w'.trace == w.trace + w'.trace[|w.trace|..];
  }

  // ---------------------------------------------------------------- the parts of a run

  predicate AllPresent(cfg: Config, inst: Object) {
    forall i, f :: 0 <= i < |cfg.subroutines| && f in cfg.subroutines[i].finalizers ==> f in inst.finalizers
  }

  /** A change of the stored object that keeps the finalizers of all who are still owed. */
  lemma PutKeepsSafe(cfg: Config, init: Option<Object>, w: World, stored: Option<Object>)
    requires Safe(cfg, init, w)
    requires forall i :: 0 <= i < |cfg.subroutines| && Owes(w.trace, i) ==> Holds(stored, cfg.subroutines[i].finalizers)
    ensures Safe(cfg, init, Put(w, stored))
  {
    if stored != w.stored {
      forall i | 0 <= i < |cfg.subroutines| && Owes(w.trace + [Stored(stored)], i)
        ensures Holds(stored, cfg.subroutines[i].finalizers)
      {
      }
      Extend(cfg, init, w, Stored(stored));
    }
  }

  lemma LogKeepsSafe(cfg: Config, init: Option<Object>, w: World, e: Event)
    requires Safe(cfg, init, w) && !e.Ran? && !e.Stored?
    ensures Safe(cfg, init, Log(w, e))
  {
    LogIsMild(w, e);
    MildKeepsSafe(cfg, init, w, Log(w, e));
  }

  /** A finalizer patch is safe when the list it sends keeps everything that is owed. On
      success the instance is the stored object again. */
  lemma PatchSafe(cfg: Config, init: Option<Object>, w: World, inst: Object, modified: Object, fault: Fault)
    requires Safe(cfg, init, w) && Linked(w.stored, inst)
    requires modified == inst.(finalizers := modified.finalizers) && modified != inst
    requires forall i :: 0 <= i < |cfg.subroutines| && Owes(w.trace, i) ==>
               Holds(Some(modified), cfg.subroutines[i].finalizers)
    ensures var (w', reply) := PatchObject(w, MergeFrom(inst, modified), fault);
            && Safe(cfg, init, w')
            && (reply.Replied? ==>
                  && w.stored.Some?
                  && Linked(w'.stored, reply.obj)
                  && reply.obj.finalizers == modified.finalizers
                  && reply.obj.deleting == w.stored.value.deleting
                  && CheckFinalizers(w.stored.value, reply.obj).None?)
  {
    var p := MergeFrom(inst, modified);
    NowProtected(cfg, init, w);
    var w1 := w;
    if w.stored.Some? {
      var o := w.stored.value;
      var n := ApplyMeta(o, p);
      var stored := Keep(Bump(o, n));
      forall i | 0 <= i < |cfg.subroutines| && Owes(w.trace, i)
        ensures Holds(stored, cfg.subroutines[i].finalizers)
      {
        assert Holds(Some(modified), cfg.subroutines[i].finalizers);
      }
      PutKeepsSafe(cfg, init, w, stored);
      w1 := Write(w, CheckFinalizers(o, n), n, fault).0;
    }
    var w2 := PatchObject(w, p, fault).0;
    LogKeepsSafe(cfg, init, w1, w2.trace[|w2.trace| - 1]);
  }

  lemma AddFinalizersSafe(cfg: Config, init: Option<Object>, w: World, inst: Object, call: Call)
    requires !cfg.readOnly && Safe(cfg, init, w) && Linked(w.stored, inst)
    ensures var a := AddFinalizers(cfg, w, inst, call);
            && Safe(cfg, init, a.world)
            && (a.error.None? ==>
                  && Linked(a.world.stored, a.inst)
                  && a.inst.deleting == inst.deleting
                  && (!a.inst.deleting ==> AllPresent(cfg, a.inst)))
  {
    var w1 := Await(w, call.before);
    AwaitIsMild(w, call.before);
    MildKeepsSafe(cfg, init, w, w1);
    WithAllFinalizersMembers(inst.finalizers, cfg.subroutines);
    var modified := inst.(finalizers := WithAllFinalizers(inst.finalizers, cfg.subroutines));
    if !inst.deleting && modified != inst {
      NowProtected(cfg, init, w1);
      forall i | 0 <= i < |cfg.subroutines| && Owes(w1.trace, i)
        ensures Holds(Some(modified), cfg.subroutines[i].finalizers)
      {
      }
      PatchSafe(cfg, init, w1, inst, modified, call.fault);
    }
  }

  lemma RanSafe(cfg: Config, init: Option<Object>, w: World, inst: Object, i: nat, verb: Verb, out: Outcome)
    requires Safe(cfg, init, w) && Linked(w.stored, inst) && i < |cfg.subroutines|
    requires verb.Process? || verb.Initialize? ==> AllPresent(cfg, inst)
    ensures Safe(cfg, init, Log(w, Ran(i, verb, out)))
    ensures verb.Finalize? && out.Done() ==> !Owes(Log(w, Ran(i, verb, out)).trace, i)
  {
    NowProtected(cfg, init, w);
    forall j | 0 <= j < |cfg.subroutines| && Owes(w.trace + [Ran(i, verb, out)], j)
      ensures Holds(w.stored, cfg.subroutines[j].finalizers)
    {
      if !Owes(w.trace, j) {
        forall f | f in cfg.subroutines[j].finalizers
          ensures w.stored.Some? && f in w.stored.value.finalizers
        {
          assert f in inst.finalizers;
        }
      }
    }
    Extend(cfg, init, w, Ran(i, verb, out));
  }

  lemma RemoveFinalizersSafe(cfg: Config, init: Option<Object>, w: World, inst: Object, i: nat, fault: Fault)
    requires !cfg.readOnly && Disjoint(cfg) && i < |cfg.subroutines|
    requires Safe(cfg, init, w) && Linked(w.stored, inst) && !Owes(w.trace, i) && inst.deleting
    ensures var a := RemoveFinalizers(cfg, w, inst, cfg.subroutines[i].finalizers, fault);
            && Safe(cfg, init, a.world)
            && (a.error.None? ==> Linked(a.world.stored, a.inst) && a.inst.deleting)
  {
    var removed := cfg.subroutines[i].finalizers;
    var modified := inst.(finalizers := WithoutFinalizers(inst.finalizers, removed));
    WithoutFinalizersMembers(inst.finalizers, removed);
    NowProtected(cfg, init, w);
    forall j | 0 <= j < |cfg.subroutines| && Owes(w.trace, j)
      ensures Holds(Some(modified), cfg.subroutines[j].finalizers)
    {
      assert Holds(w.stored, cfg.subroutines[j].finalizers);
    }
    if modified != inst {
      PatchSafe(cfg, init, w, inst, modified, fault);
    }
  }

  /** Up to the answer of the subroutine, and what others do meanwhile. */
  lemma CallSafe(
    cfg: Config, init: Option<Object>, w0: World, inst: Object, i: nat, verb: Verb, out: Outcome, before: seq<Nudge>)
    requires Safe(cfg, init, w0) && Linked(w0.stored, inst) && i < |cfg.subroutines|
    requires verb.Process? || verb.Initialize? ==> AllPresent(cfg, inst)
    ensures var w := Await(if verb.Skip? then w0 else Log(w0, Ran(i, verb, out)), before);
            && Safe(cfg, init, w)
            && Linked(w.stored, inst)
            && (verb.Finalize? && out.Done() ==> !Owes(w.trace, i))
  {
    var w1 := if verb.Skip? then w0 else Log(w0, Ran(i, verb, out));
    var w := Await(w1, before);
    if !verb.Skip? {
      RanSafe(cfg, init, w0, inst, i, verb, out);
    }
    AwaitIsMild(w1, before);
    MildKeepsSafe(cfg, init, w1, w);
    OwesAcrossMild(w1, w, |w.trace|, i);
    assert w.trace[..|w.trace|] == w.trace;
  }

  lemma SubroutineSafe(cfg: Config, init: Option<Object>, w0: World, inst0: Object, i: nat, step: Step, now: int)
    requires !cfg.readOnly && Disjoint(cfg) && i < |cfg.subroutines|
    requires Safe(cfg, init, w0) && Linked(w0.stored, inst0) && (!inst0.deleting ==> AllPresent(cfg, inst0))
    ensures var end := ReconcileSubroutine(cfg, w0, inst0, i, step, now);
            && Safe(cfg, init, end.world)
            && (end.error.None? ==>
                  && Linked(end.world.stored, end.inst)
                  && (!end.inst.deleting ==> AllPresent(cfg, end.inst)))
  {
    var verb, out := VerbFor(cfg.subroutines[i], inst0), step.outcome;
    var w := Await(if verb.Skip? then w0 else Log(w0, Ran(i, verb, out)), step.patch.before);
    CallSafe(cfg, init, w0, inst0, i, verb, out, step.patch.before);
    if verb.Finalize? && out.Done() {
      var inst := inst0.(status := Edited(inst0.status, out.edits, now));
      RemoveFinalizersSafe(cfg, init, w, inst, i, step.patch.fault);
    }
  }

  lemma TurnSafe(cfg: Config, init: Option<Object>, ins: Inputs, deletion: bool, k: nat, w: World, inst: Object)
    requires !cfg.readOnly && Disjoint(cfg) && k < |cfg.subroutines|
    requires Safe(cfg, init, w) && Linked(w.stored, inst) && (!inst.deleting ==> AllPresent(cfg, inst))
    ensures var end := Turn(cfg, ins, deletion, k, w, inst);
            && Safe(cfg, init, end.world)
            && (end.error.None? ==>
                  && Linked(end.world.stored, end.inst)
                  && (!end.inst.deleting ==> AllPresent(cfg, end.inst)))
  {
    var i := Position(cfg, deletion, k);
    var prepared := ProcessingIfMissing(cfg, inst, cfg.subroutines[i].name, deletion, ins.now);
    SubroutineSafe(cfg, init, w, prepared, i, StepAt(ins, k), ins.now);
  }

  lemma StopSafe(
    cfg: Config, init: Option<Object>, ins: Inputs, original: Object, deletion: bool,
    i: nat, end: SubroutineEnd, acc: int)
    requires i < |cfg.subroutines| && end.error.Some? && Safe(cfg, init, end.world)
    ensures Safe(cfg, init, StopRun(cfg, ins, original, deletion, i, end, acc).world)
  {
    StopRunIsMild(cfg, ins, original, deletion, i, end, acc);
    MildKeepsSafe(cfg, init, end.world, StopRun(cfg, ins, original, deletion, i, end, acc).world);
  }

  lemma {:induction false} LoopSafe(
    cfg: Config, init: Option<Object>, ins: Inputs, original: Object, deletion: bool,
    k: nat, w: World, inst: Object, acc: int)
    requires !cfg.readOnly && Disjoint(cfg) && k <= |cfg.subroutines|
    requires Safe(cfg, init, w) && Linked(w.stored, inst) && (!inst.deleting ==> AllPresent(cfg, inst))
    ensures Safe(cfg, init, WorldOf(RunSubroutines(cfg, ins, original, deletion, k, w, inst, acc)))
    decreases |cfg.subroutines| - k
  {
    if k < |cfg.subroutines| {
      var end := Turn(cfg, ins, deletion, k, w, inst);
      TurnSafe(cfg, init, ins, deletion, k, w, inst);
      var loop := RunSubroutines(cfg, ins, original, deletion, k, w, inst, acc);
      if end.error.Some? {
        StopSafe(cfg, init, ins, original, deletion, Position(cfg, deletion, k), end, acc);
        assert loop == Stopped(StopRun(cfg, ins, original, deletion, Position(cfg, deletion, k), end, acc));
      } else {
        LoopSafe(cfg, init, ins, original, deletion, k + 1, end.world, end.inst, Fold(acc, end.requeueAfter));
        var acc' := Fold(acc, end.requeueAfter);
        assert loop == RunSubroutines(cfg, ins, original, deletion, k + 1, end.world, end.inst, acc');
      }
    }
  }

  /** One run keeps the claim, whatever happens in it. */
  lemma ReconcileSafe(cfg: Config, init: Option<Object>, w0: World, ins: Inputs)
    requires !cfg.readOnly && Disjoint(cfg) && Safe(cfg, init, w0)
    ensures Safe(cfg, init, Reconcile(cfg, w0, ins).world)
  {
    var w := Await(w0, ins.get.before);
    AwaitIsMild(w0, ins.get.before);
    MildKeepsSafe(cfg, init, w0, w);
    if ins.get.fault.Served? && w.stored.Some? && !Quiet(cfg, w.stored.value, ins.now) {
      var o := w.stored.value;
      var added := AddFinalizers(cfg, w, o, ins.add);
      AddFinalizersSafe(cfg, init, w, o, ins.add);
      if added.error.None? && ins.prepare.None? {
        var inst := ReadyUnknownIfMissing(cfg, added.inst, ins.now);
        LoopSafe(cfg, init, ins, o, o.deleting, 0, added.world, inst, 0);
        match RunSubroutines(cfg, ins, o, o.deleting, 0, added.world, inst, 0)
        case Stopped(_) =>
        case Completed(w', inst', acc) =>
          FinishRunIsMild(cfg, ins, o, o.deleting, w', inst', acc);
          MildKeepsSafe(cfg, init, w', FinishRun(cfg, ins, o, o.deleting, w', inst', acc).world);
      }
    }
  }

  // ---------------------------------------------------------------- histories

  /** Nobody else takes an owned finalizer off between runs. */
  predicate LeavesOwned(cfg: Config, a: Action) {
    a.Interfere? && a.change.DropFinalizer? ==> !Owned(cfg, a.change.finalizer)
  }

  lemma DisturbSafe(cfg: Config, init: Option<Object>, w: World, c: Change)
    requires Safe(cfg, init, w) && LeavesOwned(cfg, Interfere(c))
    ensures Safe(cfg, init, Disturb(w, c))
  {
    NowProtected(cfg, init, w);
    var stored := match w.stored
      case None => if c.Create? then Some(Fresh(c)) else None
      case Some(o) => Keep(Changed(o, c));
    forall i | 0 <= i < |cfg.subroutines| && Owes(w.trace, i)
      ensures Holds(stored, cfg.subroutines[i].finalizers)
    {
      assert Holds(w.stored, cfg.subroutines[i].finalizers);
      if c.DropFinalizer? && w.stored.Some? {
        WithoutMembers(w.stored.value.finalizers, c.finalizer);
        forall f | f in cfg.subroutines[i].finalizers ensures f != c.finalizer {
          assert Owned(cfg, f);
        }
      }
    }
    PutKeepsSafe(cfg, init, w, stored);
  }

  lemma {:induction false} PlaySafe(cfg: Config, init: Option<Object>, w: World, h: seq<Action>)
    requires !cfg.readOnly && Disjoint(cfg) && Safe(cfg, init, w)
    requires forall a :: a in h ==> LeavesOwned(cfg, a)
    ensures Safe(cfg, init, Play(cfg, w, h))
    decreases |h|
  {
    if h != [] {
      assert h[0] in h;
      match h[0] {
        case Run(ins) => ReconcileSafe(cfg, init, w, ins);
        case Interfere(c) => DisturbSafe(cfg, init, w, c);
      }
      PlaySafe(cfg, init, Act(cfg, w, h[0]), h[1..]);
    }
  }

  /** Finalizer safety. In every history from any stored object, at every moment, a
      subroutine that has processed or initialized the object and has not finalized it
      since finds all its finalizers on the stored object. */
  lemma FinalizersOutliveWork(cfg: Config, init: Option<Object>, h: seq<Action>)
    requires !cfg.readOnly && Disjoint(cfg)
    requires forall a :: a in h ==> LeavesOwned(cfg, a)
    ensures SafeThroughout(cfg, init, Play(cfg, World(init, []), h).trace)
  {
    assert Safe(cfg, init, World(init, []));
    PlaySafe(cfg, init, World(init, []), h);
  }

  /** So an object never disappears while a subroutine with finalizers has work on it. */
  lemma NeverVanishesUnfinalized(cfg: Config, init: Option<Object>, h: seq<Action>, k: nat, i: nat)
    requires !cfg.readOnly && Disjoint(cfg) && (forall a :: a in h ==> LeavesOwned(cfg, a))
    requires i < |cfg.subroutines| && cfg.subroutines[i].finalizers != []
    requires k < |Play(cfg, World(init, []), h).trace|
    requires Play(cfg, World(init, []), h).trace[k] == Stored(None)
    ensures !Owes(Play(cfg, World(init, []), h).trace[..k], i)
  {
    FinalizersOutliveWork(cfg, init, h);
    var tr := Play(cfg, World(init, []), h).trace;
    var now := tr[..k + 1];
    assert now[..k] == tr[..k] && now == tr[..k] + [Stored(None)];
    assert Protected(cfg, StoredAfter(init, now), now);
    assert cfg.subroutines[i].finalizers[0] in cfg.subroutines[i].finalizers;
  }
}
