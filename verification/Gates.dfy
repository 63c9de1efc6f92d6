/** Initializers and terminators are gates: the configured entry leaves the status only when
    a run has settled every subroutine, and no other entry ever moves. */
module Gates {
  import opened Options
  import opened Conditions
  import opened Subroutines
  import opened Cluster
  import opened Lifecycle
  import opened Frames
  import Finalizers
  import Progress

  /** The two gate lists of a status. */
  datatype Lists = Lists(initializers: seq<string>, terminators: seq<string>)

  function ListsOf(o: Object): Lists {
    Lists(o.status.initializers, o.status.terminators)
  }

  predicate HasLists(o: Option<Object>, ls: Lists) {
    o.Some? ==> ListsOf(o.value) == ls
  }

  /** The stored lists are `now`, and every stored state since `from` had `a` or `b`. When
      the two are the same no patch of the status was sent either. */
  predicate Between(w: World, from: nat, a: Lists, b: Lists, now: Lists) {
    && from <= |w.trace|
    && (now == a || now == b)
    && HasLists(w.stored, now)
    && (forall k :: from <= k < |w.trace| && w.trace[k].Stored? ==>
          HasLists(w.trace[k].state, a) || HasLists(w.trace[k].state, b))
    && (a == b ==> forall k :: from <= k < |w.trace| ==> !w.trace[k].StatusPatched?)
  }

  lemma {:induction false} AwaitBetween(w: World, nudges: seq<Nudge>, from: nat, a: Lists, b: Lists, now: Lists)
    requires Between(w, from, a, b, now)
    ensures Between(Await(w, nudges), from, a, b, now)
    decreases |nudges|
  {
    if nudges != [] && w.stored.Some? {
      AwaitBetween(Put(w, Keep(Nudged(w.stored.value, nudges[0]))), nudges[1..], from, a, b, now);
    }
  }

  lemma PatchBetween(w: World, p: Patch, fault: Fault, from: nat, a: Lists, b: Lists, now: Lists)
    requires Between(w, from, a, b, now)
    ensures var (w', reply) := PatchObject(w, p, fault);
            Between(w', from, a, b, now) && (reply.Replied? ==> ListsOf(reply.obj) == now)
  {
  }

  lemma SendBetween(
    cfg: Config, w: World, original: Object, inst: Object, call: Call, from: nat, a: Lists, b: Lists, now: Lists)
    requires Between(w, from, a, b, now) && ListsOf(inst) == now
    ensures var at := SendStatus(cfg, w, original, inst, call);
            Between(at.world, from, a, b, now) && ListsOf(at.inst) == now
  {
    AwaitBetween(w, call.before, from, a, b, now);
  }

  lemma {:induction false} EditsKeepLists(s: Status, edits: seq<Edit>, now: int)
    ensures Edited(s, edits, now).initializers == s.initializers
    ensures Edited(s, edits, now).terminators == s.terminators
    decreases |edits|
  {
    if edits != [] {
      EditsKeepLists(ApplyEdit(s, edits[0], now), edits[1..], now);
    }
  }

  lemma AddBetween(cfg: Config, w: World, inst: Object, call: Call, from: nat, a: Lists, b: Lists, now: Lists)
    requires Between(w, from, a, b, now) && ListsOf(inst) == now
    ensures var at := AddFinalizers(cfg, w, inst, call);
            Between(at.world, from, a, b, now) && ListsOf(at.inst) == now
  {
    var w1 := Await(w, call.before);
    AwaitBetween(w, call.before, from, a, b, now);
    var modified := inst.(finalizers := WithAllFinalizers(inst.finalizers, cfg.subroutines));
    PatchBetween(w1, MergeFrom(inst, modified), call.fault, from, a, b, now);
  }

  /** No error the run sees, and no positive requeue. A negative requeue passes the gate. */
  predicate Settled(out: Outcome) {
    out.Cause().None? && out.requeueAfter <= 0
  }

  predicate AllSettled(tr: seq<Event>, from: nat) {
    forall k :: from <= k < |tr| && tr[k].Ran? ==> Settled(tr[k].outcome)
  }

  lemma RemoveBetween(
    cfg: Config, w: World, inst: Object, removed: seq<string>, fault: Fault, from: nat, a: Lists, b: Lists, now: Lists)
    requires Between(w, from, a, b, now) && ListsOf(inst) == now
    ensures var at := RemoveFinalizers(cfg, w, inst, removed, fault);
            Between(at.world, from, a, b, now) && ListsOf(at.inst) == now
  {
    var modified := inst.(finalizers := WithoutFinalizers(inst.finalizers, removed));
    PatchBetween(w, MergeFrom(inst, modified), fault, from, a, b, now);
  }

  lemma SubroutineBetween(
    cfg: Config, w: World, inst0: Object, i: nat, step: Step, time: int, from: nat, a: Lists, b: Lists, now: Lists)
    requires i < |cfg.subroutines| && Between(w, from, a, b, now) && ListsOf(inst0) == now
    ensures var end := ReconcileSubroutine(cfg, w, inst0, i, step, time);
            Between(end.world, from, a, b, now) && ListsOf(end.inst) == now
  {
    var verb := VerbFor(cfg.subroutines[i], inst0);
    var w1 := if verb.Skip? then w else Log(w, Ran(i, verb, step.outcome));
    var w2 := Await(w1, step.patch.before);
    AwaitBetween(w1, step.patch.before, from, a, b, now);
    EditsKeepLists(inst0.status, step.outcome.edits, time);
    var inst1 := inst0.(status := Edited(inst0.status, step.outcome.edits, time));
    RemoveBetween(cfg, w2, inst1, cfg.subroutines[i].finalizers, step.patch.fault, from, a, b, now);
  }

  lemma TurnBetween(
    cfg: Config, ins: Inputs, deletion: bool, k: nat, w: World, inst: Object, from: nat, a: Lists, b: Lists, now: Lists)
    requires k < |cfg.subroutines| && Between(w, from, a, b, now) && ListsOf(inst) == now
    ensures var end := Turn(cfg, ins, deletion, k, w, inst);
            Between(end.world, from, a, b, now) && ListsOf(end.inst) == now
  {
    var i := Position(cfg, deletion, k);
    var prepared := ProcessingIfMissing(cfg, inst, cfg.subroutines[i].name, deletion, ins.now);
    SubroutineBetween(cfg, w, prepared, i, StepAt(ins, k), ins.now, from, a, b, now);
  }

  /** Waiting for others calls no subroutine. */
  lemma AwaitSettled(w: World, nudges: seq<Nudge>, from: nat)
    requires from <= |w.trace| && AllSettled(w.trace, from)
    ensures |w.trace| <= |Await(w, nudges).trace| && AllSettled(Await(w, nudges).trace, from)
  {
    var w' := Await(w, nudges);
    AwaitIsMild(w, nudges);
    assert forall k :: from <= k < |w.trace| ==> w'.trace[k] == w.trace[k];
  }

  /** A turn that adds nothing to the requeue was settled. */
  lemma TurnSettled(cfg: Config, ins: Inputs, deletion: bool, k: nat, w: World, inst: Object, from: nat)
    requires k < |cfg.subroutines| && from <= |w.trace| && AllSettled(w.trace, from)
    ensures var end := Turn(cfg, ins, deletion, k, w, inst);
            end.error.None? && end.requeueAfter <= 0 ==>
              && AllSettled(end.world.trace, from)
              && (!inst.deleting ==> Settled(StepAt(ins, k).outcome))
  {
    var i := Position(cfg, deletion, k);
    var step := StepAt(ins, k);
    var inst0 := ProcessingIfMissing(cfg, inst, cfg.subroutines[i].name, deletion, ins.now);
    var verb := VerbFor(cfg.subroutines[i], inst0);
    var w1 := if verb.Skip? then w else Log(w, Ran(i, verb, step.outcome));
    if verb.Skip? || Settled(step.outcome) {
      AwaitSettled(w1, step.patch.before, from);
      var inst1 := inst0.(status := Edited(inst0.status, step.outcome.edits, ins.now));
    }
  }

  lemma {:induction false} LoopBetween(
    cfg: Config, ins: Inputs, original: Object, deletion: bool, k: nat, w: World, inst: Object, acc: int,
    from: nat, a: Lists, b: Lists, now: Lists)
    requires k <= |cfg.subroutines| && Between(w, from, a, b, now) && ListsOf(inst) == now
    ensures var end := RunSubroutines(cfg, ins, original, deletion, k, w, inst, acc);
            && Between(WorldOf(end), from, a, b, now)
            && (end.Completed? ==> ListsOf(end.inst) == now)
    decreases |cfg.subroutines| - k
  {
    if k < |cfg.subroutines| {
      var i := Position(cfg, deletion, k);
      var end := Turn(cfg, ins, deletion, k, w, inst);
      TurnBetween(cfg, ins, deletion, k, w, inst, from, a, b, now);
      if end.error.Some? {
        var failed := SetSubroutine(cfg, end.inst, cfg.subroutines[i].name, deletion, acc, end.error, ins.now);
        var unready := SetReady(cfg, failed, CondFalse, ins.now);
        var final := if end.retry then unready else MarkFinal(cfg, unready, CondFalse, ins.now, ins.jitter);
        var w' := if end.retry then end.world else Log(end.world, MarkedFinal);
        SendBetween(cfg, w', original, final, ins.status, from, a, b, now);
      } else {
        LoopBetween(cfg, ins, original, deletion, k + 1, end.world, end.inst, Fold(acc, end.requeueAfter),
          from, a, b, now);
      }
    }
  }

  lemma FoldSettled(
    cfg: Config, ins: Inputs, deletion: bool, k: nat, w: World, inst: Object, acc: int, from: nat)
    requires k < |cfg.subroutines| && from <= |w.trace| && acc >= 0
    requires acc == 0 ==> AllSettled(w.trace, from)
    ensures var end := Turn(cfg, ins, deletion, k, w, inst);
            var acc' := Fold(acc, end.requeueAfter);
            && acc' >= 0 && from <= |end.world.trace|
            && (end.error.None? && acc' == 0 ==> acc == 0 && AllSettled(end.world.trace, from))
  {
    TurnExtends(cfg, ins, deletion, k, w, inst);
    if acc == 0 {
      TurnSettled(cfg, ins, deletion, k, w, inst, from);
    }
  }

  /** The loop ends without a requeue only if every subroutine it called was settled. */
  lemma {:induction false} CalledSettled(
    cfg: Config, ins: Inputs, original: Object, deletion: bool, k: nat, w: World, inst: Object, acc: int, from: nat)
    requires k <= |cfg.subroutines| && from <= |w.trace| && acc >= 0
    requires acc == 0 ==> AllSettled(w.trace, from)
    ensures var end := RunSubroutines(cfg, ins, original, deletion, k, w, inst, acc);
            end.Completed? && end.requeueAfter == 0 ==> acc == 0 && AllSettled(end.world.trace, from)
    decreases |cfg.subroutines| - k
  {
    if k < |cfg.subroutines| {
      var end := Turn(cfg, ins, deletion, k, w, inst);
      FoldSettled(cfg, ins, deletion, k, w, inst, acc, from);
      LoopStep(cfg, ins, original, deletion, k, w, inst, acc);
      if end.error.None? {
        CalledSettled(cfg, ins, original, deletion, k + 1, end.world, end.inst, Fold(acc, end.requeueAfter), from);
      }
    }
  }

  lemma LiveTurn(cfg: Config, ins: Inputs, deletion: bool, k: nat, w: World, inst: Object)
    requires k < |cfg.subroutines| && !inst.deleting
    ensures var end, out := Turn(cfg, ins, deletion, k, w, inst), StepAt(ins, k).outcome;
            end.error == out.Cause() && end.requeueAfter == out.requeueAfter && !end.inst.deleting
  {
  }

  /** And on an object not marked for deletion it calls them all. */
  lemma {:induction false} AllCalled(
    cfg: Config, ins: Inputs, original: Object, deletion: bool, k: nat, w: World, inst: Object, acc: int)
    requires k <= |cfg.subroutines| && acc >= 0 && !inst.deleting
    ensures var end := RunSubroutines(cfg, ins, original, deletion, k, w, inst, acc);
            end.Completed? && end.requeueAfter == 0 ==>
              acc == 0 && forall j :: k <= j < |cfg.subroutines| ==> Settled(StepAt(ins, j).outcome)
    decreases |cfg.subroutines| - k
  {
    if k < |cfg.subroutines| {
      var end := Turn(cfg, ins, deletion, k, w, inst);
      LiveTurn(cfg, ins, deletion, k, w, inst);
      LoopStep(cfg, ins, original, deletion, k, w, inst, acc);
      if end.error.None? {
        AllCalled(cfg, ins, original, deletion, k + 1, end.world, end.inst, Fold(acc, end.requeueAfter));
      }
    }
  }

  lemma LoopSettled(
    cfg: Config, ins: Inputs, original: Object, deletion: bool, w: World, inst: Object, from: nat)
    requires from <= |w.trace| && AllSettled(w.trace, from)
    ensures var end := RunSubroutines(cfg, ins, original, deletion, 0, w, inst, 0);
            end.Completed? && end.requeueAfter == 0 ==>
              && AllSettled(end.world.trace, from)
              && (!inst.deleting ==> forall j :: 0 <= j < |cfg.subroutines| ==> Settled(StepAt(ins, j).outcome))
  {
    CalledSettled(cfg, ins, original, deletion, 0, w, inst, 0, from);
    if !inst.deleting {
      AllCalled(cfg, ins, original, deletion, 0, w, inst, 0);
    }
  }

  // ---------------------------------------------------------------- the gate

  /** The lists after the gate has been passed. */
  function Passed(cfg: Config, deletion: bool, ls: Lists): Lists {
    if deletion then
      if cfg.terminator == "" then ls else ls.(terminators := Without(ls.terminators, cfg.terminator))
    else
      if cfg.initializer == "" then ls else ls.(initializers := Without(ls.initializers, cfg.initializer))
  }

  /** A patch of the status that changes the lists from `a` to `b`. */
  lemma PatchStatusBetween(w: World, inst: Object, modified: Object, fault: Fault, from: nat, a: Lists, b: Lists)
    requires Between(w, from, a, a, a) && ListsOf(inst) == a && ListsOf(modified) == b && a != b
    requires modified == inst.(status := inst.status.(initializers := b.initializers, terminators := b.terminators))
    ensures var (w', reply) := PatchStatus(w, MergeFrom(inst, modified), fault);
            && (Between(w', from, a, b, a) || Between(w', from, a, b, b))
            && (reply.Replied? ==> Between(w', from, a, b, b) && ListsOf(reply.obj) == b)
            && (fault.Served? ==> Between(w', from, a, b, b))
  {
  }

  lemma GateBetween(
    cfg: Config, w: World, inst: Object, deletion: bool, acc: int, call: Call, from: nat, a: Lists)
    requires Between(w, from, a, a, a) && ListsOf(inst) == a
    ensures var at := RemoveGate(cfg, w, inst, deletion, acc, call);
            var b := if acc == 0 then Passed(cfg, deletion, a) else a;
            && (Between(at.world, from, a, b, a) || Between(at.world, from, a, b, b))
            && (at.error.None? ==> Between(at.world, from, a, b, b) && ListsOf(at.inst) == b)
            && (call.fault.Served? ==> Between(at.world, from, a, b, b))
  {
    var w1, b := Await(w, call.before), Passed(cfg, deletion, a);
    AwaitBetween(w, call.before, from, a, a, a);
    if acc == 0 && b != a {
      var modified := inst.(status := inst.status.(initializers := b.initializers, terminators := b.terminators));
      PatchStatusBetween(w1, inst, modified, call.fault, from, a, b);
    }
  }

  lemma FinishBetween(
    cfg: Config, ins: Inputs, original: Object, deletion: bool, w: World, inst: Object, acc: int, from: nat, a: Lists)
    requires Between(w, from, a, a, a) && ListsOf(inst) == a
    ensures var w' := FinishRun(cfg, ins, original, deletion, w, inst, acc).world;
            var b := if acc == 0 then Passed(cfg, deletion, a) else a;
            && (Between(w', from, a, b, a) || Between(w', from, a, b, b))
            && (ins.removal.fault.Served? ==> Between(w', from, a, b, b))
  {
    var b := if acc == 0 then Passed(cfg, deletion, a) else a;
    var marked := if acc == 0 then Log(w, MarkedFinal) else w;
    var gate := RemoveGate(cfg, marked, Conclude(cfg, inst, acc, ins), deletion, acc, ins.removal);
    GateBetween(cfg, marked, Conclude(cfg, inst, acc, ins), deletion, acc, ins.removal, from, a);
    if gate.error.None? {
      var sent := SendFinalStatus(cfg, gate.world, original, gate.inst, ins.status);
      AwaitBetween(gate.world, ins.status.before, from, a, b, b);
      SendBetween(cfg, gate.world, original, gate.inst, ins.status, from, a, b, b);
      if sent.error.None? {
        var w1 := Await(sent.world, ins.refresh.before);
        AwaitBetween(sent.world, ins.refresh.before, from, a, b, b);
        var modified := sent.inst.(labels := sent.inst.labels - {REFRESH_LABEL});
        PatchBetween(w1, MergeFrom(sent.inst, modified), ins.refresh.fault, from, a, b, b);
      }
    }
  }

  // ---------------------------------------------------------------- the claims

  /** What a run on `o` may have done to the gate lists: nothing, or pass the gate after a
      loop that settled every subroutine. */
  predicate GateRespected(cfg: Config, ins: Inputs, o: Object, from: nat, w: World) {
    var a, b := ListsOf(o), Passed(cfg, o.deleting, ListsOf(o));
    && from <= |w.trace|
    && (Between(w, from, a, a, a)
        || (&& (Between(w, from, a, b, a) || Between(w, from, a, b, b))
            && AllSettled(w.trace, from)
            && (!o.deleting ==> forall j :: 0 <= j < |cfg.subroutines| ==> Settled(StepAt(ins, j).outcome))))
  }

  lemma LoadedGate(cfg: Config, ins: Inputs, w: World, o: Object)
    requires w.stored == Some(o)
    ensures GateRespected(cfg, ins, o, |w.trace|, RunLoaded(cfg, ins, w, o).world)
  {
    var from, a := |w.trace|, ListsOf(o);
    var added := AddFinalizers(cfg, w, o, ins.add);
    AddBetween(cfg, w, o, ins.add, from, a, a, a);
    AddRunsNothing(cfg, w, o, ins.add);
    if added.error.None? && ins.prepare.None? {
      var inst := ReadyUnknownIfMissing(cfg, added.inst, ins.now);
      var end := RunSubroutines(cfg, ins, o, o.deleting, 0, added.world, inst, 0);
      LoopBetween(cfg, ins, o, o.deleting, 0, added.world, inst, 0, from, a, a, a);
      if end.Completed? {
        LoopSettled(cfg, ins, o, o.deleting, added.world, inst, from);
        FinishBetween(cfg, ins, o, o.deleting, end.world, end.inst, end.requeueAfter, from, a);
        FinishRunIsMild(cfg, ins, o, o.deleting, end.world, end.inst, end.requeueAfter);
        var w' := FinishRun(cfg, ins, o, o.deleting, end.world, end.inst, end.requeueAfter).world;
        assert forall k :: 0 <= k < |end.world.trace| ==> w'.trace[k] == end.world.trace[k];
      }
    }
  }

  /** Adding finalizers calls no subroutine and leaves the deletion mark of the instance. */
  lemma AddRunsNothing(cfg: Config, w: World, inst: Object, call: Call)
    requires w.stored == Some(inst)
    ensures var at := AddFinalizers(cfg, w, inst, call);
            && AllSettled(at.world.trace, |w.trace|)
            && (at.error.None? ==> at.inst.deleting == inst.deleting)
  {
    var w1 := Await(w, call.before);
    AwaitIsMild(w, call.before);
    Finalizers.WithAllFinalizersMembers(inst.finalizers, cfg.subroutines);
  }

  /** The initializer gate. In a run on `o`, a stored state may have other initializers
      only if `o` was not being deleted and every subroutine ended without error and
      without requeue; then exactly the configured entry is missing. */
  lemma InitializerGate(cfg: Config, ins: Inputs, w: World, o: Object, k: nat)
    requires w.stored == Some(o)
    requires |w.trace| <= k < |RunLoaded(cfg, ins, w, o).world.trace|
    requires RunLoaded(cfg, ins, w, o).world.trace[k].Stored?
    requires var s := RunLoaded(cfg, ins, w, o).world.trace[k].state;
             s.Some? && s.value.status.initializers != o.status.initializers
    ensures var s := RunLoaded(cfg, ins, w, o).world.trace[k].state.value;
            && !o.deleting
            && InitializerPending(cfg, o.status.initializers)
            && s.status.initializers == Without(o.status.initializers, cfg.initializer)
            && s.status.terminators == o.status.terminators
            && forall j :: 0 <= j < |cfg.subroutines| ==> Settled(StepAt(ins, j).outcome)
  {
    LoadedGate(cfg, ins, w, o);
    WithoutAbsent(o.status.initializers, cfg.initializer);
  }

  /** The terminator gate: only a run on a deleting object, all of whose calls were settled. */
  lemma TerminatorGate(cfg: Config, ins: Inputs, w: World, o: Object, k: nat)
    requires w.stored == Some(o)
    requires |w.trace| <= k < |RunLoaded(cfg, ins, w, o).world.trace|
    requires RunLoaded(cfg, ins, w, o).world.trace[k].Stored?
    requires var s := RunLoaded(cfg, ins, w, o).world.trace[k].state;
             s.Some? && s.value.status.terminators != o.status.terminators
    ensures var s := RunLoaded(cfg, ins, w, o).world.trace[k].state.value;
            && o.deleting
            && TerminatorPending(cfg, o.status.terminators)
            && s.status.terminators == Without(o.status.terminators, cfg.terminator)
            && s.status.initializers == o.status.initializers
            && AllSettled(RunLoaded(cfg, ins, w, o).world.trace, |w.trace|)
  {
    LoadedGate(cfg, ins, w, o);
    WithoutAbsent(o.status.terminators, cfg.terminator);
  }

  lemma {:induction false} WithoutAbsent(list: seq<string>, x: string)
    ensures x !in list <==> Without(list, x) == list
    ensures |Without(list, x)| <= |list|
  {
    if list != [] {
      WithoutAbsent(list[1..], x);
    }
  }

  /** A passed gate is not patched again: without the configured entry a run sends no patch
      of the status. */
  lemma NoSecondPatch(cfg: Config, ins: Inputs, w: World, o: Object, k: nat)
    requires w.stored == Some(o)
    requires if o.deleting then !TerminatorPending(cfg, o.status.terminators)
             else !InitializerPending(cfg, o.status.initializers)
    requires |w.trace| <= k < |RunLoaded(cfg, ins, w, o).world.trace|
    ensures !RunLoaded(cfg, ins, w, o).world.trace[k].StatusPatched?
  {
    LoadedGate(cfg, ins, w, o);
    WithoutAbsent(o.status.initializers, cfg.initializer);
    WithoutAbsent(o.status.terminators, cfg.terminator);
  }

  lemma {:induction false} LoopCompletes(
    cfg: Config, ins: Inputs, original: Object, deletion: bool, k: nat, w: World, inst: Object)
    requires k <= |cfg.subroutines| && !inst.deleting
    requires forall j :: k <= j < |cfg.subroutines| ==> Settled(StepAt(ins, j).outcome)
    ensures var end := RunSubroutines(cfg, ins, original, deletion, k, w, inst, 0);
            end.Completed? && end.requeueAfter == 0
    decreases |cfg.subroutines| - k
  {
    if k < |cfg.subroutines| {
      var end := Turn(cfg, ins, deletion, k, w, inst);
      TurnIsFrozen(cfg, ins, deletion, k, w, inst);
      LoopCompletes(cfg, ins, original, deletion, k + 1, end.world, end.inst);
    }
  }

  /** And the gate does open: with every subroutine settled and the finalizers in place, a
      served patch leaves the status without the configured initializer. */
  lemma InitializerGateOpens(cfg: Config, ins: Inputs, w: World, o: Object)
    requires w.stored == Some(o) && !o.deleting && cfg.initializer != ""
    requires AddFinalizers(cfg, w, o, ins.add).error.None? && ins.prepare.None? && ins.removal.fault.Served?
    requires forall j :: 0 <= j < |cfg.subroutines| ==> Settled(StepAt(ins, j).outcome)
    ensures var s := RunLoaded(cfg, ins, w, o).world.stored;
            s.Some? ==> s.value.status.initializers == Without(o.status.initializers, cfg.initializer)
  {
    var from, a := |w.trace|, ListsOf(o);
    var added := AddFinalizers(cfg, w, o, ins.add);
    AddBetween(cfg, w, o, ins.add, from, a, a, a);
    AddRunsNothing(cfg, w, o, ins.add);
    var inst := ReadyUnknownIfMissing(cfg, added.inst, ins.now);
    var end := RunSubroutines(cfg, ins, o, false, 0, added.world, inst, 0);
    LoopCompletes(cfg, ins, o, false, 0, added.world, inst);
    LoopBetween(cfg, ins, o, false, 0, added.world, inst, 0, from, a, a, a);
    FinishBetween(cfg, ins, o, false, end.world, end.inst, end.requeueAfter, from, a);
  }

  /** The same for a run on a deleting object, whose finalizer patches are served too. */
  lemma {:induction false} FinalizingCompletes(
    cfg: Config, ins: Inputs, original: Object, k: nat, w: World, inst: Object)
    requires k <= |cfg.subroutines| && Linked(w.stored, inst) && inst.deleting
    requires forall j :: k <= j < |cfg.subroutines| ==>
               Settled(StepAt(ins, j).outcome) && StepAt(ins, j).patch.fault.Served?
    ensures var end := RunSubroutines(cfg, ins, original, true, k, w, inst, 0);
            end.Completed? && end.requeueAfter == 0
    decreases |cfg.subroutines| - k
  {
    if k < |cfg.subroutines| {
      var end := Turn(cfg, ins, true, k, w, inst);
      Progress.TurnShrinks(cfg, ins, k, w, inst);
      assert end.error.None? && end.requeueAfter <= 0;
      FinalizingCompletes(cfg, ins, original, k + 1, end.world, end.inst);
    }
  }

  /** The terminator's gate opens as well: with every subroutine settled and every patch
      served, what is left of a deleting object is without the configured terminator. */
  lemma TerminatorGateOpens(cfg: Config, ins: Inputs, w: World, o: Object)
    requires w.stored == Some(o) && o.deleting && cfg.terminator != ""
    requires ins.prepare.None? && ins.removal.fault.Served?
    requires forall j :: 0 <= j < |cfg.subroutines| ==>
               Settled(StepAt(ins, j).outcome) && StepAt(ins, j).patch.fault.Served?
    ensures var s := RunLoaded(cfg, ins, w, o).world.stored;
            s.Some? ==> s.value.status.terminators == Without(o.status.terminators, cfg.terminator)
  {
    var from, a := |w.trace|, ListsOf(o);
    var added := AddFinalizers(cfg, w, o, ins.add);
    AddBetween(cfg, w, o, ins.add, from, a, a, a);
    AwaitIsMild(w, ins.add.before);
    var inst := ReadyUnknownIfMissing(cfg, added.inst, ins.now);
    var end := RunSubroutines(cfg, ins, o, true, 0, added.world, inst, 0);
    FinalizingCompletes(cfg, ins, o, 0, added.world, inst);
    LoopBetween(cfg, ins, o, true, 0, added.world, inst, 0, from, a, a, a);
    FinishBetween(cfg, ins, o, true, end.world, end.inst, end.requeueAfter, from, a);
  }
}
