/** How an undisturbed deletion run ends: what is stored, and when it is an error after all. */
module DeletionEnds {
  import opened Options
  import opened Conditions
  import opened Subroutines
  import opened Cluster
  import opened Lifecycle
  import opened Frames
  import opened Quiescence
  import DeletionReports
  import Dispatch
  import Finalizers
  import Gates
  import ReadyExactness

  /** The instance is the stored object but for the status, and has no finalizer left if that
      is gone. */
  predicate Synced(w: World, inst: Object, s0: Status) {
    && inst.deleting
    && match w.stored
       case Some(x) => x == inst.(status := s0) && x.finalizers != []
       case None => inst.finalizers == []
  }

  /** Of the instance, only the gate lists matter in the end. */
  predicate SameLists(inst: Object, s0: Status) {
    inst.status.terminators == s0.terminators && inst.status.initializers == s0.initializers
  }

  /** Nothing but calls and patches that got through. */
  predicate Quietly(w: World, w': World) {
    && w.trace <= w'.trace
    && forall k :: |w.trace| <= k < |w'.trace| ==> !w'.trace[k].StatusSent?
  }

  lemma CalmCall(cfg: Config, w: World, inst: Object, i: nat, step: Step, now: int, s0: Status)
    requires i < |cfg.subroutines| && Synced(w, inst, s0) && SameLists(inst, s0)
    requires step.patch == Call([], Served)
    ensures var end := ReconcileSubroutine(cfg, w, inst, i, step, now);
            && (Gates.Settled(step.outcome) ==> end.error.None? && end.requeueAfter <= 0)
            && Synced(end.world, end.inst, s0) && SameLists(end.inst, s0) && Quietly(w, end.world)
  {
    Gates.EditsKeepLists(inst.status, step.outcome.edits, now);
    var edited := inst.(status := Edited(inst.status, step.outcome.edits, now));
    var w1 := Log(w, Ran(i, VerbFor(cfg.subroutines[i], inst), step.outcome));
    CalmRemoval(cfg, w1, edited, cfg.subroutines[i].finalizers, s0);
  }

  lemma CalmRemoval(cfg: Config, w: World, inst: Object, removed: seq<string>, s0: Status)
    requires Synced(w, inst, s0) && SameLists(inst, s0)
    ensures var a := RemoveFinalizers(cfg, w, inst, removed, Served);
            && a.error.None? && Synced(a.world, a.inst, s0) && SameLists(a.inst, s0) && Quietly(w, a.world)
  {
    var fs := WithoutFinalizers(inst.finalizers, removed);
    WithoutNothing(removed);
    Finalizers.WithoutFinalizersMembers(inst.finalizers, removed);
    if w.stored.Some? && fs != inst.finalizers {
      var p := MergeFrom(inst, inst.(finalizers := fs));
      assert ApplyMeta(w.stored.value, p) == w.stored.value.(finalizers := fs);
      assert CheckFinalizers(w.stored.value, w.stored.value.(finalizers := fs)).None?;
    }
  }

  lemma {:induction false} WithoutNothing(removed: seq<string>)
    ensures WithoutFinalizers([], removed) == []
  {
    if removed != [] {
      WithoutNothing(removed[1..]);
    }
  }

  lemma CalmTurnDown(cfg: Config, ins: Inputs, k: nat, w: World, inst: Object, s0: Status)
    requires k < |cfg.subroutines| && Synced(w, inst, s0) && SameLists(inst, s0)
    requires CalmSteps(ins)
    ensures var end := Turn(cfg, ins, true, k, w, inst);
            && (Gates.Settled(StepAt(ins, k).outcome) ==> end.error.None? && end.requeueAfter <= 0)
            && Synced(end.world, end.inst, s0) && SameLists(end.inst, s0) && Quietly(w, end.world)
  {
    var i := Position(cfg, true, k);
    var prepared := ProcessingIfMissing(cfg, inst, cfg.subroutines[i].name, true, ins.now);
    CalmCall(cfg, w, prepared, i, StepAt(ins, k), ins.now, s0);
  }

  lemma {:induction false} CalmLoopDown(
    cfg: Config, ins: Inputs, original: Object, k: nat, w: World, inst: Object, s0: Status)
    requires k <= |cfg.subroutines| && Synced(w, inst, s0) && SameLists(inst, s0)
    requires CalmSteps(ins) && ReadyExactness.AllSettled(cfg, ins)
    ensures var end := RunSubroutines(cfg, ins, original, true, k, w, inst, 0);
            && end.Completed? && end.requeueAfter == 0
            && Synced(end.world, end.inst, s0) && SameLists(end.inst, s0) && Quietly(w, end.world)
    decreases |cfg.subroutines| - k
  {
    if k < |cfg.subroutines| {
      var end := Turn(cfg, ins, true, k, w, inst);
      CalmTurnDown(cfg, ins, k, w, inst, s0);
      LoopStep(cfg, ins, original, true, k, w, inst, 0);
      CalmLoopDown(cfg, ins, original, k + 1, end.world, end.inst, s0);
      var rest := RunSubroutines(cfg, ins, original, true, k + 1, end.world, end.inst, 0);
      assert forall j :: |w.trace| <= j < |end.world.trace| ==> rest.world.trace[j] == end.world.trace[j];
    }
  }

  /** The gate of a deletion: its patch fails exactly when there is an entry to take off and no
      object any more. */
  lemma GateDown(cfg: Config, w: World, inst: Object, acc: int, s0: Status)
    requires Synced(w, inst, s0) && SameLists(inst, s0)
    ensures var at := RemoveGate(cfg, w, inst, true, acc, Call([], Served));
            && (at.error.Some? <==> acc == 0 && TerminatorPending(cfg, s0.terminators) && w.stored.None?)
            && (at.world.stored.Some? <==> w.stored.Some?)
            && at.inst.deleting && at.inst.finalizers == inst.finalizers
            && (cfg.conditions ==> at.error.None? ==> at.inst.status.conditions == inst.status.conditions)
            && (at.world.stored.Some? ==>
                  && at.world.stored.value.deleting && at.world.stored.value.finalizers == inst.finalizers
                  && at.inst.version == at.world.stored.value.version
                  && at.world.stored.value.status.conditions == s0.conditions)
            && Quietly(w, at.world)
  {
    Gates.WithoutAbsent(inst.status.terminators, cfg.terminator);
  }

  /** The status of a deletion: it is stored, or it was already, or there is no object. */
  lemma SentDown(cfg: Config, w: World, o: Object, inst: Object)
    requires !cfg.readOnly && inst.deleting && (w.stored.None? ==> inst.finalizers == [])
    requires w.stored.Some? ==>
               && inst.finalizers != [] && w.stored.value.finalizers == inst.finalizers && w.stored.value.deleting
               && inst.version == w.stored.value.version
               && w.stored.value.status.conditions == o.status.conditions
    ensures var at := SendFinalStatus(cfg, w, o, inst, Call([], Served));
            && at.error.None? && (at.world.stored.Some? <==> w.stored.Some?) && at.inst.deleting
            && (w.stored.None? ==> at.world == w)
            && (w.stored.Some? ==> at.world.stored.value.status.conditions == inst.status.conditions)
  {
  }

  lemma FinishDown(cfg: Config, ins: Inputs, o: Object, w: World, inst: Object, acc: int)
    requires Synced(w, inst, o.status) && SameLists(inst, o.status) && Calm(ins) && !cfg.readOnly
    ensures var done := FinishRun(cfg, ins, o, true, w, inst, acc);
            && (acc == 0 ==>
                  && done.result.requeueAfter == 0
                  && (done.result.error.Some? <==>
                        TerminatorPending(cfg, o.status.terminators) && done.world.stored.None?))
            && (done.world.stored.None? ==> Quietly(w, done.world))
            && (done.world.stored.Some? && cfg.conditions ==>
                  done.world.stored.value.status.conditions == DeletionReports.ConcludedList(inst, acc, ins.now))
  {
    var marked, concluded := if acc == 0 then Log(w, MarkedFinal) else w, Conclude(cfg, inst, acc, ins);
    assert cfg.conditions ==> concluded.status.conditions == DeletionReports.ConcludedList(inst, acc, ins.now);
    var gate := RemoveGate(cfg, marked, concluded, true, acc, ins.removal);
    SyncedStays(cfg, ins, w, inst, acc, o.status);
    GateDown(cfg, marked, concluded, acc, o.status);
    if gate.error.None? {
      SentDown(cfg, gate.world, o, gate.inst);
    }
  }

  lemma SyncedStays(cfg: Config, ins: Inputs, w: World, inst: Object, acc: int, s0: Status)
    requires Synced(w, inst, s0) && SameLists(inst, s0)
    ensures Synced(if acc == 0 then Log(w, MarkedFinal) else w, Conclude(cfg, inst, acc, ins), s0)
    ensures SameLists(Conclude(cfg, inst, acc, ins), s0)
  {
  }

  /** How it ends. An undisturbed deletion run whose subroutines are settled reports an error
      exactly when the configured terminator was still listed on an object that is gone by
      then; and an object that is gone is sent no status. */
  lemma DeletionEndsInErrorExactlyWhen(cfg: Config, ins: Inputs, w: World, o: Object)
    requires w.stored == Some(o) && o.deleting && o.finalizers != [] && !cfg.readOnly
    requires Calm(ins) && ReadyExactness.AllSettled(cfg, ins)
    ensures var done := RunLoaded(cfg, ins, w, o);
            && (done.result.error.Some? <==> TerminatorPending(cfg, o.status.terminators) && done.world.stored.None?)
            && done.result.requeueAfter == 0
            && (done.world.stored.None? ==> Quietly(w, done.world))
  {
    var inst := ReadyUnknownIfMissing(cfg, o, ins.now);
    assert AddFinalizers(cfg, w, o, ins.add) == Attempt(w, o, None);
    CalmLoopDown(cfg, ins, o, 0, w, inst, o.status);
    var end := RunSubroutines(cfg, ins, o, true, 0, w, inst, 0);
    FinishDown(cfg, ins, o, end.world, end.inst, 0);
  }

  // ---------------------------------------------------------------- what is stored

  /** After a stop the status is stored, if there is an object. */
  lemma StopStores(cfg: Config, ins: Inputs, o: Object, i: nat, end: SubroutineEnd, acc: int)
    requires i < |cfg.subroutines| && end.error.Some? && cfg.conditions && !cfg.readOnly && Calm(ins)
    requires Synced(end.world, end.inst, o.status)
    ensures var stored := StopRun(cfg, ins, o, true, i, end, acc).world.stored;
            stored.Some? ==> stored.value.status.conditions == DeletionReports.StoppedList(cfg, i, end, ins.now)
  {
    var w := if end.retry then end.world else Log(end.world, MarkedFinal);
    var final := DeletionReports.StoppedInstance(cfg, ins, i, end, acc);
    DeletionReports.StoppedConditions(cfg, ins, i, end, acc);
    SentStores(cfg, w, o, final);
  }

  lemma SentStores(cfg: Config, w: World, o: Object, inst: Object)
    requires !cfg.readOnly && inst.deleting
    requires w.stored.Some? ==> w.stored.value == inst.(status := o.status)
    ensures var stored := SendStatus(cfg, w, o, inst, Call([], Served)).world.stored;
            stored.Some? ==> stored.value.status.conditions == inst.status.conditions
  {
  }

  /** What an undisturbed deletion run leaves of the object carries the report of the run,
      whatever the subroutines answered. */
  lemma DeletionIsStored(cfg: Config, ins: Inputs, w: World, o: Object) returns (calls: seq<Event>, stopped: bool)
    requires w.stored == Some(o) && o.deleting && o.finalizers != [] && !cfg.readOnly && Calm(ins)
    requires cfg.conditions && DeletionReports.LeavesOurs(cfg, ins)
    ensures var w' := RunLoaded(cfg, ins, w, o).world;
            && Dispatch.CallsOf(w'.trace) == Dispatch.CallsOf(w.trace) + calls
            && (w'.stored.Some? ==>
                  DeletionReports.Report(cfg, o.status, w'.stored.value.status.conditions, calls, stopped, ins.now))
  {
    var inst := ReadyUnknownIfMissing(cfg, o, ins.now);
    assert AddFinalizers(cfg, w, o, ins.add) == Attempt(w, o, None);
    DeletionReports.StartIsTold(cfg, o, ins.now);
    calls := CalmDeletionLoop(cfg, ins, o, w, inst);
    stopped := RunSubroutines(cfg, ins, o, true, 0, w, inst, 0).Stopped?;
    var end := RunSubroutines(cfg, ins, o, true, 0, w, inst, 0);
    if end.Completed? {
      FinishSaid(cfg, ins, o, w, end.world, end.inst, end.requeueAfter, calls);
    }
  }

  /** What is stored says what it should of these calls. */
  predicate StoredSays(
    cfg: Config, ins: Inputs, o: Object, w: World, w': World, calls: seq<Event>, stopped: bool)
  {
    && Dispatch.CallsOf(w'.trace) == Dispatch.CallsOf(w.trace) + calls
    && (w'.stored.Some? ==>
          DeletionReports.Report(cfg, o.status, w'.stored.value.status.conditions, calls, stopped, ins.now))
  }

  lemma StopSaid(
    cfg: Config, ins: Inputs, o: Object, i: nat, w: World, end: SubroutineEnd, acc: int, calls: seq<Event>)
    requires i < |cfg.subroutines| && end.error.Some? && cfg.conditions && !cfg.readOnly && Calm(ins)
    requires Synced(end.world, end.inst, o.status) && DeletionReports.Silently(w, end.world, calls)
    requires DeletionReports.Report(
               cfg, o.status, DeletionReports.StoppedList(cfg, i, end, ins.now), calls, true, ins.now)
    ensures StoredSays(cfg, ins, o, w, StopRun(cfg, ins, o, true, i, end, acc).world, calls, true)
  {
    StopStores(cfg, ins, o, i, end, acc);
    DeletionReports.StopIsReported(cfg, ins, o, i, w, end, acc, calls);
  }

  lemma FinishSaid(
    cfg: Config, ins: Inputs, o: Object, w: World, w': World, inst: Object, acc: int, calls: seq<Event>)
    requires cfg.conditions && !cfg.readOnly && Calm(ins) && DeletionReports.LeavesOurs(cfg, ins)
    requires Synced(w', inst, o.status) && SameLists(inst, o.status) && DeletionReports.Silently(w, w', calls)
    requires DeletionReports.Underway(cfg, ins, o.status, |cfg.subroutines|, w', inst, acc, calls)
    ensures StoredSays(cfg, ins, o, w, FinishRun(cfg, ins, o, true, w', inst, acc).world, calls, false)
  {
    FinishDown(cfg, ins, o, w', inst, acc);
    DeletionReports.FinishSays(cfg, ins, o, w, w', inst, acc, calls);
  }

  lemma DownCalmly(
    cfg: Config, ins: Inputs, s0: Status, k: nat, w0: World, w: World, inst: Object, acc: int, calls: seq<Event>)
    returns (all: seq<Event>)
    requires k < |cfg.subroutines| && cfg.conditions && CalmSteps(ins) && DeletionReports.LeavesOurs(cfg, ins)
    requires Synced(w, inst, s0) && SameLists(inst, s0) && DeletionReports.Silently(w0, w, calls)
    requires DeletionReports.Underway(cfg, ins, s0, k, w, inst, acc, calls)
    ensures var end := Turn(cfg, ins, true, k, w, inst);
            && Synced(end.world, end.inst, s0) && SameLists(end.inst, s0)
            && DeletionReports.Turned(cfg, ins, s0, k, w0, end, acc, all)
  {
    CalmTurnDown(cfg, ins, k, w, inst, s0);
    all := DeletionReports.DownTurn(cfg, ins, s0, k, w0, w, inst, acc, calls);
  }

  lemma StopsCalmly(
    cfg: Config, ins: Inputs, o: Object, k: nat, w0: World, w: World, inst: Object, acc: int, calls: seq<Event>)
    requires k < |cfg.subroutines| && cfg.conditions && !cfg.readOnly && Calm(ins)
    requires var end := Turn(cfg, ins, true, k, w, inst);
             && end.error.Some? && Synced(end.world, end.inst, o.status)
             && DeletionReports.Turned(cfg, ins, o.status, k, w0, end, acc, calls)
    ensures SaysSo(cfg, ins, o, w0, RunSubroutines(cfg, ins, o, true, k, w, inst, acc), calls)
  {
    StopSaid(cfg, ins, o, Position(cfg, true, k), w0, Turn(cfg, ins, true, k, w, inst), acc, calls);
    LoopStep(cfg, ins, o, true, k, w, inst, acc);
  }

  /** What is true when the loop is over. */
  ghost predicate SaysSo(cfg: Config, ins: Inputs, o: Object, w: World, end: LoopEnd, calls: seq<Event>) {
    if end.Stopped? then StoredSays(cfg, ins, o, w, end.done.world, calls, true)
    else
      && Synced(end.world, end.inst, o.status) && SameLists(end.inst, o.status)
      && DeletionReports.Silently(w, end.world, calls)
      && DeletionReports.Underway(
           cfg, ins, o.status, |cfg.subroutines|, end.world, end.inst, end.requeueAfter, calls)
  }

  lemma GoesOn(cfg: Config, ins: Inputs, o: Object, k: nat, w: World, inst: Object, acc: int, goal: LoopEnd)
    requires k < |cfg.subroutines| && Turn(cfg, ins, true, k, w, inst).error.None?
    requires goal == RunSubroutines(cfg, ins, o, true, k, w, inst, acc)
    ensures var end := Turn(cfg, ins, true, k, w, inst);
            goal == RunSubroutines(cfg, ins, o, true, k + 1, end.world, end.inst, Fold(acc, end.requeueAfter))
  {
  }

  lemma CalmDeletionLoop(cfg: Config, ins: Inputs, o: Object, w: World, inst: Object)
    returns (calls: seq<Event>)
    requires cfg.conditions && !cfg.readOnly && Calm(ins) && DeletionReports.LeavesOurs(cfg, ins)
    requires Synced(w, inst, o.status) && SameLists(inst, o.status)
    requires DeletionReports.Underway(cfg, ins, o.status, 0, w, inst, 0, [])
    ensures SaysSo(cfg, ins, o, w, RunSubroutines(cfg, ins, o, true, 0, w, inst, 0), calls)
  {
    var goal := RunSubroutines(cfg, ins, o, true, 0, w, inst, 0);
    var k, w', inst', acc := 0, w, inst, 0;
    calls := [];
    while k < |cfg.subroutines|
      invariant k <= |cfg.subroutines| && goal == RunSubroutines(cfg, ins, o, true, k, w', inst', acc)
      invariant Synced(w', inst', o.status) && SameLists(inst', o.status)
      invariant DeletionReports.Silently(w, w', calls)
      invariant DeletionReports.Underway(cfg, ins, o.status, k, w', inst', acc, calls)
    {
      var end := Turn(cfg, ins, true, k, w', inst');
      calls := DownCalmly(cfg, ins, o.status, k, w, w', inst', acc, calls);
      if end.error.Some? {
        StopsCalmly(cfg, ins, o, k, w, w', inst', acc, calls);
        return;
      }
      GoesOn(cfg, ins, o, k, w', inst', acc, goal);
      k, w', inst', acc := k + 1, end.world, end.inst, Fold(acc, end.requeueAfter);
    }
  }
}
