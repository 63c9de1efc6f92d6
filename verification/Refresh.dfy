/** The refresh label: the one way in which unfinished work can be put to rest too early, and
    exactly when it is. */
module Refresh {
  import opened Options
  import opened Conditions
  import opened Subroutines
  import opened Cluster
  import opened Spread
  import opened Lifecycle
  import opened Quiescence
  import opened Spreading
  import ReadySoundness

  /** The instance and the stored object agree with `o` on everything the spreader looks at. */
  predicate Agrees(o: Object, inst: Object) {
    && inst.labels == o.labels && inst.generation == o.generation && inst.deleting == o.deleting
    && ScheduleOf(inst) == ScheduleOf(o)
  }

  lemma TurnAgrees(cfg: Config, ins: Inputs, k: nat, w: World, inst: Object, o: Object)
    requires k < |cfg.subroutines| && !inst.deleting && Calm(ins) && Agrees(o, inst)
    ensures var end := Turn(cfg, ins, false, k, w, inst);
            && end.world.stored == w.stored
            && Agrees(o, end.inst) && end.inst == inst.(status := end.inst.status)
            && end.error == StepAt(ins, k).outcome.Cause()
            && end.requeueAfter == StepAt(ins, k).outcome.requeueAfter
  {
    CalmTurn(cfg, ins, k, w, inst);
    ReadySoundness.TurnInstance(cfg, ins, k, w, inst);
    var prepared := ProcessingIfMissing(cfg, inst, cfg.subroutines[k].name, false, ins.now);
    EditsKeepSchedule(prepared.status, StepAt(ins, k).outcome.edits, ins.now);
  }

  /** What a run that is not final leaves, from turn `k` on: the label stays if a subroutine
      failed, and else it is gone. */
  lemma {:induction false} UnfinishedLoop(
    cfg: Config, ins: Inputs, o: Object, k: nat, w: World, inst: Object, acc: int)
    requires k <= |cfg.subroutines| && Calm(ins) && cfg.spreader && !cfg.readOnly
    requires !o.deleting && RefreshRequested(o) && Agrees(o, inst)
    requires w.stored == Some(inst.(status := o.status)) && !EndsFinal(cfg, ins, k, acc)
    ensures var end := RunSubroutines(cfg, ins, o, false, k, w, inst, acc);
            var w' := if end.Stopped? then end.done.world
              else FinishRun(cfg, ins, o, false, end.world, end.inst, end.requeueAfter).world;
            && w'.stored.Some?
            && (Fails(cfg, ins, k) ==> Agrees(o, w'.stored.value))
            && (!Fails(cfg, ins, k) ==> Agrees(o.(labels := o.labels - {REFRESH_LABEL}), w'.stored.value))
    decreases |cfg.subroutines| - k
  {
    if k == |cfg.subroutines| {
      RequeueDropsLabel(cfg, ins, o, w, inst, acc);
    } else {
      var end := Turn(cfg, ins, false, k, w, inst);
      var out := StepAt(ins, k).outcome;
      TurnAgrees(cfg, ins, k, w, inst, o);
      if out.Cause().Some? {
        var failed := SetSubroutine(cfg, end.inst, cfg.subroutines[k].name, false, acc, end.error, ins.now);
      } else {
        UnfinishedLoop(cfg, ins, o, k + 1, end.world, end.inst, Fold(acc, out.requeueAfter));
        assert Fails(cfg, ins, k) <==> Fails(cfg, ins, k + 1);
      }
    }
  }

  lemma RequeueDropsLabel(cfg: Config, ins: Inputs, o: Object, w: World, inst: Object, acc: int)
    requires Calm(ins) && cfg.spreader && !cfg.readOnly && acc != 0
    requires !o.deleting && RefreshRequested(o) && Agrees(o, inst)
    requires w.stored == Some(inst.(status := o.status))
    ensures var w' := FinishRun(cfg, ins, o, false, w, inst, acc).world;
            w'.stored.Some? && Agrees(o.(labels := o.labels - {REFRESH_LABEL}), w'.stored.value)
  {
    var concluded := Conclude(cfg, inst, acc, ins);
    var gate := RemoveGate(cfg, w, concluded, false, acc, ins.removal);
    assert gate == Attempt(w, concluded, None);
    var sent := SendFinalStatus(cfg, w, o, concluded, ins.status);
  }

  /** Refreshes that are not forgotten. After an undisturbed run, asked for by the label, that
      does not end for good, another run goes to work exactly when the spec had changed or
      the time had come anyway or a subroutine failed: a mere requeue loses the label all
      the same. */
  lemma RefreshRememberedExactlyWhen(cfg: Config, ins: Inputs, w: World, o: Object, t: int)
    requires w.stored == Some(o) && !o.deleting && cfg.spreader && !cfg.readOnly && RefreshRequested(o)
    requires Calm(ins) && !EndsFinal(cfg, ins, 0, 0)
    ensures var w' := RunLoaded(cfg, ins, w, o).world;
            && w'.stored.Some?
            && (GoesToWork(cfg, w', t)
                <==> o.generation != o.status.observedGeneration || t > o.status.nextReconcile || Fails(cfg, ins, 0))
  {
    CalmAdd(cfg, w, o, ins.add);
    var added := AddFinalizers(cfg, w, o, ins.add);
    UnfinishedLoop(cfg, ins, o, 0, added.world, ReadyUnknownIfMissing(cfg, added.inst, ins.now), 0);
    WorksExactlyWhen(cfg, RunLoaded(cfg, ins, w, o).world, t);
  }

  /** A run started only by the refresh label that asks for a requeue is forgotten: the label
      is taken off all the same, so the run it asked for is skipped. */
  lemma RefreshThenRequeueIsForgotten()
    ensures exists cfg: Config, ins: Inputs, o: Object ::
      && cfg.spreader && !o.deleting && RefreshRequested(o)
      && o.generation == o.status.observedGeneration && ins.now <= o.status.nextReconcile
      && var done := RunLoaded(cfg, ins, World(Some(o), []), o);
         && done.result == Result(5, None)
         && done.world.stored.Some?
         && !GoesToWork(cfg, done.world, ins.now + 5)
  {
    var served := Call([], Served);
    var asks := Step(Outcome(5, None, []), served);
    var cfg := Config([Subroutine("s", [], false, false)], false, false, true, 0, "", "");
    var ins := Inputs(10, 0, served, served, None, [asks], served, served, served);
    var o := Object(1, 1, false, [], {REFRESH_LABEL}, Status([], 0, [], [], 1, 1000));
    var w := World(Some(o), []);
    assert WithAllFinalizers([], cfg.subroutines) == [] by {
      assert cfg.subroutines[1..] == [];
    }
    assert AddFinalizers(cfg, w, o, served) == Attempt(w, o, None);
    var w1 := Log(w, Ran(0, Process, asks.outcome));
    assert Turn(cfg, ins, false, 0, w, o) == SubroutineEnd(w1, o, 5, false, None);
    assert RunSubroutines(cfg, ins, o, false, 0, w, o, 0) == Completed(w1, o, 5);
    var gate := RemoveGate(cfg, w1, o, false, 5, served);
    assert gate == Attempt(w1, o, None);
    assert SendFinalStatus(cfg, w1, o, o, served) == Attempt(w1, o, None);
    var done := RemoveRefreshLabel(cfg, w1, o, 5, served);
    assert o.labels - {REFRESH_LABEL} == {};
    assert done.world.stored == Some(o.(labels := {}, version := 2));
    assert RunLoaded(cfg, ins, w, o) == done;
    WorksExactlyWhen(cfg, done.world, 15);
  }

  /** Labels of others. Taking the refresh label off drops a label that others put on the object
      just before, exactly when the run has read no other label: the map it would leave is
      empty, and is sent as null. */
  lemma OtherLabelsStayExactlyWhen(cfg: Config, w: World, inst: Object, acc: int, l: string)
    requires cfg.spreader && !inst.deleting && RefreshRequested(inst) && w.stored == Some(inst)
    requires l !in inst.labels
    ensures var stored := RemoveRefreshLabel(cfg, w, inst, acc, Call([AddLabel(l)], Served)).world.stored;
            && stored.Some? && "platform-mesh.io/refresh-reconcile" !in stored.value.labels
            && (l in stored.value.labels <==> inst.labels != {"platform-mesh.io/refresh-reconcile"})
  {
    var o := inst.(labels := inst.labels + {l}, version := inst.version + 1);
    var left := inst.labels - {REFRESH_LABEL};
    assert o != inst && [AddLabel(l)][1..] == [];
    var w1 := Put(w, Some(o));
    assert Await(w, [AddLabel(l)]) == Await(w1, []) == w1;
    assert left == {} <==> inst.labels == {REFRESH_LABEL} by {
      if left == {} {
        assert forall x :: x in inst.labels ==> x == REFRESH_LABEL;
      }
    }
    var p := MergeFrom(inst, inst.(labels := left));
    assert p.finalizers.None? && CheckFinalizers(o, ApplyMeta(o, p)).None?;
    assert left != {} ==> p.labels == Some(EditLabels(inst.labels - left, left - inst.labels));
    assert inst.labels - left == {REFRESH_LABEL} && left - inst.labels == {};
  }
}
