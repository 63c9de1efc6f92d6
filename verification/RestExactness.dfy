/** Exactly when finished work rests: the patch that takes an initializer off reloads the
    stored schedule, and the pause that was just drawn is lost. */
module RestExactness {
  import opened Options
  import opened Subroutines
  import opened Cluster
  import opened Spread
  import opened Lifecycle
  import opened Quiescence
  import opened Refresh
  import opened Spreading
  import Gates
  import ReadyExactness
  import Rest

  /** The loop of an undisturbed run that settles keeps what the spreader looks at, and the
      initializers. */
  lemma {:induction false} LoopKeeps(
    cfg: Config, ins: Inputs, original: Object, k: nat, w: World, inst: Object, o: Object)
    requires k <= |cfg.subroutines| && Calm(ins) && ReadyExactness.AllSettled(cfg, ins)
    requires !inst.deleting && Agrees(o, inst) && inst.status.initializers == o.status.initializers
    ensures var end := RunSubroutines(cfg, ins, original, false, k, w, inst, 0);
            && end.Completed? && end.requeueAfter == 0 && end.world.stored == w.stored
            && Agrees(o, end.inst) && end.inst == inst.(status := end.inst.status)
            && end.inst.status.initializers == o.status.initializers
    decreases |cfg.subroutines| - k
  {
    if k < |cfg.subroutines| {
      var end := Turn(cfg, ins, false, k, w, inst);
      TurnAgrees(cfg, ins, k, w, inst, o);
      Gates.EditsKeepLists(ProcessingIfMissing(cfg, inst, cfg.subroutines[k].name, false, ins.now).status,
        StepAt(ins, k).outcome.edits, ins.now);
      LoopKeeps(cfg, ins, original, k + 1, end.world, end.inst, o);
    }
  }

  /** From the gate on, with no initializer to take off: what was concluded is stored. */
  lemma OpenGateStores(cfg: Config, ins: Inputs, o: Object, w: World, inst: Object)
    requires Calm(ins) && cfg.spreader && !cfg.readOnly && !inst.deleting && Agrees(o, inst)
    requires w.stored == Some(inst.(status := o.status)) && inst.status.initializers == o.status.initializers
    requires !InitializerPending(cfg, o.status.initializers)
    ensures var stored := FinishRun(cfg, ins, o, false, w, inst, 0).world.stored;
            stored.Some? && ScheduleOf(stored.value) == Rest.Target(cfg, ins, o.generation)
  {
    var marked, concluded := Log(w, MarkedFinal), Conclude(cfg, inst, 0, ins);
    Gates.WithoutAbsent(o.status.initializers, cfg.initializer);
    var gate := RemoveGate(cfg, marked, concluded, false, 0, ins.removal);
    assert gate.world == marked && gate.error.None?;
    assert gate.inst == concluded;
    CalmSend(cfg, marked, o, concluded, ins.status);
    var sent := SendFinalStatus(cfg, marked, o, concluded, ins.status);
    LabelLeavesSchedule(cfg, ins, sent.world, sent.inst);
  }

  /** With one to take off: the stored schedule comes back with the reply. */
  lemma PendingGateReloads(cfg: Config, ins: Inputs, o: Object, w: World, inst: Object)
    requires Calm(ins) && cfg.spreader && !cfg.readOnly && !inst.deleting && Agrees(o, inst)
    requires w.stored == Some(inst.(status := o.status)) && inst.status.initializers == o.status.initializers
    requires InitializerPending(cfg, o.status.initializers)
    ensures var stored := FinishRun(cfg, ins, o, false, w, inst, 0).world.stored;
            stored.Some? && ScheduleOf(stored.value) == ScheduleOf(o)
  {
    var marked, concluded := Log(w, MarkedFinal), Conclude(cfg, inst, 0, ins);
    Gates.WithoutAbsent(o.status.initializers, cfg.initializer);
    var gate := RemoveGate(cfg, marked, concluded, false, 0, ins.removal);
    assert gate.error.None? && gate.world.stored.Some?;
    assert ScheduleOf(gate.inst) == ScheduleOf(o) && ScheduleOf(gate.world.stored.value) == ScheduleOf(o);
    assert gate.inst.version == gate.world.stored.value.version && !gate.inst.deleting;
    var sent := SendFinalStatus(cfg, gate.world, o, gate.inst, ins.status);
    assert sent.error.None? && sent.world.stored.Some? && ScheduleOf(sent.world.stored.value) == ScheduleOf(o);
    assert !sent.world.stored.value.deleting;
    LabelLeavesSchedule(cfg, ins, sent.world, sent.inst);
  }

  lemma LabelLeavesSchedule(cfg: Config, ins: Inputs, w: World, inst: Object)
    requires Calm(ins) && w.stored.Some? && !w.stored.value.deleting
    ensures var stored := RemoveRefreshLabel(cfg, w, inst, 0, ins.refresh).world.stored;
            stored.Some? && ScheduleOf(stored.value) == ScheduleOf(w.stored.value)
  {
  }

  /** A successful, undisturbed run leaves the generation it worked on and the pause it drew
      exactly when no configured initializer was pending; otherwise the schedule is what it
      was before. */
  lemma SuccessRestsExactlyWhen(cfg: Config, ins: Inputs, w: World, o: Object)
    requires w.stored == Some(o) && !o.deleting && cfg.spreader && !cfg.readOnly
    requires Calm(ins) && ReadyExactness.AllSettled(cfg, ins)
    ensures var stored := RunLoaded(cfg, ins, w, o).world.stored;
            && stored.Some?
            && ScheduleOf(stored.value) == if InitializerPending(cfg, o.status.initializers) then ScheduleOf(o)
                                           else Rest.Target(cfg, ins, o.generation)
  {
    CalmAdd(cfg, w, o, ins.add);
    var added := AddFinalizers(cfg, w, o, ins.add);
    var inst := ReadyUnknownIfMissing(cfg, added.inst, ins.now);
    LoopKeeps(cfg, ins, o, 0, added.world, inst, o);
    var end := RunSubroutines(cfg, ins, o, false, 0, added.world, inst, 0);
    if InitializerPending(cfg, o.status.initializers) {
      PendingGateReloads(cfg, ins, o, end.world, end.inst);
    } else {
      OpenGateStores(cfg, ins, o, end.world, end.inst);
    }
  }
}
