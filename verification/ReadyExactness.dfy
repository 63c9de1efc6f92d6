/** Exactly when Ready = True may be trusted: when it is about the current generation, and
    when every subroutine's own condition agrees with it. */
module ReadyExactness {
  import opened Options
  import opened Conditions
  import opened Subroutines
  import opened Cluster
  import opened Lifecycle
  import opened Frames
  import opened ReadySoundness
  import opened Quiescence
  import Gates

  /** The server accepts a status that says Ready = True. */
  predicate AcceptsReady(e: Event) {
    && e.StatusSent? && e.acked && e.onto.Some?
    && Find(e.inst.status.conditions, READY).Some?
    && Find(e.inst.status.conditions, READY).value.status.CondTrue?
  }

  // ---------------------------------------------------------------- a run that is served

  /** Every call is served, and others come in before the gate's patch only. */
  predicate ServedUpToTheGate(ins: Inputs) {
    var served := Call([], Served);
    && ins.add == served && ins.status == served && ins.prepare.None? && CalmSteps(ins)
    && ins.removal.fault == Served
  }

  predicate AllSettled(cfg: Config, ins: Inputs) {
    forall j :: 0 <= j < |cfg.subroutines| ==> Gates.Settled(StepAt(ins, j).outcome)
  }

  /** The loop of such a run changes nothing but the status of its instance. */
  lemma {:induction false} LoopRunsThrough(
    cfg: Config, ins: Inputs, original: Object, k: nat, w: World, inst: Object)
    requires k <= |cfg.subroutines| && !inst.deleting && CalmSteps(ins) && AllSettled(cfg, ins)
    ensures var end := RunSubroutines(cfg, ins, original, false, k, w, inst, 0);
            && end.Completed? && end.requeueAfter == 0 && w.trace <= end.world.trace
            && end.world.stored == w.stored && end.inst == inst.(status := end.inst.status)
    decreases |cfg.subroutines| - k
  {
    if k < |cfg.subroutines| {
      var end := Turn(cfg, ins, false, k, w, inst);
      CalmTurn(cfg, ins, k, w, inst);
      LoopRunsThrough(cfg, ins, original, k + 1, end.world, end.inst);
    }
  }

  /** What the gate makes of the concluded instance, and what it leaves in the store. */
  predicate Gated(w: World, concluded: Object, gate: Attempt) {
    && gate.error.None? && w.trace <= gate.world.trace && gate.world.stored.Some?
    && !gate.world.stored.value.deleting
    && gate.inst.version == gate.world.stored.value.version
    && gate.inst.deleting == gate.world.stored.value.deleting
    && gate.inst.status.conditions == concluded.status.conditions
  }

  /** The status is sent onto what the gate left, and accepted. */
  lemma GatedIsSent(cfg: Config, ins: Inputs, o: Object, w: World, inst: Object)
    requires cfg.conditions && !cfg.readOnly && ins.status == Call([], Served)
    requires var concluded := Conclude(cfg, inst, 0, ins);
             var gate := RemoveGate(cfg, Log(w, MarkedFinal), concluded, false, 0, ins.removal);
             Gated(w, concluded, gate) && gate.inst.status != o.status
    ensures var concluded := Conclude(cfg, inst, 0, ins);
            var gate := RemoveGate(cfg, Log(w, MarkedFinal), concluded, false, 0, ins.removal);
            var r := FinishRun(cfg, ins, o, false, w, inst, 0).world;
            var k := |gate.world.trace| + (if gate.inst.status == gate.world.stored.value.status then 0 else 1);
            && |w.trace| <= k < |r.trace|
            && r.trace[k] == StatusSent(gate.inst, gate.world.stored, true)
  {
    var marked := Log(w, MarkedFinal);
    var concluded := Conclude(cfg, inst, 0, ins);
    var gate := RemoveGate(cfg, marked, concluded, false, 0, ins.removal);
    var sent := SendFinalStatus(cfg, gate.world, o, gate.inst, ins.status);
    RemoveRefreshLabelIsMild(cfg, sent.world, sent.inst, 0, ins.refresh);
    var k := |gate.world.trace| + (if gate.inst.status == gate.world.stored.value.status then 0 else 1);
    assert sent.world.trace[k] == StatusSent(gate.inst, gate.world.stored, true);
  }

  /** The run on `o`, with the loop's result named. */
  function LoopOf(cfg: Config, ins: Inputs, w: World, o: Object): LoopEnd {
    var added := AddFinalizers(cfg, w, o, ins.add);
    RunSubroutines(cfg, ins, o, false, 0, added.world, ReadyUnknownIfMissing(cfg, added.inst, ins.now), 0)
  }

  lemma LoopOfServedRun(cfg: Config, ins: Inputs, w: World, o: Object)
    requires w.stored == Some(o) && !o.deleting && cfg.conditions && !cfg.readOnly
    requires WellBehaved(cfg, ins) && ServedUpToTheGate(ins) && AllSettled(cfg, ins)
    ensures var end := LoopOf(cfg, ins, w, o);
            && end.Completed? && end.requeueAfter == 0 && w.trace <= end.world.trace
            && end.world.stored.Some? && !end.inst.deleting
            && end.world.stored.value == end.inst.(status := o.status)
            && end.inst.generation == o.generation
            && end.inst.status.initializers == o.status.initializers
            && Find(end.inst.status.conditions, READY).Some?
            && Says(Conclude(cfg, end.inst, 0, ins).status.conditions, READY, CondTrue, o.generation)
            && RunLoaded(cfg, ins, w, o) == FinishRun(cfg, ins, o, false, end.world, end.inst, 0)
  {
    CalmAdd(cfg, w, o, ins.add);
    var added := AddFinalizers(cfg, w, o, ins.add);
    var inst, start := ReadyUnknownIfMissing(cfg, added.inst, ins.now), StartOf(cfg, ins, w, o);
    LoopRunsThrough(cfg, ins, o, 0, added.world, inst);
    LoadedReaches(cfg, ins, w, o);
    LoopSound(cfg, ins, start, o, 0, added.world, inst, 0, |added.world.trace|);
    var cs := LoopOf(cfg, ins, w, o).inst.status.conditions;
    SetThenFind(cs, ReadyCondition(CondTrue, o.generation), ins.now, READY);
  }

  /** A run at time 0 in which every call is served, with these answers, and these nudges
      just before the gate's patch. */
  function Surroundings(steps: seq<Step>, nudges: seq<Nudge>): Inputs {
    var served := Call([], Served);
    Inputs(0, 0, served, served, None, steps, Call(nudges, Served), served, served)
  }

  // ---------------------------------------------------------------- the current generation

  /** Every Ready = True that the server accepts in the run is about the generation of the
      object it is written on. */
  ghost predicate ReadyCurrentIn(cfg: Config, ins: Inputs, w: World, o: Object) {
    var tr := RunLoaded(cfg, ins, w, o).world.trace;
    forall k :: |w.trace| <= k < |tr| && AcceptsReady(tr[k]) ==>
      Says(tr[k].inst.status.conditions, READY, CondTrue, tr[k].onto.value.generation)
  }

  /** The spec changes just before the pending initializer is taken off: the patch reloads the
      version, and with it the right to write the status. */
  lemma ChangedBeforeThePatch(cfg: Config, w: World, inst: Object, o: Object)
    requires w.stored == Some(inst.(status := o.status)) && !inst.deleting && cfg.conditions
    requires InitializerPending(cfg, o.status.initializers) && inst.status.initializers == o.status.initializers
    ensures var ins := Surroundings([], [ChangeSpec]);
            var concluded := Conclude(cfg, inst, 0, ins);
            var gate := RemoveGate(cfg, Log(w, MarkedFinal), concluded, false, 0, ins.removal);
            && Gated(w, concluded, gate) && gate.inst.status != o.status
            && gate.world.stored.value.generation == inst.generation + 1
  {
    var ins, marked := Surroundings([], [ChangeSpec]), Log(w, MarkedFinal);
    var concluded := Conclude(cfg, inst, 0, ins);
    var x := inst.(status := o.status);
    var changed := Put(marked, Some(x.(generation := x.generation + 1, version := x.version + 1)));
    assert [ChangeSpec][1..] == [];
    assert Await(marked, [ChangeSpec]) == Await(changed, []) == changed;
    Gates.WithoutAbsent(o.status.initializers, cfg.initializer);
    var gate := RemoveGate(cfg, marked, concluded, false, 0, ins.removal);
    assert gate.inst.status.initializers == Without(o.status.initializers, cfg.initializer);
  }

  lemma LaggingRun(cfg: Config, w: World, o: Object)
    requires w.stored == Some(o) && !o.deleting && cfg.conditions && !cfg.readOnly
    requires InitializerPending(cfg, o.status.initializers)
    ensures WellBehaved(cfg, Surroundings([], [ChangeSpec]))
    ensures !ReadyCurrentIn(cfg, Surroundings([], [ChangeSpec]), w, o)
  {
    var ins := Surroundings([], [ChangeSpec]);
    LoopOfServedRun(cfg, ins, w, o);
    var end := LoopOf(cfg, ins, w, o);
    ChangedBeforeThePatch(cfg, end.world, end.inst, o);
    GatedIsSent(cfg, ins, o, end.world, end.inst);
    var concluded := Conclude(cfg, end.inst, 0, ins);
    var gate := RemoveGate(cfg, Log(end.world, MarkedFinal), concluded, false, 0, ins.removal);
    var tr := RunLoaded(cfg, ins, w, o).world.trace;
    var k :| |end.world.trace| <= k < |tr| && tr[k] == StatusSent(gate.inst, gate.world.stored, true);
    assert AcceptsReady(tr[k]);
    assert tr[k].onto.value.generation == o.generation + 1;
  }

  /** An accepted Ready = True is current in every run of well-behaved subroutines, whatever
      else happens in it, if and only if no configured initializer is pending on the object. */
  lemma ReadyIsCurrentExactlyWhen(cfg: Config, w: World, o: Object)
    requires w.stored == Some(o) && !o.deleting && cfg.conditions && !cfg.readOnly
    ensures (forall ins :: WellBehaved(cfg, ins) ==> ReadyCurrentIn(cfg, ins, w, o))
       <==> !InitializerPending(cfg, o.status.initializers)
  {
    if InitializerPending(cfg, o.status.initializers) {
      LaggingRun(cfg, w, o);
    } else {
      forall ins | WellBehaved(cfg, ins) ensures ReadyCurrentIn(cfg, ins, w, o) {
        var tr := RunLoaded(cfg, ins, w, o).world.trace;
        forall k | |w.trace| <= k < |tr| && AcceptsReady(tr[k])
          ensures Says(tr[k].inst.status.conditions, READY, CondTrue, tr[k].onto.value.generation)
        {
          ReadyIsCurrent(cfg, ins, w, o, k);
        }
      }
    }
  }

  // ---------------------------------------------------------------- the whole list

  /** No subroutine answers with a negative delay. */
  predicate NoneNegative(cfg: Config, ins: Inputs) {
    forall j :: 0 <= j < |cfg.subroutines| ==> StepAt(ins, j).outcome.requeueAfter >= 0
  }

  /** Every status of the run that says Ready = True says so of every subroutine as well. */
  ghost predicate ReadyCompleteIn(cfg: Config, ins: Inputs, w: World, o: Object) {
    var tr := RunLoaded(cfg, ins, w, o).world.trace;
    forall k, j :: |w.trace| <= k < |tr| && AcceptsReady(tr[k]) && 0 <= j < |cfg.subroutines| ==>
      && StepAt(ins, j).outcome.Clean()
      && Says(tr[k].inst.status.conditions, CName(cfg, j), CondTrue, StartOf(cfg, ins, w, o).generation)
  }

  /** No gate is pending: the run's own instance is what is sent. */
  lemma GateStandsOpen(cfg: Config, w: World, inst: Object, o: Object, steps: seq<Step>)
    requires w.stored == Some(inst.(status := o.status)) && !inst.deleting && cfg.conditions
    requires inst.status.initializers == [] && inst.status.conditions != o.status.conditions
    requires Find(inst.status.conditions, READY).Some? && Find(o.status.conditions, READY).None?
    ensures var ins := Surroundings(steps, []);
            var concluded := Conclude(cfg, inst, 0, ins);
            var gate := RemoveGate(cfg, Log(w, MarkedFinal), concluded, false, 0, ins.removal);
            Gated(w, concluded, gate) && gate.inst.status != o.status && gate.world.stored == w.stored
  {
    var ins := Surroundings(steps, []);
    SetThenFind(inst.status.conditions, ReadyCondition(CondTrue, inst.generation), 0, READY);
    var concluded := Conclude(cfg, inst, 0, ins);
    assert Find(concluded.status.conditions, READY).Some?;
  }

  /** An object whose list says that subroutine `j` has failed, and nothing else. */
  function FailedBefore(cfg: Config, j: nat): Object
    requires j < |cfg.subroutines|
  {
    var c := ErrorCondition(cfg.subroutines[j].name, false, 1, "");
    Object(1, 1, false, [], {}, Status([c], 0, [], [], 0, 0))
  }

  /** For all answers that settle the run, one of them with a negative delay: a run with these
      answers stores Ready = True beside the failure an earlier run had noted. */
  lemma ReadyBesideFailure(cfg: Config, ins: Inputs, j: nat)
    requires cfg.conditions && !cfg.readOnly && DistinctNames(cfg) && j < |cfg.subroutines|
    requires CalmSteps(ins) && ins == Surroundings(ins.steps, [])
    requires WellBehaved(cfg, ins) && AllSettled(cfg, ins) && StepAt(ins, j).outcome.requeueAfter < 0
    ensures var o := FailedBefore(cfg, j);
            var tr := RunLoaded(cfg, ins, World(Some(o), []), o).world.trace;
            exists k :: 0 <= k < |tr| && AcceptsReady(tr[k])
              && Says(tr[k].inst.status.conditions, CName(cfg, j), CondFalse, 1)
  {
    var o := FailedBefore(cfg, j);
    var w := World(Some(o), []);
    NamesApart(cfg, j, j);
    LoopOfServedRun(cfg, ins, w, o);
    var end := LoopOf(cfg, ins, w, o);
    GateStandsOpen(cfg, end.world, end.inst, o, ins.steps);
    GatedIsSent(cfg, ins, o, end.world, end.inst);
    var concluded := Conclude(cfg, end.inst, 0, ins);
    var gate := RemoveGate(cfg, Log(end.world, MarkedFinal), concluded, false, 0, ins.removal);
    var tr := RunLoaded(cfg, ins, w, o).world.trace;
    var k :| |end.world.trace| <= k < |tr| && tr[k] == StatusSent(gate.inst, gate.world.stored, true);
    ReadyIsSound(cfg, ins, w, o, k);
    assert Told(cfg, ins, StartOf(cfg, ins, w, o), tr[k].inst.status.conditions, j);
  }

  lemma TellsOfEach(cfg: Config, ins: Inputs, w: World, o: Object, k: nat)
    requires cfg.conditions && WellBehaved(cfg, ins) && w.stored == Some(o) && !o.deleting
    requires |w.trace| <= k < |RunLoaded(cfg, ins, w, o).world.trace|
    requires AcceptsReady(RunLoaded(cfg, ins, w, o).world.trace[k])
    ensures var cs := RunLoaded(cfg, ins, w, o).world.trace[k].inst.status.conditions;
            forall j :: 0 <= j < |cfg.subroutines| ==> Told(cfg, ins, StartOf(cfg, ins, w, o), cs, j)
  {
    ReadyIsSound(cfg, ins, w, o, k);
  }

  lemma ToldSettles(cfg: Config, ins: Inputs, start: Start, cs: seq<Condition>)
    requires DistinctNames(cfg) && forall j :: 0 <= j < |cfg.subroutines| ==> Told(cfg, ins, start, cs, j)
    requires AllSettled(cfg, ins) ==> NoneNegative(cfg, ins)
    ensures forall j :: 0 <= j < |cfg.subroutines| ==>
              StepAt(ins, j).outcome.Clean() && Says(cs, CName(cfg, j), CondTrue, start.generation)
  {
    forall j | 0 <= j < |cfg.subroutines| ensures Gates.Settled(StepAt(ins, j).outcome) {
      assert Told(cfg, ins, start, cs, j);
    }
    assert AllSettled(cfg, ins) && NoneNegative(cfg, ins);
    forall j | 0 <= j < |cfg.subroutines|
      ensures StepAt(ins, j).outcome.Clean() && Says(cs, CName(cfg, j), CondTrue, start.generation)
    {
      assert Told(cfg, ins, start, cs, j) && StepAt(ins, j).outcome.requeueAfter >= 0;
    }
  }

  lemma CompleteWithoutNegatives(cfg: Config, ins: Inputs, w: World, o: Object)
    requires cfg.conditions && DistinctNames(cfg) && WellBehaved(cfg, ins)
    requires w.stored == Some(o) && !o.deleting && (AllSettled(cfg, ins) ==> NoneNegative(cfg, ins))
    ensures ReadyCompleteIn(cfg, ins, w, o)
  {
    var tr := RunLoaded(cfg, ins, w, o).world.trace;
    forall k | |w.trace| <= k < |tr| && AcceptsReady(tr[k])
      ensures forall j :: 0 <= j < |cfg.subroutines| ==>
                && StepAt(ins, j).outcome.Clean()
                && Says(tr[k].inst.status.conditions, CName(cfg, j), CondTrue, StartOf(cfg, ins, w, o).generation)
    {
      TellsOfEach(cfg, ins, w, o, k);
      ToldSettles(cfg, ins, StartOf(cfg, ins, w, o), tr[k].inst.status.conditions);
    }
  }

  /** Ready = True goes with every subroutine's own condition, on all objects and in all
      surroundings in which the subroutines answer like this, if and only if the answers do
      not settle the run with a negative delay among them. */
  lemma ReadyIsCompleteExactlyWhen(cfg: Config, ins: Inputs)
    requires cfg.conditions && !cfg.readOnly && DistinctNames(cfg) && WellBehaved(cfg, ins)
    ensures (forall a, w: World, o :: SameAnswers(cfg, ins, a) && w.stored == Some(o) && !o.deleting ==>
               ReadyCompleteIn(cfg, a, w, o))
       <==> (AllSettled(cfg, ins) ==> NoneNegative(cfg, ins))
  {
    if AllSettled(cfg, ins) && !NoneNegative(cfg, ins) {
      var j: nat :| j < |cfg.subroutines| && StepAt(ins, j).outcome.requeueAfter < 0;
      var a := Surroundings(ServedSteps(cfg, ins), []);
      assert SameAnswers(cfg, ins, a);
      ReadyBesideFailure(cfg, a, j);
      assert !ReadyCompleteIn(cfg, a, World(Some(FailedBefore(cfg, j)), []), FailedBefore(cfg, j));
    } else {
      forall a, w: World, o | SameAnswers(cfg, ins, a) && w.stored == Some(o) && !o.deleting
        ensures ReadyCompleteIn(cfg, a, w, o)
      {
        assert WellBehaved(cfg, a);
        CompleteWithoutNegatives(cfg, a, w, o);
      }
    }
  }
}
