/** Generations and versions: what the controller has observed is never ahead of the spec,
    and a status only lands on the generation it was computed for. */
module Generations {
  import opened Options
  import opened Conditions
  import opened Subroutines
  import opened Cluster
  import opened Lifecycle
  import opened Frames
  import Spreading

  /** The instance is no newer than the stored object, and of the same version only if of
      the same generation. What it has observed is ahead of the spec by `slack` at most. */
  predicate Fits(stored: Option<Object>, inst: Object, slack: nat) {
    stored.Some? ==>
      && inst.generation <= stored.value.generation
      && inst.status.observedGeneration <= stored.value.generation + slack
      && inst.version <= stored.value.version
      && (inst.version == stored.value.version ==> inst.generation == stored.value.generation)
  }

  /** `slack` is how far the object was ahead of its spec to begin with, usually not at all. */
  predicate NotAhead(o: Option<Object>, slack: nat) {
    o.Some? ==> o.value.status.observedGeneration <= o.value.generation + slack
  }

  /** An event since `from` is in order: no stored state has observed more than its
      generation, and an accepted status met the generation of its instance. */
  predicate TimelyEvent(e: Event, slack: nat) {
    && (e.Stored? ==> NotAhead(e.state, slack))
    && (e.StatusSent? && e.acked ==> e.onto.Some? && e.onto.value.generation == e.inst.generation)
  }

  predicate Timely(w: World, from: nat, slack: nat) {
    && from <= |w.trace|
    && NotAhead(w.stored, slack)
    && (forall k :: from <= k < |w.trace| ==> TimelyEvent(w.trace[k], slack))
  }

  lemma {:induction false} AwaitTimely(w: World, nudges: seq<Nudge>, inst: Object, from: nat, slack: nat)
    requires Timely(w, from, slack) && Fits(w.stored, inst, slack)
    ensures Timely(Await(w, nudges), from, slack) && Fits(Await(w, nudges).stored, inst, slack)
    decreases |nudges|
  {
    if nudges != [] && w.stored.Some? {
      AwaitTimely(Put(w, Keep(Nudged(w.stored.value, nudges[0]))), nudges[1..], inst, from, slack);
    }
  }

  lemma PatchStatusTimely(w: World, p: Patch, fault: Fault, inst: Object, from: nat, slack: nat)
    requires Timely(w, from, slack) && Fits(w.stored, inst, slack) && p.observedGeneration.None?
    ensures var (w', reply) := PatchStatus(w, p, fault);
            && Timely(w', from, slack)
            && (reply.Replied? ==> Fits(w'.stored, reply.obj, slack))
  {
  }

  lemma SendTimely(cfg: Config, w: World, original: Object, inst: Object, call: Call, from: nat, slack: nat)
    requires Timely(w, from, slack) && Fits(w.stored, inst, slack)
    ensures var at := SendStatus(cfg, w, original, inst, call);
            Timely(at.world, from, slack) && (at.error.None? ==> Fits(at.world.stored, at.inst, slack))
  {
    AwaitTimely(w, call.before, inst, from, slack);
  }

  lemma AddTimely(cfg: Config, w: World, inst: Object, call: Call, from: nat, slack: nat)
    requires Timely(w, from, slack) && Fits(w.stored, inst, slack)
    ensures var at := AddFinalizers(cfg, w, inst, call);
            Timely(at.world, from, slack) && (at.error.None? ==> Fits(at.world.stored, at.inst, slack))
  {
    var w1 := Await(w, call.before);
    AwaitTimely(w, call.before, inst, from, slack);
    var modified := inst.(finalizers := WithAllFinalizers(inst.finalizers, cfg.subroutines));
  }

  lemma RemoveTimely(cfg: Config, w: World, inst: Object, removed: seq<string>, fault: Fault, from: nat, slack: nat)
    requires Timely(w, from, slack) && Fits(w.stored, inst, slack)
    ensures var at := RemoveFinalizers(cfg, w, inst, removed, fault);
            Timely(at.world, from, slack) && Fits(at.world.stored, at.inst, slack)
  {
    var modified := inst.(finalizers := WithoutFinalizers(inst.finalizers, removed));
  }

  lemma SubroutineTimely(cfg: Config, w: World, inst0: Object, i: nat, step: Step, now: int, from: nat, slack: nat)
    requires i < |cfg.subroutines| && Timely(w, from, slack) && Fits(w.stored, inst0, slack)
    ensures var end := ReconcileSubroutine(cfg, w, inst0, i, step, now);
            Timely(end.world, from, slack) && Fits(end.world.stored, end.inst, slack)
  {
    var verb := VerbFor(cfg.subroutines[i], inst0);
    var w1 := if verb.Skip? then w else Log(w, Ran(i, verb, step.outcome));
    Spreading.EditsKeepSchedule(inst0.status, step.outcome.edits, now);
    var inst1 := inst0.(status := Edited(inst0.status, step.outcome.edits, now));
    AwaitTimely(w1, step.patch.before, inst0, from, slack);
    AwaitTimely(w1, step.patch.before, inst1, from, slack);
    RemoveTimely(cfg, Await(w1, step.patch.before), inst1, cfg.subroutines[i].finalizers, step.patch.fault,
      from, slack);
  }

  lemma TurnTimely(cfg: Config, ins: Inputs, deletion: bool, k: nat, w: World, inst: Object, from: nat, slack: nat)
    requires k < |cfg.subroutines| && Timely(w, from, slack) && Fits(w.stored, inst, slack)
    ensures var end := Turn(cfg, ins, deletion, k, w, inst);
            Timely(end.world, from, slack) && Fits(end.world.stored, end.inst, slack)
  {
    var i := Position(cfg, deletion, k);
    var prepared := ProcessingIfMissing(cfg, inst, cfg.subroutines[i].name, deletion, ins.now);
    SubroutineTimely(cfg, w, prepared, i, StepAt(ins, k), ins.now, from, slack);
  }

  lemma StopTimely(
    cfg: Config, ins: Inputs, original: Object, deletion: bool, i: nat, end: SubroutineEnd, acc: int,
    from: nat, slack: nat)
    requires i < |cfg.subroutines| && end.error.Some?
    requires Timely(end.world, from, slack) && Fits(end.world.stored, end.inst, slack)
    ensures Timely(StopRun(cfg, ins, original, deletion, i, end, acc).world, from, slack)
  {
    var failed := SetSubroutine(cfg, end.inst, cfg.subroutines[i].name, deletion, acc, end.error, ins.now);
    var unready := SetReady(cfg, failed, CondFalse, ins.now);
    var final := if end.retry then unready else MarkFinal(cfg, unready, CondFalse, ins.now, ins.jitter);
    var w := if end.retry then end.world else Log(end.world, MarkedFinal);
    SendTimely(cfg, w, original, final, ins.status, from, slack);
  }

  lemma {:induction false} LoopTimely(
    cfg: Config, ins: Inputs, original: Object, deletion: bool, k: nat, w: World, inst: Object, acc: int,
    from: nat, slack: nat)
    requires k <= |cfg.subroutines| && Timely(w, from, slack) && Fits(w.stored, inst, slack)
    ensures var end := RunSubroutines(cfg, ins, original, deletion, k, w, inst, acc);
            Timely(WorldOf(end), from, slack) && (end.Completed? ==> Fits(end.world.stored, end.inst, slack))
    decreases |cfg.subroutines| - k
  {
    if k < |cfg.subroutines| {
      var end := Turn(cfg, ins, deletion, k, w, inst);
      TurnTimely(cfg, ins, deletion, k, w, inst, from, slack);
      if end.error.Some? {
        StopTimely(cfg, ins, original, deletion, Position(cfg, deletion, k), end, acc, from, slack);
      } else {
        LoopTimely(cfg, ins, original, deletion, k + 1, end.world, end.inst, Fold(acc, end.requeueAfter), from, slack);
      }
    }
  }

  lemma GateTimely(cfg: Config, w: World, inst: Object, deletion: bool, acc: int, call: Call, from: nat, slack: nat)
    requires Timely(w, from, slack) && Fits(w.stored, inst, slack)
    ensures var at := RemoveGate(cfg, w, inst, deletion, acc, call);
            Timely(at.world, from, slack) && (at.error.None? ==> Fits(at.world.stored, at.inst, slack))
  {
    var w1 := Await(w, call.before);
    AwaitTimely(w, call.before, inst, from, slack);
    var t := inst.(status := inst.status.(terminators := Without(inst.status.terminators, cfg.terminator)));
    var i := inst.(status := inst.status.(initializers := Without(inst.status.initializers, cfg.initializer)));
    PatchStatusTimely(w1, MergeFrom(inst, t), call.fault, inst, from, slack);
    PatchStatusTimely(w1, MergeFrom(inst, i), call.fault, inst, from, slack);
  }

  lemma RefreshTimely(cfg: Config, w: World, inst: Object, acc: int, call: Call, from: nat, slack: nat)
    requires Timely(w, from, slack) && Fits(w.stored, inst, slack)
    ensures Timely(RemoveRefreshLabel(cfg, w, inst, acc, call).world, from, slack)
  {
    AwaitTimely(w, call.before, inst, from, slack);
    var modified := inst.(labels := inst.labels - {REFRESH_LABEL});
  }

  lemma FinishTimely(
    cfg: Config, ins: Inputs, original: Object, deletion: bool, w: World, inst: Object, acc: int, from: nat, slack: nat)
    requires Timely(w, from, slack) && Fits(w.stored, inst, slack)
    ensures Timely(FinishRun(cfg, ins, original, deletion, w, inst, acc).world, from, slack)
  {
    var marked := if acc == 0 then Log(w, MarkedFinal) else w;
    var gate := RemoveGate(cfg, marked, Conclude(cfg, inst, acc, ins), deletion, acc, ins.removal);
    GateTimely(cfg, marked, Conclude(cfg, inst, acc, ins), deletion, acc, ins.removal, from, slack);
    if gate.error.None? {
      var sent := SendFinalStatus(cfg, gate.world, original, gate.inst, ins.status);
      AwaitTimely(gate.world, ins.status.before, gate.inst, from, slack);
      SendTimely(cfg, gate.world, original, gate.inst, ins.status, from, slack);
      if sent.error.None? {
        RefreshTimely(cfg, sent.world, sent.inst, acc, ins.refresh, from, slack);
      }
    }
  }

  lemma LoadedTimely(cfg: Config, ins: Inputs, w: World, o: Object, from: nat, slack: nat)
    requires w.stored == Some(o) && Timely(w, from, slack)
    ensures Timely(RunLoaded(cfg, ins, w, o).world, from, slack)
  {
    var added := AddFinalizers(cfg, w, o, ins.add);
    AddTimely(cfg, w, o, ins.add, from, slack);
    if added.error.None? && ins.prepare.None? {
      var inst := ReadyUnknownIfMissing(cfg, added.inst, ins.now);
      var end := RunSubroutines(cfg, ins, o, o.deleting, 0, added.world, inst, 0);
      LoopTimely(cfg, ins, o, o.deleting, 0, added.world, inst, 0, from, slack);
      if end.Completed? {
        FinishTimely(cfg, ins, o, o.deleting, end.world, end.inst, end.requeueAfter, from, slack);
      }
    }
  }

  lemma ActTimely(cfg: Config, w: World, a: Action, from: nat, slack: nat)
    requires Timely(w, from, slack)
    ensures Timely(Act(cfg, w, a), from, slack)
  {
    if a.Run? {
      var w1 := Await(w, a.ins.get.before);
      if w.stored.Some? {
        AwaitTimely(w, a.ins.get.before, w.stored.value, from, slack);
      }
      if w1.stored.Some? {
        LoadedTimely(cfg, a.ins, w1, w1.stored.value, from, slack);
      }
    }
  }

  /** In every history no stored state is further ahead of its spec than the first one was,
      so never ahead of it if that was not; and every status that is accepted meets the
      generation its instance was read at. */
  lemma {:induction false} NeverAheadOfTheSpec(cfg: Config, w: World, h: seq<Action>, from: nat, slack: nat)
    requires Timely(w, from, slack)
    ensures Timely(Play(cfg, w, h), from, slack)
    decreases |h|
  {
    if h != [] {
      ActTimely(cfg, w, h[0], from, slack);
      NeverAheadOfTheSpec(cfg, Act(cfg, w, h[0]), h[1..], from, slack);
    }
  }
}
