/** Spreading never forgets unfinished work, and leaves finished work alone until its time. */
module Spreading {
  import opened Options
  import opened Conditions
  import opened Subroutines
  import opened Cluster
  import opened Spread
  import opened Lifecycle
  import opened Frames
  import Finalizers
  import Progress
  import Teardown

  /** The two status fields the spreader reads. */
  datatype Schedule = Schedule(observedGeneration: int, nextReconcile: int)

  function ScheduleOf(o: Object): Schedule {
    Schedule(o.status.observedGeneration, o.status.nextReconcile)
  }

  /** The object still has schedule `s` and at least generation `g`, and, if `marked`, the
      refresh label. */
  predicate Waits(o: Option<Object>, s: Schedule, g: int, marked: bool) {
    o.Some? ==>
      && ScheduleOf(o.value) == s
      && o.value.generation >= g
      && (marked ==> RefreshRequested(o.value))
  }

  /** So it is now, was at every moment since `from`, and when a status was sent. */
  predicate Waiting(w: World, from: nat, s: Schedule, g: int, marked: bool) {
    && from <= |w.trace|
    && Waits(w.stored, s, g, marked)
    && (forall k :: from <= k < |w.trace| && w.trace[k].Stored? ==> Waits(w.trace[k].state, s, g, marked))
    && (forall k :: from <= k < |w.trace| && w.trace[k].StatusSent? ==> Waits(w.trace[k].onto, s, g, marked))
  }

  /** A status that carries another schedule than the stored object has lands: it is the
      next thing noted after the object it left. */
  predicate Lands(before: Event, e: Event) {
    && e.StatusSent? && e.onto.Some? && before.Stored? && before.state.Some?
    && ScheduleOf(before.state.value) == ScheduleOf(e.inst) != ScheduleOf(e.onto.value)
  }

  predicate LandsAt(tr: seq<Event>, k: nat) {
    0 < k < |tr| && Lands(tr[k - 1], tr[k])
  }

  predicate Rescheduled(tr: seq<Event>, from: nat) {
    exists k: nat | from < k < |tr| :: LandsAt(tr, k)
  }

  lemma LandsAtExtends(tr: seq<Event>, tr': seq<Event>, k: nat)
    requires tr <= tr' && LandsAt(tr, k)
    ensures LandsAt(tr', k)
  {
    assert tr'[k] == tr[k] && tr'[k - 1] == tr[k - 1];
  }

  lemma RescheduledExtends(tr: seq<Event>, tr': seq<Event>, from: nat)
    requires tr <= tr' && Rescheduled(tr, from)
    ensures Rescheduled(tr', from)
  {
    var k: nat :| from < k < |tr| && LandsAt(tr, k);
    LandsAtExtends(tr, tr', k);
  }

  lemma WaitingIsNotRescheduled(w: World, from: nat, s: Schedule, g: int, marked: bool)
    requires Waiting(w, from, s, g, marked)
    ensures !Rescheduled(w.trace, from)
  {
    forall k: nat | from < k < |w.trace| ensures !LandsAt(w.trace, k) {
      assert from <= k - 1 && !Lands(w.trace[k - 1], w.trace[k]);
    }
  }

  /** The subroutines from the `k`-th on end the run for good: none fails and nothing asks
      for a requeue, or the first that fails is not to be retried. */
  predicate EndsFinal(cfg: Config, ins: Inputs, k: nat, acc: int)
    requires k <= |cfg.subroutines|
    decreases |cfg.subroutines| - k
  {
    if k == |cfg.subroutines| then acc == 0
    else
      var out := StepAt(ins, k).outcome;
      if out.Cause().Some? then !out.error.value.Retry()
      else EndsFinal(cfg, ins, k + 1, Fold(acc, out.requeueAfter))
  }

  /** Some subroutine from the `k`-th on ends with an error the run sees. */
  predicate Fails(cfg: Config, ins: Inputs, k: nat) {
    exists j :: k <= j < |cfg.subroutines| && StepAt(ins, j).outcome.Cause().Some?
  }

  lemma {:induction false} AwaitWaiting(w: World, nudges: seq<Nudge>, from: nat, s: Schedule, g: int, marked: bool)
    requires Waiting(w, from, s, g, marked)
    ensures Waiting(Await(w, nudges), from, s, g, marked)
    decreases |nudges|
  {
    if nudges != [] && w.stored.Some? {
      AwaitWaiting(Put(w, Keep(Nudged(w.stored.value, nudges[0]))), nudges[1..], from, s, g, marked);
    }
  }

  lemma {:induction false} EditsKeepSchedule(st: Status, edits: seq<Edit>, now: int)
    ensures Edited(st, edits, now).observedGeneration == st.observedGeneration
    ensures Edited(st, edits, now).nextReconcile == st.nextReconcile
    decreases |edits|
  {
    if edits != [] {
      EditsKeepSchedule(ApplyEdit(st, edits[0], now), edits[1..], now);
    }
  }

  /** A patch of the object that leaves the labels out. */
  lemma PatchWaiting(w: World, p: Patch, fault: Fault, from: nat, s: Schedule, g: int, marked: bool)
    requires Waiting(w, from, s, g, marked) && (marked ==> p.labels.None?)
    ensures var (w', reply) := PatchObject(w, p, fault);
            Waiting(w', from, s, g, marked) && (reply.Replied? ==> ScheduleOf(reply.obj) == s)
  {
  }

  lemma AddWaiting(
    cfg: Config, w: World, inst: Object, call: Call, from: nat, s: Schedule, g: int, marked: bool)
    requires Waiting(w, from, s, g, marked) && ScheduleOf(inst) == s
    ensures var at := AddFinalizers(cfg, w, inst, call);
            Waiting(at.world, from, s, g, marked) && ScheduleOf(at.inst) == s
  {
    var w1 := Await(w, call.before);
    AwaitWaiting(w, call.before, from, s, g, marked);
    var modified := inst.(finalizers := WithAllFinalizers(inst.finalizers, cfg.subroutines));
    PatchWaiting(w1, MergeFrom(inst, modified), call.fault, from, s, g, marked);
  }

  lemma RemoveWaiting(
    cfg: Config, w: World, inst: Object, removed: seq<string>, fault: Fault,
    from: nat, s: Schedule, g: int, marked: bool)
    requires Waiting(w, from, s, g, marked) && ScheduleOf(inst) == s
    ensures var at := RemoveFinalizers(cfg, w, inst, removed, fault);
            Waiting(at.world, from, s, g, marked) && ScheduleOf(at.inst) == s
  {
    var modified := inst.(finalizers := WithoutFinalizers(inst.finalizers, removed));
    PatchWaiting(w, MergeFrom(inst, modified), fault, from, s, g, marked);
  }

  lemma SubroutineWaiting(
    cfg: Config, w: World, inst0: Object, i: nat, step: Step, time: int, from: nat, s: Schedule, g: int, marked: bool)
    requires i < |cfg.subroutines| && Waiting(w, from, s, g, marked) && ScheduleOf(inst0) == s
    ensures var end := ReconcileSubroutine(cfg, w, inst0, i, step, time);
            Waiting(end.world, from, s, g, marked) && ScheduleOf(end.inst) == s
  {
    var verb := VerbFor(cfg.subroutines[i], inst0);
    var w1 := if verb.Skip? then w else Log(w, Ran(i, verb, step.outcome));
    var w2 := Await(w1, step.patch.before);
    AwaitWaiting(w1, step.patch.before, from, s, g, marked);
    EditsKeepSchedule(inst0.status, step.outcome.edits, time);
    var inst1 := inst0.(status := Edited(inst0.status, step.outcome.edits, time));
    RemoveWaiting(cfg, w2, inst1, cfg.subroutines[i].finalizers, step.patch.fault, from, s, g, marked);
  }

  lemma TurnWaiting(
    cfg: Config, ins: Inputs, deletion: bool, k: nat, w: World, inst: Object,
    from: nat, s: Schedule, g: int, marked: bool)
    requires k < |cfg.subroutines| && Waiting(w, from, s, g, marked) && ScheduleOf(inst) == s
    ensures var end := Turn(cfg, ins, deletion, k, w, inst);
            Waiting(end.world, from, s, g, marked) && ScheduleOf(end.inst) == s
  {
    var i := Position(cfg, deletion, k);
    var prepared := ProcessingIfMissing(cfg, inst, cfg.subroutines[i].name, deletion, ins.now);
    SubroutineWaiting(cfg, w, prepared, i, StepAt(ins, k), ins.now, from, s, g, marked);
  }

  lemma UpdateLands(w: World, inst: Object, fault: Fault, from: nat, s: Schedule, g: int, marked: bool)
    requires Waiting(w, from, s, g, marked)
    ensures var w' := UpdateStatus(w, inst, fault).0;
            && w.trace <= w'.trace
            && (Waiting(w', from, s, g, marked) || (ScheduleOf(inst) != s && Rescheduled(w'.trace, from)))
  {
    var w' := UpdateStatus(w, inst, fault).0;
    if w'.stored != w.stored && w'.stored.Some? && ScheduleOf(inst) != s {
      assert LandsAt(w'.trace, |w.trace| + 1);
    }
  }

  /** A status with any schedule: either nothing of it gets through, or it lands. */
  lemma SendLands(
    cfg: Config, w: World, original: Object, inst: Object, call: Call, from: nat, s: Schedule, g: int, marked: bool)
    requires Waiting(w, from, s, g, marked)
    ensures var w' := SendStatus(cfg, w, original, inst, call).world;
            && w.trace <= w'.trace
            && (Waiting(w', from, s, g, marked) || (ScheduleOf(inst) != s && Rescheduled(w'.trace, from)))
  {
    AwaitWaiting(w, call.before, from, s, g, marked);
    AwaitIsMild(w, call.before);
    UpdateLands(Await(w, call.before), inst, call.fault, from, s, g, marked);
  }

  lemma StopWaiting(
    cfg: Config, ins: Inputs, original: Object, deletion: bool, i: nat, end: SubroutineEnd, acc: int,
    from: nat, s: Schedule, g: int, marked: bool)
    requires i < |cfg.subroutines| && end.error.Some?
    requires Waiting(end.world, from, s, g, marked) && ScheduleOf(end.inst) == s
    ensures var w' := StopRun(cfg, ins, original, deletion, i, end, acc).world;
            && end.world.trace <= w'.trace
            && (Waiting(w', from, s, g, marked)
                || (!end.retry && !end.inst.deleting && Rescheduled(w'.trace, from)))
  {
    var failed := SetSubroutine(cfg, end.inst, cfg.subroutines[i].name, deletion, acc, end.error, ins.now);
    var unready := SetReady(cfg, failed, CondFalse, ins.now);
    var final := if end.retry then unready else MarkFinal(cfg, unready, CondFalse, ins.now, ins.jitter);
    var w := if end.retry then end.world else Log(end.world, MarkedFinal);
    SendLands(cfg, w, original, final, ins.status, from, s, g, marked);
  }

  /** A run that cannot end for good: one on a deleting object, whose schedule is never set,
      or one whose answers do not end it. */
  ghost predicate Unfinished(
    cfg: Config, ins: Inputs, deletion: bool, k: nat, w: World, inst: Object, acc: int)
    requires k <= |cfg.subroutines|
  {
    if deletion then inst.deleting && Linked(w.stored, inst) else !inst.deleting && !EndsFinal(cfg, ins, k, acc)
  }

  lemma TurnUnfinished(cfg: Config, ins: Inputs, deletion: bool, k: nat, w: World, inst: Object, acc: int)
    requires k < |cfg.subroutines| && Unfinished(cfg, ins, deletion, k, w, inst, acc)
    ensures var end := Turn(cfg, ins, deletion, k, w, inst);
            && (end.error.None? ==>
                  Unfinished(cfg, ins, deletion, k + 1, end.world, end.inst, Fold(acc, end.requeueAfter)))
            && (end.error.Some? ==> end.retry || end.inst.deleting)
  {
    if deletion {
      Progress.TurnShrinks(cfg, ins, k, w, inst);
    } else {
      TurnIsFrozen(cfg, ins, deletion, k, w, inst);
    }
  }

  /** The loop leaves the schedule of the object alone, unless a status lands; and none lands
      in a run that cannot end for good. */
  lemma {:induction false} LoopWaiting(
    cfg: Config, ins: Inputs, original: Object, deletion: bool, k: nat, w: World, inst: Object, acc: int,
    from: nat, s: Schedule, g: int, marked: bool, unfinished: bool)
    requires k <= |cfg.subroutines| && Waiting(w, from, s, g, marked) && ScheduleOf(inst) == s
    requires unfinished ==> Unfinished(cfg, ins, deletion, k, w, inst, acc)
    ensures var end := RunSubroutines(cfg, ins, original, deletion, k, w, inst, acc);
            && (Waiting(WorldOf(end), from, s, g, marked) || (!unfinished && Rescheduled(WorldOf(end).trace, from)))
            && (end.Completed? ==>
                  && Waiting(end.world, from, s, g, marked) && ScheduleOf(end.inst) == s
                  && (unfinished ==> end.requeueAfter != 0 || end.inst.deleting))
    decreases |cfg.subroutines| - k
  {
    if k < |cfg.subroutines| {
      var end := Turn(cfg, ins, deletion, k, w, inst);
      TurnWaiting(cfg, ins, deletion, k, w, inst, from, s, g, marked);
      if unfinished {
        TurnUnfinished(cfg, ins, deletion, k, w, inst, acc);
      }
      if end.error.None? {
        LoopWaiting(cfg, ins, original, deletion, k + 1, end.world, end.inst, Fold(acc, end.requeueAfter),
          from, s, g, marked, unfinished);
      } else {
        StopWaiting(cfg, ins, original, deletion, Position(cfg, deletion, k), end, acc, from, s, g, marked);
      }
    }
  }

  /** A patch of the status that leaves the schedule out. */
  lemma PatchStatusWaiting(w: World, p: Patch, fault: Fault, from: nat, s: Schedule, g: int, marked: bool)
    requires Waiting(w, from, s, g, marked) && p.observedGeneration.None? && p.nextReconcile.None?
    ensures var (w', reply) := PatchStatus(w, p, fault);
            && w.trace <= w'.trace && Waiting(w', from, s, g, marked)
            && (reply.Replied? ==> ScheduleOf(reply.obj) == s)
  {
  }

  /** The patch that takes a gate's entry off leaves the stored schedule, and reloads it. */
  lemma GateWaiting(
    cfg: Config, w: World, inst: Object, deletion: bool, acc: int, call: Call,
    from: nat, s: Schedule, g: int, marked: bool)
    requires Waiting(w, from, s, g, marked)
    ensures var at := RemoveGate(cfg, w, inst, deletion, acc, call);
            && Waiting(at.world, from, s, g, marked)
            && (at.error.None? ==> ScheduleOf(at.inst) == s || ScheduleOf(at.inst) == ScheduleOf(inst))
  {
    var w1 := Await(w, call.before);
    AwaitWaiting(w, call.before, from, s, g, marked);
    var t := inst.(status := inst.status.(terminators := Without(inst.status.terminators, cfg.terminator)));
    var i := inst.(status := inst.status.(initializers := Without(inst.status.initializers, cfg.initializer)));
    PatchStatusWaiting(w1, MergeFrom(inst, t), call.fault, from, s, g, marked);
    PatchStatusWaiting(w1, MergeFrom(inst, i), call.fault, from, s, g, marked);
  }

  /** A finished loop sets the schedule only if nothing asked for a requeue and the object is
      not being deleted; the refresh label goes only when the run ends without error. */
  lemma FinishWaiting(
    cfg: Config, ins: Inputs, original: Object, deletion: bool, w: World, inst: Object, acc: int,
    from: nat, s: Schedule, g: int, marked: bool)
    requires Waiting(w, from, s, g, marked) && ScheduleOf(inst) == s
    ensures var done := FinishRun(cfg, ins, original, deletion, w, inst, acc);
            (marked ==> done.result.error.Some?) ==>
              || Waiting(done.world, from, s, g, marked)
              || (acc == 0 && !inst.deleting && Rescheduled(done.world.trace, from))
  {
    var noted := if acc == 0 then Log(w, MarkedFinal) else w;
    var concluded := Conclude(cfg, inst, acc, ins);
    var gate := RemoveGate(cfg, noted, concluded, deletion, acc, ins.removal);
    GateWaiting(cfg, noted, concluded, deletion, acc, ins.removal, from, s, g, marked);
    if gate.error.None? {
      SendFinalWaiting(cfg, gate.world, original, gate.inst, ins.status, from, s, g, marked);
      var sent := SendFinalStatus(cfg, gate.world, original, gate.inst, ins.status);
      if sent.error.None? && !marked {
        var done := RemoveRefreshLabel(cfg, sent.world, sent.inst, acc, ins.refresh);
        RemoveRefreshLabelIsMild(cfg, sent.world, sent.inst, acc, ins.refresh);
        if Waiting(sent.world, from, s, g, marked) {
          LabelWaiting(cfg, sent.world, sent.inst, acc, ins.refresh, from, s, g);
        } else {
          RescheduledExtends(sent.world.trace, done.world.trace, from);
        }
      }
    }
  }

  lemma SendFinalWaiting(
    cfg: Config, w: World, original: Object, inst: Object, call: Call, from: nat, s: Schedule, g: int, marked: bool)
    requires Waiting(w, from, s, g, marked)
    ensures var at := SendFinalStatus(cfg, w, original, inst, call);
            Waiting(at.world, from, s, g, marked) || (ScheduleOf(inst) != s && Rescheduled(at.world.trace, from))
  {
    AwaitWaiting(w, call.before, from, s, g, marked);
    SendLands(cfg, w, original, inst, call, from, s, g, marked);
  }

  lemma LabelWaiting(cfg: Config, w: World, inst: Object, acc: int, call: Call, from: nat, s: Schedule, g: int)
    requires Waiting(w, from, s, g, false)
    ensures Waiting(RemoveRefreshLabel(cfg, w, inst, acc, call).world, from, s, g, false)
  {
    AwaitWaiting(w, call.before, from, s, g, false);
  }

  /** One run, from the object it loaded: the schedule stays unless a status with another one
      lands, and none does on a deleting object or with answers that do not end the run. */
  lemma LoadedWaiting(cfg: Config, ins: Inputs, w: World, o: Object, marked: bool)
    requires w.stored == Some(o) && (marked ==> RefreshRequested(o))
    ensures var done := RunLoaded(cfg, ins, w, o);
            && w.trace <= done.world.trace
            && ((marked ==> done.result.error.Some?) ==>
                  || Waiting(done.world, |w.trace|, ScheduleOf(o), o.generation, marked)
                  || (!o.deleting && EndsFinal(cfg, ins, 0, 0) && Rescheduled(done.world.trace, |w.trace|)))
  {
    var from, s, g := |w.trace|, ScheduleOf(o), o.generation;
    var added := AddFinalizers(cfg, w, o, ins.add);
    AddWaiting(cfg, w, o, ins.add, from, s, g, marked);
    Teardown.LoadedExtends(cfg, ins, w, o);
    if added.error.None? && ins.prepare.None? {
      var inst := ReadyUnknownIfMissing(cfg, added.inst, ins.now);
      var unfinished := o.deleting || !EndsFinal(cfg, ins, 0, 0);
      AddedIsLinked(cfg, w, o, ins.add);
      var end := RunSubroutines(cfg, ins, o, o.deleting, 0, added.world, inst, 0);
      LoopWaiting(cfg, ins, o, o.deleting, 0, added.world, inst, 0, from, s, g, marked, unfinished);
      if end.Completed? {
        FinishWaiting(cfg, ins, o, o.deleting, end.world, end.inst, end.requeueAfter, from, s, g, marked);
      }
    }
  }

  lemma AddedIsLinked(cfg: Config, w: World, o: Object, call: Call)
    requires w.stored == Some(o)
    ensures var at := AddFinalizers(cfg, w, o, call);
            at.error.None? ==> at.inst.deleting == o.deleting && (o.deleting ==> Linked(at.world.stored, at.inst))
  {
    AwaitIsMild(w, call.before);
    Finalizers.WithAllFinalizersMembers(o.finalizers, cfg.subroutines);
  }

  /** A status with a new schedule lands only in a run on a live object that ends for good. */
  lemma OnlyFinalRunsReschedule(cfg: Config, ins: Inputs, w: World, o: Object)
    requires w.stored == Some(o) && Rescheduled(RunLoaded(cfg, ins, w, o).world.trace, |w.trace|)
    ensures !o.deleting && EndsFinal(cfg, ins, 0, 0)
  {
    var done := RunLoaded(cfg, ins, w, o);
    LoadedWaiting(cfg, ins, w, o, false);
    if Waiting(done.world, |w.trace|, ScheduleOf(o), o.generation, false) {
      WaitingIsNotRescheduled(done.world, |w.trace|, ScheduleOf(o), o.generation, false);
    }
  }

  /** A run whose answers do not end it, or whose status does not land, leaves the schedule of
      the object as it was; one that ends in an error leaves the refresh label as well. */
  lemma UnfinishedRunKeepsWaiting(cfg: Config, w0: World, ins: Inputs)
    requires w0.stored.Some?
    requires !EndsFinal(cfg, ins, 0, 0) || !Rescheduled(Reconcile(cfg, w0, ins).world.trace, |w0.trace|)
    ensures var done := Reconcile(cfg, w0, ins);
            && Waits(done.world.stored, ScheduleOf(w0.stored.value), w0.stored.value.generation, false)
            && (RefreshRequested(w0.stored.value) && done.result.error.Some? ==>
                  Waits(done.world.stored, ScheduleOf(w0.stored.value), w0.stored.value.generation, true))
  {
    var o0, w := w0.stored.value, Await(w0, ins.get.before);
    var s, g := ScheduleOf(o0), o0.generation;
    AwaitIsMild(w0, ins.get.before);
    AwaitWaiting(w0, ins.get.before, |w0.trace|, s, g, false);
    AwaitWaiting(w0, ins.get.before, |w0.trace|, s, g, RefreshRequested(o0));
    if ins.get.fault.Served? && w.stored.Some? && !Quiet(cfg, w.stored.value, ins.now) {
      LoadedWaiting(cfg, ins, w, w.stored.value, false);
      LoadedWaiting(cfg, ins, w, w.stored.value, RefreshRequested(w.stored.value));
    }
  }

  // ---------------------------------------------------------------- histories

  /** At time `t` and ever after, the spreader will let a run through. */
  predicate Outstanding(o: Option<Object>, t: int) {
    o.Some? ==> o.value.status.observedGeneration <= o.value.generation && Due(o.value, t)
  }

  lemma WaitsOutstanding(o: Object, o': Option<Object>, t: int)
    requires Outstanding(Some(o), t) && Waits(o', ScheduleOf(o), o.generation, false)
    ensures Outstanding(o', t)
  {
  }

  /** No run of the history ends for good, by its answers. */
  predicate AllUnfinished(cfg: Config, h: seq<Action>) {
    forall a :: a in h && a.Run? ==> !EndsFinal(cfg, a.ins, 0, 0)
  }

  lemma ActOutstanding(cfg: Config, w: World, a: Action, t: int)
    requires Outstanding(w.stored, t)
    requires (a.Run? ==> !EndsFinal(cfg, a.ins, 0, 0)) || !Rescheduled(Act(cfg, w, a).trace, |w.trace|)
    ensures Outstanding(Act(cfg, w, a).stored, t)
  {
    var w1 := Act(cfg, w, a);
    match a {
      case Run(ins) =>
        if w.stored.Some? {
          UnfinishedRunKeepsWaiting(cfg, w, ins);
          WaitsOutstanding(w.stored.value, w1.stored, t);
        } else {
          assert Await(w, ins.get.before) == w;
        }
      case Interfere(c) =>
        if w.stored.Some? && w1.stored.Some? {
          assert Waits(w1.stored, ScheduleOf(w.stored.value), w.stored.value.generation, false);
          WaitsOutstanding(w.stored.value, w1.stored, t);
        }
    }
  }

  lemma {:induction false} PlayOutstanding(cfg: Config, w: World, h: seq<Action>, t: int)
    requires Outstanding(w.stored, t)
    requires AllUnfinished(cfg, h) || !Rescheduled(Play(cfg, w, h).trace, |w.trace|)
    ensures Outstanding(Play(cfg, w, h).stored, t)
    decreases |h|
  {
    if h != [] {
      var w1, w' := Act(cfg, w, h[0]), Play(cfg, w, h);
      assert h[0] in h;
      ActExtends(cfg, w, h[0]);
      PlayExtends(cfg, w1, h[1..]);
      if Rescheduled(w1.trace, |w.trace|) {
        RescheduledExtends(w1.trace, w'.trace, |w.trace|);
      }
      ActOutstanding(cfg, w, h[0], t);
      PlayOutstanding(cfg, w1, h[1..], t);
    }
  }

  lemma ActExtends(cfg: Config, w: World, a: Action)
    ensures w.trace <= Act(cfg, w, a).trace
  {
    if a.Run? {
      var w1 := Await(w, a.ins.get.before);
      AwaitIsMild(w, a.ins.get.before);
      if w1.stored.Some? {
        Teardown.LoadedExtends(cfg, a.ins, w1, w1.stored.value);
      }
    }
  }

  lemma {:induction false} PlayExtends(cfg: Config, w: World, h: seq<Action>)
    ensures w.trace <= Play(cfg, w, h).trace
    decreases |h|
  {
    if h != [] {
      ActExtends(cfg, w, h[0]);
      PlayExtends(cfg, Act(cfg, w, h[0]), h[1..]);
    }
  }

  /** A run at time `t` that reads the object goes to work on it. */
  ghost predicate GoesToWork(cfg: Config, w: World, t: int)
    requires w.stored.Some?
  {
    forall ins: Inputs :: ins.now == t && ins.get == Call([], Served) ==>
      Reconcile(cfg, w, ins) == RunLoaded(cfg, ins, w, w.stored.value)
  }

  /** Only a live object that was not edited since it was observed, whose time has not come and
      that nobody asks to refresh is passed over, and only with a spreader. */
  lemma WorksExactlyWhen(cfg: Config, w: World, t: int)
    requires w.stored.Some?
    ensures var o := w.stored.value;
            GoesToWork(cfg, w, t)
            <==> !cfg.spreader || o.deleting || o.generation != o.status.observedGeneration
                 || t > o.status.nextReconcile || "platform-mesh.io/refresh-reconcile" in o.labels
  {
    if Quiet(cfg, w.stored.value, t) {
      var served := Call([], Served);
      var ins := Inputs(t, 0, served, served, Some(OperatorError(Some(""), true)), [], served, served, served);
      assert RunLoaded(cfg, ins, w, w.stored.value).result.error.Some?;
      assert Reconcile(cfg, w, ins).result.error.None?;
    }
  }

  /** Unfinished work is never forgotten. While the spec has changed since it was last
      observed, or the time has come, every run that reads the object goes to work on it, at
      every later time: through every history of runs that end in a requeue or a retryable
      error, and through every other history until a status with a new schedule lands. */
  lemma UnfinishedIsNeverForgotten(cfg: Config, w: World, h: seq<Action>, t: int, t': int)
    requires w.stored.Some? && t <= t'
    requires var o := w.stored.value;
             && o.status.observedGeneration <= o.generation
             && (o.generation != o.status.observedGeneration || t > o.status.nextReconcile)
    requires AllUnfinished(cfg, h) || !Rescheduled(Play(cfg, w, h).trace, |w.trace|)
    ensures Play(cfg, w, h).stored.Some? ==> GoesToWork(cfg, Play(cfg, w, h), t')
  {
    PlayOutstanding(cfg, w, h, t);
    if Play(cfg, w, h).stored.Some? {
      WorksExactlyWhen(cfg, Play(cfg, w, h), t');
    }
  }
}
