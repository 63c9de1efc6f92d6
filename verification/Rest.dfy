/** Finished work rests until its time, then wakes. */
module Rest {
  import opened Options
  import opened Conditions
  import opened Subroutines
  import opened Cluster
  import opened Spread
  import opened Lifecycle
  import opened Frames
  import opened Spreading
  import opened ReadySoundness
  import Gates

  predicate HasSchedule(o: Option<Object>, s: Schedule) {
    o.Some? ==> ScheduleOf(o.value) == s
  }

  /** Some status sent since `from` was accepted. */
  predicate Accepted(tr: seq<Event>, from: nat) {
    exists k :: from <= k < |tr| && tr[k].StatusSent? && tr[k].acked
  }

  /** If a status was accepted since `from`, the stored object has schedule `s`. */
  predicate Rested(w: World, from: nat, s: Schedule) {
    Accepted(w.trace, from) ==> HasSchedule(w.stored, s)
  }

  lemma SendRests(cfg: Config, w: World, original: Object, inst: Object, call: Call, from: nat)
    requires from <= |w.trace| && !Accepted(w.trace, from)
    ensures var at := SendStatus(cfg, w, original, inst, call);
            Rested(at.world, from, ScheduleOf(inst))
  {
    AwaitSends(w, call.before, None);
  }

  lemma {:induction false} AwaitKeepsSchedule(w: World, nudges: seq<Nudge>, s: Schedule)
    requires HasSchedule(w.stored, s)
    ensures HasSchedule(Await(w, nudges).stored, s)
    decreases |nudges|
  {
    if nudges != [] && w.stored.Some? {
      AwaitKeepsSchedule(Put(w, Keep(Nudged(w.stored.value, nudges[0]))), nudges[1..], s);
    }
  }

  lemma RefreshRests(cfg: Config, w: World, inst: Object, acc: int, call: Call, from: nat, s: Schedule)
    requires from <= |w.trace| && Rested(w, from, s)
    ensures Rested(RemoveRefreshLabel(cfg, w, inst, acc, call).world, from, s)
  {
    RefreshSends(cfg, w, inst, acc, call, None);
    if Accepted(w.trace, from) {
      AwaitKeepsSchedule(w, call.before, s);
    }
  }

  /** What a final run asks for. */
  function Target(cfg: Config, ins: Inputs, generation: int): Schedule {
    Schedule(generation, ins.now + Pause(cfg.border, ins.jitter))
  }

  lemma StopRests(
    cfg: Config, ins: Inputs, original: Object, i: nat, end: SubroutineEnd, acc: int, from: nat)
    requires i < |cfg.subroutines| && end.error.Some? && !end.retry && cfg.spreader && !end.inst.deleting
    requires from <= |end.world.trace| && !Accepted(end.world.trace, from)
    ensures Rested(StopRun(cfg, ins, original, false, i, end, acc).world, from, Target(cfg, ins, end.inst.generation))
  {
    var failed := SetSubroutine(cfg, end.inst, cfg.subroutines[i].name, false, acc, end.error, ins.now);
    var final := MarkFinal(cfg, SetReady(cfg, failed, CondFalse, ins.now), CondFalse, ins.now, ins.jitter);
    var w := Log(end.world, MarkedFinal);
    assert SendsOnly(end.world, w, None);
    SendRests(cfg, w, original, final, ins.status, from);
  }

  lemma FinishRests(cfg: Config, ins: Inputs, original: Object, w: World, inst: Object, from: nat)
    requires cfg.spreader && !inst.deleting && !InitializerPending(cfg, inst.status.initializers)
    requires from <= |w.trace| && !Accepted(w.trace, from)
    ensures Rested(FinishRun(cfg, ins, original, false, w, inst, 0).world, from, Target(cfg, ins, inst.generation))
  {
    var marked := Log(w, MarkedFinal);
    var concluded := Conclude(cfg, inst, 0, ins);
    var gate := RemoveGate(cfg, marked, concluded, false, 0, ins.removal);
    Gates.WithoutAbsent(inst.status.initializers, cfg.initializer);
    assert gate.inst == concluded && gate.error.None?;
    assert SendsOnly(w, marked, None);
    GateSends(cfg, marked, concluded, false, 0, ins.removal, None);
    var sent := SendFinalStatus(cfg, gate.world, original, gate.inst, ins.status);
    SendStatusSends(cfg, gate.world, original, gate.inst, ins.status);
    SendRests(cfg, gate.world, original, gate.inst, ins.status, from);
    if sent.error.None? {
      RefreshRests(cfg, sent.world, sent.inst, 0, ins.refresh, from, ScheduleOf(gate.inst));
    }
  }

  lemma {:induction false} LoopRests(
    cfg: Config, ins: Inputs, original: Object, k: nat, w: World, inst: Object, acc: int, from: nat, g: int)
    requires k <= |cfg.subroutines| && EndsFinal(cfg, ins, k, acc) && cfg.spreader
    requires !inst.deleting && inst.generation == g
    requires InitializerPending(cfg, inst.status.initializers) ==> Fails(cfg, ins, k)
    requires from <= |w.trace| && !Accepted(w.trace, from)
    ensures match RunSubroutines(cfg, ins, original, false, k, w, inst, acc)
            case Stopped(done) => Rested(done.world, from, Target(cfg, ins, g))
            case Completed(w', inst', acc') =>
              && acc' == 0 && !inst'.deleting && inst'.generation == g
              && !InitializerPending(cfg, inst'.status.initializers)
              && from <= |w'.trace| && !Accepted(w'.trace, from)
    decreases |cfg.subroutines| - k
  {
    if k < |cfg.subroutines| {
      var end := Turn(cfg, ins, false, k, w, inst);
      var prepared := ProcessingIfMissing(cfg, inst, cfg.subroutines[k].name, false, ins.now);
      SubroutineSends(cfg, w, prepared, k, StepAt(ins, k), ins.now, None);
      TurnInstance(cfg, ins, k, w, inst);
      Gates.EditsKeepLists(prepared.status, StepAt(ins, k).outcome.edits, ins.now);
      if end.error.Some? {
        StopRests(cfg, ins, original, k, end, acc, from);
      } else {
        assert Fails(cfg, ins, k) ==> Fails(cfg, ins, k + 1);
        LoopRests(cfg, ins, original, k + 1, end.world, end.inst, Fold(acc, end.requeueAfter), from, g);
      }
    }
  }

  /** A run that ends for good and whose status is accepted leaves the object with the
      generation it worked on and with the next look put off: with an initializer pending
      only if a subroutine failed, since then the run never comes to the initializers. */
  lemma FinalRunRests(cfg: Config, ins: Inputs, w: World, o: Object)
    requires w.stored == Some(o) && !o.deleting && cfg.spreader
    requires !InitializerPending(cfg, o.status.initializers) || Fails(cfg, ins, 0)
    requires ins.prepare.None? && EndsFinal(cfg, ins, 0, 0)
    ensures var g := StartOf(cfg, ins, w, o).generation;
            Rested(RunLoaded(cfg, ins, w, o).world, |w.trace|, Target(cfg, ins, g))
  {
    var from := |w.trace|;
    var added := AddFinalizers(cfg, w, o, ins.add);
    AddSends(cfg, w, o, ins.add, None);
    AddKeepsStatus(cfg, w, o, ins.add);
    if added.error.None? {
      var inst := ReadyUnknownIfMissing(cfg, added.inst, ins.now);
      LoopRests(cfg, ins, o, 0, added.world, inst, 0, from, added.inst.generation);
      match RunSubroutines(cfg, ins, o, false, 0, added.world, inst, 0)
      case Stopped(_) =>
      case Completed(w', inst', _) => FinishRests(cfg, ins, o, w', inst', from);
    }
  }

  /** The pause is a whole number of minutes, at least half the border and less than it. */
  lemma PauseBounds(border: int, jitter: nat)
    requires border >= 2 * MINUTE
    ensures var p, half := Pause(border, jitter), HalfMinutes(border);
            p % MINUTE == 0 && 1 <= half && half * MINUTE <= p <= (2 * half - 1) * MINUTE && p < border
  {
    var half := HalfMinutes(border);
    assert half >= 1 && 2 * half * MINUTE <= border;
    var minutes := half + jitter % half;
    assert Pause(border, jitter) == minutes * MINUTE;
  }

  /** Every draw counts: the pause is a whole number of minutes from half the border in whole
      minutes on, one more for each step of the draw, so that all pauses below twice that are
      drawn, and draws below it give different ones. */
  lemma EveryPauseIsDrawn(border: int, minutes: int)
    requires border >= 120_000_000_000
    ensures var half := border / 120_000_000_000;
            && half <= minutes < 2 * half ==> Pause(border, minutes - half) == minutes * 60_000_000_000
    ensures forall i: nat, j: nat :: i < j < border / 120_000_000_000 ==> Pause(border, i) < Pause(border, j)
  {
    var half := border / 120_000_000_000;
    assert half >= 1 && HalfMinutes(border) == half;
    forall i: nat | i < half ensures Pause(border, i) == (half + i) * 60_000_000_000 {
      SmallModulus(i, half);
    }
    if half <= minutes < 2 * half {
      var draw: nat := minutes - half;
      assert Pause(border, draw) == (half + draw) * 60_000_000_000;
    }
  }

  lemma SmallModulus(i: nat, n: nat)
    requires i < n
    ensures i % n == i
  {
  }

  // ---------------------------------------------------------------- histories at rest

  /** A change by others that is no reason to look at the object. */
  predicate Harmless(n: Nudge) {
    n.Touch? || (n.AddLabel? && n.key != REFRESH_LABEL)
  }

  /** Between runs others may do anything to finalizers, other labels, gate lists and the rest
      of the status; within a run nothing but such changes come before its first call. */
  predicate Undemanding(a: Action, T: int) {
    match a
    case Run(ins) => ins.now <= T && HarmlessBefore(ins)
    case Interfere(c) => c.DuringRun? ==> Harmless(c.nudge)
  }

  predicate HarmlessBefore(ins: Inputs) {
    forall n :: n in ins.get.before ==> Harmless(n)
  }

  /** The object at rest: its spec was observed, no refresh is asked for, and the next look
      is put off to `T`. */
  predicate Resting(o: Option<Object>, g: int, T: int) {
    && o.Some? && !o.value.deleting && !RefreshRequested(o.value)
    && o.value.generation == g && ScheduleOf(o.value) == Schedule(g, T)
  }

  /** Since `w` there are only changes by others. */
  predicate OnlyOthers(w: World, w': World) {
    w.trace <= w'.trace && forall k :: |w.trace| <= k < |w'.trace| ==> w'.trace[k].Stored?
  }

  lemma {:induction false} AwaitResting(w: World, nudges: seq<Nudge>, g: int, T: int)
    requires Resting(w.stored, g, T) && forall n :: n in nudges ==> Harmless(n)
    ensures Resting(Await(w, nudges).stored, g, T) && OnlyOthers(w, Await(w, nudges))
    decreases |nudges|
  {
    if nudges != [] {
      assert nudges[0] in nudges;
      AwaitResting(Put(w, Keep(Nudged(w.stored.value, nudges[0]))), nudges[1..], g, T);
    }
  }

  /** What a run up to time `T` says: when to come back, if its read is served at all. */
  function RestingResult(ins: Inputs, T: int): Result {
    match ins.get.fault
    case Served => Result(T - ins.now, None)
    case Refused(NotFound) => Result(0, None)
    case ReplyLost(NotFound) => Result(0, None)
    case Refused(e) => Result(0, Some(ApiFailure(e)))
    case ReplyLost(e) => Result(0, Some(ApiFailure(e)))
  }

  /** A run up to the stored time does nothing but say when to come back, and a run after it
      goes to work. */
  lemma RestingRun(cfg: Config, w: World, ins: Inputs, g: int, T: int)
    requires cfg.spreader && Resting(w.stored, g, T) && HarmlessBefore(ins)
    ensures Resting(Await(w, ins.get.before).stored, g, T) && OnlyOthers(w, Await(w, ins.get.before))
    ensures ins.now <= T ==> Reconcile(cfg, w, ins) == Done(Await(w, ins.get.before), RestingResult(ins, T))
    ensures ins.now > T && ins.get.fault.Served? ==>
              var w1 := Await(w, ins.get.before); Reconcile(cfg, w, ins) == RunLoaded(cfg, ins, w1, w1.stored.value)
  {
    AwaitResting(w, ins.get.before, g, T);
  }

  lemma RestingChange(w: World, c: Change, g: int, T: int)
    requires Resting(w.stored, g, T) && (c.DuringRun? ==> Harmless(c.nudge))
    ensures Resting(Disturb(w, c).stored, g, T) && OnlyOthers(w, Disturb(w, c))
  {
  }

  /** An object at rest stays at rest through every history of runs up to `T` and of changes
      that do not concern it, and no run of it does anything. */
  lemma {:induction false} RestsThroughHistories(cfg: Config, w: World, h: seq<Action>, g: int, T: int)
    requires cfg.spreader && Resting(w.stored, g, T) && forall a :: a in h ==> Undemanding(a, T)
    ensures Resting(Play(cfg, w, h).stored, g, T) && OnlyOthers(w, Play(cfg, w, h))
    decreases |h|
  {
    if h != [] {
      assert h[0] in h;
      match h[0] {
        case Run(ins) => RestingRun(cfg, w, ins, g, T);
        case Interfere(c) => RestingChange(w, c, g, T);
      }
      RestsThroughHistories(cfg, Act(cfg, w, h[0]), h[1..], g, T);
    }
  }

  /** Rest. After a final run at time t that was persisted, and as long as the spec does not
      change, no refresh is asked for and deletion is not marked, every run up to the stored
      time T, in any history, does nothing but say when to come back; the first run after T
      goes to work; and T is between half the border and the border away from t. */
  lemma FinishedWorkRestsThenWakes(
    cfg: Config, ins: Inputs, w: World, o: Object, h: seq<Action>, later: Inputs)
    requires w.stored == Some(o) && !o.deleting && cfg.spreader && cfg.border >= 2 * MINUTE
    requires !InitializerPending(cfg, o.status.initializers) || Fails(cfg, ins, 0)
    requires ins.prepare.None? && EndsFinal(cfg, ins, 0, 0)
    requires var w' := RunLoaded(cfg, ins, w, o).world;
             && Accepted(w'.trace, |w.trace|)
             && w'.stored.Some? && !w'.stored.value.deleting && !RefreshRequested(w'.stored.value)
             && w'.stored.value.generation == StartOf(cfg, ins, w, o).generation
    requires HarmlessBefore(later)
    requires forall a :: a in h ==> Undemanding(a, RunLoaded(cfg, ins, w, o).world.stored.value.status.nextReconcile)
    ensures var w' := RunLoaded(cfg, ins, w, o).world;
            var g, T := w'.stored.value.generation, w'.stored.value.status.nextReconcile;
            var w1 := Play(cfg, w', h);
            && HalfMinutes(cfg.border) * MINUTE <= T - ins.now <= (2 * HalfMinutes(cfg.border) - 1) * MINUTE
            && T - ins.now < cfg.border
            && (T - ins.now) % MINUTE == 0
            && Resting(w1.stored, g, T) && OnlyOthers(w', w1)
            && var w2 := Await(w1, later.get.before);
               && w2.stored.Some?
               && (later.now <= T ==> Reconcile(cfg, w1, later) == Done(w2, RestingResult(later, T)))
               && (later.now > T && later.get.fault.Served? ==>
                     Reconcile(cfg, w1, later) == RunLoaded(cfg, later, w2, w2.stored.value))
  {
    FinalRunRests(cfg, ins, w, o);
    var w' := RunLoaded(cfg, ins, w, o).world;
    var g, T := w'.stored.value.generation, w'.stored.value.status.nextReconcile;
    assert T - ins.now == Pause(cfg.border, ins.jitter);
    PauseBounds(cfg.border, ins.jitter);
    RestsThroughHistories(cfg, w', h, g, T);
    RestingRun(cfg, Play(cfg, w', h), later, g, T);
  }
}
