/** What a run answers: unfinished work asks to be looked at again, and exactly when the request
    gets lost. */
module Requeues {
  import opened Options
  import opened Subroutines
  import opened Cluster
  import opened Spread
  import opened Lifecycle
  import opened Frames
  import opened Quiescence
  import opened Spreading
  import ReadySoundness

  /** The queue will hand the object out again: after an error, or after the time asked for. */
  predicate ComesBack(r: Result) {
    r.error.Some? || r.requeueAfter > 0
  }

  /** `r` is the least positive delay among `acc` and those that the subroutines from the
      `k`-th on ask for, and zero if there is none. */
  predicate Least(cfg: Config, ins: Inputs, k: nat, acc: int, r: int) {
    && r >= 0
    && (acc > 0 ==> 0 < r <= acc)
    && (forall j :: k <= j < |cfg.subroutines| && StepAt(ins, j).outcome.requeueAfter > 0 ==>
          0 < r <= StepAt(ins, j).outcome.requeueAfter)
    && (r > 0 ==>
          r == acc || exists j :: k <= j < |cfg.subroutines| && r == StepAt(ins, j).outcome.requeueAfter)
  }

  lemma LeastStep(cfg: Config, ins: Inputs, k: nat, acc: int, r: int)
    requires k < |cfg.subroutines| && acc >= 0
    requires Least(cfg, ins, k + 1, Fold(acc, StepAt(ins, k).outcome.requeueAfter), r)
    ensures Least(cfg, ins, k, acc, r)
  {
  }

  /** How the loop ends on a live object: it stops when a subroutine fails, and otherwise it
      completes with the least delay asked for. */
  lemma {:induction false} LoopAsks(
    cfg: Config, ins: Inputs, original: Object, k: nat, w: World, inst: Object, acc: int)
    requires k <= |cfg.subroutines| && !inst.deleting && acc >= 0
    ensures match RunSubroutines(cfg, ins, original, false, k, w, inst, acc)
            case Stopped(done) =>
              && Fails(cfg, ins, k)
              && if EndsFinal(cfg, ins, k, acc) then done.result == Result(0, None) else done.result.error.Some?
            case Completed(_, inst', r) =>
              && !Fails(cfg, ins, k) && !inst'.deleting
              && Least(cfg, ins, k, acc, r) && (EndsFinal(cfg, ins, k, acc) <==> r == 0)
    decreases |cfg.subroutines| - k
  {
    if k < |cfg.subroutines| {
      var end, out := Turn(cfg, ins, false, k, w, inst), StepAt(ins, k).outcome;
      ReadySoundness.TurnInstance(cfg, ins, k, w, inst);
      if end.error.None? {
        var acc' := Fold(acc, out.requeueAfter);
        LoopAsks(cfg, ins, original, k + 1, end.world, end.inst, acc');
        assert Fails(cfg, ins, k) <==> Fails(cfg, ins, k + 1);
        var end' := RunSubroutines(cfg, ins, original, false, k + 1, end.world, end.inst, acc');
        if end'.Completed? {
          LeastStep(cfg, ins, k, acc, end'.requeueAfter);
        }
      } else {
        assert end.retry == out.error.value.Retry();
      }
    }
  }

  /** What is left of the answer of a completed loop. */
  lemma FinishAsks(cfg: Config, ins: Inputs, original: Object, w: World, inst: Object, acc: int)
    requires !inst.deleting && acc >= 0
    ensures var done := FinishRun(cfg, ins, original, false, w, inst, acc);
            || done.result.requeueAfter == acc
            || (cfg.spreader && done.result == Result(0, None)
                && (!ins.refresh.fault.Served? || done.world.stored.None?))
    ensures var done := FinishRun(cfg, ins, original, false, w, inst, acc);
            done.result.error.Some? ==> done.result.requeueAfter == acc && done.result.error.value.ApiFailure?
  {
    var marked := if acc == 0 then Log(w, MarkedFinal) else w;
    var gate := RemoveGate(cfg, marked, Conclude(cfg, inst, acc, ins), false, acc, ins.removal);
    var sent := SendFinalStatus(cfg, gate.world, original, gate.inst, ins.status);
    LabelAsks(cfg, sent.world, sent.inst, acc, ins.refresh);
  }

  lemma LabelAsks(cfg: Config, w: World, inst: Object, acc: int, call: Call)
    ensures var done := RemoveRefreshLabel(cfg, w, inst, acc, call);
            || done.result == Result(acc, None)
            || (cfg.spreader && done.result == Result(0, None)
                && (!call.fault.Served? || done.world.stored.None?))
  {
    var w1 := Await(w, call.before);
    var modified := inst.(labels := inst.labels - {REFRESH_LABEL});
    assert MergeFrom(inst, modified).finalizers.None?;
  }

  /** A run on a live object whose answers end it for good asks for nothing. One whose answers
      do not end it asks to be run again, at the least delay asked for if nobody failed;
      unless the label patch of the spreader, which only a run without failures reaches, does
      not get through. */
  lemma UnfinishedRunComesBack(cfg: Config, ins: Inputs, w: World, o: Object)
    requires w.stored == Some(o) && !o.deleting && ins.prepare.None?
    ensures var done := RunLoaded(cfg, ins, w, o);
            && (EndsFinal(cfg, ins, 0, 0) ==> done.result.requeueAfter == 0)
            && (!EndsFinal(cfg, ins, 0, 0) && !ComesBack(done.result) ==>
                  && cfg.spreader && !Fails(cfg, ins, 0)
                  && (!ins.refresh.fault.Served? || done.world.stored.None?))
            && (!Fails(cfg, ins, 0) && done.result.requeueAfter > 0 ==>
                  Least(cfg, ins, 0, 0, done.result.requeueAfter))
  {
    var added := AddFinalizers(cfg, w, o, ins.add);
    AddedIsLinked(cfg, w, o, ins.add);
    if added.error.None? {
      var inst := ReadyUnknownIfMissing(cfg, added.inst, ins.now);
      LoopAsks(cfg, ins, o, 0, added.world, inst, 0);
      match RunSubroutines(cfg, ins, o, false, 0, added.world, inst, 0)
      case Stopped(_) =>
      case Completed(w', inst', acc) => FinishAsks(cfg, ins, o, w', inst', acc);
    }
  }

  // ---------------------------------------------------------------- the request that gets lost

  /** Nobody interferes and the server serves every call, the label patch possibly excepted. */
  predicate CalmToTheLabel(ins: Inputs) {
    Calm(ins.(refresh := Call([], Served))) && ins.refresh.before == []
  }

  lemma {:induction false} LoopKeepsLabel(
    cfg: Config, ins: Inputs, original: Object, k: nat, w: World, inst: Object, acc: int)
    requires k <= |cfg.subroutines| && !inst.deleting && CalmSteps(ins)
    ensures var end := RunSubroutines(cfg, ins, original, false, k, w, inst, acc);
            end.Completed? ==> end.world.stored == w.stored && end.inst == inst.(status := end.inst.status)
    decreases |cfg.subroutines| - k
  {
    if k < |cfg.subroutines| {
      var end := Turn(cfg, ins, false, k, w, inst);
      CalmTurn(cfg, ins, k, w, inst);
      if end.error.None? {
        LoopKeepsLabel(cfg, ins, original, k + 1, end.world, end.inst, Fold(acc, end.requeueAfter));
      }
    }
  }

  /** After a requeue: the answer is kept exactly when there is no label to take off or its
      patch is served. */
  lemma RequeueIsKept(cfg: Config, ins: Inputs, o: Object, w: World, inst: Object, acc: int)
    requires CalmToTheLabel(ins) && !cfg.readOnly && acc > 0 && !inst.deleting
    requires w.stored == Some(inst.(status := o.status))
    ensures FinishRun(cfg, ins, o, false, w, inst, acc).result
         == Result(if cfg.spreader && RefreshRequested(inst) && !ins.refresh.fault.Served? then 0 else acc, None)
  {
    var concluded := Conclude(cfg, inst, acc, ins);
    CalmSend(cfg, w, o, concluded, ins.status);
    assert RemoveGate(cfg, w, concluded, false, acc, ins.removal) == Attempt(w, concluded, None);
    var sent := SendFinalStatus(cfg, w, o, concluded, ins.status);
    var modified := sent.inst.(labels := sent.inst.labels - {REFRESH_LABEL});
    assert MergeFrom(sent.inst, modified).finalizers.None?;
  }

  /** In a run that nobody disturbs before the label patch, unfinished work is not asked for
      again exactly when the label is there, nobody failed and the patch is not served: the
      error that is reported then is not the one of the patch. */
  lemma RequeueIsLostExactlyWhen(cfg: Config, ins: Inputs, w: World, o: Object)
    requires w.stored == Some(o) && !o.deleting && !cfg.readOnly
    requires CalmToTheLabel(ins) && !EndsFinal(cfg, ins, 0, 0)
    ensures !ComesBack(RunLoaded(cfg, ins, w, o).result)
       <==> cfg.spreader && RefreshRequested(o) && !Fails(cfg, ins, 0) && !ins.refresh.fault.Served?
  {
    CalmAdd(cfg, w, o, ins.add);
    var added := AddFinalizers(cfg, w, o, ins.add);
    var inst := ReadyUnknownIfMissing(cfg, added.inst, ins.now);
    LoopAsks(cfg, ins, o, 0, added.world, inst, 0);
    LoopKeepsLabel(cfg, ins, o, 0, added.world, inst, 0);
    match RunSubroutines(cfg, ins, o, false, 0, added.world, inst, 0)
    case Stopped(_) =>
    case Completed(w', inst', acc) => RequeueIsKept(cfg, ins, o, w', inst', acc);
  }

  lemma {:induction false} SameEnds(cfg: Config, a: Inputs, b: Inputs, k: nat, acc: int)
    requires k <= |cfg.subroutines| && SameAnswers(cfg, a, b)
    ensures EndsFinal(cfg, a, k, acc) == EndsFinal(cfg, b, k, acc)
    ensures Fails(cfg, a, k) == Fails(cfg, b, k)
    decreases |cfg.subroutines| - k
  {
    if k < |cfg.subroutines| {
      SameEnds(cfg, a, b, k + 1, Fold(acc, StepAt(a, k).outcome.requeueAfter));
    }
  }

  /** A prepared run with these answers on a live object. */
  predicate Prepared(cfg: Config, ins: Inputs, a: Inputs, w: World, o: Object) {
    SameAnswers(cfg, ins, a) && a.prepare.None? && w.stored == Some(o) && !o.deleting
  }

  /** With answers that do not end the run, every run asks to be run again, on all objects and
      in all surroundings, if and only if there is no spreader or a subroutine fails. */
  lemma AlwaysComesBackExactlyWhen(cfg: Config, ins: Inputs)
    requires !cfg.readOnly && !EndsFinal(cfg, ins, 0, 0)
    ensures (forall a, w, o :: Prepared(cfg, ins, a, w, o) ==> ComesBack(RunLoaded(cfg, a, w, o).result))
       <==> !cfg.spreader || Fails(cfg, ins, 0)
  {
    if !cfg.spreader || Fails(cfg, ins, 0) {
      forall a, w, o | Prepared(cfg, ins, a, w, o) ensures ComesBack(RunLoaded(cfg, a, w, o).result) {
        SameEnds(cfg, ins, a, 0, 0);
        UnfinishedRunComesBack(cfg, a, w, o);
      }
    } else {
      var a := CalmAt(cfg, ins, 0).(refresh := Call([], Refused(Unavailable)));
      var o := Object(1, 1, false, [], {REFRESH_LABEL}, Status([], 0, [], [], 0, 0));
      var w := World(Some(o), []);
      SameEnds(cfg, ins, a, 0, 0);
      RequeueIsLostExactlyWhen(cfg, a, w, o);
      assert Prepared(cfg, ins, a, w, o);
    }
  }
}
