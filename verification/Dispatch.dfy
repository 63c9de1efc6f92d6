/** Which entry points a run calls, in what order, and which requests it may send. */
module Dispatch {
  import opened Options
  import opened Conditions
  import opened Subroutines
  import opened Cluster
  import opened Lifecycle
  import opened Frames
  import Answers
  import Finalizers
  import Progress
  import Spreading

  // ---------------------------------------------------------------- single events

  /** A patch of the finalizers and nothing else. */
  predicate FinalizersOnly(p: Patch) {
    p.finalizers.Some? && p == Patch(p.finalizers, None, None, None, None, None, None, None)
  }

  /** A patch that takes the refresh label off and asks for nothing else. */
  predicate RefreshOnly(p: Patch) {
    || p == Patch(None, Some(DropLabels), None, None, None, None, None, None)
    || p == Patch(None, Some(EditLabels({REFRESH_LABEL}, {})), None, None, None, None, None, None)
  }

  /** A patch of one gate list, the one that goes with the kind of run. */
  predicate GateOnly(deletion: bool, p: Patch) {
    if deletion then p.terminators.Some? && p == Patch(None, None, None, None, None, p.terminators, None, None)
    else p.initializers.Some? && p == Patch(None, None, None, None, p.initializers, None, None, None)
  }

  /** What may be seen of a run: a terminator is called by its own entry point and only in a
      deletion, an initializer only on a live object, and each in place of the ordinary one;
      a manager that is read-only writes neither finalizers nor status. */
  predicate Proper(cfg: Config, deletion: bool, e: Event) {
    match e
    case Ran(i, verb, _) =>
      && i < |cfg.subroutines|
      && (match verb
          case Terminate => deletion && cfg.subroutines[i].isTerminator
          case Finalize => deletion && !cfg.subroutines[i].isTerminator
          case Initialize => !deletion && cfg.subroutines[i].isInitializer
          case Process => !deletion && !cfg.subroutines[i].isInitializer
          case Skip => false)
    case Patched(p, _) => (!cfg.readOnly && FinalizersOnly(p)) || (cfg.spreader && !deletion && RefreshOnly(p))
    case StatusPatched(p, _) => GateOnly(deletion, p) && (if deletion then cfg.terminator else cfg.initializer) != ""
    case StatusSent(_, _, _) => !cfg.readOnly
    case Stored(_) => true
    case MarkedFinal => true
  }

  predicate AllProper(cfg: Config, deletion: bool, w: World, w': World) {
    w.trace <= w'.trace && forall k :: |w.trace| <= k < |w'.trace| ==> Proper(cfg, deletion, w'.trace[k])
  }

  lemma ProperTrans(cfg: Config, deletion: bool, a: World, b: World, c: World)
    requires AllProper(cfg, deletion, a, b) && AllProper(cfg, deletion, b, c)
    ensures AllProper(cfg, deletion, a, c)
  {
    forall k | |a.trace| <= k < |c.trace| ensures Proper(cfg, deletion, c.trace[k]) {
      if k < |b.trace| {
        assert c.trace[k] == b.trace[k];
      }
    }
  }

  lemma AwaitProper(cfg: Config, deletion: bool, w: World, nudges: seq<Nudge>)
    ensures AllProper(cfg, deletion, w, Await(w, nudges))
  {
    Answers.AwaitStores(w, nudges);
  }

  lemma PatchProper(cfg: Config, deletion: bool, w: World, nudges: seq<Nudge>, p: Patch, fault: Fault)
    requires Proper(cfg, deletion, Patched(p, true))
    ensures AllProper(cfg, deletion, w, PatchObject(Await(w, nudges), p, fault).0)
  {
    AwaitProper(cfg, deletion, w, nudges);
    Answers.PatchAdds(Await(w, nudges), p, fault);
    ProperTrans(cfg, deletion, w, Await(w, nudges), PatchObject(Await(w, nudges), p, fault).0);
  }

  lemma PatchStatusProper(cfg: Config, deletion: bool, w: World, nudges: seq<Nudge>, p: Patch, fault: Fault)
    requires Proper(cfg, deletion, StatusPatched(p, true))
    ensures AllProper(cfg, deletion, w, PatchStatus(Await(w, nudges), p, fault).0)
  {
    AwaitProper(cfg, deletion, w, nudges);
    Answers.PatchStatusAdds(Await(w, nudges), p, fault);
    ProperTrans(cfg, deletion, w, Await(w, nudges), PatchStatus(Await(w, nudges), p, fault).0);
  }

  lemma AddProper(cfg: Config, w: World, inst: Object, call: Call)
    ensures AllProper(cfg, inst.deleting, w, AddFinalizers(cfg, w, inst, call).world)
  {
    AwaitProper(cfg, inst.deleting, w, call.before);
    var modified := inst.(finalizers := WithAllFinalizers(inst.finalizers, cfg.subroutines));
    if !cfg.readOnly && !inst.deleting && modified != inst {
      PatchProper(cfg, inst.deleting, w, call.before, MergeFrom(inst, modified), call.fault);
    }
  }

  lemma SubroutineProper(cfg: Config, w: World, inst: Object, i: nat, step: Step, now: int)
    requires i < |cfg.subroutines|
    ensures AllProper(cfg, inst.deleting, w, ReconcileSubroutine(cfg, w, inst, i, step, now).world)
  {
    var verb, d := VerbFor(cfg.subroutines[i], inst), inst.deleting;
    var w1 := if verb.Skip? then w else Log(w, Ran(i, verb, step.outcome));
    AwaitProper(cfg, d, w1, step.patch.before);
    ProperTrans(cfg, d, w, w1, Await(w1, step.patch.before));
    var edited := inst.(status := Edited(inst.status, step.outcome.edits, now));
    var modified := edited.(finalizers := WithoutFinalizers(edited.finalizers, cfg.subroutines[i].finalizers));
    if !cfg.readOnly && modified != edited {
      PatchProper(cfg, d, w1, step.patch.before, MergeFrom(edited, modified), step.patch.fault);
      ProperTrans(cfg, d, w, w1,
        PatchObject(Await(w1, step.patch.before), MergeFrom(edited, modified), step.patch.fault).0);
    }
  }

  lemma SendProper(cfg: Config, deletion: bool, w: World, original: Object, inst: Object, call: Call)
    ensures AllProper(cfg, deletion, w, SendStatus(cfg, w, original, inst, call).world)
    ensures AllProper(cfg, deletion, w, SendFinalStatus(cfg, w, original, inst, call).world)
  {
    AwaitProper(cfg, deletion, w, call.before);
    Answers.UpdateAdds(Await(w, call.before), inst, call.fault);
    if !cfg.readOnly {
      ProperTrans(cfg, deletion, w, Await(w, call.before), UpdateStatus(Await(w, call.before), inst, call.fault).0);
    }
  }

  lemma GateProper(cfg: Config, w: World, inst: Object, deletion: bool, acc: int, call: Call)
    ensures AllProper(cfg, deletion, w, RemoveGate(cfg, w, inst, deletion, acc, call).world)
  {
    AwaitProper(cfg, deletion, w, call.before);
    var t := inst.(status := inst.status.(terminators := Without(inst.status.terminators, cfg.terminator)));
    var i := inst.(status := inst.status.(initializers := Without(inst.status.initializers, cfg.initializer)));
    var modified := if deletion then t else i;
    if acc == 0 && modified != inst && (if deletion then cfg.terminator else cfg.initializer) != "" {
      PatchStatusProper(cfg, deletion, w, call.before, MergeFrom(inst, modified), call.fault);
    }
  }

  lemma RefreshProper(cfg: Config, deletion: bool, w: World, inst: Object, acc: int, call: Call)
    requires deletion ==> inst.deleting
    ensures AllProper(cfg, deletion, w, RemoveRefreshLabel(cfg, w, inst, acc, call).world)
  {
    AwaitProper(cfg, deletion, w, call.before);
    var modified := inst.(labels := inst.labels - {REFRESH_LABEL});
    if cfg.spreader && !inst.deleting && REFRESH_LABEL in inst.labels {
      assert inst.labels - modified.labels == {REFRESH_LABEL} && modified.labels - inst.labels == {};
      PatchProper(cfg, deletion, w, call.before, MergeFrom(inst, modified), call.fault);
    }
  }

  // ---------------------------------------------------------------- whole runs

  lemma StopProper(
    cfg: Config, ins: Inputs, original: Object, deletion: bool, i: nat, end: SubroutineEnd, acc: int)
    requires i < |cfg.subroutines| && end.error.Some?
    ensures AllProper(cfg, deletion, end.world, StopRun(cfg, ins, original, deletion, i, end, acc).world)
  {
    var failed := SetSubroutine(cfg, end.inst, cfg.subroutines[i].name, deletion, acc, end.error, ins.now);
    var unready := SetReady(cfg, failed, CondFalse, ins.now);
    var final := if end.retry then unready else MarkFinal(cfg, unready, CondFalse, ins.now, ins.jitter);
    var w := if end.retry then end.world else Log(end.world, MarkedFinal);
    SendProper(cfg, deletion, w, original, final, ins.status);
    ProperTrans(cfg, deletion, end.world, w, SendStatus(cfg, w, original, final, ins.status).world);
  }

  /** The loop stays what it was: a deletion, or no deletion. */
  predicate Kept(deletion: bool, w: World, inst: Object) {
    inst.deleting == deletion && (deletion ==> Linked(w.stored, inst))
  }

  lemma TurnKeeps(cfg: Config, ins: Inputs, deletion: bool, k: nat, w: World, inst: Object)
    requires k < |cfg.subroutines| && Kept(deletion, w, inst)
    ensures var end := Turn(cfg, ins, deletion, k, w, inst);
            && AllProper(cfg, deletion, w, end.world)
            && (end.error.None? ==> Kept(deletion, end.world, end.inst))
  {
    var i := Position(cfg, deletion, k);
    var prepared := ProcessingIfMissing(cfg, inst, cfg.subroutines[i].name, deletion, ins.now);
    SubroutineProper(cfg, w, prepared, i, StepAt(ins, k), ins.now);
    if deletion {
      Progress.TurnShrinks(cfg, ins, k, w, inst);
    } else {
      TurnIsFrozen(cfg, ins, deletion, k, w, inst);
    }
  }

  lemma {:induction false} LoopProper(
    cfg: Config, ins: Inputs, original: Object, deletion: bool, k: nat, w: World, inst: Object, acc: int)
    requires k <= |cfg.subroutines| && Kept(deletion, w, inst)
    ensures var end := RunSubroutines(cfg, ins, original, deletion, k, w, inst, acc);
            && AllProper(cfg, deletion, w, WorldOf(end))
            && (end.Completed? ==> Kept(deletion, end.world, end.inst))
    decreases |cfg.subroutines| - k
  {
    if k < |cfg.subroutines| {
      var end := Turn(cfg, ins, deletion, k, w, inst);
      TurnKeeps(cfg, ins, deletion, k, w, inst);
      LoopStep(cfg, ins, original, deletion, k, w, inst, acc);
      var rest := RunSubroutines(cfg, ins, original, deletion, k, w, inst, acc);
      if end.error.Some? {
        StopProper(cfg, ins, original, deletion, Position(cfg, deletion, k), end, acc);
      } else {
        LoopProper(cfg, ins, original, deletion, k + 1, end.world, end.inst, Fold(acc, end.requeueAfter));
      }
      ProperTrans(cfg, deletion, w, end.world, WorldOf(rest));
    }
  }

  /** A deletion mark is not lost by the patch of a gate or by the status. */
  predicate Marked(deletion: bool, w: World, inst: Object) {
    deletion ==> inst.deleting && (w.stored.Some? ==> w.stored.value.deleting)
  }

  lemma GateKeepsMark(cfg: Config, w: World, inst: Object, deletion: bool, acc: int, call: Call)
    requires Marked(deletion, w, inst)
    ensures var at := RemoveGate(cfg, w, inst, deletion, acc, call);
            at.error.None? ==> Marked(deletion, at.world, at.inst)
  {
    AwaitIsMild(w, call.before);
    RemoveGateIsMild(cfg, w, inst, deletion, acc, call);
  }

  lemma SendKeepsMark(cfg: Config, deletion: bool, w: World, original: Object, inst: Object, call: Call)
    requires Marked(deletion, w, inst)
    ensures var at := SendFinalStatus(cfg, w, original, inst, call);
            at.error.None? ==> Marked(deletion, at.world, at.inst)
  {
    AwaitIsMild(w, call.before);
    SendStatusIsMild(cfg, w, original, inst, call);
  }

  lemma FinishProper(
    cfg: Config, ins: Inputs, original: Object, deletion: bool, w: World, inst: Object, acc: int)
    requires Kept(deletion, w, inst)
    ensures AllProper(cfg, deletion, w, FinishRun(cfg, ins, original, deletion, w, inst, acc).world)
  {
    var marked := if acc == 0 then Log(w, MarkedFinal) else w;
    var concluded := Conclude(cfg, inst, acc, ins);
    var gate := RemoveGate(cfg, marked, concluded, deletion, acc, ins.removal);
    GateProper(cfg, marked, concluded, deletion, acc, ins.removal);
    GateKeepsMark(cfg, marked, concluded, deletion, acc, ins.removal);
    ProperTrans(cfg, deletion, w, marked, gate.world);
    if gate.error.None? {
      var sent := SendFinalStatus(cfg, gate.world, original, gate.inst, ins.status);
      SendProper(cfg, deletion, gate.world, original, gate.inst, ins.status);
      SendKeepsMark(cfg, deletion, gate.world, original, gate.inst, ins.status);
      ProperTrans(cfg, deletion, w, gate.world, sent.world);
      if sent.error.None? {
        RefreshProper(cfg, deletion, sent.world, sent.inst, acc, ins.refresh);
        ProperTrans(cfg, deletion, w, sent.world,
          RemoveRefreshLabel(cfg, sent.world, sent.inst, acc, ins.refresh).world);
      }
    }
  }

  /** All that a run on `o` calls and asks for is proper for the kind of run that it is. */
  lemma LoadedIsProper(cfg: Config, ins: Inputs, w: World, o: Object)
    requires w.stored == Some(o)
    ensures AllProper(cfg, o.deleting, w, RunLoaded(cfg, ins, w, o).world)
  {
    var added := AddFinalizers(cfg, w, o, ins.add);
    AddProper(cfg, w, o, ins.add);
    Spreading.AddedIsLinked(cfg, w, o, ins.add);
    if added.error.None? && ins.prepare.None? {
      var inst := ReadyUnknownIfMissing(cfg, added.inst, ins.now);
      var end := RunSubroutines(cfg, ins, o, o.deleting, 0, added.world, inst, 0);
      LoopProper(cfg, ins, o, o.deleting, 0, added.world, inst, 0);
      ProperTrans(cfg, o.deleting, w, added.world, WorldOf(end));
      if end.Completed? {
        FinishProper(cfg, ins, o, o.deleting, end.world, end.inst, end.requeueAfter);
        ProperTrans(cfg, o.deleting, w, end.world, RunLoaded(cfg, ins, w, o).world);
      }
    }
  }

  /** Proper for a deletion, or proper for a run on a live object. */
  predicate ProperAtAll(cfg: Config, e: Event) {
    Proper(cfg, true, e) || Proper(cfg, false, e)
  }

  /** In every history all calls and requests are proper. */
  lemma {:induction false} EveryCallIsProper(cfg: Config, w: World, h: seq<Action>)
    ensures var w' := Play(cfg, w, h);
            w.trace <= w'.trace && forall k :: |w.trace| <= k < |w'.trace| ==> ProperAtAll(cfg, w'.trace[k])
    decreases |h|
  {
    if h != [] {
      var w1, w' := Act(cfg, w, h[0]), Play(cfg, w, h);
      ActIsProper(cfg, w, h[0]);
      EveryCallIsProper(cfg, w1, h[1..]);
      forall k | |w.trace| <= k < |w'.trace| ensures ProperAtAll(cfg, w'.trace[k]) {
        if k < |w1.trace| {
          assert w'.trace[k] == w1.trace[k];
        }
      }
    }
  }

  lemma ActIsProper(cfg: Config, w: World, a: Action)
    ensures var w' := Act(cfg, w, a);
            w.trace <= w'.trace && forall k :: |w.trace| <= k < |w'.trace| ==> ProperAtAll(cfg, w'.trace[k])
  {
    if a.Run? {
      var w1, w' := Await(w, a.ins.get.before), Act(cfg, w, a);
      AwaitProper(cfg, false, w, a.ins.get.before);
      if w1.stored.Some? {
        LoadedIsProper(cfg, a.ins, w1, w1.stored.value);
      }
      forall k | |w.trace| <= k < |w'.trace| ensures ProperAtAll(cfg, w'.trace[k]) {
        if k < |w1.trace| {
          assert w'.trace[k] == w1.trace[k];
        }
      }
    }
  }

  // ---------------------------------------------------------------- the order of the calls

  /** The calls of subroutines among the events. */
  function CallsOf(tr: seq<Event>): seq<Event> {
    var n := |tr|;
    if n == 0 then [] else if tr[n - 1].Ran? then CallsOf(tr[..n - 1]) + [tr[n - 1]] else CallsOf(tr[..n - 1])
  }

  lemma {:induction false} NoCalls(tr: seq<Event>, tr': seq<Event>)
    requires tr <= tr' && forall k :: |tr| <= k < |tr'| ==> !tr'[k].Ran?
    ensures CallsOf(tr') == CallsOf(tr)
    decreases |tr'|
  {
    if |tr'| > |tr| {
      NoCalls(tr, tr'[..|tr'| - 1]);
    } else {
      assert tr == tr';
    }
  }

  lemma MildCallsNothing(w: World, w': World)
    requires Mild(w, w')
    ensures CallsOf(w'.trace) == CallsOf(w.trace)
  {
    forall k | |w.trace| <= k < |w'.trace| ensures !w'.trace[k].Ran? {
      assert MildEvent(w.stored, w'.trace[k]);
    }
    NoCalls(w.trace, w'.trace);
  }

  lemma OneCall(w: World, e: Event, w': World)
    requires e.Ran? && w.trace + [e] <= w'.trace
    requires forall k :: |w.trace| < k < |w'.trace| ==> !w'.trace[k].Ran?
    ensures CallsOf(w'.trace) == CallsOf(w.trace) + [e]
  {
    NoCalls(w.trace + [e], w'.trace);
    assert (w.trace + [e])[..|w.trace|] == w.trace;
  }

  /** What a turn adds to the calls: the subroutine at this position, or nothing. */
  lemma TurnCalls(cfg: Config, ins: Inputs, deletion: bool, k: nat, w: World, inst: Object)
    requires k < |cfg.subroutines|
    ensures var i := Position(cfg, deletion, k);
            var verb := VerbFor(cfg.subroutines[i], inst);
            CallsOf(Turn(cfg, ins, deletion, k, w, inst).world.trace)
            == CallsOf(w.trace) + if verb.Skip? then [] else [Ran(i, verb, StepAt(ins, k).outcome)]
  {
    var i, step := Position(cfg, deletion, k), StepAt(ins, k);
    var inst0 := ProcessingIfMissing(cfg, inst, cfg.subroutines[i].name, deletion, ins.now);
    var verb := VerbFor(cfg.subroutines[i], inst0);
    var end := ReconcileSubroutine(cfg, w, inst0, i, step, ins.now);
    AwaitIsMild(if verb.Skip? then w else Log(w, Ran(i, verb, step.outcome)), step.patch.before);
    if verb.Skip? {
      MildCallsNothing(w, end.world);
    } else {
      SubroutineCallsOnce(cfg, w, inst0, i, step, ins.now);
    }
  }

  lemma SubroutineCallsOnce(cfg: Config, w: World, inst: Object, i: nat, step: Step, now: int)
    requires i < |cfg.subroutines| && !VerbFor(cfg.subroutines[i], inst).Skip?
    ensures CallsOf(ReconcileSubroutine(cfg, w, inst, i, step, now).world.trace)
         == CallsOf(w.trace) + [Ran(i, VerbFor(cfg.subroutines[i], inst), step.outcome)]
  {
    var e := Ran(i, VerbFor(cfg.subroutines[i], inst), step.outcome);
    var w1 := Log(w, e);
    var w2, end := Await(w1, step.patch.before), ReconcileSubroutine(cfg, w, inst, i, step, now);
    Answers.AwaitStores(w1, step.patch.before);
    var edited := inst.(status := Edited(inst.status, step.outcome.edits, now));
    Answers.RemoveRequests(cfg, w2, edited, cfg.subroutines[i].finalizers, step.patch.fault);
    assert w2.trace <= end.world.trace;
    forall k | |w.trace| < k < |end.world.trace| ensures !end.world.trace[k].Ran? {
      if k < |w2.trace| {
        assert end.world.trace[k] == w2.trace[k];
      }
    }
    OneCall(w, e, end.world);
  }

  /** What the `i`-th subroutine is called with on a live object. */
  function LiveCall(cfg: Config, ins: Inputs, i: nat): Event
    requires i < |cfg.subroutines|
  {
    Ran(i, if cfg.subroutines[i].isInitializer then Initialize else Process, StepAt(ins, i).outcome)
  }

  /** Every subroutine from the `k`-th on, once and in order, up to the first that fails. */
  predicate InOrder(cfg: Config, ins: Inputs, k: nat, calls: seq<Event>)
    requires k <= |cfg.subroutines|
  {
    && |calls| <= |cfg.subroutines| - k
    && (forall j :: 0 <= j < |calls| ==> calls[j] == LiveCall(cfg, ins, k + j))
    && (forall j :: 0 <= j < |calls| - 1 ==> !Answers.Failing(calls[j]))
    && (|calls| < |cfg.subroutines| - k ==> calls != [] && Answers.Failing(calls[|calls| - 1]))
  }

  lemma InOrderStep(cfg: Config, ins: Inputs, k: nat, rest: seq<Event>)
    requires k < |cfg.subroutines| && InOrder(cfg, ins, k + 1, rest) && !Answers.Failing(LiveCall(cfg, ins, k))
    ensures InOrder(cfg, ins, k, [LiveCall(cfg, ins, k)] + rest)
  {
    var calls := [LiveCall(cfg, ins, k)] + rest;
    forall j | 0 <= j < |calls| ensures calls[j] == LiveCall(cfg, ins, k + j) {
      if j > 0 {
        assert calls[j] == rest[j - 1] == LiveCall(cfg, ins, k + 1 + (j - 1));
      }
    }
  }

  /** The world after the loop, from turn `k` on. */
  function LoopWorld(
    cfg: Config, ins: Inputs, original: Object, deletion: bool, k: nat, w: World, inst: Object, acc: int): World
    requires k <= |cfg.subroutines|
  {
    WorldOf(RunSubroutines(cfg, ins, original, deletion, k, w, inst, acc))
  }

  /** What is called from turn `k` on: what that turn calls, and what the later ones do. */
  lemma CallsFrom(
    cfg: Config, ins: Inputs, original: Object, deletion: bool, k: nat, w: World, inst: Object, acc: int,
    first: seq<Event>, rest: seq<Event>)
    requires k < |cfg.subroutines|
    requires var end := Turn(cfg, ins, deletion, k, w, inst);
             var acc' := Fold(acc, end.requeueAfter);
             && CallsOf(end.world.trace) == CallsOf(w.trace) + first
             && if end.error.Some? then rest == []
                else CallsOf(LoopWorld(cfg, ins, original, deletion, k + 1, end.world, end.inst, acc').trace)
                     == CallsOf(end.world.trace) + rest
    ensures CallsOf(LoopWorld(cfg, ins, original, deletion, k, w, inst, acc).trace)
         == CallsOf(w.trace) + (first + rest)
  {
    var i, end := Position(cfg, deletion, k), Turn(cfg, ins, deletion, k, w, inst);
    LoopStep(cfg, ins, original, deletion, k, w, inst, acc);
    if end.error.Some? {
      StopRunIsMild(cfg, ins, original, deletion, i, end, acc);
      MildCallsNothing(end.world, StopRun(cfg, ins, original, deletion, i, end, acc).world);
    }
  }

  lemma {:induction false} LiveLoopCalls(
    cfg: Config, ins: Inputs, original: Object, k: nat, w: World, inst: Object, acc: int) returns (calls: seq<Event>)
    requires k <= |cfg.subroutines| && !inst.deleting
    ensures InOrder(cfg, ins, k, calls)
    ensures CallsOf(LoopWorld(cfg, ins, original, false, k, w, inst, acc).trace) == CallsOf(w.trace) + calls
    decreases |cfg.subroutines| - k
  {
    calls := [];
    if k < |cfg.subroutines| {
      var first, rest, end := [LiveCall(cfg, ins, k)], [], Turn(cfg, ins, false, k, w, inst);
      TurnCalls(cfg, ins, false, k, w, inst);
      LiveTurnEnds(cfg, ins, k, w, inst);
      if end.error.None? {
        rest := LiveLoopCalls(cfg, ins, original, k + 1, end.world, end.inst, Fold(acc, end.requeueAfter));
        InOrderStep(cfg, ins, k, rest);
      }
      CallsFrom(cfg, ins, original, false, k, w, inst, acc, first, rest);
      calls := first + rest;
    }
  }

  lemma LiveTurnEnds(cfg: Config, ins: Inputs, k: nat, w: World, inst: Object)
    requires k < |cfg.subroutines| && !inst.deleting
    ensures var end := Turn(cfg, ins, false, k, w, inst);
            !end.inst.deleting && (end.error.Some? <==> Answers.Failing(LiveCall(cfg, ins, k)))
  {
    TurnIsFrozen(cfg, ins, false, k, w, inst);
  }

  /** A run on a live object calls every subroutine once, in the order of the list and by the
      entry point it offers, up to the first that fails; or none at all if it could not
      put its finalizers in place or prepare. */
  lemma LiveRunCalls(cfg: Config, ins: Inputs, w: World, o: Object) returns (calls: seq<Event>)
    requires w.stored == Some(o) && !o.deleting
    ensures CallsOf(RunLoaded(cfg, ins, w, o).world.trace) == CallsOf(w.trace) + calls
    ensures if ins.prepare.None? && AddFinalizers(cfg, w, o, ins.add).error.None? then InOrder(cfg, ins, 0, calls)
            else calls == []
  {
    var added := AddFinalizers(cfg, w, o, ins.add);
    Answers.AddRequests(cfg, w, o, ins.add);
    Spreading.AddedIsLinked(cfg, w, o, ins.add);
    NoCalls(w.trace, added.world.trace);
    calls := [];
    if added.error.None? && ins.prepare.None? {
      var inst := ReadyUnknownIfMissing(cfg, added.inst, ins.now);
      var end := RunSubroutines(cfg, ins, o, false, 0, added.world, inst, 0);
      calls := LiveLoopCalls(cfg, ins, o, 0, added.world, inst, 0);
      if end.Completed? {
        FinishRunIsMild(cfg, ins, o, false, end.world, end.inst, end.requeueAfter);
        MildCallsNothing(end.world, FinishRun(cfg, ins, o, false, end.world, end.inst, end.requeueAfter).world);
      }
    }
  }

  // ---------------------------------------------------------------- deletion runs

  /** What the `i`-th subroutine is called with in a deletion, if it is. */
  function DeletionCall(cfg: Config, ins: Inputs, i: nat): Event
    requires i < |cfg.subroutines|
  {
    Ran(i, if cfg.subroutines[i].isTerminator then Terminate else Finalize,
        StepAt(ins, |cfg.subroutines| - 1 - i).outcome)
  }

  predicate Called(calls: seq<Event>, i: nat) {
    exists j :: 0 <= j < |calls| && calls[j].Ran? && calls[j].sub == i
  }

  /** `fs` has a finalizer of the `i`-th subroutine. */
  predicate HoldsOne(cfg: Config, fs: seq<string>, i: nat)
    requires i < |cfg.subroutines|
  {
    exists f :: f in fs && f in cfg.subroutines[i].finalizers
  }

  /** Calls from the `m`-th subroutine, exclusive, downwards: each at most once, those that
      finalize only where one of their finalizers was there, none after one that fails. */
  predicate Downwards(cfg: Config, ins: Inputs, m: nat, fs: seq<string>, calls: seq<Event>)
    requires m <= |cfg.subroutines|
  {
    && (forall j :: 0 <= j < |calls| ==>
          && calls[j].Ran? && calls[j].sub < m
          && calls[j] == DeletionCall(cfg, ins, calls[j].sub)
          && (cfg.subroutines[calls[j].sub].isTerminator || HoldsOne(cfg, fs, calls[j].sub)))
    && (forall i, j :: 0 <= i < j < |calls| ==> calls[i].sub > calls[j].sub)
    && (forall j :: 0 <= j < |calls| - 1 ==> !Answers.Failing(calls[j]))
  }

  /** No terminator is passed over, and nobody who still has a finalizer in `left`, down to
      subroutine `s`. */
  predicate NonePassedOver(cfg: Config, m: nat, s: nat, left: seq<string>, calls: seq<Event>)
    requires m <= |cfg.subroutines|
  {
    forall i :: s <= i < m && (cfg.subroutines[i].isTerminator || HoldsOne(cfg, left, i)) ==> Called(calls, i)
  }

  lemma DownwardsStep(
    cfg: Config, ins: Inputs, i: nat, fs: seq<string>, left: seq<string>, first: seq<Event>, rest: seq<Event>)
    requires i < |cfg.subroutines| && Downwards(cfg, ins, i, left, rest) && forall f :: f in left ==> f in fs
    requires first == [] || (first == [DeletionCall(cfg, ins, i)] && (rest != [] ==> !Answers.Failing(first[0])))
    requires first != [] ==> cfg.subroutines[i].isTerminator || HoldsOne(cfg, fs, i)
    ensures Downwards(cfg, ins, i + 1, fs, first + rest)
  {
    var calls := first + rest;
    forall j | 0 <= j < |calls|
      ensures calls[j].Ran? && calls[j].sub < i + 1 && calls[j] == DeletionCall(cfg, ins, calls[j].sub)
      ensures cfg.subroutines[calls[j].sub].isTerminator || HoldsOne(cfg, fs, calls[j].sub)
      ensures j < |first| || calls[j].sub < i
    {
      if j >= |first| {
        assert calls[j] == rest[j - |first|];
        if !cfg.subroutines[calls[j].sub].isTerminator {
          var f :| f in left && f in cfg.subroutines[calls[j].sub].finalizers;
          assert f in fs;
        }
      }
    }
  }

  lemma PassesOverNone(
    cfg: Config, i: nat, s: nat, left: seq<string>, first: seq<Event>, rest: seq<Event>)
    requires i < |cfg.subroutines| && NonePassedOver(cfg, i, s, left, rest)
    requires (cfg.subroutines[i].isTerminator || HoldsOne(cfg, left, i)) ==>
               exists e :: e in first && e.Ran? && e.sub == i
    ensures NonePassedOver(cfg, i + 1, s, left, first + rest)
  {
    var calls := first + rest;
    forall m | s <= m < i + 1 && (cfg.subroutines[m].isTerminator || HoldsOne(cfg, left, m)) ensures Called(calls, m) {
      if m < i {
        var j :| 0 <= j < |rest| && rest[j].Ran? && rest[j].sub == m;
        assert calls[|first| + j] == rest[j];
      } else {
        var e :| e in first && e.Ran? && e.sub == i;
        assert e in calls;
      }
    }
  }

  /** Something stopped the run. */
  predicate Stuck(tr: seq<Event>, from: nat) {
    Answers.AnyFailing(tr, from) || Answers.AnyDenied(tr, from)
  }

  lemma StuckOn(tr: seq<Event>, tr': seq<Event>, from: nat, from': nat)
    requires tr <= tr' && from' <= from && Stuck(tr, from)
    ensures Stuck(tr', from')
  {
    var k :| from <= k < |tr| && (Answers.Failing(tr[k]) || Answers.Denied(tr[k]));
    assert Answers.Failing(tr'[k]) || Answers.Denied(tr'[k]);
  }

  /** One turn of a deletion. */
  lemma DeletionTurn(cfg: Config, ins: Inputs, k: nat, w: World, inst: Object) returns (first: seq<Event>)
    requires k < |cfg.subroutines| && inst.deleting && Linked(w.stored, inst)
    ensures var i, end := |cfg.subroutines| - 1 - k, Turn(cfg, ins, true, k, w, inst);
            && CallsOf(end.world.trace) == CallsOf(w.trace) + first
            && first == (if cfg.subroutines[i].isTerminator || HoldsOne(cfg, inst.finalizers, i)
                         then [DeletionCall(cfg, ins, i)] else [])
            && (end.error.None? ==>
                  && end.inst.deleting && Linked(end.world.stored, end.inst)
                  && (forall f :: f in end.inst.finalizers ==> f in inst.finalizers)
                  && (first != [] ==> !Answers.Failing(first[0])))
            && (end.error.Some? ==> first != [] && Stuck(end.world.trace, |w.trace|))
  {
    var i, end := |cfg.subroutines| - 1 - k, Turn(cfg, ins, true, k, w, inst);
    var prepared := ProcessingIfMissing(cfg, inst, cfg.subroutines[i].name, true, ins.now);
    TurnCalls(cfg, ins, true, k, w, inst);
    Progress.StepShrinks(cfg, w, prepared, i, StepAt(ins, k), ins.now);
    Answers.SubroutineAnswers(cfg, w, prepared, i, StepAt(ins, k), ins.now, |w.trace|, 0);
    assert Contains(inst.finalizers, cfg.subroutines[i].finalizers) <==> HoldsOne(cfg, inst.finalizers, i);
    first := if cfg.subroutines[i].isTerminator || HoldsOne(cfg, inst.finalizers, i)
             then [DeletionCall(cfg, ins, i)] else [];
  }

  /** What a deletion loop of the last `m` turns has done: it ran through and passed over
      nobody, or something stopped it. */
  predicate Undone(cfg: Config, m: nat, fs: seq<string>, from: nat, end: LoopEnd, calls: seq<Event>)
    requires m <= |cfg.subroutines|
  {
    match end
    case Completed(w, inst, _) =>
      && Linked(w.stored, inst)
      && (forall f :: f in inst.finalizers ==> f in fs)
      && NonePassedOver(cfg, m, 0, inst.finalizers, calls)
    case Stopped(done) =>
      && calls != [] && calls[|calls| - 1].Ran? && Stuck(done.world.trace, from)
      && NonePassedOver(cfg, m, calls[|calls| - 1].sub, [], calls)
  }

  lemma TeardownStep(
    cfg: Config, i: nat, fs: seq<string>, left: seq<string>, from: nat, from': nat, end: LoopEnd,
    first: seq<Event>, rest: seq<Event>)
    requires i < |cfg.subroutines| && from <= from' && Undone(cfg, i, left, from', end, rest)
    requires forall f :: f in left ==> f in fs
    requires if cfg.subroutines[i].isTerminator || HoldsOne(cfg, fs, i)
             then |first| == 1 && first[0].Ran? && first[0].sub == i else first == []
    ensures Undone(cfg, i + 1, fs, from, end, first + rest)
  {
    assert first != [] ==> first[0] in first;
    match end {
      case Completed(_, inst, _) =>
        assert HoldsOne(cfg, inst.finalizers, i) ==> HoldsOne(cfg, fs, i);
        PassesOverNone(cfg, i, 0, inst.finalizers, first, rest);
      case Stopped(done) =>
        StuckOn(done.world.trace, done.world.trace, from', from);
        PassesOverNone(cfg, i, rest[|rest| - 1].sub, [], first, rest);
    }
  }

  lemma StoppedHere(
    cfg: Config, ins: Inputs, original: Object, k: nat, w: World, inst: Object, acc: int, first: seq<Event>)
    requires k < |cfg.subroutines| && Turn(cfg, ins, true, k, w, inst).error.Some?
    requires var end := Turn(cfg, ins, true, k, w, inst); Stuck(end.world.trace, |w.trace|)
    requires |first| == 1 && first[0].Ran? && first[0].sub == |cfg.subroutines| - 1 - k
    ensures Undone(cfg, |cfg.subroutines| - k, inst.finalizers, |w.trace|,
                      RunSubroutines(cfg, ins, original, true, k, w, inst, acc), first)
  {
    var i, end := |cfg.subroutines| - 1 - k, Turn(cfg, ins, true, k, w, inst);
    LoopStep(cfg, ins, original, true, k, w, inst, acc);
    StopRunIsMild(cfg, ins, original, true, i, end, acc);
    StuckOn(end.world.trace, StopRun(cfg, ins, original, true, i, end, acc).world.trace, |w.trace|, |w.trace|);
    assert Called(first, i);
  }

  /** What is said of the calls from turn `k` on. */
  predicate DeletionCalls(
    cfg: Config, ins: Inputs, original: Object, k: nat, w: World, inst: Object, acc: int, calls: seq<Event>)
    requires k <= |cfg.subroutines|
  {
    var m := |cfg.subroutines| - k;
    && Downwards(cfg, ins, m, inst.finalizers, calls)
    && CallsOf(LoopWorld(cfg, ins, original, true, k, w, inst, acc).trace) == CallsOf(w.trace) + calls
    && Undone(cfg, m, inst.finalizers, |w.trace|, RunSubroutines(cfg, ins, original, true, k, w, inst, acc), calls)
  }

  lemma DeletionStep(
    cfg: Config, ins: Inputs, original: Object, k: nat, w: World, inst: Object, acc: int,
    first: seq<Event>, rest: seq<Event>)
    requires k < |cfg.subroutines|
    requires var i, end := |cfg.subroutines| - 1 - k, Turn(cfg, ins, true, k, w, inst);
             && end.error.None?
             && (forall f :: f in end.inst.finalizers ==> f in inst.finalizers)
             && CallsOf(end.world.trace) == CallsOf(w.trace) + first
             && first == (if cfg.subroutines[i].isTerminator || HoldsOne(cfg, inst.finalizers, i)
                          then [DeletionCall(cfg, ins, i)] else [])
             && (first != [] ==> !Answers.Failing(first[0]))
             && DeletionCalls(cfg, ins, original, k + 1, end.world, end.inst, Fold(acc, end.requeueAfter), rest)
    ensures DeletionCalls(cfg, ins, original, k, w, inst, acc, first + rest)
  {
    var i, end := |cfg.subroutines| - 1 - k, Turn(cfg, ins, true, k, w, inst);
    var acc' := Fold(acc, end.requeueAfter);
    DownwardsStep(cfg, ins, i, inst.finalizers, end.inst.finalizers, first, rest);
    TurnExtends(cfg, ins, true, k, w, inst);
    LoopStep(cfg, ins, original, true, k, w, inst, acc);
    TeardownStep(cfg, i, inst.finalizers, end.inst.finalizers, |w.trace|, |end.world.trace|,
      RunSubroutines(cfg, ins, original, true, k + 1, end.world, end.inst, acc'), first, rest);
    CallsFrom(cfg, ins, original, true, k, w, inst, acc, first, rest);
  }

  lemma StopCalls(
    cfg: Config, ins: Inputs, original: Object, k: nat, w: World, inst: Object, acc: int, first: seq<Event>)
    requires k < |cfg.subroutines|
    requires var i, end := |cfg.subroutines| - 1 - k, Turn(cfg, ins, true, k, w, inst);
             && end.error.Some? && Stuck(end.world.trace, |w.trace|)
             && CallsOf(end.world.trace) == CallsOf(w.trace) + first
             && first == [DeletionCall(cfg, ins, i)]
             && (cfg.subroutines[i].isTerminator || HoldsOne(cfg, inst.finalizers, i))
    ensures DeletionCalls(cfg, ins, original, k, w, inst, acc, first)
  {
    StoppedHere(cfg, ins, original, k, w, inst, acc, first);
    CallsFrom(cfg, ins, original, true, k, w, inst, acc, first, []);
    assert first + [] == first;
  }

  lemma {:induction false} DeletionLoopCalls(
    cfg: Config, ins: Inputs, original: Object, k: nat, w: World, inst: Object, acc: int) returns (calls: seq<Event>)
    requires k <= |cfg.subroutines| && inst.deleting && Linked(w.stored, inst)
    ensures DeletionCalls(cfg, ins, original, k, w, inst, acc, calls)
    decreases |cfg.subroutines| - k
  {
    calls := [];
    if k < |cfg.subroutines| {
      var end := Turn(cfg, ins, true, k, w, inst);
      calls := DeletionTurn(cfg, ins, k, w, inst);
      if end.error.Some? {
        StopCalls(cfg, ins, original, k, w, inst, acc, calls);
      } else {
        var rest := DeletionLoopCalls(cfg, ins, original, k + 1, end.world, end.inst, Fold(acc, end.requeueAfter));
        DeletionStep(cfg, ins, original, k, w, inst, acc, calls, rest);
        calls := calls + rest;
      }
    }
  }

  /** A prepared run on a deleting object calls subroutines against the order of the list, each
      at most once: terminators to terminate, others to finalize, and only those of which a
      finalizer was there. If nothing stopped it, it passes over no terminator and nobody
      whose finalizer is stored afterwards; if something did, no terminator before that. */
  lemma DeletionRunCalls(cfg: Config, ins: Inputs, w: World, o: Object) returns (calls: seq<Event>)
    requires w.stored == Some(o) && o.deleting && ins.prepare.None?
    ensures var w', n := RunLoaded(cfg, ins, w, o).world, |cfg.subroutines|;
            && CallsOf(w'.trace) == CallsOf(w.trace) + calls
            && Downwards(cfg, ins, n, o.finalizers, calls)
            && (!Stuck(w'.trace, |w.trace|) ==>
                  NonePassedOver(cfg, n, 0, if w'.stored.Some? then w'.stored.value.finalizers else [], calls))
            && (calls != [] ==> NonePassedOver(cfg, n, calls[|calls| - 1].sub, [], calls))
  {
    var w1 := Await(w, ins.add.before);
    AwaitIsMild(w, ins.add.before);
    MildCallsNothing(w, w1);
    var inst := ReadyUnknownIfMissing(cfg, o, ins.now);
    calls := DeletionLoopCalls(cfg, ins, o, 0, w1, inst, 0);
    match RunSubroutines(cfg, ins, o, true, 0, w1, inst, 0) {
      case Stopped(done) =>
        StuckOn(done.world.trace, done.world.trace, |w1.trace|, |w.trace|);
      case Completed(w2, inst2, acc) =>
        FinishRunIsMild(cfg, ins, o, true, w2, inst2, acc);
        MildCallsNothing(w2, FinishRun(cfg, ins, o, true, w2, inst2, acc).world);
    }
  }
}
