/** What a run answers, told from what happened in it: which failures are reported, which are
    not, and the requeue of a run in which nothing failed. */
module Answers {
  import opened Options
  import opened Conditions
  import opened Subroutines
  import opened Cluster
  import opened Lifecycle
  import opened Frames
  import Spreading

  /** A subroutine ended with an error. */
  predicate Failing(e: Event) {
    e.Ran? && e.outcome.error.Some? && e.outcome.error.value.cause.Some?
  }

  /** A patch did not get through: of the finalizers, or of a gate list. */
  predicate Denied(e: Event) {
    (e.Patched? && !e.acked && e.patch.labels.None?) || (e.StatusPatched? && !e.acked)
  }

  predicate Unsent(e: Event) {
    e.StatusSent? && !e.acked
  }

  predicate LabelDenied(e: Event) {
    e.Patched? && !e.acked && e.patch.labels.Some?
  }

  predicate Smooth(e: Event) {
    !Failing(e) && !Denied(e) && !Unsent(e) && !LabelDenied(e)
  }

  /** The answer after a failing subroutine: an error that may be retried is handed on, with
      the delay, and any other one is not. */
  function FailureAnswer(out: Outcome): Result
    requires out.error.Some?
  {
    match out.error.value
    case OperatorError(Some(message), true) => Result(out.requeueAfter, Some(SubroutineFailure(message)))
    case _ => Result(0, None)
  }

  /** `r` is the least positive delay that was asked for since `from`, and zero if none was. */
  predicate LeastAsked(tr: seq<Event>, from: nat, r: int) {
    && r >= 0
    && (forall k :: from <= k < |tr| && tr[k].Ran? && tr[k].outcome.requeueAfter > 0 ==>
          0 < r <= tr[k].outcome.requeueAfter)
    && (r > 0 ==> exists k :: from <= k < |tr| && tr[k].Ran? && tr[k].outcome.requeueAfter == r)
  }

  /** The error names what went wrong with a call: what the network said, or the server. */
  predicate Blames(fault: Fault, error: Option<RunError>) {
    && error.Some? && error.value.ApiFailure?
    && match fault
       case Refused(e) => error.value.error == e
       case ReplyLost(e) => error.value.error == e || !error.value.error.Unavailable?
       case Served => !error.value.error.Unavailable?
  }

  predicate AnyFailing(tr: seq<Event>, from: nat) {
    exists k :: from <= k < |tr| && Failing(tr[k])
  }

  predicate AnyDenied(tr: seq<Event>, from: nat) {
    exists k :: from <= k < |tr| && Denied(tr[k])
  }

  predicate AnyUnsent(tr: seq<Event>, from: nat) {
    exists k :: from <= k < |tr| && Unsent(tr[k])
  }

  predicate AnyLabelDenied(tr: seq<Event>, from: nat) {
    exists k :: from <= k < |tr| && LabelDenied(tr[k])
  }

  /** `r` is the answer that what happened since `from` calls for. A failing subroutine comes
      first; then a patch that did not get through; then a status that did not, unless the
      run had failed before; a refresh label that could not be taken off is passed over. */
  predicate Explains(ins: Inputs, live: bool, tr: seq<Event>, from: nat, r: Result) {
    if AnyFailing(tr, from) then
      && !AnyDenied(tr, from)
      && forall k :: from <= k < |tr| && Failing(tr[k]) ==> r == FailureAnswer(tr[k].outcome)
    else if AnyDenied(tr, from) then
      && r.requeueAfter == 0 && r.error.Some?
      && forall k :: from <= k < |tr| && Denied(tr[k]) ==>
           && (tr[k].StatusPatched? ==> Blames(ins.removal.fault, r.error))
           && (tr[k].Patched? && live ==> Blames(ins.add.fault, r.error))
    else if AnyUnsent(tr, from) then LeastAsked(tr, from, r.requeueAfter) && Blames(ins.status.fault, r.error)
    else if AnyLabelDenied(tr, from) then r == Result(0, None)
    else r.error.None? && LeastAsked(tr, from, r.requeueAfter)
  }

  // ---------------------------------------------------------------- what one request adds

  predicate OnlyStores(w: World, w': World) {
    w.trace <= w'.trace && forall k :: |w.trace| <= k < |w'.trace| ==> w'.trace[k].Stored?
  }

  /** After `w` there are changes of the stored object, and then `e`. */
  predicate Adds(w: World, w': World, e: Event) {
    && w.trace <= w'.trace && |w.trace| < |w'.trace| && w'.trace[|w'.trace| - 1] == e
    && forall k :: |w.trace| <= k < |w'.trace| - 1 ==> w'.trace[k].Stored?
  }

  lemma {:induction false} AwaitStores(w: World, nudges: seq<Nudge>)
    ensures OnlyStores(w, Await(w, nudges))
    decreases |nudges|
  {
    if nudges != [] && w.stored.Some? {
      AwaitStores(Put(w, Keep(Nudged(w.stored.value, nudges[0]))), nudges[1..]);
    }
  }

  lemma PatchAdds(w: World, p: Patch, fault: Fault)
    ensures var (w', reply) := PatchObject(w, p, fault);
            && Adds(w, w', Patched(p, reply.Replied?))
            && (reply.Failed? ==> Blames(fault, Some(ApiFailure(reply.error))))
  {
  }

  lemma PatchStatusAdds(w: World, p: Patch, fault: Fault)
    ensures var (w', reply) := PatchStatus(w, p, fault);
            && Adds(w, w', StatusPatched(p, reply.Replied?))
            && (reply.Failed? ==> Blames(fault, Some(ApiFailure(reply.error))))
  {
  }

  lemma UpdateAdds(w: World, inst: Object, fault: Fault)
    ensures var (w', reply) := UpdateStatus(w, inst, fault);
            && Adds(w, w', StatusSent(inst, w.stored, reply.Replied?))
            && (reply.Failed? ==> Blames(fault, Some(ApiFailure(reply.error))))
  {
  }

  lemma StoresThenAdds(a: World, b: World, c: World, e: Event)
    requires OnlyStores(a, b) && Adds(b, c, e)
    ensures Adds(a, c, e)
  {
    forall k | |a.trace| <= k < |c.trace| - 1 ensures c.trace[k].Stored? {
      if k < |b.trace| {
        assert c.trace[k] == b.trace[k];
      }
    }
  }

  /** What a part of a run did that asks for one request at most. */
  predicate Requests(w: World, at: Attempt, fault: Fault, e: Event) {
    && (at.error.None? ==> OnlyStores(w, at.world) || Adds(w, at.world, e))
    && (at.error.Some? ==> Adds(w, at.world, e) && Blames(fault, Some(ApiFailure(at.error.value))))
  }

  lemma AddRequests(cfg: Config, w: World, inst: Object, call: Call)
    ensures var at := AddFinalizers(cfg, w, inst, call);
            exists p: Patch :: p.labels.None? && Requests(w, at, call.fault, Patched(p, at.error.None?))
  {
    var w1 := Await(w, call.before);
    AwaitStores(w, call.before);
    var p := MergeFrom(inst, inst.(finalizers := WithAllFinalizers(inst.finalizers, cfg.subroutines)));
    var w2 := PatchObject(w1, p, call.fault).0;
    PatchAdds(w1, p, call.fault);
    StoresThenAdds(w, w1, w2, w2.trace[|w2.trace| - 1]);
    var at := AddFinalizers(cfg, w, inst, call);
    assert Requests(w, at, call.fault, Patched(p, at.error.None?));
  }

  lemma RemoveRequests(cfg: Config, w: World, inst: Object, removed: seq<string>, fault: Fault)
    ensures var at := RemoveFinalizers(cfg, w, inst, removed, fault);
            exists p: Patch :: p.labels.None? && Requests(w, at, fault, Patched(p, at.error.None?))
  {
    var p := MergeFrom(inst, inst.(finalizers := WithoutFinalizers(inst.finalizers, removed)));
    PatchAdds(w, p, fault);
    var at := RemoveFinalizers(cfg, w, inst, removed, fault);
    assert Requests(w, at, fault, Patched(p, at.error.None?));
  }

  lemma GateRequests(cfg: Config, w: World, inst: Object, deletion: bool, acc: int, call: Call)
    ensures var at := RemoveGate(cfg, w, inst, deletion, acc, call);
            && (acc != 0 ==> at.error.None?)
            && exists p: Patch :: Requests(w, at, call.fault, StatusPatched(p, at.error.None?))
  {
    var w1 := Await(w, call.before);
    AwaitStores(w, call.before);
    var t := inst.(status := inst.status.(terminators := Without(inst.status.terminators, cfg.terminator)));
    var i := inst.(status := inst.status.(initializers := Without(inst.status.initializers, cfg.initializer)));
    var p := MergeFrom(inst, if deletion then t else i);
    var w2 := PatchStatus(w1, p, call.fault).0;
    PatchStatusAdds(w1, p, call.fault);
    StoresThenAdds(w, w1, w2, w2.trace[|w2.trace| - 1]);
    var at := RemoveGate(cfg, w, inst, deletion, acc, call);
    assert Requests(w, at, call.fault, StatusPatched(p, at.error.None?));
  }

  lemma SendRequests(cfg: Config, w: World, original: Object, inst: Object, call: Call)
    ensures var at := SendStatus(cfg, w, original, inst, call);
            exists onto :: Requests(w, at, call.fault, StatusSent(inst, onto, at.error.None?))
  {
    var w1 := Await(w, call.before);
    AwaitStores(w, call.before);
    UpdateAdds(w1, inst, call.fault);
    var w2 := UpdateStatus(w1, inst, call.fault).0;
    StoresThenAdds(w, w1, w2, w2.trace[|w2.trace| - 1]);
    var at := SendStatus(cfg, w, original, inst, call);
    assert Requests(w, at, call.fault, StatusSent(inst, w1.stored, at.error.None?));
  }

  lemma SendFinalRequests(cfg: Config, w: World, original: Object, inst: Object, call: Call)
    ensures var at := SendFinalStatus(cfg, w, original, inst, call);
            exists onto :: Requests(w, at, call.fault, StatusSent(inst, onto, at.error.None?))
  {
    AwaitStores(w, call.before);
    SendRequests(cfg, w, original, inst, call);
    var at := SendFinalStatus(cfg, w, original, inst, call);
    assert inst.deleting && inst.finalizers == [] ==>
             Requests(w, at, call.fault, StatusSent(inst, w.stored, at.error.None?));
  }

  // ---------------------------------------------------------------- the loop

  /** Nothing has failed since `from`, and `acc` is the least delay asked for. */
  predicate SoFar(tr: seq<Event>, from: nat, acc: int) {
    && from <= |tr|
    && (forall k :: from <= k < |tr| ==> Smooth(tr[k]))
    && LeastAsked(tr, from, acc)
  }

  /** Nothing but smooth events that ask for no delay. */
  predicate Smoothly(w: World, w': World) {
    && w.trace <= w'.trace
    && forall k :: |w.trace| <= k < |w'.trace| ==> Smooth(w'.trace[k]) && !w'.trace[k].Ran?
  }

  lemma SmoothlyOn(w: World, w': World, from: nat, acc: int)
    requires SoFar(w.trace, from, acc) && Smoothly(w, w')
    ensures SoFar(w'.trace, from, acc)
  {
    if acc > 0 {
      var k :| from <= k < |w.trace| && w.trace[k].Ran? && w.trace[k].outcome.requeueAfter == acc;
      assert w'.trace[k] == w.trace[k];
    }
    forall k | from <= k < |w'.trace|
      ensures Smooth(w'.trace[k]) && (w'.trace[k].Ran? && w'.trace[k].outcome.requeueAfter > 0 ==>
                                        0 < acc <= w'.trace[k].outcome.requeueAfter)
    {
      if k < |w.trace| {
        assert w'.trace[k] == w.trace[k];
      }
    }
  }

  /** The run has to stop, and this is the answer: a subroutine failed, or, in a deletion, the
      patch of the finalizers did not get through. */
  predicate Stops(live: bool, tr: seq<Event>, from: nat, r: Result) {
    && from <= |tr|
    && if AnyFailing(tr, from) then
         && !AnyDenied(tr, from)
         && forall k :: from <= k < |tr| && Failing(tr[k]) ==> r == FailureAnswer(tr[k].outcome)
       else
         && AnyDenied(tr, from) && !live && r.requeueAfter == 0 && r.error.Some?
         && forall k :: from <= k < |tr| && Denied(tr[k]) ==> tr[k].Patched?
  }

  lemma StopsOn(live: bool, tr: seq<Event>, tr': seq<Event>, from: nat, r: Result)
    requires tr <= tr' && Stops(live, tr, from, r)
    requires forall k :: |tr| <= k < |tr'| ==> !Failing(tr'[k]) && !Denied(tr'[k])
    ensures Stops(live, tr', from, r)
  {
    if AnyFailing(tr, from) {
      var k :| from <= k < |tr| && Failing(tr[k]);
      assert Failing(tr'[k]);
    } else {
      var k :| from <= k < |tr| && Denied(tr[k]);
      assert Denied(tr'[k]);
    }
    assert forall k :: from <= k < |tr| ==> tr'[k] == tr[k];
  }

  lemma StopsExplains(ins: Inputs, live: bool, tr: seq<Event>, from: nat, r: Result)
    requires Stops(live, tr, from, r)
    ensures Explains(ins, live, tr, from, r)
  {
  }

  /** The call of a subroutine, before any patch. */
  lemma CallAnswers(w: World, i: nat, verb: Verb, out: Outcome, before: seq<Nudge>, live: bool, from: nat, acc: int)
    requires SoFar(w.trace, from, acc)
    ensures var w' := Await(Log(w, Ran(i, verb, out)), before);
            && w.trace <= w'.trace
            && (out.Cause().None? ==> SoFar(w'.trace, from, Fold(acc, out.requeueAfter)))
            && (out.Cause().Some? ==> Stops(live, w'.trace, from, FailureAnswer(out)))
  {
    var e := Ran(i, verb, out);
    var w1 := Log(w, e);
    var w' := Await(w1, before);
    AwaitStores(w1, before);
    assert forall k :: from <= k < |w.trace| ==> w1.trace[k] == w.trace[k];
    assert w1.trace[|w.trace|] == e;
    if out.Cause().None? {
      LeastOn(w.trace, e, from, acc);
      SmoothlyOn(w1, w', from, Fold(acc, out.requeueAfter));
    } else {
      assert Failing(w1.trace[|w.trace|]);
      StopsOn(live, w1.trace, w'.trace, from, FailureAnswer(out));
    }
  }

  lemma LeastOn(tr: seq<Event>, e: Event, from: nat, acc: int)
    requires e.Ran? && from <= |tr| && LeastAsked(tr, from, acc)
    ensures LeastAsked(tr + [e], from, Fold(acc, e.outcome.requeueAfter))
  {
    var tr', acc' := tr + [e], Fold(acc, e.outcome.requeueAfter);
    if acc' == acc && acc > 0 {
      var k :| from <= k < |tr| && tr[k].Ran? && tr[k].outcome.requeueAfter == acc;
      assert tr'[k] == tr[k];
    } else if acc' > 0 {
      assert tr'[|tr|] == e;
    }
    forall k | from <= k < |tr'| && tr'[k].Ran? && tr'[k].outcome.requeueAfter > 0
      ensures 0 < acc' <= tr'[k].outcome.requeueAfter
    {
      if k < |tr| {
        assert tr'[k] == tr[k];
      }
    }
  }

  function TurnAnswer(end: SubroutineEnd): Result
    requires end.error.Some?
  {
    if end.retry then Result(end.requeueAfter, Some(SubroutineFailure(end.error.value))) else Result(0, None)
  }

  lemma SubroutineAnswers(
    cfg: Config, w: World, inst: Object, i: nat, step: Step, now: int, from: nat, acc: int)
    requires i < |cfg.subroutines| && SoFar(w.trace, from, acc)
    ensures var end := ReconcileSubroutine(cfg, w, inst, i, step, now);
            && (end.error.None? ==> SoFar(end.world.trace, from, Fold(acc, end.requeueAfter)))
            && (end.error.Some? ==> Stops(!inst.deleting, end.world.trace, from, TurnAnswer(end)))
            && (!inst.deleting ==> !end.inst.deleting)
  {
    var verb, out := VerbFor(cfg.subroutines[i], inst), step.outcome;
    var w1 := Await(Log(w, Ran(i, verb, out)), step.patch.before);
    CallAnswers(w, i, verb, out, step.patch.before, !inst.deleting, from, acc);
    var end := ReconcileSubroutine(cfg, w, inst, i, step, now);
    if verb.Skip? {
      AwaitStores(w, step.patch.before);
      SmoothlyOn(w, end.world, from, acc);
    } else if out.error.None? && verb.Finalize? && out.requeueAfter == 0 {
      var edited := inst.(status := Edited(inst.status, out.edits, now));
      RemovalAnswers(cfg, w1, edited, cfg.subroutines[i].finalizers, step.patch.fault, from, acc);
    }
  }

  lemma RemovalAnswers(
    cfg: Config, w: World, inst: Object, removed: seq<string>, fault: Fault, from: nat, acc: int)
    requires SoFar(w.trace, from, acc)
    ensures var a := RemoveFinalizers(cfg, w, inst, removed, fault);
            && (a.error.None? ==> SoFar(a.world.trace, from, acc))
            && (a.error.Some? ==> forall m :: Stops(false, a.world.trace, from, Result(0, Some(SubroutineFailure(m)))))
  {
    var a := RemoveFinalizers(cfg, w, inst, removed, fault);
    RemoveRequests(cfg, w, inst, removed, fault);
    if a.error.None? {
      SmoothlyOn(w, a.world, from, acc);
    } else {
      assert Denied(a.world.trace[|a.world.trace| - 1]);
      assert forall k :: from <= k < |w.trace| ==> a.world.trace[k] == w.trace[k];
    }
  }

  /** A status that is sent after the run has to stop changes nothing about the answer. */
  lemma StopsAndSends(
    ins: Inputs, live: bool, w: World, w1: World, at: Attempt, fault: Fault, inst: Object, onto: Option<Object>,
    from: nat, r: Result)
    requires Stops(live, w.trace, from, r) && (w1 == w || w1 == Log(w, MarkedFinal))
    requires Requests(w1, at, fault, StatusSent(inst, onto, at.error.None?))
    ensures Explains(ins, live, at.world.trace, from, r)
  {
    StopsOn(live, w.trace, w1.trace, from, r);
    StopsOn(live, w1.trace, at.world.trace, from, r);
    StopsExplains(ins, live, at.world.trace, from, r);
  }

  lemma StopAnswers(
    cfg: Config, ins: Inputs, original: Object, deletion: bool, i: nat, end: SubroutineEnd, acc: int,
    live: bool, from: nat)
    requires i < |cfg.subroutines| && end.error.Some? && Stops(live, end.world.trace, from, TurnAnswer(end))
    ensures var done := StopRun(cfg, ins, original, deletion, i, end, acc);
            Explains(ins, live, done.world.trace, from, done.result)
  {
    var failed := SetSubroutine(cfg, end.inst, cfg.subroutines[i].name, deletion, acc, end.error, ins.now);
    var unready := SetReady(cfg, failed, CondFalse, ins.now);
    var final := if end.retry then unready else MarkFinal(cfg, unready, CondFalse, ins.now, ins.jitter);
    var w := if end.retry then end.world else Log(end.world, MarkedFinal);
    var at := SendStatus(cfg, w, original, final, ins.status);
    SendRequests(cfg, w, original, final, ins.status);
    var onto :| Requests(w, at, ins.status.fault, StatusSent(final, onto, at.error.None?));
    StopsAndSends(ins, live, end.world, w, at, ins.status.fault, final, onto, from, TurnAnswer(end));
  }

  lemma {:induction false} LoopAnswers(
    cfg: Config, ins: Inputs, original: Object, deletion: bool, k: nat, w: World, inst: Object, acc: int,
    live: bool, from: nat)
    requires k <= |cfg.subroutines| && SoFar(w.trace, from, acc) && (live ==> !inst.deleting)
    ensures match RunSubroutines(cfg, ins, original, deletion, k, w, inst, acc)
            case Stopped(done) => Explains(ins, live, done.world.trace, from, done.result)
            case Completed(w', inst', acc') => SoFar(w'.trace, from, acc')
    decreases |cfg.subroutines| - k
  {
    if k < |cfg.subroutines| {
      var i, end := Position(cfg, deletion, k), Turn(cfg, ins, deletion, k, w, inst);
      var prepared := ProcessingIfMissing(cfg, inst, cfg.subroutines[i].name, deletion, ins.now);
      SubroutineAnswers(cfg, w, prepared, i, StepAt(ins, k), ins.now, from, acc);
      LoopStep(cfg, ins, original, deletion, k, w, inst, acc);
      if end.error.Some? {
        StopAnswers(cfg, ins, original, deletion, i, end, acc, live, from);
      } else {
        LoopAnswers(cfg, ins, original, deletion, k + 1, end.world, end.inst, Fold(acc, end.requeueAfter), live, from);
      }
    }
  }

  // ---------------------------------------------------------------- after the loop

  lemma DeniedExplains(ins: Inputs, live: bool, w: World, w': World, e: Event, from: nat, acc: int, r: Result)
    requires SoFar(w.trace, from, acc) && Adds(w, w', e)
    requires Denied(e) && r.error.Some? && r.requeueAfter == 0
    requires e.StatusPatched? ==> Blames(ins.removal.fault, r.error)
    requires e.Patched? ==> Blames(ins.add.fault, r.error)
    ensures Explains(ins, live, w'.trace, from, r)
  {
    assert Denied(w'.trace[|w'.trace| - 1]);
    assert forall k :: from <= k < |w.trace| ==> w'.trace[k] == w.trace[k];
  }

  lemma UnsentExplains(ins: Inputs, live: bool, w: World, w': World, e: Event, from: nat, acc: int, r: Result)
    requires SoFar(w.trace, from, acc) && Adds(w, w', e)
    requires Unsent(e) && r.requeueAfter == acc && Blames(ins.status.fault, r.error)
    ensures Explains(ins, live, w'.trace, from, r)
  {
    LeastStays(w, w', from, acc);
    assert Unsent(w'.trace[|w'.trace| - 1]);
    assert forall k :: from <= k < |w.trace| ==> w'.trace[k] == w.trace[k];
  }

  lemma LabelExplains(ins: Inputs, live: bool, w: World, w': World, e: Event, from: nat, acc: int)
    requires SoFar(w.trace, from, acc) && Adds(w, w', e) && LabelDenied(e)
    ensures Explains(ins, live, w'.trace, from, Result(0, None))
  {
    assert LabelDenied(w'.trace[|w'.trace| - 1]);
    assert forall k :: from <= k < |w.trace| ==> w'.trace[k] == w.trace[k];
  }

  /** The delays asked for do not change when no subroutine is called. */
  lemma LeastStays(w: World, w': World, from: nat, acc: int)
    requires from <= |w.trace| && LeastAsked(w.trace, from, acc) && w.trace <= w'.trace
    requires forall k :: |w.trace| <= k < |w'.trace| ==> !w'.trace[k].Ran?
    ensures LeastAsked(w'.trace, from, acc)
  {
    if acc > 0 {
      var k :| from <= k < |w.trace| && w.trace[k].Ran? && w.trace[k].outcome.requeueAfter == acc;
      assert w'.trace[k] == w.trace[k];
    }
    assert forall k :: from <= k < |w.trace| ==> w'.trace[k] == w.trace[k];
  }

  lemma RefreshAnswers(cfg: Config, ins: Inputs, live: bool, w: World, inst: Object, from: nat, acc: int)
    requires SoFar(w.trace, from, acc)
    ensures var done := RemoveRefreshLabel(cfg, w, inst, acc, ins.refresh);
            Explains(ins, live, done.world.trace, from, done.result)
  {
    var w1 := Await(w, ins.refresh.before);
    AwaitStores(w, ins.refresh.before);
    SmoothlyOn(w, w1, from, acc);
    if cfg.spreader && !inst.deleting && REFRESH_LABEL in inst.labels {
      var p := MergeFrom(inst, inst.(labels := inst.labels - {REFRESH_LABEL}));
      var (w2, reply) := PatchObject(w1, p, ins.refresh.fault);
      PatchAdds(w1, p, ins.refresh.fault);
      if reply.Replied? {
        SmoothlyOn(w1, w2, from, acc);
      } else {
        LabelExplains(ins, live, w1, w2, Patched(p, false), from, acc);
      }
    }
  }

  lemma SentAnswers(
    cfg: Config, ins: Inputs, original: Object, w: World, inst: Object, acc: int, live: bool, from: nat)
    requires SoFar(w.trace, from, acc)
    ensures var sent := SendFinalStatus(cfg, w, original, inst, ins.status);
            && (sent.error.Some? ==> Explains(ins, live, sent.world.trace, from,
                                       Result(acc, Some(ApiFailure(sent.error.value)))))
            && (sent.error.None? ==> SoFar(sent.world.trace, from, acc))
  {
    var sent := SendFinalStatus(cfg, w, original, inst, ins.status);
    SendFinalRequests(cfg, w, original, inst, ins.status);
    if sent.error.Some? {
      var r := Result(acc, Some(ApiFailure(sent.error.value)));
      UnsentExplains(ins, live, w, sent.world, sent.world.trace[|sent.world.trace| - 1], from, acc, r);
    } else {
      SmoothlyOn(w, sent.world, from, acc);
    }
  }

  lemma GateAnswers(
    cfg: Config, ins: Inputs, w: World, inst: Object, deletion: bool, acc: int, live: bool, from: nat)
    requires SoFar(w.trace, from, acc)
    ensures var gate := RemoveGate(cfg, w, inst, deletion, acc, ins.removal);
            && (gate.error.Some? ==> Explains(ins, live, gate.world.trace, from,
                                       Result(acc, Some(ApiFailure(gate.error.value)))))
            && (gate.error.None? ==> SoFar(gate.world.trace, from, acc))
  {
    var gate := RemoveGate(cfg, w, inst, deletion, acc, ins.removal);
    GateRequests(cfg, w, inst, deletion, acc, ins.removal);
    if gate.error.Some? {
      var r := Result(acc, Some(ApiFailure(gate.error.value)));
      DeniedExplains(ins, live, w, gate.world, gate.world.trace[|gate.world.trace| - 1], from, acc, r);
    } else {
      SmoothlyOn(w, gate.world, from, acc);
    }
  }

  lemma FinishAnswers(
    cfg: Config, ins: Inputs, original: Object, deletion: bool, w: World, inst: Object, acc: int, live: bool, from: nat)
    requires SoFar(w.trace, from, acc)
    ensures var done := FinishRun(cfg, ins, original, deletion, w, inst, acc);
            Explains(ins, live, done.world.trace, from, done.result)
  {
    var marked := if acc == 0 then Log(w, MarkedFinal) else w;
    var concluded := Conclude(cfg, inst, acc, ins);
    var gate := RemoveGate(cfg, marked, concluded, deletion, acc, ins.removal);
    SmoothlyOn(w, marked, from, acc);
    GateAnswers(cfg, ins, marked, concluded, deletion, acc, live, from);
    if gate.error.None? {
      var sent := SendFinalStatus(cfg, gate.world, original, gate.inst, ins.status);
      SentAnswers(cfg, ins, original, gate.world, gate.inst, acc, live, from);
      if sent.error.None? {
        RefreshAnswers(cfg, ins, live, sent.world, sent.inst, from, acc);
      }
    }
  }

  // ---------------------------------------------------------------- the claims

  /** The answer of a run is the one that its trace calls for, whatever the subroutines
      answer, others do and the server makes of each request, deletion runs included. */
  lemma AnswerIsExplained(cfg: Config, ins: Inputs, w: World, o: Object)
    requires w.stored == Some(o) && ins.prepare.None?
    ensures var done := RunLoaded(cfg, ins, w, o);
            w.trace <= done.world.trace && Explains(ins, !o.deleting, done.world.trace, |w.trace|, done.result)
  {
    var from, live := |w.trace|, !o.deleting;
    var added := AddFinalizers(cfg, w, o, ins.add);
    var done := RunLoaded(cfg, ins, w, o);
    AddRequests(cfg, w, o, ins.add);
    Spreading.AddedIsLinked(cfg, w, o, ins.add);
    if added.error.Some? {
      DeniedExplains(ins, live, w, added.world, added.world.trace[|added.world.trace| - 1], from, 0, done.result);
    } else {
      SmoothlyOn(w, added.world, from, 0);
      var inst := ReadyUnknownIfMissing(cfg, added.inst, ins.now);
      LoopAnswers(cfg, ins, o, o.deleting, 0, added.world, inst, 0, live, from);
      LoopExtends(cfg, ins, o, o.deleting, 0, added.world, inst, 0);
      var end := RunSubroutines(cfg, ins, o, o.deleting, 0, added.world, inst, 0);
      if end.Completed? {
        FinishAnswers(cfg, ins, o, o.deleting, end.world, end.inst, end.requeueAfter, live, from);
        FinishRunIsMild(cfg, ins, o, o.deleting, end.world, end.inst, end.requeueAfter);
      }
    }
  }

  /** A run that prepares in vain calls no subroutine and sends no status. Its error is handed
      on when it may be retried, unless the finalizer patch had failed before. */
  lemma PreparationIsAnswered(cfg: Config, ins: Inputs, w: World, o: Object)
    requires w.stored == Some(o) && ins.prepare.Some?
    ensures var done := RunLoaded(cfg, ins, w, o);
            var tr, from := done.world.trace, |w.trace|;
            && w.trace <= tr
            && (forall k :: from <= k < |tr| ==> tr[k].Stored? || (tr[k].Patched? && tr[k].patch.labels.None?))
            && done.result.requeueAfter == 0
            && if AnyDenied(tr, from) then Blames(ins.add.fault, done.result.error)
               else match ins.prepare.value
                 case OperatorError(Some(message), true) => done.result.error == Some(SubroutineFailure(message))
                 case _ => done.result.error.None?
  {
    AddRequests(cfg, w, o, ins.add);
    var tr := AddFinalizers(cfg, w, o, ins.add).world.trace;
    assert AddFinalizers(cfg, w, o, ins.add).error.Some? ==> Denied(tr[|tr| - 1]);
  }

  /** A run that reports no error has got all its patches through, those of the refresh label
      aside, and its status as well unless a subroutine failed. */
  lemma SuccessMeansDelivered(cfg: Config, ins: Inputs, w: World, o: Object, k: nat)
    requires w.stored == Some(o) && RunLoaded(cfg, ins, w, o).result.error.None?
    requires |w.trace| <= k < |RunLoaded(cfg, ins, w, o).world.trace|
    ensures var tr := RunLoaded(cfg, ins, w, o).world.trace;
            && (tr[k].Patched? && tr[k].patch.labels.None? ==> tr[k].acked)
            && (tr[k].StatusPatched? ==> tr[k].acked)
            && (tr[k].StatusSent? && !AnyFailing(tr, |w.trace|) ==> tr[k].acked)
  {
    if ins.prepare.None? {
      AnswerIsExplained(cfg, ins, w, o);
    } else {
      PreparationIsAnswered(cfg, ins, w, o);
    }
  }

  /** A prepared run reports an error exactly when a patch did not get through, a subroutine
      failed with an error that may be retried, or none failed and the status did not get
      through. */
  lemma ErrorExactlyWhen(cfg: Config, ins: Inputs, w: World, o: Object)
    requires w.stored == Some(o) && ins.prepare.None?
    ensures var tr, from := RunLoaded(cfg, ins, w, o).world.trace, |w.trace|;
            RunLoaded(cfg, ins, w, o).result.error.Some?
            <==> || AnyDenied(tr, from)
                 || (exists k :: from <= k < |tr| && Failing(tr[k]) && tr[k].outcome.error.value.retry)
                 || (!AnyFailing(tr, from) && AnyUnsent(tr, from))
  {
    AnswerIsExplained(cfg, ins, w, o);
  }

  /** A run that cannot read its object does nothing: one that is gone is no error, and
      neither is the server's word that it is; every other failure is. */
  lemma ReadIsAnswered(cfg: Config, w: World, ins: Inputs)
    ensures var w1, done := Await(w, ins.get.before), Reconcile(cfg, w, ins);
            match ins.get.fault
            case Served => w1.stored.None? ==> done == Done(w1, Result(0, None))
            case Refused(e) => done == Done(w1, Result(0, if e == NotFound then None else Some(ApiFailure(e))))
            case ReplyLost(e) => done == Done(w1, Result(0, if e == NotFound then None else Some(ApiFailure(e))))
  {
  }
}
