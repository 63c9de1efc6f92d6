/** What the statuses of a deletion run say of every finalization, and what they lose: the reply
    of each finalizer patch brings back the list that was stored. */
module DeletionReports {
  import opened Options
  import opened Conditions
  import opened Subroutines
  import opened Cluster
  import opened Lifecycle
  import opened Frames
  import opened ReadySoundness
  import opened Reports
  import opened Dispatch
  import Answers
  import Finalizers
  import Progress

  function FName(cfg: Config, i: nat): string
    requires i < |cfg.subroutines|
  {
    ConditionName(cfg.subroutines[i].name, true)
  }

  predicate Ours(cfg: Config, t: string) {
    t == READY || exists i :: 0 <= i < |cfg.subroutines| && t == FName(cfg, i)
  }

  /** The subroutines' own edits leave the conditions of a deletion alone. */
  ghost predicate LeavesOurs(cfg: Config, ins: Inputs) {
    DistinctNames(cfg) && forall t :: Ours(cfg, t) ==> Untouched(cfg, ins, t)
  }

  lemma FNamesApart(cfg: Config, i: nat, j: nat)
    requires i < |cfg.subroutines| && j < |cfg.subroutines| && DistinctNames(cfg)
    ensures FName(cfg, i) != READY && Ours(cfg, FName(cfg, i))
    ensures FName(cfg, i) == FName(cfg, j) <==> i == j
  {
    ConditionNamesDistinct(cfg.subroutines[i].name, cfg.subroutines[j].name, true, true);
  }

  // ---------------------------------------------------------------- one turn

  predicate StatusIs(o: Option<Object>, s: Status) {
    o.Some? ==> o.value.status == s
  }

  /** The `i`-th subroutine was finalized, and its finalizers were patched away. */
  predicate Reloads(cfg: Config, e: Event, i: nat) {
    !cfg.readOnly && e.Ran? && e.sub == i && e.verb.Finalize? && e.outcome.error.None? && e.outcome.requeueAfter == 0
  }

  lemma RemovalReloads(cfg: Config, w: World, inst: Object, i: nat, fault: Fault, s0: Status)
    requires i < |cfg.subroutines| && Linked(w.stored, inst) && StatusIs(w.stored, s0) && !cfg.readOnly
    requires HoldsOne(cfg, inst.finalizers, i)
    ensures var a := RemoveFinalizers(cfg, w, inst, cfg.subroutines[i].finalizers, fault);
            && StatusIs(a.world.stored, s0)
            && a.inst.status == if a.error.None? then s0 else inst.status
  {
    var removed := cfg.subroutines[i].finalizers;
    Finalizers.WithoutFinalizersMembers(inst.finalizers, removed);
    var modified := inst.(finalizers := WithoutFinalizers(inst.finalizers, removed));
    assert modified != inst;
  }

  lemma CallReloads(cfg: Config, w: World, inst: Object, i: nat, step: Step, now: int, s0: Status)
    requires i < |cfg.subroutines| && inst.deleting && Linked(w.stored, inst) && StatusIs(w.stored, s0)
    requires !cfg.subroutines[i].isTerminator && HoldsOne(cfg, inst.finalizers, i) && !cfg.readOnly
    requires step.outcome.error.None? && step.outcome.requeueAfter == 0
    ensures var end := ReconcileSubroutine(cfg, w, inst, i, step, now);
            && StatusIs(end.world.stored, s0)
            && (end.error.Some? ==> end.inst.status == Edited(inst.status, step.outcome.edits, now))
            && (end.error.None? ==> end.requeueAfter == 0 && end.inst.status == s0)
  {
    var w1 := Log(w, Ran(i, Finalize, step.outcome));
    AwaitKeepsStatus(w1, step.patch.before);
    AwaitIsMild(w1, step.patch.before);
    assert Contains(inst.finalizers, cfg.subroutines[i].finalizers);
    RemovalReloads(cfg, Await(w1, step.patch.before),
      inst.(status := Edited(inst.status, step.outcome.edits, now)), i, step.patch.fault, s0);
  }

  lemma CallKeeps(cfg: Config, w: World, inst: Object, i: nat, step: Step, now: int, s0: Status)
    requires i < |cfg.subroutines| && inst.deleting && StatusIs(w.stored, s0)
    requires cfg.subroutines[i].isTerminator || cfg.readOnly || !HoldsOne(cfg, inst.finalizers, i)
             || step.outcome.error.Some? || step.outcome.requeueAfter != 0
    ensures var end := ReconcileSubroutine(cfg, w, inst, i, step, now);
            var called := cfg.subroutines[i].isTerminator || HoldsOne(cfg, inst.finalizers, i);
            && StatusIs(end.world.stored, s0)
            && end.inst.status == (if called then Edited(inst.status, step.outcome.edits, now) else inst.status)
            && end.requeueAfter == (if called then step.outcome.requeueAfter else 0)
            && end.error == (if called then step.outcome.Cause() else None)
  {
    var verb := VerbFor(cfg.subroutines[i], inst);
    assert Contains(inst.finalizers, cfg.subroutines[i].finalizers) <==> HoldsOne(cfg, inst.finalizers, i);
    AwaitKeepsStatus(if verb.Skip? then w else Log(w, Ran(i, verb, step.outcome)), step.patch.before);
  }

  /** The status a turn starts from, after the subroutine's edits if it is called. */
  function EditedStatus(cfg: Config, ins: Inputs, i: nat, called: bool, inst: Object): Status
    requires i < |cfg.subroutines|
  {
    var prepared := inst.status.(conditions := SetIfMissing(inst.status.conditions,
      ProcessingCondition(cfg.subroutines[i].name, true, inst.generation), ins.now));
    if called then Edited(prepared, StepAt(ins, |cfg.subroutines| - 1 - i).outcome.edits, ins.now) else prepared
  }

  /** A turn that asks for nothing more sets the subroutine's condition to complete. */
  predicate Concludes(
    cfg: Config, ins: Inputs, i: nat, g: int, requeueAfter: int, base: seq<Condition>, cs: seq<Condition>)
    requires i < |cfg.subroutines|
  {
    cs == if requeueAfter == 0 then SetCondition(base, CompleteCondition(cfg.subroutines[i].name, true, g), ins.now)
          else base
  }

  /** The error of the turn is that of the subroutine, if it failed. */
  predicate KeepsCause(out: Outcome, end: SubroutineEnd) {
    out.Cause().Some? ==> end.error == out.Cause()
  }

  /** What a turn of a deletion makes of the list. */
  ghost predicate TurnSays(
    cfg: Config, ins: Inputs, i: nat, s0: Status, inst: Object, first: seq<Event>, end: SubroutineEnd)
    requires i < |cfg.subroutines|
  {
    var edited := EditedStatus(cfg, ins, i, first != [], inst);
    var base := if first != [] && Reloads(cfg, first[0], i) then s0.conditions else edited.conditions;
    if end.error.Some? then end.inst.status.conditions == edited.conditions
    else
      && end.requeueAfter == (if first == [] then 0 else StepAt(ins, |cfg.subroutines| - 1 - i).outcome.requeueAfter)
      && exists g :: Concludes(cfg, ins, i, g, end.requeueAfter, base, end.inst.status.conditions)
  }

  lemma DeletionTurnList(
    cfg: Config, ins: Inputs, k: nat, w: World, inst: Object, s0: Status, first: seq<Event>)
    requires k < |cfg.subroutines| && inst.deleting && Linked(w.stored, inst) && StatusIs(w.stored, s0)
    requires cfg.conditions
    requires var i := |cfg.subroutines| - 1 - k;
             first == if cfg.subroutines[i].isTerminator || HoldsOne(cfg, inst.finalizers, i)
                      then [DeletionCall(cfg, ins, i)] else []
    ensures var i, end := |cfg.subroutines| - 1 - k, Turn(cfg, ins, true, k, w, inst);
            StatusIs(end.world.stored, s0) && TurnSays(cfg, ins, i, s0, inst, first, end)
            && (end.error.Some? ==> KeepsCause(StepAt(ins, k).outcome, end))
  {
    var i, step := |cfg.subroutines| - 1 - k, StepAt(ins, k);
    var inst0 := ProcessingIfMissing(cfg, inst, cfg.subroutines[i].name, true, ins.now);
    var end0 := ReconcileSubroutine(cfg, w, inst0, i, step, ins.now);
    assert inst0.status == EditedStatus(cfg, ins, i, false, inst);
    SubroutineSays(cfg, ins, i, w, inst, s0, first);
    CompleteSays(cfg, ins, i, s0, inst, first, end0, Turn(cfg, ins, true, k, w, inst));
  }

  /** Before the subroutine's condition is set. */
  predicate SaysBefore(
    cfg: Config, ins: Inputs, i: nat, s0: Status, inst: Object, first: seq<Event>, end0: SubroutineEnd)
    requires i < |cfg.subroutines|
  {
    var edited := EditedStatus(cfg, ins, i, first != [], inst);
    if end0.error.Some? then end0.inst.status.conditions == edited.conditions
    else
      && end0.requeueAfter == (if first == [] then 0 else StepAt(ins, |cfg.subroutines| - 1 - i).outcome.requeueAfter)
      && end0.inst.status.conditions
         == if first != [] && Reloads(cfg, first[0], i) then s0.conditions else edited.conditions
  }

  lemma SubroutineSays(
    cfg: Config, ins: Inputs, i: nat, w: World, inst: Object, s0: Status, first: seq<Event>)
    requires i < |cfg.subroutines| && inst.deleting && Linked(w.stored, inst) && StatusIs(w.stored, s0)
    requires cfg.conditions
    requires first == if cfg.subroutines[i].isTerminator || HoldsOne(cfg, inst.finalizers, i)
                      then [DeletionCall(cfg, ins, i)] else []
    ensures var step := StepAt(ins, |cfg.subroutines| - 1 - i);
            var inst0 := ProcessingIfMissing(cfg, inst, cfg.subroutines[i].name, true, ins.now);
            var end0 := ReconcileSubroutine(cfg, w, inst0, i, step, ins.now);
            && StatusIs(end0.world.stored, s0) && SaysBefore(cfg, ins, i, s0, inst, first, end0)
            && (end0.error.Some? ==> KeepsCause(step.outcome, end0))
  {
    var step := StepAt(ins, |cfg.subroutines| - 1 - i);
    var inst0 := ProcessingIfMissing(cfg, inst, cfg.subroutines[i].name, true, ins.now);
    if first != [] && Reloads(cfg, first[0], i) {
      CallReloads(cfg, w, inst0, i, step, ins.now, s0);
    } else {
      CallKeeps(cfg, w, inst0, i, step, ins.now, s0);
    }
  }

  lemma CompleteSays(
    cfg: Config, ins: Inputs, i: nat, s0: Status, inst: Object, first: seq<Event>,
    end0: SubroutineEnd, end: SubroutineEnd)
    requires i < |cfg.subroutines| && cfg.conditions && SaysBefore(cfg, ins, i, s0, inst, first, end0)
    requires end == if end0.error.None? && end0.requeueAfter == 0
      then end0.(inst := SetSubroutine(cfg, end0.inst, cfg.subroutines[i].name, true, 0, None, ins.now)) else end0
    ensures TurnSays(cfg, ins, i, s0, inst, first, end)
  {
    if end.error.None? {
      assert Concludes(cfg, ins, i, end0.inst.generation, end.requeueAfter,
        end0.inst.status.conditions, end.inst.status.conditions);
    }
  }

  // ---------------------------------------------------------------- what the list says

  /** The subroutine was called and asked to be called again. */
  predicate Asked(calls: seq<Event>, i: nat) {
    exists e :: e in calls && e.Ran? && e.sub == i && e.outcome.requeueAfter != 0
  }

  /** The list was reloaded in a turn that came after the `i`-th subroutine's. */
  predicate ReloadedAfter(cfg: Config, calls: seq<Event>, i: nat) {
    exists e :: e in calls && e.Ran? && e.sub < i && Reloads(cfg, e, e.sub)
  }

  /** What is said of a finalization: that it is complete, unless the subroutine asked to be
      called again; then nothing new, or that it is processing where nothing was said. */
  predicate FinalLine(
    calls: seq<Event>, i: nat, name: string, now: int, before: Option<Condition>, after: Option<Condition>)
  {
    var t := name + "_Finalize";
    if Asked(calls, i) then
      if before.Some? then after == before
      else after.Some? && after.value == Condition(t, CondUnknown, "Processing",
             "The " + "subroutine finalization" + " is processing", after.value.observedGeneration, now)
    else after.Some? && after.value == Condition(t, CondTrue, "Complete",
           "The " + "subroutine finalization" + " is complete", after.value.observedGeneration, after.value.transition)
  }

  predicate ToldOf(cfg: Config, s0: Status, cs: seq<Condition>, calls: seq<Event>, m: nat, now: int, i: nat)
    requires i < |cfg.subroutines|
  {
    var before, after := Find(s0.conditions, FName(cfg, i)), Find(cs, FName(cfg, i));
    if i < m || ReloadedAfter(cfg, calls, i) then after == before
    else FinalLine(calls, i, cfg.subroutines[i].name, now, before, after)
  }

  /** What the list says when the turns down to subroutine `m` are over: what it said at first,
      of those whose turn has not come and of those whose line was lost in a reload. */
  predicate Told(cfg: Config, s0: Status, cs: seq<Condition>, calls: seq<Event>, m: nat, now: int) {
    && (forall i :: 0 <= i < |cfg.subroutines| ==> ToldOf(cfg, s0, cs, calls, m, now, i))
    && (if ReloadedAfter(cfg, calls, |cfg.subroutines|) then Find(cs, READY) == Find(s0.conditions, READY)
        else Find(cs, READY).Some?)
  }

  /** What is found after the preparation of a turn and the subroutine's edits. */
  lemma EditedFinds(cfg: Config, ins: Inputs, i: nat, called: bool, inst: Object, t: string)
    requires i < |cfg.subroutines| && LeavesOurs(cfg, ins) && Ours(cfg, t)
    ensures var cs, cs' := inst.status.conditions, EditedStatus(cfg, ins, i, called, inst).conditions;
            Find(cs', t) == if t == FName(cfg, i) && Find(cs, t).None?
              then Some(ProcessingCondition(cfg.subroutines[i].name, true, inst.generation).(transition := ins.now))
              else Find(cs, t)
  {
    var p := ProcessingCondition(cfg.subroutines[i].name, true, inst.generation);
    var prepared := inst.status.(conditions := SetIfMissing(inst.status.conditions, p, ins.now));
    SetThenFind(inst.status.conditions, p, ins.now, t);
    assert Untouched(cfg, ins, t);
    EditsFind(prepared, StepAt(ins, |cfg.subroutines| - 1 - i).outcome.edits, ins.now, t);
  }

  /** The calls before a turn are of later subroutines, and each is the one of its turn. */
  predicate Later(cfg: Config, ins: Inputs, m: nat, calls: seq<Event>) {
    forall e :: e in calls ==> e.Ran? && m <= e.sub < |cfg.subroutines| && e == DeletionCall(cfg, ins, e.sub)
  }

  lemma TurnTold(
    cfg: Config, ins: Inputs, i: nat, inst: Object, s0: Status, calls: seq<Event>, first: seq<Event>,
    g: int, cs': seq<Condition>)
    requires i < |cfg.subroutines| && LeavesOurs(cfg, ins) && Later(cfg, ins, i + 1, calls)
    requires first == [] || first == [DeletionCall(cfg, ins, i)]
    requires Told(cfg, s0, inst.status.conditions, calls, i + 1, ins.now)
    requires var edited := EditedStatus(cfg, ins, i, first != [], inst).conditions;
             Concludes(cfg, ins, i, g,
               if first == [] then 0 else first[0].outcome.requeueAfter,
               if first != [] && Reloads(cfg, first[0], i) then s0.conditions else edited, cs')
    ensures Told(cfg, s0, cs', calls + first, i, ins.now)
    ensures Later(cfg, ins, i, calls + first)
  {
    var cs, calls' := inst.status.conditions, calls + first;
    var reload := first != [] && Reloads(cfg, first[0], i);
    forall j | 0 <= j <= |cfg.subroutines|
      ensures ReloadedAfter(cfg, calls', j) <==> ReloadedAfter(cfg, calls, j) || (reload && i < j)
      ensures j != i ==> (Asked(calls', j) <==> Asked(calls, j))
    {
      CallsGrow(cfg, calls, first, i, j);
    }
    assert !Asked(calls, i) && !ReloadedAfter(cfg, calls, i);
    assert Asked(calls', i) <==> first != [] && first[0].outcome.requeueAfter != 0 by {
      if first != [] {
        assert first[0] in calls';
      }
    }
    forall j | 0 <= j < |cfg.subroutines| ensures ToldOf(cfg, s0, cs', calls', i, ins.now, j) {
      assert ToldOf(cfg, s0, cs, calls, i + 1, ins.now, j);
      LineAfterTurn(cfg, ins, i, inst, s0, first, g, cs', FName(cfg, j));
      FNamesApart(cfg, j, i);
      ConditionsSpelledOut(cfg.subroutines[j].name, inst.generation, "");
      ConditionsSpelledOut(cfg.subroutines[j].name, g, "");
    }
    FNamesApart(cfg, i, i);
    LineAfterTurn(cfg, ins, i, inst, s0, first, g, cs', READY);
  }

  lemma CallsGrow(cfg: Config, calls: seq<Event>, first: seq<Event>, i: nat, j: nat)
    requires |first| <= 1 && (first != [] ==> first[0].Ran? && first[0].sub == i)
    ensures var reload := first != [] && Reloads(cfg, first[0], i);
            ReloadedAfter(cfg, calls + first, j) <==> ReloadedAfter(cfg, calls, j) || (reload && i < j)
    ensures j != i ==> (Asked(calls + first, j) <==> Asked(calls, j))
  {
    assert first != [] ==> first[0] in calls + first;
  }

  /** What is found of one type after a turn. */
  lemma LineAfterTurn(
    cfg: Config, ins: Inputs, i: nat, inst: Object, s0: Status, first: seq<Event>, g: int, cs': seq<Condition>,
    t: string)
    requires i < |cfg.subroutines| && LeavesOurs(cfg, ins) && Ours(cfg, t)
    requires first == [] || first == [DeletionCall(cfg, ins, i)]
    requires var edited := EditedStatus(cfg, ins, i, first != [], inst).conditions;
             Concludes(cfg, ins, i, g,
               if first == [] then 0 else first[0].outcome.requeueAfter,
               if first != [] && Reloads(cfg, first[0], i) then s0.conditions else edited, cs')
    ensures var cs, reload := inst.status.conditions, first != [] && Reloads(cfg, first[0], i);
            var asked := first != [] && first[0].outcome.requeueAfter != 0;
            && (t != FName(cfg, i) ==> Find(cs', t) == if reload then Find(s0.conditions, t) else Find(cs, t))
            && (t == FName(cfg, i) && asked ==>
                  Find(cs', t) == if Find(cs, t).Some? then Find(cs, t)
                    else Some(ProcessingCondition(cfg.subroutines[i].name, true, inst.generation)
                                .(transition := ins.now)))
            && (t == FName(cfg, i) && !asked ==>
                  && Find(cs', t).Some?
                  && Find(cs', t).value == CompleteCondition(cfg.subroutines[i].name, true, g)
                                             .(transition := Find(cs', t).value.transition))
  {
    var edited := EditedStatus(cfg, ins, i, first != [], inst).conditions;
    var base := if first != [] && Reloads(cfg, first[0], i) then s0.conditions else edited;
    EditedFinds(cfg, ins, i, first != [], inst, t);
    SetThenFind(base, CompleteCondition(cfg.subroutines[i].name, true, g), ins.now, t);
  }

  // ---------------------------------------------------------------- what is sent

  /** What a status of a deletion run says: of the subroutine that stopped the run, if one did,
      that it has an error; of the others what `Told` says; and of the resource that it is not
      ready, if the run was stopped or someone asked for a requeue. Otherwise Ready is true,
      where there is such a condition at all. */
  predicate Report(cfg: Config, s0: Status, cs: seq<Condition>, calls: seq<Event>, stopped: bool, now: int) {
    var n, ready := |cfg.subroutines|, Find(cs, "Ready");
    && (stopped ==> calls != [] && calls[|calls| - 1].Ran? && calls[|calls| - 1].sub < n)
    && (forall i :: 0 <= i < n ==>
          if stopped then StoppedOf(cfg, s0, cs, calls, now, i) else ToldOf(cfg, s0, cs, calls, 0, now, i))
    && if stopped || AskedForMore(calls) then
         ready.Some? && ready.value.status.CondFalse? && ready.value.message == "The resource is not ready"
       else if ReloadedAfter(cfg, calls, n) && Find(s0.conditions, "Ready").None? then ready.None?
       else ready.Some? && ready.value.status.CondTrue? && ready.value.message == "The resource is ready"
  }

  /** After a stop: that the subroutine that stopped the run has an error. */
  predicate StoppedOf(cfg: Config, s0: Status, cs: seq<Condition>, calls: seq<Event>, now: int, i: nat)
    requires i < |cfg.subroutines| && calls != [] && calls[|calls| - 1].Ran?
  {
    var past, last := calls[..|calls| - 1], calls[|calls| - 1];
    if i != last.sub then ToldOf(cfg, s0, cs, past, last.sub, now, i)
    else
      var after := Find(cs, FName(cfg, i));
      && after.Some? && after.value.status.CondFalse? && after.value.reason == "Error"
      && (last.outcome.Cause().Some? ==>
            after.value.message == "The " + "subroutine finalization" + " has an error: " + last.outcome.Cause().value)
  }

  predicate AskedForMore(calls: seq<Event>) {
    exists e :: e in calls && e.Ran? && e.outcome.requeueAfter > 0
  }

  function StoppedList(cfg: Config, i: nat, end: SubroutineEnd, now: int): seq<Condition>
    requires i < |cfg.subroutines| && end.error.Some?
  {
    var g := end.inst.generation;
    var e := ErrorCondition(cfg.subroutines[i].name, true, g, end.error.value);
    SetCondition(SetCondition(end.inst.status.conditions, e, now), ReadyCondition(CondFalse, g), now)
  }

  /** The instance whose status is sent after a stop. */
  function StoppedInstance(cfg: Config, ins: Inputs, i: nat, end: SubroutineEnd, acc: int): Object
    requires i < |cfg.subroutines| && end.error.Some?
  {
    var failed := SetSubroutine(cfg, end.inst, cfg.subroutines[i].name, true, acc, end.error, ins.now);
    var unready := SetReady(cfg, failed, CondFalse, ins.now);
    if end.retry then unready else MarkFinal(cfg, unready, CondFalse, ins.now, ins.jitter)
  }

  lemma StoppedConditions(cfg: Config, ins: Inputs, i: nat, end: SubroutineEnd, acc: int)
    requires i < |cfg.subroutines| && end.error.Some? && cfg.conditions
    ensures StoppedInstance(cfg, ins, i, end, acc).status.conditions == StoppedList(cfg, i, end, ins.now)
  {
    var failed := SetSubroutine(cfg, end.inst, cfg.subroutines[i].name, true, acc, end.error, ins.now);
    var c := ReadyCondition(CondFalse, end.inst.generation);
    SetThenFind(failed.status.conditions, c, ins.now, READY);
    SetIsIdempotent(SetCondition(failed.status.conditions, c, ins.now), c, ins.now);
  }

  lemma StopSends(cfg: Config, ins: Inputs, original: Object, i: nat, end: SubroutineEnd, acc: int)
    requires i < |cfg.subroutines| && end.error.Some? && cfg.conditions
    ensures SendsList(
              end.world, StopRun(cfg, ins, original, true, i, end, acc).world, StoppedList(cfg, i, end, ins.now))
  {
    var final := StoppedInstance(cfg, ins, i, end, acc);
    StoppedConditions(cfg, ins, i, end, acc);
    var w := if end.retry then end.world else Log(end.world, MarkedFinal);
    SendStatusSends(cfg, w, original, final, ins.status);
  }

  function ConcludedList(inst: Object, acc: int, now: int): seq<Condition> {
    if acc == 0 then SetIfPresent(inst.status.conditions, ReadyCondition(CondTrue, inst.generation), now)
    else SetCondition(inst.status.conditions, ReadyCondition(CondFalse, inst.generation), now)
  }

  lemma FinishSends(cfg: Config, ins: Inputs, original: Object, w: World, inst: Object, acc: int)
    requires cfg.conditions
    ensures SendsList(w, FinishRun(cfg, ins, original, true, w, inst, acc).world, ConcludedList(inst, acc, ins.now))
  {
    var marked := if acc == 0 then Log(w, MarkedFinal) else w;
    var concluded, cs := Conclude(cfg, inst, acc, ins), ConcludedList(inst, acc, ins.now);
    assert concluded.status.conditions == cs;
    var gate := RemoveGate(cfg, marked, concluded, true, acc, ins.removal);
    GateSends(cfg, marked, concluded, true, acc, ins.removal, None);
    ListTrans(w, marked, gate.world, cs);
    if gate.error.None? {
      var sent := SendFinalStatus(cfg, gate.world, original, gate.inst, ins.status);
      AwaitSends(gate.world, ins.status.before, Some(gate.inst));
      SendStatusSends(cfg, gate.world, original, gate.inst, ins.status);
      assert gate.inst.status.conditions == cs;
      ListTrans(w, gate.world, sent.world, cs);
      if sent.error.None? {
        RefreshSends(cfg, sent.world, sent.inst, acc, ins.refresh, None);
        ListTrans(w, sent.world, RemoveRefreshLabel(cfg, sent.world, sent.inst, acc, ins.refresh).world, cs);
      }
    }
  }

  lemma FinishReports(
    cfg: Config, s0: Status, inst: Object, calls: seq<Event>, acc: int, now: int)
    requires DistinctNames(cfg) && Told(cfg, s0, inst.status.conditions, calls, 0, now)
    requires acc >= 0 && (acc > 0 <==> AskedForMore(calls))
    ensures Report(cfg, s0, ConcludedList(inst, acc, now), calls, false, now)
  {
    var cs := inst.status.conditions;
    var c := ReadyCondition(if acc == 0 then CondTrue else CondFalse, inst.generation);
    SetThenFind(cs, c, now, READY);
    forall i | 0 <= i < |cfg.subroutines|
      ensures ToldOf(cfg, s0, ConcludedList(inst, acc, now), calls, 0, now, i)
    {
      assert ToldOf(cfg, s0, cs, calls, 0, now, i);
      FNamesApart(cfg, i, i);
      SetThenFind(cs, c, now, FName(cfg, i));
    }
  }

  lemma StopReports(
    cfg: Config, ins: Inputs, i: nat, inst: Object, s0: Status, calls: seq<Event>, g: int, err: string)
    requires i < |cfg.subroutines| && LeavesOurs(cfg, ins) && Later(cfg, ins, i + 1, calls)
    requires Told(cfg, s0, inst.status.conditions, calls, i + 1, ins.now)
    requires var out := DeletionCall(cfg, ins, i).outcome; out.Cause().Some? ==> out.Cause().value == err
    ensures var edited := EditedStatus(cfg, ins, i, true, inst).conditions;
            var e := ErrorCondition(cfg.subroutines[i].name, true, g, err);
            var cs := SetCondition(SetCondition(edited, e, ins.now), ReadyCondition(CondFalse, g), ins.now);
            Report(cfg, s0, cs, calls + [DeletionCall(cfg, ins, i)], true, ins.now)
  {
    var edited := EditedStatus(cfg, ins, i, true, inst).conditions;
    var e, c := ErrorCondition(cfg.subroutines[i].name, true, g, err), ReadyCondition(CondFalse, g);
    var failed := SetCondition(edited, e, ins.now);
    var calls' := calls + [DeletionCall(cfg, ins, i)];
    assert calls'[..|calls'| - 1] == calls;
    ConditionsSpelledOut(cfg.subroutines[i].name, g, err);
    SetThenFind(failed, c, ins.now, READY);
    forall j | 0 <= j < |cfg.subroutines|
      ensures var t := FName(cfg, j);
              j != i ==> Find(SetCondition(failed, c, ins.now), t) == Find(inst.status.conditions, t)
    {
      FNamesApart(cfg, j, i);
      SetThenFind(failed, c, ins.now, FName(cfg, j));
      SetThenFind(edited, e, ins.now, FName(cfg, j));
      EditedFinds(cfg, ins, i, true, inst, FName(cfg, j));
    }
    FNamesApart(cfg, i, i);
    SetThenFind(failed, c, ins.now, FName(cfg, i));
    SetThenFind(edited, e, ins.now, FName(cfg, i));
    forall j | 0 <= j < |cfg.subroutines|
      ensures StoppedOf(cfg, s0, SetCondition(failed, c, ins.now), calls', ins.now, j)
    {
      assert ToldOf(cfg, s0, inst.status.conditions, calls, i + 1, ins.now, j);
    }
  }

  // ---------------------------------------------------------------- whole runs

  /** A deletion run on its way, `k` turns done. */
  ghost predicate Underway(
    cfg: Config, ins: Inputs, s0: Status, k: nat, w: World, inst: Object, acc: int, calls: seq<Event>)
    requires k <= |cfg.subroutines|
  {
    && inst.deleting && Linked(w.stored, inst) && StatusIs(w.stored, s0)
    && Later(cfg, ins, |cfg.subroutines| - k, calls)
    && Told(cfg, s0, inst.status.conditions, calls, |cfg.subroutines| - k, ins.now)
    && acc >= 0 && (acc > 0 <==> AskedForMore(calls))
  }

  lemma AskingGrows(calls: seq<Event>, first: seq<Event>, acc: int, requeueAfter: int)
    requires acc >= 0 && (acc > 0 <==> AskedForMore(calls)) && |first| <= 1
    requires if first == [] then requeueAfter <= 0 else first[0].Ran? && first[0].outcome.requeueAfter == requeueAfter
    ensures Fold(acc, requeueAfter) >= 0 && (Fold(acc, requeueAfter) > 0 <==> AskedForMore(calls + first))
  {
    assert first != [] ==> first[0] in calls + first;
    assert forall e :: e in calls ==> e in calls + first;
  }

  /** The list after a turn that goes on. */
  lemma SaysOn(
    cfg: Config, ins: Inputs, i: nat, s0: Status, inst: Object, acc: int, calls: seq<Event>, first: seq<Event>,
    end: SubroutineEnd)
    requires i < |cfg.subroutines| && LeavesOurs(cfg, ins) && Later(cfg, ins, i + 1, calls)
    requires Told(cfg, s0, inst.status.conditions, calls, i + 1, ins.now)
    requires first == [] || first == [DeletionCall(cfg, ins, i)]
    requires acc >= 0 && (acc > 0 <==> AskedForMore(calls))
    requires end.error.None? && TurnSays(cfg, ins, i, s0, inst, first, end)
    ensures Told(cfg, s0, end.inst.status.conditions, calls + first, i, ins.now)
    ensures Later(cfg, ins, i, calls + first)
    ensures Fold(acc, end.requeueAfter) >= 0 && (Fold(acc, end.requeueAfter) > 0 <==> AskedForMore(calls + first))
  {
    var edited := EditedStatus(cfg, ins, i, first != [], inst).conditions;
    var base := if first != [] && Reloads(cfg, first[0], i) then s0.conditions else edited;
    var g :| Concludes(cfg, ins, i, g, end.requeueAfter, base, end.inst.status.conditions);
    TurnTold(cfg, ins, i, inst, s0, calls, first, g, end.inst.status.conditions);
    AskingGrows(calls, first, acc, end.requeueAfter);
  }

  /** The list after a turn that stops the run. */
  lemma SaysStop(
    cfg: Config, ins: Inputs, i: nat, s0: Status, inst: Object, calls: seq<Event>, end: SubroutineEnd)
    requires i < |cfg.subroutines| && LeavesOurs(cfg, ins) && Later(cfg, ins, i + 1, calls)
    requires Told(cfg, s0, inst.status.conditions, calls, i + 1, ins.now)
    requires end.error.Some? && TurnSays(cfg, ins, i, s0, inst, [DeletionCall(cfg, ins, i)], end)
    requires var out := DeletionCall(cfg, ins, i).outcome; out.Cause().Some? ==> end.error == out.Cause()
    ensures Report(cfg, s0, StoppedList(cfg, i, end, ins.now), calls + [DeletionCall(cfg, ins, i)], true, ins.now)
  {
    StopReports(cfg, ins, i, inst, s0, calls, end.inst.generation, end.error.value);
  }

  /** A stretch that calls these subroutines and sends no status. */
  predicate Silently(w: World, w': World, calls: seq<Event>) {
    && w.trace <= w'.trace && CallsOf(w'.trace) == CallsOf(w.trace) + calls
    && forall k :: |w.trace| <= k < |w'.trace| ==> !w'.trace[k].StatusSent?
  }

  lemma SilentlyOn(a: World, b: World, c: World, calls: seq<Event>, more: seq<Event>)
    requires Silently(a, b, calls) && Silently(b, c, more)
    ensures Silently(a, c, calls + more)
  {
    forall k | |a.trace| <= k < |c.trace| ensures !c.trace[k].StatusSent? {
      if k < |b.trace| {
        assert c.trace[k] == b.trace[k];
      }
    }
  }

  lemma SilentlyThen(a: World, b: World, c: World, calls: seq<Event>, cs: seq<Condition>)
    requires Silently(a, b, calls) && SendsList(b, c, cs) && CallsOf(c.trace) == CallsOf(b.trace)
    ensures SendsList(a, c, cs) && CallsOf(c.trace) == CallsOf(a.trace) + calls
  {
    ListTrans(a, b, c, cs);
  }

  /** One turn: what it calls, that it sends no status, and what it makes of the list. */
  lemma TurnDown(
    cfg: Config, ins: Inputs, s0: Status, k: nat, w0: World, w: World, inst: Object, calls: seq<Event>)
    returns (first: seq<Event>, end: SubroutineEnd)
    requires k < |cfg.subroutines| && cfg.conditions && Silently(w0, w, calls)
    requires inst.deleting && Linked(w.stored, inst) && StatusIs(w.stored, s0)
    ensures end == Turn(cfg, ins, true, k, w, inst)
    ensures var i := Position(cfg, true, k);
            && first == (if cfg.subroutines[i].isTerminator || HoldsOne(cfg, inst.finalizers, i)
                         then [DeletionCall(cfg, ins, i)] else [])
            && Silently(w0, end.world, calls + first) && StatusIs(end.world.stored, s0)
            && TurnSays(cfg, ins, i, s0, inst, first, end)
            && (end.error.None? ==> end.inst.deleting && Linked(end.world.stored, end.inst))
            && (end.error.Some? ==> first != [] && KeepsCause(StepAt(ins, k).outcome, end))
  {
    end := Turn(cfg, ins, true, k, w, inst);
    first := DeletionTurn(cfg, ins, k, w, inst);
    DeletionTurnList(cfg, ins, k, w, inst, s0, first);
    TurnIsSilent(cfg, ins, k, w, inst);
    SilentlyOn(w0, w, end.world, calls, first);
  }

  /** And what the list says then. */
  ghost predicate Turned(
    cfg: Config, ins: Inputs, s0: Status, k: nat, w0: World, end: SubroutineEnd, acc: int, all: seq<Event>)
    requires k < |cfg.subroutines|
  {
    && Silently(w0, end.world, all)
    && if end.error.None? then
         Underway(cfg, ins, s0, k + 1, end.world, end.inst, Fold(acc, end.requeueAfter), all)
       else
         Report(cfg, s0, StoppedList(cfg, Position(cfg, true, k), end, ins.now), all, true, ins.now)
  }

  lemma SaysThen(
    cfg: Config, ins: Inputs, s0: Status, k: nat, w0: World, w: World, inst: Object, acc: int, calls: seq<Event>,
    first: seq<Event>, end: SubroutineEnd)
    requires k < |cfg.subroutines| && cfg.conditions && LeavesOurs(cfg, ins)
    requires Underway(cfg, ins, s0, k, w, inst, acc, calls)
    requires var i := Position(cfg, true, k);
             && (first == [] || first == [DeletionCall(cfg, ins, i)])
             && Silently(w0, end.world, calls + first) && StatusIs(end.world.stored, s0)
             && TurnSays(cfg, ins, i, s0, inst, first, end)
             && (end.error.None? ==> end.inst.deleting && Linked(end.world.stored, end.inst))
             && (end.error.Some? ==> first != [] && KeepsCause(StepAt(ins, k).outcome, end))
    ensures Turned(cfg, ins, s0, k, w0, end, acc, calls + first)
  {
    var i := Position(cfg, true, k);
    if end.error.None? {
      SaysOn(cfg, ins, i, s0, inst, acc, calls, first, end);
    } else {
      SaysStop(cfg, ins, i, s0, inst, calls, end);
    }
  }

  lemma DownTurn(
    cfg: Config, ins: Inputs, s0: Status, k: nat, w0: World, w: World, inst: Object, acc: int, calls: seq<Event>)
    returns (all: seq<Event>)
    requires k < |cfg.subroutines| && cfg.conditions && LeavesOurs(cfg, ins)
    requires Silently(w0, w, calls) && Underway(cfg, ins, s0, k, w, inst, acc, calls)
    ensures Turned(cfg, ins, s0, k, w0, Turn(cfg, ins, true, k, w, inst), acc, all)
  {
    var first, end := TurnDown(cfg, ins, s0, k, w0, w, inst, calls);
    SaysThen(cfg, ins, s0, k, w0, w, inst, acc, calls, first, end);
    all := calls + first;
  }

  lemma TurnIsSilent(cfg: Config, ins: Inputs, k: nat, w: World, inst: Object)
    requires k < |cfg.subroutines|
    ensures var w' := Turn(cfg, ins, true, k, w, inst).world;
            w.trace <= w'.trace && forall j :: |w.trace| <= j < |w'.trace| ==> !w'.trace[j].StatusSent?
  {
    var i := Position(cfg, true, k);
    var prepared := ProcessingIfMissing(cfg, inst, cfg.subroutines[i].name, true, ins.now);
    SubroutineSends(cfg, w, prepared, i, StepAt(ins, k), ins.now, None);
  }

  lemma StopIsReported(
    cfg: Config, ins: Inputs, original: Object, i: nat, w: World, end: SubroutineEnd, acc: int, calls: seq<Event>)
    requires i < |cfg.subroutines| && end.error.Some? && cfg.conditions && Silently(w, end.world, calls)
    ensures var w', cs := StopRun(cfg, ins, original, true, i, end, acc).world, StoppedList(cfg, i, end, ins.now);
            SendsList(w, w', cs) && CallsOf(w'.trace) == CallsOf(w.trace) + calls
  {
    var w' := StopRun(cfg, ins, original, true, i, end, acc).world;
    StopSends(cfg, ins, original, i, end, acc);
    StopRunIsMild(cfg, ins, original, true, i, end, acc);
    MildCallsNothing(end.world, w');
    SilentlyThen(w, end.world, w', calls, StoppedList(cfg, i, end, ins.now));
  }

  /** What the loop has done when it ends. */
  ghost predicate Downward(
    cfg: Config, ins: Inputs, s0: Status, w: World, end: LoopEnd, calls: seq<Event>, cs: seq<Condition>)
  {
    match end
    case Stopped(done) =>
      && SendsList(w, done.world, cs) && CallsOf(done.world.trace) == CallsOf(w.trace) + calls
      && Report(cfg, s0, cs, calls, true, ins.now)
    case Completed(w', inst', acc') =>
      && Silently(w, w', calls) && cs == ConcludedList(inst', acc', ins.now)
      && Underway(cfg, ins, s0, |cfg.subroutines|, w', inst', acc', calls)
  }

  lemma StopsDown(
    cfg: Config, ins: Inputs, original: Object, s0: Status, i: nat, w: World, end: SubroutineEnd, acc: int,
    calls: seq<Event>)
    requires i < |cfg.subroutines| && end.error.Some? && cfg.conditions && Silently(w, end.world, calls)
    requires Report(cfg, s0, StoppedList(cfg, i, end, ins.now), calls, true, ins.now)
    ensures Downward(cfg, ins, s0, w, Stopped(StopRun(cfg, ins, original, true, i, end, acc)), calls,
                     StoppedList(cfg, i, end, ins.now))
  {
    StopIsReported(cfg, ins, original, i, w, end, acc, calls);
  }

  lemma DeletionLoopReports(cfg: Config, ins: Inputs, original: Object, s0: Status, w: World, inst: Object)
    returns (calls: seq<Event>, cs: seq<Condition>)
    requires cfg.conditions && LeavesOurs(cfg, ins) && Underway(cfg, ins, s0, 0, w, inst, 0, [])
    ensures Downward(cfg, ins, s0, w, RunSubroutines(cfg, ins, original, true, 0, w, inst, 0), calls, cs)
  {
    var goal := RunSubroutines(cfg, ins, original, true, 0, w, inst, 0);
    var k, w', inst', acc := 0, w, inst, 0;
    calls := [];
    while k < |cfg.subroutines|
      invariant k <= |cfg.subroutines| && goal == RunSubroutines(cfg, ins, original, true, k, w', inst', acc)
      invariant Silently(w, w', calls) && Underway(cfg, ins, s0, k, w', inst', acc, calls)
    {
      var i, end := Position(cfg, true, k), Turn(cfg, ins, true, k, w', inst');
      calls := DownTurn(cfg, ins, s0, k, w, w', inst', acc, calls);
      LoopStep(cfg, ins, original, true, k, w', inst', acc);
      if end.error.Some? {
        cs := StoppedList(cfg, i, end, ins.now);
        StopsDown(cfg, ins, original, s0, i, w, end, acc, calls);
        return;
      }
      k, w', inst', acc := k + 1, end.world, end.inst, Fold(acc, end.requeueAfter);
    }
    cs := ConcludedList(inst', acc, ins.now);
  }

  lemma FinishSays(
    cfg: Config, ins: Inputs, o: Object, w: World, w': World, inst: Object, acc: int, calls: seq<Event>)
    requires cfg.conditions && LeavesOurs(cfg, ins)
    requires Underway(cfg, ins, o.status, |cfg.subroutines|, w', inst, acc, calls)
    requires Silently(w, w', calls)
    ensures var w'' := FinishRun(cfg, ins, o, true, w', inst, acc).world;
            SendsList(w, w'', ConcludedList(inst, acc, ins.now)) && CallsOf(w''.trace) == CallsOf(w.trace) + calls
    ensures Report(cfg, o.status, ConcludedList(inst, acc, ins.now), calls, false, ins.now)
  {
    var cs, w'' := ConcludedList(inst, acc, ins.now), FinishRun(cfg, ins, o, true, w', inst, acc).world;
    FinishSends(cfg, ins, o, w', inst, acc);
    FinishReports(cfg, o.status, inst, calls, acc, ins.now);
    FinishRunIsMild(cfg, ins, o, true, w', inst, acc);
    MildCallsNothing(w', w'');
    SilentlyThen(w, w', w'', calls, cs);
  }

  /** Every status of a prepared deletion run tells of every finalization that was not followed
      by a finalizer patch, and of the resource; what it said of the others is lost, for the
      reply of the patch brings back the list that is stored. */
  lemma EveryDeletionReports(cfg: Config, ins: Inputs, w: World, o: Object)
    returns (calls: seq<Event>, cs: seq<Condition>, stopped: bool)
    requires w.stored == Some(o) && o.deleting && cfg.conditions && ins.prepare.None? && LeavesOurs(cfg, ins)
    ensures var w' := RunLoaded(cfg, ins, w, o).world;
            && CallsOf(w'.trace) == CallsOf(w.trace) + calls
            && SendsList(w, w', cs)
            && Report(cfg, o.status, cs, calls, stopped, ins.now)
            && (stopped ==> Stuck(w'.trace, |w.trace|))
            && (Answers.AnyFailing(w'.trace, |w.trace|) ==> stopped)
            && match RunSubroutines(cfg, ins, o, true, 0, Await(w, ins.add.before),
                                    ReadyUnknownIfMissing(cfg, o, ins.now), 0)
               case Stopped(_) => stopped
               case Completed(_, inst, acc) => !stopped && cs == ConcludedList(inst, acc, ins.now)
  {
    var w1, c := Await(w, ins.add.before), ReadyCondition(CondUnknown, o.generation);
    AwaitIsMild(w, ins.add.before);
    AwaitKeepsStatus(w, ins.add.before);
    AwaitSends(w, ins.add.before, None);
    MildCallsNothing(w, w1);
    var inst := ReadyUnknownIfMissing(cfg, o, ins.now);
    StartIsTold(cfg, o, ins.now);
    calls, cs := DeletionLoopReports(cfg, ins, o, o.status, w1, inst);
    stopped := RunSubroutines(cfg, ins, o, true, 0, w1, inst, 0).Stopped?;
    match RunSubroutines(cfg, ins, o, true, 0, w1, inst, 0) {
      case Stopped(_) =>
      case Completed(w2, inst2, acc) => FinishSays(cfg, ins, o, w1, w2, inst2, acc, calls);
    }
    ListTrans(w, w1, RunLoaded(cfg, ins, w, o).world, cs);
    StoppedWhenStuck(cfg, ins, w, o);
  }

  lemma StartIsTold(cfg: Config, o: Object, now: int)
    requires cfg.conditions && DistinctNames(cfg)
    ensures Told(cfg, o.status, ReadyUnknownIfMissing(cfg, o, now).status.conditions, [], |cfg.subroutines|, now)
  {
    var cs, c := o.status.conditions, ReadyCondition(CondUnknown, o.generation);
    SetThenFind(cs, c, now, READY);
    forall i | 0 <= i < |cfg.subroutines|
      ensures ToldOf(cfg, o.status, SetIfMissing(cs, c, now), [], |cfg.subroutines|, now, i)
    {
      FNamesApart(cfg, i, i);
      SetThenFind(cs, c, now, FName(cfg, i));
    }
  }

  lemma StoppedWhenStuck(cfg: Config, ins: Inputs, w: World, o: Object)
    requires w.stored == Some(o) && o.deleting && ins.prepare.None?
    ensures var w1, inst := Await(w, ins.add.before), ReadyUnknownIfMissing(cfg, o, ins.now);
            var stopped := RunSubroutines(cfg, ins, o, true, 0, w1, inst, 0).Stopped?;
            var tr := RunLoaded(cfg, ins, w, o).world.trace;
            && (stopped ==> Stuck(tr, |w.trace|))
            && (Answers.AnyFailing(tr, |w.trace|) ==> stopped)
  {
    var w1, inst := Await(w, ins.add.before), ReadyUnknownIfMissing(cfg, o, ins.now);
    AwaitIsMild(w, ins.add.before);
    Answers.AwaitStores(w, ins.add.before);
    var calls := DeletionLoopCalls(cfg, ins, o, 0, w1, inst, 0);
    Answers.SmoothlyOn(w, w1, |w.trace|, 0);
    Answers.LoopAnswers(cfg, ins, o, true, 0, w1, inst, 0, false, |w.trace|);
    match RunSubroutines(cfg, ins, o, true, 0, w1, inst, 0) {
      case Stopped(done) => StuckOn(done.world.trace, done.world.trace, |w1.trace|, |w.trace|);
      case Completed(w2, inst2, acc) =>
        FinishRunIsMild(cfg, ins, o, true, w2, inst2, acc);
        var tr := FinishRun(cfg, ins, o, true, w2, inst2, acc).world.trace;
        forall k | |w.trace| <= k < |tr| ensures !Answers.Failing(tr[k]) {
          if k < |w2.trace| {
            assert tr[k] == w2.trace[k];
          } else {
            assert MildEvent(w2.stored, tr[k]);
          }
        }
    }
  }
}
