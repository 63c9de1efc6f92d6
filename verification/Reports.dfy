/** What every status that a run sends says of every subroutine and of the resource. */
module Reports {
  import opened Options
  import opened Conditions
  import opened ConditionOps
  import opened Subroutines
  import opened Cluster
  import opened Lifecycle
  import opened Frames
  import opened ReadySoundness
  import opened Quiescence
  import opened OrderlyEdits
  import Gates

  // ---------------------------------------------------------------- the list that is sent

  /** Every status sent between `w` and `w'` has this condition list. */
  predicate SendsList(w: World, w': World, cs: seq<Condition>) {
    && w.trace <= w'.trace
    && forall k :: |w.trace| <= k < |w'.trace| && w'.trace[k].StatusSent? ==> w'.trace[k].inst.status.conditions == cs
  }

  lemma ListTrans(a: World, b: World, c: World, cs: seq<Condition>)
    requires SendsList(a, b, cs) && SendsList(b, c, cs)
    ensures SendsList(a, c, cs)
  {
    forall k | |a.trace| <= k < |c.trace| && c.trace[k].StatusSent? ensures c.trace[k].inst.status.conditions == cs {
      if k < |b.trace| {
        assert c.trace[k] == b.trace[k];
      }
    }
  }

  lemma StopSendsList(
    cfg: Config, ins: Inputs, original: Object, i: nat, end: SubroutineEnd, acc: int)
    requires i < |cfg.subroutines| && end.error.Some? && cfg.conditions
    ensures var ops := FailedOps(cfg, end.inst.generation, i, end.error.value);
            SendsList(end.world, StopRun(cfg, ins, original, false, i, end, acc).world,
                      Apply(ops, ins.now, end.inst.status).conditions)
  {
    var name, g, s := cfg.subroutines[i].name, end.inst.generation, end.inst.status;
    var e, c := ErrorCondition(name, false, g, end.error.value), ReadyCondition(CondFalse, g);
    ApplyConcat([Put(e)], [Put(c)], ins.now, s);
    ApplyWhen(true, Put(e), ins.now, s);
    ApplyWhen(true, Put(c), ins.now, Apply([Put(e)], ins.now, s));
    var failed := SetCondition(s.conditions, e, ins.now);
    SetThenFind(failed, c, ins.now, READY);
    SetIsIdempotent(SetCondition(failed, c, ins.now), c, ins.now);
    var failing := SetSubroutine(cfg, end.inst, name, false, acc, end.error, ins.now);
    var unready := SetReady(cfg, failing, CondFalse, ins.now);
    var final := if end.retry then unready else MarkFinal(cfg, unready, CondFalse, ins.now, ins.jitter);
    var w := if end.retry then end.world else Log(end.world, MarkedFinal);
    SendStatusSends(cfg, w, original, final, ins.status);
  }

  lemma FinishSendsList(cfg: Config, ins: Inputs, original: Object, w: World, inst: Object, acc: int)
    requires cfg.conditions
    ensures SendsList(w, FinishRun(cfg, ins, original, false, w, inst, acc).world,
                      Apply(ConcludedOps(cfg, inst.generation, acc), ins.now, inst.status).conditions)
  {
    var g := inst.generation;
    var op := if acc == 0 then PutIfPresent(ReadyCondition(CondTrue, g)) else Put(ReadyCondition(CondFalse, g));
    ApplyWhen(true, op, ins.now, inst.status);
    var marked := if acc == 0 then Log(w, MarkedFinal) else w;
    var concluded := Conclude(cfg, inst, acc, ins);
    var cs := concluded.status.conditions;
    assert cs == Apply(ConcludedOps(cfg, g, acc), ins.now, inst.status).conditions;
    var gate := RemoveGate(cfg, marked, concluded, false, acc, ins.removal);
    GateSends(cfg, marked, concluded, false, acc, ins.removal, None);
    ListTrans(w, marked, gate.world, cs);
    if gate.error.None? {
      var sent := SendFinalStatus(cfg, gate.world, original, gate.inst, ins.status);
      AwaitSends(gate.world, ins.status.before, Some(gate.inst));
      SendStatusSends(cfg, gate.world, original, gate.inst, ins.status);
      assert gate.inst.status.conditions == cs;
      ListTrans(w, gate.world, sent.world, cs);
      if sent.error.None? {
        RefreshSends(cfg, sent.world, sent.inst, acc, ins.refresh, None);
        ListTrans(w, sent.world, RemoveRefreshLabel(cfg, sent.world, sent.inst, acc, ins.refresh).world, cs);
      }
    }
  }

  /** No status is sent. */
  predicate SendsNone(w: World, w': World) {
    w.trace <= w'.trace && forall k :: |w.trace| <= k < |w'.trace| ==> !w'.trace[k].StatusSent?
  }

  lemma NoneThenList(a: World, b: World, c: World, cs: seq<Condition>)
    requires SendsNone(a, b) && SendsList(b, c, cs)
    ensures SendsList(a, c, cs)
  {
    ListTrans(a, b, c, cs);
  }

  lemma TurnSendsNone(cfg: Config, ins: Inputs, k: nat, w0: World, w: World, inst: Object)
    requires k < |cfg.subroutines| && SendsNone(w0, w)
    ensures SendsNone(w0, Turn(cfg, ins, false, k, w, inst).world)
  {
    var prepared := ProcessingIfMissing(cfg, inst, cfg.subroutines[k].name, false, ins.now);
    var w' := Turn(cfg, ins, false, k, w, inst).world;
    SubroutineSends(cfg, w, prepared, k, StepAt(ins, k), ins.now, None);
    assert forall j :: |w0.trace| <= j < |w.trace| ==> w'.trace[j] == w.trace[j];
  }

  /** The loop sends nothing before it ends, and then the list that the answers make. */
  lemma LoopSendsList(cfg: Config, ins: Inputs, original: Object, w: World, inst: Object)
    requires cfg.conditions && !inst.deleting
    ensures var cs := StatusFrom(cfg, ins, 0, inst, 0).conditions;
            match RunSubroutines(cfg, ins, original, false, 0, w, inst, 0)
            case Stopped(done) => SendsList(w, done.world, cs)
            case Completed(w', inst', acc') =>
              && SendsNone(w, w')
              && Apply(ConcludedOps(cfg, inst'.generation, acc'), ins.now, inst'.status).conditions == cs
  {
    var goal := RunSubroutines(cfg, ins, original, false, 0, w, inst, 0);
    var s := StatusFrom(cfg, ins, 0, inst, 0);
    var k, w', inst', acc := 0, w, inst, 0;
    while k < |cfg.subroutines|
      invariant k <= |cfg.subroutines| && goal == RunSubroutines(cfg, ins, original, false, k, w', inst', acc)
      invariant s == StatusFrom(cfg, ins, k, inst', acc) && SendsNone(w, w') && !inst'.deleting
    {
      var end := Turn(cfg, ins, false, k, w', inst');
      TurnSendsNone(cfg, ins, k, w, w', inst');
      TurnApplies(cfg, ins, k, w', inst');
      StatusStep(cfg, ins, k, inst', acc);
      LoopStep(cfg, ins, original, false, k, w', inst', acc);
      if end.error.Some? {
        StopSendsList(cfg, ins, original, k, end, acc);
        NoneThenList(w, end.world, StopRun(cfg, ins, original, false, k, end, acc).world, s.conditions);
        return;
      }
      k, w', inst', acc := k + 1, end.world, end.inst, Fold(acc, end.requeueAfter);
    }
  }

  /** In a run on a live object every status sent carries the list that the answers of the
      subroutines make of the one that was found, whatever others do and requests meet. */
  lemma SentList(cfg: Config, ins: Inputs, w: World, o: Object)
    requires w.stored == Some(o) && !o.deleting && cfg.conditions
    ensures SendsList(w, RunLoaded(cfg, ins, w, o).world,
                      RunStatus(cfg, ins, StartOf(cfg, ins, w, o).generation, o.status).conditions)
  {
    var added := AddFinalizers(cfg, w, o, ins.add);
    var g := StartOf(cfg, ins, w, o).generation;
    var cs := RunStatus(cfg, ins, g, o.status).conditions;
    AddSends(cfg, w, o, ins.add, None);
    AddKeepsStatus(cfg, w, o, ins.add);
    if added.error.None? && ins.prepare.None? {
      var inst, op := ReadyUnknownIfMissing(cfg, added.inst, ins.now), PutIfMissing(ReadyCondition(CondUnknown, g));
      ApplyWhen(true, op, ins.now, o.status);
      ApplyConcat([op], OpsFrom(cfg, ins, g, 0, 0), ins.now, o.status);
      LoopSendsList(cfg, ins, o, added.world, inst);
      match RunSubroutines(cfg, ins, o, false, 0, added.world, inst, 0) {
        case Stopped(_) =>
        case Completed(w', inst', acc) =>
          FinishSendsList(cfg, ins, o, w', inst', acc);
          NoneThenList(added.world, w', FinishRun(cfg, ins, o, false, w', inst', acc).world, cs);
      }
      ListTrans(w, added.world, RunLoaded(cfg, ins, w, o).world, cs);
    }
  }

  // ---------------------------------------------------------------- what it says of one type

  /** The subroutines' own edits leave condition `t` alone. */
  predicate Untouched(cfg: Config, ins: Inputs, t: string) {
    forall k :: 0 <= k < |cfg.subroutines| ==> !Touches(StepAt(ins, k).outcome.edits, t)
  }

  lemma {:induction false} NoOps(edits: seq<Edit>, t: string)
    requires !Touches(edits, t)
    ensures On(EditOps(edits), t) == []
    decreases |edits|
  {
    if edits != [] {
      var first := EditOps(edits)[0];
      assert edits[0] in edits;
      forall e | e in edits[1..] ensures e in edits {}
      NoOps(edits[1..], t);
      assert EditOps(edits) == When(true, first) + EditOps(edits[1..]);
      OnConcat(When(true, first), EditOps(edits[1..]), t);
      OnWhen(true, first, t);
    }
  }

  predicate FailsAt(ins: Inputs, k: nat) {
    StepAt(ins, k).outcome.error.Some? && StepAt(ins, k).outcome.error.value.cause.Some?
  }

  predicate FailsWithin(ins: Inputs, k: nat, j: nat) {
    exists i :: k <= i < j && FailsAt(ins, i)
  }

  /** What a run does to a subroutine's own condition when its turn comes. */
  function OwnOps(cfg: Config, ins: Inputs, g: int, j: nat): seq<Op>
    requires j < |cfg.subroutines|
  {
    var name, out := cfg.subroutines[j].name, StepAt(ins, j).outcome;
    [PutIfMissing(ProcessingCondition(name, false, g))]
    + if FailsAt(ins, j) then [Put(ErrorCondition(name, false, g, out.error.value.cause.value))]
      else When(out.requeueAfter == 0, Put(CompleteCondition(name, false, g)))
  }

  lemma TurnDoesOwn(cfg: Config, ins: Inputs, g: int, k: nat, j: nat)
    requires k < |cfg.subroutines| && j < |cfg.subroutines| && cfg.conditions && DistinctNames(cfg)
    requires Untouched(cfg, ins, CName(cfg, j))
    ensures var own, out := On(TurnOps(cfg, ins, g, k), CName(cfg, j)), StepAt(ins, k).outcome;
            && (k != j ==> own == [])
            && (k == j && !FailsAt(ins, k) ==> own == OwnOps(cfg, ins, g, j))
            && (k == j && FailsAt(ins, k) ==>
                  own + On(FailedOps(cfg, g, k, out.Cause().value), CName(cfg, j)) == OwnOps(cfg, ins, g, j))
            && (k != j && FailsAt(ins, k) ==> On(FailedOps(cfg, g, k, out.Cause().value), CName(cfg, j)) == [])
  {
    var t, out := CName(cfg, j), StepAt(ins, k).outcome;
    NamesApart(cfg, k, j);
    NoOps(out.edits, t);
    TurnOpsOn(cfg, ins, g, k, t);
    if FailsAt(ins, k) {
      FailedOn(cfg, g, k, out.Cause().value, t);
    }
  }

  /** What the operations of a turn and those after it come to. */
  lemma OwnJoin(
    cfg: Config, ins: Inputs, g: int, k: nat, j: nat, own: seq<Op>, failed: seq<Op>, after: seq<Op>)
    requires k < |cfg.subroutines| && j < |cfg.subroutines|
    requires k != j ==> own == []
    requires k == j && !FailsAt(ins, k) ==> own == OwnOps(cfg, ins, g, j)
    requires k == j && FailsAt(ins, k) ==> own + failed == OwnOps(cfg, ins, g, j)
    requires k != j && FailsAt(ins, k) ==> failed == []
    requires if FailsAt(ins, k) then after == failed
             else after == if j < k + 1 || FailsWithin(ins, k + 1, j) then [] else OwnOps(cfg, ins, g, j)
    ensures own + after == if j < k || FailsWithin(ins, k, j) then [] else OwnOps(cfg, ins, g, j)
  {
    assert !FailsAt(ins, k) ==> (FailsWithin(ins, k, j) <==> FailsWithin(ins, k + 1, j));
    assert FailsAt(ins, k) && k < j ==> FailsWithin(ins, k, j);
  }

  lemma OwnStep(cfg: Config, ins: Inputs, g: int, k: nat, acc: int, j: nat)
    requires k < |cfg.subroutines| && j < |cfg.subroutines| && cfg.conditions && DistinctNames(cfg)
    requires Untouched(cfg, ins, CName(cfg, j))
    requires !FailsAt(ins, k) ==>
               On(OpsFrom(cfg, ins, g, k + 1, Fold(acc, StepAt(ins, k).outcome.requeueAfter)), CName(cfg, j))
               == if j < k + 1 || FailsWithin(ins, k + 1, j) then [] else OwnOps(cfg, ins, g, j)
    ensures On(OpsFrom(cfg, ins, g, k, acc), CName(cfg, j))
         == if j < k || FailsWithin(ins, k, j) then [] else OwnOps(cfg, ins, g, j)
  {
    var t, out := CName(cfg, j), StepAt(ins, k).outcome;
    TurnOn(cfg, ins, g, k, acc, t);
    TurnDoesOwn(cfg, ins, g, k, j);
    OwnJoin(cfg, ins, g, k, j, On(TurnOps(cfg, ins, g, k), t),
      if FailsAt(ins, k) then On(FailedOps(cfg, g, k, out.Cause().value), t) else [],
      On(AfterTurn(cfg, ins, g, k, acc), t));
  }

  lemma OwnEnd(cfg: Config, ins: Inputs, g: int, acc: int, j: nat)
    requires j < |cfg.subroutines|
    ensures On(OpsFrom(cfg, ins, g, |cfg.subroutines|, acc), CName(cfg, j)) == []
  {
    NamesApart(cfg, j, j);
    ConcludedOn(cfg, g, acc, CName(cfg, j));
  }

  /** From turn `k` on, a subroutine's own condition is seen to on its own turn, if that comes. */
  lemma {:induction false} DoesOwn(cfg: Config, ins: Inputs, g: int, k: nat, acc: int, j: nat)
    requires k <= |cfg.subroutines| && j < |cfg.subroutines| && cfg.conditions && DistinctNames(cfg)
    requires Untouched(cfg, ins, CName(cfg, j))
    ensures On(OpsFrom(cfg, ins, g, k, acc), CName(cfg, j))
         == if j < k || FailsWithin(ins, k, j) then [] else OwnOps(cfg, ins, g, j)
    decreases |cfg.subroutines| - k
  {
    if k == |cfg.subroutines| {
      OwnEnd(cfg, ins, g, acc, j);
    } else {
      if !FailsAt(ins, k) {
        DoesOwn(cfg, ins, g, k + 1, Fold(acc, StepAt(ins, k).outcome.requeueAfter), j);
      }
      OwnStep(cfg, ins, g, k, acc, j);
    }
  }

  /** Somebody asks for a requeue. */
  predicate Requeues(cfg: Config, ins: Inputs, k: nat) {
    exists i :: k <= i < |cfg.subroutines| && StepAt(ins, i).outcome.requeueAfter > 0
  }

  /** What a run does to the Ready condition in the end. */
  function ReadyOp(cfg: Config, ins: Inputs, g: int, k: nat, acc: int): Op {
    if FailsWithin(ins, k, |cfg.subroutines|) || Requeues(cfg, ins, k) || acc > 0 then Put(ReadyCondition(CondFalse, g))
    else PutIfPresent(ReadyCondition(CondTrue, g))
  }

  lemma ReadyStep(cfg: Config, ins: Inputs, g: int, k: nat, acc: int)
    requires k < |cfg.subroutines| && cfg.conditions && acc >= 0 && Untouched(cfg, ins, READY)
    requires var acc' := Fold(acc, StepAt(ins, k).outcome.requeueAfter);
             !FailsAt(ins, k) ==>
               On(OpsFrom(cfg, ins, g, k + 1, acc'), READY) == [ReadyOp(cfg, ins, g, k + 1, acc')]
    ensures On(OpsFrom(cfg, ins, g, k, acc), READY) == [ReadyOp(cfg, ins, g, k, acc)]
  {
    TurnOn(cfg, ins, g, k, acc, READY);
    ReadyTurn(cfg, ins, g, k);
    if FailsAt(ins, k) {
      assert FailsWithin(ins, k, |cfg.subroutines|);
    } else {
      ReadyOpStep(cfg, ins, g, k, acc);
    }
  }

  lemma {:induction false} DoesReady(cfg: Config, ins: Inputs, g: int, k: nat, acc: int)
    requires k <= |cfg.subroutines| && cfg.conditions && acc >= 0 && Untouched(cfg, ins, READY)
    ensures On(OpsFrom(cfg, ins, g, k, acc), READY) == [ReadyOp(cfg, ins, g, k, acc)]
    decreases |cfg.subroutines| - k
  {
    if k == |cfg.subroutines| {
      ConcludedOn(cfg, g, acc, READY);
    } else {
      if !FailsAt(ins, k) {
        DoesReady(cfg, ins, g, k + 1, Fold(acc, StepAt(ins, k).outcome.requeueAfter));
      }
      ReadyStep(cfg, ins, g, k, acc);
    }
  }

  lemma ReadyTurn(cfg: Config, ins: Inputs, g: int, k: nat)
    requires k < |cfg.subroutines| && cfg.conditions && Untouched(cfg, ins, READY)
    ensures On(TurnOps(cfg, ins, g, k), READY) == []
    ensures FailsAt(ins, k) ==>
              On(FailedOps(cfg, g, k, StepAt(ins, k).outcome.Cause().value), READY)
              == [Put(ReadyCondition(CondFalse, g))]
  {
    NamesApart(cfg, k, k);
    NoOps(StepAt(ins, k).outcome.edits, READY);
    TurnOpsOn(cfg, ins, g, k, READY);
    if FailsAt(ins, k) {
      FailedOn(cfg, g, k, StepAt(ins, k).outcome.Cause().value, READY);
    }
  }

  lemma ReadyOpStep(cfg: Config, ins: Inputs, g: int, k: nat, acc: int)
    requires k < |cfg.subroutines| && acc >= 0 && !FailsAt(ins, k)
    ensures ReadyOp(cfg, ins, g, k, acc)
         == ReadyOp(cfg, ins, g, k + 1, Fold(acc, StepAt(ins, k).outcome.requeueAfter))
  {
    var n := |cfg.subroutines|;
    assert FailsWithin(ins, k, n) <==> FailsWithin(ins, k + 1, n);
    assert Requeues(cfg, ins, k) <==> Requeues(cfg, ins, k + 1) || StepAt(ins, k).outcome.requeueAfter > 0;
  }

  // ---------------------------------------------------------------- the report

  /** A condition set over another one: the transition time stays if the status does. */
  function Over(before: Option<Condition>, c: Condition): Condition {
    if before.Some? && before.value.status == c.status then c.(transition := before.value.transition) else c
  }

  /** What is said of a subroutine in a run at time `now` on generation `g`: nothing new if its
      turn did not come; what it ended with, if it failed or is complete; and else only that
      it is processing, where nothing was said before. */
  predicate Line(
    ins: Inputs, g: int, j: nat, name: string, before: Option<Condition>, after: Option<Condition>)
  {
    var out, t := StepAt(ins, j).outcome, name + "_Ready";
    if FailsWithin(ins, 0, j) then after == before
    else if FailsAt(ins, j) then
      after == Some(Over(before, Condition(t, CondFalse, "Error",
        "The " + "subroutine" + " has an error: " + out.error.value.cause.value, g, ins.now)))
    else if out.requeueAfter == 0 then
      after == Some(Over(before, Condition(t, CondTrue, "Complete",
        "The " + "subroutine" + " is complete", g, ins.now)))
    else if before.Some? then after == before
    else after == Some(Condition(t, CondUnknown, "Processing", "The " + "subroutine" + " is processing", g, ins.now))
  }

  /** What is said of the resource: it is ready if nobody failed and nobody asked for a requeue. */
  predicate ReadyLine(cfg: Config, ins: Inputs, g: int, before: Option<Condition>, after: Option<Condition>) {
    if FailsWithin(ins, 0, |cfg.subroutines|) || Requeues(cfg, ins, 0)
    then after == Some(Over(before, Condition("Ready", CondFalse, "Complete", "The resource is not ready", g, ins.now)))
    else after == Some(Over(before, Condition("Ready", CondTrue, "Complete", "The resource is ready", g, ins.now)))
  }

  lemma LineHolds(cfg: Config, ins: Inputs, g: int, s: Status, j: nat)
    requires j < |cfg.subroutines| && cfg.conditions && DistinctNames(cfg) && Untouched(cfg, ins, CName(cfg, j))
    ensures var t := cfg.subroutines[j].name + "_Ready";
            Line(ins, g, j, cfg.subroutines[j].name,
                 Find(s.conditions, t), Find(RunStatus(cfg, ins, g, s).conditions, t))
  {
    var t, first := CName(cfg, j), PutIfMissing(ReadyCondition(CondUnknown, g));
    NamesApart(cfg, j, j);
    OnConcat([first], OpsFrom(cfg, ins, g, 0, 0), t);
    OnWhen(true, first, t);
    DoesOwn(cfg, ins, g, 0, 0, j);
    assert On(RunOps(cfg, ins, g), t) == if FailsWithin(ins, 0, j) then [] else OwnOps(cfg, ins, g, j);
    ApplyThenFind(RunOps(cfg, ins, g), ins.now, s, t);
    if !FailsWithin(ins, 0, j) {
      OwnLine(cfg, ins, g, j, Find(s.conditions, t));
    }
  }

  /** What two operations in a row make of a condition: the first sets it where none is. */
  lemma ThenPut(p: Condition, c: Condition, now: int, before: Option<Condition>)
    requires p.status != c.status && c.transition == 0
    ensures BecomeAll([PutIfMissing(p), Put(c)], now, before) == Some(Over(before, c.(transition := now)))
    ensures BecomeAll([PutIfMissing(p)], now, before) == if before.Some? then before else Some(p.(transition := now))
  {
    BecomeStep([], PutIfMissing(p), now, before);
    assert [] + [PutIfMissing(p)] == [PutIfMissing(p)];
    BecomeStep([PutIfMissing(p)], Put(c), now, before);
    assert [PutIfMissing(p)] + [Put(c)] == [PutIfMissing(p), Put(c)];
  }

  lemma OwnLine(cfg: Config, ins: Inputs, g: int, j: nat, before: Option<Condition>)
    requires j < |cfg.subroutines| && !FailsWithin(ins, 0, j)
    ensures Line(ins, g, j, cfg.subroutines[j].name, before, BecomeAll(OwnOps(cfg, ins, g, j), ins.now, before))
  {
    var name, out := cfg.subroutines[j].name, StepAt(ins, j).outcome;
    var p, c := ProcessingCondition(name, false, g), CompleteCondition(name, false, g);
    if FailsAt(ins, j) {
      var err := out.error.value.cause.value;
      ConditionsSpelledOut(name, g, err);
      ThenPut(p, ErrorCondition(name, false, g, err), ins.now, before);
      assert OwnOps(cfg, ins, g, j) == [PutIfMissing(p), Put(ErrorCondition(name, false, g, err))];
    } else {
      ConditionsSpelledOut(name, g, "");
      ThenPut(p, c, ins.now, before);
      assert OwnOps(cfg, ins, g, j)
          == if out.requeueAfter == 0 then [PutIfMissing(p), Put(c)] else [PutIfMissing(p)];
    }
  }

  lemma ReadyLineHolds(cfg: Config, ins: Inputs, g: int, s: Status)
    requires cfg.conditions && Untouched(cfg, ins, READY)
    ensures ReadyLine(cfg, ins, g, Find(s.conditions, "Ready"), Find(RunStatus(cfg, ins, g, s).conditions, "Ready"))
  {
    var first, last := PutIfMissing(ReadyCondition(CondUnknown, g)), ReadyOp(cfg, ins, g, 0, 0);
    OnConcat([first], OpsFrom(cfg, ins, g, 0, 0), READY);
    OnWhen(true, first, READY);
    DoesReady(cfg, ins, g, 0, 0);
    ApplyThenFind(RunOps(cfg, ins, g), ins.now, s, READY);
    var before := Find(s.conditions, READY);
    BecomeStep([], first, ins.now, before);
    assert [] + [first] == [first];
    BecomeStep([first], last, ins.now, before);
  }

  /** The report. Every status that a run on a live object sends says of every subroutine and
      of the resource exactly what the answers were, in all surroundings, if the subroutines
      have names of their own and leave these conditions alone; and every condition that the
      framework does not write is what the subroutines' edits made of it. */
  lemma EveryStatusReports(cfg: Config, ins: Inputs, w: World, o: Object, k: nat)
    requires w.stored == Some(o) && !o.deleting && cfg.conditions
    requires |w.trace| <= k < |RunLoaded(cfg, ins, w, o).world.trace|
    requires RunLoaded(cfg, ins, w, o).world.trace[k].StatusSent?
    ensures var g := AddFinalizers(cfg, w, o, ins.add).inst.generation;
            var a, b := o.status.conditions, RunLoaded(cfg, ins, w, o).world.trace[k].inst.status.conditions;
            && (Untouched(cfg, ins, "Ready") ==> ReadyLine(cfg, ins, g, Find(a, "Ready"), Find(b, "Ready")))
            && (DistinctNames(cfg) ==> forall j :: 0 <= j < |cfg.subroutines| ==>
                  var t := cfg.subroutines[j].name + "_Ready";
                  Untouched(cfg, ins, t) ==> Line(ins, g, j, cfg.subroutines[j].name, Find(a, t), Find(b, t)))
            && (forall t :: !Framework(cfg, t) ==>
                  Find(b, t) == BecomeAll(On(Executed(cfg, ins, 0), t), ins.now, Find(a, t)))
  {
    var g := StartOf(cfg, ins, w, o).generation;
    SentList(cfg, ins, w, o);
    if Untouched(cfg, ins, READY) {
      ReadyLineHolds(cfg, ins, g, o.status);
    }
    forall j | 0 <= j < |cfg.subroutines| && DistinctNames(cfg)
                && Untouched(cfg, ins, cfg.subroutines[j].name + "_Ready")
      ensures var t := cfg.subroutines[j].name + "_Ready";
              Line(ins, g, j, cfg.subroutines[j].name, Find(o.status.conditions, t),
                   Find(RunStatus(cfg, ins, g, o.status).conditions, t))
    {
      LineHolds(cfg, ins, g, o.status, j);
    }
    forall t | !Framework(cfg, t)
      ensures Find(RunStatus(cfg, ins, g, o.status).conditions, t)
           == BecomeAll(On(Executed(cfg, ins, 0), t), ins.now, Find(o.status.conditions, t))
    {
      ApplyThenFind(RunOps(cfg, ins, g), ins.now, o.status, t);
      ForeignIsAsEdited(cfg, ins, g, t);
    }
  }
}
