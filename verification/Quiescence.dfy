/** Quiescence: when nothing has changed, a second run writes nothing, exactly when what a run
    does to each condition is in order. */
module Quiescence {
  import opened Options
  import opened Conditions
  import opened ConditionOps
  import opened Subroutines
  import opened Cluster
  import opened Lifecycle
  import opened Frames
  import opened ReadySoundness
  import Finalizers
  import Gates

  // ---------------------------------------------------------------- what a run does to the status

  function EditOps(edits: seq<Edit>): seq<Op> {
    if edits == [] then []
    else
      var op := match edits[0]
        case PutCondition(c) => Put(c)
        case DropCondition(t) => Drop(t)
        case PutData(d) => Write(d);
      [op] + EditOps(edits[1..])
  }

  function When(b: bool, op: Op): seq<Op> {
    if b then [op] else []
  }

  /** The operations of turn `k` of a run on an object not marked for deletion. */
  function TurnOps(cfg: Config, ins: Inputs, g: int, k: nat): seq<Op>
    requires k < |cfg.subroutines|
  {
    var name, out := cfg.subroutines[k].name, StepAt(ins, k).outcome;
    When(cfg.conditions, PutIfMissing(ProcessingCondition(name, false, g)))
    + EditOps(out.edits)
    + When(cfg.conditions && out.Clean(), Put(CompleteCondition(name, false, g)))
  }

  /** After an error of subroutine `k`. */
  function FailedOps(cfg: Config, g: int, k: nat, err: string): seq<Op>
    requires k < |cfg.subroutines|
  {
    When(cfg.conditions, Put(ErrorCondition(cfg.subroutines[k].name, false, g, err)))
    + When(cfg.conditions, Put(ReadyCondition(CondFalse, g)))
  }

  function ConcludedOps(cfg: Config, g: int, acc: int): seq<Op> {
    When(cfg.conditions,
      if acc == 0 then PutIfPresent(ReadyCondition(CondTrue, g)) else Put(ReadyCondition(CondFalse, g)))
  }

  function OpsFrom(cfg: Config, ins: Inputs, g: int, k: nat, acc: int): seq<Op>
    requires k <= |cfg.subroutines|
    decreases |cfg.subroutines| - k, 0
  {
    if k == |cfg.subroutines| then ConcludedOps(cfg, g, acc)
    else TurnOps(cfg, ins, g, k) + AfterTurn(cfg, ins, g, k, acc)
  }

  /** What comes after turn `k`. */
  function AfterTurn(cfg: Config, ins: Inputs, g: int, k: nat, acc: int): seq<Op>
    requires k < |cfg.subroutines|
    decreases |cfg.subroutines| - k - 1, 1
  {
    var out := StepAt(ins, k).outcome;
    if out.Cause().Some? then FailedOps(cfg, g, k, out.Cause().value)
    else OpsFrom(cfg, ins, g, k + 1, Fold(acc, out.requeueAfter))
  }

  /** All that a run with these answers does to the status of an object of generation `g`. */
  function RunOps(cfg: Config, ins: Inputs, g: int): seq<Op> {
    When(cfg.conditions, PutIfMissing(ReadyCondition(CondUnknown, g))) + OpsFrom(cfg, ins, g, 0, 0)
  }

  /** The status a whole run computes from the one it finds. */
  function RunStatus(cfg: Config, ins: Inputs, g: int, s: Status): Status {
    Apply(RunOps(cfg, ins, g), ins.now, s)
  }

  // ---------------------------------------------------------------- the run computes it

  /** Nobody interferes and the server serves every call. */
  predicate Calm(ins: Inputs) {
    var served := Call([], Served);
    && ins.get == served && ins.add == served && ins.removal == served
    && ins.status == served && ins.refresh == served && ins.prepare.None?
    && CalmSteps(ins)
  }

  predicate CalmSteps(ins: Inputs) {
    forall k :: 0 <= k < |ins.steps| ==> ins.steps[k].patch == Call([], Served)
  }

  /** Between `w` and `w'` there are only subroutine calls. */
  predicate OnlyRuns(w: World, w': World) {
    && w.trace <= w'.trace
    && w'.stored == w.stored
    && (forall k :: |w.trace| <= k < |w'.trace| ==> w'.trace[k].Ran?)
  }

  lemma ApplyWhen(b: bool, op: Op, now: int, s: Status)
    ensures Apply(When(b, op), now, s) == if b then Do(op, now, s) else s
  {
    if b {
      assert [op][..0] == [];
    }
  }

  lemma {:induction false} EditedIsApplied(s: Status, edits: seq<Edit>, now: int)
    ensures Edited(s, edits, now) == Apply(EditOps(edits), now, s)
    decreases |edits|
  {
    if edits != [] {
      var first := EditOps(edits)[0];
      assert EditOps(edits) == [first] + EditOps(edits[1..]);
      ApplyWhen(true, first, now, s);
      ApplyConcat([first], EditOps(edits[1..]), now, s);
      EditedIsApplied(ApplyEdit(s, edits[0], now), edits[1..], now);
    }
  }

  /** What a turn on a live object makes of the instance, whatever others do meanwhile. */
  lemma TurnApplies(cfg: Config, ins: Inputs, k: nat, w: World, inst: Object)
    requires k < |cfg.subroutines| && !inst.deleting
    ensures var end := Turn(cfg, ins, false, k, w, inst);
            && end.inst == inst.(status := Apply(TurnOps(cfg, ins, inst.generation, k), ins.now, inst.status))
            && end.error == StepAt(ins, k).outcome.Cause()
            && end.requeueAfter == StepAt(ins, k).outcome.requeueAfter
  {
    TurnInstance(cfg, ins, k, w, inst);
    var name, out, g := cfg.subroutines[k].name, StepAt(ins, k).outcome, inst.generation;
    var first, last := PutIfMissing(ProcessingCondition(name, false, g)), Put(CompleteCondition(name, false, g));
    var opening, edits := When(cfg.conditions, first), EditOps(out.edits);
    var prepared := Apply(opening, ins.now, inst.status);
    ApplyWhen(cfg.conditions, first, ins.now, inst.status);
    EditedIsApplied(prepared, out.edits, ins.now);
    ApplyWhen(cfg.conditions && out.Clean(), last, ins.now, Apply(edits, ins.now, prepared));
    ApplyConcat(opening, edits, ins.now, inst.status);
    ApplyConcat(opening + edits, When(cfg.conditions && out.Clean(), last), ins.now, inst.status);
  }

  lemma CalmTurn(cfg: Config, ins: Inputs, k: nat, w: World, inst: Object)
    requires k < |cfg.subroutines| && !inst.deleting && CalmSteps(ins)
    ensures var end := Turn(cfg, ins, false, k, w, inst);
            && OnlyRuns(w, end.world)
            && end.inst == inst.(status := Apply(TurnOps(cfg, ins, inst.generation, k), ins.now, inst.status))
            && end.error == StepAt(ins, k).outcome.Cause()
            && end.requeueAfter == StepAt(ins, k).outcome.requeueAfter
  {
    TurnApplies(cfg, ins, k, w, inst);
    assert StepAt(ins, k).patch == Call([], Served);
  }

  lemma StopInstance(cfg: Config, ins: Inputs, original: Object, i: nat, end: SubroutineEnd, acc: int)
    requires i < |cfg.subroutines| && end.error.Some? && !cfg.spreader
    ensures var w := if end.retry then end.world else Log(end.world, MarkedFinal);
            var ops := FailedOps(cfg, end.inst.generation, i, end.error.value);
            StopRun(cfg, ins, original, false, i, end, acc).world
            == SendStatus(cfg, w, original, end.inst.(status := Apply(ops, ins.now, end.inst.status)), ins.status).world
  {
    var name, g, s := cfg.subroutines[i].name, end.inst.generation, end.inst.status;
    var e, c := ErrorCondition(name, false, g, end.error.value), ReadyCondition(CondFalse, g);
    ApplyConcat(When(cfg.conditions, Put(e)), When(cfg.conditions, Put(c)), ins.now, s);
    ApplyWhen(cfg.conditions, Put(e), ins.now, s);
    ApplyWhen(cfg.conditions, Put(c), ins.now, Apply(When(cfg.conditions, Put(e)), ins.now, s));
    if cfg.conditions {
      var failed := SetCondition(s.conditions, e, ins.now);
      SetThenFind(failed, c, ins.now, READY);
      SetIsIdempotent(SetCondition(failed, c, ins.now), c, ins.now);
    }
  }

  /** Sending a computed status: it is stored, or it was there already and nothing is sent. */
  lemma CalmSend(cfg: Config, w: World, original: Object, inst: Object, call: Call)
    requires call == Call([], Served) && !cfg.readOnly && !inst.deleting
    requires w.stored == Some(inst.(status := original.status))
    ensures var at := SendStatus(cfg, w, original, inst, call);
            && at.error.None?
            && w.trace <= at.world.trace
            && at.world.stored.Some?
            && at.world.stored.value == inst.(version := at.world.stored.value.version)
            && at.inst == at.world.stored.value
            && (inst.status == original.status ==> at.world == w)
  {
  }

  /** The events of a run that writes nothing. */
  predicate Idle(w: World, w': World) {
    && w.trace <= w'.trace
    && w'.stored == w.stored
    && (forall k :: |w.trace| <= k < |w'.trace| ==> w'.trace[k].Ran? || w'.trace[k].MarkedFinal?)
  }

  /** What a calm run leaves: the computed status, nothing else changed; and no request at
      all if the status was that already. */
  predicate Leaves(w: World, inst: Object, original: Object, s: Status, w': World) {
    && w'.stored.Some?
    && w'.stored.value == inst.(status := s, version := w'.stored.value.version)
    && (s == original.status ==> Idle(w, w'))
  }

  lemma CalmFinish(cfg: Config, ins: Inputs, original: Object, w0: World, w: World, inst: Object, acc: int)
    requires Calm(ins) && !cfg.readOnly && !cfg.spreader && !inst.deleting
    requires !InitializerPending(cfg, inst.status.initializers)
    requires OnlyRuns(w0, w) && w.stored == Some(inst.(status := original.status))
    ensures Leaves(w0, inst, original, Apply(ConcludedOps(cfg, inst.generation, acc), ins.now, inst.status),
                   FinishRun(cfg, ins, original, false, w, inst, acc).world)
  {
    var marked := if acc == 0 then Log(w, MarkedFinal) else w;
    var concluded := Conclude(cfg, inst, acc, ins);
    var gate := RemoveGate(cfg, marked, concluded, false, acc, ins.removal);
    Gates.WithoutAbsent(inst.status.initializers, cfg.initializer);
    assert gate == Attempt(marked, concluded, None);
    var g := inst.generation;
    ApplyWhen(cfg.conditions,
      if acc == 0 then PutIfPresent(ReadyCondition(CondTrue, g)) else Put(ReadyCondition(CondFalse, g)),
      ins.now, inst.status);
    assert concluded == inst.(status := Apply(ConcludedOps(cfg, g, acc), ins.now, inst.status));
    CalmSend(cfg, marked, original, concluded, ins.status);
  }

  lemma CalmStop(
    cfg: Config, ins: Inputs, original: Object, k: nat, w0: World, end: SubroutineEnd, acc: int)
    requires k < |cfg.subroutines| && Calm(ins) && !cfg.readOnly && !cfg.spreader && !end.inst.deleting
    requires end.error.Some? && OnlyRuns(w0, end.world)
    requires end.world.stored == Some(end.inst.(status := original.status))
    ensures var s := Apply(FailedOps(cfg, end.inst.generation, k, end.error.value), ins.now, end.inst.status);
            Leaves(w0, end.inst, original, s, StopRun(cfg, ins, original, false, k, end, acc).world)
  {
    StopInstance(cfg, ins, original, k, end, acc);
    var w1 := if end.retry then end.world else Log(end.world, MarkedFinal);
    var s := Apply(FailedOps(cfg, end.inst.generation, k, end.error.value), ins.now, end.inst.status);
    CalmSend(cfg, w1, original, end.inst.(status := s), ins.status);
  }

  /** What the run from turn `k` on computes. */
  function StatusFrom(cfg: Config, ins: Inputs, k: nat, inst: Object, acc: int): Status
    requires k <= |cfg.subroutines|
  {
    Apply(OpsFrom(cfg, ins, inst.generation, k, acc), ins.now, inst.status)
  }

  lemma StatusStep(cfg: Config, ins: Inputs, k: nat, inst: Object, acc: int)
    requires k < |cfg.subroutines|
    ensures var g, out := inst.generation, StepAt(ins, k).outcome;
            var inst' := inst.(status := Apply(TurnOps(cfg, ins, g, k), ins.now, inst.status));
            StatusFrom(cfg, ins, k, inst, acc)
            == if out.Cause().Some? then Apply(FailedOps(cfg, g, k, out.Cause().value), ins.now, inst'.status)
               else StatusFrom(cfg, ins, k + 1, inst', Fold(acc, out.requeueAfter))
  {
    var g := inst.generation;
    ApplyConcat(TurnOps(cfg, ins, g, k), AfterTurn(cfg, ins, g, k, acc), ins.now, inst.status);
  }

  lemma RunsOn(a: World, b: World, c: World)
    requires OnlyRuns(a, b) && OnlyRuns(b, c)
    ensures OnlyRuns(a, c)
  {
    forall k | |a.trace| <= k < |c.trace| ensures c.trace[k].Ran? {
      if k < |b.trace| {
        assert c.trace[k] == b.trace[k];
      }
    }
  }

  lemma CalmLoop(cfg: Config, ins: Inputs, original: Object, w: World, inst: Object)
    requires Calm(ins) && !cfg.readOnly && !cfg.spreader && !inst.deleting
    requires !InitializerPending(cfg, inst.status.initializers)
    requires w.stored == Some(inst.(status := original.status))
    ensures var s := StatusFrom(cfg, ins, 0, inst, 0);
            var end := RunSubroutines(cfg, ins, original, false, 0, w, inst, 0);
            if end.Stopped? then Leaves(w, inst, original, s, end.done.world)
            else
              && OnlyRuns(w, end.world) && end.inst == inst.(status := end.inst.status)
              && end.inst.status.initializers == inst.status.initializers
              && s == Apply(ConcludedOps(cfg, inst.generation, end.requeueAfter), ins.now, end.inst.status)
  {
    var goal := RunSubroutines(cfg, ins, original, false, 0, w, inst, 0);
    var s := StatusFrom(cfg, ins, 0, inst, 0);
    var k, w', inst', acc := 0, w, inst, 0;
    while k < |cfg.subroutines|
      invariant k <= |cfg.subroutines| && goal == RunSubroutines(cfg, ins, original, false, k, w', inst', acc)
      invariant s == StatusFrom(cfg, ins, k, inst', acc) && OnlyRuns(w, w')
      invariant inst' == inst.(status := inst'.status) && inst'.status.initializers == inst.status.initializers
    {
      var end := Turn(cfg, ins, false, k, w', inst');
      CalmTurn(cfg, ins, k, w', inst');
      ApplyFrame(TurnOps(cfg, ins, inst'.generation, k), ins.now, inst'.status);
      RunsOn(w, w', end.world);
      StatusStep(cfg, ins, k, inst', acc);
      LoopStep(cfg, ins, original, false, k, w', inst', acc);
      if end.error.Some? {
        CalmStop(cfg, ins, original, k, w, end, acc);
        return;
      }
      k, w', inst', acc := k + 1, end.world, end.inst, Fold(acc, end.requeueAfter);
    }
  }

  lemma CalmAdd(cfg: Config, w: World, o: Object, call: Call)
    requires w.stored == Some(o) && !o.deleting && !cfg.readOnly && call == Call([], Served)
    ensures var at := AddFinalizers(cfg, w, o, call);
            && at.error.None?
            && at.world.stored == Some(at.inst)
            && at.inst == o.(finalizers := WithAllFinalizers(o.finalizers, cfg.subroutines), version := at.inst.version)
            && (WithAllFinalizers(o.finalizers, cfg.subroutines) == o.finalizers ==> at == Attempt(w, o, None))
  {
  }

  lemma CalmLoaded(cfg: Config, ins: Inputs, w: World, o: Object)
    requires w.stored == Some(o) && !o.deleting && Calm(ins) && !cfg.readOnly && !cfg.spreader
    requires !InitializerPending(cfg, o.status.initializers)
    ensures var w' := RunLoaded(cfg, ins, w, o).world;
            var s := RunStatus(cfg, ins, o.generation, o.status);
            var fs := WithAllFinalizers(o.finalizers, cfg.subroutines);
            && w'.stored.Some?
            && w'.stored.value == o.(finalizers := fs, status := s, version := w'.stored.value.version)
            && (fs == o.finalizers && s == o.status ==> Idle(w, w'))
  {
    var added := AddFinalizers(cfg, w, o, ins.add);
    CalmAdd(cfg, w, o, ins.add);
    var inst := ReadyUnknownIfMissing(cfg, added.inst, ins.now);
    var op := PutIfMissing(ReadyCondition(CondUnknown, o.generation));
    ApplyWhen(cfg.conditions, op, ins.now, o.status);
    ApplyConcat(When(cfg.conditions, op), OpsFrom(cfg, ins, o.generation, 0, 0), ins.now, o.status);
    CalmLoop(cfg, ins, o, added.world, inst);
    var end := RunSubroutines(cfg, ins, o, false, 0, added.world, inst, 0);
    if end.Completed? {
      CalmFinish(cfg, ins, o, added.world, end.world, end.inst, end.requeueAfter);
    }
  }

  // ---------------------------------------------------------------- the status is a fixpoint

  /** The same answers, at whatever other time. */
  predicate SameAnswers(cfg: Config, a: Inputs, b: Inputs) {
    forall k :: 0 <= k < |cfg.subroutines| ==> StepAt(a, k).outcome == StepAt(b, k).outcome
  }

  /** Answers in order: whatever a run with these answers does to the conditions of one type,
      it either removes them in the end, or removes none and sets one status over them. */
  ghost predicate OrderlyAnswers(cfg: Config, ins: Inputs, g: int) {
    forall t :: Orderly(On(RunOps(cfg, ins, g), t))
  }

  lemma {:induction false} SameOps(cfg: Config, a: Inputs, b: Inputs, g: int, k: nat, acc: int)
    requires k <= |cfg.subroutines| && SameAnswers(cfg, a, b)
    ensures OpsFrom(cfg, a, g, k, acc) == OpsFrom(cfg, b, g, k, acc)
    decreases |cfg.subroutines| - k
  {
    if k < |cfg.subroutines| {
      SameOps(cfg, a, b, g, k + 1, Fold(acc, StepAt(a, k).outcome.requeueAfter));
      assert AfterTurn(cfg, a, g, k, acc) == AfterTurn(cfg, b, g, k, acc);
      assert TurnOps(cfg, a, g, k) == TurnOps(cfg, b, g, k);
    }
  }

  lemma {:induction false} EditsSetPlainly(edits: seq<Edit>)
    ensures forall op :: op in EditOps(edits) ==> !op.PutIfPresent?
  {
    if edits != [] {
      EditsSetPlainly(edits[1..]);
    }
  }

  /** Only Ready is ever set through a slice passed by value. */
  lemma {:induction false} OnlyReadyByValue(cfg: Config, ins: Inputs, g: int, k: nat, acc: int)
    requires k <= |cfg.subroutines|
    ensures forall op :: op in OpsFrom(cfg, ins, g, k, acc) && op.PutIfPresent? ==>
              cfg.conditions && op.c.ctype == READY
    decreases |cfg.subroutines| - k
  {
    if k < |cfg.subroutines| {
      EditsSetPlainly(StepAt(ins, k).outcome.edits);
      assert forall op :: op in TurnOps(cfg, ins, g, k) ==> !op.PutIfPresent?;
      if StepAt(ins, k).outcome.Cause().None? {
        OnlyReadyByValue(cfg, ins, g, k + 1, Fold(acc, StepAt(ins, k).outcome.requeueAfter));
      }
      assert forall op :: op in AfterTurn(cfg, ins, g, k, acc) && op.PutIfPresent? ==> op.c.ctype == READY;
    }
  }

  lemma OnWhen(b: bool, op: Op, t: string)
    ensures On(When(b, op), t) == When(b && TypeOf(op) == Some(t), op)
  {
    if b {
      assert [op][..0] == [];
    }
  }

  lemma RunOpsLed(cfg: Config, ins: Inputs, g: int)
    ensures Led(RunOps(cfg, ins, g))
  {
    var first, rest := PutIfMissing(ReadyCondition(CondUnknown, g)), OpsFrom(cfg, ins, g, 0, 0);
    OnlyReadyByValue(cfg, ins, g, 0, 0);
    forall t ensures var own := On(RunOps(cfg, ins, g), t); own == [] || !own[0].PutIfPresent? {
      OnConcat(When(cfg.conditions, first), rest, t);
      OnWhen(cfg.conditions, first, t);
      OnMembers(rest, t);
      var own := On(RunOps(cfg, ins, g), t);
      if own != [] && !(cfg.conditions && t == READY) {
        assert own == On(rest, t) && own[0] in own;
      }
    }
  }

  /** The status is a fixpoint: computed once it is computed again unchanged, transition
      times included, whether the run succeeds, requeues or fails. */
  lemma StatusIsAFixpoint(cfg: Config, first: Inputs, second: Inputs, g: int, s: Status)
    requires OrderlyAnswers(cfg, first, g) && SameAnswers(cfg, first, second)
    ensures RunStatus(cfg, second, g, RunStatus(cfg, first, g, s)) == RunStatus(cfg, first, g, s)
  {
    SameOps(cfg, first, second, g, 0, 0);
    RunOpsLed(cfg, first, g);
    OrderlyTwice(RunOps(cfg, first, g), first.now, second.now, s);
  }

  // ---------------------------------------------------------------- the theorem

  lemma {:induction false} AllFinalizersTwice(fs: seq<string>, subs: seq<Subroutine>)
    ensures WithAllFinalizers(WithAllFinalizers(fs, subs), subs) == WithAllFinalizers(fs, subs)
  {
    Finalizers.WithAllFinalizersMembers(fs, subs);
    Finalizers.WithAllFinalizersNoop(WithAllFinalizers(fs, subs), subs);
  }

  /** After the first run the second one sends nothing. */
  predicate SecondIsIdle(cfg: Config, w: World, first: Inputs, second: Inputs) {
    var w1 := Reconcile(cfg, w, first).world;
    Idle(w1, Reconcile(cfg, w1, second).world)
  }

  /** Quiescence. Without a spreader and with no initializer pending, a second undisturbed
      run on an object that is not being deleted, with the same answers of the
      subroutines, sends no request at all: everything in its trace is a subroutine call.
      It does not matter whether the first run succeeded, asked for a requeue or failed. */
  lemma SecondRunWritesNothing(cfg: Config, w: World, first: Inputs, second: Inputs)
    requires w.stored.Some? && !w.stored.value.deleting && !cfg.readOnly && !cfg.spreader
    requires !InitializerPending(cfg, w.stored.value.status.initializers)
    requires Calm(first) && Calm(second) && SameAnswers(cfg, first, second)
    requires OrderlyAnswers(cfg, first, w.stored.value.generation)
    ensures SecondIsIdle(cfg, w, first, second)
  {
    var o := w.stored.value;
    CalmLoaded(cfg, first, w, o);
    var w1 := Reconcile(cfg, w, first).world;
    StatusIsAFixpoint(cfg, first, second, o.generation, o.status);
    AllFinalizersTwice(o.finalizers, cfg.subroutines);
    ApplyFrame(RunOps(cfg, first, o.generation), first.now, o.status);
    CalmLoaded(cfg, second, w1, w1.stored.value);
  }

  function ServedSteps(cfg: Config, ins: Inputs): seq<Step> {
    seq(|cfg.subroutines|, j requires 0 <= j < |cfg.subroutines| => Step(StepAt(ins, j).outcome, Call([], Served)))
  }

  /** An undisturbed run with these answers at time `now`. */
  function CalmAt(cfg: Config, ins: Inputs, now: int): Inputs {
    var served := Call([], Served);
    Inputs(now, 0, served, served, None, ServedSteps(cfg, ins), served, served, served)
  }

  /** Two undisturbed runs with these answers, on a live object of generation `g`. */
  predicate Repeated(cfg: Config, ins: Inputs, g: int, w: World, first: Inputs, second: Inputs) {
    && w.stored.Some? && !w.stored.value.deleting && w.stored.value.generation == g
    && !InitializerPending(cfg, w.stored.value.status.initializers)
    && Calm(first) && Calm(second) && SameAnswers(cfg, ins, first) && SameAnswers(cfg, ins, second)
  }

  /** A live object of generation `g` whose status is empty. */
  function Blank(g: int): World {
    World(Some(Object(1, g, false, [], {}, Status([], 0, [], [], 0, 0))), [])
  }

  /** Answers that are not in order: from an object without conditions, the second run of two
      at different times stores another status. */
  lemma SecondRunWrites(cfg: Config, ins: Inputs, g: int)
    requires !cfg.readOnly && !cfg.spreader && !OrderlyAnswers(cfg, ins, g)
    ensures Repeated(cfg, ins, g, Blank(g), CalmAt(cfg, ins, 0), CalmAt(cfg, ins, 1))
    ensures !SecondIsIdle(cfg, Blank(g), CalmAt(cfg, ins, 0), CalmAt(cfg, ins, 1))
  {
    var w, first, second := Blank(g), CalmAt(cfg, ins, 0), CalmAt(cfg, ins, 1);
    var o := w.stored.value;
    assert Repeated(cfg, ins, g, w, first, second);
    SameOps(cfg, ins, first, g, 0, 0);
    SameOps(cfg, ins, second, g, 0, 0);
    var t :| !Orderly(On(RunOps(cfg, ins, g), t));
    RunOpsLed(cfg, ins, g);
    DisorderlyTwice(RunOps(cfg, ins, g), 0, 1, o.status, t);
    CalmLoaded(cfg, first, w, o);
    var w1 := Reconcile(cfg, w, first).world;
    ApplyFrame(RunOps(cfg, first, g), 0, o.status);
    CalmLoaded(cfg, second, w1, w1.stored.value);
  }

  /** A second undisturbed run with the same answers writes nothing, on every live object of
      generation `g` without a pending initializer and at all times, if and only if the
      answers are in order. */
  lemma SecondRunWritesNothingExactlyWhen(cfg: Config, ins: Inputs, g: int)
    requires !cfg.readOnly && !cfg.spreader
    ensures (forall w, first, second :: Repeated(cfg, ins, g, w, first, second) ==>
               SecondIsIdle(cfg, w, first, second))
       <==> OrderlyAnswers(cfg, ins, g)
  {
    if OrderlyAnswers(cfg, ins, g) {
      forall w, first, second | Repeated(cfg, ins, g, w, first, second)
        ensures SecondIsIdle(cfg, w, first, second)
      {
        SameOps(cfg, ins, first, g, 0, 0);
        assert RunOps(cfg, first, g) == RunOps(cfg, ins, g);
        SecondRunWritesNothing(cfg, w, first, second);
      }
    } else {
      SecondRunWrites(cfg, ins, g);
    }
  }
}
