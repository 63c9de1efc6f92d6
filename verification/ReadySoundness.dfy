/** A Ready condition that is true tells the truth: the run that wrote it had finished with
    every subroutine, and the list says so for each of them. */
module ReadySoundness {
  import opened Options
  import opened Conditions
  import opened Subroutines
  import opened Cluster
  import opened Lifecycle
  import opened Frames
  import Finalizers
  import Gates
  import Generations

  predicate DistinctNames(cfg: Config) {
    forall i, j :: 0 <= i < j < |cfg.subroutines| ==> cfg.subroutines[i].name != cfg.subroutines[j].name
  }

  /** The condition types the framework writes in a run that is no deletion. */
  predicate Framework(cfg: Config, t: string) {
    t == READY || exists i :: 0 <= i < |cfg.subroutines| && t == ConditionName(cfg.subroutines[i].name, false)
  }

  predicate Touches(edits: seq<Edit>, t: string) {
    exists e :: e in edits && ((e.PutCondition? && e.condition.ctype == t) || (e.DropCondition? && e.ctype == t))
  }

  /** The subroutines leave the framework's conditions alone. */
  ghost predicate WellBehaved(cfg: Config, ins: Inputs) {
    forall k, t :: 0 <= k < |cfg.subroutines| && Framework(cfg, t) ==> !Touches(StepAt(ins, k).outcome.edits, t)
  }

  /** Condition `t` is in the list, has this status, and was observed at generation `g`. */
  predicate Says(cs: seq<Condition>, t: string, status: ConditionStatus, g: int) {
    var f := Find(cs, t);
    f.Some? && f.value.status == status && f.value.observedGeneration == g
  }

  /** Nobody but the framework and the subroutines' own edits changed a condition. */
  ghost predicate ForeignKept(cfg: Config, ins: Inputs, before: seq<Condition>, after: seq<Condition>) {
    && (Unique(before) ==> Unique(after))
    && (forall t :: !Framework(cfg, t)
          && (forall k :: 0 <= k < |cfg.subroutines| ==> !Touches(StepAt(ins, k).outcome.edits, t))
          ==> Find(after, t) == Find(before, t))
  }

  lemma {:induction false} EditsFind(s: Status, edits: seq<Edit>, now: int, t: string)
    requires !Touches(edits, t)
    ensures Find(Edited(s, edits, now).conditions, t) == Find(s.conditions, t)
    decreases |edits|
  {
    if edits != [] {
      var e := edits[0];
      assert e in edits;
      match e {
        case PutCondition(c) => SetThenFind(s.conditions, c, now, t);
        case DropCondition(u) => RemoveThenFind(s.conditions, u, t);
        case PutData(_) =>
      }
      EditsFind(ApplyEdit(s, e, now), edits[1..], now, t);
    }
  }

  lemma {:induction false} EditsKeepUnique(s: Status, edits: seq<Edit>, now: int)
    requires Unique(s.conditions)
    ensures Unique(Edited(s, edits, now).conditions)
    decreases |edits|
  {
    if edits != [] {
      match edits[0] {
        case PutCondition(c) => SetKeepsUnique(s.conditions, c, now);
        case DropCondition(u) => RemoveKeepsUnique(s.conditions, u);
        case PutData(_) =>
      }
      EditsKeepUnique(ApplyEdit(s, edits[0], now), edits[1..], now);
    }
  }

  /** Setting a framework condition is no foreign change. */
  lemma SetForeign(cfg: Config, ins: Inputs, cs: seq<Condition>, c: Condition, now: int)
    requires Framework(cfg, c.ctype)
    ensures ForeignKept(cfg, ins, cs, cs)
    ensures ForeignKept(cfg, ins, cs, SetCondition(cs, c, now))
    ensures ForeignKept(cfg, ins, cs, SetIfMissing(cs, c, now))
    ensures ForeignKept(cfg, ins, cs, SetIfPresent(cs, c, now))
  {
    forall t ensures t != c.ctype ==> Find(SetCondition(cs, c, now), t) == Find(cs, t) {
      SetThenFind(cs, c, now, t);
    }
  }

  lemma EditsForeign(cfg: Config, ins: Inputs, k: nat, s: Status, now: int)
    requires k < |cfg.subroutines|
    ensures ForeignKept(cfg, ins, s.conditions, Edited(s, StepAt(ins, k).outcome.edits, now).conditions)
  {
    var edits := StepAt(ins, k).outcome.edits;
    if Unique(s.conditions) {
      EditsKeepUnique(s, edits, now);
    }
    forall t | !Touches(edits, t) ensures Find(Edited(s, edits, now).conditions, t) == Find(s.conditions, t) {
      EditsFind(s, edits, now, t);
    }
  }

  function CName(cfg: Config, j: nat): string
    requires j < |cfg.subroutines|
  {
    ConditionName(cfg.subroutines[j].name, false)
  }

  lemma NamesApart(cfg: Config, k: nat, j: nat)
    requires k < |cfg.subroutines| && j < |cfg.subroutines|
    ensures CName(cfg, k) != READY && Framework(cfg, CName(cfg, k)) && Framework(cfg, READY)
    ensures DistinctNames(cfg) ==> (CName(cfg, j) == CName(cfg, k) <==> j == k)
  {
    ConditionNamesDistinct(cfg.subroutines[k].name, cfg.subroutines[j].name, false, false);
  }

  /** From `a` to `b` no framework condition but `except` changed, and no foreign one. */
  ghost predicate OnlyOwn(cfg: Config, ins: Inputs, except: string, a: seq<Condition>, b: seq<Condition>) {
    && ForeignKept(cfg, ins, a, b)
    && (forall t :: Framework(cfg, t) && t != except ==> Find(b, t) == Find(a, t))
  }

  lemma SetOnlyOwn(cfg: Config, ins: Inputs, cs: seq<Condition>, c: Condition, now: int)
    requires Framework(cfg, c.ctype)
    ensures OnlyOwn(cfg, ins, c.ctype, cs, SetCondition(cs, c, now))
    ensures OnlyOwn(cfg, ins, c.ctype, cs, SetIfMissing(cs, c, now))
  {
    SetForeign(cfg, ins, cs, c, now);
    forall t | t != c.ctype ensures Find(SetCondition(cs, c, now), t) == Find(cs, t) {
      SetThenFind(cs, c, now, t);
    }
  }

  lemma EditsOnlyOwn(cfg: Config, ins: Inputs, k: nat, s: Status, now: int, except: string)
    requires k < |cfg.subroutines| && WellBehaved(cfg, ins)
    ensures OnlyOwn(cfg, ins, except, s.conditions, Edited(s, StepAt(ins, k).outcome.edits, now).conditions)
  {
    var edits := StepAt(ins, k).outcome.edits;
    EditsForeign(cfg, ins, k, s, now);
    forall t | Framework(cfg, t) ensures Find(Edited(s, edits, now).conditions, t) == Find(s.conditions, t) {
      EditsFind(s, edits, now, t);
    }
  }

  /** The instance after a turn on an object not marked for deletion: no patch reloads it. */
  lemma TurnInstance(cfg: Config, ins: Inputs, k: nat, w: World, inst: Object)
    requires k < |cfg.subroutines| && !inst.deleting
    ensures var end := Turn(cfg, ins, false, k, w, inst);
            var name, out := cfg.subroutines[k].name, StepAt(ins, k).outcome;
            var prepared := ProcessingIfMissing(cfg, inst, name, false, ins.now);
            var edited := prepared.(status := Edited(prepared.status, out.edits, ins.now));
            && end.error == out.Cause()
            && end.requeueAfter == out.requeueAfter
            && end.inst == if out.Clean() then SetSubroutine(cfg, edited, name, false, 0, None, ins.now) else edited
  {
  }

  /** A condition that was there is as it was, and one that was not says Unknown. */
  predicate LeftAlone(t: string, before: seq<Condition>, after: seq<Condition>) {
    match Find(before, t)
    case Some(c) => Find(after, t) == Some(c)
    case None => Find(after, t).Some? && Find(after, t).value.status.CondUnknown?
  }

  /** What one turn does to the conditions, on an object not marked for deletion. */
  lemma TurnConditions(cfg: Config, ins: Inputs, k: nat, w: World, inst: Object)
    requires k < |cfg.subroutines| && !inst.deleting && cfg.conditions
    requires WellBehaved(cfg, ins)
    ensures var end := Turn(cfg, ins, false, k, w, inst);
            && end.inst.generation == inst.generation
            && !end.inst.deleting
            && OnlyOwn(cfg, ins, CName(cfg, k), inst.status.conditions, end.inst.status.conditions)
            && (end.error.None? ==> end.requeueAfter == StepAt(ins, k).outcome.requeueAfter)
            && (end.error.None? ==> StepAt(ins, k).outcome.Cause().None?)
            && (end.error.None? && end.requeueAfter == 0 ==>
                  Says(end.inst.status.conditions, CName(cfg, k), CondTrue, inst.generation))
            && (end.error.None? && end.requeueAfter != 0 ==>
                  LeftAlone(CName(cfg, k), inst.status.conditions, end.inst.status.conditions))
  {
    TurnInstance(cfg, ins, k, w, inst);
    var name, gen, now := cfg.subroutines[k].name, inst.generation, ins.now;
    var s1 := ProcessingIfMissing(cfg, inst, name, false, now).status;
    var s2 := Edited(s1, StepAt(ins, k).outcome.edits, now);
    var c1, c3 := ProcessingCondition(name, false, gen), CompleteCondition(name, false, gen);
    var cs0, cs3 := inst.status.conditions, SetCondition(s2.conditions, c3, now);
    NamesApart(cfg, k, k);
    SetOnlyOwn(cfg, ins, cs0, c1, now);
    EditsOnlyOwn(cfg, ins, k, s1, now, CName(cfg, k));
    SetOnlyOwn(cfg, ins, s2.conditions, c3, now);
    SetThenFind(s2.conditions, c3, now, CName(cfg, k));
    SetThenFind(cs0, c1, now, CName(cfg, k));
    EditsFind(s1, StepAt(ins, k).outcome.edits, now, CName(cfg, k));
  }

  // ---------------------------------------------------------------- what is sent

  /** What a run started from: the generation and the condition list of its instance, and
      the initializers listed then. */
  datatype Start = Start(generation: int, conditions: seq<Condition>, initializers: seq<string>)

  /** The claim about a condition list that is sent by a run. */
  ghost predicate Sound(cfg: Config, ins: Inputs, start: Start, cs: seq<Condition>) {
    && ForeignKept(cfg, ins, start.conditions, cs)
    && (Find(cs, READY).Some? && Find(cs, READY).value.status.CondTrue? ==>
          && Says(cs, READY, CondTrue, start.generation)
          && AllTold(cfg, ins, start, cs, |cfg.subroutines|))
  }

  /** Subroutine `j` ended without error and without asking to be called again. If its name
      is its own the list says so, except that a negative delay leaves its condition as it
      was. */
  predicate Told(cfg: Config, ins: Inputs, start: Start, cs: seq<Condition>, j: nat)
    requires j < |cfg.subroutines|
  {
    var out := StepAt(ins, j).outcome;
    && Gates.Settled(out)
    && (DistinctNames(cfg) ==>
          && (out.requeueAfter == 0 ==> Says(cs, CName(cfg, j), CondTrue, start.generation))
          && (out.requeueAfter < 0 ==> LeftAlone(CName(cfg, j), start.conditions, cs)))
  }

  predicate AllTold(cfg: Config, ins: Inputs, start: Start, cs: seq<Condition>, k: nat)
    requires k <= |cfg.subroutines|
  {
    forall j :: 0 <= j < k ==> Told(cfg, ins, start, cs, j)
  }

  /** The claim about an instance whose status is sent: unless an initializer was pending
      its generation is still the one of the start. */
  ghost predicate SoundInstance(cfg: Config, ins: Inputs, start: Start, inst: Object) {
    && Sound(cfg, ins, start, inst.status.conditions)
    && (!InitializerPending(cfg, start.initializers) ==> inst.generation == start.generation)
  }

  ghost predicate SentSound(cfg: Config, ins: Inputs, start: Start, tr: seq<Event>, from: nat) {
    forall k :: from <= k < |tr| && tr[k].StatusSent? ==> SoundInstance(cfg, ins, start, tr[k].inst)
  }

  /** Every status sent between `w` and `w'` is sent from this instance. */
  predicate SendsOnly(w: World, w': World, s: Option<Object>) {
    && w.trace <= w'.trace
    && forall k :: |w.trace| <= k < |w'.trace| && w'.trace[k].StatusSent? ==> s == Some(w'.trace[k].inst)
  }

  lemma SendsTrans(a: World, b: World, c: World, s: Option<Object>)
    requires SendsOnly(a, b, s) && SendsOnly(b, c, s)
    ensures SendsOnly(a, c, s)
  {
    forall k | |a.trace| <= k < |c.trace| && c.trace[k].StatusSent? ensures s == Some(c.trace[k].inst) {
      if k < |b.trace| {
        assert c.trace[k] == b.trace[k];
      }
    }
  }

  lemma {:induction false} AwaitSends(w: World, nudges: seq<Nudge>, s: Option<Object>)
    ensures SendsOnly(w, Await(w, nudges), s)
    decreases |nudges|
  {
    if nudges != [] && w.stored.Some? {
      var w1 := Put(w, Keep(Nudged(w.stored.value, nudges[0])));
      AwaitSends(w1, nudges[1..], s);
      SendsTrans(w, w1, Await(w, nudges), s);
    }
  }

  lemma SendStatusSends(cfg: Config, w: World, original: Object, inst: Object, call: Call)
    ensures SendsOnly(w, SendStatus(cfg, w, original, inst, call).world, Some(inst))
  {
    AwaitSends(w, call.before, Some(inst));
  }

  lemma SubroutineSends(cfg: Config, w: World, inst: Object, i: nat, step: Step, now: int, s: Option<Object>)
    requires i < |cfg.subroutines|
    ensures SendsOnly(w, ReconcileSubroutine(cfg, w, inst, i, step, now).world, s)
  {
    var verb := VerbFor(cfg.subroutines[i], inst);
    var w1 := if verb.Skip? then w else Log(w, Ran(i, verb, step.outcome));
    AwaitSends(w1, step.patch.before, s);
    SendsTrans(w, w1, Await(w1, step.patch.before), s);
  }

  lemma GateSends(cfg: Config, w: World, inst: Object, deletion: bool, acc: int, call: Call, s: Option<Object>)
    ensures SendsOnly(w, RemoveGate(cfg, w, inst, deletion, acc, call).world, s)
  {
    AwaitSends(w, call.before, s);
  }

  lemma RefreshSends(cfg: Config, w: World, inst: Object, acc: int, call: Call, s: Option<Object>)
    ensures SendsOnly(w, RemoveRefreshLabel(cfg, w, inst, acc, call).world, s)
  {
    AwaitSends(w, call.before, s);
  }

  lemma AddSends(cfg: Config, w: World, inst: Object, call: Call, s: Option<Object>)
    ensures SendsOnly(w, AddFinalizers(cfg, w, inst, call).world, s)
  {
    AwaitSends(w, call.before, s);
  }

  // ---------------------------------------------------------------- the run

  lemma ExtendSound(
    cfg: Config, ins: Inputs, start: Start, w: World, w': World, from: nat, s: Option<Object>)
    requires SentSound(cfg, ins, start, w.trace, from) && SendsOnly(w, w', s) && from <= |w.trace|
    requires s.Some? ==> SoundInstance(cfg, ins, start, s.value)
    ensures SentSound(cfg, ins, start, w'.trace, from)
  {
    forall k | from <= k < |w'.trace| && w'.trace[k].StatusSent?
      ensures SoundInstance(cfg, ins, start, w'.trace[k].inst)
    {
      if k < |w.trace| {
        assert w'.trace[k] == w.trace[k];
      }
    }
  }

  /** The instance after `k` turns. */
  ghost predicate Reached(cfg: Config, ins: Inputs, start: Start, inst: Object, k: nat, acc: int)
    requires k <= |cfg.subroutines|
  {
    && Underway(cfg, ins, start, inst)
    && acc >= 0
    && (acc == 0 ==> AllTold(cfg, ins, start, inst.status.conditions, k))
    && (DistinctNames(cfg) ==> forall j :: k <= j < |cfg.subroutines| ==>
          Find(inst.status.conditions, CName(cfg, j)) == Find(start.conditions, CName(cfg, j)))
  }

  ghost predicate Underway(cfg: Config, ins: Inputs, start: Start, inst: Object) {
    && inst.generation == start.generation
    && inst.status.initializers == start.initializers
    && !inst.deleting
    && ForeignKept(cfg, ins, start.conditions, inst.status.conditions)
    && Find(inst.status.conditions, READY).Some?
  }

  lemma TurnReached(cfg: Config, ins: Inputs, start: Start, k: nat, w: World, inst: Object, acc: int)
    requires k < |cfg.subroutines| && cfg.conditions && WellBehaved(cfg, ins)
    requires Reached(cfg, ins, start, inst, k, acc)
    ensures var end := Turn(cfg, ins, false, k, w, inst);
            && Underway(cfg, ins, start, end.inst)
            && (end.error.None? ==> Reached(cfg, ins, start, end.inst, k + 1, Fold(acc, end.requeueAfter)))
  {
    var end := Turn(cfg, ins, false, k, w, inst);
    TurnConditions(cfg, ins, k, w, inst);
    TurnInstance(cfg, ins, k, w, inst);
    Gates.EditsKeepLists(ProcessingIfMissing(cfg, inst, cfg.subroutines[k].name, false, ins.now).status,
      StepAt(ins, k).outcome.edits, ins.now);
    NamesApart(cfg, k, k);
    forall j | 0 <= j < |cfg.subroutines| && j != k && DistinctNames(cfg)
      ensures Find(end.inst.status.conditions, CName(cfg, j)) == Find(inst.status.conditions, CName(cfg, j))
    {
      NamesApart(cfg, j, k);
    }
    if end.error.None? && Fold(acc, end.requeueAfter) == 0 {
      forall j | 0 <= j < k ensures Told(cfg, ins, start, end.inst.status.conditions, j) {
        assert Told(cfg, ins, start, inst.status.conditions, j);
      }
    }
  }

  lemma NotReadySound(cfg: Config, ins: Inputs, start: Start, cs: seq<Condition>, gen: int, now: int)
    requires ForeignKept(cfg, ins, start.conditions, cs)
    ensures Sound(cfg, ins, start, SetCondition(cs, ReadyCondition(CondFalse, gen), now))
    ensures Find(SetCondition(cs, ReadyCondition(CondFalse, gen), now), READY).Some?
  {
    var c := ReadyCondition(CondFalse, gen);
    SetForeign(cfg, ins, cs, c, now);
    SetThenFind(cs, c, now, READY);
  }

  /** An error run sends Ready = False. */
  lemma StopSound(
    cfg: Config, ins: Inputs, start: Start, original: Object, i: nat, end: SubroutineEnd, acc: int, from: nat)
    requires i < |cfg.subroutines| && end.error.Some? && cfg.conditions
    requires Underway(cfg, ins, start, end.inst)
    requires from <= |end.world.trace| && SentSound(cfg, ins, start, end.world.trace, from)
    ensures SentSound(cfg, ins, start, StopRun(cfg, ins, original, false, i, end, acc).world.trace, from)
  {
    var name, gen, now := cfg.subroutines[i].name, end.inst.generation, ins.now;
    var failed := SetSubroutine(cfg, end.inst, name, false, acc, end.error, now);
    var unready := SetReady(cfg, failed, CondFalse, now);
    var final := if end.retry then unready else MarkFinal(cfg, unready, CondFalse, now, ins.jitter);
    NamesApart(cfg, i, i);
    SetForeign(cfg, ins, end.inst.status.conditions, SubroutineCondition(name, false, gen, acc, end.error), now);
    NotReadySound(cfg, ins, start, failed.status.conditions, gen, now);
    NotReadySound(cfg, ins, start, unready.status.conditions, gen, now);
    var w := if end.retry then end.world else Log(end.world, MarkedFinal);
    var sent := SendStatus(cfg, w, original, final, ins.status);
    SendStatusSends(cfg, w, original, final, ins.status);
    SendsTrans(end.world, w, sent.world, Some(final));
    ExtendSound(cfg, ins, start, end.world, sent.world, from, Some(final));
  }

  /** A turn sends nothing. */
  lemma TurnSound(cfg: Config, ins: Inputs, start: Start, k: nat, w: World, inst: Object, from: nat)
    requires k < |cfg.subroutines| && from <= |w.trace| && SentSound(cfg, ins, start, w.trace, from)
    ensures var w' := Turn(cfg, ins, false, k, w, inst).world;
            from <= |w'.trace| && SentSound(cfg, ins, start, w'.trace, from)
  {
    var prepared := ProcessingIfMissing(cfg, inst, cfg.subroutines[k].name, false, ins.now);
    SubroutineSends(cfg, w, prepared, k, StepAt(ins, k), ins.now, None);
    ExtendSound(cfg, ins, start, w, Turn(cfg, ins, false, k, w, inst).world, from, None);
  }

  lemma {:induction false} LoopSound(
    cfg: Config, ins: Inputs, start: Start, original: Object, k: nat, w: World, inst: Object, acc: int, from: nat)
    requires k <= |cfg.subroutines| && cfg.conditions && WellBehaved(cfg, ins)
    requires Reached(cfg, ins, start, inst, k, acc)
    requires from <= |w.trace| && SentSound(cfg, ins, start, w.trace, from)
    ensures var end := RunSubroutines(cfg, ins, original, false, k, w, inst, acc);
            && from <= |WorldOf(end).trace|
            && SentSound(cfg, ins, start, WorldOf(end).trace, from)
            && (end.Completed? ==> Reached(cfg, ins, start, end.inst, |cfg.subroutines|, end.requeueAfter))
    decreases |cfg.subroutines| - k
  {
    LoopExtends(cfg, ins, original, false, k, w, inst, acc);
    if k < |cfg.subroutines| {
      var end := Turn(cfg, ins, false, k, w, inst);
      LoopStep(cfg, ins, original, false, k, w, inst, acc);
      TurnReached(cfg, ins, start, k, w, inst, acc);
      TurnSound(cfg, ins, start, k, w, inst, from);
      if end.error.Some? {
        StopSound(cfg, ins, start, original, k, end, acc, from);
      } else {
        LoopSound(cfg, ins, start, original, k + 1, end.world, end.inst, Fold(acc, end.requeueAfter), from);
      }
    }
  }

  /** Concluding: Ready becomes true through the slice passed by value only because it is
      already in the list. */
  lemma ConcludeSound(cfg: Config, ins: Inputs, start: Start, inst: Object, acc: int)
    requires cfg.conditions && Reached(cfg, ins, start, inst, |cfg.subroutines|, acc)
    ensures Sound(cfg, ins, start, Conclude(cfg, inst, acc, ins).status.conditions)
  {
    var cs := inst.status.conditions;
    var c := ReadyCondition(if acc == 0 then CondTrue else CondFalse, start.generation);
    var cs' := SetCondition(cs, c, ins.now);
    assert Conclude(cfg, inst, acc, ins).status.conditions == cs';
    SetForeign(cfg, ins, cs, c, ins.now);
    SetThenFind(cs, c, ins.now, READY);
    if acc == 0 {
      forall j | 0 <= j < |cfg.subroutines| ensures Told(cfg, ins, start, cs', j) {
        NamesApart(cfg, j, j);
        SetThenFind(cs, c, ins.now, CName(cfg, j));
        assert Told(cfg, ins, start, cs, j);
      }
    }
  }

  lemma FinishSound(
    cfg: Config, ins: Inputs, start: Start, original: Object, w: World, inst: Object, acc: int, from: nat)
    requires cfg.conditions && Reached(cfg, ins, start, inst, |cfg.subroutines|, acc)
    requires from <= |w.trace| && SentSound(cfg, ins, start, w.trace, from)
    ensures SentSound(cfg, ins, start, FinishRun(cfg, ins, original, false, w, inst, acc).world.trace, from)
  {
    var concluded := Conclude(cfg, inst, acc, ins);
    ConcludeSound(cfg, ins, start, inst, acc);
    var marked := if acc == 0 then Log(w, MarkedFinal) else w;
    var gate := RemoveGate(cfg, marked, concluded, false, acc, ins.removal);
    GateSends(cfg, marked, concluded, false, acc, ins.removal, None);
    Gates.WithoutAbsent(start.initializers, cfg.initializer);
    ExtendSound(cfg, ins, start, w, marked, from, None);
    ExtendSound(cfg, ins, start, marked, gate.world, from, None);
    if gate.error.None? {
      assert SoundInstance(cfg, ins, start, gate.inst);
      var sent := SendFinalStatus(cfg, gate.world, original, gate.inst, ins.status);
      AwaitSends(gate.world, ins.status.before, Some(gate.inst));
      SendStatusSends(cfg, gate.world, original, gate.inst, ins.status);
      ExtendSound(cfg, ins, start, gate.world, sent.world, from, Some(gate.inst));
      if sent.error.None? {
        RefreshSends(cfg, sent.world, sent.inst, acc, ins.refresh, None);
        ExtendSound(cfg, ins, start, sent.world,
          RemoveRefreshLabel(cfg, sent.world, sent.inst, acc, ins.refresh).world, from, None);
      }
    }
  }

  lemma {:induction false} AwaitKeepsStatus(w: World, nudges: seq<Nudge>)
    ensures Await(w, nudges).stored.Some? ==>
              && w.stored.Some?
              && Await(w, nudges).stored.value.status == w.stored.value.status
              && (w.stored.value.deleting ==> Await(w, nudges).stored.value.deleting)
    decreases |nudges|
  {
    if nudges != [] && w.stored.Some? {
      AwaitKeepsStatus(Put(w, Keep(Nudged(w.stored.value, nudges[0]))), nudges[1..]);
    }
  }

  lemma AddKeepsStatus(cfg: Config, w: World, o: Object, call: Call)
    requires w.stored == Some(o)
    ensures var at := AddFinalizers(cfg, w, o, call);
            at.error.None? ==> at.inst.status == o.status && at.inst.deleting == o.deleting
  {
    AwaitKeepsStatus(w, call.before);
    AwaitIsMild(w, call.before);
    Finalizers.WithAllFinalizersMembers(o.finalizers, cfg.subroutines);
  }

  /** What the run on `o` starts from, after its finalizers are in place. */
  function StartOf(cfg: Config, ins: Inputs, w: World, o: Object): Start {
    Start(AddFinalizers(cfg, w, o, ins.add).inst.generation, o.status.conditions, o.status.initializers)
  }

  lemma LoadedReaches(cfg: Config, ins: Inputs, w: World, o: Object)
    requires w.stored == Some(o) && !o.deleting && cfg.conditions
    requires AddFinalizers(cfg, w, o, ins.add).error.None?
    ensures var inst := ReadyUnknownIfMissing(cfg, AddFinalizers(cfg, w, o, ins.add).inst, ins.now);
            Reached(cfg, ins, StartOf(cfg, ins, w, o), inst, 0, 0)
  {
    var start := StartOf(cfg, ins, w, o);
    var inst, c := AddFinalizers(cfg, w, o, ins.add).inst, ReadyCondition(CondUnknown, start.generation);
    AddKeepsStatus(cfg, w, o, ins.add);
    SetForeign(cfg, ins, start.conditions, c, ins.now);
    SetThenFind(start.conditions, c, ins.now, READY);
    forall j | 0 <= j < |cfg.subroutines|
      ensures Find(SetIfMissing(start.conditions, c, ins.now), CName(cfg, j)) == Find(start.conditions, CName(cfg, j))
    {
      NamesApart(cfg, j, j);
      SetThenFind(start.conditions, c, ins.now, CName(cfg, j));
    }
  }

  /** Ready is sound. In a run on an object that is not being deleted, with well-behaved
      subroutines, every status the run sends keeps one condition per type and all foreign
      conditions; and if it says Ready = True then every subroutine of the configuration
      ended in this run without error and without asking to be called again, and, where no
      two subroutines share a name, the list says `<name>_Ready` = True for each that did
      not answer with a negative delay, all at the generation the run worked on. */
  lemma ReadyIsSound(cfg: Config, ins: Inputs, w: World, o: Object, k: nat)
    requires w.stored == Some(o) && !o.deleting && cfg.conditions
    requires WellBehaved(cfg, ins)
    requires |w.trace| <= k < |RunLoaded(cfg, ins, w, o).world.trace|
    requires RunLoaded(cfg, ins, w, o).world.trace[k].StatusSent?
    ensures SoundInstance(cfg, ins, StartOf(cfg, ins, w, o), RunLoaded(cfg, ins, w, o).world.trace[k].inst)
  {
    var from, start := |w.trace|, StartOf(cfg, ins, w, o);
    var added := AddFinalizers(cfg, w, o, ins.add);
    AddSends(cfg, w, o, ins.add, None);
    AddKeepsStatus(cfg, w, o, ins.add);
    ExtendSound(cfg, ins, start, w, added.world, from, None);
    if added.error.None? && ins.prepare.None? {
      var inst := ReadyUnknownIfMissing(cfg, added.inst, ins.now);
      LoadedReaches(cfg, ins, w, o);
      LoopSound(cfg, ins, start, o, 0, added.world, inst, 0, from);
      var end := RunSubroutines(cfg, ins, o, false, 0, added.world, inst, 0);
      if end.Completed? {
        FinishSound(cfg, ins, start, o, end.world, end.inst, end.requeueAfter, from);
      }
    }
  }

  /** With no configured initializer pending, a Ready = True that the server accepts is about
      the very generation of the object it is written on. */
  lemma ReadyIsCurrent(cfg: Config, ins: Inputs, w: World, o: Object, k: nat)
    requires w.stored == Some(o) && !o.deleting && cfg.conditions
    requires WellBehaved(cfg, ins) && !InitializerPending(cfg, o.status.initializers)
    requires |w.trace| <= k < |RunLoaded(cfg, ins, w, o).world.trace|
    requires var e := RunLoaded(cfg, ins, w, o).world.trace[k];
             && e.StatusSent? && e.acked
             && Find(e.inst.status.conditions, READY).Some?
             && Find(e.inst.status.conditions, READY).value.status.CondTrue?
    ensures var e, start := RunLoaded(cfg, ins, w, o).world.trace[k], StartOf(cfg, ins, w, o);
            && e.onto.Some? && e.onto.value.generation == start.generation
            && Says(e.inst.status.conditions, READY, CondTrue, e.onto.value.generation)
            && AllTold(cfg, ins, start, e.inst.status.conditions, |cfg.subroutines|)
  {
    ReadyIsSound(cfg, ins, w, o, k);
    var ahead := o.status.observedGeneration - o.generation;
    var slack := if ahead > 0 then ahead else 0;
    Generations.LoadedTimely(cfg, ins, w, o, |w.trace|, slack);
    assert Generations.TimelyEvent(RunLoaded(cfg, ins, w, o).world.trace[k], slack);
  }
}
