/** One reconcile run, as a function of the stored object, of what the subroutines answer,
    of what others do meanwhile and of how the server treats each call. */
module Lifecycle {
  import opened Options
  import opened Conditions
  import opened Subroutines
  import opened Cluster
  import opened Spread

  /** An empty terminator or initializer means that none is configured. */
  datatype Config = Config(
    subroutines: seq<Subroutine>,
    readOnly: bool,
    conditions: bool,
    spreader: bool,
    border: int,
    initializer: string,
    terminator: string)

  /** The configured initializer is still to be taken off. */
  predicate InitializerPending(cfg: Config, initializers: seq<string>) {
    cfg.initializer != "" && cfg.initializer in initializers
  }

  /** The configured terminator is still to be taken off. */
  predicate TerminatorPending(cfg: Config, terminators: seq<string>) {
    cfg.terminator != "" && cfg.terminator in terminators
  }

  /** A subroutine's answer and the finalizer patch that may follow it. */
  datatype Step = Step(outcome: Outcome, patch: Call)

  /** `steps` are in calling order; `removal` is the patch that takes the terminator or
      the initializer off. */
  datatype Inputs = Inputs(
    now: int,
    jitter: nat,
    get: Call,
    add: Call,
    prepare: Option<OperatorError>,
    steps: seq<Step>,
    removal: Call,
    status: Call,
    refresh: Call)

  datatype RunError = ApiFailure(error: ApiError) | SubroutineFailure(message: string)

  datatype Result = Result(requeueAfter: int, error: Option<RunError>)

  datatype Done = Done(world: World, result: Result)

  function StepAt(ins: Inputs, k: nat): Step {
    if k < |ins.steps| then ins.steps[k] else Step(Outcome(0, None, []), Call([], Served))
  }

  // ---------------------------------------------------------------- finalizers

  function WithFinalizers(fs: seq<string>, added: seq<string>): seq<string>
    decreases |added|
  {
    if added == [] then fs
    else WithFinalizers(if added[0] in fs then fs else fs + [added[0]], added[1..])
  }

  function WithAllFinalizers(fs: seq<string>, subs: seq<Subroutine>): seq<string>
    decreases |subs|
  {
    if subs == [] then fs
    else WithAllFinalizers(WithFinalizers(fs, subs[0].finalizers), subs[1..])
  }

  function WithoutFinalizers(fs: seq<string>, removed: seq<string>): seq<string>
    decreases |removed|
  {
    if removed == [] then fs else WithoutFinalizers(Without(fs, removed[0]), removed[1..])
  }

  predicate Contains(fs: seq<string>, some: seq<string>) {
    exists f :: f in some && f in fs
  }

  /** A step that may fail with an API error: the world, the instance it leaves, the error. */
  datatype Attempt = Attempt(world: World, inst: Object, error: Option<ApiError>)

  function Answered(w: World, reply: Reply, inst: Object): Attempt {
    match reply
    case Replied(o) => Attempt(w, o, None)
    case Failed(e) => Attempt(w, inst, Some(e))
  }

  function AddFinalizers(cfg: Config, w0: World, inst: Object, call: Call): Attempt {
    var w := Await(w0, call.before);
    var modified := inst.(finalizers := WithAllFinalizers(inst.finalizers, cfg.subroutines));
    if cfg.readOnly || inst.deleting || modified == inst then Attempt(w, inst, None)
    else
      var (w', reply) := PatchObject(w, MergeFrom(inst, modified), call.fault);
      Answered(w', reply, modified)
  }

  function RemoveFinalizers(cfg: Config, w: World, inst: Object, removed: seq<string>, fault: Fault): Attempt {
    var modified := inst.(finalizers := WithoutFinalizers(inst.finalizers, removed));
    if cfg.readOnly || modified == inst then Attempt(w, inst, None)
    else
      var (w', reply) := PatchObject(w, MergeFrom(inst, modified), fault);
      Answered(w', reply, modified)
  }

  // ---------------------------------------------------------------- one subroutine

  function VerbFor(sub: Subroutine, inst: Object): Verb {
    if sub.isTerminator && inst.deleting then Terminate
    else if inst.deleting && Contains(inst.finalizers, sub.finalizers) then Finalize
    else if sub.isInitializer && !inst.deleting then Initialize
    else if !inst.deleting then Process
    else Skip
  }

  function Edited(s: Status, edits: seq<Edit>, now: int): Status
    decreases |edits|
  {
    if edits == [] then s else Edited(ApplyEdit(s, edits[0], now), edits[1..], now)
  }

  function ApiErrorText(e: ApiError): string {
    "failed to update instance: " + match e
    case NotFound => "not found"
    case Conflict => "conflict"
    case Invalid => "invalid"
    case Unavailable => "unavailable"
  }

  datatype SubroutineEnd = SubroutineEnd(
    world: World, inst: Object, requeueAfter: int, retry: bool, error: Option<string>)

  function ReconcileSubroutine(cfg: Config, w0: World, inst0: Object, i: nat, step: Step, now: int): SubroutineEnd
    requires i < |cfg.subroutines|
  {
    var sub, verb := cfg.subroutines[i], VerbFor(cfg.subroutines[i], inst0);
    var out := step.outcome;
    if verb.Skip? then SubroutineEnd(Await(w0, step.patch.before), inst0, 0, false, None)
    else
      var w := Await(Log(w0, Ran(i, verb, out)), step.patch.before);
      var inst := inst0.(status := Edited(inst0.status, out.edits, now));
      if out.error.Some? then
        SubroutineEnd(w, inst, out.requeueAfter, out.error.value.Retry(), out.Cause())
      else if verb.Finalize? && out.requeueAfter == 0 then
        var a := RemoveFinalizers(cfg, w, inst, sub.finalizers, step.patch.fault);
        if a.error.Some? then SubroutineEnd(a.world, a.inst, 0, true, Some(ApiErrorText(a.error.value)))
        else SubroutineEnd(a.world, a.inst, 0, false, None)
      else SubroutineEnd(w, inst, out.requeueAfter, false, None)
  }

  // ---------------------------------------------------------------- conditions and status

  function WithConditions(inst: Object, cs: seq<Condition>): Object {
    inst.(status := inst.status.(conditions := cs))
  }

  function SetReady(cfg: Config, inst: Object, status: ConditionStatus, now: int): Object {
    if !cfg.conditions then inst
    else WithConditions(inst, SetCondition(inst.status.conditions, ReadyCondition(status, inst.generation), now))
  }

  function ReadyUnknownIfMissing(cfg: Config, inst: Object, now: int): Object {
    if !cfg.conditions then inst
    else WithConditions(inst, SetIfMissing(inst.status.conditions, ReadyCondition(CondUnknown, inst.generation), now))
  }

  function ProcessingIfMissing(cfg: Config, inst: Object, name: string, isFinalize: bool, now: int): Object {
    if !cfg.conditions then inst
    else WithConditions(inst,
      SetIfMissing(inst.status.conditions, ProcessingCondition(name, isFinalize, inst.generation), now))
  }

  function SetSubroutine(
    cfg: Config, inst: Object, name: string, isFinalize: bool, requeueAfter: int, err: Option<string>, now: int): Object
  {
    if !cfg.conditions then inst
    else WithConditions(inst, SetCondition(inst.status.conditions,
      SubroutineCondition(name, isFinalize, inst.generation, requeueAfter, err), now))
  }

  /** The next look is put off, and the generation is noted. */
  function PutOff(cfg: Config, inst: Object, now: int, jitter: nat): Object {
    if cfg.spreader && !inst.deleting
    then inst.(status := inst.status.(nextReconcile := now + Pause(cfg.border, jitter),
                                      observedGeneration := inst.generation))
    else inst
  }

  /** Marking a resource as final: it is spread, and Ready is set through a slice passed by
      value. */
  function MarkFinal(cfg: Config, inst: Object, status: ConditionStatus, now: int, jitter: nat): Object {
    var spread := PutOff(cfg, inst, now, jitter);
    if !cfg.conditions then spread
    else WithConditions(spread,
      SetIfPresent(spread.status.conditions, ReadyCondition(status, spread.generation), now))
  }

  /** The status is sent only when it differs from what the run started with. */
  function SendStatus(cfg: Config, w0: World, original: Object, inst: Object, call: Call): Attempt {
    var w := Await(w0, call.before);
    if cfg.readOnly || inst.status == original.status then Attempt(w, inst, None)
    else
      var (w', reply) := UpdateStatus(w, inst, call.fault);
      Answered(w', reply, inst)
  }

  // ---------------------------------------------------------------- the loop over the subroutines

  /** Finalization runs in the reverse order of processing. */
  function Position(cfg: Config, deletion: bool, k: nat): (i: nat)
    requires k < |cfg.subroutines|
    ensures i < |cfg.subroutines|
  {
    if deletion then |cfg.subroutines| - 1 - k else k
  }

  datatype LoopEnd =
    | Completed(world: World, inst: Object, requeueAfter: int)
    | Stopped(done: Done)

  function Fold(acc: int, requeueAfter: int): int {
    if requeueAfter > 0 && (requeueAfter < acc || acc == 0) then requeueAfter else acc
  }

  /** A subroutine ended with an error: the run ends here. */
  function StopRun(
    cfg: Config, ins: Inputs, original: Object, deletion: bool, i: nat, end: SubroutineEnd, acc: int): Done
    requires i < |cfg.subroutines| && end.error.Some?
  {
    var failed := SetSubroutine(cfg, end.inst, cfg.subroutines[i].name, deletion, acc, end.error, ins.now);
    var unready := SetReady(cfg, failed, CondFalse, ins.now);
    var final := if end.retry then unready else MarkFinal(cfg, unready, CondFalse, ins.now, ins.jitter);
    var w := if end.retry then end.world else Log(end.world, MarkedFinal);
    var sent := SendStatus(cfg, w, original, final, ins.status);
    Done(sent.world,
      if end.retry then Result(end.requeueAfter, Some(SubroutineFailure(end.error.value))) else Result(0, None))
  }

  /** One turn of the loop, the conditions of its subroutine included. */
  function Turn(cfg: Config, ins: Inputs, deletion: bool, k: nat, w: World, inst: Object): SubroutineEnd
    requires k < |cfg.subroutines|
  {
    var i := Position(cfg, deletion, k);
    var name := cfg.subroutines[i].name;
    var prepared := ProcessingIfMissing(cfg, inst, name, deletion, ins.now);
    var end := ReconcileSubroutine(cfg, w, prepared, i, StepAt(ins, k), ins.now);
    if end.error.None? && end.requeueAfter == 0
    then end.(inst := SetSubroutine(cfg, end.inst, name, deletion, 0, None, ins.now))
    else end
  }

  function RunSubroutines(
    cfg: Config, ins: Inputs, original: Object, deletion: bool, k: nat, w: World, inst: Object, acc: int): LoopEnd
    requires k <= |cfg.subroutines|
    decreases |cfg.subroutines| - k
  {
    if k == |cfg.subroutines| then Completed(w, inst, acc)
    else
      var end := Turn(cfg, ins, deletion, k, w, inst);
      if end.error.Some? then Stopped(StopRun(cfg, ins, original, deletion, Position(cfg, deletion, k), end, acc))
      else RunSubroutines(cfg, ins, original, deletion, k + 1, end.world, end.inst, Fold(acc, end.requeueAfter))
  }

  // ---------------------------------------------------------------- after the loop

  function RemoveTerminator(w: World, inst: Object, terminator: string, fault: Fault): Attempt {
    var modified := inst.(status := inst.status.(terminators := Without(inst.status.terminators, terminator)));
    if modified == inst then Attempt(w, inst, None)
    else
      var (w', reply) := PatchStatus(w, MergeFrom(inst, modified), fault);
      Answered(w', reply, modified)
  }

  function RemoveInitializer(w: World, inst: Object, initializer: string, fault: Fault): Attempt {
    var modified := inst.(status := inst.status.(initializers := Without(inst.status.initializers, initializer)));
    if modified == inst then Attempt(w, inst, None)
    else
      var (w', reply) := PatchStatus(w, MergeFrom(inst, modified), fault);
      Answered(w', reply, modified)
  }

  /** A clean run takes the configured terminator or initializer off the status. The patch
      reloads the instance; the run's condition list is put back over it. */
  function RemoveGate(cfg: Config, w0: World, inst: Object, deletion: bool, requeueAfter: int, call: Call): Attempt {
    var w := Await(w0, call.before);
    if requeueAfter != 0 then Attempt(w, inst, None)
    else
      var a := if deletion
        then
          if cfg.terminator == "" then Attempt(w, inst, None)
          else RemoveTerminator(w, inst, cfg.terminator, call.fault)
        else
          if cfg.initializer == "" then Attempt(w, inst, None)
          else RemoveInitializer(w, inst, cfg.initializer, call.fault);
      if a.error.None? && cfg.conditions then a.(inst := WithConditions(a.inst, inst.status.conditions)) else a
  }

  /** A failed patch of the refresh label ends the run without error and without requeue. */
  function RemoveRefreshLabel(cfg: Config, w0: World, inst: Object, requeueAfter: int, call: Call): Done {
    var w := Await(w0, call.before);
    if !cfg.spreader || inst.deleting || REFRESH_LABEL !in inst.labels then Done(w, Result(requeueAfter, None))
    else
      var modified := inst.(labels := inst.labels - {REFRESH_LABEL});
      var (w', reply) := PatchObject(w, MergeFrom(inst, modified), call.fault);
      Done(w', if reply.Replied? then Result(requeueAfter, None) else Result(0, None))
  }

  function Conclude(cfg: Config, inst: Object, acc: int, ins: Inputs): Object {
    if acc == 0 then MarkFinal(cfg, inst, CondTrue, ins.now, ins.jitter) else SetReady(cfg, inst, CondFalse, ins.now)
  }

  /** An object that is about to disappear gets no status any more. */
  function SendFinalStatus(cfg: Config, w0: World, original: Object, inst: Object, call: Call): Attempt {
    if inst.deleting && inst.finalizers == [] then Attempt(Await(w0, call.before), inst, None)
    else SendStatus(cfg, w0, original, inst, call)
  }

  function FinishRun(
    cfg: Config, ins: Inputs, original: Object, deletion: bool, w: World, inst: Object, acc: int): Done
  {
    var marked := if acc == 0 then Log(w, MarkedFinal) else w;
    var gate := RemoveGate(cfg, marked, Conclude(cfg, inst, acc, ins), deletion, acc, ins.removal);
    if gate.error.Some? then Done(gate.world, Result(acc, Some(ApiFailure(gate.error.value))))
    else
      var sent := SendFinalStatus(cfg, gate.world, original, gate.inst, ins.status);
      if sent.error.Some? then Done(sent.world, Result(acc, Some(ApiFailure(sent.error.value))))
      else RemoveRefreshLabel(cfg, sent.world, sent.inst, acc, ins.refresh)
  }

  // ---------------------------------------------------------------- the run

  function RunLoaded(cfg: Config, ins: Inputs, w0: World, o: Object): Done {
    var added := AddFinalizers(cfg, w0, o, ins.add);
    if added.error.Some? then Done(added.world, Result(0, Some(ApiFailure(added.error.value))))
    else
      var inst := ReadyUnknownIfMissing(cfg, added.inst, ins.now);
      if ins.prepare.Some? then
        Done(added.world, Result(0, if ins.prepare.value.Retry()
          then Some(SubroutineFailure(ins.prepare.value.cause.value)) else None))
      else
        match RunSubroutines(cfg, ins, o, o.deleting, 0, added.world, inst, 0)
        case Stopped(done) => done
        case Completed(w, inst', acc) => FinishRun(cfg, ins, o, o.deleting, w, inst', acc)
  }

  /** The spreader has nothing to do for this object now. */
  predicate Quiet(cfg: Config, o: Object, now: int) {
    cfg.spreader && !o.deleting && !ReconcileRequired(o, now)
  }

  function Reconcile(cfg: Config, w0: World, ins: Inputs): Done {
    var w := Await(w0, ins.get.before);
    if !ins.get.fault.Served? then
      Done(w, Result(0, if ins.get.fault.error.NotFound? then None else Some(ApiFailure(ins.get.fault.error))))
    else if w.stored.None? then Done(w, Result(0, None))
    else if Quiet(cfg, w.stored.value, ins.now) then
      Done(w, Result(w.stored.value.status.nextReconcile - ins.now, None))
    else RunLoaded(cfg, ins, w, w.stored.value)
  }

  // ---------------------------------------------------------------- histories

  datatype Action = Run(ins: Inputs) | Interfere(change: Change)

  function Act(cfg: Config, w: World, a: Action): World {
    match a
    case Run(ins) => Reconcile(cfg, w, ins).world
    case Interfere(c) => Disturb(w, c)
  }

  function Play(cfg: Config, w: World, h: seq<Action>): World
    decreases |h|
  {
    if h == [] then w else Play(cfg, Act(cfg, w, h[0]), h[1..])
  }
}
