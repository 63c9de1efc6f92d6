/** The stored object, the API server's verbs on it, and everybody else who changes it. */
module Cluster {
  import opened Options
  import opened Conditions
  import opened Subroutines

  const REFRESH_LABEL := "platform-mesh.io/refresh-reconcile"

  /** `data` stands for the application's own status fields. */
  datatype Status = Status(
    conditions: seq<Condition>,
    data: int,
    initializers: seq<string>,
    terminators: seq<string>,
    observedGeneration: int,
    nextReconcile: int)

  datatype Object = Object(
    version: nat,
    generation: int,
    deleting: bool,
    finalizers: seq<string>,
    labels: set<string>,
    status: Status)

  datatype ApiError = NotFound | Conflict | Invalid | Unavailable

  /** How the server treats one call: it serves it, refuses it untouched, or applies it
      and loses the reply. */
  datatype Fault = Served | Refused(error: ApiError) | ReplyLost(error: ApiError)

  /** What others do to the object while a run is under way. */
  datatype Nudge = ChangeSpec | MarkDeleted | AddLabel(key: string) | Touch

  /** One call point of a run: what others do before it, and how the call is treated. */
  datatype Call = Call(before: seq<Nudge>, fault: Fault)

  datatype Reply = Replied(obj: Object) | Failed(error: ApiError)

  /** What happened, in order. `Stored` follows every change of the stored object; a status
      is sent from an instance onto whatever is stored then. */
  datatype Event =
    | Ran(sub: nat, verb: Verb, outcome: Outcome)
    | Stored(state: Option<Object>)
    | Patched(patch: Patch, acked: bool)
    | StatusPatched(patch: Patch, acked: bool)
    | StatusSent(inst: Object, onto: Option<Object>, acked: bool)
    | MarkedFinal

  datatype World = World(stored: Option<Object>, trace: seq<Event>)

  // ---------------------------------------------------------------- merge patches

  /** A JSON merge patch: a list that differs is replaced whole. */
  datatype Patch = Patch(
    finalizers: Option<seq<string>>,
    labels: Option<LabelPatch>,
    conditions: Option<seq<Condition>>,
    data: Option<int>,
    initializers: Option<seq<string>>,
    terminators: Option<seq<string>>,
    observedGeneration: Option<int>,
    nextReconcile: Option<int>)

  /** An emptied label map is sent as null and drops every label. */
  datatype LabelPatch = DropLabels | EditLabels(removed: set<string>, added: set<string>)

  function Diff<T(==)>(original: T, modified: T): Option<T> {
    if original == modified then None else Some(modified)
  }

  function Or<T>(patch: Option<T>, stored: T): T {
    if patch.Some? then patch.value else stored
  }

  function MergeFrom(original: Object, modified: Object): Patch {
    Patch(
      Diff(original.finalizers, modified.finalizers),
      if original.labels == modified.labels then None
      else if modified.labels == {} then Some(DropLabels)
      else Some(EditLabels(original.labels - modified.labels, modified.labels - original.labels)),
      Diff(original.status.conditions, modified.status.conditions),
      Diff(original.status.data, modified.status.data),
      Diff(original.status.initializers, modified.status.initializers),
      Diff(original.status.terminators, modified.status.terminators),
      Diff(original.status.observedGeneration, modified.status.observedGeneration),
      Diff(original.status.nextReconcile, modified.status.nextReconcile))
  }

  /** A patch of the object itself; the status part is ignored. */
  function ApplyMeta(o: Object, p: Patch): Object {
    o.(finalizers := Or(p.finalizers, o.finalizers),
       labels := match p.labels
                 case None => o.labels
                 case Some(DropLabels) => {}
                 case Some(EditLabels(removed, added)) => o.labels - removed + added)
  }

  /** A patch of the status subresource; everything else is ignored. */
  function ApplyStatus(o: Object, p: Patch): Object {
    o.(status := Status(
      Or(p.conditions, o.status.conditions),
      Or(p.data, o.status.data),
      Or(p.initializers, o.status.initializers),
      Or(p.terminators, o.status.terminators),
      Or(p.observedGeneration, o.status.observedGeneration),
      Or(p.nextReconcile, o.status.nextReconcile)))
  }

  // ---------------------------------------------------------------- the server

  /** The object as written: a change gets a new version. */
  function Bump(o: Object, n: Object): Object {
    if n == o then o else n.(version := o.version + 1)
  }

  /** A deleting object without finalizers is gone. */
  function Keep(o: Object): Option<Object> {
    if o.deleting && o.finalizers == [] then None else Some(o)
  }

  function Put(w: World, stored: Option<Object>): World {
    if stored == w.stored then w else World(stored, w.trace + [Stored(stored)])
  }

  function Log(w: World, e: Event): World {
    w.(trace := w.trace + [e])
  }

  /** One write request: `check` is the server's verdict on it, `n` the object it asks for. */
  function Write(w: World, check: Option<ApiError>, n: Object, fault: Fault): (World, Reply)
    requires w.stored.Some?
  {
    if fault.Refused? then (w, Failed(fault.error))
    else if check.Some? then (w, Failed(check.value))
    else
      var o := Bump(w.stored.value, n);
      (Put(w, Keep(o)), if fault.Served? then Replied(o) else Failed(fault.error))
  }

  function Gone(w: World, fault: Fault): (World, Reply) {
    (w, Failed(if fault.Refused? then fault.error else NotFound))
  }

  /** The server refuses new finalizers on a deleting object. */
  function CheckFinalizers(o: Object, n: Object): Option<ApiError> {
    if o.deleting && exists f :: f in n.finalizers && f !in o.finalizers then Some(Invalid) else None
  }

  function PatchObject(w: World, p: Patch, fault: Fault): (World, Reply) {
    var (w', reply) :=
      if w.stored.None? then Gone(w, fault)
      else
        var n := ApplyMeta(w.stored.value, p);
        Write(w, CheckFinalizers(w.stored.value, n), n, fault);
    (Log(w', Patched(p, reply.Replied?)), reply)
  }

  function PatchStatus(w: World, p: Patch, fault: Fault): (World, Reply) {
    var (w', reply) :=
      if w.stored.None? then Gone(w, fault)
      else Write(w, None, ApplyStatus(w.stored.value, p), fault);
    (Log(w', StatusPatched(p, reply.Replied?)), reply)
  }

  /** Replaces the status, and nothing else, when the caller's version is current. */
  function UpdateStatus(w: World, inst: Object, fault: Fault): (World, Reply) {
    var (w', reply) :=
      if w.stored.None? then Gone(w, fault)
      else
        var o := w.stored.value;
        Write(w, if inst.version == o.version then None else Some(Conflict), o.(status := inst.status), fault);
    (Log(w', StatusSent(inst, w.stored, reply.Replied?)), reply)
  }

  // ---------------------------------------------------------------- everybody else

  function Nudged(o: Object, n: Nudge): Object {
    match n
    case ChangeSpec => o.(generation := o.generation + 1, version := o.version + 1)
    case MarkDeleted =>
      if o.deleting then o
      else o.(deleting := true, generation := o.generation + 1, version := o.version + 1)
    case AddLabel(l) => Bump(o, o.(labels := o.labels + {l}))
    case Touch => o.(version := o.version + 1)
  }

  function Await(w: World, nudges: seq<Nudge>): World
    decreases |nudges|
  {
    if nudges == [] || w.stored.None? then w
    else Await(Put(w, Keep(Nudged(w.stored.value, nudges[0]))), nudges[1..])
  }

  /** What others do between runs. Lists and labels may be edited then. */
  datatype Change =
    | DuringRun(nudge: Nudge)
    | AddFinalizer(finalizer: string)
    | DropFinalizer(finalizer: string)
    | DropLabel(key: string)
    | SetInitializers(list: seq<string>)
    | SetTerminators(list: seq<string>)
    | EditStatus(edit: Edit, time: int)
    | Create(finalizers: seq<string>, labels: set<string>, initializers: seq<string>, terminators: seq<string>)

  function Without(list: seq<string>, x: string): seq<string> {
    if list == [] then []
    else if list[0] == x then Without(list[1..], x)
    else [list[0]] + Without(list[1..], x)
  }

  function ApplyEdit(s: Status, e: Edit, now: int): Status {
    match e
    case PutCondition(c) => s.(conditions := Conditions.SetCondition(s.conditions, c, now))
    case DropCondition(t) => s.(conditions := Conditions.RemoveCondition(s.conditions, t))
    case PutData(d) => s.(data := d)
  }

  function Changed(o: Object, c: Change): Object {
    match c
    case DuringRun(n) => Nudged(o, n)
    case AddFinalizer(f) =>
      if o.deleting || f in o.finalizers then o else Bump(o, o.(finalizers := o.finalizers + [f]))
    case DropFinalizer(f) => Bump(o, o.(finalizers := Without(o.finalizers, f)))
    case DropLabel(l) => Bump(o, o.(labels := o.labels - {l}))
    case SetInitializers(list) => Bump(o, o.(status := o.status.(initializers := list)))
    case SetTerminators(list) => Bump(o, o.(status := o.status.(terminators := list)))
    case EditStatus(e, time) => Bump(o, o.(status := ApplyEdit(o.status, e, time)))
    case Create(_, _, _, _) => o
  }

  function Fresh(c: Change): Object
    requires c.Create?
  {
    Object(1, 1, false, c.finalizers, c.labels, Status([], 0, c.initializers, c.terminators, 0, 0))
  }

  function Disturb(w: World, c: Change): World {
    match w.stored
    case None => if c.Create? then Put(w, Some(Fresh(c))) else w
    case Some(o) => Put(w, Keep(Changed(o, c)))
  }
}
