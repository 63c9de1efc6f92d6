/** A version-checked object store with other writers, as seen by the retrying updates. */
module VersionedServer {
  import opened Options

  /** `spec` and `status` stand for the two halves a write can address. Version 0 is a blank
      one: an object carrying it is written unconditionally. */
  datatype Object = Object(version: nat, spec: int, status: int)

  datatype Error = Conflict | NotFound | Unavailable

  /** Which half a write addresses: `Update` or `Status().Update`. */
  datatype Half = Spec | Status

  datatype Author = Us | Them

  /** One write that landed, with the stored object just before and just after it. */
  datatype Landing = Landing(author: Author, before: Option<Object>, after: Option<Object>)

  datatype Server = Server(stored: Option<Object>, revision: nat, log: seq<Landing>)

  /** What another writer may do at any moment. */
  datatype Intrusion = SetSpec(x: int) | SetStatus(x: int) | Delete | Create(spec: int, status: int)

  /** How the network treats one of our writes: served, refused untouched, or applied with
      the reply lost. */
  datatype Fault = Served | Refused(error: Error) | ReplyLost

  /** One attempt's surroundings: what others do before each of its two calls, and how the
      calls are treated. */
  datatype Round = Round(
    beforeGet: seq<Intrusion>, getFault: Option<Error>, beforeWrite: seq<Intrusion>, writeFault: Fault)

  predicate Valid(s: Server) {
    s.stored.Some? ==> 0 < s.stored.value.version <= s.revision
  }

  /** Only the addressed half is taken over. */
  function Merged(half: Half, stored: Object, sent: Object): Object {
    match half
    case Spec => stored.(spec := sent.spec)
    case Status => stored.(status := sent.status)
  }

  /** A write that changes something gets a version nobody has seen. */
  function Land(s: Server, author: Author, n: Option<Object>): Server {
    if n == s.stored then s.(log := s.log + [Landing(author, s.stored, s.stored)])
    else
      var stamped := if n.None? then None else Some(n.value.(version := s.revision + 1));
      Server(stamped, s.revision + 1, s.log + [Landing(author, s.stored, stamped)])
  }

  function Intrude(s: Server, i: Intrusion): Server {
    match (s.stored, i)
    case (Some(o), SetSpec(x)) => Land(s, Them, Some(o.(spec := x)))
    case (Some(o), SetStatus(x)) => Land(s, Them, Some(o.(status := x)))
    case (Some(_), Delete) => Land(s, Them, None)
    case (None, Create(spec, status)) => Land(s, Them, Some(Object(0, spec, status)))
    case _ => s
  }

  function IntrudeAll(s: Server, intrusions: seq<Intrusion>): Server
    decreases |intrusions|
  {
    if intrusions == [] then s else Intrude(IntrudeAll(s, intrusions[..|intrusions| - 1]), intrusions[|intrusions| - 1])
  }

  /** The server's answer to a write of `sent`. */
  function Write(half: Half, s: Server, sent: Object, fault: Fault): (Server, Option<Error>) {
    if fault.Refused? then (s, Some(fault.error))
    else if s.stored.None? then (s, Some(NotFound))
    else if sent.version != 0 && sent.version != s.stored.value.version then (s, Some(Conflict))
    else
      (Land(s, Us, Some(Merged(half, s.stored.value, sent))), if fault.Served? then None else Some(Unavailable))
  }
}
