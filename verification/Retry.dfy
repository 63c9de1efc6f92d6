/** Read, adjust, write, and again on a conflict. */
module Retry {
  import opened Options
  import opened VersionedServer

  const STEPS: nat := 5

  type Adjust = Object -> Object

  // ---------------------------------------------------------------- specification

  function Read(s: Server, fault: Option<Error>): Option<Error> {
    if fault.Some? then fault else if s.stored.None? then Some(NotFound) else None
  }

  /** One attempt. */
  function Attempt(half: Half, adjust: Adjust, s: Server, r: Round): (Server, Option<Error>) {
    var s1 := IntrudeAll(s, r.beforeGet);
    var err := Read(s1, r.getFault);
    if err.Some? then (s1, err)
    else Write(half, IntrudeAll(s1, r.beforeWrite), adjust(s1.stored.value), r.writeFault)
  }

  datatype Result = Result(server: Server, err: Option<Error>, attempts: nat)

  /** The attempts from the `k`-th on: another one follows a conflict only. */
  function Attempts(half: Half, adjust: Adjust, s: Server, rounds: nat -> Round, k: nat): Result
    requires k < STEPS
    decreases STEPS - k
  {
    var (s', err) := Attempt(half, adjust, s, rounds(k));
    if err == Some(Conflict) && k + 1 < STEPS then Attempts(half, adjust, s', rounds, k + 1)
    else Result(s', err, k + 1)
  }

  // ---------------------------------------------------------------- the code

  /** The caller's object: every attempt reads into it. */
  class Holder {
    var value: Object

    constructor (value: Object)
      ensures this.value == value
    {
      this.value := value;
    }
  }

  class Client {
    var server: Server

    constructor (server: Server)
      ensures this.server == server
    {
      this.server := server;
    }

    method Disturb(intrusions: seq<Intrusion>)
      modifies this
      ensures server == IntrudeAll(old(server), intrusions)
    {
      for i := 0 to |intrusions|
        invariant server == IntrudeAll(old(server), intrusions[..i])
      {
        assert intrusions[..i + 1][..i] == intrusions[..i];
        server := Intrude(server, intrusions[i]);
      }
      assert intrusions[..|intrusions|] == intrusions;
    }

    method Get(obj: Holder, fault: Option<Error>) returns (err: Option<Error>)
      modifies obj
      ensures err == Read(server, fault)
      ensures obj.value == if err.None? then server.stored.value else old(obj.value)
    {
      if fault.Some? {
        return fault;
      }
      if server.stored.None? {
        return Some(NotFound);
      }
      obj.value := server.stored.value;
      err := None;
    }

    method Update(half: Half, sent: Object, fault: Fault) returns (err: Option<Error>)
      modifies this
      ensures (server, err) == Write(half, old(server), sent, fault)
    {
      var (s, e) := Write(half, server, sent, fault);
      server := s;
      err := e;
    }
  }

  /** The operation both retrying updates repeat. */
  method Operation(half: Half, adjust: Adjust, obj: Holder, cl: Client, r: Round) returns (err: Option<Error>)
    modifies obj, cl
    ensures (cl.server, err) == Attempt(half, adjust, old(cl.server), r)
    ensures err.None? ==> IntrudeAll(old(cl.server), r.beforeGet).stored == Some(obj.value)
  {
    cl.Disturb(r.beforeGet);
    err := cl.Get(obj, r.getFault);
    if err.Some? {
      return;
    }
    cl.Disturb(r.beforeWrite);
    err := cl.Update(half, adjust(obj.value), r.writeFault);
  }

  method RetryOnConflict(half: Half, adjust: Adjust, obj: Holder, cl: Client, rounds: nat -> Round)
    returns (err: Option<Error>, ghost attempts: nat)
    modifies obj, cl
    ensures Result(cl.server, err, attempts) == Attempts(half, adjust, old(cl.server), rounds, 0)
  {
    var steps := STEPS;
    var lastErr := Some(Conflict);
    attempts := 0;
    while steps > 0
      invariant 0 <= steps <= STEPS && attempts == STEPS - steps
      invariant steps > 0 ==>
        Attempts(half, adjust, cl.server, rounds, attempts) == Attempts(half, adjust, old(cl.server), rounds, 0)
      invariant steps == 0 ==>
        Result(cl.server, lastErr, attempts) == Attempts(half, adjust, old(cl.server), rounds, 0)
    {
      err := Operation(half, adjust, obj, cl, rounds(STEPS - steps));
      attempts := attempts + 1;
      if err != Some(Conflict) {
        return;
      }
      lastErr := err;
      steps := steps - 1;
    }
    err := lastErr;
  }

  method RetryUpdate(adjust: Adjust, obj: Holder, cl: Client, rounds: nat -> Round) returns (err: Option<Error>)
    modifies obj, cl
    ensures var r := Attempts(Spec, adjust, old(cl.server), rounds, 0); cl.server == r.server && err == r.err
  {
    ghost var attempts;
    err, attempts := RetryOnConflict(Spec, adjust, obj, cl, rounds);
  }

  method RetryStatusUpdate(adjust: Adjust, obj: Holder, cl: Client, rounds: nat -> Round) returns (err: Option<Error>)
    modifies obj, cl
    ensures var r := Attempts(Status, adjust, old(cl.server), rounds, 0); cl.server == r.server && err == r.err
  {
    ghost var attempts;
    err, attempts := RetryOnConflict(Status, adjust, obj, cl, rounds);
  }
}
