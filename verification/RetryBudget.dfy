/** How long a retrying update keeps trying: five attempts, another one after a conflict only. */
module RetryBudget {
  import opened Options
  import opened VersionedServer
  import opened Retry
  import opened NoLostUpdate

  /** The server after `n` attempts, were each of them made. */
  function ServerAfter(half: Half, adjust: Adjust, s: Server, rounds: nat -> Round, n: nat): Server {
    if n == 0 then s
    else Attempt(half, adjust, ServerAfter(half, adjust, s, rounds, n - 1), rounds(n - 1)).0
  }

  /** What the `n`-th attempt meets, were it made, counting from zero. */
  function Met(half: Half, adjust: Adjust, s: Server, rounds: nat -> Round, n: nat): Option<Error> {
    Attempt(half, adjust, ServerAfter(half, adjust, s, rounds, n), rounds(n)).1
  }

  /** The first `n` attempts meet a conflict each. */
  predicate AllConflict(half: Half, adjust: Adjust, s: Server, rounds: nat -> Round, n: nat) {
    forall k :: 0 <= k < n ==> Met(half, adjust, s, rounds, k) == Some(Conflict)
  }

  /** The update is over with the first attempt that meets no conflict, and with the fifth. */
  lemma {:induction false} EndsWith(
    half: Half, adjust: Adjust, s: Server, rounds: nat -> Round, k: nat, n: nat)
    requires k <= n < 5 && AllConflict(half, adjust, s, rounds, n)
    requires n == 4 || Met(half, adjust, s, rounds, n) != Some(Conflict)
    ensures Attempts(half, adjust, ServerAfter(half, adjust, s, rounds, k), rounds, k)
         == Result(ServerAfter(half, adjust, s, rounds, n + 1), Met(half, adjust, s, rounds, n), n + 1)
    decreases n - k
  {
    Unrolled(half, adjust, ServerAfter(half, adjust, s, rounds, k), rounds, k);
    if k < n {
      assert Met(half, adjust, s, rounds, k) == Some(Conflict);
      EndsWith(half, adjust, s, rounds, k + 1, n);
    }
  }

  /** The first attempt without a conflict among five, or the fifth. */
  function LastAttempt(half: Half, adjust: Adjust, s: Server, rounds: nat -> Round, k: nat): (n: nat)
    requires k < 5 && AllConflict(half, adjust, s, rounds, k)
    ensures k <= n < 5 && AllConflict(half, adjust, s, rounds, n)
    ensures n == 4 || Met(half, adjust, s, rounds, n) != Some(Conflict)
    decreases 5 - k
  {
    if k == 4 || Met(half, adjust, s, rounds, k) != Some(Conflict) then k
    else LastAttempt(half, adjust, s, rounds, k + 1)
  }

  /** The update gives up with a conflict exactly when five attempts in a row met one, and then
      it has made those five; any other end comes with the attempt that met no conflict. */
  lemma GivesUpExactlyWhen(half: Half, adjust: Adjust, s: Server, rounds: nat -> Round)
    ensures var r := Attempts(half, adjust, s, rounds, 0);
            && 1 <= r.attempts <= 5
            && (r.err == Some(Conflict) <==> AllConflict(half, adjust, s, rounds, 5))
            && (r.err == Some(Conflict) ==> r.attempts == 5)
            && AllConflict(half, adjust, s, rounds, r.attempts - 1)
            && r == Result(ServerAfter(half, adjust, s, rounds, r.attempts),
                           Met(half, adjust, s, rounds, r.attempts - 1), r.attempts)
  {
    var n := LastAttempt(half, adjust, s, rounds, 0);
    EndsWith(half, adjust, s, rounds, 0, n);
    if AllConflict(half, adjust, s, rounds, 5) {
      assert Met(half, adjust, s, rounds, n) == Some(Conflict);
    }
  }

  /** Nobody comes in, and both calls are served. */
  predicate Calm(r: Round) {
    r == Round([], None, [], Served)
  }

  /** An undisturbed attempt succeeds. */
  lemma CalmAttemptSucceeds(half: Half, adjust: Adjust, s: Server)
    requires KeepsVersion(adjust) && s.stored.Some?
    ensures Attempt(half, adjust, s, Round([], None, [], Served)).1.None?
  {
  }

  /** Between the read and the write of the attempt somebody else changes the object. */
  predicate Overtaken(s: Server, r: Round) {
    && r.beforeGet == [] && r.getFault.None? && r.writeFault.Served?
    && s.stored.Some?
    && var later := IntrudeAll(s, r.beforeWrite).stored;
       later.Some? && later.value.version != s.stored.value.version
  }

  lemma OvertakenConflicts(half: Half, adjust: Adjust, s: Server, r: Round)
    requires KeepsVersion(adjust) && Valid(s) && Overtaken(s, r)
    ensures var (s', err) := Attempt(half, adjust, s, r);
            err == Some(Conflict) && Valid(s') && s'.stored.Some?
  {
    AttemptIsValid(half, adjust, s, r);
    assert adjust(s.stored.value).version == s.stored.value.version;
  }

  /** Up to four interruptions are survived: when others overtake each of the first `n`
      attempts and leave the next one alone, the update succeeds with that one. */
  lemma SurvivesInterruptions(half: Half, adjust: Adjust, s: Server, rounds: nat -> Round, n: nat)
    requires KeepsVersion(adjust) && Valid(s) && s.stored.Some? && n < 5
    requires forall k: nat :: k < n ==> Overtaken(ServerAfter(half, adjust, s, rounds, k), rounds(k))
    requires Calm(rounds(n))
    ensures var r := Attempts(half, adjust, s, rounds, 0); r.err.None? && r.attempts == n + 1
  {
    OvertakenAll(half, adjust, s, rounds, n);
    CalmAttemptSucceeds(half, adjust, ServerAfter(half, adjust, s, rounds, n));
    EndsWith(half, adjust, s, rounds, 0, n);
  }

  lemma OvertakenOnce(half: Half, adjust: Adjust, s: Server, rounds: nat -> Round, k: nat)
    requires KeepsVersion(adjust) && Valid(ServerAfter(half, adjust, s, rounds, k))
    requires Overtaken(ServerAfter(half, adjust, s, rounds, k), rounds(k))
    ensures Met(half, adjust, s, rounds, k) == Some(Conflict)
    ensures Valid(ServerAfter(half, adjust, s, rounds, k + 1))
    ensures ServerAfter(half, adjust, s, rounds, k + 1).stored.Some?
  {
    OvertakenConflicts(half, adjust, ServerAfter(half, adjust, s, rounds, k), rounds(k));
  }

  lemma OvertakenAll(half: Half, adjust: Adjust, s: Server, rounds: nat -> Round, n: nat)
    requires KeepsVersion(adjust) && Valid(s) && s.stored.Some?
    requires forall k: nat :: k < n ==> Overtaken(ServerAfter(half, adjust, s, rounds, k), rounds(k))
    ensures AllConflict(half, adjust, s, rounds, n)
    ensures Valid(ServerAfter(half, adjust, s, rounds, n)) && ServerAfter(half, adjust, s, rounds, n).stored.Some?
  {
    for k := 0 to n
      invariant AllConflict(half, adjust, s, rounds, k)
      invariant Valid(ServerAfter(half, adjust, s, rounds, k)) && ServerAfter(half, adjust, s, rounds, k).stored.Some?
    {
      OvertakenOnce(half, adjust, s, rounds, k);
    }
  }
}
