/** What a retrying update promises against any interference. */
module NoLostUpdate {
  import opened Options
  import opened VersionedServer
  import opened Retry

  /** Others can make `later` of `o` between a read and a write: every change takes a new
      version, and one change alone touches one half. */
  predicate Follows(o: Object, later: Object) {
    && 0 < o.version
    && (|| later.version >= o.version + 2
        || (later.version == o.version + 1 && (later.spec == o.spec) != (later.status == o.status)))
  }

  predicate SameHalf(half: Half, a: Object, b: Object) {
    match half
    case Spec => a.spec == b.spec
    case Status => a.status == b.status
  }

  /** What the caller's function must not do: get a stale copy past the version check, unless
      it makes the same of it as of the current object. */
  ghost predicate StaleIsHarmless(half: Half, adjust: Adjust) {
    forall o, later {:trigger Follows(o, later)} ::
      Follows(o, later) && (adjust(o).version == 0 || adjust(o).version == later.version) ==>
        SameHalf(half, adjust(o), adjust(later))
  }

  /** The usual way: leave the version alone. */
  ghost predicate KeepsVersion(adjust: Adjust) {
    forall o :: adjust(o).version == o.version
  }

  lemma KeepingTheVersionIsHarmless(half: Half, adjust: Adjust)
    requires KeepsVersion(adjust)
    ensures StaleIsHarmless(half, adjust)
  {
  }

  /** Our landings among those. */
  function Ours(log: seq<Landing>): (ours: seq<Landing>)
    ensures forall l :: l in ours ==> l in log && l.author.Us?
    decreases |log|
  {
    if log == [] then []
    else Ours(log[..|log| - 1]) + (if log[|log| - 1].author.Us? then [log[|log| - 1]] else [])
  }

  /** The log tells a gapless story from one stored object to another. */
  predicate Story(from: Option<Object>, log: seq<Landing>, to: Option<Object>)
    decreases |log|
  {
    if log == [] then from == to
    else Story(from, log[..|log| - 1], log[|log| - 1].before) && log[|log| - 1].after == to
  }

  /** The landing replaced the object just before it by the adjusted one, in the addressed
      half, and kept the rest. */
  predicate Adjusted(half: Half, adjust: Adjust, l: Landing) {
    && l.before.Some? && l.after.Some?
    && l.after.value.(version := l.before.value.version) == Merged(half, l.before.value, adjust(l.before.value))
  }

  /** What a stretch of the run did: the story goes on, and these of its landings are ours. */
  ghost predicate Continues(s: Server, r: Server, ours: seq<Landing>) {
    && Valid(r) && r.revision >= s.revision
    && |r.log| >= |s.log| && r.log[..|s.log|] == s.log
    && Story(s.stored, r.log[|s.log|..], r.stored)
    && Ours(r.log[|s.log|..]) == ours
    && Fresher(s, r)
  }

  /** The object is untouched, gone, or has a version newer than anything seen so far. */
  predicate Fresher(s: Server, r: Server) {
    r.stored == s.stored || r.stored.None? || r.stored.value.version > s.revision
  }

  lemma OneLanding(s: Server, author: Author, n: Option<Object>)
    requires Valid(s)
    ensures var r := Land(s, author, n);
            Continues(s, r, if author.Us? then [Landing(Us, s.stored, r.stored)] else [])
  {
    var r := Land(s, author, n);
    assert r.log[|s.log|..] == [r.log[|s.log|]];
  }

  lemma Nothing(s: Server)
    requires Valid(s)
    ensures Continues(s, s, [])
  {
  }

  lemma {:induction false} StoriesJoin(
    from: Option<Object>, l: seq<Landing>, mid: Option<Object>, m: seq<Landing>, to: Option<Object>)
    requires Story(from, l, mid) && Story(mid, m, to)
    ensures Story(from, l + m, to)
    decreases |m|
  {
    if m == [] {
      assert l + m == l;
    } else {
      StoriesJoin(from, l, mid, m[..|m| - 1], m[|m| - 1].before);
      assert (l + m)[..|l + m| - 1] == l + m[..|m| - 1];
    }
  }

  lemma {:induction false} OursJoin(l: seq<Landing>, m: seq<Landing>)
    ensures Ours(l + m) == Ours(l) + Ours(m)
    decreases |m|
  {
    if m == [] {
      assert l + m == l;
    } else {
      OursJoin(l, m[..|m| - 1]);
      assert (l + m)[..|l + m| - 1] == l + m[..|m| - 1];
    }
  }

  lemma Suffixes<T>(a: seq<T>, b: seq<T>, c: seq<T>)
    requires |a| <= |b| <= |c| && b[..|a|] == a && c[..|b|] == b
    ensures c[..|a|] == a && c[|a|..] == b[|a|..] + c[|b|..]
  {
    assert c[..|a|] == c[..|b|][..|a|];
    assert c == b + c[|b|..] && b == a + b[|a|..];
  }

  lemma Joined(a: Server, b: Server, c: Server, ours: seq<Landing>)
    requires Continues(a, b, []) && Continues(b, c, ours)
    ensures Continues(a, c, ours)
  {
    var l, m := b.log[|a.log|..], c.log[|b.log|..];
    StoriesJoin(a.stored, l, b.stored, m, c.stored);
    OursJoin(l, m);
    Suffixes(a.log, b.log, c.log);
    assert Ours(l + m) == [] + ours;
  }

  lemma {:induction false} OthersContinue(s: Server, intrusions: seq<Intrusion>)
    requires Valid(s)
    ensures Continues(s, IntrudeAll(s, intrusions), [])
    decreases |intrusions|
  {
    if intrusions == [] {
      Nothing(s);
    } else {
      var before := IntrudeAll(s, intrusions[..|intrusions| - 1]);
      OthersContinue(s, intrusions[..|intrusions| - 1]);
      IntrusionContinues(before, intrusions[|intrusions| - 1]);
      Joined(s, before, IntrudeAll(s, intrusions), []);
    }
  }

  lemma IntrusionContinues(s: Server, i: Intrusion)
    requires Valid(s)
    ensures Continues(s, Intrude(s, i), [])
  {
    match (s.stored, i) {
      case (Some(o), SetSpec(x)) => OneLanding(s, Them, Some(o.(spec := x)));
      case (Some(o), SetStatus(x)) => OneLanding(s, Them, Some(o.(status := x)));
      case (Some(_), Delete) => OneLanding(s, Them, None);
      case (None, Create(spec, status)) => OneLanding(s, Them, Some(Object(0, spec, status)));
      case _ => Nothing(s);
    }
  }

  // ---------------------------------------------------------------- one attempt

  /** The attempt's write went through although its caller was told otherwise. */
  predicate LostReply(r: Round, err: Option<Error>) {
    r.getFault.None? && r.writeFault.ReplyLost? && err == Some(Unavailable)
  }

  /** A stretch that landed once or not at all, and, for an `exact` function, an adjustment. */
  ghost predicate Lands(
    half: Half, adjust: Adjust, exact: bool, s: Server, r: Server, ours: seq<Landing>, landed: bool)
  {
    && Continues(s, r, ours)
    && |ours| == (if landed then 1 else 0)
    && (exact ==> forall l :: l in ours ==> Adjusted(half, adjust, l))
  }

  /** A stretch that landed nothing, followed by any other. */
  lemma ThenLands(
    half: Half, adjust: Adjust, exact: bool, a: Server, b: Server, c: Server, ours: seq<Landing>, landed: bool)
    requires Continues(a, b, []) && Lands(half, adjust, exact, b, c, ours, landed)
    ensures Lands(half, adjust, exact, a, c, ours, landed)
  {
    Joined(a, b, c, ours);
  }

  /** What others can leave of an object that was read. */
  ghost predicate MayFind(copy: Object, s: Server) {
    && copy.version <= s.revision
    && (s.stored.None? ==> copy.version < s.revision)
    && (s.stored.Some? ==> s.stored.value == copy || Follows(copy, s.stored.value))
  }

  lemma {:induction false} OthersFollow(copy: Object, s: Server, intrusions: seq<Intrusion>)
    requires Valid(s) && s.stored == Some(copy)
    ensures Valid(IntrudeAll(s, intrusions)) && MayFind(copy, IntrudeAll(s, intrusions))
    decreases |intrusions|
  {
    if intrusions != [] {
      OthersFollow(copy, s, intrusions[..|intrusions| - 1]);
    }
  }

  predicate WriteLandsOn(s: Server, sent: Object, fault: Fault) {
    !fault.Refused? && s.stored.Some? && (sent.version == 0 || sent.version == s.stored.value.version)
  }

  lemma WriteLands(half: Half, adjust: Adjust, exact: bool, copy: Object, s: Server, fault: Fault)
    requires Valid(s) && (exact ==> StaleIsHarmless(half, adjust)) && MayFind(copy, s)
    requires WriteLandsOn(s, adjust(copy), fault)
    ensures var (r, err) := Write(half, s, adjust(copy), fault);
            var l := Landing(Us, s.stored, r.stored);
            && Lands(half, adjust, exact, s, r, [l], true)
            && err == if fault.Served? then None else Some(Unavailable)
  {
    OneLanding(s, Us, Some(Merged(half, s.stored.value, adjust(copy))));
  }

  /** One attempt lands at most once, and lands exactly when it succeeds or its reply is lost;
      what lands is the adjustment of the very object it replaces. */
  lemma AttemptLands(half: Half, adjust: Adjust, exact: bool, s: Server, r: Round) returns (ours: seq<Landing>)
    requires Valid(s) && (exact ==> StaleIsHarmless(half, adjust))
    ensures var (s', err) := Attempt(half, adjust, s, r);
            Lands(half, adjust, exact, s, s', ours, err.None? || LostReply(r, err))
  {
    var s1 := IntrudeAll(s, r.beforeGet);
    OthersContinue(s, r.beforeGet);
    ours := [];
    if Read(s1, r.getFault).None? {
      ours := AttemptWrites(half, adjust, exact, s1, r);
      var (s', err) := Attempt(half, adjust, s, r);
      ThenLands(half, adjust, exact, s, s1, s', ours, err.None? || LostReply(r, err));
    }
  }

  lemma AttemptWrites(half: Half, adjust: Adjust, exact: bool, s1: Server, r: Round) returns (ours: seq<Landing>)
    requires Valid(s1) && (exact ==> StaleIsHarmless(half, adjust)) && s1.stored.Some? && r.getFault.None?
    ensures var (s', err) := Write(half, IntrudeAll(s1, r.beforeWrite), adjust(s1.stored.value), r.writeFault);
            Lands(half, adjust, exact, s1, s', ours, err.None? || LostReply(r, err))
  {
    var s2 := IntrudeAll(s1, r.beforeWrite);
    OthersContinue(s1, r.beforeWrite);
    OthersFollow(s1.stored.value, s1, r.beforeWrite);
    var sent := adjust(s1.stored.value);
    if WriteLandsOn(s2, sent, r.writeFault) {
      WriteLands(half, adjust, exact, s1.stored.value, s2, r.writeFault);
      var s3 := Write(half, s2, sent, r.writeFault).0;
      ours := [Landing(Us, s2.stored, s3.stored)];
      ThenLands(half, adjust, exact, s1, s2, s3, ours, true);
    } else {
      ours := [];
    }
  }

  // ---------------------------------------------------------------- the retry

  /** Where the result of a retry says or hides that our write landed. */
  predicate Landed(rounds: nat -> Round, r: Result) {
    r.err.None? || (r.attempts > 0 && LostReply(rounds(r.attempts - 1), r.err))
  }

  predicate Again(err: Option<Error>, k: nat) {
    err == Some(Conflict) && k + 1 < STEPS
  }

  /** What the attempts from the `k`-th on are: this one and the later ones, or this last one. */
  lemma Unrolled(half: Half, adjust: Adjust, s: Server, rounds: nat -> Round, k: nat)
    requires k < STEPS
    ensures var (s', err) := Attempt(half, adjust, s, rounds(k));
            var r := Attempts(half, adjust, s, rounds, k);
            && (Again(err, k) ==>
                  r == Attempts(half, adjust, s', rounds, k + 1) && !(err.None? || LostReply(rounds(k), err)))
            && (!Again(err, k) ==> r == Result(s', err, k + 1))
  {
  }

  lemma AttemptIsValid(half: Half, adjust: Adjust, s: Server, r: Round)
    requires Valid(s)
    ensures Valid(Attempt(half, adjust, s, r).0)
  {
    var ours := AttemptLands(half, adjust, false, s, r);
  }

  /** The last attempt. */
  lemma LastLands(
    half: Half, adjust: Adjust, exact: bool, s: Server, rounds: nat -> Round, k: nat) returns (ours: seq<Landing>)
    requires Valid(s) && k < STEPS && (exact ==> StaleIsHarmless(half, adjust))
    requires !Again(Attempt(half, adjust, s, rounds(k)).1, k)
    ensures var r := Attempts(half, adjust, s, rounds, k);
            r.attempts == k + 1 && Lands(half, adjust, exact, s, r.server, ours, Landed(rounds, r))
  {
    Unrolled(half, adjust, s, rounds, k);
    ours := AttemptLands(half, adjust, exact, s, rounds(k));
    var r := Attempts(half, adjust, s, rounds, k);
    assert Landed(rounds, r) == (r.err.None? || LostReply(rounds(k), r.err));
  }

  /** An attempt after which another one is made lands nothing. */
  lemma RetriedLands(
    half: Half, adjust: Adjust, exact: bool, s: Server, round: Round, k: nat,
    end: Server, later: seq<Landing>, landed: bool)
    requires Valid(s) && (exact ==> StaleIsHarmless(half, adjust))
    requires var (s', err) := Attempt(half, adjust, s, round);
             && Again(err, k) && !(err.None? || LostReply(round, err))
             && Lands(half, adjust, exact, s', end, later, landed)
    ensures Lands(half, adjust, exact, s, end, later, landed)
  {
    var s' := Attempt(half, adjust, s, round).0;
    var ours := AttemptLands(half, adjust, exact, s, round);
    assert ours == [];
    ThenLands(half, adjust, exact, s, s', end, later, landed);
  }

  lemma {:induction false} AttemptsLand(
    half: Half, adjust: Adjust, exact: bool, s: Server, rounds: nat -> Round, k: nat)
    returns (ours: seq<Landing>)
    requires Valid(s) && k < STEPS && (exact ==> StaleIsHarmless(half, adjust))
    ensures var r := Attempts(half, adjust, s, rounds, k);
            k < r.attempts <= STEPS && Lands(half, adjust, exact, s, r.server, ours, Landed(rounds, r))
    decreases STEPS - k
  {
    var (s', err) := Attempt(half, adjust, s, rounds(k));
    if Again(err, k) {
      Unrolled(half, adjust, s, rounds, k);
      AttemptIsValid(half, adjust, s, rounds(k));
      ours := AttemptsLand(half, adjust, exact, s', rounds, k + 1);
      var r := Attempts(half, adjust, s', rounds, k + 1);
      RetriedLands(half, adjust, exact, s, rounds(k), k, r.server, ours, Landed(rounds, r));
    } else {
      ours := LastLands(half, adjust, exact, s, rounds, k);
    }
  }

  /** Against every interference, and for every function: at most five attempts and at most
      one landing, exactly when the caller is told so or the reply of the last attempt is
      lost. For a function that does no harm with a stale copy, what lands replaces the
      object stored at that moment by its adjustment, and everything else in the story is
      other people's doing and stays. */
  lemma UpdateLandsOnce(half: Half, adjust: Adjust, s: Server, rounds: nat -> Round) returns (ours: seq<Landing>)
    requires Valid(s)
    ensures var r := Attempts(half, adjust, s, rounds, 0);
            && 1 <= r.attempts <= STEPS
            && Lands(half, adjust, StaleIsHarmless(half, adjust), s, r.server, ours, Landed(rounds, r))
  {
    ours := AttemptsLand(half, adjust, StaleIsHarmless(half, adjust), s, rounds, 0);
  }

  // ---------------------------------------------------------------- exactly when

  /** Every write of ours is an adjustment of what it replaces. */
  ghost predicate NothingLost(half: Half, adjust: Adjust, s: Server, rounds: nat -> Round) {
    var r := Attempts(half, adjust, s, rounds, 0).server;
    && |r.log| >= |s.log|
    && forall l :: l in Ours(r.log[|s.log|..]) ==> Adjusted(half, adjust, l)
  }

  /** Surroundings in which others turn `o` into `later` just between the read and the write. */
  function Meanwhile(o: Object, later: Object): Round {
    Round([], None,
      if later.version >= o.version + 2 then [Delete, Create(later.spec, later.status)]
      else if later.spec != o.spec then [SetSpec(later.spec)]
      else [SetStatus(later.status)],
      Served)
  }

  function Before(o: Object, later: Object): Server
    requires Follows(o, later)
  {
    Server(Some(o), if later.version >= o.version + 2 then later.version - 2 else o.version, [])
  }

  lemma MeanwhileLeaves(o: Object, later: Object)
    requires Follows(o, later)
    ensures Valid(Before(o, later))
    ensures IntrudeAll(Before(o, later), []) == Before(o, later)
    ensures var s := IntrudeAll(Before(o, later), Meanwhile(o, later).beforeWrite);
            s.stored == Some(later) && forall l :: l in s.log ==> l.author.Them?
  {
    var s, others := Before(o, later), Meanwhile(o, later).beforeWrite;
    assert others[..|others| - 1] == [] || (others[..|others| - 1] == [others[0]] && [others[0]][..0] == []);
    if later.version >= o.version + 2 {
      assert IntrudeAll(s, [others[0]]) == Intrude(s, others[0]);
    }
  }

  lemma {:induction false} NoneOfOurs(log: seq<Landing>)
    requires forall l :: l in log ==> l.author.Them?
    ensures Ours(log) == []
    decreases |log|
  {
    if log != [] {
      NoneOfOurs(log[..|log| - 1]);
    }
  }

  /** A function that gets a stale copy through, and makes something else of it, loses the
      update that came between. */
  lemma StaleWriteLoses(half: Half, adjust: Adjust, o: Object, later: Object)
    requires Follows(o, later) && (adjust(o).version == 0 || adjust(o).version == later.version)
    requires !SameHalf(half, adjust(o), adjust(later))
    ensures Valid(Before(o, later)) && !NothingLost(half, adjust, Before(o, later), _ => Meanwhile(o, later))
  {
    MeanwhileLeaves(o, later);
    var s, round := Before(o, later), Meanwhile(o, later);
    var s2 := IntrudeAll(s, round.beforeWrite);
    var s3 := Land(s2, Us, Some(Merged(half, later, adjust(o))));
    assert Attempt(half, adjust, s, round) == (s3, None);
    assert Attempts(half, adjust, s, _ => round, 0).server == s3;
    var l := s3.log[|s2.log|];
    assert s3.log == s2.log + [l] && (s2.log + [l])[..|s2.log|] == s2.log;
    NoneOfOurs(s2.log);
    assert Ours(s3.log[|s.log|..]) == [l] by {
      assert s3.log[0..] == s3.log;
    }
    assert l in Ours(s3.log[|s.log|..]) && !Adjusted(half, adjust, l);
  }

  /** Exactly the functions that do no harm with a stale copy lose no update, whatever the
      object, the interference and the network. */
  lemma NothingLostExactlyWhen(half: Half, adjust: Adjust)
    ensures (forall s, rounds :: Valid(s) ==> NothingLost(half, adjust, s, rounds)) <==> StaleIsHarmless(half, adjust)
  {
    if StaleIsHarmless(half, adjust) {
      forall s, rounds | Valid(s) ensures NothingLost(half, adjust, s, rounds) {
        var ours := UpdateLandsOnce(half, adjust, s, rounds);
      }
    } else {
      var o, later :| Follows(o, later) && (adjust(o).version == 0 || adjust(o).version == later.version)
                      && !SameHalf(half, adjust(o), adjust(later));
      StaleWriteLoses(half, adjust, o, later);
    }
  }

  // ---------------------------------------------------------------- counters

  /** The object at the end of a story is the landings applied one after the other: nobody's
      write is undone by ours. A counter that everybody only adds to shows it: the total moves
      by what others added plus our own step. */
  function Growth(log: seq<Landing>): int
    decreases |log|
  {
    if log == [] then 0 else Growth(log[..|log| - 1]) + Moved(log[|log| - 1])
  }

  function Total(o: Option<Object>): int {
    if o.Some? then o.value.spec else 0
  }

  function Moved(l: Landing): int {
    Total(l.after) - Total(l.before)
  }

  lemma {:induction false} StoriesAddUp(from: Option<Object>, log: seq<Landing>, to: Option<Object>)
    requires Story(from, log, to)
    ensures Total(to) == Total(from) + Growth(log)
    decreases |log|
  {
    if log != [] {
      StoriesAddUp(from, log[..|log| - 1], log[|log| - 1].before);
    }
  }

  /** The growth others are responsible for. */
  function OthersGrowth(log: seq<Landing>): int
    decreases |log|
  {
    if log == [] then 0
    else OthersGrowth(log[..|log| - 1]) + (if log[|log| - 1].author.Us? then 0 else Moved(log[|log| - 1]))
  }

  lemma {:induction false} GrowthSplits(log: seq<Landing>)
    ensures Ours(log) == [] ==> Growth(log) == OthersGrowth(log)
    ensures |Ours(log)| == 1 ==> Growth(log) == OthersGrowth(log) + Moved(Ours(log)[0])
    decreases |log|
  {
    if log != [] {
      GrowthSplits(log[..|log| - 1]);
    }
  }

  lemma IncrementIsNeverLost(s: Server, rounds: nat -> Round, d: int)
    requires Valid(s)
    ensures var r := Attempts(Spec, (o: Object) => o.(spec := o.spec + d), s, rounds, 0);
            && |r.server.log| >= |s.log|
            && Total(r.server.stored) == Total(s.stored) + OthersGrowth(r.server.log[|s.log|..])
                 + (if Landed(rounds, r) then d else 0)
  {
    var adjust := (o: Object) => o.(spec := o.spec + d);
    KeepingTheVersionIsHarmless(Spec, adjust);
    var ours := UpdateLandsOnce(Spec, adjust, s, rounds);
    var r := Attempts(Spec, adjust, s, rounds, 0);
    var log := r.server.log[|s.log|..];
    StoriesAddUp(s.stored, log, r.server.stored);
    GrowthSplits(log);
    if |ours| == 1 {
      assert Adjusted(Spec, adjust, ours[0]);
    }
  }

  /** On an error nothing landed, exactly unless the reply of the last write was lost. */
  lemma ErrorMeansNoWrite(half: Half, adjust: Adjust, s: Server, rounds: nat -> Round)
    requires Valid(s)
    requires Attempts(half, adjust, s, rounds, 0).err.Some?
    ensures var r := Attempts(half, adjust, s, rounds, 0);
            && |r.server.log| >= |s.log|
            && (Ours(r.server.log[|s.log|..]) == [] <==> !LostReply(rounds(r.attempts - 1), r.err))
  {
    var ours := UpdateLandsOnce(half, adjust, s, rounds);
  }

  /** One that does harm: with a function that blanks the version, a write by others between
      the read and the write is overwritten and the caller is told that all is well. */
  lemma BlankVersionLosesUpdates()
    ensures var adjust: Adjust := (o: Object) => o.(version := 0, spec := o.spec + 1);
            var s := Server(Some(Object(1, 10, 0)), 1, []);
            var rounds: nat -> Round := _ => Round([], None, [SetSpec(50)], Served);
            var r := Attempts(Spec, adjust, s, rounds, 0);
            && r.err == None && r.attempts == 1
            && r.server.log[0].after == Some(Object(2, 50, 0))
            && r.server.stored == Some(Object(3, 11, 0))
  {
    var s := Server(Some(Object(1, 10, 0)), 1, []);
    var i := [SetSpec(50)];
    assert i[..0] == [] && IntrudeAll(s, i) == Intrude(s, SetSpec(50));
    assert IntrudeAll(s, []) == s;
  }
}
