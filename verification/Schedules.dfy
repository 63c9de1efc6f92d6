/** The limiter under concurrent callers. `When` is four steps: it reads the clock, looks the
    item up under the read lock, and then either stores its reading under the write lock, or
    answers, or goes on to the exponential limiter without any lock. `Forget` holds the write
    lock over two deletions. Threads are interleaved in any way. */
module Schedules {
  import opened Options
  import opened RateLimiter

  /** Where a thread is inside its current call. */
  datatype Pc<T> =
    | Idle
    | HasClock(item: T, now: int)
    | Missing(item: T, now: int)
    | Late(item: T, now: int, seen: int)
    | Forgetting(item: T)

  /** What calls have returned so far: an answer with the stamp the call saw, if any, and
      whether it came from the exponential limiter. */
  datatype Event<T> =
    | Replied(item: T, now: int, seen: Option<int>, delay: int, exponential: bool)
    | Forgot(item: T)

  datatype System<T(==)> = System(
    shared: State<T>, clock: int, writer: Option<nat>, threads: seq<Pc<T>>, log: seq<Event<T>>)

  datatype Action<T> =
    | Tick(d: nat)
    | ReadClock(t: nat, item: T)
    | Lookup(t: nat)
    | Store(t: nat)
    | Exponential(t: nat)
    | LockAndDelete(t: nat, item: T)
    | DeleteAndUnlock(t: nat)

  predicate At<T>(s: System<T>, t: nat) {
    t < |s.threads|
  }

  /** A step is taken when the thread is at it and the lock lets it; otherwise nothing happens. */
  function Step<T(==)>(cfg: Config, s: System<T>, a: Action<T>): System<T> {
    match a
    case Tick(d) => s.(clock := s.clock + d)
    case ReadClock(t, item) =>
      if At(s, t) && s.threads[t].Idle? then s.(threads := s.threads[t := HasClock(item, s.clock)]) else s
    case Lookup(t) =>
      if At(s, t) && s.threads[t].HasClock? && s.writer.None? then
        var HasClock(item, now) := s.threads[t];
        var stamps := s.shared.staticAttempts;
        if item !in stamps then s.(threads := s.threads[t := Missing(item, now)])
        else if now - stamps[item] <= cfg.staticWindow then
          s.(threads := s.threads[t := Idle],
             log := s.log + [Replied(item, now, Some(stamps[item]), cfg.staticDelay, false)])
        else s.(threads := s.threads[t := Late(item, now, stamps[item])])
      else s
    case Store(t) =>
      if At(s, t) && s.threads[t].Missing? && s.writer.None? then
        var Missing(item, now) := s.threads[t];
        s.(shared := s.shared.(staticAttempts := s.shared.staticAttempts[item := now]),
           threads := s.threads[t := Idle], log := s.log + [Replied(item, now, None, cfg.staticDelay, false)])
      else s
    case Exponential(t) =>
      if At(s, t) && s.threads[t].Late? then
        var Late(item, now, seen) := s.threads[t];
        var k := View(s.shared, item).failures;
        s.(shared := s.shared.(failures := s.shared.failures[item := k + 1]),
           threads := s.threads[t := Idle], log := s.log + [Replied(item, now, Some(seen), Backoff(cfg, k), true)])
      else s
    case LockAndDelete(t, item) =>
      if At(s, t) && s.threads[t].Idle? && s.writer.None? then
        s.(shared := s.shared.(staticAttempts := s.shared.staticAttempts - {item}),
           threads := s.threads[t := Forgetting(item)], writer := Some(t))
      else s
    case DeleteAndUnlock(t) =>
      if At(s, t) && s.threads[t].Forgetting? then
        var Forgetting(item) := s.threads[t];
        s.(shared := s.shared.(failures := s.shared.failures - {item}),
           threads := s.threads[t := Idle], writer := None, log := s.log + [Forgot(item)])
      else s
  }

  function Run<T(==)>(cfg: Config, s: System<T>, schedule: seq<Action<T>>): System<T>
    decreases |schedule|
  {
    if schedule == [] then s else Step(cfg, Run(cfg, s, schedule[..|schedule| - 1]), schedule[|schedule| - 1])
  }

  /** A new limiter and `n` idle threads. */
  function Fresh<T(==)>(n: nat): System<T> {
    System(State(map[], map[]), 0, None, seq(n, i => Idle), [])
  }

  // ---------------------------------------------------------------- what the log says

  /** A reading more than the window after the stamp that was seen. */
  predicate SawOldStamp(cfg: Config, now: int, seen: Option<int>) {
    seen.Some? && now - seen.value > cfg.staticWindow
  }

  /** The stamp is the clock reading of a call on this item that found none and was answered
      with the static delay. */
  predicate Stamped<T(==)>(cfg: Config, log: seq<Event<T>>, item: T, stamp: int) {
    Replied(item, stamp, None, cfg.staticDelay, false) in log
  }

  /** The exponential answers for `x` since it was last forgotten. */
  function Strikes<T(==)>(log: seq<Event<T>>, x: T): (n: nat)
    decreases |log|
  {
    if log == [] then 0
    else
      var e, before := log[|log| - 1], Strikes(log[..|log| - 1], x);
      if e.item != x then before
      else if e.Forgot? then 0
      else if e.exponential then before + 1
      else before
  }

  /** Every answer is the right one: exponential exactly when it saw a stamp older than the
      window, and then the backoff for the strikes before it, else the static delay. Any
      stamp it saw was left by some first call. */
  ghost predicate AnsweredRight<T>(cfg: Config, log: seq<Event<T>>, i: nat)
    requires i < |log|
  {
    var e := log[i];
    e.Replied? ==>
      && (e.seen.Some? ==> Stamped(cfg, log[..i], e.item, e.seen.value))
      && (e.exponential <==> SawOldStamp(cfg, e.now, e.seen))
      && e.delay == (if e.exponential then Backoff(cfg, Strikes(log[..i], e.item)) else cfg.staticDelay)
  }

  ghost predicate LogRight<T>(cfg: Config, log: seq<Event<T>>) {
    forall i :: 0 <= i < |log| ==> AnsweredRight(cfg, log, i)
  }

  ghost predicate ThreadRight<T>(cfg: Config, s: System<T>, t: nat)
    requires t < |s.threads|
  {
    match s.threads[t]
    case Late(item, now, seen) => now - seen > cfg.staticWindow && Stamped(cfg, s.log, item, seen) && now <= s.clock
    case HasClock(_, now) => now <= s.clock
    case Missing(_, now) => now <= s.clock
    case _ => true
  }

  /** What every schedule keeps. */
  ghost predicate Inv<T(!new)>(cfg: Config, s: System<T>) {
    && LogRight(cfg, s.log)
    && (forall t: nat :: t < |s.threads| ==> ThreadRight(cfg, s, t))
    && (forall t: nat :: t < |s.threads| ==> (s.threads[t].Forgetting? <==> s.writer == Some(t)))
    && (forall x :: x in s.shared.staticAttempts ==>
          Stamped(cfg, s.log, x, s.shared.staticAttempts[x]) && s.shared.staticAttempts[x] <= s.clock)
    && (forall x :: View(s.shared, x).failures == Strikes(s.log, x))
  }

  lemma LogGrows<T(!new)>(cfg: Config, log: seq<Event<T>>, e: Event<T>)
    requires LogRight(cfg, log)
    requires AnsweredRight(cfg, log + [e], |log|)
    ensures LogRight(cfg, log + [e])
    ensures forall x, stamp :: Stamped(cfg, log, x, stamp) ==> Stamped(cfg, log + [e], x, stamp)
    ensures forall x :: x != e.item ==> Strikes(log + [e], x) == Strikes(log, x)
    ensures Strikes(log + [e], e.item)
         == if e.Forgot? then 0 else Strikes(log, e.item) + (if e.exponential then 1 else 0)
  {
    assert (log + [e])[..|log|] == log;
    forall i | 0 <= i < |log|
      ensures AnsweredRight(cfg, log + [e], i)
    {
      assert AnsweredRight(cfg, log, i);
      assert (log + [e])[..i] == log[..i];
    }
  }

  /** The event a step writes, if any, is the right one and is consistent with the log. */
  lemma StepLogsRight<T(!new)>(cfg: Config, s: System<T>, a: Action<T>)
    requires Inv(cfg, s)
    ensures var r := Step(cfg, s, a);
            && LogRight(cfg, r.log)
            && (forall x, stamp :: Stamped(cfg, s.log, x, stamp) ==> Stamped(cfg, r.log, x, stamp))
            && (forall x :: View(r.shared, x).failures == Strikes(r.log, x))
  {
    var r := Step(cfg, s, a);
    if |r.log| > |s.log| {
      var e := r.log[|s.log|];
      assert (s.log + [e])[..|s.log|] == s.log;
      assert ThreadRight(cfg, s, a.t);
      LogGrows(cfg, s.log, e);
    }
  }

  /** Every stamp is still the reading of a call answered with the static delay. */
  lemma StepStampsRight<T(!new)>(cfg: Config, s: System<T>, a: Action<T>)
    requires Inv(cfg, s)
    ensures var r := Step(cfg, s, a);
            forall x :: x in r.shared.staticAttempts ==>
              Stamped(cfg, r.log, x, r.shared.staticAttempts[x]) && r.shared.staticAttempts[x] <= r.clock
  {
    var r := Step(cfg, s, a);
    StepLogsRight(cfg, s, a);
    if a.Store? && r != s {
      assert ThreadRight(cfg, s, a.t);
      assert r.log[|s.log|] == Replied(s.threads[a.t].item, s.threads[a.t].now, None, cfg.staticDelay, false);
    }
  }

  lemma StepThreadsRight<T(!new)>(cfg: Config, s: System<T>, a: Action<T>, t: nat)
    requires Inv(cfg, s) && t < |Step(cfg, s, a).threads|
    ensures ThreadRight(cfg, Step(cfg, s, a), t)
  {
    StepLogsRight(cfg, s, a);
    assert ThreadRight(cfg, s, t);
  }

  lemma StepKeeps<T(!new)>(cfg: Config, s: System<T>, a: Action<T>)
    requires Inv(cfg, s)
    ensures Inv(cfg, Step(cfg, s, a))
  {
    var r := Step(cfg, s, a);
    StepLogsRight(cfg, s, a);
    StepStampsRight(cfg, s, a);
    forall t: nat | t < |r.threads|
      ensures ThreadRight(cfg, r, t)
    {
      StepThreadsRight(cfg, s, a, t);
    }
  }

  /** Over every schedule: each stored stamp is the reading of a call that was answered with
      the static delay; only a call that saw a stamp older than the window gets an
      exponential answer, and it gets the backoff that is due; and the failures on record
      are the exponential answers since the last `Forget`. */
  lemma {:induction false} EverySchedule<T(!new)>(cfg: Config, n: nat, schedule: seq<Action<T>>)
    ensures Inv(cfg, Run(cfg, Fresh<T>(n), schedule))
    decreases |schedule|
  {
    if schedule != [] {
      EverySchedule(cfg, n, schedule[..|schedule| - 1]);
      StepKeeps(cfg, Run(cfg, Fresh<T>(n), schedule[..|schedule| - 1]), schedule[|schedule| - 1]);
    }
  }

  /** An exponential answer at any point of any schedule: an earlier call on the item had
      been answered with the static delay more than a window before. */
  lemma ExponentialOnlyAfterTheWindow<T(!new)>(cfg: Config, n: nat, schedule: seq<Action<T>>, i: nat)
    requires i < |Run(cfg, Fresh<T>(n), schedule).log|
    requires var e := Run(cfg, Fresh<T>(n), schedule).log[i]; e.Replied? && e.exponential
    ensures var log := Run(cfg, Fresh<T>(n), schedule).log;
            exists j :: 0 <= j < i && log[j].Replied? && log[j].item == log[i].item && !log[j].exponential
                        && log[j].delay == cfg.staticDelay && log[i].now - log[j].now > cfg.staticWindow
  {
    var log := Run(cfg, Fresh<T>(n), schedule).log;
    EverySchedule(cfg, n, schedule);
    assert AnsweredRight(cfg, log, i);
    var first := Replied(log[i].item, log[i].seen.value, None, cfg.staticDelay, false);
    assert first in log[..i];
  }

  /** A call that no other thread interrupts is the atomic one. */
  lemma UninterruptedCallIsAtomic<T(!new)>(cfg: Config, s: System<T>, t: nat, x: T)
    requires t < |s.threads| && s.threads[t].Idle? && s.writer.None?
    ensures var looked := Step(cfg, Step(cfg, s, ReadClock(t, x)), Lookup(t));
            var r := Step(cfg, Step(cfg, looked, Store(t)), Exponential(t));
            && View(r.shared, x) == Next(cfg, View(s.shared, x), s.clock)
            && (forall y :: y != x ==> View(r.shared, y) == View(s.shared, y))
            && r.threads == s.threads && r.writer == None && |r.log| == |s.log| + 1
            && r.log[..|s.log|] == s.log && r.log[|s.log|].Replied?
            && r.log[|s.log|].delay == Delay(cfg, View(s.shared, x), s.clock)
  {
    var s1 := Step(cfg, s, ReadClock(t, x));
    var s2 := Step(cfg, s1, Lookup(t));
    var s3 := Step(cfg, s2, Store(t));
    if s2.threads[t].Missing? {
      assert s3.threads[t].Idle?;
    }
  }

  // ---------------------------------------------------------------- stamps that move back

  /** The step replaces the stamp of `x` by an earlier one. */
  predicate Lowers<T(==)>(cfg: Config, s: System<T>, a: Action<T>, x: T) {
    var before, after := s.shared.staticAttempts, Step(cfg, s, a).shared.staticAttempts;
    x in before && x in after && after[x] < before[x]
  }

  /** The thread has found no stamp for `x` and has not stored its own yet. */
  predicate Misses<T(==)>(s: System<T>, t: nat, x: T) {
    t < |s.threads| && s.threads[t].Missing? && s.threads[t].item == x
  }

  /** Two first calls on `x` overlap. */
  ghost predicate Overlapping<T>(s: System<T>, x: T) {
    exists t: nat, u: nat :: t != u && Misses(s, t, x) && Misses(s, u, x)
  }

  ghost predicate MissedIsUnstamped<T>(s: System<T>, x: T) {
    forall t: nat :: Misses(s, t, x) ==> x !in s.shared.staticAttempts
  }

  lemma StepKeepsUnstamped<T>(cfg: Config, s: System<T>, a: Action<T>, x: T)
    requires MissedIsUnstamped(s, x) && !Overlapping(s, x)
    ensures MissedIsUnstamped(Step(cfg, s, a), x) && !Lowers(cfg, s, a, x)
    ensures |Step(cfg, s, a).threads| == |s.threads|
  {
    var r := Step(cfg, s, a);
    forall t: nat | Misses(r, t, x) ensures x !in r.shared.staticAttempts {
      assert Misses(s, t, x) && a.Store? && a.t != t ==> !Misses(s, a.t, x);
    }
    if a.Store? && r != s {
      assert Misses(s, a.t, s.threads[a.t].item);
    }
  }

  /** In a schedule in which no two first calls on `x` overlap, its stamp never moves back. */
  lemma {:induction false} StampHoldsWithoutOverlap<T>(cfg: Config, n: nat, schedule: seq<Action<T>>, x: T)
    requires forall k :: 0 <= k <= |schedule| ==> !Overlapping(Run(cfg, Fresh<T>(n), schedule[..k]), x)
    ensures MissedIsUnstamped(Run(cfg, Fresh<T>(n), schedule), x)
    ensures |Run(cfg, Fresh<T>(n), schedule).threads| == n
    ensures forall a :: !Lowers(cfg, Run(cfg, Fresh<T>(n), schedule), a, x)
    decreases |schedule|
  {
    assert schedule[..|schedule|] == schedule;
    if schedule != [] {
      var before := schedule[..|schedule| - 1];
      forall k | 0 <= k <= |before| ensures !Overlapping(Run(cfg, Fresh<T>(n), before[..k]), x) {
        assert before[..k] == schedule[..k];
      }
      StampHoldsWithoutOverlap(cfg, n, before, x);
      StepKeepsUnstamped(cfg, Run(cfg, Fresh<T>(n), before), schedule[|schedule| - 1], x);
    }
    forall a ensures !Lowers(cfg, Run(cfg, Fresh<T>(n), schedule), a, x) {
      StepKeepsUnstamped(cfg, Run(cfg, Fresh<T>(n), schedule), a, x);
    }
  }

  /** And wherever two of them overlap with different readings, the stamp can move back: the
      later reading is stored first. */
  lemma OverlapCanLower<T>(cfg: Config, s: System<T>, t: nat, u: nat, x: T)
    requires Misses(s, t, x) && Misses(s, u, x) && s.threads[t].now < s.threads[u].now && s.writer.None?
    ensures Lowers(cfg, Step(cfg, s, Store(u)), Store(t), x)
  {
  }

  /** The check and the store of a first call are apart, so stamps stay where they are in
      every schedule exactly when there are not two threads to come between them. */
  lemma StampsHoldExactlyWhen<T(!new)>(cfg: Config, n: nat, x: T)
    ensures (forall schedule: seq<Action<T>>, a :: !Lowers(cfg, Run(cfg, Fresh<T>(n), schedule), a, x)) <==> n <= 1
  {
    if n <= 1 {
      forall schedule: seq<Action<T>>, a ensures !Lowers(cfg, Run(cfg, Fresh<T>(n), schedule), a, x) {
        forall k | 0 <= k <= |schedule| ensures !Overlapping(Run(cfg, Fresh<T>(n), schedule[..k]), x) {
          ThreadsStay(cfg, n, schedule[..k]);
        }
        StampHoldsWithoutOverlap(cfg, n, schedule, x);
      }
    } else {
      BothMiss(cfg, n, x);
      var s := Run(cfg, Fresh<T>(n), Overlap(x));
      OverlapCanLower(cfg, s, 0, 1, x);
      RunSnoc(cfg, Fresh<T>(n), Overlap(x), Store(1));
    }
  }

  lemma {:induction false} ThreadsStay<T>(cfg: Config, n: nat, schedule: seq<Action<T>>)
    ensures |Run(cfg, Fresh<T>(n), schedule).threads| == n
    decreases |schedule|
  {
    if schedule != [] {
      ThreadsStay(cfg, n, schedule[..|schedule| - 1]);
    }
  }

  /** Two threads read the clock at different times, and both look before either stores. */
  function Overlap<T>(x: T): seq<Action<T>> {
    [ReadClock(0, x), Tick(1), ReadClock(1, x), Lookup(0), Lookup(1)]
  }

  lemma BothMiss<T>(cfg: Config, n: nat, x: T)
    requires n >= 2
    ensures var s := Run(cfg, Fresh<T>(n), Overlap(x));
            && Misses(s, 0, x) && Misses(s, 1, x) && s.threads[0].now < s.threads[1].now && s.writer.None?
  {
    var s, a := Fresh<T>(n), Overlap(x);
    assert a[..1] == [] + [a[0]] && a[..2] == a[..1] + [a[1]] && a[..3] == a[..2] + [a[2]];
    assert a[..4] == a[..3] + [a[3]] && a == a[..4] + [a[4]];
    RunSnoc(cfg, s, [], a[0]);
    RunSnoc(cfg, s, a[..1], a[1]);
    RunSnoc(cfg, s, a[..2], a[2]);
    var clocks := s.threads[0 := HasClock(x, 0)][1 := HasClock(x, 1)];
    assert Run(cfg, s, a[..3]) == System(State(map[], map[]), 1, None, clocks, []);
    RunSnoc(cfg, s, a[..3], a[3]);
    assert Run(cfg, s, a[..4]) == System(State(map[], map[]), 1, None, clocks[0 := Missing(x, 0)], []);
    RunSnoc(cfg, s, a[..4], a[4]);
  }

  lemma RunSnoc<T>(cfg: Config, s: System<T>, schedule: seq<Action<T>>, a: Action<T>)
    ensures Run(cfg, s, schedule + [a]) == Step(cfg, Run(cfg, s, schedule), a)
  {
    assert (schedule + [a])[..|schedule|] == schedule;
  }
}
