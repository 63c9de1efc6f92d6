/** How many static answers an item gets between two `Forget`s, and what follows them. */
module StaticPhase {
  import opened Options
  import opened RateLimiter
  import opened RateLimiterLaws

  /** Calls only, at times that never go back. */
  predicate Spell(ts: seq<Touch>) {
    && (forall i :: 0 <= i < |ts| ==> ts[i].Called?)
    && (forall i, j :: 0 <= i < j < |ts| ==> ts[i].now <= ts[j].now)
  }

  /** How many calls fall within `window` of the first one. */
  function InWindow(window: int, ts: seq<Touch>): (n: nat)
    requires Spell(ts)
    ensures n <= |ts|
    decreases |ts|
  {
    if ts == [] then 0
    else InWindow(window, ts[..|ts| - 1]) + (if ts[|ts| - 1].now - ts[0].now <= window then 1 else 0)
  }

  /** The calls within the window come first. */
  lemma {:induction false} WindowIsAPrefix(window: int, ts: seq<Touch>)
    requires Spell(ts)
    ensures forall i :: 0 <= i < |ts| ==> (i < InWindow(window, ts) <==> ts[i].now - ts[0].now <= window)
    decreases |ts|
  {
    if ts != [] {
      var before := ts[..|ts| - 1];
      WindowIsAPrefix(window, before);
      forall i | 0 <= i < |ts|
        ensures i < InWindow(window, ts) <==> ts[i].now - ts[0].now <= window
      {
        if i < |before| {
          assert before[i] == ts[i] && before[0] == ts[0];
        }
      }
    }
  }

  /** Static answers first, `m` of them, and then the backoffs in order. */
  ghost predicate Shaped(cfg: Config, answers: seq<int>, m: nat) {
    && m <= |answers|
    && (forall k :: 0 <= k < m ==> answers[k] == cfg.staticDelay)
    && (forall k :: m <= k < |answers| ==> answers[k] == Backoff(cfg, k - m))
  }

  lemma ShapeExtends(cfg: Config, answers: seq<int>, m: nat, next: int)
    requires Shaped(cfg, answers, m)
    ensures m == |answers| && next == cfg.staticDelay ==> Shaped(cfg, answers + [next], m + 1)
    ensures next == Backoff(cfg, |answers| - m) ==> Shaped(cfg, answers + [next], m)
  {
  }

  /** The whole shape of a spell: a run of static answers, one for each call within the
      window, then the backoffs in order; `NumRequeues` is the number of the latter. */
  lemma {:induction false} StaticThenExponential(cfg: Config, ts: seq<Touch>)
    requires Spell(ts) && 0 <= cfg.staticWindow
    ensures var m, answers := InWindow(cfg.staticWindow, ts), ItemAnswers(cfg, UNKNOWN, ts);
            && |answers| == |ts| && Shaped(cfg, answers, m)
            && ItemAfter(cfg, UNKNOWN, ts) == Item(if ts == [] then None else Some(ts[0].now), |ts| - m)
    decreases |ts|
  {
    if ts != [] {
      var before, last := ts[..|ts| - 1], ts[|ts| - 1];
      var m := InWindow(cfg.staticWindow, before);
      StaticThenExponential(cfg, before);
      WindowIsAPrefix(cfg.staticWindow, ts);
      ShapeExtends(cfg, ItemAnswers(cfg, UNKNOWN, before), m, Delay(cfg, ItemAfter(cfg, UNKNOWN, before), last.now));
    }
  }

  /** Every caller waits at least as long as it was told to. */
  predicate Waits(cfg: Config, ts: seq<Touch>)
    requires Spell(ts)
  {
    && |ItemAnswers(cfg, UNKNOWN, ts)| == |ts|
    && (forall k :: 0 < k < |ts| ==> ts[k].now >= ts[k - 1].now + ItemAnswers(cfg, UNKNOWN, ts)[k - 1])
  }

  lemma {:induction false} StaticCallsAreSpaced(cfg: Config, ts: seq<Touch>, k: nat)
    requires Spell(ts) && Waits(cfg, ts) && 0 <= cfg.staticWindow
    requires k < InWindow(cfg.staticWindow, ts)
    ensures ts[k].now >= ts[0].now + k * cfg.staticDelay
  {
    if k > 0 {
      StaticCallsAreSpaced(cfg, ts, k - 1);
      StaticThenExponential(cfg, ts);
      assert k * cfg.staticDelay == (k - 1) * cfg.staticDelay + cfg.staticDelay;
    }
  }

  lemma Scaled(a: int, b: int, s: int)
    requires a <= b && s >= 0
    ensures a * s <= b * s
  {
    assert (b - a) * s >= 0;
  }

  lemma QuotientBound(m: nat, s: int, w: int)
    requires s > 0 && w >= 0 && (m == 0 || (m - 1) * s <= w)
    ensures m <= w / s + 1
  {
    var q := w / s;
    assert q * s + s > w;
    if m > q + 1 {
      Scaled(q + 1, m - 1, s);
      assert false;
    }
  }

  lemma StaticAnswersFitTheWindow(cfg: Config, ts: seq<Touch>)
    requires 0 <= cfg.staticWindow
    requires Spell(ts) && Waits(cfg, ts)
    ensures var m := InWindow(cfg.staticWindow, ts); m == 0 || (m - 1) * cfg.staticDelay <= cfg.staticWindow
  {
    var m := InWindow(cfg.staticWindow, ts);
    if m > 0 {
      StaticCallsAreSpaced(cfg, ts, m - 1);
      WindowIsAPrefix(cfg.staticWindow, ts);
    }
  }

  /** At most `window / delay + 1` static answers, for callers that wait. */
  lemma StaticAnswersAreFew(cfg: Config, ts: seq<Touch>)
    requires Validate(cfg).None? && cfg.staticDelay > 0
    requires Spell(ts) && Waits(cfg, ts)
    ensures InWindow(cfg.staticWindow, ts) <= cfg.staticWindow / cfg.staticDelay + 1
  {
    StaticAnswersFitTheWindow(cfg, ts);
    QuotientBound(InWindow(cfg.staticWindow, ts), cfg.staticDelay, cfg.staticWindow);
  }

  /** A caller that comes back the moment it may: calls at 0, `s`, `2s`, ... */
  function Eager(n: nat, s: nat): (ts: seq<Touch>) {
    seq(n, i requires 0 <= i < n => Called(i * s))
  }

  lemma EagerIsSpell(n: nat, s: nat)
    ensures Spell(Eager(n, s))
    ensures forall k :: 0 < k < n ==> Eager(n, s)[k].now == Eager(n, s)[k - 1].now + s
    ensures forall k :: 0 <= k < n ==> Eager(n, s)[k].now <= (n - 1) * s
  {
    forall i, j | 0 <= i < j < n
      ensures Eager(n, s)[i].now <= Eager(n, s)[j].now
    {
      Scaled(i, j, s);
    }
    forall i | 0 <= i < n
      ensures Eager(n, s)[i].now <= (n - 1) * s
    {
      Scaled(i, n - 1, s);
    }
    forall k | 0 < k < n
      ensures Eager(n, s)[k].now == Eager(n, s)[k - 1].now + s
    {
      assert k * s == (k - 1) * s + s;
    }
  }

  /** The bound is met by that caller. */
  lemma StaticBoundIsMet(cfg: Config, n: nat)
    requires Validate(cfg).None? && cfg.staticDelay > 0
    requires n == cfg.staticWindow / cfg.staticDelay + 1
    ensures Spell(Eager(n, cfg.staticDelay)) && Waits(cfg, Eager(n, cfg.staticDelay))
    ensures InWindow(cfg.staticWindow, Eager(n, cfg.staticDelay)) == n
  {
    var ts := Eager(n, cfg.staticDelay);
    EagerIsSpell(n, cfg.staticDelay);
    AllInWindow(cfg.staticWindow, ts);
    StaticThenExponential(cfg, ts);
  }

  lemma {:induction false} AllInWindow(window: int, ts: seq<Touch>)
    requires Spell(ts) && forall i :: 0 <= i < |ts| ==> ts[i].now - ts[0].now <= window
    ensures InWindow(window, ts) == |ts|
    decreases |ts|
  {
    if ts != [] {
      AllInWindow(window, ts[..|ts| - 1]);
    }
  }

  /** The `k`-th backoff is the doubled initial one, cut off at the maximum. */
  lemma BackoffIsCutOff(cfg: Config, k: nat)
    requires cfg.maxBackoff <= MAX_DURATION
    ensures Backoff(cfg, k) <= cfg.maxBackoff
    ensures Backoff(cfg, k) == cfg.maxBackoff || Backoff(cfg, k) == cfg.initialBackoff * Pow2(k) < cfg.maxBackoff
    ensures Backoff(cfg, k) <= cfg.initialBackoff * Pow2(k)
  {
  }

  /** Said without powers: the backoff starts with the initial one, and every next one is twice
      the one before, never more than the maximum. */
  lemma BackoffDoubles(cfg: Config, k: nat)
    requires 0 <= cfg.initialBackoff && 0 <= cfg.maxBackoff <= 9_223_372_036_854_775_807
    ensures Backoff(cfg, 0) == if cfg.initialBackoff > cfg.maxBackoff then cfg.maxBackoff else cfg.initialBackoff
    ensures var twice := 2 * Backoff(cfg, k);
            Backoff(cfg, k + 1) == if twice > cfg.maxBackoff then cfg.maxBackoff else twice
  {
    var b := cfg.initialBackoff * Pow2(k);
    assert cfg.initialBackoff * Pow2(0) == cfg.initialBackoff;
    assert cfg.initialBackoff * Pow2(k + 1) == 2 * b by {
      assert Pow2(k + 1) == 2 * Pow2(k);
    }
    assert b >= 0;
  }

  /** The limiter with the default configuration: callers that wait get at most 31 answers of
      two seconds within a minute; after that come 2, 4, 8 and so on up to 512 seconds, and
      1000 seconds for good. */
  lemma DefaultLimiter(ts: seq<Touch>, k: nat)
    requires Spell(ts) && Waits(DEFAULT_CONFIG, ts)
    ensures InWindow(60_000_000_000, ts) <= 31
    ensures |ItemAnswers(DEFAULT_CONFIG, UNKNOWN, ts)| == |ts|
    ensures k < InWindow(60_000_000_000, ts) ==> ItemAnswers(DEFAULT_CONFIG, UNKNOWN, ts)[k] == 2_000_000_000
    ensures InWindow(60_000_000_000, ts) <= k < |ts| ==>
              ItemAnswers(DEFAULT_CONFIG, UNKNOWN, ts)[k] == Backoff(DEFAULT_CONFIG, k - InWindow(60_000_000_000, ts))
    ensures Backoff(DEFAULT_CONFIG, 0) == 2_000_000_000 && Backoff(DEFAULT_CONFIG, 1) == 4_000_000_000
    ensures k < 8 ==> Backoff(DEFAULT_CONFIG, k + 1) == 2 * Backoff(DEFAULT_CONFIG, k) <= 512_000_000_000
    ensures k >= 9 ==> Backoff(DEFAULT_CONFIG, k) == 1_000_000_000_000
  {
    StaticThenExponential(DEFAULT_CONFIG, ts);
    StaticAnswersAreFew(DEFAULT_CONFIG, ts);
    DefaultBackoff(k);
    DefaultBackoff(0);
  }

  lemma {:induction false} DefaultBackoff(k: nat)
    ensures Backoff(DEFAULT_CONFIG, k) == if k >= 9 then 1_000_000_000_000 else 2_000_000_000 * Pow2(k)
    ensures k <= 8 ==> Pow2(k) <= 256
    ensures k < 8 ==> Backoff(DEFAULT_CONFIG, k + 1) == 2 * Backoff(DEFAULT_CONFIG, k) <= 512_000_000_000
    ensures Backoff(DEFAULT_CONFIG, 1) == 4_000_000_000
  {
    BackoffDoubles(DEFAULT_CONFIG, k);
    BackoffDoubles(DEFAULT_CONFIG, 0);
    if k > 0 {
      DefaultBackoff(k - 1);
      BackoffDoubles(DEFAULT_CONFIG, k - 1);
    }
  }

  /** The same for the shared limiter: whatever other items do in between, an item that is
      not forgotten gets the static answers of its window and then the backoffs. */
  lemma SharedStaticThenExponential<T>(cfg: Config, st: Limiter<T>, h: seq<Op<T>>, x: T)
    requires 0 <= cfg.staticWindow && st(x) == UNKNOWN && Spell(Touches(h, x))
    ensures var answers, m := Answers(cfg, st, h, x), InWindow(cfg.staticWindow, Touches(h, x));
            && |answers| == |Touches(h, x)| && Shaped(cfg, answers, m)
            && After(cfg, st, h)(x).failures == |answers| - m
  {
    SharedIsPrivate(cfg, st, h, x);
    StaticThenExponential(cfg, Touches(h, x));
  }
}
