/** The static-then-exponential rate limiter: its configuration, its state, and the limiter
    object. Durations and clock readings are integers in nanoseconds. */
module RateLimiter {
  import opened Options

  const SECOND := 1_000_000_000
  const MAX_DURATION := 0x7FFF_FFFF_FFFF_FFFF

  // ---------------------------------------------------------------- configuration

  datatype Config = Config(staticDelay: int, staticWindow: int, initialBackoff: int, maxBackoff: int)

  const DEFAULT_CONFIG := Config(2 * SECOND, 60 * SECOND, 2 * SECOND, 1000 * SECOND)

  datatype ConfigError = NegativeDelay | NegativeBackoff | DelayAboveBackoff | WindowBelowDelay

  function Validate(c: Config): (err: Option<ConfigError>)
    ensures err.None? <==> 0 <= c.staticDelay <= c.initialBackoff && c.staticDelay <= c.staticWindow
  {
    if c.staticDelay < 0 then Some(NegativeDelay)
    else if c.initialBackoff < 0 then Some(NegativeBackoff)
    else if c.staticDelay > c.initialBackoff then Some(DelayAboveBackoff)
    else if c.staticWindow < c.staticDelay then Some(WindowBelowDelay)
    else None
  }

  datatype Field = StaticWindow | RequeueDelay | InitialBackoff | MaxBackoff

  /** One option: the field it sets and the value. */
  datatype Setting = Setting(field: Field, d: int)

  function Get(c: Config, f: Field): int {
    match f
    case StaticWindow => c.staticWindow
    case RequeueDelay => c.staticDelay
    case InitialBackoff => c.initialBackoff
    case MaxBackoff => c.maxBackoff
  }

  function Apply(c: Config, s: Setting): Config {
    match s.field
    case StaticWindow => c.(staticWindow := s.d)
    case RequeueDelay => c.(staticDelay := s.d)
    case InitialBackoff => c.(initialBackoff := s.d)
    case MaxBackoff => c.(maxBackoff := s.d)
  }

  /** The `i`-th setting is the last one of its field. */
  ghost predicate LastOfItsField(settings: seq<Setting>, i: nat)
    requires i < |settings|
  {
    forall j :: i < j < |settings| ==> settings[j].field != settings[i].field
  }

  ghost predicate Untouched(settings: seq<Setting>, f: Field) {
    forall i :: 0 <= i < |settings| ==> settings[i].field != f
  }

  /** The last setting of each field wins, and a field that is not set keeps its default. */
  method NewConfig(settings: seq<Setting>) returns (c: Config)
    ensures forall i :: 0 <= i < |settings| && LastOfItsField(settings, i) ==>
              settings[i].d == match settings[i].field
                case StaticWindow => c.staticWindow
                case RequeueDelay => c.staticDelay
                case InitialBackoff => c.initialBackoff
                case MaxBackoff => c.maxBackoff
    ensures Untouched(settings, StaticWindow) ==> c.staticWindow == 60_000_000_000
    ensures Untouched(settings, RequeueDelay) ==> c.staticDelay == 2_000_000_000
    ensures Untouched(settings, InitialBackoff) ==> c.initialBackoff == 2_000_000_000
    ensures Untouched(settings, MaxBackoff) ==> c.maxBackoff == 1_000_000_000_000
  {
    c := DEFAULT_CONFIG;
    for k := 0 to |settings|
      invariant forall i :: 0 <= i < k && LastOfItsField(settings[..k], i) ==>
                  Get(c, settings[i].field) == settings[i].d
      invariant forall f :: Untouched(settings[..k], f) ==> Get(c, f) == Get(DEFAULT_CONFIG, f)
    {
      ghost var before := c;
      c := Apply(c, settings[k]);
      assert settings[..k + 1] == settings[..k] + [settings[k]];
      forall i | 0 <= i < k && LastOfItsField(settings[..k + 1], i)
        ensures Get(c, settings[i].field) == settings[i].d
      {
        assert settings[..k + 1][k] == settings[k];
        assert LastOfItsField(settings[..k], i) by {
          forall j | i < j < k ensures settings[..k][j].field != settings[i].field {
            assert settings[..k + 1][j] == settings[..k][j];
          }
        }
      }
      forall f | Untouched(settings[..k + 1], f)
        ensures Get(c, f) == Get(DEFAULT_CONFIG, f)
      {
        assert settings[..k + 1][k].field != f;
        assert Untouched(settings[..k], f) by {
          forall i | 0 <= i < k ensures settings[..k][i].field != f {
            assert settings[..k + 1][i] == settings[..k][i];
          }
        }
      }
    }
    assert settings[..|settings|] == settings;
  }

  // ---------------------------------------------------------------- one item

  /** What the limiter knows of one item: when it was first seen, and how often it was
      answered by the exponential limiter. */
  datatype Item = Item(first: Option<int>, failures: nat)

  const UNKNOWN := Item(None, 0)

  function Pow2(k: nat): (p: int)
    ensures p >= 1
  {
    if k == 0 then 1 else 2 * Pow2(k - 1)
  }

  /** The exponential limiter's answer after `k` failures: the doubled backoff, cut off at
      the maximum, which also stands in for anything that overflows a duration. */
  function Backoff(cfg: Config, k: nat): int {
    var b := cfg.initialBackoff * Pow2(k);
    if b > MAX_DURATION || b > cfg.maxBackoff then cfg.maxBackoff else b
  }

  predicate AnswersStatic(cfg: Config, it: Item, now: int) {
    it.first.None? || now - it.first.value <= cfg.staticWindow
  }

  /** The answer to one call at time `now`. */
  function Delay(cfg: Config, it: Item, now: int): int {
    if AnswersStatic(cfg, it, now) then cfg.staticDelay else Backoff(cfg, it.failures)
  }

  function Next(cfg: Config, it: Item, now: int): Item {
    if it.first.None? then it.(first := Some(now))
    else if AnswersStatic(cfg, it, now) then it
    else it.(failures := it.failures + 1)
  }

  // ---------------------------------------------------------------- the limiter

  /** The whole state: one map per field of the limiter. */
  datatype State<T(==)> = State(staticAttempts: map<T, int>, failures: map<T, nat>)

  function View<T>(st: State<T>, x: T): Item {
    Item(if x in st.staticAttempts then Some(st.staticAttempts[x]) else None,
         if x in st.failures then st.failures[x] else 0)
  }

  class StaticThenExponentialRateLimiter<T(==, !new)> {
    const cfg: Config
    var staticAttempts: map<T, int>
    var failures: map<T, nat>

    function Abs(): State<T>
      reads this
    {
      State(staticAttempts, failures)
    }

    constructor (cfg: Config)
      requires Validate(cfg).None?
      ensures this.cfg == cfg && forall x :: View(Abs(), x) == UNKNOWN
    {
      this.cfg := cfg;
      staticAttempts := map[];
      failures := map[];
    }

    /** The exponential limiter inside. */
    method ExponentialWhen(item: T) returns (delay: int)
      modifies `failures
      ensures delay == Backoff(cfg, old(View(Abs(), item)).failures)
      ensures View(Abs(), item).failures == old(View(Abs(), item)).failures + 1
      ensures forall x :: x != item ==> View(Abs(), x) == old(View(Abs(), x))
    {
      var exp := if item in failures then failures[item] else 0;
      failures := failures[item := exp + 1];
      var backoff := cfg.initialBackoff * Pow2(exp);
      if backoff > MAX_DURATION {
        return cfg.maxBackoff;
      }
      if backoff > cfg.maxBackoff {
        return cfg.maxBackoff;
      }
      delay := backoff;
    }

    /** One call answers and moves its own item, and no other. */
    method When(item: T, now: int) returns (delay: int)
      modifies this
      ensures delay == Delay(cfg, old(View(Abs(), item)), now)
      ensures View(Abs(), item) == Next(cfg, old(View(Abs(), item)), now)
      ensures forall x :: x != item ==> View(Abs(), x) == old(View(Abs(), x))
    {
      if item !in staticAttempts {
        staticAttempts := staticAttempts[item := now];
        return cfg.staticDelay;
      }
      var timeSinceFirst := now - staticAttempts[item];
      if timeSinceFirst <= cfg.staticWindow {
        return cfg.staticDelay;
      }
      delay := ExponentialWhen(item);
    }

    method Forget(item: T)
      modifies this
      ensures View(Abs(), item) == UNKNOWN
      ensures forall x :: x != item ==> View(Abs(), x) == old(View(Abs(), x))
    {
      staticAttempts := staticAttempts - {item};
      failures := failures - {item};
    }

    method NumRequeues(item: T) returns (n: nat)
      ensures n == View(Abs(), item).failures
    {
      n := if item in failures then failures[item] else 0;
    }
  }
}
