/** The limiter over whole sequences of calls: monotone answers, isolation between items,
    and how many static answers an item can get. */
module RateLimiterLaws {
  import opened Options
  import opened RateLimiter

  datatype Op<T> = When(item: T, now: int) | Forget(item: T)

  /** The state of every item, as a function: what one call does to all of them. */
  type Limiter<!T> = T -> Item

  function Step<T(==)>(cfg: Config, st: Limiter<T>, op: Op<T>): Limiter<T> {
    x =>
      if x != op.item then st(x)
      else match op
        case When(_, now) => Next(cfg, st(x), now)
        case Forget(_) => UNKNOWN
  }

  function After<T(==)>(cfg: Config, st: Limiter<T>, h: seq<Op<T>>): Limiter<T>
    decreases |h|
  {
    if h == [] then st else Step(cfg, After(cfg, st, h[..|h| - 1]), h[|h| - 1])
  }

  /** The answer to the `i`-th call. */
  function Answer<T(==)>(cfg: Config, st: Limiter<T>, h: seq<Op<T>>, i: nat): int
    requires i < |h| && h[i].When?
  {
    Delay(cfg, After(cfg, st, h[..i])(h[i].item), h[i].now)
  }

  /** The clock never goes back. */
  predicate Clocked<T>(h: seq<Op<T>>) {
    forall i, j :: 0 <= i < j < |h| && h[i].When? && h[j].When? ==> h[i].now <= h[j].now
  }

  /** Two calls for one item, the second later and not separated by a `Forget` of it. */
  predicate SameSpell<T(==)>(h: seq<Op<T>>, i: nat, j: nat) {
    && i < j < |h| && h[i].When? && h[j].When? && h[i].item == h[j].item
    && (forall k :: i < k < j && h[k].Forget? ==> h[k].item != h[i].item)
  }

  lemma {:induction false} BackoffGrows(cfg: Config, k: nat, l: nat)
    requires 0 <= cfg.initialBackoff && k <= l
    ensures Backoff(cfg, k) <= Backoff(cfg, l)
    decreases l
  {
    if k < l {
      BackoffGrows(cfg, k, l - 1);
      assert Pow2(l) == 2 * Pow2(l - 1);
      Doubles(cfg.initialBackoff, Pow2(l - 1));
    }
  }

  lemma Doubles(b: int, p: int)
    requires b >= 0 && p >= 1
    ensures b * (2 * p) >= b * p >= b
  {
    assert b * (2 * p) == b * p + b * p;
    assert b * p == b * (p - 1) + b && b * (p - 1) >= 0;
  }

  /** Within a spell an item only gets older and its failures only add up. */
  lemma {:induction false} SpellKeeps<T>(cfg: Config, st: Limiter<T>, h: seq<Op<T>>, i: nat, j: nat, x: T)
    requires i < j <= |h| && h[i].When? && h[i].item == x
    requires forall k :: i < k < j && h[k].Forget? ==> h[k].item != x
    ensures var a, b := After(cfg, st, h[..i + 1])(x), After(cfg, st, h[..j])(x);
            a.first.Some? && b.first == a.first && a.failures <= b.failures
    decreases j
  {
    assert h[..j][..j - 1] == h[..j - 1];
    if j == i + 1 {
    } else {
      SpellKeeps(cfg, st, h, i, j - 1, x);
    }
  }

  /** Within a spell the answers never decrease. */
  lemma AnswersNeverDecrease<T>(cfg: Config, st: Limiter<T>, h: seq<Op<T>>, i: nat, j: nat)
    requires Validate(cfg).None? && cfg.maxBackoff >= cfg.staticDelay
    requires Clocked(h) && SameSpell(h, i, j)
    ensures Answer(cfg, st, h, i) <= Answer(cfg, st, h, j)
  {
    var x := h[i].item;
    var before, after, at := After(cfg, st, h[..i])(x), After(cfg, st, h[..i + 1])(x), After(cfg, st, h[..j])(x);
    assert h[..i + 1][..i] == h[..i];
    SpellKeeps(cfg, st, h, i, j, x);
    if !AnswersStatic(cfg, before, h[i].now) {
      assert !AnswersStatic(cfg, at, h[j].now);
      BackoffGrows(cfg, before.failures, at.failures);
    }
  }

  /** The condition is exact: for a configuration the limiter accepts, the answers are
      monotone in every history if and only if the largest backoff is not below the static
      delay, which the limiter does not check. */
  lemma MonotoneExactlyWhen(cfg: Config)
    requires Validate(cfg).None?
    ensures cfg.maxBackoff >= cfg.staticDelay
       <==> forall h: seq<Op<nat>>, i: nat, j: nat :: Clocked(h) && SameSpell(h, i, j) ==>
              Answer(cfg, x => UNKNOWN, h, i) <= Answer(cfg, x => UNKNOWN, h, j)
  {
    if cfg.maxBackoff >= cfg.staticDelay {
      forall h: seq<Op<nat>>, i: nat, j: nat | Clocked(h) && SameSpell(h, i, j)
        ensures Answer(cfg, x => UNKNOWN, h, i) <= Answer(cfg, x => UNKNOWN, h, j)
      {
        AnswersNeverDecrease(cfg, x => UNKNOWN, h, i, j);
      }
    } else {
      var h: seq<Op<nat>> := [When(0, 0), When(0, cfg.staticWindow + 1)];
      assert Clocked(h) && SameSpell(h, 0, 1);
      assert h[..1] == [When(0, 0)] && h[..0] == [] && h[..1][..0] == [];
      assert Answer(cfg, x => UNKNOWN, h, 0) == cfg.staticDelay;
      assert After(cfg, x => UNKNOWN, h[..1])(0) == Item(Some(0), 0);
      assert Answer(cfg, x => UNKNOWN, h, 1) == cfg.maxBackoff;
    }
  }

  // ---------------------------------------------------------------- isolation

  /** What one item sees of a history. */
  datatype Touch = Called(now: int) | Forgotten

  function Touches<T(==)>(h: seq<Op<T>>, x: T): seq<Touch>
    decreases |h|
  {
    if h == [] then []
    else
      var op, before := h[|h| - 1], Touches(h[..|h| - 1], x);
      if op.item != x then before else before + [if op.When? then Called(op.now) else Forgotten]
  }

  /** A limiter that only ever heard of one item. */
  function ItemAfter(cfg: Config, it: Item, ts: seq<Touch>): Item
    decreases |ts|
  {
    if ts == [] then it
    else match ts[|ts| - 1]
      case Called(now) => Next(cfg, ItemAfter(cfg, it, ts[..|ts| - 1]), now)
      case Forgotten => UNKNOWN
  }

  function ItemAnswers(cfg: Config, it: Item, ts: seq<Touch>): seq<int>
    decreases |ts|
  {
    if ts == [] then []
    else
      var before := ItemAnswers(cfg, it, ts[..|ts| - 1]);
      match ts[|ts| - 1]
      case Called(now) => before + [Delay(cfg, ItemAfter(cfg, it, ts[..|ts| - 1]), now)]
      case Forgotten => before
  }

  /** All answers the shared limiter gives for one item, in order. */
  function Answers<T(==)>(cfg: Config, st: Limiter<T>, h: seq<Op<T>>, x: T): seq<int>
    decreases |h|
  {
    if h == [] then []
    else
      var op, before := h[|h| - 1], Answers(cfg, st, h[..|h| - 1], x);
      if op.When? && op.item == x then before + [Delay(cfg, After(cfg, st, h[..|h| - 1])(x), op.now)] else before
  }

  /** The shared limiter treats every item as a limiter of its own would. */
  lemma {:induction false} SharedIsPrivate<T>(cfg: Config, st: Limiter<T>, h: seq<Op<T>>, x: T)
    ensures After(cfg, st, h)(x) == ItemAfter(cfg, st(x), Touches(h, x))
    ensures Answers(cfg, st, h, x) == ItemAnswers(cfg, st(x), Touches(h, x))
    decreases |h|
  {
    if h != [] {
      SharedIsPrivate(cfg, st, h[..|h| - 1], x);
      var op, before := h[|h| - 1], Touches(h[..|h| - 1], x);
      if op.item == x {
        var touch := if op.When? then Called(op.now) else Forgotten;
        assert (before + [touch])[..|before|] == before;
      }
    }
  }

  /** Two histories that agree on the calls for `x` answer `x` alike, whatever they do to
      other items and in whatever order those calls come in between. */
  lemma CallsOnOtherItemsChangeNothing<T>(cfg: Config, st: Limiter<T>, h: seq<Op<T>>, g: seq<Op<T>>, x: T)
    requires Touches(h, x) == Touches(g, x)
    ensures Answers(cfg, st, h, x) == Answers(cfg, st, g, x)
    ensures After(cfg, st, h)(x) == After(cfg, st, g)(x)
  {
    SharedIsPrivate(cfg, st, h, x);
    SharedIsPrivate(cfg, st, g, x);
  }
}
