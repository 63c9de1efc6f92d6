/** What ends the rest of an object before its time: an edited spec, or a request to refresh. */
module Wakes {
  import opened Options
  import opened Subroutines
  import opened Cluster
  import opened Lifecycle
  import opened Spreading
  import opened Rest
  import Dispatch
  import Frames

  /** Others act, and runs that do not get to read the object. */
  predicate NobodyReads(h: seq<Action>) {
    forall a :: a in h && a.Run? ==> !a.ins.get.fault.Served?
  }

  /** Nobody takes the refresh label off again. */
  predicate LabelStays(h: seq<Action>) {
    forall a :: a in h && a.Interfere? ==> a.change != DropLabel("platform-mesh.io/refresh-reconcile")
  }

  /** The spec is ahead of what was observed, or, where that counts, the label is there. */
  predicate Awake(o: Option<Object>, labelled: bool) {
    o.Some? ==>
      || o.value.generation > o.value.status.observedGeneration
      || (labelled && "platform-mesh.io/refresh-reconcile" in o.value.labels)
  }

  lemma {:induction false} AwaitAwake(w: World, nudges: seq<Nudge>, labelled: bool)
    requires Awake(w.stored, labelled)
    ensures Awake(Await(w, nudges).stored, labelled)
    decreases |nudges|
  {
    if nudges != [] && w.stored.Some? {
      AwaitAwake(Put(w, Keep(Nudged(w.stored.value, nudges[0]))), nudges[1..], labelled);
    }
  }

  lemma {:induction false} StaysAwake(cfg: Config, w: World, h: seq<Action>, labelled: bool)
    requires Awake(w.stored, labelled) && NobodyReads(h) && (labelled ==> LabelStays(h))
    ensures Awake(Play(cfg, w, h).stored, labelled)
    decreases |h|
  {
    if h != [] {
      assert h[0] in h;
      if h[0].Run? {
        AwaitAwake(w, h[0].ins.get.before, labelled);
      }
      StaysAwake(cfg, Act(cfg, w, h[0]), h[1..], labelled);
    }
  }

  lemma {:induction false} PlayConcat(cfg: Config, w: World, a: seq<Action>, b: seq<Action>)
    ensures Play(cfg, w, a + b) == Play(cfg, Play(cfg, w, a), b)
    decreases |a|
  {
    if a == [] {
      assert a + b == b;
    } else {
      assert (a + b)[0] == a[0] && (a + b)[1..] == a[1..] + b;
      PlayConcat(cfg, Act(cfg, w, a[0]), a[1..], b);
    }
  }

  /** What wakes an object. */
  predicate Wakes(n: Nudge) {
    n.ChangeSpec? || n == AddLabel("platform-mesh.io/refresh-reconcile")
  }

  /** Waking. After any history that leaves an object at rest at time `T`, an edit of its spec
      or a request to refresh, and whatever others do until a run gets to read it, that run
      goes to work, at any time, before `T` as well; and it calls the first subroutine, unless
      it cannot prepare or put its finalizers in place. */
  lemma NextRunGoesToWork(
    cfg: Config, w: World, rest: seq<Action>, n: Nudge, h: seq<Action>, later: Inputs, g: int, T: int)
    returns (calls: seq<Event>)
    requires Resting(w.stored, g, T) && cfg.spreader && forall a :: a in rest ==> Undemanding(a, T)
    requires Wakes(n) && NobodyReads(h) && (n.AddLabel? ==> LabelStays(h)) && later.get.fault.Served?
    ensures var w1 := Play(cfg, w, rest + [Interfere(DuringRun(n))] + h);
            var w2 := Await(w1, later.get.before);
            w2.stored.Some? ==>
              && Reconcile(cfg, w1, later) == RunLoaded(cfg, later, w2, w2.stored.value)
              && (!w2.stored.value.deleting ==>
                    && Dispatch.CallsOf(Reconcile(cfg, w1, later).world.trace) == Dispatch.CallsOf(w1.trace) + calls
                    && (cfg.subroutines != [] && later.prepare.None?
                          && AddFinalizers(cfg, w2, w2.stored.value, later.add).error.None? ==>
                          calls != [] && calls[0] == Dispatch.LiveCall(cfg, later, 0)))
  {
    var waking := [Interfere(DuringRun(n))];
    var w0 := Play(cfg, w, rest);
    RestsThroughHistories(cfg, w, rest, g, T);
    PlayConcat(cfg, w, rest + waking, h);
    PlayConcat(cfg, w, rest, waking);
    var woken := Play(cfg, w0, waking);
    assert waking[1..] == [];
    assert woken == Disturb(w0, DuringRun(n));
    StaysAwake(cfg, woken, h, n.AddLabel?);
    var w1 := Play(cfg, w, rest + waking + h);
    AwaitAwake(w1, later.get.before, n.AddLabel?);
    var w2 := Await(w1, later.get.before);
    Frames.AwaitIsMild(w1, later.get.before);
    Dispatch.MildCallsNothing(w1, w2);
    calls := [];
    if w2.stored.Some? && !w2.stored.value.deleting {
      calls := Dispatch.LiveRunCalls(cfg, later, w2, w2.stored.value);
    }
  }
}
