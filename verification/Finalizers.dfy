/** Finalizer lists: what adding and removing does to membership and to the order of the
    finalizers of others. */
module Finalizers {
  import opened Subroutines
  import opened Cluster
  import opened Lifecycle

  /** Some subroutine of the configuration lists `f`. */
  predicate Owned(cfg: Config, f: string) {
    exists i :: 0 <= i < |cfg.subroutines| && f in cfg.subroutines[i].finalizers
  }

  /** No finalizer belongs to two subroutines. */
  predicate Disjoint(cfg: Config) {
    forall i, j :: 0 <= i < j < |cfg.subroutines| ==>
      !Contains(cfg.subroutines[i].finalizers, cfg.subroutines[j].finalizers)
  }

  /** The finalizers of `fs` that no subroutine owns, in order. */
  function Foreign(cfg: Config, fs: seq<string>): seq<string> {
    if fs == [] then []
    else (if Owned(cfg, fs[0]) then [] else [fs[0]]) + Foreign(cfg, fs[1..])
  }

  lemma {:induction false} WithoutMembers(list: seq<string>, x: string)
    ensures forall f :: f in Without(list, x) <==> f in list && f != x
  {
    if list != [] {
      WithoutMembers(list[1..], x);
      assert list == [list[0]] + list[1..];
    }
  }

  lemma {:induction false} WithoutForeign(cfg: Config, list: seq<string>, x: string)
    requires Owned(cfg, x)
    ensures Foreign(cfg, Without(list, x)) == Foreign(cfg, list)
  {
    if list != [] {
      WithoutForeign(cfg, list[1..], x);
      if list[0] != x {
        assert Without(list, x)[1..] == Without(list[1..], x);
      }
    }
  }

  lemma {:induction false} WithoutFinalizersMembers(fs: seq<string>, removed: seq<string>)
    ensures forall f :: f in WithoutFinalizers(fs, removed) <==> f in fs && f !in removed
    decreases |removed|
  {
    if removed != [] {
      WithoutMembers(fs, removed[0]);
      WithoutFinalizersMembers(Without(fs, removed[0]), removed[1..]);
      assert removed == [removed[0]] + removed[1..];
    }
  }

  lemma {:induction false} WithoutFinalizersForeign(cfg: Config, fs: seq<string>, removed: seq<string>)
    requires forall f :: f in removed ==> Owned(cfg, f)
    ensures Foreign(cfg, WithoutFinalizers(fs, removed)) == Foreign(cfg, fs)
    decreases |removed|
  {
    if removed != [] {
      WithoutForeign(cfg, fs, removed[0]);
      WithoutFinalizersForeign(cfg, Without(fs, removed[0]), removed[1..]);
    }
  }

  lemma {:induction false} WithFinalizersMembers(fs: seq<string>, added: seq<string>)
    ensures forall f :: f in WithFinalizers(fs, added) <==> f in fs || f in added
    ensures fs <= WithFinalizers(fs, added)
    ensures WithFinalizers(fs, added) == fs || exists f :: f in WithFinalizers(fs, added) && f !in fs
    decreases |added|
  {
    if added != [] {
      WithFinalizersMembers(if added[0] in fs then fs else fs + [added[0]], added[1..]);
      assert added == [added[0]] + added[1..];
    }
  }

  lemma {:induction false} WithAllFinalizersMembers(fs: seq<string>, subs: seq<Subroutine>)
    ensures fs <= WithAllFinalizers(fs, subs)
    ensures WithAllFinalizers(fs, subs) == fs || exists f :: f in WithAllFinalizers(fs, subs) && f !in fs
    ensures forall i, f :: 0 <= i < |subs| && f in subs[i].finalizers ==> f in WithAllFinalizers(fs, subs)
    ensures forall f :: f in WithAllFinalizers(fs, subs) ==>
              f in fs || exists i :: 0 <= i < |subs| && f in subs[i].finalizers
    decreases |subs|
  {
    if subs != [] {
      var fs1 := WithFinalizers(fs, subs[0].finalizers);
      WithFinalizersMembers(fs, subs[0].finalizers);
      WithAllFinalizersMembers(fs1, subs[1..]);
      forall i, f | 0 <= i < |subs| && f in subs[i].finalizers ensures f in WithAllFinalizers(fs, subs) {
        if i > 0 {
          assert subs[1..][i - 1] == subs[i];
        } else {
          assert f in fs1;
        }
      }
    }
  }

  /** Nothing is added to a list that holds every owned finalizer already. */
  lemma {:induction false} WithFinalizersNoop(fs: seq<string>, added: seq<string>)
    requires forall f :: f in added ==> f in fs
    ensures WithFinalizers(fs, added) == fs
    decreases |added|
  {
    if added != [] {
      assert added[0] in added;
      WithFinalizersNoop(fs, added[1..]);
    }
  }

  lemma {:induction false} WithAllFinalizersNoop(fs: seq<string>, subs: seq<Subroutine>)
    requires forall i, f :: 0 <= i < |subs| && f in subs[i].finalizers ==> f in fs
    ensures WithAllFinalizers(fs, subs) == fs
    decreases |subs|
  {
    if subs != [] {
      WithFinalizersNoop(fs, subs[0].finalizers);
      forall i, f | 0 <= i < |subs[1..]| && f in subs[1..][i].finalizers ensures f in fs {
        assert subs[1..][i] == subs[i + 1];
      }
      WithAllFinalizersNoop(fs, subs[1..]);
    }
  }

  /** Adding never disturbs what was there; the order of foreign finalizers stays. */
  lemma {:induction false} ForeignAppend(cfg: Config, fs: seq<string>, f: string)
    ensures Foreign(cfg, fs + [f]) == Foreign(cfg, fs) + if Owned(cfg, f) then [] else [f]
  {
    if fs != [] {
      ForeignAppend(cfg, fs[1..], f);
      assert (fs + [f])[1..] == fs[1..] + [f];
    } else {
      assert (fs + [f])[1..] == [];
    }
  }

  lemma {:induction false} WithFinalizersForeign(cfg: Config, fs: seq<string>, added: seq<string>)
    requires forall f :: f in added ==> Owned(cfg, f)
    ensures Foreign(cfg, WithFinalizers(fs, added)) == Foreign(cfg, fs)
    decreases |added|
  {
    if added != [] {
      assert added[0] in added;
      ForeignAppend(cfg, fs, added[0]);
      WithFinalizersForeign(cfg, if added[0] in fs then fs else fs + [added[0]], added[1..]);
    }
  }

  lemma {:induction false} WithAllFinalizersForeign(cfg: Config, fs: seq<string>, n: nat)
    requires n <= |cfg.subroutines|
    ensures Foreign(cfg, WithAllFinalizers(fs, cfg.subroutines[n..])) == Foreign(cfg, fs)
    decreases |cfg.subroutines| - n
  {
    if n < |cfg.subroutines| {
      var subs := cfg.subroutines[n..];
      var fs1 := WithFinalizers(fs, subs[0].finalizers);
      assert subs[0] == cfg.subroutines[n] && subs[1..] == cfg.subroutines[n + 1..];
      WithFinalizersForeign(cfg, fs, subs[0].finalizers);
      WithAllFinalizersForeign(cfg, fs1, n + 1);
    }
  }
}
