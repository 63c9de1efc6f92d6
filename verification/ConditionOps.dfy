/** Sequences of changes of a condition list, and exactly when applying one a second time, at
    whatever later time, changes nothing more. */
module ConditionOps {
  import opened Options
  import opened Conditions
  import opened Cluster

  /** What a run does to a status: it sets a condition, always or only where none or one of
      its type is there, removes one, or writes the application's data. */
  datatype Op =
    | Put(c: Condition)
    | PutIfMissing(c: Condition)
    | PutIfPresent(c: Condition)
    | Drop(t: string)
    | Write(data: int)

  function Do(op: Op, now: int, s: Status): Status {
    match op
    case Put(c) => s.(conditions := SetCondition(s.conditions, c, now))
    case PutIfMissing(c) => s.(conditions := SetIfMissing(s.conditions, c, now))
    case PutIfPresent(c) => s.(conditions := SetIfPresent(s.conditions, c, now))
    case Drop(t) => s.(conditions := RemoveCondition(s.conditions, t))
    case Write(d) => s.(data := d)
  }

  function Apply(ops: seq<Op>, now: int, s: Status): Status {
    var n := |ops|;
    if n == 0 then s else Do(ops[n - 1], now, Apply(ops[..n - 1], now, s))
  }

  /** The condition type an operation is about. */
  function TypeOf(op: Op): Option<string> {
    match op
    case Put(c) => Some(c.ctype)
    case PutIfMissing(c) => Some(c.ctype)
    case PutIfPresent(c) => Some(c.ctype)
    case Drop(t) => Some(t)
    case Write(_) => None
  }

  /** The operations on conditions of type `t`, in order. */
  function On(ops: seq<Op>, t: string): seq<Op> {
    var n := |ops|;
    if n == 0 then []
    else if TypeOf(ops[n - 1]) == Some(t) then On(ops[..n - 1], t) + [ops[n - 1]]
    else On(ops[..n - 1], t)
  }

  predicate Overwrites(op: Op) {
    op.Put? || op.PutIfPresent?
  }

  /** After the last removal nothing creates the condition again. */
  predicate EndsRemoved(ops: seq<Op>) {
    var n := |ops|;
    n > 0 && (ops[n - 1].Drop? || (ops[n - 1].PutIfPresent? && EndsRemoved(ops[..n - 1])))
  }

  /** Nothing is removed, and all that is set over a condition has one status. */
  predicate OneStatus(ops: seq<Op>) {
    && (forall op :: op in ops ==> !op.Drop?)
    && (forall a, b :: a in ops && b in ops && Overwrites(a) && Overwrites(b) ==> a.c.status == b.c.status)
  }

  predicate Orderly(ops: seq<Op>) {
    EndsRemoved(ops) || OneStatus(ops)
  }

  /** The first operation on a type is not one that needs the condition to be there. */
  ghost predicate Led(ops: seq<Op>) {
    forall t :: var own := On(ops, t); own == [] || !own[0].PutIfPresent?
  }

  // ---------------------------------------------------------------- sequences of operations

  lemma {:induction false} ApplyConcat(a: seq<Op>, b: seq<Op>, now: int, s: Status)
    ensures Apply(a + b, now, s) == Apply(b, now, Apply(a, now, s))
  {
    var n := |b|;
    if n == 0 {
      assert a + b == a;
    } else {
      assert (a + b)[..|a + b| - 1] == a + b[..n - 1];
      ApplyConcat(a, b[..n - 1], now, s);
    }
  }

  lemma {:induction false} OnConcat(a: seq<Op>, b: seq<Op>, t: string)
    ensures On(a + b, t) == On(a, t) + On(b, t)
  {
    var n := |b|;
    if n == 0 {
      assert a + b == a;
    } else {
      assert (a + b)[..|a + b| - 1] == a + b[..n - 1];
      OnConcat(a, b[..n - 1], t);
    }
  }

  lemma {:induction false} OnMembers(ops: seq<Op>, t: string)
    ensures forall op :: op in On(ops, t) <==> op in ops && TypeOf(op) == Some(t)
  {
    var n := |ops|;
    if n > 0 {
      OnMembers(ops[..n - 1], t);
      assert ops == ops[..n - 1] + [ops[n - 1]];
    }
  }

  // ---------------------------------------------------------------- one type

  /** What becomes of the condition that is found for the operation's type. */
  function Become(op: Op, now: int, v: Option<Condition>): Option<Condition> {
    match op
    case Put(c) => Some(if v.Some? then Merge(v.value, c, now) else c.(transition := now))
    case PutIfMissing(c) => if v.Some? then v else Some(c.(transition := now))
    case PutIfPresent(c) => if v.Some? then Some(Merge(v.value, c, now)) else None
    case Drop(_) => None
    case Write(_) => v
  }

  function BecomeAll(ops: seq<Op>, now: int, v: Option<Condition>): Option<Condition> {
    var n := |ops|;
    if n == 0 then v else Become(ops[n - 1], now, BecomeAll(ops[..n - 1], now, v))
  }

  lemma BecomeStep(ops: seq<Op>, op: Op, now: int, v: Option<Condition>)
    ensures BecomeAll(ops + [op], now, v) == Become(op, now, BecomeAll(ops, now, v))
  {
    assert (ops + [op])[..|ops|] == ops;
  }

  lemma DoThenFind(op: Op, now: int, s: Status, t: string)
    ensures Find(Do(op, now, s).conditions, t)
         == if TypeOf(op) == Some(t) then Become(op, now, Find(s.conditions, t)) else Find(s.conditions, t)
  {
    if op.Drop? {
      RemoveThenFind(s.conditions, op.t, t);
    } else if !op.Write? {
      SetThenFind(s.conditions, op.c, now, t);
    }
  }

  /** Operations on other types do not matter to what is found for a type. */
  lemma {:induction false} ApplyThenFind(ops: seq<Op>, now: int, s: Status, t: string)
    ensures Find(Apply(ops, now, s).conditions, t) == BecomeAll(On(ops, t), now, Find(s.conditions, t))
  {
    var n := |ops|;
    if n > 0 {
      ApplyThenFind(ops[..n - 1], now, s, t);
      DoThenFind(ops[n - 1], now, Apply(ops[..n - 1], now, s), t);
      BecomeStep(On(ops[..n - 1], t), ops[n - 1], now, Find(s.conditions, t));
    }
  }

  lemma {:induction false} RemovedInTheEnd(ops: seq<Op>, now: int, v: Option<Condition>)
    requires EndsRemoved(ops)
    ensures BecomeAll(ops, now, v).None?
  {
    var n := |ops|;
    if ops[n - 1].PutIfPresent? {
      RemovedInTheEnd(ops[..n - 1], now, v);
    }
  }

  /** Removed and created again: the transition time is that of the run. */
  lemma {:induction false} CreatedAgain(ops: seq<Op>, now: int, v: Option<Condition>)
    requires !EndsRemoved(ops) && (exists op :: op in ops && op.Drop?) && forall op :: op in ops ==> !op.Write?
    ensures BecomeAll(ops, now, v).Some? && BecomeAll(ops, now, v).value.transition == now
  {
    var n := |ops|;
    assert ops == ops[..n - 1] + [ops[n - 1]];
    if EndsRemoved(ops[..n - 1]) {
      RemovedInTheEnd(ops[..n - 1], now, v);
    } else {
      CreatedAgain(ops[..n - 1], now, v);
    }
  }

  /** The last condition that is set over what is there. */
  function LastSet(ops: seq<Op>): Option<Condition> {
    var n := |ops|;
    if n == 0 then None else if Overwrites(ops[n - 1]) then Some(ops[n - 1].c) else LastSet(ops[..n - 1])
  }

  /** Over a condition of the same status: only the transition time stays. */
  lemma {:induction false} OverSameStatus(ops: seq<Op>, now: int, x: Condition)
    requires forall op :: op in ops ==> !op.Drop?
    requires forall op :: op in ops && Overwrites(op) ==> op.c.status == x.status
    ensures BecomeAll(ops, now, Some(x))
         == Some(if LastSet(ops).Some? then LastSet(ops).value.(transition := x.transition) else x)
    ensures LastSet(ops).Some? ==> LastSet(ops).value.status == x.status
  {
    var n := |ops|;
    if n > 0 {
      assert ops == ops[..n - 1] + [ops[n - 1]];
      OverSameStatus(ops[..n - 1], now, x);
    }
  }

  /** Over a condition of another status than one that is set: the transition time is that of
      the run. */
  lemma {:induction false} OverOtherStatus(ops: seq<Op>, now: int, x: Condition)
    requires forall op :: op in ops ==> !op.Drop?
    requires exists op :: op in ops && Overwrites(op) && op.c.status != x.status
    ensures BecomeAll(ops, now, Some(x)).Some? && BecomeAll(ops, now, Some(x)).value.transition == now
  {
    var n := |ops|;
    var rest := ops[..n - 1];
    assert ops == rest + [ops[n - 1]];
    if exists op :: op in rest && Overwrites(op) && op.c.status != x.status {
      OverOtherStatus(rest, now, x);
    } else {
      OverSameStatus(rest, now, x);
    }
  }

  /** Without a removal the condition is there at the end, and is what was set last. */
  lemma {:induction false} SetInTheEnd(ops: seq<Op>, now: int, v: Option<Condition>)
    requires forall op :: op in ops ==> !op.Drop? && !op.Write?
    requires v.Some? || (ops != [] && !ops[0].PutIfPresent?)
    ensures var r := BecomeAll(ops, now, v);
            && r.Some?
            && (LastSet(ops).Some? ==> r.value == LastSet(ops).value.(transition := r.value.transition))
            && (v.None? ==> r.value.transition == now)
  {
    var n := |ops|;
    if n > 0 {
      assert ops == ops[..n - 1] + [ops[n - 1]];
      if n > 1 || v.Some? {
        SetInTheEnd(ops[..n - 1], now, v);
      }
    }
  }

  lemma {:induction false} NothingSet(ops: seq<Op>)
    ensures LastSet(ops).None? <==> forall op :: op in ops ==> !Overwrites(op)
    ensures LastSet(ops).Some? ==> exists op :: op in ops && Overwrites(op) && op.c == LastSet(ops).value
  {
    var n := |ops|;
    if n > 0 {
      assert ops == ops[..n - 1] + [ops[n - 1]];
      NothingSet(ops[..n - 1]);
    }
  }

  lemma OrderlySettles(ops: seq<Op>, n1: int, n2: int, v: Option<Condition>)
    requires Orderly(ops) && (ops == [] || !ops[0].PutIfPresent?) && forall op :: op in ops ==> !op.Write?
    ensures BecomeAll(ops, n2, BecomeAll(ops, n1, v)) == BecomeAll(ops, n1, v)
  {
    var v1 := BecomeAll(ops, n1, v);
    if EndsRemoved(ops) {
      RemovedInTheEnd(ops, n1, v);
      RemovedInTheEnd(ops, n2, v1);
    } else if ops != [] {
      SetInTheEnd(ops, n1, v);
      NothingSet(ops);
      OverSameStatus(ops, n2, v1.value);
    }
  }

  lemma DisorderlyMoves(ops: seq<Op>, n1: int, n2: int)
    requires !Orderly(ops) && (ops == [] || !ops[0].PutIfPresent?) && forall op :: op in ops ==> !op.Write?
    requires n1 != n2
    ensures BecomeAll(ops, n2, BecomeAll(ops, n1, None)) != BecomeAll(ops, n1, None)
  {
    var v1 := BecomeAll(ops, n1, None);
    if exists op :: op in ops && op.Drop? {
      CreatedAgain(ops, n1, None);
      CreatedAgain(ops, n2, v1);
    } else {
      SetInTheEnd(ops, n1, None);
      var a, b :| a in ops && b in ops && Overwrites(a) && Overwrites(b) && a.c.status != b.c.status;
      assert a.c.status != v1.value.status || b.c.status != v1.value.status;
      OverOtherStatus(ops, n2, v1.value);
    }
  }

  // ---------------------------------------------------------------- the list

  /** The list without the types in `gone`, and with the first condition of every type that
      was not seen before made blank. */
  function Frame(cs: seq<Condition>, gone: set<string>, seen: set<string>): seq<Condition> {
    if cs == [] then []
    else
      var c := cs[0];
      var rest := Frame(cs[1..], gone, seen + {c.ctype});
      if c.ctype in gone then rest
      else [if c.ctype in seen then c else Condition(c.ctype, CondUnknown, "", "", 0, 0)] + rest
  }

  /** Setting a condition keeps the frame, if it is there or its type is left out. */
  lemma {:induction false} SetKeepsFrame(
    cs: seq<Condition>, c: Condition, now: int, gone: set<string>, seen: set<string>)
    requires (Find(cs, c.ctype).Some? && c.ctype !in seen) || c.ctype in gone
    ensures Frame(SetCondition(cs, c, now), gone, seen) == Frame(cs, gone, seen)
  {
    var r := SetCondition(cs, c, now);
    if cs != [] {
      if cs[0].ctype == c.ctype {
        assert r[1..] == cs[1..];
      } else {
        FindStep(cs, c.ctype);
        assert r[0] == cs[0] && r[1..] == SetCondition(cs[1..], c, now);
        SetKeepsFrame(cs[1..], c, now, gone, seen + {cs[0].ctype});
      }
    }
  }

  lemma {:induction false} RemoveKeepsFrame(cs: seq<Condition>, t: string, gone: set<string>, seen: set<string>)
    requires t in gone
    ensures Frame(RemoveCondition(cs, t), gone, seen) == Frame(cs, gone, seen)
  {
    if cs != [] {
      var rest := RemoveCondition(cs[1..], t);
      RemoveKeepsFrame(cs[1..], t, gone, seen + {cs[0].ctype});
      if cs[0].ctype == t {
        SeenGone(rest, gone, seen, t);
        assert RemoveCondition(cs, t) == rest;
      } else {
        assert ([cs[0]] + rest)[1..] == rest;
      }
    }
  }

  lemma {:induction false} SeenGone(cs: seq<Condition>, gone: set<string>, seen: set<string>, t: string)
    requires t in gone
    ensures Frame(cs, gone, seen + {t}) == Frame(cs, gone, seen)
  {
    if cs != [] {
      assert seen + {t} + {cs[0].ctype} == seen + {cs[0].ctype} + {t};
      SeenGone(cs[1..], gone, seen + {cs[0].ctype}, t);
    }
  }

  /** A list is known by its frame and by what is found in it. */
  lemma {:induction false} FrameAndFinds(
    a: seq<Condition>, b: seq<Condition>, gone: set<string>, seen: set<string>)
    requires Frame(a, gone, seen) == Frame(b, gone, seen)
    requires forall c :: c in a || c in b ==> c.ctype !in gone
    requires forall t :: t !in seen ==> Find(a, t) == Find(b, t)
    ensures a == b
  {
    if a != [] && b != [] {
      assert a[0] in a && b[0] in b;
      var t := Frame(a, gone, seen)[0].ctype;
      FindStep(a, t);
      FindStep(b, t);
      assert a[0] == b[0];
      forall u | u !in seen + {t} ensures Find(a[1..], u) == Find(b[1..], u) {
        FindStep(a, u);
        FindStep(b, u);
      }
      assert Frame(a, gone, seen)[1..] == Frame(a[1..], gone, seen + {t});
      assert Frame(b, gone, seen)[1..] == Frame(b[1..], gone, seen + {t});
      FrameAndFinds(a[1..], b[1..], gone, seen + {t});
    }
  }

  /** The types that are removed at some point. */
  function Removed(ops: seq<Op>): set<string> {
    set op | op in ops && op.Drop? :: op.t
  }

  /** All that the operations set is there, or is removed at some point. */
  predicate Held(ops: seq<Op>, cs: seq<Condition>, gone: set<string>) {
    forall op :: op in ops && (op.Put? || op.PutIfMissing?) ==> op.c.ctype in gone || Find(cs, op.c.ctype).Some?
  }

  lemma {:induction false} ApplyKeepsFrame(ops: seq<Op>, now: int, s: Status, gone: set<string>)
    requires Removed(ops) <= gone && Held(ops, s.conditions, gone)
    ensures var r := Apply(ops, now, s).conditions;
            && Frame(r, gone, {}) == Frame(s.conditions, gone, {})
            && forall t :: t !in gone && Find(s.conditions, t).Some? ==> Find(r, t).Some?
  {
    var n := |ops|;
    if n > 0 {
      var rest, op := ops[..n - 1], ops[n - 1];
      assert ops == rest + [op];
      ApplyKeepsFrame(rest, now, s, gone);
      OpKeepsFrame(op, now, Apply(rest, now, s), gone);
    }
  }

  lemma OpKeepsFrame(op: Op, now: int, s: Status, gone: set<string>)
    requires op.Drop? ==> op.t in gone
    requires op.Put? || op.PutIfMissing? ==> op.c.ctype in gone || Find(s.conditions, op.c.ctype).Some?
    ensures var r := Do(op, now, s).conditions;
            && Frame(r, gone, {}) == Frame(s.conditions, gone, {})
            && forall t :: t !in gone && Find(s.conditions, t).Some? ==> Find(r, t).Some?
  {
    if op.Drop? {
      RemoveKeepsFrame(s.conditions, op.t, gone, {});
      forall t
        ensures Find(RemoveCondition(s.conditions, op.t), t) == if t == op.t then None else Find(s.conditions, t)
      {
        RemoveThenFind(s.conditions, op.t, t);
      }
    } else if !op.Write? && (op.c.ctype in gone || Find(s.conditions, op.c.ctype).Some?) {
      SetKeepsFrame(s.conditions, op.c, now, gone, {});
      forall t ensures t != op.c.ctype ==> Find(SetCondition(s.conditions, op.c, now), t) == Find(s.conditions, t) {
        SetThenFind(s.conditions, op.c, now, t);
      }
      SetThenFind(s.conditions, op.c, now, op.c.ctype);
    }
  }

  // ---------------------------------------------------------------- twice is once

  function LastWritten(ops: seq<Op>, d: int): int {
    var n := |ops|;
    if n == 0 then d else if ops[n - 1].Write? then ops[n - 1].data else LastWritten(ops[..n - 1], d)
  }

  /** Only the conditions and the application's data change. */
  lemma {:induction false} ApplyFrame(ops: seq<Op>, now: int, s: Status)
    ensures var r := Apply(ops, now, s); r == s.(conditions := r.conditions, data := LastWritten(ops, s.data))
  {
    var n := |ops|;
    if n > 0 {
      ApplyFrame(ops[..n - 1], now, s);
    }
  }

  lemma {:induction false} WrittenTwice(ops: seq<Op>, d: int)
    ensures LastWritten(ops, LastWritten(ops, d)) == LastWritten(ops, d)
  {
    var n := |ops|;
    if n > 0 && !ops[n - 1].Write? {
      WrittenTwice(ops[..n - 1], d);
    }
  }

  /** After a first pass every type is removed for good or is there. */
  lemma HeldAfterwards(ops: seq<Op>, now: int, s: Status)
    requires Led(ops) && forall t :: Orderly(On(ops, t))
    ensures var cs := Apply(ops, now, s).conditions;
            && Held(ops, cs, Removed(ops))
            && forall t :: t in Removed(ops) ==> Find(cs, t).None?
  {
    var cs := Apply(ops, now, s).conditions;
    forall t ensures t in Removed(ops) ==> Find(cs, t).None? {
      OnMembers(ops, t);
      ApplyThenFind(ops, now, s, t);
      if t in Removed(ops) {
        assert Drop(t) in On(ops, t) && Orderly(On(ops, t));
        RemovedInTheEnd(On(ops, t), now, Find(s.conditions, t));
      }
    }
    forall op | op in ops && (op.Put? || op.PutIfMissing?) && op.c.ctype !in Removed(ops)
      ensures Find(cs, op.c.ctype).Some?
    {
      var t := op.c.ctype;
      OnMembers(ops, t);
      ApplyThenFind(ops, now, s, t);
      assert op in On(ops, t);
      assert forall d :: d in ops && d.Drop? ==> d.t in Removed(ops);
      SetInTheEnd(On(ops, t), now, Find(s.conditions, t));
    }
  }

  lemma {:induction false} NoneFound(cs: seq<Condition>, c: Condition)
    requires c in cs
    ensures Find(cs, c.ctype).Some?
  {
    if cs[0] != c {
      FindStep(cs, c.ctype);
      NoneFound(cs[1..], c);
    }
  }

  lemma OrderlyTwice(ops: seq<Op>, n1: int, n2: int, s: Status)
    requires Led(ops) && forall t :: Orderly(On(ops, t))
    ensures Apply(ops, n2, Apply(ops, n1, s)) == Apply(ops, n1, s)
  {
    var gone := Removed(ops);
    var r := Apply(ops, n1, s);
    var r' := Apply(ops, n2, r);
    HeldAfterwards(ops, n1, s);
    HeldAfterwards(ops, n2, r);
    ApplyKeepsFrame(ops, n2, r, gone);
    forall t ensures Find(r'.conditions, t) == Find(r.conditions, t) {
      ApplyThenFind(ops, n1, s, t);
      ApplyThenFind(ops, n2, r, t);
      OnMembers(ops, t);
      assert Orderly(On(ops, t));
      OrderlySettles(On(ops, t), n1, n2, Find(s.conditions, t));
    }
    forall c | c in r.conditions || c in r'.conditions ensures c.ctype !in gone {
      if c in r.conditions {
        NoneFound(r.conditions, c);
      } else {
        NoneFound(r'.conditions, c);
      }
    }
    FrameAndFinds(r'.conditions, r.conditions, gone, {});
    ApplyFrame(ops, n1, s);
    ApplyFrame(ops, n2, r);
    WrittenTwice(ops, s.data);
  }

  /** On an empty list a type that is not in order shows the time of the second pass. */
  lemma DisorderlyTwice(ops: seq<Op>, n1: int, n2: int, s: Status, t: string)
    requires Led(ops) && !Orderly(On(ops, t)) && n1 != n2 && s.conditions == []
    ensures Apply(ops, n2, Apply(ops, n1, s)).conditions != Apply(ops, n1, s).conditions
  {
    ApplyThenFind(ops, n1, s, t);
    ApplyThenFind(ops, n2, Apply(ops, n1, s), t);
    OnMembers(ops, t);
    DisorderlyMoves(On(ops, t), n1, n2);
  }
}
