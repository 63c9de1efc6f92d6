/** The condition list of a resource, as values: the semantics of the API machinery's
    find, set and remove operations, and the conditions the condition manager writes. */
module Conditions {
  import opened Options

  datatype ConditionStatus = CondTrue | CondFalse | CondUnknown

  /** `transition` is the time of the last change of `status`. */
  datatype Condition = Condition(
    ctype: string,
    status: ConditionStatus,
    reason: string,
    message: string,
    observedGeneration: int,
    transition: int)

  const READY := "Ready"

  /** The position of the first condition of type `t`, or the length of the list. */
  function IndexOf(cs: seq<Condition>, t: string): (i: nat)
    ensures i <= |cs|
    ensures i < |cs| ==> cs[i].ctype == t
    ensures forall j :: 0 <= j < i ==> cs[j].ctype != t
  {
    if |cs| == 0 || cs[0].ctype == t then 0 else 1 + IndexOf(cs[1..], t)
  }

  function Find(cs: seq<Condition>, t: string): Option<Condition> {
    var i := IndexOf(cs, t);
    if i == |cs| then None else Some(cs[i])
  }

  /** What an existing condition becomes when `c` is set over it at time `now`. */
  function Merge(prev: Condition, c: Condition, now: int): Condition {
    c.(transition := if prev.status == c.status then prev.transition else now)
  }

  /** Setting a condition: the first one of its type is updated where it stands,
      otherwise the condition is appended. */
  function SetCondition(cs: seq<Condition>, c: Condition, now: int): seq<Condition> {
    var i := IndexOf(cs, c.ctype);
    if i == |cs| then cs + [c.(transition := now)] else cs[i := Merge(cs[i], c, now)]
  }

  function SetIfMissing(cs: seq<Condition>, c: Condition, now: int): seq<Condition> {
    if IndexOf(cs, c.ctype) == |cs| then SetCondition(cs, c, now) else cs
  }

  /** What a caller sees who passed its slice by value: an update in place shows,
      an append is lost. */
  function SetIfPresent(cs: seq<Condition>, c: Condition, now: int): seq<Condition> {
    if IndexOf(cs, c.ctype) == |cs| then cs else SetCondition(cs, c, now)
  }

  function RemoveCondition(cs: seq<Condition>, t: string): seq<Condition> {
    if |cs| == 0 then []
    else (if cs[0].ctype == t then [] else [cs[0]]) + RemoveCondition(cs[1..], t)
  }

  /** No two conditions of the same type. */
  predicate Unique(cs: seq<Condition>) {
    forall i, j :: 0 <= i < j < |cs| ==> cs[i].ctype != cs[j].ctype
  }

  // ---------------------------------------------------------------- the manager's conditions

  function ReadyCondition(status: ConditionStatus, generation: int): Condition {
    var message := match status
      case CondTrue => "The resource is ready"
      case CondFalse => "The resource is not ready"
      case CondUnknown => "The resource is processing";
    Condition(READY, status, "Complete", message, generation, 0)
  }

  function ConditionName(name: string, isFinalize: bool): string {
    name + (if isFinalize then "_Finalize" else "_Ready")
  }

  function Subject(isFinalize: bool): string {
    if isFinalize then "subroutine finalization" else "subroutine"
  }

  function ProcessingCondition(name: string, isFinalize: bool, generation: int): Condition {
    Condition(ConditionName(name, isFinalize), CondUnknown, "Processing",
              "The " + Subject(isFinalize) + " is processing", generation, 0)
  }

  function CompleteCondition(name: string, isFinalize: bool, generation: int): Condition {
    Condition(ConditionName(name, isFinalize), CondTrue, "Complete",
              "The " + Subject(isFinalize) + " is complete", generation, 0)
  }

  function ErrorCondition(name: string, isFinalize: bool, generation: int, err: string): Condition {
    Condition(ConditionName(name, isFinalize), CondFalse, "Error",
              "The " + Subject(isFinalize) + " has an error: " + err, generation, 0)
  }

  /** The condition written for a subroutine that ended with `err` and `requeueAfter`. A
      negative requeue without an error is reported as a failure with no error text. */
  function SubroutineCondition(
    name: string, isFinalize: bool, generation: int, requeueAfter: int, err: Option<string>): Condition
  {
    if err.None? && requeueAfter == 0 then CompleteCondition(name, isFinalize, generation)
    else if err.None? && requeueAfter > 0 then ProcessingCondition(name, isFinalize, generation)
    else ErrorCondition(name, isFinalize, generation, if err.Some? then err.value else "%!s(<nil>)")
  }

  /** The conditions, spelled out. */
  lemma ConditionsSpelledOut(name: string, g: int, err: string)
    ensures ProcessingCondition(name, false, g)
         == Condition(name + "_Ready", CondUnknown, "Processing", "The " + "subroutine" + " is processing", g, 0)
    ensures CompleteCondition(name, false, g)
         == Condition(name + "_Ready", CondTrue, "Complete", "The " + "subroutine" + " is complete", g, 0)
    ensures ErrorCondition(name, false, g, err)
         == Condition(name + "_Ready", CondFalse, "Error", "The " + "subroutine" + " has an error: " + err, g, 0)
    ensures ProcessingCondition(name, true, g) == Condition(name + "_Finalize", CondUnknown, "Processing",
              "The " + "subroutine finalization" + " is processing", g, 0)
    ensures CompleteCondition(name, true, g) == Condition(name + "_Finalize", CondTrue, "Complete",
              "The " + "subroutine finalization" + " is complete", g, 0)
    ensures ErrorCondition(name, true, g, err) == Condition(name + "_Finalize", CondFalse, "Error",
              "The " + "subroutine finalization" + " has an error: " + err, g, 0)
  {
  }

  // ---------------------------------------------------------------- laws

  /** Two subroutines, or a subroutine and the resource, never share a condition by accident. */
  lemma ConditionNamesDistinct(a: string, b: string, fa: bool, fb: bool)
    ensures ConditionName(a, fa) != READY
    ensures ConditionName(a, fa) == ConditionName(b, fb) <==> a == b && fa == fb
  {
    var x, y := ConditionName(a, fa), ConditionName(b, fb);
    assert x[|x| - 1] == (if fa then 'e' else 'y');
    assert y[|y| - 1] == (if fb then 'e' else 'y');
    if x == y && fa == fb {
      assert x[..|a|] == a && y[..|b|] == b;
    }
  }

  /** Setting a condition changes what is found for its own type and for no other. */
  lemma SetThenFind(cs: seq<Condition>, c: Condition, now: int, t: string)
    ensures Find(SetCondition(cs, c, now), t)
         == if t != c.ctype then Find(cs, t)
            else match Find(cs, t)
                 case None => Some(c.(transition := now))
                 case Some(prev) => Some(Merge(prev, c, now))
  {
    var i := IndexOf(cs, c.ctype);
    var r := SetCondition(cs, c, now);
    var j, j' := IndexOf(cs, t), IndexOf(r, t);
    assert forall k :: 0 <= k < |cs| ==> r[k].ctype == cs[k].ctype;
    if j < |cs| {
      assert r[j].ctype == t;
      assert j' == j;
    } else if t != c.ctype {
      assert forall k :: 0 <= k < |r| ==> r[k].ctype != t;
      assert j' == |r|;
    } else {
      assert r[|cs|].ctype == t;
      assert j' == |cs|;
    }
  }

  /** The types keep their order: a set appends one type or leaves the types as they are. */
  lemma SetKeepsUnique(cs: seq<Condition>, c: Condition, now: int)
    requires Unique(cs)
    ensures Unique(SetCondition(cs, c, now))
  {
  }

  lemma FindStep(cs: seq<Condition>, t: string)
    requires cs != []
    ensures Find(cs, t) == if cs[0].ctype == t then Some(cs[0]) else Find(cs[1..], t)
  {
  }

  lemma {:induction false} RemoveThenFind(cs: seq<Condition>, t: string, u: string)
    ensures Find(RemoveCondition(cs, t), u) == if u == t then None else Find(cs, u)
  {
    if |cs| > 0 {
      RemoveThenFind(cs[1..], t, u);
      FindStep(cs, u);
      var rest := RemoveCondition(cs[1..], t);
      if cs[0].ctype == t {
        assert RemoveCondition(cs, t) == rest;
      } else {
        assert ([cs[0]] + rest)[1..] == rest;
        FindStep([cs[0]] + rest, u);
      }
    }
  }

  lemma RemoveKeepsUnique(cs: seq<Condition>, t: string)
    requires Unique(cs)
    ensures Unique(RemoveCondition(cs, t))
    ensures forall c :: c in RemoveCondition(cs, t) <==> c in cs && c.ctype != t
  {
    if |cs| > 0 {
      RemoveKeepsUnique(cs[1..], t);
      assert cs == [cs[0]] + cs[1..];
    }
  }

  lemma {:induction false} RemoveAbsent(cs: seq<Condition>, t: string)
    requires Find(cs, t).None?
    ensures RemoveCondition(cs, t) == cs
  {
    if |cs| > 0 {
      FindStep(cs, t);
      RemoveAbsent(cs[1..], t);
    }
  }

  /** What is set stays set: setting again what is already found changes nothing at all,
      the transition time included. */
  lemma SetIsIdempotent(cs: seq<Condition>, c: Condition, now: int)
    requires Find(cs, c.ctype).Some?
    requires var f := Find(cs, c.ctype).value; c.(transition := f.transition) == f
    ensures SetCondition(cs, c, now) == cs
  {
  }
}
