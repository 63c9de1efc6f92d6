/** The condition manager as it works: on slices that share backing arrays. */
module ConditionManager {
  import opened Options
  import C = Conditions
  import opened Conditions

  /** A slice header: a backing array, which other headers may share, and a length. */
  datatype Slice = Slice(cells: array<Condition>, len: nat) {
    predicate Valid() {
      len <= cells.Length
    }

    function View(): seq<Condition>
      requires Valid()
      reads cells
    {
      cells[..len]
    }
  }

  method NewSlice(cs: seq<Condition>) returns (s: Slice)
    ensures s.Valid() && fresh(s.cells) && s.View() == cs
  {
    var a := new Condition[|cs|](i requires 0 <= i < |cs| => cs[i]);
    s := Slice(a, |cs|);
  }

  /** Growing a slice writes into the spare room of the backing array when there is some,
      and moves to a new array otherwise; the old header sees neither. */
  method Append(s: Slice, c: Condition) returns (r: Slice)
    requires s.Valid()
    modifies s.cells
    ensures r.Valid() && (r.cells == s.cells || fresh(r.cells))
    ensures r.View() == old(s.View()) + [c]
    ensures s.View() == old(s.View())
  {
    if s.len < s.cells.Length {
      s.cells[s.len] := c;
      r := Slice(s.cells, s.len + 1);
    } else {
      var a := new Condition[2 * s.len + 1];
      for i := 0 to s.len
        invariant forall j :: 0 <= j < i ==> a[j] == s.cells[j]
        invariant s.View() == old(s.View())
      {
        a[i] := s.cells[i];
      }
      a[s.len] := c;
      r := Slice(a, s.len + 1);
    }
  }

  method FindIndex(s: Slice, t: string) returns (i: nat)
    requires s.Valid()
    ensures i == C.IndexOf(s.View(), t)
  {
    i := 0;
    while i < s.len && s.cells[i].ctype != t
      invariant i <= s.len
      invariant forall j :: 0 <= j < i ==> s.cells[j].ctype != t
    {
      i := i + 1;
    }
  }

  /** Setting a condition through a pointer to the slice. The pointer's slice becomes `r`;
      whoever holds the old header sees an update in place but not an append. */
  method SetStatusCondition(s: Slice, c: Condition, now: int) returns (r: Slice, changed: bool)
    requires s.Valid()
    modifies s.cells
    ensures r.Valid() && (r.cells == s.cells || fresh(r.cells))
    ensures r.View() == C.SetCondition(old(s.View()), c, now)
    ensures s.View() == C.SetIfPresent(old(s.View()), c, now)
    ensures changed <==> r.View() != old(s.View())
  {
    var i := FindIndex(s, c.ctype);
    if i == s.len {
      r := Append(s, c.(transition := now));
      changed := true;
    } else {
      var before := s.cells[i];
      if s.cells[i].status != c.status {
        s.cells[i] := s.cells[i].(status := c.status, transition := now);
      }
      s.cells[i] := s.cells[i].(reason := c.reason, message := c.message, observedGeneration := c.observedGeneration);
      changed := s.cells[i] != before;
      r := s;
    }
  }

  method RemoveStatusCondition(s: Slice, t: string) returns (r: Slice)
    requires s.Valid()
    ensures r.Valid() && fresh(r.cells)
    ensures r.View() == C.RemoveCondition(s.View(), t)
  {
    var kept: seq<Condition> := [];
    assert s.View()[0..] == s.View();
    for i := 0 to s.len
      invariant kept + C.RemoveCondition(s.View()[i..], t) == C.RemoveCondition(s.View(), t)
    {
      if s.cells[i].ctype != t {
        kept := kept + [s.cells[i]];
      }
    }
    assert s.View()[s.len..] == [];
    r := NewSlice(kept);
  }

  // ---------------------------------------------------------------- the manager

  method SetInstanceConditionReady(s: Slice, generation: int, status: ConditionStatus, now: int)
    returns (r: Slice, changed: bool)
    requires s.Valid()
    modifies s.cells
    ensures r.Valid() && (r.cells == s.cells || fresh(r.cells))
    ensures r.View() == C.SetCondition(old(s.View()), C.ReadyCondition(status, generation), now)
    ensures s.View() == C.SetIfPresent(old(s.View()), C.ReadyCondition(status, generation), now)
    ensures changed <==> r.View() != old(s.View())
  {
    r, changed := SetStatusCondition(s, C.ReadyCondition(status, generation), now);
  }

  method SetInstanceConditionUnknownIfNotSet(s: Slice, generation: int, now: int) returns (r: Slice, changed: bool)
    requires s.Valid()
    modifies s.cells
    ensures r.Valid() && (r.cells == s.cells || fresh(r.cells))
    ensures r.View() == C.SetIfMissing(old(s.View()), C.ReadyCondition(CondUnknown, generation), now)
    ensures s.View() == old(s.View())
    ensures changed <==> r.View() != old(s.View())
  {
    var i := FindIndex(s, READY);
    r, changed := s, false;
    if i == s.len {
      r, changed := SetInstanceConditionReady(s, generation, CondUnknown, now);
    }
  }

  method SetSubroutineConditionToUnknownIfNotSet(s: Slice, generation: int, name: string, isFinalize: bool, now: int)
    returns (r: Slice, changed: bool)
    requires s.Valid()
    modifies s.cells
    ensures r.Valid() && (r.cells == s.cells || fresh(r.cells))
    ensures r.View() == C.SetIfMissing(old(s.View()), C.ProcessingCondition(name, isFinalize, generation), now)
    ensures s.View() == old(s.View())
    ensures changed <==> r.View() != old(s.View())
  {
    var i := FindIndex(s, C.ConditionName(name, isFinalize));
    r, changed := s, false;
    if i == s.len {
      r, changed := SetStatusCondition(s, C.ProcessingCondition(name, isFinalize, generation), now);
    }
  }

  method SetSubroutineCondition(
    s: Slice, generation: int, name: string, requeueAfter: int, err: Option<string>, isFinalize: bool, now: int)
    returns (r: Slice, changed: bool)
    requires s.Valid()
    modifies s.cells
    ensures r.Valid() && (r.cells == s.cells || fresh(r.cells))
    ensures r.View()
         == C.SetCondition(old(s.View()), C.SubroutineCondition(name, isFinalize, generation, requeueAfter, err), now)
    ensures changed <==> r.View() != old(s.View())
  {
    if err.None? && requeueAfter == 0 {
      r, changed := SetStatusCondition(s, C.CompleteCondition(name, isFinalize, generation), now);
    } else if err.None? && requeueAfter > 0 {
      r, changed := SetStatusCondition(s, C.ProcessingCondition(name, isFinalize, generation), now);
    } else {
      var text := if err.Some? then err.value else "%!s(<nil>)";
      r, changed := SetStatusCondition(s, C.ErrorCondition(name, isFinalize, generation, text), now);
    }
  }
}
