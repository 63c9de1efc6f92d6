/** Quiescence in terms of the subroutines' own edits of the condition list. */
module OrderlyEdits {
  import opened Options
  import opened Conditions
  import opened ConditionOps
  import opened Subroutines
  import opened Cluster
  import opened Lifecycle
  import opened ReadySoundness
  import opened Quiescence

  /** The subroutines' own edits in a run, up to the first failure. */
  function Executed(cfg: Config, ins: Inputs, k: nat): seq<Op>
    requires k <= |cfg.subroutines|
    decreases |cfg.subroutines| - k
  {
    if k == |cfg.subroutines| then []
    else
      var out := StepAt(ins, k).outcome;
      EditOps(out.edits) + if out.Cause().Some? then [] else Executed(cfg, ins, k + 1)
  }

  lemma TurnOpsOn(cfg: Config, ins: Inputs, g: int, k: nat, t: string)
    requires k < |cfg.subroutines|
    ensures var name, out, own := cfg.subroutines[k].name, StepAt(ins, k).outcome, cfg.conditions && CName(cfg, k) == t;
            On(TurnOps(cfg, ins, g, k), t)
            == When(own, PutIfMissing(ProcessingCondition(name, false, g)))
               + On(EditOps(out.edits), t)
               + When(own && out.Clean(), Put(CompleteCondition(name, false, g)))
  {
    var name, out := cfg.subroutines[k].name, StepAt(ins, k).outcome;
    var first, last := PutIfMissing(ProcessingCondition(name, false, g)), Put(CompleteCondition(name, false, g));
    var opening, edits := When(cfg.conditions, first), EditOps(out.edits);
    var closing := When(cfg.conditions && out.Clean(), last);
    OnConcat(opening, edits, t);
    OnConcat(opening + edits, closing, t);
    OnWhen(cfg.conditions, first, t);
    OnWhen(cfg.conditions && out.Clean(), last, t);
  }

  function ExecutedAfter(cfg: Config, ins: Inputs, k: nat): seq<Op>
    requires k < |cfg.subroutines|
  {
    if StepAt(ins, k).outcome.Cause().Some? then [] else Executed(cfg, ins, k + 1)
  }

  lemma TurnOn(cfg: Config, ins: Inputs, g: int, k: nat, acc: int, t: string)
    requires k < |cfg.subroutines|
    ensures On(OpsFrom(cfg, ins, g, k, acc), t)
         == On(TurnOps(cfg, ins, g, k), t) + On(AfterTurn(cfg, ins, g, k, acc), t)
    ensures On(Executed(cfg, ins, k), t)
         == On(EditOps(StepAt(ins, k).outcome.edits), t) + On(ExecutedAfter(cfg, ins, k), t)
  {
    OnConcat(TurnOps(cfg, ins, g, k), AfterTurn(cfg, ins, g, k, acc), t);
    OnConcat(EditOps(StepAt(ins, k).outcome.edits), ExecutedAfter(cfg, ins, k), t);
  }

  lemma FailedOn(cfg: Config, g: int, k: nat, err: string, t: string)
    requires k < |cfg.subroutines|
    ensures var e, c := ErrorCondition(cfg.subroutines[k].name, false, g, err), ReadyCondition(CondFalse, g);
            On(FailedOps(cfg, g, k, err), t)
            == When(cfg.conditions && CName(cfg, k) == t, Put(e)) + When(cfg.conditions && READY == t, Put(c))
  {
    var e, c := ErrorCondition(cfg.subroutines[k].name, false, g, err), ReadyCondition(CondFalse, g);
    OnConcat(When(cfg.conditions, Put(e)), When(cfg.conditions, Put(c)), t);
    OnWhen(cfg.conditions, Put(e), t);
    OnWhen(cfg.conditions, Put(c), t);
  }

  lemma ConcludedOn(cfg: Config, g: int, acc: int, t: string)
    ensures On(ConcludedOps(cfg, g, acc), t) == if t == READY then ConcludedOps(cfg, g, acc) else []
  {
    OnWhen(cfg.conditions,
      if acc == 0 then PutIfPresent(ReadyCondition(CondTrue, g)) else Put(ReadyCondition(CondFalse, g)), t);
  }

  lemma ForeignTurn(cfg: Config, ins: Inputs, g: int, k: nat, t: string)
    requires k < |cfg.subroutines| && (cfg.conditions ==> !Framework(cfg, t))
    ensures On(TurnOps(cfg, ins, g, k), t) == On(EditOps(StepAt(ins, k).outcome.edits), t)
    ensures forall err :: On(FailedOps(cfg, g, k, err), t) == []
  {
    NamesApart(cfg, k, k);
    TurnOpsOn(cfg, ins, g, k, t);
    forall err ensures On(FailedOps(cfg, g, k, err), t) == [] {
      FailedOn(cfg, g, k, err, t);
    }
  }

  /** Foreign conditions see the subroutines' edits and nothing else. */
  lemma {:induction false} ForeignOps(cfg: Config, ins: Inputs, g: int, k: nat, acc: int, t: string)
    requires k <= |cfg.subroutines| && (cfg.conditions ==> !Framework(cfg, t))
    ensures On(OpsFrom(cfg, ins, g, k, acc), t) == On(Executed(cfg, ins, k), t)
    decreases |cfg.subroutines| - k
  {
    if k == |cfg.subroutines| {
      ConcludedOn(cfg, g, acc, t);
    } else {
      var out := StepAt(ins, k).outcome;
      TurnOn(cfg, ins, g, k, acc, t);
      ForeignTurn(cfg, ins, g, k, t);
      if out.Cause().None? {
        ForeignOps(cfg, ins, g, k + 1, Fold(acc, out.requeueAfter), t);
      }
    }
  }

  /** How often a condition is set over what is there. */
  function Sets(ops: seq<Op>): nat {
    var n := |ops|;
    if n == 0 then 0 else Sets(ops[..n - 1]) + if Overwrites(ops[n - 1]) then 1 else 0
  }

  lemma {:induction false} SetsConcat(a: seq<Op>, b: seq<Op>)
    ensures Sets(a + b) == Sets(a) + Sets(b)
  {
    var n := |b|;
    if n == 0 {
      assert a + b == a;
    } else {
      assert (a + b)[..|a + b| - 1] == a + b[..n - 1];
      SetsConcat(a, b[..n - 1]);
    }
  }

  lemma SetsWhen(b: bool, op: Op)
    ensures Sets(When(b, op)) == if b && Overwrites(op) then 1 else 0
  {
    if b {
      assert [op][..0] == [];
    }
  }

  lemma {:induction false} FewSets(ops: seq<Op>)
    ensures Sets(ops) == 0 ==> forall op :: op in ops ==> !Overwrites(op)
    ensures Sets(ops) <= 1 ==> forall a, b :: a in ops && b in ops && Overwrites(a) && Overwrites(b) ==> a == b
  {
    var n := |ops|;
    if n > 0 {
      FewSets(ops[..n - 1]);
      assert ops == ops[..n - 1] + [ops[n - 1]];
    }
  }

  /** Nothing is removed, and at most `n` times something is set. */
  predicate Few(ops: seq<Op>, n: nat) {
    (forall op :: op in ops ==> !op.Drop?) && Sets(ops) <= n
  }

  lemma FewConcat(a: seq<Op>, b: seq<Op>, m: nat, n: nat)
    requires Few(a, m) && Few(b, n)
    ensures Few(a + b, m + n)
  {
    SetsConcat(a, b);
  }

  /** How often the framework may set type `t` from turn `k` on. */
  function Ahead(cfg: Config, k: nat, t: string): nat {
    if t == READY || exists j :: k <= j < |cfg.subroutines| && t == CName(cfg, j) then 1 else 0
  }

  lemma AheadStep(cfg: Config, k: nat, t: string)
    requires k < |cfg.subroutines| && DistinctNames(cfg)
    ensures Ahead(cfg, k, t) == (if CName(cfg, k) == t then 1 else 0) + Ahead(cfg, k + 1, t)
  {
    NamesApart(cfg, k, k);
    forall j | k < j < |cfg.subroutines| ensures CName(cfg, j) != CName(cfg, k) {
      NamesApart(cfg, k, j);
    }
  }

  lemma FrameworkFails(cfg: Config, g: int, k: nat, err: string, t: string)
    requires k < |cfg.subroutines| && cfg.conditions
    ensures Few(On(FailedOps(cfg, g, k, err), t), if CName(cfg, k) == t || READY == t then 1 else 0)
  {
    var e, c := ErrorCondition(cfg.subroutines[k].name, false, g, err), ReadyCondition(CondFalse, g);
    FailedOn(cfg, g, k, err, t);
    NamesApart(cfg, k, k);
    SetsConcat(When(CName(cfg, k) == t, Put(e)), When(READY == t, Put(c)));
    SetsWhen(CName(cfg, k) == t, Put(e));
    SetsWhen(READY == t, Put(c));
  }

  lemma FrameworkConcludes(cfg: Config, g: int, acc: int, t: string)
    ensures Few(On(ConcludedOps(cfg, g, acc), t), if t == READY then 1 else 0)
  {
    ConcludedOn(cfg, g, acc, t);
    SetsWhen(cfg.conditions,
      if acc == 0 then PutIfPresent(ReadyCondition(CondTrue, g)) else Put(ReadyCondition(CondFalse, g)));
  }

  lemma FrameworkTurn(cfg: Config, ins: Inputs, g: int, k: nat, t: string)
    requires k < |cfg.subroutines| && cfg.conditions && On(EditOps(StepAt(ins, k).outcome.edits), t) == []
    ensures Few(On(TurnOps(cfg, ins, g, k), t), if CName(cfg, k) == t && StepAt(ins, k).outcome.Clean() then 1 else 0)
  {
    var name, out := cfg.subroutines[k].name, StepAt(ins, k).outcome;
    var own, p := CName(cfg, k) == t, PutIfMissing(ProcessingCondition(name, false, g));
    var c := Put(CompleteCondition(name, false, g));
    TurnOpsOn(cfg, ins, g, k, t);
    assert When(own, p) + [] == When(own, p);
    SetsConcat(When(own, p), When(own && out.Clean(), c));
    SetsWhen(own, p);
    SetsWhen(own && out.Clean(), c);
  }

  lemma UntouchedFrom(cfg: Config, ins: Inputs, k: nat, t: string)
    requires k < |cfg.subroutines| && On(Executed(cfg, ins, k), t) == []
    ensures On(EditOps(StepAt(ins, k).outcome.edits), t) == []
    ensures StepAt(ins, k).outcome.Cause().None? ==> On(Executed(cfg, ins, k + 1), t) == []
  {
    OnConcat(EditOps(StepAt(ins, k).outcome.edits), ExecutedAfter(cfg, ins, k), t);
  }

  lemma FrameworkStep(cfg: Config, ins: Inputs, g: int, k: nat, acc: int, t: string)
    requires k < |cfg.subroutines| && cfg.conditions && DistinctNames(cfg)
    requires On(EditOps(StepAt(ins, k).outcome.edits), t) == []
    requires var out := StepAt(ins, k).outcome;
             out.Cause().None? ==>
               Few(On(OpsFrom(cfg, ins, g, k + 1, Fold(acc, out.requeueAfter)), t), Ahead(cfg, k + 1, t))
    ensures Few(On(OpsFrom(cfg, ins, g, k, acc), t), Ahead(cfg, k, t))
  {
    var out := StepAt(ins, k).outcome;
    var own := if CName(cfg, k) == t && out.Clean() then 1 else 0;
    var after := On(AfterTurn(cfg, ins, g, k, acc), t);
    FrameworkTurn(cfg, ins, g, k, t);
    AheadStep(cfg, k, t);
    if out.Cause().Some? {
      FrameworkFails(cfg, g, k, out.Cause().value, t);
    }
    TurnOn(cfg, ins, g, k, acc, t);
    FewConcat(On(TurnOps(cfg, ins, g, k), t), after, own, Ahead(cfg, k, t) - own);
  }

  /** The framework itself removes nothing, and sets each of its conditions at most once. */
  lemma {:induction false} FrameworkOps(cfg: Config, ins: Inputs, g: int, k: nat, acc: int, t: string)
    requires k <= |cfg.subroutines| && cfg.conditions && DistinctNames(cfg) && On(Executed(cfg, ins, k), t) == []
    ensures Few(On(OpsFrom(cfg, ins, g, k, acc), t), Ahead(cfg, k, t))
    decreases |cfg.subroutines| - k
  {
    if k == |cfg.subroutines| {
      FrameworkConcludes(cfg, g, acc, t);
    } else {
      var out := StepAt(ins, k).outcome;
      UntouchedFrom(cfg, ins, k, t);
      if out.Cause().None? {
        FrameworkOps(cfg, ins, g, k + 1, Fold(acc, out.requeueAfter), t);
      }
      FrameworkStep(cfg, ins, g, k, acc, t);
    }
  }

  /** The subroutines, told apart by their names, leave the framework's conditions alone. */
  ghost predicate Tidy(cfg: Config, ins: Inputs) {
    cfg.conditions ==>
      && DistinctNames(cfg)
      && forall t :: Framework(cfg, t) ==> On(Executed(cfg, ins, 0), t) == []
  }

  lemma FrameworkIsOrderly(cfg: Config, ins: Inputs, g: int, t: string)
    requires cfg.conditions && DistinctNames(cfg) && On(Executed(cfg, ins, 0), t) == []
    ensures Orderly(On(RunOps(cfg, ins, g), t))
  {
    var first, rest := PutIfMissing(ReadyCondition(CondUnknown, g)), OpsFrom(cfg, ins, g, 0, 0);
    OnConcat(When(true, first), rest, t);
    OnWhen(true, first, t);
    FrameworkOps(cfg, ins, g, 0, 0, t);
    SetsWhen(t == READY, first);
    FewConcat(On(When(true, first), t), On(rest, t), 0, Ahead(cfg, 0, t));
    FewSets(On(RunOps(cfg, ins, g), t));
    assert OneStatus(On(RunOps(cfg, ins, g), t));
  }

  lemma ForeignIsAsEdited(cfg: Config, ins: Inputs, g: int, t: string)
    requires cfg.conditions ==> !Framework(cfg, t)
    ensures On(RunOps(cfg, ins, g), t) == On(Executed(cfg, ins, 0), t)
  {
    var first, rest := PutIfMissing(ReadyCondition(CondUnknown, g)), OpsFrom(cfg, ins, g, 0, 0);
    OnConcat(When(cfg.conditions, first), rest, t);
    OnWhen(cfg.conditions, first, t);
    ForeignOps(cfg, ins, g, 0, 0, t);
  }

  lemma OrderlyType(cfg: Config, ins: Inputs, g: int, t: string)
    requires Tidy(cfg, ins)
    ensures Orderly(On(RunOps(cfg, ins, g), t)) <==> Orderly(On(Executed(cfg, ins, 0), t))
  {
    if cfg.conditions && Framework(cfg, t) {
      FrameworkIsOrderly(cfg, ins, g, t);
      assert OneStatus([]);
    } else {
      ForeignIsAsEdited(cfg, ins, g, t);
    }
  }

  /** The last edit of the run on a type is a removal, or none is and all set one status. */
  ghost predicate EditsInOrder(cfg: Config, ins: Inputs) {
    forall t :: Orderly(On(Executed(cfg, ins, 0), t))
  }

  /** For subroutines that leave the framework's conditions alone, the answers are in order
      exactly when their edits are. */
  lemma OrderlyByTheEdits(cfg: Config, ins: Inputs, g: int)
    requires Tidy(cfg, ins)
    ensures OrderlyAnswers(cfg, ins, g) <==> EditsInOrder(cfg, ins)
  {
    if EditsInOrder(cfg, ins) {
      forall t ensures Orderly(On(RunOps(cfg, ins, g), t)) {
        OrderlyType(cfg, ins, g, t);
      }
    }
    if OrderlyAnswers(cfg, ins, g) {
      forall t ensures Orderly(On(Executed(cfg, ins, 0), t)) {
        OrderlyType(cfg, ins, g, t);
      }
    }
  }

  /** An answer without error that makes these edits. */
  function Answering(edits: seq<Edit>): Inputs {
    var served := Call([], Served);
    Inputs(0, 0, served, served, None, [Step(Outcome(0, None, edits), served)], served, served, served)
  }

  function OneSubroutine(): Config {
    Config([Subroutine("s", [], false, false)], false, false, false, 0, "", "")
  }

  lemma TwoOps(a: Edit, b: Edit)
    ensures EditOps([a, b]) == EditOps([a]) + EditOps([b]) && |EditOps([a])| == |EditOps([b])| == 1
  {
    assert [a, b][1..] == [b] && [a][1..] == [] && [b][1..] == [];
  }

  lemma TwoEdits(a: Edit, b: Edit, t: string)
    requires TypeOf(EditOps([a])[0]) == TypeOf(EditOps([b])[0]) == Some(t)
    ensures On(Executed(OneSubroutine(), Answering([a, b]), 0), t) == EditOps([a]) + EditOps([b])
  {
    var cfg, ins := OneSubroutine(), Answering([a, b]);
    TwoOps(a, b);
    assert Executed(cfg, ins, 0) == EditOps([a, b]) + Executed(cfg, ins, 1) == EditOps([a]) + EditOps([b]);
    OnConcat(EditOps([a]), EditOps([b]), t);
    assert On(EditOps([a]), t) == EditOps([a]) && On(EditOps([b]), t) == EditOps([b]);
  }

  /** A run one second after another one, with the same edits, writes again. */
  predicate NeverSettle(edits: seq<Edit>, g: int) {
    var cfg, ins := OneSubroutine(), Answering(edits);
    !SecondIsIdle(cfg, Blank(g), CalmAt(cfg, ins, 0), CalmAt(cfg, ins, 1))
  }

  lemma DisorderlyPair(a: Edit, b: Edit, g: int, t: string)
    requires TypeOf(EditOps([a])[0]) == TypeOf(EditOps([b])[0]) == Some(t)
    requires !Orderly(EditOps([a]) + EditOps([b]))
    ensures NeverSettle([a, b], g)
  {
    TwoEdits(a, b, t);
    ForeignIsAsEdited(OneSubroutine(), Answering([a, b]), g, t);
    SecondRunWrites(OneSubroutine(), Answering([a, b]), g);
  }

  /** A subroutine that removes a condition and sets it anew, or sets it to one status and then
      to another, makes the second run write as well. */
  lemma EditsThatNeverSettle(c: Condition, d: Condition, g: int)
    requires c.ctype == d.ctype && c.status != d.status
    ensures NeverSettle([DropCondition(c.ctype), PutCondition(c)], g)
    ensures NeverSettle([PutCondition(c), PutCondition(d)], g)
  {
    var t := c.ctype;
    var drop, put, turn := DropCondition(t), PutCondition(c), PutCondition(d);
    var anew, both := EditOps([drop]) + EditOps([put]), EditOps([put]) + EditOps([turn]);
    TwoOps(drop, put);
    TwoOps(put, turn);
    assert anew == [Drop(t), Put(c)] && both == [Put(c), Put(d)];
    assert Drop(t) in anew && !Orderly(anew);
    assert Put(c) in both && Put(d) in both && !Orderly(both);
    DisorderlyPair(drop, put, g, t);
    DisorderlyPair(put, turn, g, t);
  }
}
