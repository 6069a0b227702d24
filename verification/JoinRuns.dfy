/**
 Join arithmetic over whole runs of the engine: the transactions a run commits form
 a history to which the arithmetic of TaskRecord applies, for every blueprint.
 */
module JoinRuns {
  import opened Prelude
  import opened Blueprints
  import opened TaskRecord
  import opened Engine

  function OpsOfStep(c: Config, s: State, l: Label): seq<Op>
    requires Enabled(c, s, l)
  {
    if !l.Turn? then []
    else match Fire(c, s.task, s.procs[l.p][0], l.pick).op case None => [] case Some(op) => [op]
  }

  // The transactions a run commits, in order.
  function OpsOf(c: Config, s: State, ls: seq<Label>): seq<Op>
    decreases |ls|
  {
    if ls == [] || !Enabled(c, s, ls[0]) then []
    else OpsOfStep(c, s, ls[0]) + OpsOf(c, Step(c, s, ls[0]), ls[1..])
  }

  lemma {:induction false} FoldAppend(a: seq<Op>, b: seq<Op>, t: Task)
    ensures Fold(a + b, t) == Fold(b, Fold(a, t))
  {
    hide Apply;
    if b == [] {
      assert a + b == a;
    } else {
      assert (a + b)[..|a + b| - 1] == a + b[..|b| - 1];
      FoldAppend(a, b[..|b| - 1], t);
    }
  }

  // Only an arriving branch writes a join, and it expects the static in-degree.
  lemma StepExpects(c: Config, s: State, l: Label, id: string)
    requires Enabled(c, s, l)
    ensures ExpectsAt(OpsOfStep(c, s, l), id, InDegree(c.bp, id))
    ensures Step(c, s, l).task == Fold(OpsOfStep(c, s, l), s.task)
  {
    hide Fire, Apply, InDegree, KindOf;
    var ops := OpsOfStep(c, s, l);
    if ops != [] {
      assert ops[..0] == [];
      ArrivalExpects(c, s.task, s.procs[l.p][0], l.pick);
    }
  }

  lemma ArrivalExpects(c: Config, t: Task, f: Frame, pick: Pick)
    requires WellFormed(c, f)
    ensures
      var op := Fire(c, t, f, pick).op;
      op.Some? && op.value.ArriveAtJoin? ==> op.value.expected == InDegree(c.bp, op.value.id)
  {
    hide KindOf, FireExec, InDegree;
    if f.Exec? {
      ExecShape(c, t, f.node, pick);
    }
  }

  lemma {:induction false} RunIsHistory(c: Config, s: State, ls: seq<Label>, s2: State, id: string)
    requires Run(c, s, ls, s2)
    ensures s2.task == Fold(OpsOf(c, s, ls), s.task)
    ensures ExpectsAt(OpsOf(c, s, ls), id, InDegree(c.bp, id))
    decreases |ls|
  {
    hide Fire, Step, Enabled, OpsOfStep, InDegree;
    if ls != [] {
      StepExpects(c, s, ls[0], id);
      RunIsHistory(c, Step(c, s, ls[0]), ls[1..], s2, id);
      FoldAppend(OpsOfStep(c, s, ls[0]), OpsOf(c, Step(c, s, ls[0]), ls[1..]), s.task);
    }
  }

  // In any run of any blueprint, after k arrivals at a join of in-degree m floor(k/m)
  // of them proceeded, k mod m stay counted, and the branch count is k - floor(k/m)
  // lower than the rest of the run would have left it.
  lemma JoinArithmeticInRuns(c: Config, context: map<string, string>, alarms: nat, ls: seq<Label>, s: State, id: string)
    requires c.bp != [] && Run(c, Init(c, context, alarms), ls, s) && InDegree(c.bp, id) >= 2
    ensures
      var t, m := Init(c, context, alarms).task, InDegree(c.bp, id);
      var ops := OpsOf(c, Init(c, context, alarms), ls);
      var k := Arrivals(ops, id);
      && Releases(ops, t, id) == k / m
      && Count(s.task.joinState, id) == k % m
      && s.task.activeBranches == 1 + OtherBranchMoves(ops, t, id) - (k - k / m)
  {
    hide Fold, Arrivals, Releases, OtherBranchMoves, OpsOf, InDegree;
    var start := Init(c, context, alarms);
    RunIsHistory(c, start, ls, s, id);
    JoinArithmetic(OpsOf(c, start, ls), start.task, id, InDegree(c.bp, id));
    JoinBranchAccounting(OpsOf(c, start, ls), start.task, id, InDegree(c.bp, id));
  }
}
