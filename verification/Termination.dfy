/**
 Termination: if the blueprint is acyclic once every LOOP body edge is removed,
 no run goes on forever. The measure is lexicographic: failures still to come
 from outside, remaining LOOP budget, and the fuel of all tokens.
 */
module Termination {
  import opened Prelude
  import opened Blueprints
  import opened TaskRecord
  import opened Engine
  import opened Conservation

  predicate IsBodyEdge(bp: Blueprint, u: nat, k: nat)
    requires u < |bp|
  {
    KindOf(bp[u]) == Loop && k == 0
  }

  // A ranking under which every edge but the LOOP bodies leads downhill.
  ghost predicate Layered(bp: Blueprint, rank: seq<nat>) {
    && |rank| == |bp|
    && forall u, k :: 0 <= u < |bp| && 0 <= k < |bp[u].next| && !IsBodyEdge(bp, u, k) ==> Downhill(bp, rank, u, k)
  }

  predicate Downhill(bp: Blueprint, rank: seq<nat>, u: nat, k: nat)
    requires u < |bp| == |rank| && k < |bp[u].next|
  {
    var v := Find(bp, bp[u].next[k]);
    v.Some? ==> rank[v.value] < rank[u]
  }

  // The same but for the edges into plugin nodes: a handler returns once it has sent
  // its message, so its recursion goes no further there.
  ghost predicate Shallow(bp: Blueprint, rank: seq<nat>) {
    && |rank| == |bp|
    && forall u, k :: 0 <= u < |bp| && 0 <= k < |bp[u].next| && !IsBodyEdge(bp, u, k) ==> Lower(bp, rank, u, k)
  }

  predicate Lower(bp: Blueprint, rank: seq<nat>, u: nat, k: nat)
    requires u < |bp| == |rank| && k < |bp[u].next|
  {
    var v := Find(bp, bp[u].next[k]);
    v.Some? && KindOf(bp[v.value]) != Plugin ==> rank[v.value] < rank[u]
  }

  // ---- LOOP budget -----------------------------------------------------------------

  function Left(n: Node, loopState: map<string, int>): nat {
    if KindOf(n) == Loop && Count(loopState, n.id) < BodyBound(n) then BodyBound(n) - Count(loopState, n.id) else 0
  }

  function Budget(bp: Blueprint, loopState: map<string, int>): nat {
    if bp == [] then 0 else Left(bp[0], loopState) + Budget(bp[1..], loopState)
  }

  lemma {:induction false} BudgetIncrement(bp: Blueprint, loopState: map<string, int>, id: string)
    ensures
      var next := loopState[id := Count(loopState, id) + 1];
      && Budget(bp, next) <= Budget(bp, loopState)
      && ((exists u :: 0 <= u < |bp| && bp[u].id == id && Left(bp[u], loopState) > 0) ==>
            Budget(bp, next) < Budget(bp, loopState))
  {
    hide KindOf, RuleOf;
    if bp != [] {
      BudgetIncrement(bp[1..], loopState, id);
      if u :| 0 <= u < |bp| && bp[u].id == id && Left(bp[u], loopState) > 0 {
        assert u > 0 ==> bp[1..][u - 1] == bp[u];
      }
    }
  }

  // ---- Fuel ----------------------------------------------------------------------------

  lemma {:induction false} EdgeWithinFuel(bp: Blueprint, rank: seq<nat>, u: nat, j: nat, k: nat)
    requires u < |bp| == |rank| && j <= k < |bp[u].next|
    requires Downhill(bp, rank, u, k) && Find(bp, bp[u].next[k]).Some?
    ensures WalkFuel(bp, rank, u, k, k + 1) <= DownhillFuel(bp, rank, u, j)
    decreases k - j
  {
    if j < k {
      EdgeWithinFuel(bp, rank, u, j + 1, k);
    } else {
      assert WalkFuel(bp, rank, u, k + 1, k + 1) == 0;
    }
  }

  lemma {:induction false} WalkWithinFuel(bp: Blueprint, rank: seq<nat>, u: nat, j: nat)
    requires u < |bp| == |rank| && j <= |bp[u].next|
    requires forall k :: j <= k < |bp[u].next| ==> Downhill(bp, rank, u, k)
    ensures WalkFuel(bp, rank, u, j, |bp[u].next|) == DownhillFuel(bp, rank, u, j)
    decreases |bp[u].next| - j
  {
    if j < |bp[u].next| {
      assert Downhill(bp, rank, u, j);
      WalkWithinFuel(bp, rank, u, j + 1);
    }
  }

  function Produced(c: Config, rank: seq<nat>, e: Effect): nat {
    Sum(Fuel(c, rank), e.frames) + Sum(Fuel(c, rank), e.spawned)
  }

  ghost predicate TakesBody(c: Config, t: Task, f: Frame, e: Effect) {
    && f.Exec? && f.node < |c.bp| && KindOf(c.bp[f.node]) == Loop
    && e.op == Some(IncrLoopCount(c.bp[f.node].id))
    && Count(t.loopState, c.bp[f.node].id) < BodyBound(c.bp[f.node])
  }

  // Every step of a frame burns fuel, except an arrival that takes a LOOP body.
  lemma EffectFuel(c: Config, rank: seq<nat>, t: Task, f: Frame, pick: Pick)
    requires WellFormed(c, f) && Layered(c.bp, rank) && DistinctIds(c.bp)
    ensures
      var e := Fire(c, t, f, pick);
      Produced(c, rank, e) < FrameFuel(c, rank, f) || TakesBody(c, t, f, e)
  {
    hide KindOf, FireExec, FireFan, FireWalk;
    var e := Fire(c, t, f, pick);
    EffectSum(Fuel(c, rank), c, t, f, pick);
    match f
    case Exec(u) => ExecBurns(c, rank, t, u, pick);
    case Fan(u) => FanBurns(c, rank, t, u);
    case Walk(u, lo, hi) => WalkBurns(c, rank, u, lo, hi);
    case Publish(u) => FindOwnId(c.bp, u);
    case _ =>
  }

  lemma WalkBurns(c: Config, rank: seq<nat>, u: nat, lo: nat, hi: nat)
    requires Layered(c.bp, rank) && WellFormed(c, Walk(u, lo, hi))
    ensures
      var e := FireWalk(c, u, lo, hi);
      Sum(Fuel(c, rank), e.frames) + 1 == WalkFuel(c.bp, rank, u, lo, hi) && e.spawned == []
  {
    hide KindOf;
    SumShort(Fuel(c, rank), FireWalk(c, u, lo, hi).frames);
    assert WalkFuel(c.bp, rank, u, hi, hi) == 0;
  }

  lemma FanBurns(c: Config, rank: seq<nat>, t: Task, u: nat)
    requires Layered(c.bp, rank) && WellFormed(c, Fan(u))
    ensures
      var e := FireFan(c, t, u);
      Sum(Fuel(c, rank), e.frames) < FanFuel(c.bp, rank, u) && e.spawned == []
  {
    SumShort(Fuel(c, rank), FireFan(c, t, u).frames);
    assert forall k :: 0 <= k < |c.bp[u].next| ==> !IsBodyEdge(c.bp, u, k) && Downhill(c.bp, rank, u, k);
    WalkWithinFuel(c.bp, rank, u, 0);
  }

  // A frame that executing a node leads to stays within the node's fuel, unless it
  // walks a LOOP body edge.
  lemma NextFrameBurns(c: Config, rank: seq<nat>, u: nat, f: Frame)
    requires Layered(c.bp, rank) && u < |c.bp| && NextFrame(c, u, f)
    requires f.Walk? ==> !IsBodyEdge(c.bp, u, f.lo)
    ensures FrameFuel(c, rank, f) < ExecFuel(c.bp, rank, u)
  {
    hide KindOf;
    if f.Walk? {
      assert Downhill(c.bp, rank, u, f.lo);
      EdgeWithinFuel(c.bp, rank, u, 0, f.lo);
    }
  }

  lemma ExecBurns(c: Config, rank: seq<nat>, t: Task, u: nat, pick: Pick)
    requires Layered(c.bp, rank) && u < |c.bp|
    ensures
      var e := FireExec(c, t, u, pick);
      Produced(c, rank, e) < ExecFuel(c.bp, rank, u) || TakesBody(c, t, Exec(u), e)
  {
    hide KindOf, FireExec, NextFrame, FrameFuel;
    var e := FireExec(c, t, u, pick);
    ExecShape(c, t, u, pick);
    SumShort(Fuel(c, rank), e.frames);
    if e.frames == [] {
      assert Sum(Fuel(c, rank), e.frames) == 0;
    } else if e.frames[0].Walk? && e.frames[0].lo == 0 && KindOf(c.bp[u]) == Loop {
      BodyWithinBound(c, t, u, pick);
    } else {
      if e.frames[0].Walk? { NextWalk(c, u, e.frames[0]); }
      NextFrameBurns(c, rank, u, e.frames[0]);
    }
  }

  lemma NextWalk(c: Config, u: nat, f: Frame)
    requires u < |c.bp| && NextFrame(c, u, f) && f.Walk?
    ensures f.node == u
  {
  }

  // A LOOP sends a branch to its body only while its count is below its bound.
  lemma BodyWithinBound(c: Config, t: Task, u: nat, pick: Pick)
    requires u < |c.bp| && KindOf(c.bp[u]) == Loop
    requires FireExec(c, t, u, pick).frames != [] && FireExec(c, t, u, pick).frames[0].Walk?
    requires FireExec(c, t, u, pick).frames[0].lo == 0
    ensures TakesBody(c, t, Exec(u), FireExec(c, t, u, pick))
  {
    hide RuleOf, InDegree;
  }

  // ---- The measure -----------------------------------------------------------------------

  ghost predicate Descends(c: Config, rank: seq<nat>, s: State, s2: State) {
    || s2.alarms < s.alarms
    || (s2.alarms == s.alarms &&
        (|| Budget(c.bp, s2.task.loopState) < Budget(c.bp, s.task.loopState)
         || (Budget(c.bp, s2.task.loopState) == Budget(c.bp, s.task.loopState) &&
             Total(Fuel(c, rank), s2.procs) < Total(Fuel(c, rank), s.procs))))
  }

  lemma EffectBudget(c: Config, t: Task, f: Frame, pick: Pick)
    requires WellFormed(c, f)
    ensures
      var e := Fire(c, t, f, pick);
      && Budget(c.bp, Store(e.op, t).loopState) <= Budget(c.bp, t.loopState)
      && (TakesBody(c, t, f, e) ==> Budget(c.bp, Store(e.op, t).loopState) < Budget(c.bp, t.loopState))
  {
    hide Fire, KindOf, BodyBound;
    var e := Fire(c, t, f, pick);
    if e.op.Some? && e.op.value.IncrLoopCount? {
      BudgetIncrement(c.bp, t.loopState, e.op.value.id);
      if TakesBody(c, t, f, e) {
        assert Left(c.bp[f.node], t.loopState) > 0;
      }
    }
  }

  // Every step, of a handler or of the outside world, descends.
  lemma StepDescends(c: Config, rank: seq<nat>, s: State, l: Label)
    requires Layered(c.bp, rank) && DistinctIds(c.bp) && Sound(c, s) && Enabled(c, s, l)
    ensures Descends(c, rank, s, Step(c, s, l))
  {
    hide Fire;
    if l.Turn? {
      var f := s.procs[l.p][0];
      TurnTotal(Fuel(c, rank), c, s, l.p, l.pick);
      EffectFuel(c, rank, s.task, f, l.pick);
      EffectBudget(c, s.task, f, l.pick);
    } else {
      OutsideTotal(Fuel(c, rank), c, s, l);
      if l.Abort? {
        var f := s.procs[l.p][0];
        TotalReplace(Bad(c), s.procs, l.p, []);
        TotalReplace(Fuel(c, rank), s.procs, l.p, []);
        FuelPositive(c, rank, f);
      }
    }
  }

  lemma FuelPositive(c: Config, rank: seq<nat>, f: Frame)
    requires WellFormed(c, f) && |rank| == |c.bp|
    ensures FrameFuel(c, rank, f) > 0
  {
  }

  // A purported infinite run: at every instant the next state follows by a label.
  ghost predicate StepAt(c: Config, states: nat -> State, labels: nat -> Label, i: nat) {
    Enabled(c, states(i), labels(i)) && states(i + 1) == Step(c, states(i), labels(i))
  }

  lemma {:induction false} SomeStop(c: Config, rank: seq<nat>, states: nat -> State, labels: nat -> Label, i: nat)
    requires Layered(c.bp, rank) && DistinctIds(c.bp) && Sound(c, states(i))
    ensures exists j: nat :: !StepAt(c, states, labels, j)
    decreases states(i).alarms, Budget(c.bp, states(i).task.loopState), Total(Fuel(c, rank), states(i).procs)
  {
    if StepAt(c, states, labels, i) {
      SoundStep(c, states(i), labels(i));
      StepDescends(c, rank, states(i), labels(i));
      SomeStop(c, rank, states, labels, i + 1);
    }
  }

  ghost predicate AcyclicWithoutBodies(bp: Blueprint) {
    exists rank: seq<nat> :: Layered(bp, rank)
  }

  // No run from the start of a task goes on forever.
  lemma EveryRunEnds(c: Config, context: map<string, string>, alarms: nat, states: nat -> State, labels: nat -> Label)
    requires c.bp != [] && DistinctIds(c.bp) && AcyclicWithoutBodies(c.bp)
    requires states(0) == Init(c, context, alarms)
    ensures exists i: nat :: !StepAt(c, states, labels, i)
  {
    var rank :| Layered(c.bp, rank);
    InitHolds(c, context, alarms);
    SomeStop(c, rank, states, labels, 0);
  }
}
