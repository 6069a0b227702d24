/**
 Flow accounting on fan-out/join blueprints: every edge a node emits is walked,
 every walked edge is an arrival, and a join of in-degree m turns m arrivals
 into one departure.
 */
module Flow {
  import opened Prelude
  import opened Blueprints
  import opened TaskRecord
  import opened Engine
  import opened Conservation
  import opened Termination

  // ---- The graph shape --------------------------------------------------------------

  ghost predicate IsPath(bp: Blueprint, p: seq<nat>) {
    && (forall i :: 0 <= i < |p| ==> p[i] < |bp|)
    && (forall i :: 0 < i < |p| ==> bp[p[i]].id in bp[p[i - 1]].next)
  }

  ghost predicate ReachedFromEntry(bp: Blueprint, u: nat) {
    exists p: seq<nat> :: p != [] && p[0] == 0 && p[|p| - 1] == u && IsPath(bp, p)
  }

  predicate Merging(bp: Blueprint, u: nat)
    requires u < |bp|
  {
    InDegree(bp, bp[u].id) >= 2
  }

  // Acyclic, without IF and LOOP, every node reachable from the entry, every node of
  // in-degree above 1 a JOIN.
  ghost predicate ForkJoin(bp: Blueprint) {
    && bp != [] && DistinctIds(bp)
    && (forall u :: 0 <= u < |bp| ==> KindOf(bp[u]) in {Plugin, Input, Output, Join})
    && (forall u :: 0 <= u < |bp| ==> AllResolve(bp, u))
    && (forall u: nat :: u < |bp| ==> ReachedFromEntry(bp, u))
    && (forall u :: 0 <= u < |bp| && Merging(bp, u) ==> KindOf(bp[u]) == Join)
    && AcyclicWithoutBodies(bp)
  }

  // A failure-free step: no handler, plugin, publication or store update fails.
  predicate Smooth(l: Label) {
    l.Turn? && l.pick.ok && l.pick.registered && l.pick.outputValid
  }

  // The plainest failure-free choice: success, and replies without output.
  function Good(): Pick {
    Pick(true, true, 1, true, false, true, map[], "", true)
  }

  ghost predicate SmoothRun(ls: seq<Label>) {
    forall i :: 0 <= i < |ls| ==> Smooth(ls[i])
  }

  // ---- Arrivals along edges ------------------------------------------------------------

  function FlowFrom(bp: Blueprint, deeds: multiset<Deed>, id: string, u: nat, k: nat): nat
    requires u < |bp| && k <= |bp[u].next|
  {
    if k == 0 then 0
    else FlowFrom(bp, deeds, id, u, k - 1) + (if bp[u].next[k - 1] == id then deeds[Crossed(u, k - 1)] else 0)
  }

  function FlowUpTo(bp: Blueprint, deeds: multiset<Deed>, id: string, n: nat): nat
    requires n <= |bp|
  {
    if n == 0 then 0 else FlowUpTo(bp, deeds, id, n - 1) + FlowFrom(bp, deeds, id, n - 1, |bp[n - 1].next|)
  }

  // How often an edge into id was crossed.
  function Inflow(bp: Blueprint, deeds: multiset<Deed>, id: string): nat {
    FlowUpTo(bp, deeds, id, |bp|)
  }

  lemma {:induction false} FlowFromAdds(bp: Blueprint, a: multiset<Deed>, b: multiset<Deed>, id: string, u: nat, k: nat)
    requires u < |bp| && k <= |bp[u].next|
    ensures FlowFrom(bp, a + b, id, u, k) == FlowFrom(bp, a, id, u, k) + FlowFrom(bp, b, id, u, k)
  {
    if k > 0 {
      FlowFromAdds(bp, a, b, id, u, k - 1);
    }
  }

  lemma {:induction false} FlowAdds(bp: Blueprint, a: multiset<Deed>, b: multiset<Deed>, id: string, n: nat)
    requires n <= |bp|
    ensures FlowUpTo(bp, a + b, id, n) == FlowUpTo(bp, a, id, n) + FlowUpTo(bp, b, id, n)
  {
    if n > 0 {
      FlowAdds(bp, a, b, id, n - 1);
      FlowFromAdds(bp, a, b, id, n - 1, |bp[n - 1].next|);
    }
  }

  // What a single crossing contributes.
  lemma {:induction false} FlowFromOne(bp: Blueprint, id: string, v: nat, j: nat, u: nat, k: nat)
    requires u < |bp| && k <= |bp[u].next| && v < |bp| && j < |bp[v].next|
    ensures FlowFrom(bp, multiset{Crossed(v, j)}, id, u, k)
            == if u == v && j < k && bp[v].next[j] == id then 1 else 0
  {
    if k > 0 {
      FlowFromOne(bp, id, v, j, u, k - 1);
    }
  }

  lemma {:induction false} FlowOne(bp: Blueprint, id: string, v: nat, j: nat, n: nat)
    requires n <= |bp| && v < |bp| && j < |bp[v].next|
    ensures FlowUpTo(bp, multiset{Crossed(v, j)}, id, n) == if v < n && bp[v].next[j] == id then 1 else 0
  {
    if n > 0 {
      FlowOne(bp, id, v, j, n - 1);
      FlowFromOne(bp, id, v, j, n - 1, |bp[n - 1].next|);
    }
  }

  lemma {:induction false} FlowFromNone(bp: Blueprint, deeds: multiset<Deed>, id: string, u: nat, k: nat)
    requires u < |bp| && k <= |bp[u].next|
    requires forall d :: d in deeds ==> !d.Crossed?
    ensures FlowFrom(bp, deeds, id, u, k) == 0
  {
    if k > 0 {
      FlowFromNone(bp, deeds, id, u, k - 1);
      assert Crossed(u, k - 1) !in deeds;
    }
  }

  lemma {:induction false} FlowNone(bp: Blueprint, deeds: multiset<Deed>, id: string, n: nat)
    requires n <= |bp|
    requires forall d :: d in deeds ==> !d.Crossed?
    ensures FlowUpTo(bp, deeds, id, n) == 0
  {
    if n > 0 {
      FlowNone(bp, deeds, id, n - 1);
      FlowFromNone(bp, deeds, id, n - 1, |bp[n - 1].next|);
    }
  }

  // Every edge crossed at most (or exactly) once: the inflow is at most (exactly) the in-degree.
  ghost predicate CrossedAtMostOnce(bp: Blueprint, deeds: multiset<Deed>, id: string) {
    forall u: nat, k: nat :: u < |bp| && k < |bp[u].next| && bp[u].next[k] == id ==> deeds[Crossed(u, k)] <= 1
  }

  ghost predicate CrossedExactlyOnce(bp: Blueprint, deeds: multiset<Deed>, id: string) {
    forall u: nat, k: nat :: u < |bp| && k < |bp[u].next| && bp[u].next[k] == id ==> deeds[Crossed(u, k)] == 1
  }

  lemma {:induction false} FlowFromDegree(bp: Blueprint, deeds: multiset<Deed>, id: string, u: nat, k: nat)
    requires u < |bp| && k <= |bp[u].next| && CrossedAtMostOnce(bp, deeds, id)
    ensures FlowFrom(bp, deeds, id, u, k) <= EdgesInto(bp, id, u, k)
    ensures CrossedExactlyOnce(bp, deeds, id) ==> FlowFrom(bp, deeds, id, u, k) == EdgesInto(bp, id, u, k)
  {
    if k > 0 {
      FlowFromDegree(bp, deeds, id, u, k - 1);
    }
  }

  lemma {:induction false} FlowDegree(bp: Blueprint, deeds: multiset<Deed>, id: string, n: nat)
    requires n <= |bp| && CrossedAtMostOnce(bp, deeds, id)
    ensures FlowUpTo(bp, deeds, id, n) <= InDegreeUpTo(bp, id, n)
    ensures CrossedExactlyOnce(bp, deeds, id) ==> FlowUpTo(bp, deeds, id, n) == InDegreeUpTo(bp, id, n)
  {
    if n > 0 {
      FlowDegree(bp, deeds, id, n - 1);
      FlowFromDegree(bp, deeds, id, n - 1, |bp[n - 1].next|);
    }
  }

  // ---- The invariant -------------------------------------------------------------------

  function Entered(c: Config, s: State, u: nat): nat
    requires u < |c.bp|
  {
    (if u == 0 then 1 else 0) + Inflow(c.bp, s.trace, c.bp[u].id)
  }

  // Arrivals used up by so many releases of a join of in-degree m.
  function Consumed(m: nat, releases: nat): nat {
    m * releases
  }

  lemma ConsumedNext(m: nat, releases: nat)
    ensures Consumed(m, releases + 1) == Consumed(m, releases) + m
  {
  }

  ghost predicate EdgesBalance(c: Config, s: State, u: nat)
    requires u < |c.bp|
  {
    forall k: nat :: k < |c.bp[u].next| ==>
      s.trace[Crossed(u, k)] + Total(Walking(u, k), s.procs) == s.trace[Emitted(u)]
  }

  ghost predicate NodeBalances(c: Config, s: State, u: nat)
    requires u < |c.bp|
  {
    if Merging(c.bp, u) then
      var m, arrived := InDegree(c.bp, c.bp[u].id), Count(s.task.joinState, c.bp[u].id);
      && 0 <= arrived < m
      && Entered(c, s, u) == Total(Waiting(u), s.procs) + arrived + Consumed(m, Total(Fanning(u), s.procs) + s.trace[Emitted(u)])
    else
      && Count(s.task.joinState, c.bp[u].id) == 0
      && Entered(c, s, u) == Total(At(c, u), s.procs) + s.trace[Emitted(u)]
  }

  ghost predicate FlowInv(c: Config, s: State) {
    forall u: nat :: u < |c.bp| ==> EdgesBalance(c, s, u) && NodeBalances(c, s, u)
  }

  // ---- One step --------------------------------------------------------------------------

  // Walks: what leaves the loop over edge k was crossed, what enters it was emitted.
  lemma EffectEdges(c: Config, t: Task, f: Frame, pick: Pick, u: nat, k: nat)
    requires WellFormed(c, f) && u < |c.bp| && k < |c.bp[u].next|
    requires KindOf(c.bp[u]) !in {If, Loop}
    ensures
      var e := Fire(c, t, f, pick);
      Weigh(Walking(u, k), f) + e.deeds[Emitted(u)]
      == e.deeds[Crossed(u, k)] + Sum(Walking(u, k), e.frames) + Sum(Walking(u, k), e.spawned)
  {
    hide KindOf, FireExec, FireFan;
    EffectSum(Walking(u, k), c, t, f, pick);
    match f
    case Exec(v) => ExecShape(c, t, v, pick);
    case Fan(v) => FanEdges(c, t, v, u, k);
    case _ =>
  }

  lemma FanEdges(c: Config, t: Task, v: nat, u: nat, k: nat)
    requires v < |c.bp| && u < |c.bp| && k < |c.bp[u].next|
    ensures
      var e := FireFan(c, t, v);
      && e.spawned == []
      && e.deeds[Crossed(u, k)] == 0
      && e.deeds[Emitted(u)] == Sum(Walking(u, k), e.frames)
  {
    SumShort(Walking(u, k), FireFan(c, t, v).frames);
  }

  // The moments of a failure-free run: no failure is picked, replies arrive at a
  // running task, and only plugin nodes are answered.
  ghost predicate Steady(c: Config, t: Task, f: Frame, pick: Pick) {
    && WellFormed(c, f) && pick.ok && pick.registered && pick.outputValid
    && (t.status == Running || Held(f) == 0)
    && Weigh(Stray(c), f) == 0 && !f.Fail?
  }

  ghost predicate PlainNodes(bp: Blueprint) {
    && DistinctIds(bp)
    && (forall u :: 0 <= u < |bp| ==> KindOf(bp[u]) in {Plugin, Input, Output, Join})
    && (forall u :: 0 <= u < |bp| ==> AllResolve(bp, u))
    && (forall u :: 0 <= u < |bp| && Merging(bp, u) ==> KindOf(bp[u]) == Join)
  }

  // Executing a node without failure.
  lemma ExecSmooth(c: Config, t: Task, u: nat, pick: Pick)
    requires PlainNodes(c.bp) && u < |c.bp| && Steady(c, t, Exec(u), pick)
    ensures
      var e := FireExec(c, t, u, pick);
      var id, m := c.bp[u].id, InDegree(c.bp, c.bp[u].id);
      && e.deeds == multiset{} && e.spawned == []
      && (if Merging(c.bp, u) then
            && e.op == Some(ArriveAtJoin(id, m))
            && e.frames == if Proceeds(t, id, m) then [Fan(u)] else []
          else
            && e.frames == (if KindOf(c.bp[u]) == Plugin then [Publish(u)] else [Fan(u)])
            && (e.op.Some? ==> !e.op.value.ArriveAtJoin?))
  {
    hide KindOf, InDegree;
  }

  // What the step of a frame other than Exec does to arrivals at node u.
  lemma EffectArrivals(c: Config, t: Task, f: Frame, pick: Pick, u: nat)
    requires PlainNodes(c.bp) && u < |c.bp| && Steady(c, t, f, pick) && !f.Exec?
    ensures
      var e := Fire(c, t, f, pick);
      && Inflow(c.bp, e.deeds, c.bp[u].id) == Sum(Waiting(u), e.frames)
      && Sum(Waiting(u), e.spawned) == 0
      && Inflow(c.bp, e.deeds, c.bp[u].id) + Weigh(At(c, u), f)
         == Sum(At(c, u), e.frames) + Sum(At(c, u), e.spawned) + e.deeds[Emitted(u)]
      && (e.op.Some? ==> !e.op.value.ArriveAtJoin?)
  {
    hide KindOf, FireFan, FireWalk, InDegree, AllResolve, Merging;
    if f.Fan? {
      EffectSum(Waiting(u), c, t, f, pick);
      EffectSum(At(c, u), c, t, f, pick);
      FanArrivals(c, t, f.node, u);
    } else if f.Walk? {
      WalkArrivals(c, f.node, f.lo, f.hi, u);
    } else {
      OtherArrivals(c, t, f, pick, u);
    }
  }

  lemma OtherArrivals(c: Config, t: Task, f: Frame, pick: Pick, u: nat)
    requires PlainNodes(c.bp) && u < |c.bp| && Steady(c, t, f, pick) && !f.Exec? && !f.Fan? && !f.Walk?
    ensures
      var e := Fire(c, t, f, pick);
      && Inflow(c.bp, e.deeds, c.bp[u].id) == Sum(Waiting(u), e.frames) == Sum(Waiting(u), e.spawned) == 0
      && e.deeds[Emitted(u)] == 0 && Weigh(At(c, u), f) == Sum(At(c, u), e.frames) + Sum(At(c, u), e.spawned)
      && (e.op.Some? ==> !e.op.value.ArriveAtJoin?)
  {
    hide KindOf, FireFan, FireWalk, FireExec, InDegree, AllResolve, Merging, Resume, Inflow;
    EffectSum(Waiting(u), c, t, f, pick);
    EffectSum(At(c, u), c, t, f, pick);
    NoInflow(c, Fire(c, t, f, pick).deeds, u);
    if f.Publish? {
      FindOwnId(c.bp, f.node);
    } else if f.Recv? || f.Merge? {
      ResumeArrives(c, f.id, u);
    }
  }

  lemma NoInflow(c: Config, deeds: multiset<Deed>, u: nat)
    requires u < |c.bp| && forall d :: d in deeds ==> !d.Crossed?
    ensures Inflow(c.bp, deeds, c.bp[u].id) == 0
  {
    FlowNone(c.bp, deeds, c.bp[u].id, |c.bp|);
  }

  lemma ResumeArrives(c: Config, id: string, u: nat)
    requires Find(c.bp, id).Some?
    ensures
      var fs := Resume(c, id);
      && |fs| == 1 && Weigh(At(c, u), fs[0]) == (if Find(c.bp, id) == Some(u) then 1 else 0)
      && (ForPlugin(c, id) ==> Weigh(Waiting(u), fs[0]) == 0)
  {
    hide KindOf;
  }

  lemma FanArrivals(c: Config, t: Task, v: nat, u: nat)
    requires PlainNodes(c.bp) && u < |c.bp| && v < |c.bp|
    ensures
      var e := FireFan(c, t, v);
      && Inflow(c.bp, e.deeds, c.bp[u].id) == 0 && e.spawned == []
      && Sum(Waiting(u), e.frames) == Sum(At(c, u), e.frames) == Sum(Fanning(u), e.frames) == 0
      && e.deeds[Emitted(u)] == (if u == v then 1 else 0)
      && (e.op.Some? ==> !e.op.value.ArriveAtJoin?)
  {
    hide KindOf, InDegree;
    var e := FireFan(c, t, v);
    FlowNone(c.bp, e.deeds, c.bp[u].id, |c.bp|);
    SumShort(Waiting(u), e.frames);
    SumShort(At(c, u), e.frames);
    SumShort(Fanning(u), e.frames);
  }

  lemma WalkArrivals(c: Config, v: nat, lo: nat, hi: nat, u: nat)
    requires PlainNodes(c.bp) && u < |c.bp| && WellFormed(c, Walk(v, lo, hi))
    ensures
      var e := FireWalk(c, v, lo, hi);
      && Inflow(c.bp, e.deeds, c.bp[u].id) == Sum(Waiting(u), e.frames) == Sum(At(c, u), e.frames)
      && e.spawned == [] && e.deeds[Emitted(u)] == 0 && Sum(Fanning(u), e.frames) == 0
      && e.op.Some? && !e.op.value.ArriveAtJoin?
  {
    hide KindOf, InDegree, AllResolve, Merging, Weigh;
    var e := FireWalk(c, v, lo, hi);
    FlowOne(c.bp, c.bp[u].id, v, lo, |c.bp|);
    FindOwnId(c.bp, u);
    SumShort(Waiting(u), e.frames);
    SumShort(At(c, u), e.frames);
    SumShort(Fanning(u), e.frames);
    WalkWeighs(c, v, lo + 1, hi, Find(c.bp, c.bp[v].next[lo]).value, u);
  }

  lemma WalkWeighs(c: Config, v: nat, lo: nat, hi: nat, w: nat, u: nat)
    ensures Weigh(Waiting(u), Walk(v, lo, hi)) == Weigh(At(c, u), Walk(v, lo, hi)) == Weigh(Fanning(u), Walk(v, lo, hi)) == 0
    ensures Weigh(Waiting(u), Exec(w)) == Weigh(At(c, u), Exec(w)) == (if w == u then 1 else 0)
    ensures Weigh(Fanning(u), Exec(w)) == 0
  {
  }

  // Departures from a merging node: a frame other than Exec only ever expands it.
  lemma EffectDepartures(c: Config, t: Task, f: Frame, pick: Pick, u: nat)
    requires PlainNodes(c.bp) && u < |c.bp| && Steady(c, t, f, pick) && !f.Exec? && Merging(c.bp, u)
    ensures
      var e := Fire(c, t, f, pick);
      Weigh(Fanning(u), f) == Sum(Fanning(u), e.frames) + Sum(Fanning(u), e.spawned) + e.deeds[Emitted(u)]
  {
    hide KindOf, FireFan, FireWalk, InDegree;
    EffectSum(Fanning(u), c, t, f, pick);
    match f
    case Fan(v) => FanArrivals(c, t, v, u);
    case Walk(v, lo, hi) => WalkArrivals(c, v, lo, hi, u);
    case _ =>
  }

  // ---- Runs ------------------------------------------------------------------------------

  ghost predicate SteadyState(c: Config, s: State) {
    && Sound(c, s) && Total(Stray(c), s.procs) == 0 && Total(Failures, s.procs) == 0
    && s.task.status != Failed && (s.task.status == Completed ==> Live(s) == 0)
  }

  lemma HeadSteady(c: Config, s: State, l: Label)
    requires SteadyState(c, s) && Enabled(c, s, l) && Smooth(l)
    ensures Steady(c, s.task, s.procs[l.p][0], l.pick)
  {
    hide Fire, KindOf;
    TurnTotal(Stray(c), c, s, l.p, l.pick);
    TurnTotal(Failures, c, s, l.p, l.pick);
    TurnTotal(Tokens, c, s, l.p, l.pick);
  }

  lemma EdgesStep(c: Config, s: State, l: Label, u: nat)
    requires PlainNodes(c.bp) && u < |c.bp| && Enabled(c, s, l) && l.Turn? && EdgesBalance(c, s, u)
    ensures EdgesBalance(c, Step(c, s, l), u)
  {
    hide Fire, KindOf;
    forall k: nat | k < |c.bp[u].next|
      ensures Step(c, s, l).trace[Crossed(u, k)] + Total(Walking(u, k), Step(c, s, l).procs) == Step(c, s, l).trace[Emitted(u)]
    {
      TurnTotal(Walking(u, k), c, s, l.p, l.pick);
      EffectEdges(c, s.task, s.procs[l.p][0], l.pick, u, k);
    }
  }

  lemma PassingStep(c: Config, s: State, l: Label, u: nat)
    requires PlainNodes(c.bp) && u < |c.bp| && !Merging(c.bp, u) && SteadyState(c, s)
    requires Enabled(c, s, l) && Smooth(l) && NodeBalances(c, s, u)
    ensures NodeBalances(c, Step(c, s, l), u)
  {
    hide Fire, KindOf, InDegree, Apply;
    var f := s.procs[l.p][0];
    var e := Fire(c, s.task, f, l.pick);
    HeadSteady(c, s, l);
    TurnTotal(At(c, u), c, s, l.p, l.pick);
    FlowAdds(c.bp, s.trace, e.deeds, c.bp[u].id, |c.bp|);
    if f.Exec? {
      ExecPassing(c, s.task, f.node, l.pick, u);
    } else {
      EffectArrivals(c, s.task, f, l.pick, u);
      if e.op.Some? {
        OtherJoinUntouched(e.op.value, s.task, c.bp[u].id);
      }
    }
  }

  // Executing a node moves a passing token on ...
  lemma ExecPassing(c: Config, t: Task, v: nat, pick: Pick, u: nat)
    requires PlainNodes(c.bp) && u < |c.bp| && v < |c.bp| && Steady(c, t, Exec(v), pick) && !Merging(c.bp, u)
    ensures
      var e := Fire(c, t, Exec(v), pick);
      && Inflow(c.bp, e.deeds, c.bp[u].id) == 0 && e.deeds[Emitted(u)] == 0 && e.spawned == []
      && Sum(At(c, u), e.frames) == Weigh(At(c, u), Exec(v))
      && Count(Store(e.op, t).joinState, c.bp[u].id) == Count(t.joinState, c.bp[u].id)
  {
    hide KindOf, FireExec, InDegree, Apply, Proceeds;
    var e := Fire(c, t, Exec(v), pick);
    ExecSmooth(c, t, v, pick);
    FlowNone(c.bp, e.deeds, c.bp[u].id, |c.bp|);
    SumShort(At(c, u), e.frames);
    assert u < v ==> c.bp[u].id != c.bp[v].id;
    assert v < u ==> c.bp[u].id != c.bp[v].id;
    if e.op.Some? {
      OtherJoinUntouched(e.op.value, t, c.bp[u].id);
    }
  }

  // ... and a merging one into the join's count.
  lemma ExecMerging(c: Config, t: Task, v: nat, pick: Pick, u: nat)
    requires PlainNodes(c.bp) && u < |c.bp| && v < |c.bp| && Steady(c, t, Exec(v), pick) && Merging(c.bp, u)
    ensures
      var e := Fire(c, t, Exec(v), pick);
      var id, m := c.bp[u].id, InDegree(c.bp, c.bp[u].id);
      && Inflow(c.bp, e.deeds, id) == 0 && e.deeds[Emitted(u)] == 0 && e.spawned == []
      && Sum(Waiting(u), e.frames) == 0
      && Count(Store(e.op, t).joinState, id)
         == (if u != v then Count(t.joinState, id) else if Proceeds(t, id, m) then 0 else Count(t.joinState, id) + 1)
      && Sum(Fanning(u), e.frames) == (if u == v && Proceeds(t, id, m) then 1 else 0)
  {
    hide KindOf, FireExec, InDegree;
    var e := Fire(c, t, Exec(v), pick);
    ExecSmooth(c, t, v, pick);
    FlowNone(c.bp, e.deeds, c.bp[u].id, |c.bp|);
    SumShort(Waiting(u), e.frames);
    SumShort(Fanning(u), e.frames);
    assert u < v ==> c.bp[u].id != c.bp[v].id;
    assert v < u ==> c.bp[u].id != c.bp[v].id;
    if u != v && e.op.Some? {
      OtherJoinUntouched(e.op.value, t, c.bp[u].id);
    }
  }

  lemma OtherJoinUntouched(op: Op, t: Task, id: string)
    requires !op.ArriveAtJoin? || op.id != id
    ensures Count(Apply(op, t).joinState, id) == Count(t.joinState, id)
  {
  }

  lemma MergingStep(c: Config, s: State, l: Label, u: nat)
    requires PlainNodes(c.bp) && u < |c.bp| && Merging(c.bp, u) && SteadyState(c, s)
    requires Enabled(c, s, l) && Smooth(l) && NodeBalances(c, s, u)
    ensures NodeBalances(c, Step(c, s, l), u)
  {
    hide Fire, KindOf, InDegree, Inflow, Apply, PlainNodes, Consumed, Sum, Total, SteadyState, Steady;
    var f := s.procs[l.p][0];
    var e := Fire(c, s.task, f, l.pick);
    HeadSteady(c, s, l);
    TurnTotal(Waiting(u), c, s, l.p, l.pick);
    TurnTotal(Fanning(u), c, s, l.p, l.pick);
    InflowAdds(c, s.trace, e.deeds, u);
    MergingEffect(c, s.task, f, l.pick, u);
    ConsumedNext(InDegree(c.bp, c.bp[u].id), Total(Fanning(u), s.procs) + s.trace[Emitted(u)]);
  }

  // One step seen from a merging node: what arrives waits or is counted, and m
  // counted arrivals make one release.
  lemma MergingEffect(c: Config, t: Task, f: Frame, pick: Pick, u: nat)
    requires PlainNodes(c.bp) && u < |c.bp| && Merging(c.bp, u) && Steady(c, t, f, pick)
    requires 0 <= Count(t.joinState, c.bp[u].id) < InDegree(c.bp, c.bp[u].id)
    ensures
      var e := Fire(c, t, f, pick);
      var m, arrived := InDegree(c.bp, c.bp[u].id), Count(t.joinState, c.bp[u].id);
      var arrived2 := Count(Store(e.op, t).joinState, c.bp[u].id);
      var released := Sum(Fanning(u), e.frames) + Sum(Fanning(u), e.spawned) + e.deeds[Emitted(u)] - Weigh(Fanning(u), f);
      && 0 <= arrived2 < m
      && (released == 0 || released == 1)
      && Inflow(c.bp, e.deeds, c.bp[u].id) + Weigh(Waiting(u), f) + arrived
         == Sum(Waiting(u), e.frames) + Sum(Waiting(u), e.spawned) + arrived2 + (if released == 1 then m else 0)
  {
    hide Fire, KindOf, InDegree, Inflow, Apply, PlainNodes;
    if f.Exec? {
      ExecMerging(c, t, f.node, pick, u);
    } else {
      EffectArrivals(c, t, f, pick, u);
      EffectDepartures(c, t, f, pick, u);
      if Fire(c, t, f, pick).op.Some? {
        OtherJoinUntouched(Fire(c, t, f, pick).op.value, t, c.bp[u].id);
      }
    }
  }

  lemma InflowAdds(c: Config, a: multiset<Deed>, b: multiset<Deed>, u: nat)
    requires u < |c.bp|
    ensures Inflow(c.bp, a + b, c.bp[u].id) == Inflow(c.bp, a, c.bp[u].id) + Inflow(c.bp, b, c.bp[u].id)
  {
    FlowAdds(c.bp, a, b, c.bp[u].id, |c.bp|);
  }

  lemma FlowStep(c: Config, s: State, l: Label)
    requires PlainNodes(c.bp) && SteadyState(c, s) && Enabled(c, s, l) && Smooth(l) && FlowInv(c, s)
    ensures FlowInv(c, Step(c, s, l))
  {
    hide Step, EdgesBalance, NodeBalances, PlainNodes, SteadyState, Merging;
    forall u: nat | u < |c.bp|
      ensures EdgesBalance(c, Step(c, s, l), u) && NodeBalances(c, Step(c, s, l), u)
    {
      EdgesStep(c, s, l, u);
      if Merging(c.bp, u) { MergingStep(c, s, l, u); } else { PassingStep(c, s, l, u); }
    }
  }
}
