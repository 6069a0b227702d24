/**
 Completion: exactly which acyclic fan-out/join blueprints complete in every maximal
 failure-free run, under any interleaving, and what such runs do. On fork/join
 blueprints they walk each edge once, fire each join once and complete the task.
 */
module Completion {
  import opened Prelude
  import opened Blueprints
  import opened TaskRecord
  import opened Engine
  import opened Conservation
  import opened Termination
  import opened Flow
  import opened Firing
  import Terminal

  // ---- No token live --------------------------------------------------------------------

  lemma {:induction false} Dominated(g: Gauge, procs: seq<Stack>)
    requires g.At? || g.Waiting? || g.Fanning? || g.Walking?
    ensures Total(g, procs) <= Total(Tokens, procs)
  {
    if procs != [] {
      Dominated(g, procs[..|procs| - 1]);
      SumDominated(g, procs[|procs| - 1]);
    }
  }

  lemma {:induction false} SumDominated(g: Gauge, fs: Stack)
    requires g.At? || g.Waiting? || g.Fanning? || g.Walking?
    ensures Sum(g, fs) <= Sum(Tokens, fs)
  {
    hide Find;
    if fs != [] {
      SumDominated(g, fs[1..]);
    }
  }

  // Without live tokens every firing node was left once and every other one never.
  lemma SettledAt(c: Config, fed: set<nat>, s: State, u: nat)
    requires Plain(c.bp) && FiringSet(c.bp, fed) && FlowInv(c, s) && u < |c.bp| && Live(s) == 0
    ensures Settled(c, fed, s, u)
  {
    hide PlainNodes, FiringSet, FlowInv, Settled;
    var rank :| Layered(c.bp, rank);
    forall v: nat | v < |c.bp| && rank[v] > -1
      ensures Total(At(c, v), s.procs) == Total(Waiting(v), s.procs) == Total(Fanning(v), s.procs) == 0
      ensures forall k: nat :: k < |c.bp[v].next| ==> Total(Walking(v, k), s.procs) == 0
    {
      Dominated(At(c, v), s.procs);
      Dominated(Waiting(v), s.procs);
      Dominated(Fanning(v), s.procs);
      forall k: nat | k < |c.bp[v].next| ensures Total(Walking(v, k), s.procs) == 0 {
        Dominated(Walking(v, k), s.procs);
      }
    }
    Settles(c, rank, fed, s, u, -1, Top(rank));
  }

  // ---- From the branch count to completeTask ---------------------------------------------------

  ghost predicate Orderly(c: Config, s: State) {
    && SteadyState(c, s) && FlowInv(c, s)
    && s.task.activeBranches == Live(s)
    && (Total(Completions, s.procs) > 0 ==> Live(s) == 0)
  }

  // A running task without live branches is about to be completed.
  ghost predicate Due(s: State) {
    s.task.status == Running && Live(s) == 0 ==> Total(Completions, s.procs) > 0
  }

  // One failure-free step: the branch count follows the tokens exactly, no failure
  // appears, completeTask becomes due only at the last leaf, and a token vanishes
  // without it only into a join.
  ghost predicate PhaseEffect(c: Config, t: Task, f: Frame, e: Effect) {
    var created := Sum(Tokens, e.frames) + Sum(Tokens, e.spawned);
    var due := Sum(Completions, e.frames);
    && Sum(Failures, e.frames) == Sum(Failures, e.spawned) == 0
    && Sum(Stray(c), e.frames) == Sum(Stray(c), e.spawned) == 0
    && Sum(Completions, e.spawned) == 0
    && BranchMove(e.op, t) == created - Held(f)
    && (due > 0 ==> Held(f) == 1 && created == 0 && t.activeBranches <= 1)
    && (Held(f) > 0 && created == 0 && due == 0 ==>
          (f.Fan? && t.activeBranches > 1) || Absorbed(c, t, f, e))
    && (f.Complete? || Store(e.op, t).status == t.status)
  }

  lemma EffectPhase(c: Config, t: Task, f: Frame, pick: Pick)
    requires PlainNodes(c.bp) && Steady(c, t, f, pick) && (f.Complete? ==> f.held == 0)
    ensures PhaseEffect(c, t, f, Fire(c, t, f, pick))
  {
    hide KindOf, FireExec, FireFan, PhaseEffect;
    if f.Exec? {
      ExecPhase(c, t, f.node, pick);
    } else if f.Fan? {
      FanPhase(c, t, f.node);
    } else {
      OtherPhase(c, t, f, pick);
    }
  }

  lemma OtherPhase(c: Config, t: Task, f: Frame, pick: Pick)
    requires PlainNodes(c.bp) && Steady(c, t, f, pick) && (f.Complete? ==> f.held == 0) && !f.Exec? && !f.Fan?
    ensures PhaseEffect(c, t, f, Fire(c, t, f, pick))
  {
    hide KindOf, FireExec, FireFan, InDegree;
    if f.Await? || f.Recv? || f.Merge? {
      ReplyPhase(c, t, f, pick);
    } else {
      EffectSum(Failures, c, t, f, pick);
      EffectSum(Stray(c), c, t, f, pick);
      EffectSum(Completions, c, t, f, pick);
      EffectSum(Tokens, c, t, f, pick);
      if f.Publish? {
        FindOwnId(c.bp, f.node);
      }
    }
  }

  lemma ReplyPhase(c: Config, t: Task, f: Frame, pick: Pick)
    requires PlainNodes(c.bp) && Steady(c, t, f, pick) && (f.Await? || f.Recv? || f.Merge?)
    ensures PhaseEffect(c, t, f, Fire(c, t, f, pick))
  {
    hide KindOf, FireExec, FireFan, InDegree, PlainNodes, Find;
    EffectSum(Failures, c, t, f, pick);
    EffectSum(Stray(c), c, t, f, pick);
    EffectSum(Completions, c, t, f, pick);
    EffectSum(Tokens, c, t, f, pick);
  }

  lemma ExecPhase(c: Config, t: Task, u: nat, pick: Pick)
    requires PlainNodes(c.bp) && u < |c.bp| && Steady(c, t, Exec(u), pick)
    ensures PhaseEffect(c, t, Exec(u), FireExec(c, t, u, pick))
  {
    hide KindOf, FireExec, InDegree, WellFormed;
    var e := FireExec(c, t, u, pick);
    ExecSmooth(c, t, u, pick);
    ExecShape(c, t, u, pick);
    SumShort(Failures, e.frames);
    SumShort(Stray(c), e.frames);
    SumShort(Completions, e.frames);
    SumShort(Tokens, e.frames);
  }

  lemma FanPhase(c: Config, t: Task, u: nat)
    requires PlainNodes(c.bp) && u < |c.bp|
    ensures PhaseEffect(c, t, Fan(u), FireFan(c, t, u))
  {
    hide KindOf, InDegree;
    var e := FireFan(c, t, u);
    assert AllResolve(c.bp, u);
    SumShort(Failures, e.frames);
    SumShort(Stray(c), e.frames);
    SumShort(Completions, e.frames);
    SumShort(Tokens, e.frames);
  }

  ghost predicate Absorbed(c: Config, t: Task, f: Frame, e: Effect) {
    && f.Exec? && f.node < |c.bp| && Merging(c.bp, f.node)
    && e.op == Some(ArriveAtJoin(c.bp[f.node].id, InDegree(c.bp, c.bp[f.node].id)))
    && !Proceeds(t, c.bp[f.node].id, InDegree(c.bp, c.bp[f.node].id))
  }

  ghost predicate Absorbs(c: Config, s: State, l: Label)
    requires Enabled(c, s, l) && l.Turn?
  {
    var f := s.procs[l.p][0];
    Absorbed(c, s.task, f, Fire(c, s.task, f, l.pick))
  }

  // A failure-free step keeps order; completeTask stays due unless the step absorbs
  // the last live branch.
  lemma OrderlyStep(c: Config, s: State, l: Label)
    requires PlainNodes(c.bp) && Orderly(c, s) && Enabled(c, s, l) && Smooth(l)
    ensures Orderly(c, Step(c, s, l))
    ensures Due(s) && (Absorbs(c, s, l) ==> Live(Step(c, s, l)) > 0) ==> Due(Step(c, s, l))
  {
    hide Fire, KindOf, FlowInv, Apply, PlainNodes;
    var f := s.procs[l.p][0];
    var e := Fire(c, s.task, f, l.pick);
    HeadSteady(c, s, l);
    SoundStep(c, s, l);
    FlowStep(c, s, l);
    TurnTotal(Tokens, c, s, l.p, l.pick);
    TurnTotal(Failures, c, s, l.p, l.pick);
    TurnTotal(Stray(c), c, s, l.p, l.pick);
    TurnTotal(Completions, c, s, l.p, l.pick);
    EffectPhase(c, s.task, f, l.pick);
    EffectDeeds(c, s.task, f, l.pick);
    StoreMoves(e.op, s.task);
    if f.Complete? {
      CompletionEffect(c, s.task, f, l.pick);
    }
  }

  lemma CompletionEffect(c: Config, t: Task, f: Frame, pick: Pick)
    requires WellFormed(c, f) && f.Complete?
    ensures Store(Fire(c, t, f, pick).op, t).status == if t.status == Running then Completed else t.status
  {
  }

  // An absorbed arrival leaves its join's counter positive.
  lemma AbsorbedCounts(t: Task, op: Op)
    requires op.ArriveAtJoin? && !Proceeds(t, op.id, op.expected)
    ensures Count(Apply(op, t).joinState, op.id) == Count(t.joinState, op.id) + 1
  {
  }

  lemma OrderlyInit(c: Config, context: map<string, string>, alarms: nat)
    requires Plain(c.bp)
    ensures Orderly(c, Init(c, context, alarms)) && Due(Init(c, context, alarms))
  {
    hide KindOf, PlainNodes, EdgesBalance, NodeBalances;
    var s := Init(c, context, alarms);
    InitHolds(c, context, alarms);
    InitTotal(Tokens, c, context, alarms);
    InitTotal(Stray(c), c, context, alarms);
    InitTotal(Failures, c, context, alarms);
    InitTotal(Completions, c, context, alarms);
    forall u: nat | u < |c.bp| ensures EdgesBalance(c, s, u) && NodeBalances(c, s, u) {
      InitBalances(c, context, alarms, u);
    }
  }

  lemma InitBalances(c: Config, context: map<string, string>, alarms: nat, u: nat)
    requires u < |c.bp|
    ensures EdgesBalance(c, Init(c, context, alarms), u) && NodeBalances(c, Init(c, context, alarms), u)
  {
    hide KindOf, InDegree, Find;
    var s := Init(c, context, alarms);
    FlowNone(c.bp, s.trace, c.bp[u].id, |c.bp|);
    InitTotal(At(c, u), c, context, alarms);
    InitTotal(Waiting(u), c, context, alarms);
    InitTotal(Fanning(u), c, context, alarms);
    forall k: nat | k < |c.bp[u].next| ensures Total(Walking(u, k), s.procs) == 0 {
      InitTotal(Walking(u, k), c, context, alarms);
    }
  }

  lemma {:induction false} OrderlyRun(c: Config, s: State, ls: seq<Label>, s2: State)
    requires PlainNodes(c.bp) && Orderly(c, s) && Run(c, s, ls, s2) && SmoothRun(ls)
    ensures Orderly(c, s2)
    decreases |ls|
  {
    hide PlainNodes, Orderly, Step, Smooth, Enabled;
    if ls != [] {
      assert Smooth(ls[0]);
      OrderlyStep(c, s, ls[0]);
      OrderlyRun(c, Step(c, s, ls[0]), ls[1..], s2);
    }
  }

  // ---- The last branch of a handler --------------------------------------------------------------

  // Within one handler branches run one after the other, so only the branch that takes
  // the last edge everywhere, from where the handler started, can be its last.
  ghost predicate TailStep(bp: Blueprint, fed: set<nat>, u: nat, v: nat) {
    && u in fed && u < |bp| && bp[u].next != []
    && Find(bp, bp[u].next[|bp[u].next| - 1]) == Some(v)
  }

  // Handlers start at the entry and at the replies of plugin nodes.
  ghost predicate IsTail(bp: Blueprint, fed: set<nat>, p: seq<nat>) {
    && p != [] && p[0] < |bp| && (p[0] == 0 || KindOf(bp[p[0]]) == Plugin)
    && (forall i :: 0 <= i < |p| - 1 ==> TailStep(bp, fed, p[i], p[i + 1]))
  }

  ghost predicate Trails(bp: Blueprint, fed: set<nat>, v: nat) {
    exists p: seq<nat> :: IsTail(bp, fed, p) && p[|p| - 1] == v
  }

  // Some handler's last branch can run into a join that never fires.
  ghost predicate Strands(bp: Blueprint, fed: set<nat>) {
    exists v: nat :: v < |bp| && Trails(bp, fed, v) && Merging(bp, v) && v !in fed
  }

  lemma TrailsOn(bp: Blueprint, fed: set<nat>, u: nat, v: nat)
    requires Trails(bp, fed, u) && TailStep(bp, fed, u, v)
    ensures Trails(bp, fed, v)
  {
    hide Find, KindOf;
    var p: seq<nat> :| IsTail(bp, fed, p) && p[|p| - 1] == u;
    var q := p + [v];
    forall i | 0 <= i < |q| - 1 ensures TailStep(bp, fed, q[i], q[i + 1]) {
      assert i < |p| - 1 ==> TailStep(bp, fed, p[i], p[i + 1]);
    }
    assert IsTail(bp, fed, q);
  }

  // A trailing node starts a handler or is the last target of one that trails.
  lemma TrailsBack(bp: Blueprint, fed: set<nat>, v: nat) returns (u: nat)
    requires Trails(bp, fed, v)
    ensures v < |bp| && (TailStep(bp, fed, u, v) || v == 0 || KindOf(bp[v]) == Plugin)
  {
    hide KindOf;
    var p: seq<nat> :| IsTail(bp, fed, p) && p[|p| - 1] == v;
    if |p| == 1 {
      u := 0;
    } else {
      u := p[|p| - 2];
      assert TailStep(bp, fed, p[|p| - 2], p[|p| - 2 + 1]);
    }
  }

  lemma TrailsPlugin(bp: Blueprint, fed: set<nat>, v: nat)
    requires v < |bp| && (v == 0 || KindOf(bp[v]) == Plugin)
    ensures Trails(bp, fed, v)
  {
    assert IsTail(bp, fed, [v]);
  }

  ghost predicate BottomFits(c: Config, fed: set<nat>, f: Frame) {
    && (f.Exec? || f.Fan? || f.Publish? || f.Walk? ==> f.node < |c.bp| && Trails(c.bp, fed, f.node))
    && (f.Walk? ==> f.hi == |c.bp[f.node].next|)
  }

  // Below the frame at work wait only fan-out loops; the outermost frame lies on the
  // handler's last branch.
  ghost predicate StackFits(c: Config, fed: set<nat>, fs: Stack) {
    fs != [] ==> (forall i :: 0 < i < |fs| ==> fs[i].Walk?) && BottomFits(c, fed, fs[|fs| - 1])
  }

  ghost predicate Shaped(c: Config, fed: set<nat>, s: State) {
    forall p :: 0 <= p < |s.procs| ==> StackFits(c, fed, s.procs[p])
  }

  lemma FramesFit(c: Config, fed: set<nat>, t: Task, f: Frame, pick: Pick)
    requires PlainNodes(c.bp) && Steady(c, t, f, pick) && (f.Walk? ==> f.node in fed)
    ensures
      var e := Fire(c, t, f, pick);
      && StackFits(c, fed, e.spawned)
      && |e.frames| <= 2 && (|e.frames| == 2 ==> e.frames[1].Walk?)
      && (BottomFits(c, fed, f) ==> StackFits(c, fed, e.frames))
  {
    hide KindOf, FireExec, FireFan, Find, Trails, InDegree, Proceeds, PlainNodes;
    if f.Exec? {
      ExecSmooth(c, t, f.node, pick);
    } else if f.Fan? {
      FanFrames(c, t, f.node);
    } else if f.Walk? && f.lo + 1 == f.hi && BottomFits(c, fed, f) {
      TrailsOn(c.bp, fed, f.node, Find(c.bp, c.bp[f.node].next[f.lo]).value);
    } else if f.Recv? || f.Merge? {
      TrailsPlugin(c.bp, fed, Find(c.bp, f.id).value);
    }
  }

  lemma FanFrames(c: Config, t: Task, u: nat)
    requires PlainNodes(c.bp) && u < |c.bp|
    ensures
      var e, n := FireFan(c, t, u), |c.bp[u].next|;
      e.spawned == [] && (e.frames == [] || e.frames == [Complete(0)] || (n > 0 && e.frames == [Walk(u, 0, n)]))
  {
    hide KindOf;
    assert AllResolve(c.bp, u);
  }

  lemma StackAppend(c: Config, fed: set<nat>, top: Stack, f: Frame, rest: Stack)
    requires StackFits(c, fed, [f] + rest) && |top| <= 2 && (|top| == 2 ==> top[1].Walk?)
    requires BottomFits(c, fed, f) ==> StackFits(c, fed, top)
    ensures StackFits(c, fed, top + rest)
  {
    hide BottomFits;
    var old_, new_ := [f] + rest, top + rest;
    if rest == [] {
      assert old_[|old_| - 1] == f && new_ == top;
    } else {
      assert old_[|old_| - 1] == rest[|rest| - 1] == new_[|new_| - 1];
      forall i | 0 < i < |new_| ensures new_[i].Walk? {
        if i >= |top| { assert new_[i] == old_[i - |top| + 1]; }
      }
    }
  }

  lemma WalkedIsFed(c: Config, fed: set<nat>, s: State, p: nat)
    requires Plain(c.bp) && FiringSet(c.bp, fed) && FlowInv(c, s) && Sound(c, s)
    requires p < |s.procs| && s.procs[p] != [] && s.procs[p][0].Walk? && WellFormed(c, s.procs[p][0])
    ensures s.procs[p][0].node in fed
  {
    hide PlainNodes, FiringSet, FlowInv, KindOf, Find;
    var f := s.procs[p][0];
    var rank :| Layered(c.bp, rank);
    TotalReplace(Walking(f.node, f.lo), s.procs, p, []);
    CrossedAfterEmitted(c, s, f.node, f.lo);
    AtMostOnce(c, rank, fed, s, f.node, Top(rank));
  }

  lemma ShapedStep(c: Config, fed: set<nat>, s: State, l: Label)
    requires Plain(c.bp) && FiringSet(c.bp, fed) && Orderly(c, s) && Shaped(c, fed, s)
    requires Enabled(c, s, l) && Smooth(l)
    ensures Shaped(c, fed, Step(c, s, l))
  {
    hide PlainNodes, FiringSet, FlowInv, KindOf, Find, Fire, StackFits, SteadyState, WellFormed, Steady;
    var f, rest := s.procs[l.p][0], s.procs[l.p][1..];
    var e := Fire(c, s.task, f, l.pick);
    HeadSteady(c, s, l);
    SteadyIsSound(c, s);
    if f.Walk? { WalkedIsFed(c, fed, s, l.p); }
    FramesFit(c, fed, s.task, f, l.pick);
    assert s.procs[l.p] == [f] + rest;
    StackAppend(c, fed, e.frames, f, rest);
  }

  lemma SteadyIsSound(c: Config, s: State)
    requires SteadyState(c, s)
    ensures Sound(c, s)
  {
  }

  // ---- Sufficiency ---------------------------------------------------------------------------------

  // Unless a handler's last branch can strand, an absorbed branch leaves another live.
  lemma AbsorptionLeavesTokens(c: Config, fed: set<nat>, s: State, l: Label)
    requires Plain(c.bp) && FiringSet(c.bp, fed) && Orderly(c, s) && Enabled(c, s, l) && Smooth(l) && Absorbs(c, s, l)
    requires s.procs[l.p][0].node in fed || (Shaped(c, fed, s) && !Strands(c.bp, fed))
    ensures Live(Step(c, s, l)) > 0
  {
    hide PlainNodes, FiringSet, FlowInv, KindOf, InDegree, Apply, Proceeds, SteadyState, Trails;
    var s2, u := Step(c, s, l), s.procs[l.p][0].node;
    OrderlyStep(c, s, l);
    if Live(s2) == 0 {
      if u in fed {
        SettledAt(c, fed, s2, u);
        AbsorbedCounts(s.task, Fire(c, s.task, s.procs[l.p][0], l.pick).op.value);
        ArrivedNotNegative(c, s, u);
      } else {
        SteadyIsSound(c, s2);
        LastToken(c, fed, s, s2, l);
      }
      assert false;
    }
  }

  lemma ArrivedNotNegative(c: Config, s: State, u: nat)
    requires FlowInv(c, s) && u < |c.bp|
    ensures Count(s.task.joinState, c.bp[u].id) >= 0
  {
    hide InDegree, Inflow;
    assert NodeBalances(c, s, u);
  }

  // A handler whose absorbed branch was the last live one had nothing else to do.
  lemma LastToken(c: Config, fed: set<nat>, s: State, s2: State, l: Label)
    requires Sound(c, s2) && Shaped(c, fed, s) && Enabled(c, s, l) && l.Turn? && s2 == Step(c, s, l) && Live(s2) == 0
    requires s.procs[l.p][0].Exec? && Fire(c, s.task, s.procs[l.p][0], l.pick).frames == []
    ensures BottomFits(c, fed, s.procs[l.p][0])
  {
    hide Fire, BottomFits, Sum, Total, WellFormed, KindOf;
    EmptyTop(c, s, l);
    NothingBelow(c, s2.procs, l.p, s.procs[l.p]);
  }

  lemma EmptyTop(c: Config, s: State, l: Label)
    requires Enabled(c, s, l) && l.Turn? && Fire(c, s.task, s.procs[l.p][0], l.pick).frames == []
    ensures l.p < |Step(c, s, l).procs| && Step(c, s, l).procs[l.p] == s.procs[l.p][1..]
  {
    hide Fire, WellFormed;
    assert [] + s.procs[l.p][1..] == s.procs[l.p][1..];
  }

  // Where no token is left, nothing waits below.
  lemma NothingBelow(c: Config, procs: seq<Stack>, p: nat, stack: Stack)
    requires Total(Bad(c), procs) == 0 && Total(Tokens, procs) == 0
    requires p < |procs| && stack != [] && procs[p] == stack[1..] && forall i :: 0 < i < |stack| ==> stack[i].Walk?
    ensures |stack| == 1
  {
    hide WellFormed, Weigh;
    TotalReplace(Tokens, procs, p, []);
    TotalReplace(Bad(c), procs, p, []);
    if |stack| > 1 {
      WalkHolds(c, stack[1..]);
    }
  }

  // A waiting fan-out loop holds the branches it has still to dispatch.
  lemma WalkHolds(c: Config, fs: Stack)
    requires fs != [] && fs[0].Walk? && Sum(Bad(c), fs) == 0
    ensures Sum(Tokens, fs) > 0
  {
    assert Weigh(Bad(c), fs[0]) == 0;
  }

  lemma {:induction false} CompletingRun(c: Config, fed: set<nat>, s: State, ls: seq<Label>, s2: State)
    requires Plain(c.bp) && FiringSet(c.bp, fed) && !Strands(c.bp, fed)
    requires Orderly(c, s) && Due(s) && Shaped(c, fed, s) && Run(c, s, ls, s2) && SmoothRun(ls)
    ensures Orderly(c, s2) && Due(s2)
    decreases |ls|
  {
    hide Plain, FiringSet, Strands, Orderly, Due, Shaped, Step, Smooth, Enabled, Absorbs;
    if ls != [] {
      assert Smooth(ls[0]);
      CompletingStep(c, fed, s, ls[0]);
      CompletingRun(c, fed, Step(c, s, ls[0]), ls[1..], s2);
    }
  }

  lemma CompletingStep(c: Config, fed: set<nat>, s: State, l: Label)
    requires Plain(c.bp) && FiringSet(c.bp, fed) && !Strands(c.bp, fed)
    requires Orderly(c, s) && Due(s) && Shaped(c, fed, s) && Enabled(c, s, l) && Smooth(l)
    ensures Orderly(c, Step(c, s, l)) && Due(Step(c, s, l)) && Shaped(c, fed, Step(c, s, l))
  {
    hide PlainNodes, FiringSet, Strands, Orderly, Due, Shaped, Step, Enabled, Absorbs;
    OrderlyStep(c, s, l);
    ShapedStep(c, fed, s, l);
    if Absorbs(c, s, l) {
      AbsorptionLeavesTokens(c, fed, s, l);
    }
  }

  lemma ShapedInit(c: Config, fed: set<nat>, context: map<string, string>, alarms: nat)
    requires c.bp != []
    ensures Shaped(c, fed, Init(c, context, alarms))
  {
    TrailsPlugin(c.bp, fed, 0);
  }

  // ---- Maximal runs ----------------------------------------------------------------------------------

  // A failure-free run that cannot be extended: no handler has work left and every
  // message was answered.
  ghost predicate Maximal(c: Config, s: State) {
    forall l :: Smooth(l) ==> !Enabled(c, s, l)
  }

  lemma MaximalIsQuiet(c: Config, s: State)
    requires Sound(c, s)
    ensures Maximal(c, s) <==> Quiet(s)
  {
    if !Quiet(s) {
      var p :| 0 <= p < |s.procs| && s.procs[p] != [];
      TotalReplace(Bad(c), s.procs, p, []);
      assert Weigh(Bad(c), s.procs[p][0]) == 0;
      var l := Turn(p, Good());
      assert Smooth(l) && Enabled(c, s, l);
    }
  }

  // What every maximal failure-free run of an acyclic fan-out/join blueprint does,
  // whatever the interleaving: each firing node is left once, with each of its edges
  // crossed once, and its join count returns to zero; other nodes are never left. No
  // branch stays live, and the task has not failed.
  lemma MaximalRun(c: Config, context: map<string, string>, alarms: nat, ls: seq<Label>, s: State)
    requires Plain(c.bp) && Run(c, Init(c, context, alarms), ls, s) && SmoothRun(ls) && Maximal(c, s)
    ensures s.task.activeBranches == 0 && s.task.status != Failed
    ensures forall u: nat :: u < |c.bp| ==>
      && s.trace[Emitted(u)] == Once(FiringOf(c.bp), u)
      && (forall k: nat :: k < |c.bp[u].next| ==> s.trace[Crossed(u, k)] == Once(FiringOf(c.bp), u))
      && (u in FiringOf(c.bp) ==> Count(s.task.joinState, c.bp[u].id) == 0)
    ensures !Strands(c.bp, FiringOf(c.bp)) ==> s.task.status == Completed
  {
    hide PlainNodes, FiringSet, Strands, Smooth, Enabled, FlowInv, Shaped;
    var fed, start := FiringOf(c.bp), Init(c, context, alarms);
    OrderlyInit(c, context, alarms);
    OrderlyRun(c, start, ls, s);
    MaximalIsQuiet(c, s);
    QuietTotal(Tokens, s.procs);
    QuietTotal(Completions, s.procs);
    forall u: nat | u < |c.bp|
      ensures s.trace[Emitted(u)] == Once(fed, u)
      ensures forall k: nat :: k < |c.bp[u].next| ==> s.trace[Crossed(u, k)] == Once(fed, u)
      ensures u in fed ==> Count(s.task.joinState, c.bp[u].id) == 0
    {
      SettledAt(c, fed, s, u);
    }
    if !Strands(c.bp, fed) {
      ShapedInit(c, fed, context, alarms);
      CompletingRun(c, fed, start, ls, s);
    }
  }

  // ---- Fork/join blueprints ------------------------------------------------------------------------

  // Every node reachable: every node fires.
  lemma {:induction false} ForkJoinFires(bp: Blueprint, rank: seq<nat>, fed: set<nat>, u: nat, top: nat)
    requires ForkJoin(bp) && Layered(bp, rank) && FiringSet(bp, fed) && u < |bp|
    requires forall v :: 0 <= v < |rank| ==> rank[v] <= top
    ensures u in fed
    decreases top - rank[u]
  {
    hide PlainNodes, InDegree, ForkJoin;
    ForkJoinIsPlain(bp);
    assert Fires(bp, fed, u) <==> u in fed;
    EntryDegree(bp, u);
    forall v: nat, k: nat | Feeds(bp, v, k, u) ensures v in fed {
      FeederAbove(bp, rank, v, k, u);
      ForkJoinFires(bp, rank, fed, v, top);
    }
    if u != 0 && !Merging(bp, u) {
      var v, k := SomeFeeder(bp, u);
    }
  }

  lemma ForkJoinAllFire(bp: Blueprint)
    requires ForkJoin(bp)
    ensures Plain(bp) && (forall u: nat :: u < |bp| ==> u in FiringOf(bp)) && !Strands(bp, FiringOf(bp))
  {
    ForkJoinIsPlain(bp);
    hide ForkJoin, PlainNodes, FiringSet, Trails;
    var rank :| Layered(bp, rank);
    forall u: nat | u < |bp| ensures u in FiringOf(bp) {
      ForkJoinFires(bp, rank, FiringOf(bp), u, Top(rank));
    }
  }

  // Every maximal failure-free run of a fork/join blueprint, whatever the
  // interleaving, crosses each edge exactly once, leaves each node (so fires each
  // join) exactly once, and ends completed with no branch and no join count left,
  // reporting task.completed exactly once to a known trigger plugin.
  lemma ForkJoinCompletes(c: Config, context: map<string, string>, alarms: nat, ls: seq<Label>, s: State)
    requires ForkJoin(c.bp) && Run(c, Init(c, context, alarms), ls, s) && SmoothRun(ls)
    requires Maximal(c, s)
    ensures s.task.status == Completed && s.task.activeBranches == 0
    ensures forall u: nat, k: nat :: u < |c.bp| && k < |c.bp[u].next| ==> s.trace[Crossed(u, k)] == 1
    ensures forall u: nat :: u < |c.bp| ==> s.trace[Emitted(u)] == 1 && Count(s.task.joinState, c.bp[u].id) == 0
    ensures c.trigger != "" ==> |s.callbacks| == 1 && s.callbacks[0].event == TaskCompleted
  {
    ForkJoinAllFire(c.bp);
    hide ForkJoin, Smooth, Plain, Strands;
    MaximalRun(c, context, alarms, ls, s);
    OrderlyQuiet(c, context, alarms, ls, s);
    SmoothHasNoAborts(ls);
    Terminal.OneCallback(c, context, alarms, ls, s);
  }

  lemma OrderlyQuiet(c: Config, context: map<string, string>, alarms: nat, ls: seq<Label>, s: State)
    requires Plain(c.bp) && Run(c, Init(c, context, alarms), ls, s) && SmoothRun(ls) && Maximal(c, s)
    ensures Quiet(s)
  {
    hide PlainNodes, Smooth, Enabled, FlowInv;
    OrderlyInit(c, context, alarms);
    OrderlyRun(c, Init(c, context, alarms), ls, s);
    MaximalIsQuiet(c, s);
  }

  lemma SmoothHasNoAborts(ls: seq<Label>)
    requires SmoothRun(ls)
    ensures NoAborts(ls)
  {
  }
}
