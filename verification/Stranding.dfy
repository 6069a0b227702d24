/**
 The other half of the completion condition: if some handler's last branch can run
 into a join that never fires, a schedule exists that leaves the task running for
 ever. The run is built by holding that branch back while everything else finishes.
 */
module Stranding {
  import opened Prelude
  import opened Blueprints
  import opened TaskRecord
  import opened Engine
  import opened Conservation
  import opened Termination
  import opened Flow
  import opened Firing
  import opened Completion
  import Terminal

  // ---- Holding a branch back ----------------------------------------------------------------

  // Either every message of plugin node w stays unanswered, or handler h stops before
  // the last edge of its outermost fan-out loop, that of node u.
  datatype Hold = AtReply(w: nat) | AtLastEdge(h: nat, u: nat)

  predicate Parked(c: Config, hold: Hold, s: State, p: nat) {
    && p < |s.procs|
    && match hold
       case AtReply(w) => w < |c.bp| && s.procs[p] == [Await(c.bp[w].id)]
       case AtLastEdge(h, u) =>
         p == h && u < |c.bp| && c.bp[u].next != [] && s.procs[p] == [Walk(u, |c.bp[u].next| - 1, |c.bp[u].next|)]
  }

  predicate Outermost(c: Config, f: Frame, u: nat) {
    u < |c.bp| && f.Walk? && f.node == u && f.lo < f.hi == |c.bp[u].next|
  }

  // An unanswered message is a process of its own; below the frame at work wait only
  // fan-out loops.
  ghost predicate Single(fs: Stack) {
    && (forall i :: 0 < i < |fs| ==> fs[i].Walk?)
    && (fs != [] && fs[0].Await? ==> |fs| == 1)
  }

  ghost predicate Holds(c: Config, hold: Hold, s: State) {
    match hold
    case AtReply(w) =>
      && w < |c.bp| && KindOf(c.bp[w]) == Plugin
      && Total(Answered(c, w), s.procs) == 0 && s.trace[Emitted(w)] == 0
      && (forall p :: 0 <= p < |s.procs| ==> Single(s.procs[p]))
    case AtLastEdge(h, u) => h < |s.procs| && s.procs[h] != [] && Outermost(c, s.procs[h][|s.procs[h]| - 1], u)
  }

  // Without a reply a plugin node is not left, and messages stay alone.
  lemma EffectAnswered(c: Config, t: Task, f: Frame, pick: Pick, w: nat)
    requires PlainNodes(c.bp) && Steady(c, t, f, pick) && w < |c.bp| && KindOf(c.bp[w]) == Plugin
    requires f != Await(c.bp[w].id) && Weigh(Answered(c, w), f) == 0
    ensures
      var e := Fire(c, t, f, pick);
      Sum(Answered(c, w), e.frames) == Sum(Answered(c, w), e.spawned) == e.deeds[Emitted(w)] == 0
  {
    hide KindOf, FireExec, Find, InDegree;
    EffectSum(Answered(c, w), c, t, f, pick);
    if f.Exec? {
      ExecSmooth(c, t, f.node, pick);
      ExecShape(c, t, f.node, pick);
    }
  }

  lemma FramesSingle(c: Config, t: Task, f: Frame, pick: Pick)
    requires PlainNodes(c.bp) && Steady(c, t, f, pick)
    ensures
      var e := Fire(c, t, f, pick);
      && Single(e.spawned) && |e.frames| <= 2
      && (|e.frames| > 0 ==> !e.frames[0].Await?) && (|e.frames| == 2 ==> e.frames[1].Walk?)
  {
    hide KindOf, FireExec, Find, InDegree;
    if f.Exec? {
      ExecSmooth(c, t, f.node, pick);
    }
  }

  lemma ReplyHeld(c: Config, w: nat, s: State, l: Label)
    requires PlainNodes(c.bp) && Orderly(c, s) && Enabled(c, s, l) && Smooth(l)
    requires Holds(c, AtReply(w), s) && !Parked(c, AtReply(w), s, l.p)
    ensures Holds(c, AtReply(w), Step(c, s, l))
  {
    hide PlainNodes, FlowInv, KindOf, Fire, SteadyState, Steady, WellFormed;
    var stack := s.procs[l.p];
    var f, rest := stack[0], stack[1..];
    assert stack == [f] + rest;
    assert Single(stack);
    HeadSteady(c, s, l);
    TurnTotal(Answered(c, w), c, s, l.p, l.pick);
    EffectAnswered(c, s.task, f, l.pick, w);
    FramesSingle(c, s.task, f, l.pick);
    var top := Fire(c, s.task, f, l.pick).frames;
    assert Single(top + rest) by {
      forall i | 0 < i < |top + rest| ensures (top + rest)[i].Walk? {
        if i >= |top| { assert (top + rest)[i] == stack[i - |top| + 1]; }
      }
      if top == [] && rest != [] { assert rest[0] == stack[1]; }
    }
  }

  lemma LastEdgeHeld(c: Config, h: nat, u: nat, s: State, l: Label)
    requires PlainNodes(c.bp) && Orderly(c, s) && Enabled(c, s, l) && Smooth(l)
    requires Holds(c, AtLastEdge(h, u), s) && !Parked(c, AtLastEdge(h, u), s, l.p)
    ensures Holds(c, AtLastEdge(h, u), Step(c, s, l))
  {
    hide PlainNodes, FlowInv, KindOf, FireExec, Find, SteadyState;
    if l.p == h {
      var stack, s2 := s.procs[h], Step(c, s, l);
      var f, rest := stack[0], stack[1..];
      assert s2.procs[h] == Fire(c, s.task, f, l.pick).frames + rest;
      if rest != [] {
        assert rest[|rest| - 1] == stack[|stack| - 1];
        assert s2.procs[h][|s2.procs[h]| - 1] == rest[|rest| - 1];
      } else {
        assert stack == [f];
      }
    }
  }

  // Everything that is not held back can be finished.
  lemma {:induction false} Drain(c: Config, rank: seq<nat>, hold: Hold, s: State) returns (ls: seq<Label>, s2: State)
    requires PlainNodes(c.bp) && Layered(c.bp, rank) && Orderly(c, s) && Holds(c, hold, s)
    ensures Run(c, s, ls, s2) && SmoothRun(ls) && Orderly(c, s2) && Holds(c, hold, s2)
    ensures forall p: nat :: p < |s2.procs| ==> s2.procs[p] == [] || Parked(c, hold, s2, p)
    decreases s.alarms, Budget(c.bp, s.task.loopState), Total(Fuel(c, rank), s.procs)
  {
    hide Fire, KindOf, FlowInv, Layered, Holds, Parked, Smooth;
    if p: nat :| p < |s.procs| && s.procs[p] != [] && !Parked(c, hold, s, p) {
      var l := Turn(p, Good());
      CanMove(c, s, p);
      PlainIds(c.bp);
      StepDescends(c, rank, s, l);
      if hold.AtReply? { ReplyHeld(c, hold.w, s, l); } else { LastEdgeHeld(c, hold.h, hold.u, s, l); }
      OrderlyStep(c, s, l);
      var more;
      more, s2 := Drain(c, rank, hold, Step(c, s, l));
      ls := [l] + more;
      assert ls[1..] == more;
    } else {
      ls, s2 := [], s;
    }
  }

  lemma CanMove(c: Config, s: State, p: nat)
    requires SteadyState(c, s) && p < |s.procs| && s.procs[p] != []
    ensures Sound(c, s) && Enabled(c, s, Turn(p, Good())) && Smooth(Turn(p, Good()))
  {
    hide WellFormed;
    TotalReplace(Bad(c), s.procs, p, []);
    assert Weigh(Bad(c), s.procs[p][0]) == 0;
  }

  lemma PlainIds(bp: Blueprint)
    requires PlainNodes(bp)
    ensures DistinctIds(bp)
  {
  }

  // ---- One branch alone ------------------------------------------------------------------------

  // Handler h has just frame f to run, nobody else has anything.
  ghost predicate Alone(s: State, h: nat, f: Frame) {
    h < |s.procs| && s.procs[h] == [f] && forall p :: 0 <= p < |s.procs| && p != h ==> s.procs[p] == []
  }

  lemma AloneTotal(g: Gauge, s: State, h: nat, f: Frame)
    requires Alone(s, h, f)
    ensures Total(g, s.procs) == Weigh(g, f)
  {
    TotalReplace(g, s.procs, h, []);
    QuietTotal(g, s.procs[h := []]);
    assert Sum(g, [f]) == Weigh(g, f) + Sum(g, []);
  }

  // Its step, without failure; at most a message takes its place.
  lemma AloneStep(c: Config, s: State, h: nat, f: Frame)
    requires PlainNodes(c.bp) && Orderly(c, s) && Alone(s, h, f)
    ensures WellFormed(c, f) && Steady(c, s.task, f, Good())
    ensures
      var l := Turn(h, Good());
      var e := Fire(c, s.task, f, Good());
      && Enabled(c, s, l) && Smooth(l)
      && (var s2 := Step(c, s, l);
          && Orderly(c, s2) && s2.task == Store(e.op, s.task)
          && Live(s) == Held(f)
          && (e.frames == [] && e.spawned == [] ==> Quiet(s2))
          && (|e.frames| == 1 && e.spawned == [] ==> Alone(s2, h, e.frames[0]))
          && (e.frames == [] && |e.spawned| == 1 ==> Alone(s2, |s.procs|, e.spawned[0])))
  {
    hide Fire, WellFormed, FlowInv, PlainNodes, SteadyState, Smooth, Steady, Apply;
    CanMove(c, s, h);
    HeadSteady(c, s, Turn(h, Good()));
    OrderlyStep(c, s, Turn(h, Good()));
    AloneTotal(Tokens, s, h, f);
    var e := Fire(c, s.task, f, Good());
    assert s.procs[h][1..] == [];
    assert e.frames + s.procs[h][1..] == e.frames;
    var s2 := Step(c, s, Turn(h, Good()));
    assert forall p :: 0 <= p < |s.procs| ==> s2.procs[p] == (if p == h then e.frames else s.procs[p]);
  }

  // A run that starts with this step.
  lemma Then(c: Config, s: State, l: Label, more: seq<Label>, s2: State)
    requires Enabled(c, s, l) && Smooth(l) && Run(c, Step(c, s, l), more, s2) && SmoothRun(more)
    ensures Run(c, s, [l] + more, s2) && SmoothRun([l] + more)
  {
    hide Enabled, Smooth, Step;
    assert ([l] + more)[1..] == more;
  }

  // ---- Along the tail ---------------------------------------------------------------------------

  // What is left of a tail, ending in a join that never fires.
  ghost predicate Stuck(bp: Blueprint, fed: set<nat>, p: seq<nat>) {
    && p != [] && p[0] < |bp|
    && (forall i :: 0 <= i < |p| - 1 ==> TailStep(bp, fed, p[i], p[i + 1]))
    && p[|p| - 1] < |bp| && Merging(bp, p[|p| - 1]) && p[|p| - 1] !in fed
  }

  ghost predicate Stranded(c: Config, s: State, ls: seq<Label>, s2: State) {
    Run(c, s, ls, s2) && SmoothRun(ls) && Quiet(s2) && s2.task.status == Running
  }

  lemma StuckOn(bp: Blueprint, fed: set<nat>, p: seq<nat>)
    requires Stuck(bp, fed, p) && |p| > 1
    ensures Stuck(bp, fed, p[1..]) && TailStep(bp, fed, p[0], p[1]) && p[0] < |bp|
  {
    hide TailStep, InDegree;
    assert TailStep(bp, fed, p[0], p[0 + 1]);
    forall i | 0 <= i < |p[1..]| - 1 ensures TailStep(bp, fed, p[1..][i], p[1..][i + 1]) {
      assert TailStep(bp, fed, p[i + 1], p[i + 1 + 1]);
    }
    assert p[1] < |bp| by { TargetInside(bp, fed, p[0], p[1]); }
  }

  lemma TargetInside(bp: Blueprint, fed: set<nat>, u: nat, v: nat)
    requires TailStep(bp, fed, u, v)
    ensures v < |bp|
  {
  }

  // Executing a node that fires passes it; one more arrival at a join that does not
  // ends the run.
  lemma ExecAlone(c: Config, rank: seq<nat>, fed: set<nat>, s: State, h: nat, u: nat)
    requires Plain(c.bp) && Layered(c.bp, rank) && FiringSet(c.bp, fed) && Orderly(c, s)
    requires Alone(s, h, Exec(u)) && u < |c.bp|
    ensures
      var l := Turn(h, Good());
      && Enabled(c, s, l) && Smooth(l) && Orderly(c, Step(c, s, l))
      && (var s2 := Step(c, s, l);
          && (u in fed ==> Alone(s2, h, if KindOf(c.bp[u]) == Plugin then Publish(u) else Fan(u)))
          && (Merging(c.bp, u) && u !in fed ==> Quiet(s2) && s2.task.status == Running))
  {
    hide PlainNodes, FiringSet, KindOf, FireExec, FlowInv, InDegree, Apply, Proceeds, Steady;
    var l, t := Turn(h, Good()), s.task;
    AloneStep(c, s, h, Exec(u));
    ExecSmooth(c, t, u, Good());
    StoreMoves(Fire(c, t, Exec(u), Good()).op, t);
    var s2 := Step(c, s, l);
    if Merging(c.bp, u) {
      JoinsAreBuiltin(c.bp, u);
      if Proceeds(t, c.bp[u].id, InDegree(c.bp, c.bp[u].id)) {
        AtMostOnce(c, rank, fed, s2, u, Top(rank));
        AloneTotal(Fanning(u), s2, h, Fan(u));
      } else {
        QuietTotal(Tokens, s2.procs);
        if u in fed { AbsorptionLeavesTokens(c, fed, s, l); }
      }
    }
  }

  lemma JoinsAreBuiltin(bp: Blueprint, u: nat)
    requires PlainNodes(bp) && u < |bp| && Merging(bp, u)
    ensures KindOf(bp[u]) == Join
  {
  }

  lemma FanAlone(c: Config, t: Task, u: nat)
    requires PlainNodes(c.bp) && u < |c.bp| && c.bp[u].next != []
    ensures
      var e := Fire(c, t, Fan(u), Good());
      && e.frames == [Walk(u, 0, |c.bp[u].next|)] && e.spawned == []
  {
    hide KindOf;
    assert AllResolve(c.bp, u);
  }

  lemma LastEdgeAlone(c: Config, fed: set<nat>, t: Task, u: nat, v: nat)
    requires TailStep(c.bp, fed, u, v)
    ensures
      var n := |c.bp[u].next|;
      && WellFormed(c, Walk(u, n - 1, n))
      && Fire(c, t, Walk(u, n - 1, n), Good()).frames == [Exec(v)]
      && Fire(c, t, Walk(u, n - 1, n), Good()).spawned == []
  {
    hide KindOf;
  }

  lemma {:induction false} FromExec(c: Config, rank: seq<nat>, fed: set<nat>, s: State, h: nat, p: seq<nat>)
    returns (ls: seq<Label>, s2: State)
    requires Plain(c.bp) && Layered(c.bp, rank) && FiringSet(c.bp, fed) && Orderly(c, s)
    requires Stuck(c.bp, fed, p) && Alone(s, h, Exec(p[0]))
    ensures Stranded(c, s, ls, s2)
    decreases |p|, 2
  {
    hide PlainNodes, Layered, FiringSet, Orderly, Merging, KindOf, FireExec, Smooth, Quiet, Enabled, Alone, Steady, Apply;
    var l, u := Turn(h, Good()), p[0];
    ExecAlone(c, rank, fed, s, h, u);
    var s1 := Step(c, s, l);
    var more;
    if |p| == 1 {
      more, s2 := [], s1;
    } else {
      StuckOn(c.bp, fed, p);
      if KindOf(c.bp[u]) == Plugin {
        AloneStep(c, s1, h, Publish(u));
        var l2 := Turn(h, Good());
        var rest;
        rest, s2 := FromAwait(c, rank, fed, Step(c, s1, l2), |s1.procs|, p);
        Then(c, s1, l2, rest, s2);
        more := [l2] + rest;
      } else {
        more, s2 := FromFan(c, rank, fed, s1, h, p);
      }
    }
    Then(c, s, l, more, s2);
    ls := [l] + more;
  }

  lemma {:induction false} FromAwait(c: Config, rank: seq<nat>, fed: set<nat>, s: State, h: nat, p: seq<nat>)
    returns (ls: seq<Label>, s2: State)
    requires Plain(c.bp) && Layered(c.bp, rank) && FiringSet(c.bp, fed) && Orderly(c, s)
    requires Stuck(c.bp, fed, p) && |p| > 1 && KindOf(c.bp[p[0]]) == Plugin && Alone(s, h, Await(c.bp[p[0]].id))
    ensures Stranded(c, s, ls, s2)
    decreases |p|, 1
  {
    hide PlainNodes, Layered, FiringSet, FlowInv, Stuck, Merging, KindOf, FireExec, Smooth, Quiet, Enabled, Alone, Apply, Find;
    StuckOn(c.bp, fed, p);
    var u, l := p[0], Turn(h, Good());
    var id := c.bp[u].id;
    PlainIds(c.bp);
    FindOwnId(c.bp, u);
    AloneStep(c, s, h, Await(id));
    assert s.task.status == Running;
    var s1 := Step(c, s, l);
    AloneStep(c, s1, h, Recv(id));
    var s3 := Step(c, s1, l);
    var more;
    more, s2 := FromFan(c, rank, fed, s3, h, p);
    Then(c, s1, l, more, s2);
    Then(c, s, l, [l] + more, s2);
    ls := [l] + ([l] + more);
  }

  lemma {:induction false} FromFan(c: Config, rank: seq<nat>, fed: set<nat>, s: State, h: nat, p: seq<nat>)
    returns (ls: seq<Label>, s2: State)
    requires Plain(c.bp) && Layered(c.bp, rank) && FiringSet(c.bp, fed) && Orderly(c, s)
    requires Stuck(c.bp, fed, p) && |p| > 1 && Alone(s, h, Fan(p[0]))
    ensures Stranded(c, s, ls, s2)
    decreases |p|, 0
  {
    hide PlainNodes, Layered, FiringSet, Orderly, Stuck, Merging, KindOf, Fire, Smooth, Quiet, Enabled, Apply, Find, Steady, WellFormed;
    StuckOn(c.bp, fed, p);
    var u, l := p[0], Turn(h, Good());
    var n := |c.bp[u].next|;
    AloneStep(c, s, h, Fan(u));
    FanAlone(c, s.task, u);
    var s1 := Step(c, s, l);
    var drained, s3 := Drain(c, rank, AtLastEdge(h, u), s1);
    assert Alone(s3, h, Walk(u, n - 1, n));
    AloneStep(c, s3, h, Walk(u, n - 1, n));
    LastEdgeAlone(c, fed, s3.task, u, p[1]);
    var more;
    more, s2 := FromExec(c, rank, fed, Step(c, s3, l), h, p[1..]);
    Then(c, s3, l, more, s2);
    Terminal.RunAppend(c, s1, drained, s3, [l] + more, s2);
    Then(c, s, l, drained + ([l] + more), s2);
    ls := [l] + (drained + ([l] + more));
  }

  // ---- The whole run ------------------------------------------------------------------------------

  // All messages of w held back, all else done: exactly one is waiting.
  lemma RepliesHeld(c: Config, rank: seq<nat>, fed: set<nat>, s: State, w: nat, f: Frame)
    requires Plain(c.bp) && Layered(c.bp, rank) && FiringSet(c.bp, fed) && Orderly(c, s)
    requires w in fed && Holds(c, AtReply(w), s) && f == Await(c.bp[w].id)
    requires forall p :: 0 <= p < |s.procs| ==> s.procs[p] == [] || s.procs[p] == [f]
    ensures Total(At(c, w), s.procs) == Weigh(At(c, w), f) == 1
  {
    hide PlainNodes, FiringSet, KindOf, InDegree, FlowInv, Find, Inflow, Merging;
    PlainIds(c.bp);
    FindOwnId(c.bp, w);
    forall v: nat | v < |c.bp| && rank[v] > rank[w]
      ensures Total(At(c, v), s.procs) == Total(Waiting(v), s.procs) == Total(Fanning(v), s.procs) == 0
      ensures forall k: nat :: k < |c.bp[v].next| ==> Total(Walking(v, k), s.procs) == 0
    {
      NoneWeighs(At(c, v), s.procs, f);
      NoneWeighs(Waiting(v), s.procs, f);
      NoneWeighs(Fanning(v), s.procs, f);
      forall k: nat | k < |c.bp[v].next| ensures Total(Walking(v, k), s.procs) == 0 {
        NoneWeighs(Walking(v, k), s.procs, f);
      }
    }
    FeedersSettle(c, rank, fed, s, w, rank[w], Top(rank));
    AllArrived(c, rank, fed, s, w);
    OneAtPlugin(c, s, w);
  }

  lemma OneReplyHeld(c: Config, rank: seq<nat>, fed: set<nat>, s: State, w: nat) returns (h: nat)
    requires Plain(c.bp) && Layered(c.bp, rank) && FiringSet(c.bp, fed) && Orderly(c, s)
    requires w in fed && Holds(c, AtReply(w), s)
    requires forall p: nat :: p < |s.procs| ==> s.procs[p] == [] || Parked(c, AtReply(w), s, p)
    ensures Alone(s, h, Await(c.bp[w].id))
  {
    hide Plain, Layered, FiringSet, Orderly, Weigh;
    var f, g := Await(c.bp[w].id), At(c, w);
    assert forall p :: 0 <= p < |s.procs| ==> s.procs[p] == [] || s.procs[p] == [f];
    RepliesHeld(c, rank, fed, s, w, f);
    if forall p :: 0 <= p < |s.procs| ==> s.procs[p] == [] {
      QuietTotal(g, s.procs);
    }
    h :| 0 <= h < |s.procs| && s.procs[h] != [];
    assert Sum(g, [f]) == Weigh(g, f) + Sum(g, []);
    TotalReplace(g, s.procs, h, []);
    forall q | 0 <= q < |s.procs| && q != h ensures s.procs[q] == [] {
      TotalReplace(g, s.procs[h := []], q, []);
    }
  }

  lemma OneAtPlugin(c: Config, s: State, w: nat)
    requires PlainNodes(c.bp) && FlowInv(c, s) && w < |c.bp| && KindOf(c.bp[w]) == Plugin
    requires Entered(c, s, w) == Full(c.bp, w) && s.trace[Emitted(w)] == 0
    ensures Total(At(c, w), s.procs) == 1
  {
    hide InDegree, Inflow, KindOf;
    assert NodeBalances(c, s, w);
  }

  lemma {:induction false} NoneWeighs(g: Gauge, procs: seq<Stack>, f: Frame)
    requires Weigh(g, f) == 0 && forall p :: 0 <= p < |procs| ==> procs[p] == [] || procs[p] == [f]
    ensures Total(g, procs) == 0
  {
    hide Weigh;
    if procs != [] {
      NoneWeighs(g, procs[..|procs| - 1], f);
      assert Sum(g, [f]) == Weigh(g, f) + Sum(g, []);
    }
  }

  lemma HoldsInit(c: Config, context: map<string, string>, alarms: nat, w: nat)
    requires c.bp != [] && w < |c.bp| && KindOf(c.bp[w]) == Plugin
    ensures Holds(c, AtReply(w), Init(c, context, alarms))
  {
    var procs := Init(c, context, alarms).procs;
    assert procs[..0] == [];
    assert Sum(Answered(c, w), procs[0]) == Weigh(Answered(c, w), Exec(0)) + Sum(Answered(c, w), []);
  }

  lemma StrandedRun(c: Config, context: map<string, string>, alarms: nat) returns (ls: seq<Label>, s: State)
    requires Plain(c.bp) && Strands(c.bp, FiringOf(c.bp))
    ensures Stranded(c, Init(c, context, alarms), ls, s)
  {
    hide PlainNodes, FiringSet, KindOf, InDegree, Holds, Parked, Orderly, Merging, TailStep;
    var fed, start := FiringOf(c.bp), Init(c, context, alarms);
    var rank :| Layered(c.bp, rank);
    var v: nat :| v < |c.bp| && Trails(c.bp, fed, v) && Merging(c.bp, v) && v !in fed;
    var p: seq<nat> :| IsTail(c.bp, fed, p) && p[|p| - 1] == v;
    OrderlyInit(c, context, alarms);
    assert Stuck(c.bp, fed, p);
    if p[0] == 0 {
      ls, s := FromExec(c, rank, fed, start, 0, p);
    } else {
      var w := p[0];
      if |p| == 1 { JoinsAreBuiltin(c.bp, w); }
      StuckOn(c.bp, fed, p);
      TargetFrom(c.bp, fed, w, p[1]);
      HoldsInit(c, context, alarms, w);
      var drained, s1 := Drain(c, rank, AtReply(w), start);
      var h := OneReplyHeld(c, rank, fed, s1, w);
      var more;
      more, s := FromAwait(c, rank, fed, s1, h, p);
      Terminal.RunAppend(c, start, drained, s1, more, s);
      ls := drained + more;
    }
  }

  lemma TargetFrom(bp: Blueprint, fed: set<nat>, u: nat, v: nat)
    requires TailStep(bp, fed, u, v)
    ensures u in fed
  {
  }

  // The exact condition: every maximal failure-free run of an acyclic fan-out/join
  // blueprint ends completed if and only if no handler's last branch can run into a
  // join that never fires.
  lemma CompletionCondition(c: Config, context: map<string, string>, alarms: nat)
    requires Plain(c.bp)
    ensures
      (forall ls, s :: Run(c, Init(c, context, alarms), ls, s) && SmoothRun(ls) && Maximal(c, s) ==>
         s.task.status == Completed)
      <==> !Strands(c.bp, FiringOf(c.bp))
  {
    assert c.bp != [];
    hide Plain, Run, SmoothRun, Strands, Maximal, Init, Quiet;
    if Strands(c.bp, FiringOf(c.bp)) {
      var ls, s := StrandedRun(c, context, alarms);
      QuietIsMaximal(c, s);
    } else {
      forall ls, s | Run(c, Init(c, context, alarms), ls, s) && SmoothRun(ls) && Maximal(c, s)
        ensures s.task.status == Completed
      {
        MaximalRun(c, context, alarms, ls, s);
      }
    }
  }

  lemma QuietIsMaximal(c: Config, s: State)
    requires Quiet(s)
    ensures Maximal(c, s)
  {
  }

  // ---- A simpler condition that suffices ------------------------------------------------------------

  // No edge leads from an unreachable node into a reachable join of several edges.
  ghost predicate Unmixed(bp: Blueprint) {
    forall v: nat, k: nat, u: nat ::
      u < |bp| && Feeds(bp, v, k, u) && Merging(bp, u) && ReachedFromEntry(bp, u) ==> ReachedFromEntry(bp, v)
  }

  lemma EdgeReaches(bp: Blueprint, v: nat, k: nat, u: nat)
    requires u < |bp| && Feeds(bp, v, k, u) && ReachedFromEntry(bp, v)
    ensures ReachedFromEntry(bp, u)
  {
    var p: seq<nat> :| p != [] && p[0] == 0 && p[|p| - 1] == v && IsPath(bp, p);
    var q := p + [u];
    forall i | 0 < i < |q| ensures bp[q[i]].id in bp[q[i - 1]].next {
      if i < |p| {
        assert bp[p[i]].id in bp[p[i - 1]].next;
      } else {
        assert bp[v].next[k] in bp[v].next;
      }
    }
    assert q[0] == 0 && q[|q| - 1] == u && IsPath(bp, q);
  }

  // A reachable node other than the entry is fed by a reachable one.
  lemma ReachedThrough(bp: Blueprint, u: nat) returns (v: nat, k: nat)
    requires u < |bp| && u != 0 && ReachedFromEntry(bp, u)
    ensures Feeds(bp, v, k, u) && ReachedFromEntry(bp, v)
  {
    var p: seq<nat> :| p != [] && p[0] == 0 && p[|p| - 1] == u && IsPath(bp, p);
    var q := p[..|p| - 1];
    v := p[|p| - 2];
    assert bp[p[|p| - 1]].id in bp[p[|p| - 1 - 1]].next;
    k :| 0 <= k < |bp[v].next| && bp[v].next[k] == bp[u].id;
    forall i | 0 < i < |q| ensures bp[q[i]].id in bp[q[i - 1]].next {
      assert bp[p[i]].id in bp[p[i - 1]].next;
    }
    assert q[0] == 0 && q[|q| - 1] == v && IsPath(bp, q);
  }

  lemma {:induction false} FedIsReached(bp: Blueprint, rank: seq<nat>, fed: set<nat>, u: nat, top: nat)
    requires PlainNodes(bp) && Layered(bp, rank) && FiringSet(bp, fed) && u in fed
    requires forall v :: 0 <= v < |rank| ==> rank[v] <= top
    ensures ReachedFromEntry(bp, u)
    decreases top - rank[u]
  {
    hide PlainNodes, ReachedFromEntry;
    if u == 0 {
      EntryReached(bp);
    } else {
      var v, k := Feeder(bp, fed, u);
      FeederAbove(bp, rank, v, k, u);
      FedIsReached(bp, rank, fed, v, top);
      EdgeReaches(bp, v, k, u);
    }
  }

  lemma EntryReached(bp: Blueprint)
    requires bp != []
    ensures ReachedFromEntry(bp, 0)
  {
    assert IsPath(bp, [0]);
  }

  lemma {:induction false} ReachedIsFed(bp: Blueprint, rank: seq<nat>, fed: set<nat>, u: nat, top: nat)
    requires Plain(bp) && Unmixed(bp) && Layered(bp, rank) && FiringSet(bp, fed) && u < |bp| && ReachedFromEntry(bp, u)
    requires forall v :: 0 <= v < |rank| ==> rank[v] <= top
    ensures u in fed
    decreases top - rank[u]
  {
    hide PlainNodes, ReachedFromEntry, InDegree;
    assert Fires(bp, fed, u) <==> u in fed;
    forall v: nat, k: nat | Feeds(bp, v, k, u) && ReachedFromEntry(bp, v) ensures v in fed {
      FeederAbove(bp, rank, v, k, u);
      ReachedIsFed(bp, rank, fed, v, top);
    }
    if !Merging(bp, u) && u != 0 {
      var v, k := ReachedThrough(bp, u);
    }
  }

  lemma TargetFed(bp: Blueprint, fed: set<nat>, u: nat, v: nat)
    requires TailStep(bp, fed, u, v)
    ensures v < |bp| && Feeds(bp, u, |bp[u].next| - 1, v)
  {
  }

  lemma UnmixedSuffices(bp: Blueprint)
    requires Plain(bp) && Unmixed(bp)
    ensures !Strands(bp, FiringOf(bp))
  {
    hide PlainNodes, Unmixed, FiringSet, Merging, Find, KindOf, ReachedFromEntry, Trails;
    var fed := FiringOf(bp);
    var rank :| Layered(bp, rank);
    if v: nat :| v < |bp| && Trails(bp, fed, v) && Merging(bp, v) && v !in fed {
      JoinsAreBuiltin(bp, v);
      var u := TrailsBack(bp, fed, v);
      if v == 0 {
        EntryReached(bp);
      } else {
        FedIsReached(bp, rank, fed, u, Top(rank));
        TargetFed(bp, fed, u, v);
        EdgeReaches(bp, u, |bp[u].next| - 1, v);
      }
      ReachedIsFed(bp, rank, fed, v, Top(rank));
    }
  }
}
