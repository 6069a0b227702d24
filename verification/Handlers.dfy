/**
 The recursive handlers of internal/taskscheduler/scheduler.go in their own form:
 executeNode and the handle* functions change the Task step by step, loop over
 NextNodes and call each other. Each is proved to be a run of the state machine,
 so the depth-first schedule of the recursion is one of its interleavings.

 A goroutine's stack is finite: room counts the nested node executions it has space
 for. Each handler returns done, with its own work finished, or has used up the room
 and then has taken at least that many steps. If every cycle passes a plugin node,
 where a handler returns, or a LOOP body, a computable room always suffices.
 */
module Handlers {
  import opened Prelude
  import opened Blueprints
  import opened TaskRecord
  import opened Engine
  import opened Conservation
  import opened Termination
  import opened Flow
  import opened Firing
  import Terminal
  import Completion

  // One handler step moves the loop budget only down and leaves other processes alone.
  lemma TurnFrame(c: Config, s: State, h: nat, pick: Pick)
    requires Enabled(c, s, Turn(h, pick))
    ensures
      var s2 := Step(c, s, Turn(h, pick));
      && Budget(c.bp, s2.task.loopState) <= Budget(c.bp, s.task.loopState)
      && |s2.procs| >= |s.procs|
      && (forall p :: 0 <= p < |s.procs| && p != h ==> s2.procs[p] == s.procs[p])
      && s2.procs[h] == Fire(c, s.task, s.procs[h][0], pick).frames + s.procs[h][1..]
  {
    hide Fire, KindOf;
    EffectBudget(c, s.task, s.procs[h][0], pick);
  }

  // How deep executing a node, or the target of an edge, can recurse before a LOOP body
  // is taken.
  function Height(bp: Blueprint, rank: seq<nat>, u: nat): nat
    requires u < |bp| == |rank|
  {
    if KindOf(bp[u]) == Plugin then 0 else rank[u] + 1
  }

  function TargetHeight(bp: Blueprint, rank: seq<nat>, u: nat, k: nat): nat
    requires u < |bp| == |rank| && k < |bp[u].next|
  {
    match Find(bp, bp[u].next[k]) case None => 0 case Some(v) => Height(bp, rank, v)
  }

  lemma TargetWithin(bp: Blueprint, rank: seq<nat>, u: nat, k: nat)
    requires u < |bp| == |rank| && k < |bp[u].next|
    ensures TargetHeight(bp, rank, u, k) <= Top(rank) + 1
    ensures Shallow(bp, rank) && !IsBodyEdge(bp, u, k) ==> TargetHeight(bp, rank, u, k) <= rank[u]
  {
    hide KindOf;
    if Shallow(bp, rank) && !IsBodyEdge(bp, u, k) {
      assert Lower(bp, rank, u, k);
    }
  }

  // The room that a level of the recursion needs under a LOOP budget.
  function Need(budget: nat, rank: seq<nat>, level: nat): nat {
    budget * (Top(rank) + 2) + level
  }

  lemma NeedLess(budget: nat, budget2: nat, rank: seq<nat>, level: nat, level2: nat)
    requires budget2 <= budget
    ensures level2 <= level ==> Need(budget2, rank, level2) <= Need(budget, rank, level)
    ensures budget2 < budget && level2 <= Top(rank) + 2 ==> Need(budget2, rank, level2) <= Need(budget, rank, level)
  {
    Bands(budget2, budget, Top(rank) + 2);
  }

  lemma {:induction false} Bands(a: nat, b: nat, band: nat)
    requires a <= b
    ensures a * band + (if a < b then band else 0) <= b * band
  {
    if a < b {
      Bands(a, b - 1, band);
      assert b * band == (b - 1) * band + band;
    }
  }

  class Scheduler {
    const c: Config
    const task: TaskCell
    const world: nat -> Pick  // what the outside world decides, step by step
    ghost const rank: seq<nat>  // bounds the recursion, if the blueprint has such a ranking
    var steps: nat
    var callbacks: seq<Message>
    ghost var procs: seq<Stack>
    ghost var trace: multiset<Deed>
    ghost var alarms: nat

    ghost function View(): State
      reads this, task
    {
      State(task.Value(), procs, callbacks, trace, alarms)
    }

    ghost predicate Valid() {
      forall i :: world(i).now > ZERO_TIME
    }

    // createAndStartTask up to the first executeNode.
    constructor (c: Config, context: map<string, string>, world: nat -> Pick, ghost rank: seq<nat>)
      requires c.bp != []
      requires forall i :: world(i).now > ZERO_TIME
      ensures Valid() && this.c == c && this.world == world && this.rank == rank && View() == Init(c, context, 0)
      ensures fresh(task)
    {
      this.c, this.world, this.rank := c, world, rank;
      task := new TaskCell(Task(Running, NoReason, c.bp[0].id, context, map[], 1, map[], map[]));
      steps, callbacks := 0, [];
      procs, trace, alarms := [[Exec(0)]], multiset{}, 0;
    }

    // Steps of handler h, each decided by the outside world.
    ghost predicate OwnSteps(h: nat, ls: seq<Label>) {
      forall i :: 0 <= i < |ls| ==> ls[i].Turn? && ls[i].p == h && exists j: nat :: ls[i].pick == world(j)
    }

    // The steps ls of handler h lead from the earlier state to the present one.
    ghost predicate Did(before: State, h: nat, ls: seq<Label>)
      reads this, task
    {
      && Run(c, before, ls, View())
      && OwnSteps(h, ls)
      && Budget(c.bp, task.loopState) <= Budget(c.bp, before.task.loopState)
    }

    // Handler h is about to run f, with rest below it on its stack.
    ghost predicate AtTop(h: nat, f: Frame, rest: Stack)
      reads this
    {
      h < |procs| && procs[h] == [f] + rest && WellFormed(c, f)
    }

    // The room suffices at this level of the recursion.
    ghost predicate Roomy(room: nat, level: nat)
      reads task
    {
      Shallow(c.bp, rank) && Need(Budget(c.bp, task.loopState), rank, level) <= room
    }

    // Height and TargetHeight, where the ranking has the blueprint's size.
    ghost function NodeLevel(u: nat): nat {
      if u < |c.bp| == |rank| then Height(c.bp, rank, u) else 0
    }

    ghost function FanLevel(u: nat): nat {
      if u < |c.bp| == |rank| then rank[u] + 1 else 0
    }

    ghost function EdgeLevel(u: nat, k: nat): nat {
      if u < |c.bp| == |rank| && k < |c.bp[u].next| then TargetHeight(c.bp, rank, u, k) + 1 else 0
    }

    // Handler h has finished, back to what lies below, or the room was used up.
    ghost predicate Returned(h: nat, rest: Stack, done: bool, room: nat, ls: seq<Label>)
      reads this
    {
      if done then h < |procs| && procs[h] == rest else |ls| >= room
    }

    // Walking an edge needs no more room than the fan-out or the choice it belongs to.
    lemma EdgeFits(u: nat, k: nat, room: nat, budget: nat)
      requires u < |c.bp| && k < |c.bp[u].next| && !IsBodyEdge(c.bp, u, k)
      requires Shallow(c.bp, rank) && Need(budget, rank, FanLevel(u)) <= room && Budget(c.bp, task.loopState) <= budget
      ensures Roomy(room, EdgeLevel(u, k)) && Roomy(room, FanLevel(u))
    {
      TargetWithin(c.bp, rank, u, k);
      NeedLess(budget, Budget(c.bp, task.loopState), rank, FanLevel(u), EdgeLevel(u, k));
      NeedLess(budget, Budget(c.bp, task.loopState), rank, FanLevel(u), FanLevel(u));
    }

    lemma BodyFits(u: nat, room: nat, budget: nat)
      requires u < |c.bp| && c.bp[u].next != []
      requires Shallow(c.bp, rank) && Need(budget, rank, FanLevel(u)) <= room && Budget(c.bp, task.loopState) < budget
      ensures Roomy(room, EdgeLevel(u, 0))
    {
      TargetWithin(c.bp, rank, u, 0);
      NeedLess(budget, Budget(c.bp, task.loopState), rank, FanLevel(u), EdgeLevel(u, 0));
    }

    lemma DidMore(before: State, h: nat, ls: seq<Label>, mid: State, more: seq<Label>)
      requires Run(c, before, ls, mid) && Budget(c.bp, mid.task.loopState) <= Budget(c.bp, before.task.loopState)
      requires OwnSteps(h, ls)
      requires Did(mid, h, more)
      ensures Did(before, h, ls + more)
    {
      Terminal.RunAppend(c, before, ls, mid, more, View());
    }

    // Bookkeeping of one committed step.
    ghost method Record(before: State, h: nat, f: Frame, rest: Stack, n: nat) returns (ls: seq<Label>)
      requires Valid() && h < |before.procs| && before.procs[h] == [f] + rest && WellFormed(c, f)
      requires
        var e := Fire(c, before.task, f, world(n));
        && task.Value() == Store(e.op, before.task) && callbacks == before.callbacks + e.said
        && procs == before.procs && trace == before.trace && alarms == before.alarms
      modifies this`procs, this`trace
      ensures Did(before, h, ls) && |ls| == 1
      ensures h < |procs| && procs[h] == Fire(c, before.task, f, world(n)).frames + rest
    {
      hide Fire, KindOf;
      var l := Turn(h, world(n));
      TurnFrame(c, before, h, world(n));
      var s2 := Step(c, before, l);
      procs, trace := s2.procs, s2.trace;
      ls := [l];
      assert before.procs[h][1..] == rest;
      assert ls[1..] == [];
      assert Run(c, s2, [], s2);
    }

    method CompleteTask(h: nat, ghost held: nat, ghost rest: Stack) returns (ghost ls: seq<Label>)
      requires Valid() && AtTop(h, Complete(held), rest)
      modifies this, task
      ensures Did(old(View()), h, ls) && h < |procs| && procs[h] == rest
      ensures task.Value() == (if old(task.status) == Running then old(task.Value()).(status := Completed, failReason := NoReason)
                              else old(task.Value()))
    {
      ghost var before, n := View(), steps;
      steps := steps + 1;
      var changed := task.MarkTerminal(Completed, NoReason);
      ls := Record(before, h, Complete(held), rest, n);
      if changed {
        ghost var mid, more := View(), ls;
        assert AtTop(h, Callback(TaskCompleted), rest);
        more := SendCallback(h, TaskCompleted, rest);
        DidMore(before, h, ls, mid, more);
        ls := ls + more;
      }
    }

    method SendCallback(h: nat, event: Event, ghost rest: Stack) returns (ghost ls: seq<Label>)
      requires Valid() && AtTop(h, Callback(event), rest)
      modifies this
      ensures Did(old(View()), h, ls) && h < |procs| && procs[h] == rest
      ensures task.Value() == old(task.Value())
    {
      ghost var before, n := View(), steps;
      var readable := world(steps).readable;
      steps := steps + 1;
      Notify(event, readable);
      ls := Record(before, h, Callback(event), rest, n);
    }

    // The message itself, with the record's status or, should reading it fail, with
    // that of the handler's own copy.
    method Notify(event: Event, readable: bool)
      modifies this`callbacks
      ensures callbacks == old(callbacks) + Notice(event, readable, task.Value())
    {
      if c.trigger != "" {
        var status, failReason := Running, NoReason;
        if readable {
          status, failReason := task.status, task.failReason;
        }
        callbacks := callbacks + [Message(event, status, failReason)];
      }
    }

    function Notice(event: Event, readable: bool, t: Task): seq<Message> {
      if c.trigger == "" then [] else [if readable then Message(event, t.status, t.failReason) else Stale(event)]
    }

    method FailTask(h: nat, reason: Reason, ghost held: nat, ghost rest: Stack) returns (ghost ls: seq<Label>)
      requires Valid() && AtTop(h, Fail(reason, held), rest)
      modifies this, task
      ensures Did(old(View()), h, ls) && h < |procs| && procs[h] == rest
      ensures task.Value() == (if old(task.status) == Running then old(task.Value()).(status := Failed, failReason := reason)
                              else old(task.Value()))
    {
      ghost var before, n := View(), steps;
      steps := steps + 1;
      var changed := task.MarkTerminal(Failed, reason);
      ls := Record(before, h, Fail(reason, held), rest, n);
      if changed {
        ghost var mid, more := View(), ls;
        assert AtTop(h, Callback(TaskFailed), rest);
        more := SendCallback(h, TaskFailed, rest);
        DidMore(before, h, ls, mid, more);
        ls := ls + more;
      }
    }

    // handleFanOut: end the branch at a leaf, else walk every edge in turn, each
    // dispatch running to its end before the next begins.
    method HandleFanOut(h: nat, u: nat, room: nat, ghost rest: Stack) returns (done: bool, ghost ls: seq<Label>)
      requires Valid() && AtTop(h, Fan(u), rest)
      modifies this, task
      ensures Did(old(View()), h, ls) && Returned(h, rest, done, room, ls)
      ensures old(Roomy(room, FanLevel(u))) ==> done
      decreases room, 1
    {
      hide KindOf, Fire, Run, OwnSteps, Shallow, Need, EdgeLevel, FanLevel;
      var width := |c.bp[u].next|;
      if width == 0 {
        ls := EndLeaf(h, u, rest);
        return true, ls;
      }
      ghost var before, budget := View(), Budget(c.bp, task.loopState);
      var resolved := ResolveNext(u);
      if !resolved {
        ls := RejectFanOut(h, u, rest);
        return true, ls;
      }
      ls := OpenFanOut(h, u, rest);
      for k := 0 to width
        invariant Did(before, h, ls) && h < |procs|
        invariant procs[h] == (if k < width then [Walk(u, k, width)] else []) + rest
      {
        ghost var mid, more := View(), ls;
        WalkReady(h, u, k, width, rest);
        if old(Roomy(room, FanLevel(u))) { EdgeFits(u, k, room, budget); }
        done, more := WalkEdge(h, u, k, width, room, rest);
        DidMore(before, h, ls, mid, more);
        ls := ls + more;
        if !done {
          return;
        }
      }
      done := true;
    }

    lemma WalkReady(h: nat, u: nat, k: nat, width: nat, rest: Stack)
      requires u < |c.bp| && AllResolve(c.bp, u) && k < width == |c.bp[u].next| && KindOf(c.bp[u]) !in {If, Loop}
      requires h < |procs| && procs[h] == [Walk(u, k, width)] + rest
      ensures AtTop(h, Walk(u, k, width), rest) && !IsBodyEdge(c.bp, u, k)
    {
    }

    method EndLeaf(h: nat, u: nat, ghost rest: Stack) returns (ghost ls: seq<Label>)
      requires Valid() && AtTop(h, Fan(u), rest) && c.bp[u].next == []
      modifies this, task
      ensures Did(old(View()), h, ls) && h < |procs| && procs[h] == rest
    {
      hide Run, OwnSteps;
      ghost var before, n := View(), steps;
      steps := steps + 1;
      var remaining := task.EndBranch();
      ls := Record(before, h, Fan(u), rest, n);
      if remaining <= 0 {
        ghost var mid, more := View(), ls;
        more := CompleteTask(h, 0, rest);
        DidMore(before, h, ls, mid, more);
        ls := ls + more;
      }
    }

    method RejectFanOut(h: nat, u: nat, ghost rest: Stack) returns (ghost ls: seq<Label>)
      requires Valid() && AtTop(h, Fan(u), rest) && c.bp[u].next != [] && !AllResolve(c.bp, u)
      modifies this, task
      ensures Did(old(View()), h, ls) && h < |procs| && procs[h] == rest
    {
      ghost var before, n := View(), steps;
      steps := steps + 1;
      ls := Record(before, h, Fan(u), rest, n);
      ghost var mid, more := View(), ls;
      more := FailTask(h, NextNotFound, 1, rest);
      DidMore(before, h, ls, mid, more);
      ls := ls + more;
    }

    // The branch count grows before any branch is dispatched.
    method OpenFanOut(h: nat, u: nat, ghost rest: Stack) returns (ghost ls: seq<Label>)
      requires Valid() && AtTop(h, Fan(u), rest) && c.bp[u].next != [] && AllResolve(c.bp, u)
      modifies this, task
      ensures Did(old(View()), h, ls) && h < |procs| && procs[h] == [Walk(u, 0, |c.bp[u].next|)] + rest
    {
      ghost var before, n := View(), steps;
      steps := steps + 1;
      if |c.bp[u].next| > 1 {
        task.AddBranches(|c.bp[u].next| - 1);
      }
      ls := Record(before, h, Fan(u), rest, n);
    }

    // Validates all next nodes before any is dispatched.
    method ResolveNext(u: nat) returns (ok: bool)
      requires u < |c.bp|
      ensures ok <==> AllResolve(c.bp, u)
    {
      for k := 0 to |c.bp[u].next|
        invariant forall j :: 0 <= j < k ==> Find(c.bp, c.bp[u].next[j]).Some?
      {
        var n := FindNode(c.bp, c.bp[u].next[k]);
        if n == None {
          return false;
        }
      }
      return true;
    }

    // AdvanceNode and executeNode on the target of one edge.
    method WalkEdge(h: nat, u: nat, k: nat, hi: nat, room: nat, ghost rest: Stack) returns (done: bool, ghost ls: seq<Label>)
      requires Valid() && AtTop(h, Walk(u, k, hi), rest)
      modifies this, task
      ensures Did(old(View()), h, ls)
      ensures Returned(h, (if k + 1 < hi then [Walk(u, k + 1, hi)] else []) + rest, done, room, ls)
      ensures old(Roomy(room, EdgeLevel(u, k))) ==> done
      decreases room, 0
    {
      hide KindOf, Fire, Run, OwnSteps, Shallow, Need;
      if room == 0 {
        if old(Roomy(room, EdgeLevel(u, k))) { InnerRoom(u, k, room); }
        ls := Nothing(h);
        return false, ls;
      }
      ghost var before := View();
      if old(Roomy(room, EdgeLevel(u, k))) { InnerRoom(u, k, room); }
      var v;
      v, ls := Cross(h, u, k, hi, rest);
      ghost var mid, more := View(), ls;
      done, more := ExecuteNode(h, v, room - 1, (if k + 1 < hi then [Walk(u, k + 1, hi)] else []) + rest);
      DidMore(before, h, ls, mid, more);
      ls := ls + more;
    }

    // The target of an edge has one level less.
    lemma InnerRoom(u: nat, k: nat, room: nat)
      requires u < |c.bp| && k < |c.bp[u].next| && Find(c.bp, c.bp[u].next[k]).Some? && Roomy(room, EdgeLevel(u, k))
      ensures room > 0 && Roomy(room - 1, NodeLevel(Find(c.bp, c.bp[u].next[k]).value))
    {
      hide KindOf;
    }

    method Cross(h: nat, u: nat, k: nat, hi: nat, ghost rest: Stack) returns (v: nat, ghost ls: seq<Label>)
      requires Valid() && AtTop(h, Walk(u, k, hi), rest)
      modifies this, task
      ensures Did(old(View()), h, ls) && |ls| == 1 && task.loopState == old(task.loopState)
      ensures Find(c.bp, c.bp[u].next[k]) == Some(v)
      ensures AtTop(h, Exec(v), (if k + 1 < hi then [Walk(u, k + 1, hi)] else []) + rest)
    {
      hide KindOf, Run, OwnSteps;
      ghost var before, n := View(), steps;
      steps := steps + 1;
      var next := FindNode(c.bp, c.bp[u].next[k]);
      v := next.value;
      task.AdvanceNode(c.bp[v].id);
      ls := Record(before, h, Walk(u, k, hi), rest, n);
      assert procs[h] == [Exec(v)] + ((if k + 1 < hi then [Walk(u, k + 1, hi)] else []) + rest);
    }

    ghost method Nothing(h: nat) returns (ls: seq<Label>)
      ensures Did(old(View()), h, ls) && ls == []
    {
      ls := [];
      assert Run(c, View(), [], View());
    }

    // executeNode, executeBuiltinNode and executePluginNode.
    method ExecuteNode(h: nat, u: nat, room: nat, ghost rest: Stack) returns (done: bool, ghost ls: seq<Label>)
      requires Valid() && AtTop(h, Exec(u), rest)
      modifies this, task
      ensures Did(old(View()), h, ls) && Returned(h, rest, done, room, ls)
      ensures old(Roomy(room, NodeLevel(u))) ==> done
      decreases room, 3
    {
      match KindOf(c.bp[u]) {
        case Plugin =>
          ls := ExecutePluginNode(h, u, rest);
          done := true;
        case Input => done, ls := ExecuteContextNode(h, u, room, rest);
        case Output => done, ls := ExecuteContextNode(h, u, room, rest);
        case Join => done, ls := HandleJoinNode(h, u, room, rest);
        case If => done, ls := HandleIFNode(h, u, room, rest);
        case Loop => done, ls := HandleLoopNode(h, u, room, rest);
        case Unknown =>
          ls := RejectNode(h, u, rest);
          done := true;
      }
    }

    method RejectNode(h: nat, u: nat, ghost rest: Stack) returns (ghost ls: seq<Label>)
      requires Valid() && AtTop(h, Exec(u), rest) && KindOf(c.bp[u]) == Unknown
      modifies this, task
      ensures Did(old(View()), h, ls) && h < |procs| && procs[h] == rest
    {
      ghost var before, n := View(), steps;
      steps := steps + 1;
      ls := Record(before, h, Exec(u), rest, n);
      ghost var mid, more := View(), ls;
      more := FailTask(h, BadBuiltin, 1, rest);
      DidMore(before, h, ls, mid, more);
      ls := ls + more;
    }

    // Registers the node as in flight, then publishes its message; the reply will
    // start a handler of its own.
    method ExecutePluginNode(h: nat, u: nat, ghost rest: Stack) returns (ghost ls: seq<Label>)
      requires Valid() && AtTop(h, Exec(u), rest) && KindOf(c.bp[u]) == Plugin
      modifies this, task
      ensures Did(old(View()), h, ls) && h < |procs| && procs[h] == rest
    {
      ghost var before, n := View(), steps;
      var pick := world(steps);
      steps := steps + 1;
      if pick.registered {
        task.AddActiveNode(c.bp[u].id, pick.now + Timeout(c.bp[u]));
      }
      ls := Record(before, h, Exec(u), rest, n);
      ghost var mid, more := View(), ls;
      more := PublishNode(h, u, rest);
      DidMore(before, h, ls, mid, more);
      ls := ls + more;
    }

    method PublishNode(h: nat, u: nat, ghost rest: Stack) returns (ghost ls: seq<Label>)
      requires Valid() && AtTop(h, Publish(u), rest)
      modifies this, task
      ensures Did(old(View()), h, ls) && h < |procs| && procs[h] == rest
    {
      ghost var before, n := View(), steps;
      var pick := world(steps);
      steps := steps + 1;
      ls := Record(before, h, Publish(u), rest, n);
      if !pick.ok {
        ghost var mid, more := View(), ls;
        more := FailTask(h, PublishFailed, 1, rest);
        DidMore(before, h, ls, mid, more);
        ls := ls + more;
      }
    }

    // executeInputNode and executeOutputNode.
    method ExecuteContextNode(h: nat, u: nat, room: nat, ghost rest: Stack) returns (done: bool, ghost ls: seq<Label>)
      requires Valid() && AtTop(h, Exec(u), rest) && KindOf(c.bp[u]) in {Input, Output}
      modifies this, task
      ensures Did(old(View()), h, ls) && Returned(h, rest, done, room, ls)
      ensures old(Roomy(room, FanLevel(u))) ==> done
      decreases room, 2
    {
      hide Run, OwnSteps;
      ghost var before, n := View(), steps;
      var pick := world(steps);
      steps := steps + 1;
      if pick.ok {
        task.MergeContext(pick.output);
      }
      ls := Record(before, h, Exec(u), rest, n);
      ghost var mid, more := View(), ls;
      if pick.ok {
        done, more := HandleFanOut(h, u, room, rest);
      } else {
        more := FailTask(h, BadBuiltin, 1, rest);
        done := true;
      }
      DidMore(before, h, ls, mid, more);
      ls := ls + more;
    }

    method HandleJoinNode(h: nat, u: nat, room: nat, ghost rest: Stack) returns (done: bool, ghost ls: seq<Label>)
      requires Valid() && AtTop(h, Exec(u), rest) && KindOf(c.bp[u]) == Join
      modifies this, task
      ensures Did(old(View()), h, ls) && Returned(h, rest, done, room, ls)
      ensures old(Roomy(room, FanLevel(u))) ==> done
      decreases room, 2
    {
      hide KindOf, Fire, Run, OwnSteps, Shallow, Need, FanLevel;
      ghost var before := View();
      var proceed;
      proceed, ls := Arrive(h, u, rest);
      done := true;
      if proceed {
        ghost var mid, more := View(), ls;
        done, more := HandleFanOut(h, u, room, rest);
        DidMore(before, h, ls, mid, more);
        ls := ls + more;
      }
    }

    // Counts the arrival, unless the join has a single incoming edge.
    method Arrive(h: nat, u: nat, ghost rest: Stack) returns (proceed: bool, ghost ls: seq<Label>)
      requires Valid() && AtTop(h, Exec(u), rest) && KindOf(c.bp[u]) == Join
      modifies this, task
      ensures Did(old(View()), h, ls) && task.loopState == old(task.loopState)
      ensures if proceed then AtTop(h, Fan(u), rest) else h < |procs| && procs[h] == rest
    {
      hide Run, OwnSteps;
      ghost var before, n := View(), steps;
      steps := steps + 1;
      var expected := CountInEdges(c.bp, c.bp[u].id);
      proceed := true;
      if expected > 1 {
        proceed := task.ArriveAtJoin(c.bp[u].id, expected);
      }
      ls := Record(before, h, Exec(u), rest, n);
    }

    // The tail shared by handleIFNode and handleLoopNode: complete on an empty
    // target, fail on an unknown one, else walk the edge chosen.
    method TakeBranch(h: nat, u: nat, k: nat, room: nat, ghost rest: Stack) returns (done: bool, ghost ls: seq<Label>)
      requires Valid() && u < |c.bp| && k < |c.bp[u].next|
      requires h < |procs| && procs[h] == Branch(c, u, k) + rest && KindOf(c.bp[u]) in {If, Loop}
      modifies this, task
      ensures Did(old(View()), h, ls) && Returned(h, rest, done, room, ls)
      ensures old(Roomy(room, EdgeLevel(u, k))) ==> done
      decreases room, 1
    {
      BranchShape(c, u, k);
      done := true;
      if c.bp[u].next[k] == "" {
        ls := CompleteTask(h, 1, rest);
        return;
      }
      var next := FindNode(c.bp, c.bp[u].next[k]);
      if next == None {
        ls := FailTask(h, NextNotFound, 1, rest);
      } else {
        done, ls := WalkEdge(h, u, k, k + 1, room, rest);
      }
    }

    method HandleIFNode(h: nat, u: nat, room: nat, ghost rest: Stack) returns (done: bool, ghost ls: seq<Label>)
      requires Valid() && AtTop(h, Exec(u), rest) && KindOf(c.bp[u]) == If
      modifies this, task
      ensures Did(old(View()), h, ls) && Returned(h, rest, done, room, ls)
      ensures old(Roomy(room, FanLevel(u))) ==> done
      decreases room, 2
    {
      hide Run, OwnSteps, Shallow, Need;
      ghost var before, n, budget := View(), steps, Budget(c.bp, task.loopState);
      var pick := world(steps);
      steps := steps + 1;
      ls := Record(before, h, Exec(u), rest, n);
      ghost var mid, more := View(), ls;
      done := true;
      if |c.bp[u].next| < 2 {
        more := FailTask(h, BadBranching, 1, rest);
      } else if !pick.ok {
        more := FailTask(h, EvalFailed, 1, rest);
      } else {
        var k := if pick.cond then 0 else 1;
        if old(Roomy(room, FanLevel(u))) { EdgeFits(u, k, room, budget); }
        done, more := TakeBranch(h, u, k, room, rest);
      }
      DidMore(before, h, ls, mid, more);
      ls := ls + more;
    }

    method HandleLoopNode(h: nat, u: nat, room: nat, ghost rest: Stack) returns (done: bool, ghost ls: seq<Label>)
      requires Valid() && AtTop(h, Exec(u), rest) && KindOf(c.bp[u]) == Loop
      modifies this, task
      ensures Did(old(View()), h, ls) && Returned(h, rest, done, room, ls)
      ensures old(Roomy(room, FanLevel(u))) ==> done
      decreases room, 2
    {
      hide KindOf, Fire, Run, Branch, OwnSteps, Shallow, Need, EdgeLevel, FanLevel;
      ghost var before, budget := View(), Budget(c.bp, task.loopState);
      var decision;
      decision, ls := CountIteration(h, u, rest);
      ghost var mid, more := View(), ls;
      match decision {
        case Err(reason) =>
          more := FailTask(h, reason, 1, rest);
          done := true;
        case Ok(continues) =>
          if old(Roomy(room, FanLevel(u))) {
            if continues { BodyFits(u, room, budget); } else { EdgeFits(u, 1, room, budget); }
          }
          done, more := TakeBranch(h, u, if continues then 0 else 1, room, rest);
      }
      DidMore(before, h, ls, mid, more);
      ls := ls + more;
    }

    // Increments the iteration count and decides between body and exit; the budget
    // drops whenever the body is taken.
    method CountIteration(h: nat, u: nat, ghost rest: Stack) returns (decision: Result<bool, Reason>, ghost ls: seq<Label>)
      requires Valid() && AtTop(h, Exec(u), rest) && KindOf(c.bp[u]) == Loop
      modifies this, task
      ensures Did(old(View()), h, ls) && h < |procs|
      ensures decision.Err? ==> AtTop(h, Fail(decision.error, 1), rest)
      ensures decision.Ok? ==> |c.bp[u].next| >= 2 && procs[h] == Branch(c, u, if decision.value then 0 else 1) + rest
      ensures decision == Ok(true) ==> Budget(c.bp, task.loopState) < old(Budget(c.bp, task.loopState))
    {
      hide KindOf, Fire, Branch, Run, OwnSteps, Decide, Budget;
      ghost var before, n := View(), steps;
      var pick := world(steps);
      steps := steps + 1;
      if |c.bp[u].next| < 2 {
        ShortLoop(u, before.task, pick);
        ls := Record(before, h, Exec(u), rest, n);
        return Err(BadBranching), ls;
      }
      var iteration := task.IncrLoopCount(c.bp[u].id);
      decision := Decide(u, iteration, pick);
      LoopDecision(u, before.task, pick);
      ls := Record(before, h, Exec(u), rest, n);
      if decision == Ok(true) {
        BodyLowersBudget(u, before.task, pick);
      }
    }

    lemma BodyLowersBudget(u: nat, t: Task, pick: Pick)
      requires u < |c.bp| && KindOf(c.bp[u]) == Loop
      requires Decide(u, Count(t.loopState, c.bp[u].id) + 1, pick) == Ok(true)
      ensures Budget(c.bp, Apply(IncrLoopCount(c.bp[u].id), t).loopState) < Budget(c.bp, t.loopState)
    {
      hide KindOf, RuleOf;
      assert Left(c.bp[u], t.loopState) > 0;
      BudgetIncrement(c.bp, t.loopState, c.bp[u].id);
    }

    function Decide(u: nat, iteration: int, pick: Pick): Result<bool, Reason>
      requires u < |c.bp|
    {
      match RuleOf(c.bp[u])
      case Fixed(count) => Ok(iteration <= count)
      case Conditional =>
        if iteration > MAX_LOOP_ITERATIONS then Err(LoopCapExceeded)
        else if !pick.ok then Err(EvalFailed)
        else Ok(pick.cond)
    }

    lemma ShortLoop(u: nat, t: Task, pick: Pick)
      requires u < |c.bp| && |c.bp[u].next| < 2 && KindOf(c.bp[u]) == Loop
      ensures Fire(c, t, Exec(u), pick) == Local([Fail(BadBranching, 1)])
    {
      hide KindOf;
    }

    lemma LoopDecision(u: nat, t: Task, pick: Pick)
      requires u < |c.bp| && |c.bp[u].next| >= 2 && KindOf(c.bp[u]) == Loop
      ensures
        var e, decision := Fire(c, t, Exec(u), pick), Decide(u, Count(t.loopState, c.bp[u].id) + 1, pick);
        && e.op == Some(IncrLoopCount(c.bp[u].id)) && e.said == []
        && e.frames == (match decision
                        case Err(reason) => [Fail(reason, 1)]
                        case Ok(continues) => Branch(c, u, if continues then 0 else 1))
    {
      hide KindOf, Branch;
    }

    // handleNodeResult: the message of process h was answered.
    method HandleNodeResult(h: nat, id: string, room: nat, ghost rest: Stack) returns (done: bool, ghost ls: seq<Label>)
      requires Valid() && AtTop(h, Await(id), rest)
      modifies this, task
      ensures Did(old(View()), h, ls) && Returned(h, rest, done, room, ls)
      ensures old(Roomy(room, ReplyLevel(id))) ==> done
      ensures old(task.status) != Running ==>
        done && h < |procs| && procs[h] == rest && task.Value() == old(task.Value()) && callbacks == old(callbacks)
      ensures old(task.status) == Running && !world(old(steps)).ok ==>
        task.Value() == old(task.Value()).(status := Failed, failReason := Reported(world(old(steps)).reason))
    {
      hide Run, OwnSteps;
      ghost var before, n := View(), steps;
      var reply := world(steps);
      steps := steps + 1;
      ls := Record(before, h, Await(id), rest, n);
      done := true;
      if task.status != Running {
        return;
      }
      ghost var mid, more := View(), ls;
      if !reply.ok {
        more := FailTask(h, Reported(reply.reason), 1, rest);
      } else {
        done, more := TakeBack(h, id, room, rest);
      }
      DidMore(before, h, ls, mid, more);
      ls := ls + more;
    }

    ghost function ReplyLevel(id: string): nat {
      match Find(c.bp, id) case None => 0 case Some(u) => FanLevel(u)
    }

    // handleNodeResult on a node id the blueprint does not have: no branch belongs to the
    // reply. It can fail the task or merge its output; then an error is returned, and
    // nothing is advanced: branches, joins and loops stay as they are.
    method HandleUnknownResult(id: string, reply: Pick) returns (notFound: bool)
      requires Find(c.bp, id) == None
      modifies this`callbacks, task
      ensures
        var t := old(task.Value());
        var removed := Apply(RemoveActiveNode(id), t);
        if t.status != Running then task.Value() == t && callbacks == old(callbacks) && !notFound
        else if !reply.ok then
          && task.Value() == Apply(MarkTerminal(Failed, Reported(reply.reason)), t) && !notFound
          && callbacks == old(callbacks) + Notice(TaskFailed, reply.readable, task.Value())
        else if reply.hasOutput && !reply.outputValid then
          && task.Value() == Apply(MarkTerminal(Failed, BadOutput), removed) && !notFound
          && callbacks == old(callbacks) + Notice(TaskFailed, reply.readable, task.Value())
        else
          && task.Value() == (if reply.hasOutput then Apply(MergeContext(reply.output), removed) else removed)
          && callbacks == old(callbacks) && notFound
    {
      notFound := false;
      if task.status != Running {
        return;
      }
      if !reply.ok {
        var changed := task.MarkTerminal(Failed, Reported(reply.reason));
        Notify(TaskFailed, reply.readable);
        return;
      }
      task.RemoveActiveNode(id);
      if reply.hasOutput {
        if !reply.outputValid {
          var changed := task.MarkTerminal(Failed, BadOutput);
          Notify(TaskFailed, reply.readable);
          return;
        }
        task.MergeContext(reply.output);
      }
      var node := FindNode(c.bp, id);
      notFound := node == None;
    }

    // The node is no longer in flight; its output is merged, then the branch advances.
    method TakeBack(h: nat, id: string, room: nat, ghost rest: Stack) returns (done: bool, ghost ls: seq<Label>)
      requires Valid() && AtTop(h, Recv(id), rest)
      modifies this, task
      ensures Did(old(View()), h, ls) && Returned(h, rest, done, room, ls)
      ensures old(Roomy(room, ReplyLevel(id))) ==> done
    {
      hide Run, OwnSteps;
      ghost var before, n := View(), steps;
      var reply := world(steps);
      steps := steps + 1;
      task.RemoveActiveNode(id);
      ls := Record(before, h, Recv(id), rest, n);
      ghost var mid, more := View(), ls;
      done := true;
      if !reply.hasOutput {
        done, more := AdvanceTask(h, id, room, rest);
      } else if !reply.outputValid {
        more := FailTask(h, BadOutput, 1, rest);
      } else {
        done, more := MergeOutput(h, id, room, rest);
      }
      DidMore(before, h, ls, mid, more);
      ls := ls + more;
    }

    method MergeOutput(h: nat, id: string, room: nat, ghost rest: Stack) returns (done: bool, ghost ls: seq<Label>)
      requires Valid() && AtTop(h, Merge(id), rest)
      modifies this, task
      ensures Did(old(View()), h, ls) && Returned(h, rest, done, room, ls)
      ensures old(Roomy(room, ReplyLevel(id))) ==> done
    {
      ghost var before, n := View(), steps;
      var reply := world(steps);
      steps := steps + 1;
      task.MergeContext(reply.output);
      ls := Record(before, h, Merge(id), rest, n);
      ghost var mid, more := View(), ls;
      done, more := AdvanceTask(h, id, room, rest);
      DidMore(before, h, ls, mid, more);
      ls := ls + more;
    }

    method AdvanceTask(h: nat, id: string, room: nat, ghost rest: Stack) returns (done: bool, ghost ls: seq<Label>)
      requires Valid() && Find(c.bp, id).Some? && h < |procs| && procs[h] == Resume(c, id) + rest
      modifies this, task
      ensures Did(old(View()), h, ls) && Returned(h, rest, done, room, ls)
      ensures old(Roomy(room, ReplyLevel(id))) ==> done
    {
      var node := FindNode(c.bp, id);
      var u := node.value;
      if KindOf(c.bp[u]) in {If, Loop} {
        done, ls := ExecuteNode(h, u, room, rest);
      } else {
        done, ls := HandleFanOut(h, u, room, rest);
      }
    }
  }

  // ---- The depth-first schedule ----------------------------------------------------------

  ghost predicate BuiltinOnly(bp: Blueprint) {
    forall u :: 0 <= u < |bp| ==> KindOf(bp[u]) != Plugin
  }

  ghost predicate FailureFree(world: nat -> Pick) {
    forall i :: world(i).ok && world(i).registered && world(i).outputValid
  }

  // Without plugin nodes no message is ever sent, so no further handler appears.
  lemma NothingSpawned(c: Config, t: Task, f: Frame, pick: Pick)
    requires BuiltinOnly(c.bp) && WellFormed(c, f)
    ensures Fire(c, t, f, pick).spawned == []
  {
    hide KindOf, FireExec, FireFan;
    if f.Exec? {
      ExecShape(c, t, f.node, pick);
    } else if f.Fan? {
      FanSpawnsNothing(c, t, f.node);
    }
  }

  lemma FanSpawnsNothing(c: Config, t: Task, u: nat)
    requires u < |c.bp|
    ensures FireFan(c, t, u).spawned == []
  {
  }

  lemma {:induction false} OneHandler(c: Config, s: State, ls: seq<Label>, s2: State)
    requires BuiltinOnly(c.bp) && Run(c, s, ls, s2) && (forall i :: 0 <= i < |ls| ==> ls[i].Turn?)
    ensures |s2.procs| == |s.procs|
    decreases |ls|
  {
    hide Fire, KindOf;
    if ls != [] {
      NothingSpawned(c, s.task, s.procs[ls[0].p][0], ls[0].pick);
      OneHandler(c, Step(c, s, ls[0]), ls[1..], s2);
    }
  }

  // createAndStartTask: a blueprint without nodes is skipped; otherwise the recursion
  // performs a run of the state machine and returns with its own handler finished, or it
  // takes at least as many steps as there is room for nested node executions. The room
  // Need computes suffices if every cycle passes a plugin node or a LOOP body. A
  // fork/join blueprint of built-in nodes is completed on the spot.
  method CreateAndStartTask(c: Config, context: map<string, string>, world: nat -> Pick, room: nat, ghost rank: seq<nat>)
    returns (s: Scheduler?, done: bool, ghost ls: seq<Label>)
    requires forall i :: world(i).now > ZERO_TIME
    ensures s == null <==> c.bp == []
    ensures s == null ==> done
    ensures s != null ==>
              && s.c == c && Run(c, Init(c, context, 0), ls, s.View())
              && (forall i :: 0 <= i < |ls| ==> ls[i].Turn? && ls[i].p == 0 && exists j: nat :: ls[i].pick == world(j))
              && if done then s.procs != [] && s.procs[0] == [] else |ls| >= room
    ensures Shallow(c.bp, rank) && Need(Budget(c.bp, map[]), rank, Top(rank) + 1) <= room ==> done
    ensures ForkJoin(c.bp) && BuiltinOnly(c.bp) && FailureFree(world) && done ==>
              s != null && s.task.status == Completed && s.task.activeBranches == 0
  {
    if c.bp == [] {
      return null, true, [];
    }
    hide ForkJoin, FailureFree, BuiltinOnly;
    s := new Scheduler(c, context, world, rank);
    assert s.procs[0] == [Exec(0)] + [];
    assert Shallow(c.bp, rank) && Need(Budget(c.bp, map[]), rank, Top(rank) + 1) <= room ==> s.Roomy(room, s.NodeLevel(0));
    done, ls := s.ExecuteNode(0, 0, room, []);
    if done && ForkJoin(c.bp) && BuiltinOnly(c.bp) && FailureFree(world) {
      SynchronousCompletion(c, context, world, ls, s.View());
    }
  }

  lemma SynchronousCompletion(c: Config, context: map<string, string>, world: nat -> Pick, ls: seq<Label>, s: State)
    requires ForkJoin(c.bp) && BuiltinOnly(c.bp) && FailureFree(world) && c.bp != []
    requires Run(c, Init(c, context, 0), ls, s) && s.procs != [] && s.procs[0] == []
    requires forall i :: 0 <= i < |ls| ==> ls[i].Turn? && exists j: nat :: ls[i].pick == world(j)
    ensures s.task.status == Completed && s.task.activeBranches == 0
  {
    hide ForkJoin, BuiltinOnly;
    OneHandler(c, Init(c, context, 0), ls, s);
    assert SmoothRun(ls);
    InitHolds(c, context, 0);
    SoundRun(c, Init(c, context, 0), ls, s);
    assert Quiet(s);
    Completion.MaximalIsQuiet(c, s);
    Completion.ForkJoinCompletes(c, context, 0, ls, s);
  }
}
