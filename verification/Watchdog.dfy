/**
 The table of in-flight plugin nodes and the watchdog that sweeps it:
 AddActiveNode, RemoveActiveNode, earliestExpired, sweepExpiredTasks.
 */
module Watchdog {
  import opened Prelude
  import opened Blueprints
  import opened TaskRecord
  import opened Engine
  import opened Conservation
  import opened Termination
  import opened Flow
  import opened Firing
  import opened Completion

  // ---- earliestExpired -------------------------------------------------------------------

  predicate IsExpired(active: map<string, int>, id: string, now: int) {
    id in active && active[id] != ZERO_TIME && active[id] <= now
  }

  // The loop runs over the map in an arbitrary order; the deadline found is a
  // minimal expired one whatever that order is.
  method EarliestExpired(active: map<string, int>, now: int) returns (id: string, deadline: int, expired: bool)
    ensures expired <==> exists i :: i in active && active[i] != 0 && active[i] <= now
    ensures expired ==> id in active && active[id] == deadline && 0 != deadline <= now
    ensures expired ==> forall i :: i in active && active[i] != 0 && active[i] <= now ==> deadline <= active[i]
  {
    id, deadline, expired := "", ZERO_TIME, false;
    var rest := active.Keys;
    while rest != {}
      invariant rest <= active.Keys
      invariant expired ==> IsExpired(active, id, now) && active[id] == deadline
      invariant forall i :: IsExpired(active, i, now) && i !in rest ==> expired && deadline <= active[i]
    {
      var i :| i in rest;
      var dl := active[i];
      rest := rest - {i};
      if dl == ZERO_TIME || now < dl {
        continue;
      }
      if !expired || dl < deadline {
        id, deadline, expired := i, dl, true;
      }
    }
  }

  lemma ExpiredMeans(t: Task, now: int)
    ensures Expired(t, now) <==> exists id :: IsExpired(t.activeNodes, id, now)
  {
    if Expired(t, now) {
      var id :| id in t.activeNodes && ZERO_TIME != t.activeNodes[id] <= now;
      assert IsExpired(t.activeNodes, id, now);
    }
  }

  // ---- Agreement with the unanswered messages --------------------------------------------

  // Dispatches of the node named id that are registered and not yet taken back.
  function Dispatched(c: Config, s: State, id: string): nat {
    Total(Outstanding(c, id), s.procs)
  }

  ghost predicate OneEach(c: Config, s: State) {
    forall id :: Dispatched(c, s, id) <= 1
  }

  // The table lists exactly the outstanding nodes, with real deadlines.
  ghost predicate TableAgrees(c: Config, s: State) {
    && (forall id :: id in s.task.activeNodes <==> Dispatched(c, s, id) > 0)
    && (forall id :: id in s.task.activeNodes ==> s.task.activeNodes[id] > ZERO_TIME)
  }

  // One failure-free step registers a node as it dispatches it and takes it back
  // as it consumes the reply; nothing else touches the table.
  ghost predicate TableEffect(c: Config, t: Task, f: Frame, e: Effect, id: string) {
    var added := f.Exec? && f.node < |c.bp| && KindOf(c.bp[f.node]) == Plugin && c.bp[f.node].id == id;
    var removed := f == Recv(id);
    && Sum(Outstanding(c, id), e.frames) + Sum(Outstanding(c, id), e.spawned)
       == Weigh(Outstanding(c, id), f) + (if added then 1 else 0) - (if removed then 1 else 0)
    && (var before, after := t.activeNodes, Store(e.op, t).activeNodes;
        && (added ==> id in after && after[id] > ZERO_TIME)
        && (removed ==> id !in after)
        && (!added && !removed ==> (id in after <==> id in before) && (id in before ==> after[id] == before[id])))
  }

  // No store error ends a handler, and every dispatch is registered.
  predicate Tidy(l: Label) {
    !l.Abort? && (l.Turn? ==> l.pick.registered)
  }

  // The message is sent, or the reply reports success; else the branch fails.
  predicate Delivers(f: Frame, pick: Pick) {
    f.Await? || f.Publish? ==> pick.ok
  }

  lemma EffectTable(c: Config, t: Task, f: Frame, pick: Pick, id: string)
    requires WellFormed(c, f) && Delivers(f, pick) && (f.Exec? ==> pick.registered)
    requires t.status == Running && pick.now > ZERO_TIME
    ensures TableEffect(c, t, f, Fire(c, t, f, pick), id)
  {
    hide KindOf, FireExec, FireFan, Find, TableEffect;
    if f.Exec? {
      ExecTable(c, t, f.node, pick, id);
    } else if f.Fan? {
      FanTable(c, t, f.node, id);
    } else {
      OtherTable(c, t, f, pick, id);
    }
  }

  lemma OtherTable(c: Config, t: Task, f: Frame, pick: Pick, id: string)
    requires WellFormed(c, f) && Delivers(f, pick) && t.status == Running && !f.Exec? && !f.Fan?
    ensures TableEffect(c, t, f, Fire(c, t, f, pick), id)
  {
    hide KindOf, FireExec, FireFan, Find, Resume;
    if f.Recv? || f.Merge? {
      ReplyTable(c, t, f, pick, id);
    } else {
      EffectSum(Outstanding(c, id), c, t, f, pick);
    }
  }

  lemma ReplyTable(c: Config, t: Task, f: Frame, pick: Pick, id: string)
    requires WellFormed(c, f) && t.status == Running && (f.Recv? || f.Merge?)
    ensures TableEffect(c, t, f, Fire(c, t, f, pick), id)
  {
    hide KindOf, Find, Resume;
    EffectSum(Outstanding(c, id), c, t, f, pick);
    ResumeTable(c, f.id, id);
  }

  lemma ExecTable(c: Config, t: Task, u: nat, pick: Pick, id: string)
    requires u < |c.bp| && pick.registered && pick.now > ZERO_TIME
    ensures TableEffect(c, t, Exec(u), FireExec(c, t, u, pick), id)
  {
    hide KindOf, FireExec, WellFormed;
    var e := FireExec(c, t, u, pick);
    ExecShape(c, t, u, pick);
    ExecRegisters(c, t, u, pick);
    SumShort(Outstanding(c, id), e.frames);
  }

  lemma ExecRegisters(c: Config, t: Task, u: nat, pick: Pick)
    requires u < |c.bp| && pick.registered && pick.now > ZERO_TIME
    ensures
      var e := FireExec(c, t, u, pick);
      if KindOf(c.bp[u]) == Plugin then
        && e.frames == [Publish(u)] && e.op.Some? && e.op.value.AddActiveNode?
        && e.op.value.id == c.bp[u].id && e.op.value.deadline > ZERO_TIME
      else
        && (e.frames != [] ==> !e.frames[0].Publish?)
        && (e.op.Some? ==> !e.op.value.AddActiveNode? && !e.op.value.RemoveActiveNode?)
  {
    hide KindOf, InDegree, Proceeds, RuleOf, Branch;
    ExecShape(c, t, u, pick);
  }

  lemma FanTable(c: Config, t: Task, u: nat, id: string)
    requires u < |c.bp|
    ensures TableEffect(c, t, Fan(u), FireFan(c, t, u), id)
  {
    hide KindOf;
    SumShort(Outstanding(c, id), FireFan(c, t, u).frames);
  }

  lemma ResumeTable(c: Config, replied: string, id: string)
    requires Find(c.bp, replied).Some?
    ensures Sum(Outstanding(c, id), Resume(c, replied)) == 0
  {
    hide KindOf;
    SumShort(Outstanding(c, id), Resume(c, replied));
  }

  // The reply taken back in this step belongs to a node dispatched more than once.
  predicate TakesShared(c: Config, s: State, l: Label)
    requires Enabled(c, s, l)
  {
    l.Turn? && s.procs[l.p][0].Recv? && Dispatched(c, s, s.procs[l.p][0].id) > 1
  }

  // Where no branch is about to fail the task, the agreement is kept exactly by the steps
  // that take back no reply to a node with a second outstanding dispatch.
  lemma TableStep(c: Config, s: State, l: Label)
    requires s.task.status == Running && Enabled(c, s, l) && Tidy(l) && TableAgrees(c, s)
    requires Total(FailedBranches, Step(c, s, l).procs) == 0
    ensures TableAgrees(c, Step(c, s, l)) <==> !TakesShared(c, s, l)
  {
    hide Fire, KindOf, Apply;
    if TakesShared(c, s, l) {
      SecondDispatchForgotten(c, s, l.p, l.pick, s.procs[l.p][0].id);
    } else {
      forall id
        ensures id in Step(c, s, l).task.activeNodes <==> Dispatched(c, Step(c, s, l), id) > 0
        ensures id in Step(c, s, l).task.activeNodes ==> Step(c, s, l).task.activeNodes[id] > ZERO_TIME
      {
        EntryStep(c, s, l, id);
      }
    }
  }

  lemma EntryStep(c: Config, s: State, l: Label, id: string)
    requires s.task.status == Running && Enabled(c, s, l) && Tidy(l) && TableAgrees(c, s) && !TakesShared(c, s, l)
    requires Total(FailedBranches, Step(c, s, l).procs) == 0
    ensures
      var s2 := Step(c, s, l);
      && (id in s2.task.activeNodes <==> Dispatched(c, s2, id) > 0)
      && (id in s2.task.activeNodes ==> s2.task.activeNodes[id] > ZERO_TIME)
  {
    hide Fire, KindOf, Apply, Sum, Total;
    if l.Turn? {
      Delivered(c, s, l);
      TurnTotal(Outstanding(c, id), c, s, l.p, l.pick);
      EffectTable(c, s.task, s.procs[l.p][0], l.pick, id);
    } else {
      OutsideTotal(Outstanding(c, id), c, s, l);
    }
  }

  // A step after which no branch is about to fail did not fail to deliver.
  lemma Delivered(c: Config, s: State, l: Label)
    requires s.task.status == Running && Enabled(c, s, l) && l.Turn? && Total(FailedBranches, Step(c, s, l).procs) == 0
    ensures Delivers(s.procs[l.p][0], l.pick)
  {
    hide Fire, Sum, Total;
    var f := s.procs[l.p][0];
    TurnTotal(FailedBranches, c, s, l.p, l.pick);
    if (f.Await? || f.Publish?) && !l.pick.ok {
      Undelivered(c, s.task, f, l.pick);
    }
  }

  lemma Undelivered(c: Config, t: Task, f: Frame, pick: Pick)
    requires WellFormed(c, f) && t.status == Running && (f.Await? || f.Publish?) && !pick.ok
    ensures Sum(FailedBranches, Fire(c, t, f, pick).frames) == 1
  {
    hide KindOf, Find;
    EffectSum(FailedBranches, c, t, f, pick);
  }

  // A branch about to fail the task stays until it has.
  lemma FailedStays(c: Config, s: State, l: Label)
    requires Enabled(c, s, l) && !l.Abort? && Step(c, s, l).task.status == Running
    ensures Total(FailedBranches, s.procs) <= Total(FailedBranches, Step(c, s, l).procs)
  {
    hide Fire, Sum, Total, WellFormed;
    if l.Turn? {
      var f := s.procs[l.p][0];
      TurnTotal(FailedBranches, c, s, l.p, l.pick);
      if f.Fail? {
        FailEnds(c, s.task, f, l.pick);
      }
    } else {
      OutsideTotal(FailedBranches, c, s, l);
    }
  }

  lemma FailEnds(c: Config, t: Task, f: Frame, pick: Pick)
    requires WellFormed(c, f) && f.Fail?
    ensures Store(Fire(c, t, f, pick).op, t).status != Running
  {
  }

  lemma {:induction false} NeverFailed(c: Config, s: State, ls: seq<Label>, s2: State)
    requires Run(c, s, ls, s2) && s2.task.status == Running && Total(FailedBranches, s2.procs) == 0
    requires forall i :: 0 <= i < |ls| ==> Tidy(ls[i])
    ensures Total(FailedBranches, s.procs) == 0
    decreases |ls|
  {
    hide Step, Enabled;
    if ls != [] {
      assert Tidy(ls[0]);
      NeverFailed(c, Step(c, s, ls[0]), ls[1..], s2);
      WasRunning(c, Step(c, s, ls[0]), ls[1..], s2);
      FailedStays(c, s, ls[0]);
    }
  }

  // A reply to a node with two outstanding dispatches takes its only deadline away:
  // a right table stays right exactly if the reply was to the node's only dispatch.
  lemma SecondDispatchForgotten(c: Config, s: State, p: nat, pick: Pick, id: string)
    requires Enabled(c, s, Turn(p, pick)) && s.procs[p][0] == Recv(id) && s.task.status == Running
    ensures
      var s2 := Step(c, s, Turn(p, pick));
      && id !in s2.task.activeNodes
      && Dispatched(c, s2, id) == Dispatched(c, s, id) - 1
      && (TableAgrees(c, s2) ==> Dispatched(c, s, id) == 1)
      && (TableAgrees(c, s) ==> (TableAgrees(c, s2) <==> Dispatched(c, s, id) == 1))
  {
    hide Fire, KindOf, Apply;
    var s2 := Step(c, s, Turn(p, pick));
    forall other
      ensures other != id ==> Dispatched(c, s2, other) == Dispatched(c, s, other)
      ensures other != id ==> (other in s2.task.activeNodes <==> other in s.task.activeNodes)
      ensures other != id && other in s.task.activeNodes ==> s2.task.activeNodes[other] == s.task.activeNodes[other]
      ensures other == id ==> other !in s2.task.activeNodes && Dispatched(c, s2, id) == Dispatched(c, s, id) - 1
    {
      TurnTotal(Outstanding(c, other), c, s, p, pick);
      EffectTable(c, s.task, Recv(id), pick, other);
    }
  }

  ghost predicate OneEachAlong(c: Config, s: State, ls: seq<Label>)
    decreases |ls|
  {
    && OneEach(c, s)
    && (ls != [] && Enabled(c, s, ls[0]) ==> OneEachAlong(c, Step(c, s, ls[0]), ls[1..]))
  }

  lemma StillRunning(c: Config, s: State, l: Label)
    requires Enabled(c, s, l) && Step(c, s, l).task.status == Running
    ensures s.task.status == Running
  {
    hide Fire;
    if l.Turn? {
      StoreMoves(Fire(c, s.task, s.procs[l.p][0], l.pick).op, s.task);
    }
  }

  lemma {:induction false} WasRunning(c: Config, s: State, ls: seq<Label>, s2: State)
    requires Run(c, s, ls, s2) && s2.task.status == Running
    ensures s.task.status == Running
    decreases |ls|
  {
    hide Step, Enabled;
    if ls != [] {
      WasRunning(c, Step(c, s, ls[0]), ls[1..], s2);
      StillRunning(c, s, ls[0]);
    }
  }

  lemma OneEachTakesOwn(c: Config, s: State, l: Label)
    requires Enabled(c, s, l) && OneEach(c, s)
    ensures !TakesShared(c, s, l)
  {
    if l.Turn? && s.procs[l.p][0].Recv? {
      assert Dispatched(c, s, s.procs[l.p][0].id) <= 1;
    }
  }

  lemma {:induction false} TableRun(c: Config, s: State, ls: seq<Label>, s2: State)
    requires Run(c, s, ls, s2) && s2.task.status == Running && TableAgrees(c, s)
    requires Total(FailedBranches, s2.procs) == 0
    requires (forall i :: 0 <= i < |ls| ==> Tidy(ls[i])) && OneEachAlong(c, s, ls)
    ensures TableAgrees(c, s2)
    decreases |ls|
  {
    hide Step, Enabled, TableAgrees, Tidy;
    if ls != [] {
      assert Tidy(ls[0]);
      WasRunning(c, s, ls, s2);
      NeverFailed(c, Step(c, s, ls[0]), ls[1..], s2);
      OneEachTakesOwn(c, s, ls[0]);
      TableStep(c, s, ls[0]);
      TableRun(c, Step(c, s, ls[0]), ls[1..], s2);
    }
  }

  lemma TableInit(c: Config, context: map<string, string>, alarms: nat)
    requires c.bp != []
    ensures TableAgrees(c, Init(c, context, alarms)) && OneEach(c, Init(c, context, alarms))
  {
    var s := Init(c, context, alarms);
    assert s.procs[..0] == [];
    forall id ensures Dispatched(c, s, id) == 0 {
      assert s.procs[0] == [Exec(0)];
      SumShort(Outstanding(c, id), s.procs[0]);
      assert Total(Outstanding(c, id), s.procs[..0]) == 0;
    }
  }

  // ---- Deadlines ---------------------------------------------------------------------------

  // The step dispatches the node named id and registers it.
  predicate Registers(c: Config, s: State, l: Label, id: string)
    requires Enabled(c, s, l)
  {
    && l.Turn? && l.pick.registered && s.procs[l.p][0].Exec?
    && var n := c.bp[s.procs[l.p][0].node];
       KindOf(n) == Plugin && n.id == id
  }

  // The declared timeout in milliseconds, five minutes if there is none.
  function Declared(n: Node): int {
    if n.timeoutMs > 0 then n.timeoutMs else 300000
  }

  // When the latest dispatch of the node named id is due, at the end of a run: the clock
  // at that dispatch plus the node's declared timeout.
  function DueAt(c: Config, s: State, ls: seq<Label>, id: string, due: int): int
    decreases |ls|
  {
    if ls == [] || !Enabled(c, s, ls[0]) then due
    else
      DueAt(c, Step(c, s, ls[0]), ls[1..], id,
        if Registers(c, s, ls[0], id) then ls[0].pick.now + Declared(c.bp[s.procs[ls[0].p][0].node]) else due)
  }

  lemma EntryEffect(c: Config, t: Task, f: Frame, pick: Pick, id: string)
    requires WellFormed(c, f)
    ensures
      var before, after := t.activeNodes, Store(Fire(c, t, f, pick).op, t).activeNodes;
      if pick.registered && f.Exec? && KindOf(c.bp[f.node]) == Plugin && c.bp[f.node].id == id then
        id in after && after[id] == pick.now + Declared(c.bp[f.node])
      else id in after ==> id in before && after[id] == before[id]
  {
    hide KindOf, FireExec, Find, AllResolve, Resume;
    if f.Exec? {
      ExecEntry(c, t, f.node, pick, id);
    }
  }

  lemma ExecEntry(c: Config, t: Task, u: nat, pick: Pick, id: string)
    requires u < |c.bp|
    ensures
      var before, after := t.activeNodes, Store(FireExec(c, t, u, pick).op, t).activeNodes;
      if pick.registered && KindOf(c.bp[u]) == Plugin && c.bp[u].id == id then
        id in after && after[id] == pick.now + Declared(c.bp[u])
      else id in after ==> id in before && after[id] == before[id]
  {
    hide KindOf, InDegree, Proceeds, FireLoop;
    LoopOp(c, t, u, pick);
  }

  lemma LoopOp(c: Config, t: Task, u: nat, pick: Pick)
    requires u < |c.bp|
    ensures FireLoop(c, t, u, pick).op in {None, Some(IncrLoopCount(c.bp[u].id))}
  {
    hide KindOf, RuleOf, Branch, Count;
  }

  // In every run of every blueprint a registered deadline is that of the node's latest
  // dispatch.
  lemma {:induction false} DeadlineRun(c: Config, s: State, ls: seq<Label>, s2: State, id: string, due: int)
    requires Run(c, s, ls, s2) && (id in s.task.activeNodes ==> s.task.activeNodes[id] == due)
    ensures id in s2.task.activeNodes ==> s2.task.activeNodes[id] == DueAt(c, s, ls, id, due)
    decreases |ls|
  {
    hide Fire, KindOf, Apply;
    if ls != [] {
      var l := ls[0];
      if l.Turn? {
        EntryEffect(c, s.task, s.procs[l.p][0], l.pick, id);
      }
      DeadlineRun(c, Step(c, s, l), ls[1..], s2, id,
        if Registers(c, s, l, id) then l.pick.now + Declared(c.bp[s.procs[l.p][0].node]) else due);
    }
  }

  // An outstanding dispatch of the node named id that is overdue.
  ghost predicate Overdue(c: Config, start: State, ls: seq<Label>, s: State, id: string, now: int) {
    Dispatched(c, s, id) > 0 && DueAt(c, start, ls, id, ZERO_TIME) <= now
  }

  // For any blueprint, while no node ever holds two outstanding dispatches and no branch
  // is about to fail the task: the table of
  // a running task lists exactly the outstanding nodes, each with the clock reading of
  // its dispatch plus its timeout, so the watchdog acts exactly when some outstanding
  // dispatch is overdue.
  lemma SweepIsExact(c: Config, context: map<string, string>, alarms: nat, ls: seq<Label>, s: State, now: int)
    requires c.bp != [] && Run(c, Init(c, context, alarms), ls, s) && s.task.status == Running
    requires Total(FailedBranches, s.procs) == 0
    requires (forall i :: 0 <= i < |ls| ==> Tidy(ls[i])) && OneEachAlong(c, Init(c, context, alarms), ls)
    ensures forall id :: id in s.task.activeNodes <==> Dispatched(c, s, id) > 0
    ensures forall id :: id in s.task.activeNodes ==>
      s.task.activeNodes[id] == DueAt(c, Init(c, context, alarms), ls, id, ZERO_TIME)
    ensures forall id :: IsExpired(s.task.activeNodes, id, now) <==> Overdue(c, Init(c, context, alarms), ls, s, id, now)
    ensures Enabled(c, s, Sweep(now)) <==>
            s.alarms > 0 && exists id :: Overdue(c, Init(c, context, alarms), ls, s, id, now)
  {
    hide DueAt, Run, OneEachAlong;
    var start := Init(c, context, alarms);
    TableInit(c, context, alarms);
    TableRun(c, start, ls, s);
    forall id
      ensures id in s.task.activeNodes ==> s.task.activeNodes[id] == DueAt(c, start, ls, id, ZERO_TIME)
      ensures IsExpired(s.task.activeNodes, id, now) <==> Overdue(c, start, ls, s, id, now)
    {
      DeadlineRun(c, start, ls, s, id, ZERO_TIME);
    }
    ExpiredMeans(s.task, now);
  }

  // The test sweepExpiredTasks makes of one running task: it finds the task expired
  // exactly when some outstanding dispatch is overdue, and then names an outstanding
  // node whose dispatch was due first.
  method SweepTest(task: Task, now: int, ghost c: Config, ghost context: map<string, string>, ghost alarms: nat,
      ghost ls: seq<Label>, ghost s: State)
    returns (expired: bool, node: string, deadline: int)
    requires c.bp != [] && Run(c, Init(c, context, alarms), ls, s) && task == s.task && task.status == Running
    requires Total(FailedBranches, s.procs) == 0
    requires (forall i :: 0 <= i < |ls| ==> Tidy(ls[i])) && OneEachAlong(c, Init(c, context, alarms), ls)
    ensures expired <==> exists id :: Overdue(c, Init(c, context, alarms), ls, s, id, now)
    ensures expired ==>
      && Overdue(c, Init(c, context, alarms), ls, s, node, now)
      && deadline == DueAt(c, Init(c, context, alarms), ls, node, ZERO_TIME)
      && forall id :: Overdue(c, Init(c, context, alarms), ls, s, id, now) ==>
           deadline <= DueAt(c, Init(c, context, alarms), ls, id, ZERO_TIME)
  {
    hide DueAt, Run, OneEachAlong, Overdue, Tidy;
    node, deadline, expired := EarliestExpired(task.activeNodes, now);
    assert forall i :: IsExpired(task.activeNodes, i, now) <==>
      i in task.activeNodes && task.activeNodes[i] != 0 && task.activeNodes[i] <= now;
    if expired { assert IsExpired(task.activeNodes, node, now); }
    SweepIsExact(c, context, alarms, ls, s, now);
  }

  // What the sweep then does: unless the task ends otherwise first, it fails with a timeout.
  lemma SweptTaskFails(c: Config, s: State, now: int, pick: Pick)
    requires Enabled(c, s, Sweep(now)) && pick.now > ZERO_TIME
    ensures
      var s2 := Step(c, s, Sweep(now));
      var fail := Turn(|s.procs|, pick);
      && s2.task == s.task && Enabled(c, s2, fail)
      && Step(c, s2, fail).task == s.task.(status := Failed, failReason := NodeTimeout)
  {
  }

  // ---- Fan-out/join blueprints -------------------------------------------------------------

  lemma {:induction false} DispatchedAtNode(c: Config, u: nat, procs: seq<Stack>)
    requires DistinctIds(c.bp) && u < |c.bp|
    ensures Total(Outstanding(c, c.bp[u].id), procs) <= Total(At(c, u), procs)
  {
    if procs != [] {
      DispatchedAtNode(c, u, procs[..|procs| - 1]);
      DispatchedInStack(c, u, procs[|procs| - 1]);
    }
  }

  lemma {:induction false} DispatchedInStack(c: Config, u: nat, fs: Stack)
    requires DistinctIds(c.bp) && u < |c.bp|
    ensures Sum(Outstanding(c, c.bp[u].id), fs) <= Sum(At(c, u), fs)
  {
    if fs != [] {
      FindOwnId(c.bp, u);
      DispatchedInStack(c, u, fs[1..]);
    }
  }

  // Only plugin nodes are dispatched.
  lemma {:induction false} OnlyPluginsDispatched(c: Config, id: string, procs: seq<Stack>)
    requires DistinctIds(c.bp) && Total(Bad(c), procs) == 0 && Total(Stray(c), procs) == 0 && !ForPlugin(c, id)
    ensures Total(Outstanding(c, id), procs) == 0
  {
    if procs != [] {
      OnlyPluginsDispatched(c, id, procs[..|procs| - 1]);
      OnlyPluginsInStack(c, id, procs[|procs| - 1]);
    }
  }

  lemma {:induction false} OnlyPluginsInStack(c: Config, id: string, fs: Stack)
    requires DistinctIds(c.bp) && Sum(Bad(c), fs) == 0 && Sum(Stray(c), fs) == 0 && !ForPlugin(c, id)
    ensures Sum(Outstanding(c, id), fs) == 0
  {
    if fs != [] {
      if fs[0].Publish? && fs[0].node < |c.bp| {
        FindOwnId(c.bp, fs[0].node);
      }
      OnlyPluginsInStack(c, id, fs[1..]);
    }
  }

  lemma PlainOneEach(c: Config, s: State)
    requires Plain(c.bp) && SteadyState(c, s) && FlowInv(c, s)
    ensures OneEach(c, s)
  {
    hide InDegree, FiringSet;
    var rank :| Layered(c.bp, rank);
    var fed := FiringOf(c.bp);
    forall id ensures Dispatched(c, s, id) <= 1 {
      if ForPlugin(c, id) {
        var u := Find(c.bp, id).value;
        AtMostOnce(c, rank, fed, s, u, Top(rank));
        DispatchedAtNode(c, u, s.procs);
        assert !Merging(c.bp, u) && NodeBalances(c, s, u);
      } else {
        OnlyPluginsDispatched(c, id, s.procs);
      }
    }
  }

  lemma {:induction false} PlainOneEachAlong(c: Config, s: State, ls: seq<Label>, s2: State)
    requires Plain(c.bp) && Orderly(c, s) && Run(c, s, ls, s2) && SmoothRun(ls)
    ensures OneEachAlong(c, s, ls)
    decreases |ls|
  {
    hide PlainNodes, FlowInv, Step, Smooth, Enabled, OneEach, SteadyState;
    PlainOneEach(c, s);
    if ls != [] {
      assert Smooth(ls[0]);
      OrderlyStep(c, s, ls[0]);
      PlainOneEachAlong(c, Step(c, s, ls[0]), ls[1..], s2);
    }
  }

  lemma SteadyHasNone(c: Config, s: State)
    requires SteadyState(c, s)
    ensures Total(FailedBranches, s.procs) == 0
  {
    FewerFailures(s.procs);
  }

  lemma {:induction false} FewerFailures(procs: seq<Stack>)
    ensures Total(FailedBranches, procs) <= Total(Failures, procs)
  {
    if procs != [] {
      FewerFailures(procs[..|procs| - 1]);
      FewerFailuresIn(procs[|procs| - 1]);
    }
  }

  lemma {:induction false} FewerFailuresIn(fs: Stack)
    ensures Sum(FailedBranches, fs) <= Sum(Failures, fs)
  {
    if fs != [] {
      FewerFailuresIn(fs[1..]);
    }
  }

  // On acyclic fan-out/join blueprints the hypothesis always holds: in a failure-free
  // run no node is ever dispatched twice at once, and the watchdog is exact.
  lemma PlainSweepIsExact(c: Config, context: map<string, string>, alarms: nat, ls: seq<Label>, s: State, now: int)
    requires Plain(c.bp) && Run(c, Init(c, context, alarms), ls, s) && s.task.status == Running
    requires SmoothRun(ls)
    ensures OneEachAlong(c, Init(c, context, alarms), ls) && forall i :: 0 <= i < |ls| ==> Tidy(ls[i])
    ensures forall id :: if id in s.task.activeNodes then Dispatched(c, s, id) == 1 else Dispatched(c, s, id) == 0
    ensures Enabled(c, s, Sweep(now)) <==>
            s.alarms > 0 && exists id :: Overdue(c, Init(c, context, alarms), ls, s, id, now)
  {
    hide PlainNodes, Enabled, FlowInv, SteadyState, DueAt;
    OrderlyInit(c, context, alarms);
    PlainOneEachAlong(c, Init(c, context, alarms), ls, s);
    assert forall i :: 0 <= i < |ls| ==> Smooth(ls[i]) && Tidy(ls[i]);
    OrderlyRun(c, Init(c, context, alarms), ls, s);
    SteadyHasNone(c, s);
    SweepIsExact(c, context, alarms, ls, s, now);
    PlainOneEach(c, s);
    forall id ensures if id in s.task.activeNodes then Dispatched(c, s, id) == 1 else Dispatched(c, s, id) == 0 {
      assert Dispatched(c, s, id) <= 1;
    }
  }
}
