/**
 What can leave a task running for ever, in any blueprint, cycles, IF and LOOP included:
 only a join that waits for a branch.
 */
module OnlyJoins {
  import opened Prelude
  import opened Blueprints
  import opened TaskRecord
  import opened Engine
  import opened Conservation

  // Some JOIN of several edges has the id.
  ghost predicate IsJoin(bp: Blueprint, id: string) {
    InDegree(bp, id) >= 2 && exists u :: 0 <= u < |bp| && bp[u].id == id && KindOf(bp[u]) == Join
  }

  // A join that has some of its arrivals, but not all.
  ghost predicate Waits(c: Config, t: Task, id: string) {
    IsJoin(c.bp, id) && 0 < Count(t.joinState, id) < InDegree(c.bp, id)
  }

  ghost predicate SomeWaits(c: Config, t: Task) {
    exists id :: Waits(c, t, id)
  }

  // Join counts are positive only at joins that wait.
  ghost predicate CountsWait(c: Config, t: Task) {
    forall id :: Count(t.joinState, id) == 0 || Waits(c, t, id)
  }

  function Ending(procs: seq<Stack>): nat {
    Total(Completions, procs) + Total(Failures, procs)
  }

  ghost predicate Accounted(c: Config, s: State) {
    && CountsWait(c, s.task)
    && (s.task.status == Running && Live(s) == 0 ==> Ending(s.procs) > 0 || SomeWaits(c, s.task))
  }

  lemma StepCounts(c: Config, t: Task, f: Frame, pick: Pick)
    requires WellFormed(c, f) && CountsWait(c, t)
    ensures CountsWait(c, Store(Fire(c, t, f, pick).op, t))
  {
    hide Fire, KindOf, InDegree;
    var op := Fire(c, t, f, pick).op;
    var t2 := Store(op, t);
    ArrivesAtJoin(c, t, f, pick);
    forall id ensures Count(t2.joinState, id) == 0 || Waits(c, t2, id) {
      assert Count(t.joinState, id) == 0 || Waits(c, t, id);
      if op.Some? && op.value.ArriveAtJoin? && op.value.id == id {
        assert t2.joinState[id] == 0 || t2.joinState[id] == Count(t.joinState, id) + 1;
      }
    }
  }

  lemma ArrivesAtJoin(c: Config, t: Task, f: Frame, pick: Pick)
    requires WellFormed(c, f)
    ensures
      var op := Fire(c, t, f, pick).op;
      op.Some? && op.value.ArriveAtJoin? ==>
        f.Exec? && op.value.expected == InDegree(c.bp, op.value.id) && IsJoin(c.bp, op.value.id)
  {
    hide KindOf, InDegree, RuleOf, Branch;
  }

  // A step that leaves a handler without branches ends the task, is about to, or
  // leaves a join waiting; a leaf counts the branches that are left.
  lemma StepAccounts(c: Config, t: Task, f: Frame, pick: Pick)
    requires WellFormed(c, f) && CountsWait(c, t)
    ensures
      var e := Fire(c, t, f, pick);
      var created := Sum(Tokens, e.frames) + Sum(Tokens, e.spawned);
      var ending := Sum(Completions, e.frames) + Sum(Failures, e.frames);
      Held(f) > 0 && created == 0 && Store(e.op, t).status == Running ==>
        ending > 0 || SomeWaits(c, Store(e.op, t)) || (f.Fan? && t.activeBranches > 1)
  {
    hide KindOf, FireExec, FireFan, InDegree, SomeWaits, CountsWait;
    if f.Exec? {
      ExecAccounts(c, t, f.node, pick);
    } else if f.Fan? {
      FanAccounts(c, t, f.node);
    } else if Held(f) > 0 {
      OtherAccounts(c, t, f, pick);
    }
  }

  lemma ExecAccounts(c: Config, t: Task, u: nat, pick: Pick)
    requires u < |c.bp| && CountsWait(c, t)
    ensures
      var e := FireExec(c, t, u, pick);
      Sum(Tokens, e.frames) > 0 || SomeWaits(c, Store(e.op, t))
  {
    hide KindOf, FireExec, InDegree;
    var e := FireExec(c, t, u, pick);
    ExecTokens(c, t, u, pick);
    SumShort(Tokens, e.frames);
    if e.frames == [] {
      ExecShape(c, t, u, pick);
      StepCounts(c, t, Exec(u), pick);
      var id := e.op.value.id;
      assert Count(t.joinState, id) == 0 || Waits(c, t, id);
      assert Count(Store(e.op, t).joinState, id) == Count(t.joinState, id) + 1;
      assert Waits(c, Store(e.op, t), id);
    }
  }

  lemma FanAccounts(c: Config, t: Task, u: nat)
    requires u < |c.bp|
    ensures
      var e := FireFan(c, t, u);
      && e.spawned == []
      && (Sum(Tokens, e.frames) > 0 || Sum(Completions, e.frames) > 0 || t.activeBranches > 1)
  {
    hide KindOf, AllResolve;
    SumShort(Tokens, FireFan(c, t, u).frames);
    SumShort(Completions, FireFan(c, t, u).frames);
  }

  lemma OtherAccounts(c: Config, t: Task, f: Frame, pick: Pick)
    requires WellFormed(c, f) && !f.Exec? && !f.Fan? && Held(f) > 0
    ensures
      var e := Fire(c, t, f, pick);
      Sum(Tokens, e.frames) + Sum(Tokens, e.spawned) > 0 || Store(e.op, t).status != Running
  {
    hide KindOf, Find;
    EffectSum(Tokens, c, t, f, pick);
  }

  lemma AccountedStep(c: Config, s: State, l: Label)
    requires Sound(c, s) && Conserved(s) && Accounted(c, s) && Enabled(c, s, l) && !l.Abort?
    ensures Accounted(c, Step(c, s, l))
  {
    hide Fire, KindOf, WellFormed, InDegree, Sum, Total, Apply, SomeWaits;
    if l.Turn? {
      TurnAccounts(c, s, l);
    } else {
      OutsideTotal(Completions, c, s, l);
      OutsideTotal(Failures, c, s, l);
      OutsideTotal(Tokens, c, s, l);
    }
  }

  lemma TurnAccounts(c: Config, s: State, l: Label)
    requires Sound(c, s) && Conserved(s) && Accounted(c, s) && Enabled(c, s, l) && l.Turn?
    ensures Accounted(c, Step(c, s, l))
  {
    hide Fire, KindOf, WellFormed, InDegree, Sum, Total, Apply, SomeWaits, CountsWait;
    var f, s2 := s.procs[l.p][0], Step(c, s, l);
    var e := Fire(c, s.task, f, l.pick);
    StepCounts(c, s.task, f, l.pick);
    StepAccounts(c, s.task, f, l.pick);
    TurnTotal(Completions, c, s, l.p, l.pick);
    TurnTotal(Failures, c, s, l.p, l.pick);
    TurnTotal(Tokens, c, s, l.p, l.pick);
    EffectTokens(c, s.task, f, l.pick);
    StoreMoves(e.op, s.task);
    ConservedStep(c, s, l);
    if Held(f) == 0 {
      IdleKeeps(c, s.task, f, l.pick);
    }
  }

  // A frame that holds no branch ends the task or leaves the record as it is.
  lemma IdleKeeps(c: Config, t: Task, f: Frame, pick: Pick)
    requires WellFormed(c, f) && Held(f) == 0
    ensures
      var t2 := Store(Fire(c, t, f, pick).op, t);
      && (f.Complete? || f.Fail? ==> t2.status != Running)
      && (!f.Complete? && !f.Fail? ==> t2 == t)
  {
    hide KindOf, Find;
  }

  lemma {:induction false} AccountedRun(c: Config, s: State, ls: seq<Label>, s2: State)
    requires Sound(c, s) && Conserved(s) && Accounted(c, s) && Run(c, s, ls, s2) && NoAborts(ls)
    ensures Accounted(c, s2) && Conserved(s2)
    decreases |ls|
  {
    hide Sound, Conserved, Accounted, Step, Enabled;
    if ls != [] {
      SoundStep(c, s, ls[0]);
      ConservedStep(c, s, ls[0]);
      AccountedStep(c, s, ls[0]);
      AccountedRun(c, Step(c, s, ls[0]), ls[1..], s2);
    }
  }

  lemma AccountedInit(c: Config, context: map<string, string>, alarms: nat)
    requires c.bp != []
    ensures Accounted(c, Init(c, context, alarms))
  {
    var procs := Init(c, context, alarms).procs;
    assert procs[..0] == [];
    assert Sum(Tokens, procs[0]) == 1;
  }

  // In any blueprint: if a run without store errors leaves the task running with nothing
  // left to do, no branch is live and some join of several edges waits for the rest of
  // its arrivals.
  lemma OnlyJoinsStrand(c: Config, context: map<string, string>, alarms: nat, ls: seq<Label>, s: State)
    requires c.bp != [] && Run(c, Init(c, context, alarms), ls, s) && NoAborts(ls)
    requires Quiet(s) && s.task.status == Running
    ensures s.task.activeBranches == 0
    ensures exists id :: Waits(c, s.task, id)
  {
    InitHolds(c, context, alarms);
    AccountedInit(c, context, alarms);
    AccountedRun(c, Init(c, context, alarms), ls, s);
    QuietTotal(Tokens, s.procs);
    QuietTotal(Completions, s.procs);
    QuietTotal(Failures, s.procs);
  }

  // So a blueprint without such joins never leaves a task running.
  lemma WithoutJoinsEnds(c: Config, context: map<string, string>, alarms: nat, ls: seq<Label>, s: State)
    requires c.bp != [] && Run(c, Init(c, context, alarms), ls, s) && NoAborts(ls) && Quiet(s)
    requires forall id :: !IsJoin(c.bp, id)
    ensures s.task.status != Running
  {
    if s.task.status == Running {
      OnlyJoinsStrand(c, context, alarms, ls, s);
    }
  }
}
