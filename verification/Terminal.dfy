/**
 Terminal states are absorbing and reported once: MarkTerminal, completeTask,
 failTask and sendCallback under competing branches, watchdog sweeps and
 plugin-down failures.
 */
module Terminal {
  import opened Prelude
  import opened Blueprints
  import opened TaskRecord
  import opened Engine
  import opened Conservation

  function Pending(s: State): nat {
    Total(CallbackOf(TaskCompleted), s.procs) + Total(CallbackOf(TaskFailed), s.procs)
  }

  // What the callback of a finished task says: its event always agrees with the
  // stored status; its payload is the stored record, unless reading that failed.
  predicate Reports(m: Message, t: Task, stale: bool) {
    && Outcome(m.event) == t.status
    && m == if stale then Stale(m.event) else Message(m.event, t.status, t.failReason)
  }

  ghost predicate CallbackInv(s: State) {
    && Pending(s) + |s.callbacks| <= (if s.task.status == Running then 0 else 1)
    && (s.task.status != Completed ==> Total(CallbackOf(TaskCompleted), s.procs) == 0)
    && (s.task.status != Failed ==> Total(CallbackOf(TaskFailed), s.procs) == 0)
    && s.trace[StaleCallback] <= |s.callbacks|
    && (forall i :: 0 <= i < |s.callbacks| ==> Reports(s.callbacks[i], s.task, s.trace[StaleCallback] > 0))
  }

  ghost predicate EveryEndReported(s: State) {
    Pending(s) + |s.callbacks| == (if s.task.status == Running then 0 else 1)
  }

  // A callback frame sends one message to a known trigger plugin; nothing else does.
  ghost predicate Says(c: Config, t: Task, f: Frame, readable: bool, e: Effect) {
    var sends := f.Callback? && c.trigger != "";
    && e.deeds[StaleCallback] == (if sends && !readable then 1 else 0)
    && e.said ==
         if !sends then []
         else if readable then [Message(f.event, t.status, t.failReason)] else [Stale(f.event)]
  }

  // Only failTask and completeTask change the status, only on a running task, and
  // exactly then a callback becomes due.
  lemma EffectTerminal(c: Config, t: Task, f: Frame, pick: Pick)
    requires WellFormed(c, f)
    ensures
      var e, t2 := Fire(c, t, f, pick), Store(Fire(c, t, f, pick).op, t);
      var ended := t.status == Running && (f.Fail? || f.Complete?);
      && (!ended ==> t2.status == t.status && t2.failReason == t.failReason)
      && (ended ==> t2.status == if f.Fail? then Failed else Completed)
      && Sum(CallbackOf(TaskFailed), e.frames) == (if ended && f.Fail? then 1 else 0)
      && Sum(CallbackOf(TaskCompleted), e.frames) == (if ended && f.Complete? then 1 else 0)
      && (forall event :: Sum(CallbackOf(event), e.spawned) == 0)
      && Says(c, t, f, pick.readable, e)
  {
    hide Fire, WellFormed;
    EffectSum(CallbackOf(TaskFailed), c, t, f, pick);
    EffectSum(CallbackOf(TaskCompleted), c, t, f, pick);
    EndFrames(c, t, f, pick);
    forall event ensures Sum(CallbackOf(event), Fire(c, t, f, pick).spawned) == 0 {
      EffectSum(CallbackOf(event), c, t, f, pick);
      SpawnsOnlyMessages(c, t, f, pick);
    }
  }

  lemma EndFrames(c: Config, t: Task, f: Frame, pick: Pick)
    requires WellFormed(c, f)
    ensures
      var e, t2 := Fire(c, t, f, pick), Store(Fire(c, t, f, pick).op, t);
      var ended := t.status == Running && (f.Fail? || f.Complete?);
      && (if ended then
            && e.frames == [Callback(if f.Fail? then TaskFailed else TaskCompleted)]
            && t2.status == (if f.Fail? then Failed else Completed)
          else
            && (forall i :: 0 <= i < |e.frames| ==> !e.frames[i].Callback?)
            && t2.status == t.status && t2.failReason == t.failReason)
      && Says(c, t, f, pick.readable, e)
  {
    hide KindOf, FireExec, FireFan;
    match f
    case Exec(u) => ExecTerminal(c, t, u, pick);
    case Fan(u) => FanTerminal(c, t, u);
    case _ =>
  }

  lemma SpawnsOnlyMessages(c: Config, t: Task, f: Frame, pick: Pick)
    requires WellFormed(c, f)
    ensures var e := Fire(c, t, f, pick); e.spawned == [] || (|e.spawned| == 1 && e.spawned[0].Await?)
  {
    hide FireExec, KindOf;
    if f.Exec? {
      ExecShape(c, t, f.node, pick);
    }
  }

  lemma ExecTerminal(c: Config, t: Task, u: nat, pick: Pick)
    requires u < |c.bp|
    ensures
      var e := FireExec(c, t, u, pick);
      && e.said == [] && e.deeds[StaleCallback] == 0 && |e.frames| <= 1 && (e.frames != [] ==> !e.frames[0].Callback?)
      && Store(e.op, t).status == t.status && Store(e.op, t).failReason == t.failReason
  {
    hide FireExec, KindOf;
    ExecShape(c, t, u, pick);
  }

  lemma FanTerminal(c: Config, t: Task, u: nat)
    requires u < |c.bp|
    ensures
      var e := FireFan(c, t, u);
      && e.said == [] && e.deeds[StaleCallback] == 0 && |e.frames| <= 1 && (e.frames != [] ==> !e.frames[0].Callback?)
      && Store(e.op, t).status == t.status && Store(e.op, t).failReason == t.failReason
  {
  }

  lemma CallbackStep(c: Config, s: State, l: Label)
    requires Enabled(c, s, l) && CallbackInv(s)
    ensures CallbackInv(Step(c, s, l))
    ensures s.task.status != Running ==>
              Step(c, s, l).task.status == s.task.status && Step(c, s, l).task.failReason == s.task.failReason
    ensures c.trigger != "" && !l.Abort? && EveryEndReported(s) ==> EveryEndReported(Step(c, s, l))
  {
    hide Fire, WellFormed;
    if l.Turn? {
      var f := s.procs[l.p][0];
      CallbackTurn(c, s, l, f);
    } else {
      OutsideTotal(CallbackOf(TaskCompleted), c, s, l);
      OutsideTotal(CallbackOf(TaskFailed), c, s, l);
    }
  }

  lemma CallbackTurn(c: Config, s: State, l: Label, f: Frame)
    requires Enabled(c, s, l) && l.Turn? && CallbackInv(s) && f == s.procs[l.p][0]
    ensures
      var s2 := Step(c, s, l);
      && CallbackInv(s2)
      && (s.task.status != Running ==> s2.task.status == s.task.status && s2.task.failReason == s.task.failReason)
      && (c.trigger != "" && EveryEndReported(s) ==> EveryEndReported(s2))
  {
    hide Fire, WellFormed, Sum, Total, Apply;
    TurnTotal(CallbackOf(TaskCompleted), c, s, l.p, l.pick);
    TurnTotal(CallbackOf(TaskFailed), c, s, l.p, l.pick);
    EffectTerminal(c, s.task, f, l.pick);
    if f.Callback? {
      assert Weigh(CallbackOf(f.event), f) == 1;
      assert Outcome(f.event) == s.task.status;
    }
  }

  lemma {:induction false} CallbackRun(c: Config, s: State, ls: seq<Label>, s2: State)
    requires Run(c, s, ls, s2) && CallbackInv(s)
    ensures CallbackInv(s2)
    ensures s.task.status != Running ==> s2.task.status == s.task.status && s2.task.failReason == s.task.failReason
    ensures c.trigger != "" && NoAborts(ls) && EveryEndReported(s) ==> EveryEndReported(s2)
    decreases |ls|
  {
    if ls != [] {
      CallbackStep(c, s, ls[0]);
      CallbackRun(c, Step(c, s, ls[0]), ls[1..], s2);
    }
  }

  lemma CallbackInit(c: Config, context: map<string, string>, alarms: nat)
    requires c.bp != []
    ensures CallbackInv(Init(c, context, alarms)) && EveryEndReported(Init(c, context, alarms))
  {
    var procs := Init(c, context, alarms).procs;
    assert procs[..0] == [];
    assert forall event :: Sum(CallbackOf(event), procs[0]) == 0;
  }

  lemma {:induction false} RunAppend(c: Config, s: State, ls: seq<Label>, s2: State, ls2: seq<Label>, s3: State)
    requires Run(c, s, ls, s2) && Run(c, s2, ls2, s3)
    ensures Run(c, s, ls + ls2, s3)
    decreases |ls|
  {
    if ls == [] {
      assert ls + ls2 == ls2;
    } else {
      assert (ls + ls2)[1..] == ls[1..] + ls2;
      RunAppend(c, Step(c, s, ls[0]), ls[1..], s2, ls2, s3);
    }
  }

  // Once a task has left running, no continuation of the run changes its status or
  // its failure reason.
  lemma TerminalIsAbsorbing(c: Config, context: map<string, string>, alarms: nat,
      ls: seq<Label>, s: State, more: seq<Label>, s2: State)
    requires c.bp != [] && Run(c, Init(c, context, alarms), ls, s) && Run(c, s, more, s2)
    requires s.task.status != Running
    ensures s2.task.status == s.task.status && s2.task.failReason == s.task.failReason
  {
    CallbackInit(c, context, alarms);
    CallbackRun(c, Init(c, context, alarms), ls, s);
    CallbackRun(c, s, more, s2);
  }

  // At most one callback is ever sent and never while the task runs. Its event always
  // agrees with the stored status; the status and reason it carries are the stored
  // ones exactly if sendCallback could read the record. If no store error ended a
  // handler and the trigger plugin is known, a finished task whose work is done has
  // sent one.
  lemma OneCallback(c: Config, context: map<string, string>, alarms: nat, ls: seq<Label>, s: State)
    requires c.bp != [] && Run(c, Init(c, context, alarms), ls, s)
    ensures |s.callbacks| <= 1
    ensures forall i :: 0 <= i < |s.callbacks| ==>
      var m := s.callbacks[i];
      && s.task.status == Outcome(m.event)
      && (m.status == s.task.status && m.failReason == s.task.failReason <==> s.trace[StaleCallback] == 0)
    ensures c.trigger != "" && NoAborts(ls) && Quiet(s) ==> (|s.callbacks| == 1 <==> s.task.status != Running)
  {
    CallbackInit(c, context, alarms);
    CallbackRun(c, Init(c, context, alarms), ls, s);
    if Quiet(s) {
      QuietTotal(CallbackOf(TaskCompleted), s.procs);
      QuietTotal(CallbackOf(TaskFailed), s.procs);
    }
  }
}
