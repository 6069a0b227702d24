/**
 Replies to a task that has ended: handleNodeResult ignores them.
 */
module Finished {
  import opened Prelude
  import opened Blueprints
  import opened TaskRecord
  import opened Engine
  import opened Conservation
  import opened JoinRuns
  import opened TaskFields
  import Terminal

  // Replies accepted, their node not yet taken back.
  function InHand(s: State): nat {
    Total(Accepted, s.procs)
  }

  // Answering a message of a finished task ends the process that waited for it, and
  // nothing else happens.
  lemma ReplyIgnored(c: Config, s: State, p: nat, pick: Pick, id: string)
    requires Enabled(c, s, Turn(p, pick)) && s.procs[p][0] == Await(id) && s.task.status != Running
    ensures Step(c, s, Turn(p, pick)) == s.(procs := s.procs[p := s.procs[p][1..]])
  {
    assert [] + s.procs[p][1..] == s.procs[p][1..];
    assert s.callbacks + [] == s.callbacks;
  }

  // A reply is accepted only while the task runs.
  lemma AcceptedWhileRunning(c: Config, t: Task, f: Frame, pick: Pick)
    requires WellFormed(c, f)
    ensures
      var e := Fire(c, t, f, pick);
      && Sum(Accepted, e.spawned) == 0
      && Sum(Accepted, e.frames) == (if f.Await? && t.status == Running && pick.ok then 1 else 0)
  {
    hide KindOf, FireExec, FireFan, Find;
    EffectSum(Accepted, c, t, f, pick);
    if f.Exec? {
      ExecShape(c, t, f.node, pick);
    } else if f.Fan? {
      FanAccepts(c, t, f.node);
    }
  }

  lemma FanAccepts(c: Config, t: Task, u: nat)
    requires u < |c.bp|
    ensures Sum(Accepted, FireFan(c, t, u).frames) == Sum(Accepted, FireFan(c, t, u).spawned) == 0
  {
    SumShort(Accepted, FireFan(c, t, u).frames);
  }

  // Only a reply in hand takes its node out of the table.
  lemma TakenBackByReply(c: Config, t: Task, f: Frame, pick: Pick)
    requires WellFormed(c, f)
    ensures
      var op := Fire(c, t, f, pick).op;
      f.Recv? <==> op.Some? && op.value.RemoveActiveNode?
  {
    hide KindOf, FireExec, Find;
    if f.Exec? {
      ExecShape(c, t, f.node, pick);
    }
  }

  lemma InHandStep(c: Config, s: State, l: Label)
    requires Enabled(c, s, l)
    ensures InHand(Step(c, s, l)) <= InHand(s)
      + (if l.Turn? && s.procs[l.p][0].Await? && s.task.status == Running && l.pick.ok then 1 else 0)
    ensures InHand(s) == 0 ==> forall i :: 0 <= i < |OpsOfStep(c, s, l)| ==> !OpsOfStep(c, s, l)[i].RemoveActiveNode?
  {
    hide Fire, Sum, Total, WellFormed;
    if l.Turn? {
      TurnTotal(Accepted, c, s, l.p, l.pick);
      AcceptedWhileRunning(c, s.task, s.procs[l.p][0], l.pick);
      TakenBackByReply(c, s.task, s.procs[l.p][0], l.pick);
    } else {
      OutsideTotal(Accepted, c, s, l);
    }
  }

  ghost predicate TakesNothingBack(ops: seq<Op>) {
    forall i :: 0 <= i < |ops| ==> !ops[i].RemoveActiveNode?
  }

  lemma {:induction false} FinishedRun(c: Config, s: State, ls: seq<Label>, s2: State)
    requires Run(c, s, ls, s2) && s.task.status != Running && Terminal.CallbackInv(s)
    ensures InHand(s2) <= InHand(s) && s2.task.status != Running
    ensures InHand(s) == 0 ==> TakesNothingBack(OpsOf(c, s, ls))
    decreases |ls|
  {
    hide Step, Enabled, Terminal.CallbackInv, OpsOfStep;
    if ls != [] {
      Terminal.CallbackStep(c, s, ls[0]);
      InHandStep(c, s, ls[0]);
      FinishedRun(c, Step(c, s, ls[0]), ls[1..], s2);
    }
  }

  // Once a task has ended, however it goes on: no further reply is accepted, and when
  // those in hand are done with, no node leaves the table any more.
  lemma FinishedTaskAcceptsNothing(c: Config, context: map<string, string>, alarms: nat,
      ls: seq<Label>, s: State, more: seq<Label>, s2: State)
    requires c.bp != [] && Run(c, Init(c, context, alarms), ls, s) && Run(c, s, more, s2)
    requires s.task.status != Running
    ensures InHand(s2) <= InHand(s)
    ensures InHand(s) == 0 ==> TakesNothingBack(OpsOf(c, s, more)) && s2.task.activeNodes.Keys >= s.task.activeNodes.Keys
  {
    hide Run, Terminal.CallbackInv, OpsOf;
    Terminal.CallbackInit(c, context, alarms);
    Terminal.CallbackRun(c, Init(c, context, alarms), ls, s);
    FinishedRun(c, s, more, s2);
    if InHand(s) == 0 {
      RunIsHistory(c, s, more, s2, "");
      TableOnlyGrows(OpsOf(c, s, more), s.task);
    }
  }

  lemma {:induction false} TableOnlyGrows(ops: seq<Op>, t: Task)
    requires TakesNothingBack(ops)
    ensures Fold(ops, t).activeNodes.Keys >= t.activeNodes.Keys
  {
    hide Apply;
    if ops != [] {
      TableOnlyGrows(ops[..|ops| - 1], t);
      FieldLaw(ops[|ops| - 1], Fold(ops[..|ops| - 1], t));
    }
  }
}
