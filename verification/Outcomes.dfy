/**
 How each kind of node, edge and reply can end a running task, what it leaves in the
 record, and what it leads to.
 */
module Outcomes {
  import opened Prelude
  import opened Blueprints
  import opened TaskRecord
  import opened Engine
  import opened TaskFields
  import opened JoinRuns
  import Terminal

  // Process p takes a step; its next one ends the task so.
  ghost predicate EndsTask(c: Config, s: State, p: nat, pick: Pick, status: Status, reason: Reason) {
    && Enabled(c, s, Turn(p, pick))
    && (var s2 := Step(c, s, Turn(p, pick));
        && s2.task.status == Running
        && forall next: Pick :: next.now > ZERO_TIME ==>
             && Enabled(c, s2, Turn(p, next))
             && Step(c, s2, Turn(p, next)).task == s2.task.(status := status, failReason := reason))
  }

  lemma FailEndsTask(c: Config, s: State, p: nat, pick: Pick, reason: Reason, rest: Stack)
    requires Enabled(c, s, Turn(p, pick))
    requires
      var s2 := Step(c, s, Turn(p, pick));
      s2.task.status == Running && s2.procs[p] == [Fail(reason, 1)] + rest
    ensures EndsTask(c, s, p, pick, Failed, reason)
  {
  }

  lemma CompleteEndsTask(c: Config, s: State, p: nat, pick: Pick, rest: Stack)
    requires Enabled(c, s, Turn(p, pick))
    requires
      var s2 := Step(c, s, Turn(p, pick));
      s2.task.status == Running && s2.procs[p] == [Complete(1)] + rest
    ensures EndsTask(c, s, p, pick, Completed, NoReason)
  {
  }

  // Process p of a running task has frame f to run.
  ghost predicate Runs(c: Config, s: State, p: nat, pick: Pick, f: Frame) {
    Enabled(c, s, Turn(p, pick)) && s.task.status == Running && s.procs[p][0] == f
  }

  // What its step leaves, from the frame's effect.
  lemma StepOf(c: Config, s: State, p: nat, pick: Pick, f: Frame)
    requires Runs(c, s, p, pick, f)
    ensures
      var e, s2 := Fire(c, s.task, f, pick), Step(c, s, Turn(p, pick));
      && s2.task == Store(e.op, s.task) && s2.procs[p] == e.frames + s.procs[p][1..]
      && s2.procs == Spawn(s.procs[p := e.frames + s.procs[p][1..]], e.spawned)
      && s2.callbacks == s.callbacks + e.said
  {
    hide Fire;
  }

  // ---- IF and LOOP -----------------------------------------------------------------------

  // Taking edge k ends the task if its target is empty or unknown.
  ghost predicate TargetEnds(c: Config, s: State, p: nat, pick: Pick, u: nat, k: nat)
    requires u < |c.bp| && k < |c.bp[u].next|
  {
    && (c.bp[u].next[k] == "" ==> EndsTask(c, s, p, pick, Completed, NoReason))
    && (c.bp[u].next[k] != "" && (forall v :: 0 <= v < |c.bp| ==> c.bp[v].id != c.bp[u].next[k]) ==>
          EndsTask(c, s, p, pick, Failed, NextNotFound))
  }

  lemma IfOutcomes(c: Config, s: State, p: nat, pick: Pick, u: nat)
    requires Runs(c, s, p, pick, Exec(u)) && KindOf(c.bp[u]) == If
    ensures |c.bp[u].next| < 2 ==> EndsTask(c, s, p, pick, Failed, BadBranching)
    ensures |c.bp[u].next| >= 2 && !pick.ok ==> EndsTask(c, s, p, pick, Failed, EvalFailed)
    ensures |c.bp[u].next| >= 2 && pick.ok ==> TargetEnds(c, s, p, pick, u, if pick.cond then 0 else 1)
    ensures Step(c, s, Turn(p, pick)).task == s.task
  {
    hide KindOf, Find, EndsTask, Step;
    StepOf(c, s, p, pick, Exec(u));
    var rest := s.procs[p][1..];
    if |c.bp[u].next| < 2 {
      FailEndsTask(c, s, p, pick, BadBranching, rest);
    } else if !pick.ok {
      FailEndsTask(c, s, p, pick, EvalFailed, rest);
    } else {
      BranchEnds(c, s, p, pick, u, if pick.cond then 0 else 1);
    }
  }

  lemma BranchEnds(c: Config, s: State, p: nat, pick: Pick, u: nat, k: nat)
    requires Enabled(c, s, Turn(p, pick)) && u < |c.bp| && k < |c.bp[u].next|
    requires
      var s2 := Step(c, s, Turn(p, pick));
      s2.task.status == Running && s2.procs[p] == Branch(c, u, k) + s.procs[p][1..]
    ensures TargetEnds(c, s, p, pick, u, k)
  {
    hide EndsTask, Step;
    var rest := s.procs[p][1..];
    if c.bp[u].next[k] == "" {
      CompleteEndsTask(c, s, p, pick, rest);
    } else if Find(c.bp, c.bp[u].next[k]).None? {
      FailEndsTask(c, s, p, pick, NextNotFound, rest);
    } else {
      var v := Find(c.bp, c.bp[u].next[k]).value;
      assert c.bp[v].id == c.bp[u].next[k];
    }
  }

  lemma LoopOutcomes(c: Config, s: State, p: nat, pick: Pick, u: nat)
    requires Runs(c, s, p, pick, Exec(u)) && KindOf(c.bp[u]) == Loop
    ensures |c.bp[u].next| < 2 ==> EndsTask(c, s, p, pick, Failed, BadBranching)
    ensures |c.bp[u].next| >= 2 ==>
      var iteration := Count(s.task.loopState, c.bp[u].id) + 1;
      match RuleOf(c.bp[u])
      case Fixed(n) => TargetEnds(c, s, p, pick, u, if iteration <= n then 0 else 1)
      case Conditional =>
        if iteration > 10000 then EndsTask(c, s, p, pick, Failed, LoopCapExceeded)
        else if !pick.ok then EndsTask(c, s, p, pick, Failed, EvalFailed)
        else TargetEnds(c, s, p, pick, u, if pick.cond then 0 else 1)
  {
    hide KindOf, Find, EndsTask, Step, RuleOf, Branch, Count, TargetEnds;
    StepOf(c, s, p, pick, Exec(u));
    var rest, iteration := s.procs[p][1..], Count(s.task.loopState, c.bp[u].id) + 1;
    if |c.bp[u].next| < 2 {
      FailEndsTask(c, s, p, pick, BadBranching, rest);
    } else if RuleOf(c.bp[u]).Fixed? {
      BranchEnds(c, s, p, pick, u, if iteration <= RuleOf(c.bp[u]).count then 0 else 1);
    } else if iteration > 10000 {
      FailEndsTask(c, s, p, pick, LoopCapExceeded, rest);
    } else if !pick.ok {
      FailEndsTask(c, s, p, pick, EvalFailed, rest);
    } else {
      BranchEnds(c, s, p, pick, u, if pick.cond then 0 else 1);
    }
  }

  // ---- INPUT, OUTPUT, JOIN, plugin and unknown nodes ---------------------------------------

  lemma BuiltinOutcomes(c: Config, s: State, p: nat, pick: Pick, u: nat)
    requires Runs(c, s, p, pick, Exec(u)) && KindOf(c.bp[u]) in {Input, Output, Unknown}
    ensures KindOf(c.bp[u]) == Unknown || !pick.ok ==> EndsTask(c, s, p, pick, Failed, BadBuiltin)
    ensures KindOf(c.bp[u]) != Unknown && pick.ok ==>
      var s2 := Step(c, s, Turn(p, pick));
      s2.task == s.task.(context := s.task.context + pick.output) && s2.procs[p] == [Fan(u)] + s.procs[p][1..]
  {
    hide KindOf, EndsTask, Step;
    StepOf(c, s, p, pick, Exec(u));
    if KindOf(c.bp[u]) == Unknown || !pick.ok {
      FailEndsTask(c, s, p, pick, BadBuiltin, s.procs[p][1..]);
    }
  }

  // A join with at most one incoming edge is passed without touching the record.
  lemma PassedJoin(c: Config, s: State, p: nat, pick: Pick, u: nat)
    requires Runs(c, s, p, pick, Exec(u)) && KindOf(c.bp[u]) == Join && InDegree(c.bp, c.bp[u].id) <= 1
    ensures
      var s2 := Step(c, s, Turn(p, pick));
      s2.task == s.task && s2.procs[p] == [Fan(u)] + s.procs[p][1..]
  {
    hide KindOf, Step, InDegree;
    StepOf(c, s, p, pick, Exec(u));
  }

  // The message goes out as a process of its own, or the branch fails the task.
  lemma PublishOutcomes(c: Config, s: State, p: nat, pick: Pick, u: nat)
    requires Runs(c, s, p, pick, Publish(u))
    ensures !pick.ok ==> EndsTask(c, s, p, pick, Failed, PublishFailed)
    ensures pick.ok ==>
      var s2 := Step(c, s, Turn(p, pick));
      s2.task == s.task && s2.procs == s.procs[p := s.procs[p][1..]] + [[Await(c.bp[u].id)]]
  {
    hide KindOf, EndsTask, Step;
    StepOf(c, s, p, pick, Publish(u));
    if !pick.ok {
      FailEndsTask(c, s, p, pick, PublishFailed, s.procs[p][1..]);
    } else {
      assert [] + s.procs[p][1..] == s.procs[p][1..];
    }
  }

  // ---- Edges -----------------------------------------------------------------------------------

  lemma FanOutcomes(c: Config, s: State, p: nat, pick: Pick, u: nat, k: nat)
    requires Runs(c, s, p, pick, Fan(u)) && k < |c.bp[u].next|
    requires forall v :: 0 <= v < |c.bp| ==> c.bp[v].id != c.bp[u].next[k]
    ensures EndsTask(c, s, p, pick, Failed, NextNotFound) && Step(c, s, Turn(p, pick)).task == s.task
  {
    hide KindOf, EndsTask, Step;
    StepOf(c, s, p, pick, Fan(u));
    assert !AllResolve(c.bp, u);
    FailEndsTask(c, s, p, pick, NextNotFound, s.procs[p][1..]);
  }

  // Walking an edge makes its target the current node and executes it next.
  lemma EdgeLeads(c: Config, s: State, p: nat, pick: Pick, u: nat, lo: nat, hi: nat) returns (v: nat)
    requires Runs(c, s, p, pick, Walk(u, lo, hi))
    ensures u < |c.bp| && lo < |c.bp[u].next| && v < |c.bp| && c.bp[v].id == c.bp[u].next[lo]
    ensures
      var s2 := Step(c, s, Turn(p, pick));
      && s2.task == s.task.(currentNode := c.bp[v].id)
      && s2.procs[p] == [Exec(v)] + (if lo + 1 < hi then [Walk(u, lo + 1, hi)] else []) + s.procs[p][1..]
  {
    hide KindOf, Step;
    StepOf(c, s, p, pick, Walk(u, lo, hi));
    v := Find(c.bp, c.bp[u].next[lo]).value;
  }

  // ---- Replies -----------------------------------------------------------------------------------

  // A reply to a running task: a failure ends it with the plugin's own reason; else the
  // node leaves the table, an invalid output ends the task, a valid one is merged.
  lemma RefusedReply(c: Config, s: State, p: nat, pick: Pick, id: string)
    requires Runs(c, s, p, pick, Await(id)) && !pick.ok
    ensures EndsTask(c, s, p, pick, Failed, Reported(pick.reason)) && Step(c, s, Turn(p, pick)).task == s.task
  {
    hide KindOf, EndsTask, Step, Find;
    StepOf(c, s, p, pick, Await(id));
    FailEndsTask(c, s, p, pick, Reported(pick.reason), s.procs[p][1..]);
  }

  lemma InvalidOutput(c: Config, s: State, p: nat, pick: Pick, id: string)
    requires Runs(c, s, p, pick, Recv(id)) && pick.hasOutput && !pick.outputValid
    ensures EndsTask(c, s, p, pick, Failed, BadOutput)
    ensures Step(c, s, Turn(p, pick)).task == s.task.(activeNodes := s.task.activeNodes - {id})
  {
    hide KindOf, EndsTask, Step, Find;
    StepOf(c, s, p, pick, Recv(id));
    FailEndsTask(c, s, p, pick, BadOutput, s.procs[p][1..]);
  }

  // Three steps of the replying process, whatever runs in between them: accepted, taken
  // back, merged. Here in a row.
  lemma AcceptedReply(c: Config, s: State, p: nat, a: Pick, b: Pick, d: Pick, id: string) returns (s2: State)
    requires Runs(c, s, p, a, Await(id)) && a.ok && b.hasOutput && b.outputValid && b.now > ZERO_TIME && d.now > ZERO_TIME
    ensures Run(c, s, [Turn(p, a), Turn(p, b), Turn(p, d)], s2)
    ensures s2.task == s.task.(context := s.task.context + d.output, activeNodes := s.task.activeNodes - {id})
    ensures p < |s2.procs| && s2.procs[p] == Resume(c, id) + s.procs[p][1..]
  {
    hide KindOf, Find, Resume;
    var rest := s.procs[p][1..];
    StepOf(c, s, p, a, Await(id));
    var s1 := Step(c, s, Turn(p, a));
    assert s1.procs[p][1..] == rest;
    StepOf(c, s1, p, b, Recv(id));
    var s3 := Step(c, s1, Turn(p, b));
    assert s3.procs[p][1..] == rest;
    StepOf(c, s3, p, d, Merge(id));
    s2 := Step(c, s3, Turn(p, d));
    assert [Turn(p, a), Turn(p, b), Turn(p, d)][1..] == [Turn(p, b), Turn(p, d)];
    assert [Turn(p, b), Turn(p, d)][1..] == [Turn(p, d)];
    assert [Turn(p, d)][1..] == [];
    assert Run(c, s2, [], s2);
    assert Run(c, s3, [Turn(p, d)], s2);
    assert Run(c, s1, [Turn(p, b), Turn(p, d)], s2);
  }

  // ---- Context and current node over whole runs ------------------------------------------------------

  // In any run the context holds, key by key, what the last merge of the key wrote, or
  // what the task was triggered with; the current node is the last one advanced to or
  // registered, or the entry.
  lemma ObservedFields(c: Config, context: map<string, string>, alarms: nat, ls: seq<Label>, s: State, key: string, i: nat)
    requires c.bp != [] && Run(c, Init(c, context, alarms), ls, s)
    ensures
      var ops := OpsOf(c, Init(c, context, alarms), ls);
      && (NeverWritten(ops, ContextKey(key)) ==>
            (key in s.task.context <==> key in context) && (key in context ==> s.task.context[key] == context[key]))
      && (LastWrite(ops, ContextKey(key), i) ==> key in s.task.context && s.task.context[key] == ops[i].output[key])
      && (NeverWritten(ops, CurrentNode) ==> s.task.currentNode == c.bp[0].id)
      && (LastWrite(ops, CurrentNode, i) ==> s.task.currentNode == ops[i].id)
  {
    hide Fold, OpsOf, LastWrite, NeverWritten, Run;
    var start := Init(c, context, alarms);
    RunIsHistory(c, start, ls, s, "");
    ContextHolds(OpsOf(c, start, ls), start.task, key, i);
    CurrentNodeHolds(OpsOf(c, start, ls), start.task, i);
  }

  // ---- The rest ---------------------------------------------------------------------------------------

  // A plugin node is registered with its deadline, unless that fails, and published next
  // either way.
  lemma PluginOutcomes(c: Config, s: State, p: nat, pick: Pick, u: nat)
    requires Runs(c, s, p, pick, Exec(u)) && KindOf(c.bp[u]) == Plugin
    ensures
      var s2, id, timeout := Step(c, s, Turn(p, pick)), c.bp[u].id, c.bp[u].timeoutMs;
      && s2.procs[p] == [Publish(u)] + s.procs[p][1..]
      && s2.task ==
           if pick.registered then
             s.task.(currentNode := id,
                     activeNodes := s.task.activeNodes[id := pick.now + (if timeout > 0 then timeout else 300000)])
           else s.task
  {
    hide KindOf, Step;
    StepOf(c, s, p, pick, Exec(u));
  }

  // The health check of a triggering plugin ends the task with the plugin's name.
  lemma PluginDownEnds(c: Config, s: State, next: Pick)
    requires Enabled(c, s, PluginDown) && next.now > ZERO_TIME
    ensures
      var s2 := Step(c, s, PluginDown);
      && s2.task == s.task && Enabled(c, s2, Turn(|s.procs|, next))
      && Step(c, s2, Turn(|s.procs|, next)).task == s.task.(status := Failed, failReason := PluginIsDown(c.trigger))
  {
  }

  // Without a trigger plugin nobody is called back.
  lemma {:induction false} NoTriggerNoCallback(c: Config, s: State, ls: seq<Label>, s2: State)
    requires Run(c, s, ls, s2) && c.trigger == ""
    ensures s2.callbacks == s.callbacks
    decreases |ls|
  {
    hide Fire;
    if ls != [] {
      if ls[0].Turn? {
        Terminal.EffectTerminal(c, s.task, s.procs[ls[0].p][0], ls[0].pick);
        assert s.callbacks + [] == s.callbacks;
      }
      NoTriggerNoCallback(c, Step(c, s, ls[0]), ls[1..], s2);
    }
  }

  // The capabilities of built-in nodes; every other plugin id is a plugin's.
  lemma BuiltinKinds(n: Node)
    ensures n.pluginId != "__builtin__" <==> KindOf(n) == Plugin
    ensures n.pluginId == "__builtin__" ==>
      && (n.capabilityId == "if" <==> KindOf(n) == If)
      && (n.capabilityId == "loop" <==> KindOf(n) == Loop)
      && (n.capabilityId == "input" <==> KindOf(n) == Input)
      && (n.capabilityId == "output" <==> KindOf(n) == Output)
      && (n.capabilityId == "join" <==> KindOf(n) == Join)
      && (n.capabilityId !in {"if", "loop", "input", "output", "join"} <==> KindOf(n) == Unknown)
  {
    assert "if"[0] != "loop"[0] && |"input"| == 5 && |"output"| == 6 && |"join"| == 4 && |"loop"| == 4 && |"if"| == 2;
    assert "join"[0] != "loop"[0];
  }
}
