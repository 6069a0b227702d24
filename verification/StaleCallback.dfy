/**
 A callback that contradicts the record: the task completes, the read in sendCallback
 fails, and the trigger plugin is told task.completed with status running.
 */
module StaleCallback {
  import opened Prelude
  import opened Blueprints
  import opened TaskRecord
  import opened Engine
  import opened Flow
  import opened Schedules
  import Terminal

  // A single built-in leaf.
  function Blueprint(): seq<Node> {
    [Node("a", BUILTIN_PLUGIN_ID, "output", "result:manual", [], 0)]
  }

  lemma Steps(c: Config, t: Task)
    requires c.bp == Blueprint() && t.activeBranches == 1 && c.trigger != ""
    ensures WellFormed(c, Exec(0)) && Fire(c, t, Exec(0), Good()) == Commit(MergeContext(map[]), [Fan(0)])
    ensures WellFormed(c, Fan(0))
    ensures Fire(c, t, Fan(0), Good()) == Effect(Some(EndBranch), [Complete(0)], [], [], multiset{Emitted(0), LastBranch})
  {
    assert "output" != "if" && "output" != "loop" && "output" != "input";
  }

  lemma StaleRun(c: Config, context: map<string, string>) returns (ls: seq<Label>, s: State)
    requires c.bp == Blueprint() && c.trigger != ""
    ensures Run(c, Init(c, context, 0), ls, s) && Quiet(s)
    ensures s.task.status == Completed && s.trace[StaleCallback] == 1
    ensures s.callbacks == [Message(TaskCompleted, Running, NoReason)]
  {
    hide Fire, WellFormed, Run;
    var s0 := Init(c, context, 0);
    var unreadable := Good().(readable := false);
    ls, s := [], s0;
    Nothing(c, s0);
    Steps(c, s.task);
    ls, s := Move(c, s0, ls, s, 0, Exec(0), [], Good());
    assert s.procs == [[Fan(0)]];
    Steps(c, s.task);
    ls, s := Move(c, s0, ls, s, 0, Fan(0), [], Good());
    assert s.procs == [[Complete(0)]];
    Ends(c, s.task, unreadable);
    ls, s := Move(c, s0, ls, s, 0, Complete(0), [], unreadable);
    assert s.procs == [[Callback(TaskCompleted)]];
    Ends(c, s.task, unreadable);
    ls, s := Move(c, s0, ls, s, 0, Callback(TaskCompleted), [], unreadable);
    assert s.procs == [[]];
  }

  lemma Ends(c: Config, t: Task, pick: Pick)
    requires c.trigger != "" && !pick.readable
    ensures WellFormed(c, Complete(0)) && WellFormed(c, Callback(TaskCompleted))
    ensures t.status == Running ==>
      Fire(c, t, Complete(0), pick) == Commit(MarkTerminal(Completed, NoReason), [Callback(TaskCompleted)])
    ensures Fire(c, t, Callback(TaskCompleted), pick)
            == Effect(None, [], [], [Stale(TaskCompleted)], multiset{Deed.StaleCallback})
  {
  }
}
