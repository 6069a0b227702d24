/**
 Why the watchdog's exactness asks for one outstanding dispatch per node: a node named
 twice in one next list is dispatched twice, and the first reply removes the only
 deadline; the second message may then stay unanswered for ever.
 */
module DoubleDispatch {
  import opened Prelude
  import opened Blueprints
  import opened TaskRecord
  import opened Engine
  import opened Flow
  import opened Watchdog
  import opened Schedules

  // a -> p, p with p a plugin node.
  function Blueprint(): seq<Node> {
    [Node("a", BUILTIN_PLUGIN_ID, "output", "result:manual", ["p", "p"], 0), Node("p", "mailer", "send", "mail.send", [], 0)]
  }

  lemma Facts()
    ensures
      var bp := Blueprint();
      && KindOf(bp[0]) == Output && KindOf(bp[1]) == Plugin
      && Find(bp, "p") == Some(1) && AllResolve(bp, 0)
  {
    var bp := Blueprint();
    assert "output" != "if" && "output" != "loop" && "output" != "input";
    assert "mailer"[0] != BUILTIN_PLUGIN_ID[0];
    assert "a" != "p";
    assert FindFrom(bp, "p", 1) == Some(1);
  }

  // What each frame does, one after the other.
  lemma Fires(c: Config, t: Task)
    requires c.bp == Blueprint()
    ensures WellFormed(c, Exec(0)) && Fire(c, t, Exec(0), Good()) == Commit(MergeContext(map[]), [Fan(0)])
    ensures WellFormed(c, Fan(0))
    ensures Fire(c, t, Fan(0), Good()) == Effect(Some(AddBranches(1)), [Walk(0, 0, 2)], [], [], multiset{Emitted(0)})
    ensures WellFormed(c, Walk(0, 0, 2)) && WellFormed(c, Walk(0, 1, 2)) && WellFormed(c, Exec(1))
    ensures Fire(c, t, Walk(0, 0, 2), Good())
            == Effect(Some(AdvanceNode("p")), [Exec(1), Walk(0, 1, 2)], [], [], multiset{Crossed(0, 0)})
    ensures Fire(c, t, Walk(0, 1, 2), Good())
            == Effect(Some(AdvanceNode("p")), [Exec(1)], [], [], multiset{Crossed(0, 1)})
  {
    hide KindOf, Find;
    Facts();
    var bp := Blueprint();
    assert bp[0].next[0] == "p" && bp[0].next[1] == "p";
  }

  lemma Replies(c: Config, t: Task)
    requires c.bp == Blueprint()
    ensures WellFormed(c, Exec(1)) && WellFormed(c, Publish(1)) && WellFormed(c, Await("p")) && WellFormed(c, Recv("p"))
    ensures Fire(c, t, Exec(1), Good()) == Commit(AddActiveNode("p", 1 + DEFAULT_NODE_TIMEOUT_MS), [Publish(1)])
    ensures Fire(c, t, Publish(1), Good()) == Effect(None, [], [Await("p")], [], multiset{})
    ensures t.status == Running ==> Fire(c, t, Await("p"), Good()) == Local([Recv("p")])
    ensures Fire(c, t, Recv("p"), Good()) == Commit(RemoveActiveNode("p"), [Fan(1)])
    ensures WellFormed(c, Fan(1))
    ensures t.activeBranches == 2 ==> Fire(c, t, Fan(1), Good()) == Effect(Some(EndBranch), [], [], [], multiset{Emitted(1)})
  {
    hide KindOf, Find;
    Facts();
  }

  const DEADLINE := 1 + DEFAULT_NODE_TIMEOUT_MS

  lemma FirstDispatch(c: Config, context: map<string, string>, alarms: nat) returns (ls: seq<Label>, s: State)
    requires c.bp == Blueprint()
    ensures Run(c, Init(c, context, alarms), ls, s) && SmoothRun(ls)
    ensures s.procs == [[Walk(0, 1, 2)], [Await("p")]]
    ensures s.task.status == Running && s.task.activeBranches == 2 && s.task.activeNodes == map["p" := DEADLINE]
  {
    hide Fire, WellFormed, Run, SmoothRun, Step, Enabled, Good;
    var s0 := Init(c, context, alarms);
    ls, s := [], s0;
    Nothing(c, s0);
    Fires(c, s.task);
    ls, s := GoodMove(c, s0, ls, s, 0, Exec(0), []);
    assert s.procs == [[Fan(0)]];
    Fires(c, s.task);
    ls, s := GoodMove(c, s0, ls, s, 0, Fan(0), []);
    assert s.procs == [[Walk(0, 0, 2)]];
    Fires(c, s.task);
    ls, s := GoodMove(c, s0, ls, s, 0, Walk(0, 0, 2), []);
    assert s.procs == [[Exec(1), Walk(0, 1, 2)]];
    Replies(c, s.task);
    ls, s := GoodMove(c, s0, ls, s, 0, Exec(1), [Walk(0, 1, 2)]);
    assert [Publish(1)] + [Walk(0, 1, 2)] == [Publish(1), Walk(0, 1, 2)];
    assert s.procs == [[Publish(1), Walk(0, 1, 2)]];
    Replies(c, s.task);
    ls, s := GoodMove(c, s0, ls, s, 0, Publish(1), [Walk(0, 1, 2)]);
    assert s.procs == [[Walk(0, 1, 2)], [Await("p")]];
  }

  // Both edges are walked before any reply arrives.
  lemma TwoDispatches(c: Config, context: map<string, string>, alarms: nat) returns (ls: seq<Label>, s: State)
    requires c.bp == Blueprint()
    ensures Run(c, Init(c, context, alarms), ls, s) && SmoothRun(ls)
    ensures s.procs == [[], [Await("p")], [Await("p")]]
    ensures s.task.status == Running && s.task.activeBranches == 2 && s.task.activeNodes == map["p" := DEADLINE]
  {
    hide Fire, WellFormed, Run, SmoothRun, Step, Enabled, Good;
    var s0 := Init(c, context, alarms);
    ls, s := FirstDispatch(c, context, alarms);
    Fires(c, s.task);
    ls, s := GoodMove(c, s0, ls, s, 0, Walk(0, 1, 2), []);
    assert s.procs == [[Exec(1)], [Await("p")]];
    Replies(c, s.task);
    ls, s := GoodMove(c, s0, ls, s, 0, Exec(1), []);
    assert s.procs == [[Publish(1)], [Await("p")]];
    Replies(c, s.task);
    ls, s := GoodMove(c, s0, ls, s, 0, Publish(1), []);
    assert s.procs == [[], [Await("p")], [Await("p")]];
  }

  lemma FirstReply(c: Config, s: State) returns (ls: seq<Label>, s2: State)
    requires c.bp == Blueprint() && s.procs == [[], [Await("p")], [Await("p")]]
    requires s.task.status == Running && s.task.activeBranches == 2 && s.task.activeNodes == map["p" := DEADLINE]
    ensures Run(c, s, ls, s2) && SmoothRun(ls)
    ensures s2.procs == [[], [], [Await("p")]]
    ensures s2.task.status == Running && s2.task.activeBranches == 1 && s2.task.activeNodes == map[]
  {
    hide Fire, WellFormed, Run, SmoothRun, Step, Enabled, Good;
    ls, s2 := [], s;
    Nothing(c, s);
    Replies(c, s2.task);
    ls, s2 := GoodMove(c, s, ls, s2, 1, Await("p"), []);
    assert s2.procs == [[], [Recv("p")], [Await("p")]];
    Replies(c, s2.task);
    ls, s2 := GoodMove(c, s, ls, s2, 1, Recv("p"), []);
    assert s2.procs == [[], [Fan(1)], [Await("p")]];
    Replies(c, s2.task);
    ls, s2 := GoodMove(c, s, ls, s2, 1, Fan(1), []);
    assert s2.procs == [[], [], [Await("p")]];
  }

  // Unanswered messages to p are p's outstanding dispatches.
  lemma {:induction false} Waiting(c: Config, id: string, procs: seq<Stack>)
    requires forall k :: 0 <= k < |procs| ==> procs[k] == [] || procs[k] == [Await("p")]
    ensures procs == [] ==> Total(Outstanding(c, id), procs) == 0
    ensures procs != [] ==>
      Total(Outstanding(c, id), procs)
      == Total(Outstanding(c, id), procs[..|procs| - 1]) + (if procs[|procs| - 1] != [] && id == "p" then 1 else 0)
    ensures |procs| == 3 ==>
      Total(Outstanding(c, id), procs)
      == (if id == "p" then (if procs[0] != [] then 1 else 0) + (if procs[1] != [] then 1 else 0) + (if procs[2] != [] then 1 else 0) else 0)
  {
    if procs != [] {
      Waiting(c, id, procs[..|procs| - 1]);
      var last := procs[|procs| - 1];
      if last != [] {
        assert Sum(Outstanding(c, id), last) == Weigh(Outstanding(c, id), Await("p")) + Sum(Outstanding(c, id), []);
      }
      if |procs| == 3 {
        Waiting(c, id, procs[..2]);
        Waiting(c, id, procs[..1]);
        assert procs[..2][..1] == procs[..1] && procs[..1][..0] == [];
      }
    }
  }

  // A reachable state with two outstanding dispatches; after the first reply the task
  // runs, one message is unanswered, the table is empty, and no sweep at any time can
  // find it.
  lemma LostDeadline(c: Config, context: map<string, string>, alarms: nat)
    returns (before: seq<Label>, s: State, ls: seq<Label>, s2: State)
    requires c.bp == Blueprint()
    ensures Run(c, Init(c, context, alarms), before, s) && SmoothRun(before)
    ensures Dispatched(c, s, "p") == 2 && TableAgrees(c, s) && !OneEach(c, s)
    ensures Run(c, s, ls, s2) && SmoothRun(ls)
    ensures s2.task.status == Running && s2.task.activeBranches == Dispatched(c, s2, "p") == 1
    ensures s2.task.activeNodes == map[] && !TableAgrees(c, s2)
    ensures forall now :: !Enabled(c, s2, Sweep(now))
  {
    hide Fire, WellFormed, Run, SmoothRun, Step;
    before, s := TwoDispatches(c, context, alarms);
    forall id ensures Dispatched(c, s, id) == if id == "p" then 2 else 0 {
      Waiting(c, id, s.procs);
    }
    ls, s2 := FirstReply(c, s);
    Waiting(c, "p", s2.procs);
  }
}
