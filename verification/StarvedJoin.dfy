/**
 Why completion asks for every node to be reachable: countInEdges counts static
 edges, so a join fed by a node that never runs waits for ever, and absorbing the
 last live branch does not complete the task.
 */
module StarvedJoin {
  import opened Prelude
  import opened Blueprints
  import opened TaskRecord
  import opened Engine
  import opened Termination
  import opened Flow
  import opened Firing
  import opened Completion
  import opened Schedules
  import Stranding

  function Builtin(id: string, capability: string, next: seq<string>): Node {
    Node(id, BUILTIN_PLUGIN_ID, capability, "", next, 0)
  }

  // a -> j <- b, started at a: b is never executed.
  function Blueprint(): seq<Node> {
    [Builtin("a", "output", ["j"]), Builtin("b", "output", ["j"]), Builtin("j", "join", [])]
  }

  lemma Facts()
    ensures
      var bp := Blueprint();
      && KindOf(bp[0]) == Output && KindOf(bp[2]) == Join
      && Find(bp, "j") == Some(2) && AllResolve(bp, 0) && InDegree(bp, "j") == 2
  {
    var bp := Blueprint();
    assert "a" != "j" && "b" != "j";
    assert FindFrom(bp, "j", 2) == Some(2);
    assert FindFrom(bp, "j", 1) == Some(2);
    assert Find(bp, "j") == Some(2);
    assert forall k :: 0 <= k < |bp[0].next| ==> bp[0].next[k] == "j";
    assert EdgesInto(bp, "j", 0, 1) == 1 && EdgesInto(bp, "j", 1, 1) == 1 && EdgesInto(bp, "j", 2, 0) == 0;
    assert InDegreeUpTo(bp, "j", 1) == 1 && InDegreeUpTo(bp, "j", 2) == 2;
    assert InDegree(bp, "j") == 2;
    assert "output" != "if" && "output" != "loop" && "output" != "input";
    assert "join" != "if" && "join" != "loop" && "join" != "input" && "join" != "output";
  }

  lemma Turns(c: Config, t: Task)
    requires c.bp == Blueprint() && Count(t.joinState, "j") == 0
    ensures WellFormed(c, Exec(0)) && WellFormed(c, Exec(2))
    ensures Fire(c, t, Exec(0), Good()) == Commit(MergeContext(map[]), [Fan(0)])
    ensures WellFormed(c, Fan(0)) && Fire(c, t, Fan(0), Good()) == Effect(None, [Walk(0, 0, 1)], [], [], multiset{Emitted(0)})
    ensures WellFormed(c, Walk(0, 0, 1))
    ensures Fire(c, t, Walk(0, 0, 1), Good()) == Effect(Some(AdvanceNode("j")), [Exec(2)], [], [], multiset{Crossed(0, 0)})
    ensures Fire(c, t, Exec(2), Good()) == Commit(ArriveAtJoin("j", 2), [])
  {
    hide KindOf, Find, InDegree, AllResolve;
    Facts();
  }

  // A maximal failure-free run that leaves the task running for ever, with no
  // branch live and one arrival stuck at the join.
  lemma JoinStarves(trigger: string, context: map<string, string>)
    ensures
      var c := Config(Blueprint(), trigger);
      exists ls, s :: Run(c, Init(c, context, 0), ls, s) && SmoothRun(ls) && Maximal(c, s)
                      && s.task.status == Running && s.task.activeBranches == 0
                      && Count(s.task.joinState, "j") == 1
  {
    hide Fire, WellFormed, Run, SmoothRun, Maximal;
    var c := Config(Blueprint(), trigger);
    var s0 := Init(c, context, 0);
    var ls, s := [], s0;
    Nothing(c, s0);
    Turns(c, s.task);
    ls, s := GoodMove(c, s0, ls, s, 0, Exec(0), []);
    assert s.procs == [[Fan(0)]];
    Turns(c, s.task);
    ls, s := GoodMove(c, s0, ls, s, 0, Fan(0), []);
    assert s.procs == [[Walk(0, 0, 1)]];
    Turns(c, s.task);
    ls, s := GoodMove(c, s0, ls, s, 0, Walk(0, 0, 1), []);
    assert s.procs == [[Exec(2)]];
    Turns(c, s.task);
    ls, s := GoodMove(c, s0, ls, s, 0, Exec(2), []);
    assert s.procs == [[]];
    NothingEnabled(c, s);
  }

  lemma NothingEnabled(c: Config, s: State)
    requires Quiet(s)
    ensures Maximal(c, s)
  {
  }

  // ---- The order of the edges decides ------------------------------------------------------------

  // a fans out to the starved join j and to the leaf d, in this order or the other;
  // b, which also leads to j, is unreachable.
  function Split(joinFirst: bool): seq<Node> {
    [Builtin("a", "output", if joinFirst then ["j", "d"] else ["d", "j"]), Builtin("b", "output", ["j"]),
     Builtin("j", "join", []), Builtin("d", "output", [])]
  }

  lemma SplitKinds(first: bool)
    ensures
      var bp := Split(first);
      && (forall u :: 0 <= u < 4 ==> KindOf(bp[u]) == if u == 2 then Join else Output)
      && DistinctIds(bp)
  {
    assert "output" != "if" && "output" != "loop" && "output" != "input";
    assert "join" != "if" && "join" != "loop" && "join" != "input" && "join" != "output";
    var ids := ["a", "b", "j", "d"];
    assert forall u :: 0 <= u < 4 ==> Split(first)[u].id == ids[u] && |ids[u]| == 1;
    assert forall u, v :: 0 <= u < v < 4 ==> ids[u][0] != ids[v][0];
  }

  lemma SplitDegrees(first: bool, u: nat)
    requires u < 4
    ensures Merging(Split(first), u) <==> u == 2
  {
    hide KindOf;
    SplitKinds(first);
    var bp := Split(first);
    var id := bp[u].id;
    assert id == "j" <==> u == 2;
    assert id == "d" <==> u == 3;
    assert EdgesInto(bp, id, 0, 1) + EdgesInto(bp, id, 1, 0) == if id == bp[0].next[0] then 1 else 0;
    assert EdgesInto(bp, id, 0, 2) == if u >= 2 then 1 else 0;
    assert EdgesInto(bp, id, 1, 1) == if u == 2 then 1 else 0;
    assert EdgesInto(bp, id, 2, 0) == 0 && EdgesInto(bp, id, 3, 0) == 0;
    assert InDegreeUpTo(bp, id, 1) == EdgesInto(bp, id, 0, 2);
    assert InDegreeUpTo(bp, id, 2) == EdgesInto(bp, id, 0, 2) + EdgesInto(bp, id, 1, 1);
    assert InDegreeUpTo(bp, id, 4) == InDegreeUpTo(bp, id, 2);
  }

  lemma SplitPlain(first: bool)
    ensures Plain(Split(first)) && Find(Split(first), "j") == Some(2) && Find(Split(first), "d") == Some(3)
  {
    hide KindOf, Merging, Find;
    var bp := Split(first);
    SplitKinds(first);
    FindOwnId(bp, 2);
    FindOwnId(bp, 3);
    forall u | 0 <= u < |bp| && Merging(bp, u) ensures u == 2 {
      SplitDegrees(first, u);
    }
    assert Layered(bp, [1, 1, 0, 0]);
  }

  lemma SplitFires(first: bool)
    ensures Plain(Split(first)) && FiringOf(Split(first)) == {0, 3}
  {
    hide KindOf, Merging, Find, PlainNodes;
    var bp := Split(first);
    var fed: set<nat> := {0, 3};
    SplitPlain(first);
    SplitKinds(first);
    forall u: nat | u < |bp| ensures u in fed <==> Fires(bp, fed, u) {
      SplitDegrees(first, u);
      var k := if first then 1 else 0;
      assert Feeds(bp, 0, k, 3);
      assert Feeds(bp, 1, 0, 2);
    }
    assert FiringSet(bp, fed);
    FiringSetExists(bp);
  }

  lemma LastTargets(first: bool)
    ensures forall u: nat, v: nat :: TailStep(Split(first), {0, 3}, u, v) <==> u == 0 && v == if first then 3 else 2
  {
    hide KindOf, Find;
    SplitPlain(first);
  }

  lemma SplitStrands(first: bool)
    ensures Strands(Split(first), {0, 3}) <==> !first
  {
    hide KindOf, Merging, Find, TailStep;
    var bp := Split(first);
    var fed: set<nat> := {0, 3};
    SplitKinds(first);
    SplitDegrees(first, 2);
    LastTargets(first);
    if first {
      if v: nat :| v < |bp| && Trails(bp, fed, v) && Merging(bp, v) && v !in fed {
        SplitDegrees(first, v);
        var u := TrailsBack(bp, fed, v);
      }
    } else {
      TrailsPlugin(bp, fed, 0);
      TrailsOn(bp, fed, 0, 2);
    }
  }

  lemma SplitReached(first: bool)
    ensures
      var bp := Split(first);
      && ReachedFromEntry(bp, 2) && !ReachedFromEntry(bp, 1) && Feeds(bp, 1, 0, 2) && Merging(bp, 2)
      && !Stranding.Unmixed(bp)
  {
    hide KindOf;
    SplitKinds(first);
    SplitDegrees(first, 2);
    var bp := Split(first);
    assert bp[0].next[if first then 0 else 1] == "j";
    assert IsPath(bp, [0, 2]);
    NothingFeedsB(first);
    if ReachedFromEntry(bp, 1) {
      var v, k := Stranding.ReachedThrough(bp, 1);
    }
  }

  lemma NothingFeedsB(first: bool)
    ensures forall v: nat, k: nat :: !Feeds(Split(first), v, k, 1)
  {
    assert "b" != "j" && "b" != "d";
  }

  // With the join first every run completes, although an edge leads from an
  // unreachable node into the reachable join: within one handler the leaf comes last.
  // With the join last some run leaves the task running for ever.
  lemma EdgeOrderDecides(first: bool, trigger: string, context: map<string, string>)
    ensures
      var c := Config(Split(first), trigger);
      (forall ls, s :: Run(c, Init(c, context, 0), ls, s) && SmoothRun(ls) && Maximal(c, s) ==>
         s.task.status == Completed)
      <==> first
    ensures !Stranding.Unmixed(Split(first))
  {
    hide Split, KindOf, Merging, PlainNodes, Feeds, Run, SmoothRun, Maximal, FiringSet, Strands, ReachedFromEntry;
    var c := Config(Split(first), trigger);
    SplitFires(first);
    SplitStrands(first);
    SplitReached(first);
    Stranding.CompletionCondition(c, context, 0);
  }
}
