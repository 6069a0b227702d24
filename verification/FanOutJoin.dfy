/**
 The shape of the fork/join theorem met by the blueprint of TestFanOutJoin_Completes:
 A fans out to B and C, which merge at J before D.
 */
module FanOutJoin {
  import opened Prelude
  import opened Blueprints
  import opened Engine
  import opened Termination
  import opened Flow
  import Handlers

  function Out(id: string, next: seq<string>): Node {
    Node(id, BUILTIN_PLUGIN_ID, "output", "result:manual", next, 0)
  }

  function Blueprint(): seq<Node> {
    [Out("A", ["B", "C"]), Out("B", ["J"]), Out("C", ["J"]),
     Node("J", BUILTIN_PLUGIN_ID, "join", "", ["D"], 0), Out("D", [])]
  }

  lemma Kinds()
    ensures forall u :: 0 <= u < 5 ==> KindOf(Blueprint()[u]) == if u == 3 then Join else Output
    ensures DistinctIds(Blueprint())
  {
    assert "output" != "if" && "output" != "loop" && "output" != "input";
    assert "join" != "if" && "join" != "loop" && "join" != "input" && "join" != "output";
    var ids := ["A", "B", "C", "J", "D"];
    assert forall u :: 0 <= u < 5 ==> Blueprint()[u].id == ids[u] && |ids[u]| == 1;
    assert forall u, v :: 0 <= u < v < 5 ==> ids[u][0] != ids[v][0];
  }

  // Where the edges lead.
  lemma Targets()
    ensures
      var bp := Blueprint();
      && Find(bp, "B") == Some(1) && Find(bp, "C") == Some(2)
      && Find(bp, "J") == Some(3) && Find(bp, "D") == Some(4)
  {
    hide KindOf;
    Kinds();
    var bp := Blueprint();
    FindOwnId(bp, 1);
    FindOwnId(bp, 2);
    FindOwnId(bp, 3);
    FindOwnId(bp, 4);
  }

  // Only J has more than one incoming edge.
  lemma Degrees(u: nat)
    requires u < 5 && u != 3
    ensures !Merging(Blueprint(), u)
  {
    hide KindOf;
    Kinds();
    var bp := Blueprint();
    var id := bp[u].id;
    assert forall v :: 0 <= v < 5 && v != u ==> bp[v].id != id;
    assert id != bp[3].id;
    assert EdgesInto(bp, id, 0, 1) == if u == 1 then 1 else 0;
    assert EdgesInto(bp, id, 0, 2) <= 1;
    assert EdgesInto(bp, id, 1, 1) == 0 && EdgesInto(bp, id, 2, 1) == 0;
    assert EdgesInto(bp, id, 3, 1) == if u == 4 then 1 else 0;
    assert EdgesInto(bp, id, 4, 0) == 0;
    assert InDegreeUpTo(bp, id, 1) == EdgesInto(bp, id, 0, 2);
    assert InDegreeUpTo(bp, id, 3) == InDegreeUpTo(bp, id, 1);
    assert InDegreeUpTo(bp, id, 5) == InDegreeUpTo(bp, id, 3) + EdgesInto(bp, id, 3, 1);
  }

  lemma Reached(u: nat)
    requires u < 5
    ensures ReachedFromEntry(Blueprint(), u)
  {
    var p := if u == 0 then [0] else if u <= 2 then [0, u] else if u == 3 then [0, 1, 3] else [0, 1, 3, 4];
    assert IsPath(Blueprint(), p);
  }

  lemma Ranked()
    ensures AcyclicWithoutBodies(Blueprint()) && forall u :: 0 <= u < 5 ==> AllResolve(Blueprint(), u)
  {
    hide KindOf, Find, InDegree;
    Kinds();
    Targets();
    assert Layered(Blueprint(), [3, 2, 2, 1, 0]);
  }

  lemma IsForkJoin()
    ensures ForkJoin(Blueprint()) && Handlers.BuiltinOnly(Blueprint())
  {
    hide KindOf, Find, InDegree, ReachedFromEntry, AllResolve, AcyclicWithoutBodies, DistinctIds, Merging;
    var bp := Blueprint();
    Kinds();
    Ranked();
    forall u | 0 <= u < |bp| && Merging(bp, u) ensures u == 3 {
      if u != 3 { Degrees(u); }
    }
    forall u: nat | u < |bp| ensures ReachedFromEntry(bp, u) {
      Reached(u);
    }
  }
}
