/**
 Acyclicity without a ranking: the termination results speak of blueprints that can
 be layered, and those are exactly the blueprints with no closed walk that avoids
 every LOOP body edge; for the recursion of a single handler, also every plugin node.
 */
module Acyclic {
  import opened Prelude
  import opened Blueprints
  import opened Termination
  import opened Engine

  // The edges that count: all but LOOP bodies, or besides only those a handler follows
  // without waiting for a reply.
  datatype Scope = AllEdges | WithinHandler

  ghost predicate Edge(bp: Blueprint, scope: Scope, u: nat, v: nat) {
    && u < |bp|
    && (exists k :: 0 <= k < |bp[u].next| && !IsBodyEdge(bp, u, k) && Find(bp, bp[u].next[k]) == Some(v))
    && (scope == WithinHandler ==> v < |bp| && KindOf(bp[v]) != Plugin)
  }

  ghost predicate Ranked(bp: Blueprint, scope: Scope, rank: seq<nat>) {
    match scope case AllEdges => Layered(bp, rank) case WithinHandler => Shallow(bp, rank)
  }

  ghost predicate IsWalk(bp: Blueprint, scope: Scope, p: seq<nat>) {
    && (forall i :: 0 <= i < |p| ==> p[i] < |bp|)
    && (forall i :: 0 <= i < |p| - 1 ==> Linked(bp, scope, p, i))
  }

  ghost predicate Linked(bp: Blueprint, scope: Scope, p: seq<nat>, i: nat)
    requires i + 1 < |p|
  {
    Edge(bp, scope, p[i], p[i + 1])
  }

  // Some edge leads from u to a node of s.
  ghost predicate Leads(bp: Blueprint, scope: Scope, s: set<nat>, u: nat) {
    exists v :: v in s && Edge(bp, scope, u, v)
  }

  ghost predicate IsClosed(bp: Blueprint, scope: Scope, p: seq<nat>) {
    |p| > 1 && IsWalk(bp, scope, p) && p[0] == p[|p| - 1]
  }

  ghost predicate HasCycle(bp: Blueprint, scope: Scope) {
    exists p: seq<nat> :: IsClosed(bp, scope, p)
  }

  ghost function Below(n: nat): (s: set<nat>)
    ensures forall u: nat :: u in s <==> u < n
  {
    if n == 0 then {} else Below(n - 1) + {n - 1}
  }

  lemma RankedIffNoCycle(bp: Blueprint, scope: Scope)
    ensures (exists rank: seq<nat> :: Ranked(bp, scope, rank)) <==> !HasCycle(bp, scope)
  {
    if rank: seq<nat> :| Ranked(bp, scope, rank) {
      if HasCycle(bp, scope) {
        var p: seq<nat> :| IsClosed(bp, scope, p);
        WalkDescends(bp, scope, rank, p, |p| - 1);
        assert false;
      }
    }
    if !HasCycle(bp, scope) {
      var rank := Layering(bp, scope, Below(|bp|));
      forall u, k | 0 <= u < |bp| && 0 <= k < |bp[u].next| && !IsBodyEdge(bp, u, k)
        ensures scope == AllEdges ==> Downhill(bp, rank, u, k)
        ensures scope == WithinHandler ==> Lower(bp, rank, u, k)
      {
        var v := Find(bp, bp[u].next[k]);
        if v.Some? && (scope == AllEdges || KindOf(bp[v.value]) != Plugin) {
          assert Edge(bp, scope, u, v.value);
        }
      }
      assert Ranked(bp, scope, rank);
    }
  }

  // What the termination of all runs asks of a blueprint ...
  lemma LayeredIffNoCycle(bp: Blueprint)
    ensures AcyclicWithoutBodies(bp) <==> !HasCycle(bp, AllEdges)
  {
    RankedIffNoCycle(bp, AllEdges);
    if rank: seq<nat> :| Layered(bp, rank) { assert Ranked(bp, AllEdges, rank); }
  }

  // ... and what that of one handler's recursion does.
  lemma ShallowIffNoCycle(bp: Blueprint)
    ensures (exists rank: seq<nat> :: Shallow(bp, rank)) <==> !HasCycle(bp, WithinHandler)
  {
    RankedIffNoCycle(bp, WithinHandler);
    if rank: seq<nat> :| Shallow(bp, rank) { assert Ranked(bp, WithinHandler, rank); }
  }

  lemma {:induction false} WalkDescends(bp: Blueprint, scope: Scope, rank: seq<nat>, p: seq<nat>, n: nat)
    requires Ranked(bp, scope, rank) && IsWalk(bp, scope, p) && n < |p|
    ensures n > 0 ==> rank[p[n]] < rank[p[0]]
  {
    if n > 0 {
      WalkDescends(bp, scope, rank, p, n - 1);
      assert Linked(bp, scope, p, n - 1);
      var k :| 0 <= k < |bp[p[n - 1]].next| && !IsBodyEdge(bp, p[n - 1], k)
               && Find(bp, bp[p[n - 1]].next[k]) == Some(p[n]);
      assert if scope == AllEdges then Downhill(bp, rank, p[n - 1], k) else Lower(bp, rank, p[n - 1], k);
    }
  }

  // A ranking of the nodes in s: a sink goes to the bottom, the others above it.
  lemma {:induction false} Layering(bp: Blueprint, scope: Scope, s: set<nat>) returns (rank: seq<nat>)
    requires !HasCycle(bp, scope) && forall u :: u in s ==> u < |bp|
    ensures |rank| == |bp|
    ensures forall u, v :: u in s && v in s && Edge(bp, scope, u, v) ==> rank[v] < rank[u]
    decreases |s|
  {
    hide Edge;
    if s == {} {
      rank := seq(|bp|, _ => 0);
    } else {
      var sink := Sink(bp, scope, s);
      var above := Layering(bp, scope, s - {sink});
      rank := seq(|bp|, u requires 0 <= u < |above| => if u == sink then 0 else above[u] + 1);
    }
  }

  // A non-empty set of nodes of an acyclic blueprint has a node no edge leaves within it.
  lemma Sink(bp: Blueprint, scope: Scope, s: set<nat>) returns (sink: nat)
    requires !HasCycle(bp, scope) && s != {} && forall u :: u in s ==> u < |bp|
    ensures sink in s && forall v :: v in s ==> !Edge(bp, scope, sink, v)
  {
    hide Edge;
    if forall u :: u in s ==> Leads(bp, scope, s, u) {
      var p := LongWalk(bp, scope, s, |s|);
      var i, j := Repeats(p, s);
      Returns(bp, scope, p, i, j);
      assert false;
    }
    sink :| sink in s && !Leads(bp, scope, s, sink);
  }

  // A walk that meets a node again holds a closed walk.
  lemma Returns(bp: Blueprint, scope: Scope, p: seq<nat>, i: nat, j: nat)
    requires IsWalk(bp, scope, p) && i < j < |p| && p[i] == p[j]
    ensures HasCycle(bp, scope)
  {
    hide Edge;
    var q := p[i..j + 1];
    forall k | 0 <= k < |q| - 1 ensures Linked(bp, scope, q, k) {
      assert Linked(bp, scope, p, i + k);
    }
    assert IsClosed(bp, scope, q);
  }

  lemma Extends(bp: Blueprint, scope: Scope, q: seq<nat>, v: nat)
    requires q != [] && IsWalk(bp, scope, q) && v < |bp| && Edge(bp, scope, q[|q| - 1], v)
    ensures IsWalk(bp, scope, q + [v])
  {
    hide Edge;
    var p := q + [v];
    forall i | 0 <= i < |p| - 1 ensures Linked(bp, scope, p, i) {
      assert i < |q| - 1 ==> Linked(bp, scope, q, i);
    }
  }

  lemma {:induction false} LongWalk(bp: Blueprint, scope: Scope, s: set<nat>, n: nat) returns (p: seq<nat>)
    requires s != {} && forall u :: u in s ==> u < |bp| && Leads(bp, scope, s, u)
    ensures |p| == n + 1 && IsWalk(bp, scope, p) && forall i :: 0 <= i < |p| ==> p[i] in s
  {
    hide Edge;
    if n == 0 {
      var u :| u in s;
      p := [u];
    } else {
      var q := LongWalk(bp, scope, s, n - 1);
      var v :| v in s && Edge(bp, scope, q[n - 1], v);
      Extends(bp, scope, q, v);
      p := q + [v];
    }
  }

  // More places than values: some value occurs twice.
  lemma {:induction false} Repeats(p: seq<nat>, s: set<nat>) returns (i: nat, j: nat)
    requires |p| > |s| && forall k :: 0 <= k < |p| ==> p[k] in s
    ensures i < j < |p| && p[i] == p[j]
    decreases |p|
  {
    var last := |p| - 1;
    if k :| 0 <= k < last && p[k] == p[last] {
      i, j := k, last;
    } else {
      i, j := Repeats(p[..last], s - {p[last]});
    }
  }

  // Termination without a ranking: if every closed walk takes some LOOP body edge, no
  // run from the start of a task goes on for ever.
  lemma RunsEndWithoutCycle(c: Config, context: map<string, string>, alarms: nat, states: nat -> State, labels: nat -> Label)
    requires c.bp != [] && DistinctIds(c.bp) && !HasCycle(c.bp, AllEdges)
    requires states(0) == Init(c, context, alarms)
    ensures exists i: nat :: !StepAt(c, states, labels, i)
  {
    LayeredIffNoCycle(c.bp);
    EveryRunEnds(c, context, alarms, states, labels);
  }
}
