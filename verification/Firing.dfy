/**
 Which nodes of an acyclic fan-out/join blueprint ever fire. The in-degree a join
 waits for is static, so a join fires only if every edge into it comes from a node
 that fires; any other node fires if some edge into it does.
 */
module Firing {
  import opened Prelude
  import opened Blueprints
  import opened TaskRecord
  import opened Engine
  import opened Conservation
  import opened Termination
  import opened Flow

  // Acyclic, without IF and LOOP, every node of in-degree above 1 a JOIN; nodes may be
  // unreachable.
  ghost predicate Plain(bp: Blueprint) {
    bp != [] && PlainNodes(bp) && AcyclicWithoutBodies(bp)
  }

  // Edge k of node v leads to node u.
  predicate Feeds(bp: Blueprint, v: nat, k: nat, u: nat)
    requires u < |bp|
  {
    v < |bp| && k < |bp[v].next| && bp[v].next[k] == bp[u].id
  }

  ghost predicate Fires(bp: Blueprint, fed: set<nat>, u: nat)
    requires u < |bp|
  {
    if Merging(bp, u) then forall v: nat, k: nat :: Feeds(bp, v, k, u) ==> v in fed
    else u == 0 || exists v: nat, k: nat :: Feeds(bp, v, k, u) && v in fed
  }

  // fed is the set of nodes that fire.
  ghost predicate FiringSet(bp: Blueprint, fed: set<nat>) {
    && (forall u :: u in fed ==> u < |bp|)
    && (forall u: nat :: u < |bp| ==> (u in fed <==> Fires(bp, fed, u)))
  }

  // ---- Graph facts ----------------------------------------------------------------------

  lemma ForkJoinIsPlain(bp: Blueprint)
    requires ForkJoin(bp)
    ensures PlainNodes(bp)
  {
  }

  // Without LOOP nodes every edge leads downhill.
  lemma AllDownhill(bp: Blueprint, rank: seq<nat>, u: nat, k: nat)
    requires PlainNodes(bp) && Layered(bp, rank) && u < |bp| && k < |bp[u].next|
    ensures Find(bp, bp[u].next[k]).Some? && rank[Find(bp, bp[u].next[k]).value] < rank[u]
  {
    hide KindOf, Find;
    assert AllResolve(bp, u);
    assert !IsBodyEdge(bp, u, k);
    assert Downhill(bp, rank, u, k);
  }

  lemma {:induction false} PathDescends(bp: Blueprint, rank: seq<nat>, p: seq<nat>)
    requires PlainNodes(bp) && Layered(bp, rank) && p != [] && IsPath(bp, p)
    ensures |p| > 1 ==> rank[p[|p| - 1]] < rank[p[0]]
  {
    hide KindOf, Find, AllResolve;
    if |p| > 1 {
      var q := p[..|p| - 1];
      PathDescends(bp, rank, q);
      var u, v := p[|p| - 2], p[|p| - 1];
      assert bp[p[|p| - 1]].id in bp[p[|p| - 1 - 1]].next;
      var k :| 0 <= k < |bp[u].next| && bp[u].next[k] == bp[v].id;
      AllDownhill(bp, rank, u, k);
      FindOwnId(bp, v);
    }
  }

  lemma {:induction false} HasEdge(bp: Blueprint, id: string, u: nat, k: nat, n: nat)
    requires u < n <= |bp| && k < |bp[u].next| && bp[u].next[k] == id
    ensures InDegreeUpTo(bp, id, n) >= 1
  {
    if u < n - 1 {
      HasEdge(bp, id, u, k, n - 1);
    } else {
      HasEdgeFrom(bp, id, u, k, |bp[u].next|);
    }
  }

  lemma {:induction false} HasEdgeFrom(bp: Blueprint, id: string, u: nat, k: nat, n: nat)
    requires u < |bp| && k < n <= |bp[u].next| && bp[u].next[k] == id
    ensures EdgesInto(bp, id, u, n) >= 1
  {
    if k < n - 1 {
      HasEdgeFrom(bp, id, u, k, n - 1);
    }
  }

  lemma {:induction false} SomeEdge(bp: Blueprint, id: string, n: nat) returns (u: nat, k: nat)
    requires n <= |bp| && InDegreeUpTo(bp, id, n) >= 1
    ensures u < |bp| && k < |bp[u].next| && bp[u].next[k] == id
  {
    if EdgesInto(bp, id, n - 1, |bp[n - 1].next|) >= 1 {
      u := n - 1;
      k := SomeEdgeFrom(bp, id, u, |bp[u].next|);
    } else {
      u, k := SomeEdge(bp, id, n - 1);
    }
  }

  lemma {:induction false} SomeEdgeFrom(bp: Blueprint, id: string, u: nat, n: nat) returns (k: nat)
    requires u < |bp| && n <= |bp[u].next| && EdgesInto(bp, id, u, n) >= 1
    ensures k < |bp[u].next| && bp[u].next[k] == id
  {
    if bp[u].next[n - 1] == id { k := n - 1; } else { k := SomeEdgeFrom(bp, id, u, n - 1); }
  }

  // The entry is the only node without an incoming edge.
  lemma EntryDegree(bp: Blueprint, u: nat)
    requires ForkJoin(bp) && u < |bp|
    ensures InDegree(bp, bp[u].id) == 0 <==> u == 0
  {
    hide KindOf, Find, AllResolve;
    ForkJoinIsPlain(bp);
    var rank :| Layered(bp, rank);
    if u == 0 && InDegree(bp, bp[u].id) >= 1 {
      var v, k := SomeEdge(bp, bp[u].id, |bp|);
      AllDownhill(bp, rank, v, k);
      FindOwnId(bp, u);
      assert ReachedFromEntry(bp, v);
      var p: seq<nat> :| p != [] && p[0] == 0 && p[|p| - 1] == v && IsPath(bp, p);
      PathDescends(bp, rank, p);
      assert false;
    }
    if u != 0 {
      assert ReachedFromEntry(bp, u);
      var p: seq<nat> :| p != [] && p[0] == 0 && p[|p| - 1] == u && IsPath(bp, p);
      assert bp[p[|p| - 1]].id in bp[p[|p| - 1 - 1]].next;
      var v := p[|p| - 2];
      var k :| 0 <= k < |bp[v].next| && bp[v].next[k] == bp[u].id;
      HasEdge(bp, bp[u].id, v, k, |bp|);
    }
  }

  // ---- The firing set ----------------------------------------------------------------------

  lemma FeederAbove(bp: Blueprint, rank: seq<nat>, v: nat, k: nat, u: nat)
    requires PlainNodes(bp) && Layered(bp, rank) && u < |bp| && Feeds(bp, v, k, u)
    ensures rank[u] < rank[v]
  {
    AllDownhill(bp, rank, v, k);
    FindOwnId(bp, u);
  }

  // From the top layer down to those above a rank.
  ghost predicate FiresAbove(bp: Blueprint, rank: seq<nat>, fed: set<nat>, r: int)
    requires |rank| == |bp|
  {
    && (forall u :: u in fed ==> u < |bp| && rank[u] > r)
    && (forall u: nat :: u < |bp| && rank[u] > r ==> (u in fed <==> Fires(bp, fed, u)))
  }

  lemma {:induction false} LayerByLayer(bp: Blueprint, rank: seq<nat>, r: int, top: nat) returns (fed: set<nat>)
    requires PlainNodes(bp) && Layered(bp, rank) && -1 <= r <= top
    requires forall v :: 0 <= v < |rank| ==> rank[v] <= top
    ensures FiresAbove(bp, rank, fed, r)
    decreases top - r
  {
    hide PlainNodes, Merging, Feeds;
    if r == top {
      fed := {};
    } else {
      var above := LayerByLayer(bp, rank, r + 1, top);
      fed := above + set u | 0 <= u < |bp| && rank[u] == r + 1 && Fires(bp, above, u);
      forall u: nat | u < |bp| && rank[u] > r ensures u in fed <==> Fires(bp, fed, u) {
        SameFeeders(bp, rank, above, fed, u);
      }
    }
  }

  // Whether a node fires depends on higher nodes only.
  lemma SameFeeders(bp: Blueprint, rank: seq<nat>, a: set<nat>, b: set<nat>, u: nat)
    requires PlainNodes(bp) && Layered(bp, rank) && u < |bp|
    requires forall v: nat :: v < |bp| && rank[v] > rank[u] ==> (v in a <==> v in b)
    ensures Fires(bp, a, u) <==> Fires(bp, b, u)
  {
    hide PlainNodes, Merging;
    forall v: nat, k: nat | Feeds(bp, v, k, u) ensures v in a <==> v in b {
      FeederAbove(bp, rank, v, k, u);
    }
  }

  lemma {:induction false} OneFiringSet(bp: Blueprint, rank: seq<nat>, a: set<nat>, b: set<nat>, u: nat, top: nat)
    requires PlainNodes(bp) && Layered(bp, rank) && FiringSet(bp, a) && FiringSet(bp, b) && u < |bp|
    requires forall v :: 0 <= v < |rank| ==> rank[v] <= top
    ensures u in a <==> u in b
    decreases top - rank[u]
  {
    hide PlainNodes, Fires;
    forall v: nat | v < |bp| && rank[v] > rank[u] ensures v in a <==> v in b {
      OneFiringSet(bp, rank, a, b, v, top);
    }
    SameFeeders(bp, rank, a, b, u);
  }

  // There is exactly one such set.
  lemma FiringSetExists(bp: Blueprint)
    requires Plain(bp)
    ensures exists fed :: FiringSet(bp, fed)
    ensures forall a, b :: FiringSet(bp, a) && FiringSet(bp, b) ==> a == b
  {
    hide PlainNodes, Fires;
    var rank :| Layered(bp, rank);
    var fed := LayerByLayer(bp, rank, -1, Top(rank));
    assert FiringSet(bp, fed);
    forall a, b | FiringSet(bp, a) && FiringSet(bp, b) ensures a == b {
      forall u: nat ensures u in a <==> u in b {
        if u < |bp| { OneFiringSet(bp, rank, a, b, u, Top(rank)); }
      }
    }
  }

  ghost function FiringOf(bp: Blueprint): (fed: set<nat>)
    requires Plain(bp)
    ensures FiringSet(bp, fed)
  {
    FiringSetExists(bp);
    var fed :| FiringSet(bp, fed);
    fed
  }

  lemma OneRelease(m: nat, released: nat, arrived: int)
    requires m >= 2 && 0 <= arrived < m && m == arrived + m * released
    ensures released == 1 && arrived == 0
  {
    assert released >= 1 ==> m * released == m + m * (released - 1);
  }

  function Top(rank: seq<nat>): (top: nat)
    ensures forall v :: 0 <= v < |rank| ==> rank[v] <= top
  {
    if rank == [] then 0
    else
      var rest := Top(rank[1..]);
      assert forall v :: 0 < v < |rank| ==> rank[v] == rank[1..][v - 1];
      if rank[0] > rest then rank[0] else rest
  }


  // A firing node lies at or below the entry.
  lemma {:induction false} BelowEntry(bp: Blueprint, rank: seq<nat>, fed: set<nat>, u: nat, top: nat)
    requires PlainNodes(bp) && Layered(bp, rank) && FiringSet(bp, fed) && u in fed
    requires forall v :: 0 <= v < |rank| ==> rank[v] <= top
    ensures rank[u] <= rank[0]
    decreases top - rank[u]
  {
    hide PlainNodes, InDegree;
    if u != 0 {
      var v, k := Feeder(bp, fed, u);
      FeederAbove(bp, rank, v, k, u);
      BelowEntry(bp, rank, fed, v, top);
    }
  }

  lemma Feeder(bp: Blueprint, fed: set<nat>, u: nat) returns (v: nat, k: nat)
    requires FiringSet(bp, fed) && u in fed && u != 0
    ensures Feeds(bp, v, k, u) && v in fed
  {
    hide InDegree;
    assert Fires(bp, fed, u);
    if Merging(bp, u) {
      v, k := SomeFeeder(bp, u);
    } else {
      v, k :| Feeds(bp, v, k, u) && v in fed;
    }
  }

  lemma SomeFeeder(bp: Blueprint, u: nat) returns (v: nat, k: nat)
    requires u < |bp| && InDegree(bp, bp[u].id) >= 1
    ensures Feeds(bp, v, k, u)
  {
    v, k := SomeEdge(bp, bp[u].id, |bp|);
  }

  // No firing node feeds the entry.
  lemma EntryUnfed(bp: Blueprint, rank: seq<nat>, fed: set<nat>, v: nat, k: nat)
    requires bp != [] && PlainNodes(bp) && Layered(bp, rank) && FiringSet(bp, fed) && Feeds(bp, v, k, 0)
    ensures v !in fed
  {
    hide PlainNodes;
    FeederAbove(bp, rank, v, k, 0);
    if v in fed {
      BelowEntry(bp, rank, fed, v, Top(rank));
    }
  }

  // An entry that is a join of several edges waits for ever.
  lemma EntryPasses(bp: Blueprint, rank: seq<nat>, fed: set<nat>)
    requires bp != [] && PlainNodes(bp) && Layered(bp, rank) && FiringSet(bp, fed)
    ensures 0 in fed <==> !Merging(bp, 0)
  {
    hide PlainNodes, InDegree;
    assert Fires(bp, fed, 0) <==> 0 in fed;
    if Merging(bp, 0) {
      var v, k := SomeFeeder(bp, 0);
      EntryUnfed(bp, rank, fed, v, k);
    }
  }

  // ---- Inflow ------------------------------------------------------------------------------

  lemma InflowDegree(c: Config, s: State, u: nat)
    requires u < |c.bp| && CrossedAtMostOnce(c.bp, s.trace, c.bp[u].id)
    ensures Inflow(c.bp, s.trace, c.bp[u].id) <= InDegree(c.bp, c.bp[u].id)
    ensures CrossedExactlyOnce(c.bp, s.trace, c.bp[u].id) ==>
              Inflow(c.bp, s.trace, c.bp[u].id) == InDegree(c.bp, c.bp[u].id)
  {
    FlowDegree(c.bp, s.trace, c.bp[u].id, |c.bp|);
  }

  // With an edge not crossed, the inflow falls short of the in-degree.
  lemma {:induction false} FlowMissing(bp: Blueprint, deeds: multiset<Deed>, id: string, v: nat, k: nat, n: nat)
    requires v < n <= |bp| && k < |bp[v].next| && bp[v].next[k] == id && deeds[Crossed(v, k)] == 0
    requires CrossedAtMostOnce(bp, deeds, id)
    ensures FlowUpTo(bp, deeds, id, n) < InDegreeUpTo(bp, id, n)
  {
    if v == n - 1 {
      FlowDegree(bp, deeds, id, n - 1);
      FlowFromMissing(bp, deeds, id, v, k, |bp[v].next|);
    } else {
      FlowMissing(bp, deeds, id, v, k, n - 1);
      FlowFromDegree(bp, deeds, id, n - 1, |bp[n - 1].next|);
    }
  }

  lemma {:induction false} FlowFromMissing(bp: Blueprint, deeds: multiset<Deed>, id: string, v: nat, k: nat, n: nat)
    requires v < |bp| && k < n <= |bp[v].next| && bp[v].next[k] == id && deeds[Crossed(v, k)] == 0
    requires CrossedAtMostOnce(bp, deeds, id)
    ensures FlowFrom(bp, deeds, id, v, n) < EdgesInto(bp, id, v, n)
  {
    if k == n - 1 {
      FlowFromDegree(bp, deeds, id, v, n - 1);
    } else {
      FlowFromMissing(bp, deeds, id, v, k, n - 1);
    }
  }

  ghost predicate NeverCrossed(bp: Blueprint, deeds: multiset<Deed>, id: string) {
    forall v: nat, k: nat :: v < |bp| && k < |bp[v].next| && bp[v].next[k] == id ==> deeds[Crossed(v, k)] == 0
  }

  lemma {:induction false} FlowZero(bp: Blueprint, deeds: multiset<Deed>, id: string, n: nat)
    requires n <= |bp| && NeverCrossed(bp, deeds, id)
    ensures FlowUpTo(bp, deeds, id, n) == 0
  {
    if n > 0 {
      FlowZero(bp, deeds, id, n - 1);
      FlowFromZero(bp, deeds, id, n - 1, |bp[n - 1].next|);
    }
  }

  lemma {:induction false} FlowFromZero(bp: Blueprint, deeds: multiset<Deed>, id: string, v: nat, k: nat)
    requires v < |bp| && k <= |bp[v].next| && NeverCrossed(bp, deeds, id)
    ensures FlowFrom(bp, deeds, id, v, k) == 0
  {
    if k > 0 {
      FlowFromZero(bp, deeds, id, v, k - 1);
    }
  }

  // The same in terms of a state.
  lemma InflowBounds(c: Config, s: State, u: nat, v: nat, k: nat)
    requires u < |c.bp| && Feeds(c.bp, v, k, u) && CrossedAtMostOnce(c.bp, s.trace, c.bp[u].id)
    ensures s.trace[Crossed(v, k)] == 0 ==> Inflow(c.bp, s.trace, c.bp[u].id) < InDegree(c.bp, c.bp[u].id)
    ensures s.trace[Crossed(v, k)] >= 1 ==> Inflow(c.bp, s.trace, c.bp[u].id) >= 1
  {
    if s.trace[Crossed(v, k)] == 0 {
      FlowMissing(c.bp, s.trace, c.bp[u].id, v, k, |c.bp|);
    } else {
      SomeInflow(c.bp, s.trace, c.bp[u].id, v, k, |c.bp|);
    }
  }

  lemma InflowZero(c: Config, s: State, u: nat)
    requires u < |c.bp| && forall v: nat, k: nat :: Feeds(c.bp, v, k, u) ==> s.trace[Crossed(v, k)] == 0
    ensures Inflow(c.bp, s.trace, c.bp[u].id) == 0
  {
    forall v: nat, k: nat | v < |c.bp| && k < |c.bp[v].next| && c.bp[v].next[k] == c.bp[u].id
      ensures s.trace[Crossed(v, k)] == 0
    {
      assert Feeds(c.bp, v, k, u);
    }
    FlowZero(c.bp, s.trace, c.bp[u].id, |c.bp|);
  }

  // ---- Counting in any state: no edge twice, none of a node that does not fire ----------------

  function Once(fed: set<nat>, u: nat): nat {
    if u in fed then 1 else 0
  }

  // How many branches can ever arrive at a node that gets all it can.
  function Full(bp: Blueprint, u: nat): nat
    requires u < |bp|
  {
    if Merging(bp, u) then InDegree(bp, bp[u].id) else 1
  }

  lemma AtMostOnce(c: Config, rank: seq<nat>, fed: set<nat>, s: State, u: nat, top: nat)
    requires c.bp != [] && PlainNodes(c.bp) && Layered(c.bp, rank) && FiringSet(c.bp, fed)
    requires FlowInv(c, s) && u < |c.bp|
    requires forall v :: 0 <= v < |rank| ==> rank[v] <= top
    ensures s.trace[Emitted(u)] + Total(Fanning(u), s.procs) <= Once(fed, u)
    ensures if u in fed then Entered(c, s, u) <= Full(c.bp, u) else Entered(c, s, u) < Full(c.bp, u)
    decreases top - rank[u]
  {
    hide PlainNodes, InDegree, FiringSet, NodeBalances, EdgesBalance;
    forall v: nat, k: nat | Feeds(c.bp, v, k, u) ensures s.trace[Crossed(v, k)] <= Once(fed, v) {
      FeederAbove(c.bp, rank, v, k, u);
      AtMostOnce(c, rank, fed, s, v, top);
      CrossedAfterEmitted(c, s, v, k);
    }
    EnteredAtMost(c, rank, fed, s, u);
    ReleasedAtMost(c, fed, s, u);
  }

  lemma CrossedAfterEmitted(c: Config, s: State, v: nat, k: nat)
    requires FlowInv(c, s) && v < |c.bp| && k < |c.bp[v].next|
    ensures s.trace[Crossed(v, k)] + Total(Walking(v, k), s.procs) == s.trace[Emitted(v)]
  {
    assert EdgesBalance(c, s, v);
  }

  lemma EnteredAtMost(c: Config, rank: seq<nat>, fed: set<nat>, s: State, u: nat)
    requires c.bp != [] && PlainNodes(c.bp) && Layered(c.bp, rank) && FiringSet(c.bp, fed) && u < |c.bp|
    requires forall v: nat, k: nat :: Feeds(c.bp, v, k, u) ==> s.trace[Crossed(v, k)] <= Once(fed, v)
    ensures if u in fed then Entered(c, s, u) <= Full(c.bp, u) else Entered(c, s, u) < Full(c.bp, u)
  {
    hide PlainNodes, InDegree, Inflow;
    var id := c.bp[u].id;
    assert Fires(c.bp, fed, u) <==> u in fed;
    forall v: nat, k: nat | v < |c.bp| && k < |c.bp[v].next| && c.bp[v].next[k] == id
      ensures s.trace[Crossed(v, k)] <= Once(fed, v)
    {
      assert Feeds(c.bp, v, k, u);
    }
    InflowDegree(c, s, u);
    if u == 0 {
      forall v: nat, k: nat | Feeds(c.bp, v, k, 0) ensures s.trace[Crossed(v, k)] == 0 {
        EntryUnfed(c.bp, rank, fed, v, k);
      }
      InflowZero(c, s, 0);
      EntryPasses(c.bp, rank, fed);
    } else if u !in fed && Merging(c.bp, u) {
      var v: nat, k: nat :| Feeds(c.bp, v, k, u) && v !in fed;
      InflowBounds(c, s, u, v, k);
    } else if u !in fed {
      InflowZero(c, s, u);
    }
  }

  lemma ReleasedAtMost(c: Config, fed: set<nat>, s: State, u: nat)
    requires FlowInv(c, s) && u < |c.bp|
    requires if u in fed then Entered(c, s, u) <= Full(c.bp, u) else Entered(c, s, u) < Full(c.bp, u)
    ensures s.trace[Emitted(u)] + Total(Fanning(u), s.procs) <= Once(fed, u)
  {
    hide InDegree, Inflow;
    assert NodeBalances(c, s, u);
    if Merging(c.bp, u) {
      AtMostOneRelease(InDegree(c.bp, c.bp[u].id), Total(Fanning(u), s.procs) + s.trace[Emitted(u)], Entered(c, s, u));
    } else {
      FanningIsAt(c, u, s.procs);
    }
  }

  lemma AtMostOneRelease(m: nat, released: nat, entered: nat)
    requires m >= 2 && m * released <= entered <= m
    ensures released <= 1 && (entered < m ==> released == 0)
  {
    assert released >= 1 ==> m * released == m + m * (released - 1);
  }

  lemma {:induction false} FanningIsAt(c: Config, u: nat, procs: seq<Stack>)
    ensures Total(Fanning(u), procs) <= Total(At(c, u), procs)
  {
    if procs != [] {
      FanningIsAt(c, u, procs[..|procs| - 1]);
      FanningIsAtIn(c, u, procs[|procs| - 1]);
    }
  }

  lemma {:induction false} FanningIsAtIn(c: Config, u: nat, fs: Stack)
    ensures Sum(Fanning(u), fs) <= Sum(At(c, u), fs)
  {
    hide Find;
    if fs != [] {
      FanningIsAtIn(c, u, fs[1..]);
    }
  }

  // ---- Counting when the upper layers are idle: each firing node exactly once ------------------

  // No token stands at a node above the given rank or is about to leave one.
  ghost predicate IdleAbove(c: Config, rank: seq<nat>, s: State, r: int)
    requires |rank| == |c.bp|
  {
    forall v: nat :: v < |c.bp| && rank[v] > r ==>
      && Total(At(c, v), s.procs) == Total(Waiting(v), s.procs) == Total(Fanning(v), s.procs) == 0
      && forall k: nat :: k < |c.bp[v].next| ==> Total(Walking(v, k), s.procs) == 0
  }

  ghost predicate Settled(c: Config, fed: set<nat>, s: State, u: nat)
    requires u < |c.bp|
  {
    && s.trace[Emitted(u)] == Once(fed, u)
    && (forall k: nat :: k < |c.bp[u].next| ==> s.trace[Crossed(u, k)] == Once(fed, u))
    && (u in fed ==> Entered(c, s, u) == Full(c.bp, u) && Count(s.task.joinState, c.bp[u].id) == 0)
  }

  // All that can arrive at a node whose feeders are settled has arrived.
  lemma AllArrived(c: Config, rank: seq<nat>, fed: set<nat>, s: State, u: nat)
    requires c.bp != [] && PlainNodes(c.bp) && Layered(c.bp, rank) && FiringSet(c.bp, fed) && u in fed
    requires forall v: nat, k: nat :: Feeds(c.bp, v, k, u) ==> s.trace[Crossed(v, k)] == Once(fed, v)
    ensures Entered(c, s, u) == Full(c.bp, u)
  {
    hide PlainNodes, InDegree, Inflow;
    var id := c.bp[u].id;
    assert Fires(c.bp, fed, u);
    EnteredAtMost(c, rank, fed, s, u);
    if u != 0 {
      var v, k := Feeder(c.bp, fed, u);
      forall v2: nat, k2: nat | v2 < |c.bp| && k2 < |c.bp[v2].next| && c.bp[v2].next[k2] == id
        ensures s.trace[Crossed(v2, k2)] <= 1
        ensures Merging(c.bp, u) ==> s.trace[Crossed(v2, k2)] == 1
      {
        assert Feeds(c.bp, v2, k2, u);
      }
      InflowDegree(c, s, u);
      if !Merging(c.bp, u) {
        InflowBounds(c, s, u, v, k);
      }
    } else {
      EntryPasses(c.bp, rank, fed);
    }
  }

  lemma {:induction false} SomeInflow(bp: Blueprint, deeds: multiset<Deed>, id: string, v: nat, k: nat, n: nat)
    requires v < n <= |bp| && k < |bp[v].next| && bp[v].next[k] == id && deeds[Crossed(v, k)] >= 1
    ensures FlowUpTo(bp, deeds, id, n) >= 1
  {
    if v == n - 1 {
      SomeInflowFrom(bp, deeds, id, v, k, |bp[v].next|);
    } else {
      SomeInflow(bp, deeds, id, v, k, n - 1);
    }
  }

  lemma {:induction false} SomeInflowFrom(bp: Blueprint, deeds: multiset<Deed>, id: string, v: nat, k: nat, n: nat)
    requires v < |bp| && k < n <= |bp[v].next| && bp[v].next[k] == id && deeds[Crossed(v, k)] >= 1
    ensures FlowFrom(bp, deeds, id, v, n) >= 1
  {
    if k < n - 1 {
      SomeInflowFrom(bp, deeds, id, v, k, n - 1);
    }
  }

  lemma Settles(c: Config, rank: seq<nat>, fed: set<nat>, s: State, u: nat, r: int, top: nat)
    requires c.bp != [] && PlainNodes(c.bp) && Layered(c.bp, rank) && FiringSet(c.bp, fed)
    requires FlowInv(c, s) && IdleAbove(c, rank, s, r) && u < |c.bp| && rank[u] > r
    requires forall v :: 0 <= v < |rank| ==> rank[v] <= top
    ensures Settled(c, fed, s, u)
    decreases top - rank[u], 1
  {
    hide PlainNodes, InDegree, FiringSet, NodeBalances, EdgesBalance, Inflow;
    FeedersSettle(c, rank, fed, s, u, r, top);
    AtMostOnce(c, rank, fed, s, u, top);
    if u in fed {
      AllArrived(c, rank, fed, s, u);
      LeftOnce(c, s, u);
    }
    forall k: nat | k < |c.bp[u].next| ensures s.trace[Crossed(u, k)] == s.trace[Emitted(u)] {
      CrossedAfterEmitted(c, s, u, k);
    }
  }

  lemma FeedersSettle(c: Config, rank: seq<nat>, fed: set<nat>, s: State, u: nat, r: int, top: nat)
    requires c.bp != [] && PlainNodes(c.bp) && Layered(c.bp, rank) && FiringSet(c.bp, fed)
    requires FlowInv(c, s) && IdleAbove(c, rank, s, r) && u < |c.bp| && rank[u] >= r
    requires forall v :: 0 <= v < |rank| ==> rank[v] <= top
    ensures forall v: nat, k: nat :: Feeds(c.bp, v, k, u) ==> s.trace[Crossed(v, k)] == Once(fed, v)
    decreases top - rank[u], 0
  {
    hide PlainNodes, InDegree, FiringSet, FlowInv, IdleAbove;
    forall v: nat, k: nat | Feeds(c.bp, v, k, u) ensures s.trace[Crossed(v, k)] == Once(fed, v) {
      FeederAbove(c.bp, rank, v, k, u);
      Settles(c, rank, fed, s, v, r, top);
    }
  }

  // A node that everything arrived at and where no token stands was left once.
  lemma LeftOnce(c: Config, s: State, u: nat)
    requires FlowInv(c, s) && u < |c.bp| && Entered(c, s, u) == Full(c.bp, u)
    requires Total(At(c, u), s.procs) == Total(Waiting(u), s.procs) == Total(Fanning(u), s.procs) == 0
    ensures s.trace[Emitted(u)] == 1 && Count(s.task.joinState, c.bp[u].id) == 0
  {
    hide InDegree, Inflow;
    assert NodeBalances(c, s, u);
    if Merging(c.bp, u) {
      OneRelease(InDegree(c.bp, c.bp[u].id), s.trace[Emitted(u)], Count(s.task.joinState, c.bp[u].id));
    }
  }
}
