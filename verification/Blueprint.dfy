/**
 Blueprints: the node graphs that the task scheduler executes
 (internal/taskscheduler/types.go), with the lookups of scheduler.go.
 */
module Blueprints {
  import opened Prelude

  const BUILTIN_PLUGIN_ID := "__builtin__"
  const MAX_LOOP_ITERATIONS := 10000
  const DEFAULT_NODE_TIMEOUT_MS := 300000
  const MAX_INT64 := 0x7FFF_FFFF_FFFF_FFFF

  datatype Node = Node(
    id: string,
    pluginId: string,
    capabilityId: string,
    pattern: string,  // topic of a plugin node; expression or count of an IF/LOOP node
    next: seq<string>,
    timeoutMs: int)

  type Blueprint = seq<Node>

  datatype Kind = Plugin | If | Loop | Input | Output | Join | Unknown

  // The dispatch of executeNode, executeBuiltinNode and advanceTask.
  function KindOf(n: Node): Kind {
    if n.pluginId != BUILTIN_PLUGIN_ID then Plugin
    else if n.capabilityId == "if" then If
    else if n.capabilityId == "loop" then Loop
    else if n.capabilityId == "input" then Input
    else if n.capabilityId == "output" then Output
    else if n.capabilityId == "join" then Join
    else Unknown
  }

  function Timeout(n: Node): (ms: int)
    ensures ms > 0
  {
    if n.timeoutMs > 0 then n.timeoutMs else DEFAULT_NODE_TIMEOUT_MS
  }

  // ---- Loop counts: strconv.Atoi after strings.TrimSpace -------------------

  // Unicode's White_Space property, as strings.TrimSpace uses it.
  predicate IsSpace(ch: char) {
    || ch == ' ' || '\t' <= ch <= '\r' || ch == '\U{85}' || ch == '\U{A0}' || ch == '\U{1680}'
    || '\U{2000}' <= ch <= '\U{200A}' || ch == '\U{2028}' || ch == '\U{2029}' || ch == '\U{202F}'
    || ch == '\U{205F}' || ch == '\U{3000}'
  }

  function TrimLeft(s: string): string {
    if s != "" && IsSpace(s[0]) then TrimLeft(s[1..]) else s
  }

  function TrimRight(s: string): string {
    if s != "" && IsSpace(s[|s| - 1]) then TrimRight(s[..|s| - 1]) else s
  }

  function Digits(s: string): Option<nat> {
    if s == "" then Some(0)
    else if !('0' <= s[|s| - 1] <= '9') then None
    else
      match Digits(s[..|s| - 1])
      case None => None
      case Some(n) => Some(10 * n + (s[|s| - 1] as int - '0' as int))
  }

  function Atoi(s: string): Option<int> {
    var negative := s != "" && s[0] == '-';
    var digits := if s != "" && s[0] in "+-" then s[1..] else s;
    if digits == "" then None
    else
      match Digits(digits)
      case None => None
      case Some(d) =>
        var n: int := d;
        if negative && n <= MAX_INT64 + 1 then Some(-n)
        else if !negative && n <= MAX_INT64 then Some(n)
        else None
  }

  // How often a LOOP node takes its body: a fixed count, or an expression
  // under the safety cap.
  datatype LoopRule = Fixed(count: int) | Conditional

  function RuleOf(n: Node): LoopRule {
    match Atoi(TrimRight(TrimLeft(n.pattern)))
    case Some(count) => Fixed(count)
    case None => Conditional
  }

  function BodyBound(n: Node): nat {
    match RuleOf(n)
    case Fixed(count) => if count > 0 then count else 0
    case Conditional => MAX_LOOP_ITERATIONS
  }

  // ---- findNode -------------------------------------------------------------

  function FindFrom(bp: Blueprint, id: string, i: nat): (r: Option<nat>)
    requires i <= |bp|
    ensures r.Some? ==> i <= r.value < |bp| && bp[r.value].id == id
    ensures r.Some? ==> forall j :: i <= j < r.value ==> bp[j].id != id
    ensures r.None? ==> forall j :: i <= j < |bp| ==> bp[j].id != id
    decreases |bp| - i
  {
    if i == |bp| then None
    else if bp[i].id == id then Some(i)
    else FindFrom(bp, id, i + 1)
  }

  function Find(bp: Blueprint, id: string): (r: Option<nat>)
    ensures r.Some? ==> r.value < |bp| && bp[r.value].id == id
    ensures r.None? ==> forall j :: 0 <= j < |bp| ==> bp[j].id != id
  {
    FindFrom(bp, id, 0)
  }

  method FindNode(bp: Blueprint, id: string) returns (r: Option<nat>)
    ensures r == Find(bp, id)
  {
    var i := 0;
    while i < |bp|
      invariant 0 <= i <= |bp|
      invariant Find(bp, id) == FindFrom(bp, id, i)
    {
      if bp[i].id == id {
        return Some(i);
      }
      i := i + 1;
    }
    return None;
  }

  ghost predicate DistinctIds(bp: Blueprint) {
    forall i, j :: 0 <= i < j < |bp| ==> bp[i].id != bp[j].id
  }

  lemma FindOwnId(bp: Blueprint, u: nat)
    requires DistinctIds(bp) && u < |bp|
    ensures Find(bp, bp[u].id) == Some(u)
  {
    var r := Find(bp, bp[u].id);
    assert r.Some?;
  }

  // ---- countInEdges -----------------------------------------------------------

  // Edges into id among the first k entries of node u's next list.
  function EdgesInto(bp: Blueprint, id: string, u: nat, k: nat): nat
    requires u < |bp| && k <= |bp[u].next|
  {
    if k == 0 then 0
    else EdgesInto(bp, id, u, k - 1) + (if bp[u].next[k - 1] == id then 1 else 0)
  }

  function InDegreeUpTo(bp: Blueprint, id: string, n: nat): nat
    requires n <= |bp|
  {
    if n == 0 then 0
    else InDegreeUpTo(bp, id, n - 1) + EdgesInto(bp, id, n - 1, |bp[n - 1].next|)
  }

  function InDegree(bp: Blueprint, id: string): nat {
    InDegreeUpTo(bp, id, |bp|)
  }

  method CountInEdges(bp: Blueprint, id: string) returns (count: nat)
    ensures count == InDegree(bp, id)
  {
    count := 0;
    for i := 0 to |bp|
      invariant count == InDegreeUpTo(bp, id, i)
    {
      for k := 0 to |bp[i].next|
        invariant count == InDegreeUpTo(bp, id, i) + EdgesInto(bp, id, i, k)
      {
        if bp[i].next[k] == id {
          count := count + 1;
        }
      }
    }
  }

  // The edges into id, as (source, position) pairs: a node naming id twice
  // contributes two edges. Those of the first n nodes, and the first k of node n.
  ghost function EdgesBelow(bp: Blueprint, id: string, n: nat, k: nat): set<(nat, nat)> {
    set u: nat, i: nat | u < |bp| && i < |bp[u].next| && (u < n || (u == n && i < k)) && bp[u].next[i] == id :: (u, i)
  }

  ghost function EdgeSet(bp: Blueprint, id: string): set<(nat, nat)> {
    EdgesBelow(bp, id, |bp|, 0)
  }

  // In-degree is the number of edges, independently of how the loops count.
  lemma InDegreeIsEdgeCount(bp: Blueprint, id: string)
    ensures InDegree(bp, id) == |EdgeSet(bp, id)|
  {
    InDegreeUpToIsEdgeCount(bp, id, |bp|);
  }

  lemma {:induction false} InDegreeUpToIsEdgeCount(bp: Blueprint, id: string, n: nat)
    requires n <= |bp|
    ensures InDegreeUpTo(bp, id, n) == |EdgesBelow(bp, id, n, 0)|
  {
    if n == 0 {
      assert EdgesBelow(bp, id, 0, 0) == {};
    } else {
      InDegreeUpToIsEdgeCount(bp, id, n - 1);
      EdgesIntoIsEdgeCount(bp, id, n - 1, |bp[n - 1].next|);
      assert EdgesBelow(bp, id, n, 0) == EdgesBelow(bp, id, n - 1, |bp[n - 1].next|);
    }
  }

  lemma {:induction false} EdgesIntoIsEdgeCount(bp: Blueprint, id: string, u: nat, k: nat)
    requires u < |bp| && k <= |bp[u].next|
    ensures |EdgesBelow(bp, id, u, 0)| + EdgesInto(bp, id, u, k) == |EdgesBelow(bp, id, u, k)|
  {
    if k > 0 {
      EdgesIntoIsEdgeCount(bp, id, u, k - 1);
      var below := EdgesBelow(bp, id, u, k - 1);
      if bp[u].next[k - 1] == id {
        assert EdgesBelow(bp, id, u, k) == below + {(u, k - 1)};
      } else {
        assert EdgesBelow(bp, id, u, k) == below;
      }
    }
  }
}
