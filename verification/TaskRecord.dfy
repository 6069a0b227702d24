/**
 The Task record and the closures that internal/taskscheduler/store.go applies
 to it inside one optimistic-lock transaction.
 */
module TaskRecord {
  import opened Prelude

  datatype Status = Running | Completed | Failed

  // The texts a failing task is marked with; Reported carries a plugin's own.
  datatype Reason =
    | NoReason
    | NodeTimeout
    | PluginIsDown(pluginId: string)
    | PublishFailed
    | BadOutput
    | NextNotFound
    | BadBuiltin
    | BadBranching
    | EvalFailed
    | LoopCapExceeded
    | Reported(text: string)

  // Times are milliseconds; 0 is Go's zero time.
  const ZERO_TIME := 0

  datatype Task = Task(
    status: Status,
    failReason: Reason,
    currentNode: string,
    context: map<string, string>,
    loopState: map<string, int>,
    activeBranches: int,
    activeNodes: map<string, int>,
    joinState: map<string, int>)

  // A Go map read: a missing key reads as 0.
  function Count(m: map<string, int>, id: string): int {
    if id in m then m[id] else 0
  }

  datatype Op =
    | MarkTerminal(status: Status, reason: Reason)
    | MergeContext(output: map<string, string>)
    | AdvanceNode(id: string)
    | AddActiveNode(id: string, deadline: int)
    | RemoveActiveNode(id: string)
    | AddBranches(delta: int)
    | EndBranch
    | ArriveAtJoin(id: string, expected: int)
    | IncrLoopCount(id: string)

  function Apply(op: Op, t: Task): Task {
    match op
    case MarkTerminal(status, reason) =>
      if t.status == Running then t.(status := status, failReason := reason) else t
    case MergeContext(output) => t.(context := t.context + output)
    case AdvanceNode(id) => t.(currentNode := id)
    case AddActiveNode(id, deadline) => t.(activeNodes := t.activeNodes[id := deadline], currentNode := id)
    case RemoveActiveNode(id) => t.(activeNodes := t.activeNodes - {id})
    case AddBranches(delta) => t.(activeBranches := t.activeBranches + delta)
    case EndBranch => t.(activeBranches := t.activeBranches - 1)
    case ArriveAtJoin(id, expected) =>
      if Proceeds(t, id, expected) then t.(joinState := t.joinState[id := 0])
      else t.(joinState := t.joinState[id := Count(t.joinState, id) + 1], activeBranches := t.activeBranches - 1)
    case IncrLoopCount(id) => t.(loopState := t.loopState[id := Count(t.loopState, id) + 1])
  }

  // Whether an arrival now would be the one that releases the join.
  predicate Proceeds(t: Task, id: string, expected: int) {
    Count(t.joinState, id) + 1 >= expected
  }

  // What a transaction's closure leaves in the variables it captured.
  datatype Reply = NoReply | Changed(changed: bool) | Remaining(branches: int) | Proceed(proceed: bool) | Iteration(count: int)

  function Answer(op: Op, t: Task): Reply {
    match op
    case MarkTerminal(_, _) => Changed(t.status == Running)
    case EndBranch => Remaining(t.activeBranches - 1)
    case ArriveAtJoin(id, expected) => Proceed(Proceeds(t, id, expected))
    case IncrLoopCount(id) => Iteration(Count(t.loopState, id) + 1)
    case _ => NoReply
  }

  /** The Task object a transaction decodes and its closure then changes in place. */
  class TaskCell {
    var status: Status
    var failReason: Reason
    var currentNode: string
    var context: map<string, string>
    var loopState: map<string, int>
    var activeBranches: int
    var activeNodes: map<string, int>
    var joinState: map<string, int>

    function Value(): Task
      reads this
    {
      Task(status, failReason, currentNode, context, loopState, activeBranches, activeNodes, joinState)
    }

    constructor (t: Task)
      ensures Value() == t
    {
      status, failReason, currentNode, context := t.status, t.failReason, t.currentNode, t.context;
      loopState, activeBranches, activeNodes, joinState := t.loopState, t.activeBranches, t.activeNodes, t.joinState;
    }

    method MarkTerminal(newStatus: Status, reason: Reason) returns (changed: bool)
      modifies this
      ensures Value() == Apply(Op.MarkTerminal(newStatus, reason), old(Value()))
      ensures changed <==> old(status) == Running
      ensures !changed ==> Value() == old(Value())
    {
      changed := false;
      if status != Running {
        return;
      }
      status := newStatus;
      failReason := reason;
      changed := true;
    }

    method MergeContext(output: map<string, string>)
      modifies this
      ensures Value() == Apply(Op.MergeContext(output), old(Value()))
      ensures forall k :: k in output ==> k in context && context[k] == output[k]
    {
      var rest := output.Keys;
      while rest != {}
        invariant rest <= output.Keys
        invariant context.Keys == old(context).Keys + (output.Keys - rest)
        invariant forall k :: k in context ==> context[k] == if k in output && k !in rest then output[k] else old(context)[k]
        invariant Value() == old(Value()).(context := context)
      {
        var k :| k in rest;
        context := context[k := output[k]];
        rest := rest - {k};
      }
      assert context == old(context) + output;
    }

    method AdvanceNode(id: string)
      modifies this
      ensures Value() == Apply(Op.AdvanceNode(id), old(Value()))
    {
      currentNode := id;
    }

    method AddActiveNode(id: string, deadline: int)
      modifies this
      ensures Value() == Apply(Op.AddActiveNode(id, deadline), old(Value()))
    {
      activeNodes := activeNodes[id := deadline];
      currentNode := id;
    }

    method RemoveActiveNode(id: string)
      modifies this
      ensures Value() == Apply(Op.RemoveActiveNode(id), old(Value()))
    {
      activeNodes := activeNodes - {id};
    }

    method AddBranches(delta: int)
      modifies this
      ensures Value() == Apply(Op.AddBranches(delta), old(Value()))
    {
      activeBranches := activeBranches + delta;
    }

    method EndBranch() returns (remaining: int)
      modifies this
      ensures Value() == Apply(Op.EndBranch, old(Value()))
      ensures remaining == activeBranches
    {
      activeBranches := activeBranches - 1;
      remaining := activeBranches;
    }

    method ArriveAtJoin(id: string, expected: int) returns (proceed: bool)
      modifies this
      ensures Value() == Apply(Op.ArriveAtJoin(id, expected), old(Value()))
      ensures proceed <==> Proceeds(old(Value()), id, expected)
      ensures activeBranches == old(activeBranches) - (if proceed then 0 else 1)
    {
      var arrived := (if id in joinState then joinState[id] else 0) + 1;
      if arrived >= expected {
        joinState := joinState[id := 0];
        proceed := true;
      } else {
        joinState := joinState[id := arrived];
        activeBranches := activeBranches - 1;
        proceed := false;
      }
    }

    method IncrLoopCount(id: string) returns (count: int)
      modifies this
      ensures Value() == Apply(Op.IncrLoopCount(id), old(Value()))
      ensures count == Count(loopState, id)
    {
      loopState := loopState[id := (if id in loopState then loopState[id] else 0) + 1];
      count := loopState[id];
    }

    /** Any of the closures, with what it leaves in its captured variables. */
    method Run(op: Op) returns (r: Reply)
      modifies this
      ensures Value() == Apply(op, old(Value()))
      ensures r == Answer(op, old(Value()))
    {
      r := NoReply;
      match op {
        case MarkTerminal(newStatus, reason) => var b := MarkTerminal(newStatus, reason); r := Changed(b);
        case MergeContext(output) => MergeContext(output);
        case AdvanceNode(id) => AdvanceNode(id);
        case AddActiveNode(id, deadline) => AddActiveNode(id, deadline);
        case RemoveActiveNode(id) => RemoveActiveNode(id);
        case AddBranches(delta) => AddBranches(delta);
        case EndBranch => var n := EndBranch(); r := Remaining(n);
        case ArriveAtJoin(id, expected) => var b := ArriveAtJoin(id, expected); r := Proceed(b);
        case IncrLoopCount(id) => var n := IncrLoopCount(id); r := Iteration(n);
      }
    }
  }

  // ---- Histories of transactions ------------------------------------------------

  // The record after the transactions of a history, in commit order.
  function Fold(ops: seq<Op>, t: Task): Task {
    if ops == [] then t else Apply(ops[|ops| - 1], Fold(ops[..|ops| - 1], t))
  }

  // Arrivals at one join, and those among them that proceeded.
  function Arrivals(ops: seq<Op>, id: string): nat {
    if ops == [] then 0
    else
      var op := ops[|ops| - 1];
      Arrivals(ops[..|ops| - 1], id) + (if op.ArriveAtJoin? && op.id == id then 1 else 0)
  }

  function Releases(ops: seq<Op>, t: Task, id: string): nat {
    if ops == [] then 0
    else
      var op := ops[|ops| - 1];
      var before := Fold(ops[..|ops| - 1], t);
      Releases(ops[..|ops| - 1], t, id)
      + (if op.ArriveAtJoin? && op.id == id && Answer(op, before) == Proceed(true) then 1 else 0)
  }

  // The branch count moved by everything but the arrivals at this join: fan-outs,
  // leaves, and branches that other joins absorb.
  function OtherBranchMoves(ops: seq<Op>, t: Task, id: string): int {
    if ops == [] then 0
    else
      var op, before := ops[|ops| - 1], Fold(ops[..|ops| - 1], t);
      OtherBranchMoves(ops[..|ops| - 1], t, id)
      + (match op
         case AddBranches(d) => d
         case EndBranch => -1
         case ArriveAtJoin(other, expected) => if other != id && !Proceeds(before, other, expected) then -1 else 0
         case _ => 0)
  }

  ghost predicate ExpectsAt(ops: seq<Op>, id: string, m: int) {
    forall i :: 0 <= i < |ops| && ops[i].ArriveAtJoin? && ops[i].id == id ==> ops[i].expected == m
  }

  // Join arithmetic with re-entry: whatever other transactions are interleaved,
  // of k arrivals floor(k/m) proceed and k mod m stay counted.
  lemma JoinArithmetic(ops: seq<Op>, t: Task, id: string, m: int)
    requires m >= 2 && Count(t.joinState, id) == 0 && ExpectsAt(ops, id, m)
    ensures Releases(ops, t, id) == Arrivals(ops, id) / m
    ensures Count(Fold(ops, t).joinState, id) == Arrivals(ops, id) % m
  {
    JoinInvariant(ops, t, id, m);
    DivMod(Arrivals(ops, id), m, Releases(ops, t, id), Count(Fold(ops, t).joinState, id));
  }

  lemma {:induction false} JoinInvariant(ops: seq<Op>, t: Task, id: string, m: int)
    requires m >= 2 && Count(t.joinState, id) == 0 && ExpectsAt(ops, id, m)
    ensures Arrivals(ops, id) == m * Releases(ops, t, id) + Count(Fold(ops, t).joinState, id)
    ensures 0 <= Count(Fold(ops, t).joinState, id) < m
  {
    if ops != [] {
      JoinInvariant(ops[..|ops| - 1], t, id, m);
      ArrivalStep(ops, t, id, m);
      if Releases(ops, t, id) != Releases(ops[..|ops| - 1], t, id) {
        assert m * (Releases(ops[..|ops| - 1], t, id) + 1) == m * Releases(ops[..|ops| - 1], t, id) + m;
      }
    }
  }

  // One transaction: an arrival adds one to the counter, or resets it at m.
  lemma {:induction false} ArrivalStep(ops: seq<Op>, t: Task, id: string, m: int)
    requires ops != [] && m >= 2 && ExpectsAt(ops, id, m)
    requires 0 <= Count(Fold(ops[..|ops| - 1], t).joinState, id) < m
    ensures
      var before := ops[..|ops| - 1];
      var arrived := Arrivals(ops, id) - Arrivals(before, id);
      var released := Releases(ops, t, id) - Releases(before, t, id);
      && 0 <= released <= arrived <= 1
      && Count(Fold(ops, t).joinState, id)
         == Count(Fold(before, t).joinState, id) + arrived - (if released == 1 then m else 0)
      && 0 <= Count(Fold(ops, t).joinState, id) < m
  {
    var op, u := ops[|ops| - 1], Fold(ops[..|ops| - 1], t);
    assert Fold(ops, t) == Apply(op, u);
    if op.ArriveAtJoin? && op.id == id {
      assert op.expected == m;
      assert Answer(op, u) == Proceed(Proceeds(u, id, m));
    } else {
      assert Count(Apply(op, u).joinState, id) == Count(u.joinState, id);
    }
  }

  // ... and the branch count fell by exactly the arrivals absorbed here,
  // k - floor(k/m), apart from what the rest of the history moved.
  lemma {:induction false} JoinBranchAccounting(ops: seq<Op>, t: Task, id: string, m: int)
    requires m >= 2 && Count(t.joinState, id) == 0 && ExpectsAt(ops, id, m)
    ensures Fold(ops, t).activeBranches ==
            t.activeBranches + OtherBranchMoves(ops, t, id) - (Arrivals(ops, id) - Arrivals(ops, id) / m)
  {
    AbsorbedBranches(ops, t, id);
    JoinArithmetic(ops, t, id, m);
  }

  lemma {:induction false} AbsorbedBranches(ops: seq<Op>, t: Task, id: string)
    ensures Fold(ops, t).activeBranches ==
            t.activeBranches + OtherBranchMoves(ops, t, id) - (Arrivals(ops, id) - Releases(ops, t, id))
  {
    if ops != [] {
      AbsorbedBranches(ops[..|ops| - 1], t, id);
    }
  }
}
