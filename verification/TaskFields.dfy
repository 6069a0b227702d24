/**
 What each field of the Task record holds after any history of transactions, told by
 the transactions that wrote it: last writes win, the first end of the task wins,
 counters count.
 */
module TaskFields {
  import opened Prelude
  import opened TaskRecord

  // ---- The last transaction that wrote something -----------------------------------------

  // Position i holds the last of the transactions that satisfy the test.
  predicate Writes(op: Op, field: Field) {
    match field
    case ContextKey(k) => op.MergeContext? && k in op.output
    case CurrentNode => op.AdvanceNode? || op.AddActiveNode?
    case ActiveNode(id) => (op.AddActiveNode? && op.id == id) || (op.RemoveActiveNode? && op.id == id)
  }

  datatype Field = ContextKey(key: string) | CurrentNode | ActiveNode(id: string)

  ghost predicate LastWrite(ops: seq<Op>, field: Field, i: nat) {
    && i < |ops| && Writes(ops[i], field)
    && forall j :: i < j < |ops| ==> !Writes(ops[j], field)
  }

  ghost predicate NeverWritten(ops: seq<Op>, field: Field) {
    forall j :: 0 <= j < |ops| ==> !Writes(ops[j], field)
  }

  // The last transaction of a history either wrote the field or leaves it to the others.
  lemma WriteBefore(ops: seq<Op>, field: Field)
    requires ops != [] && !Writes(ops[|ops| - 1], field)
    ensures forall i: nat :: LastWrite(ops, field, i) ==> LastWrite(ops[..|ops| - 1], field, i)
    ensures NeverWritten(ops, field) ==> NeverWritten(ops[..|ops| - 1], field)
  {
  }

  // ---- Context, current node, table of active nodes: the last write wins -------------------

  lemma FieldLaw(op: Op, t: Task)
    ensures Apply(op, t).context == if op.MergeContext? then t.context + op.output else t.context
    ensures Apply(op, t).currentNode == if Writes(op, CurrentNode) then op.id else t.currentNode
    ensures Apply(op, t).activeNodes ==
      if op.AddActiveNode? then t.activeNodes[op.id := op.deadline]
      else if op.RemoveActiveNode? then t.activeNodes - {op.id} else t.activeNodes
  {
  }

  lemma {:induction false} ContextHolds(ops: seq<Op>, t: Task, key: string, i: nat)
    ensures NeverWritten(ops, ContextKey(key)) ==>
      (key in Fold(ops, t).context <==> key in t.context)
      && (key in t.context ==> Fold(ops, t).context[key] == t.context[key])
    ensures LastWrite(ops, ContextKey(key), i) ==>
      key in Fold(ops, t).context && Fold(ops, t).context[key] == ops[i].output[key]
  {
    hide Apply;
    if ops != [] {
      ContextHolds(ops[..|ops| - 1], t, key, i);
      FieldLaw(ops[|ops| - 1], Fold(ops[..|ops| - 1], t));
      if !Writes(ops[|ops| - 1], ContextKey(key)) {
        WriteBefore(ops, ContextKey(key));
      }
    }
  }

  lemma {:induction false} CurrentNodeHolds(ops: seq<Op>, t: Task, i: nat)
    ensures NeverWritten(ops, CurrentNode) ==> Fold(ops, t).currentNode == t.currentNode
    ensures LastWrite(ops, CurrentNode, i) ==> Fold(ops, t).currentNode == ops[i].id
  {
    hide Apply;
    if ops != [] {
      CurrentNodeHolds(ops[..|ops| - 1], t, i);
      FieldLaw(ops[|ops| - 1], Fold(ops[..|ops| - 1], t));
      if !Writes(ops[|ops| - 1], CurrentNode) {
        WriteBefore(ops, CurrentNode);
      }
    }
  }

  lemma {:induction false} ActiveNodeHolds(ops: seq<Op>, t: Task, id: string, i: nat)
    ensures NeverWritten(ops, ActiveNode(id)) ==>
      (id in Fold(ops, t).activeNodes <==> id in t.activeNodes)
      && (id in t.activeNodes ==> Fold(ops, t).activeNodes[id] == t.activeNodes[id])
    ensures LastWrite(ops, ActiveNode(id), i) && ops[i].RemoveActiveNode? ==> id !in Fold(ops, t).activeNodes
    ensures LastWrite(ops, ActiveNode(id), i) && ops[i].AddActiveNode? ==>
      id in Fold(ops, t).activeNodes && Fold(ops, t).activeNodes[id] == ops[i].deadline
  {
    hide Apply;
    if ops != [] {
      ActiveNodeHolds(ops[..|ops| - 1], t, id, i);
      FieldLaw(ops[|ops| - 1], Fold(ops[..|ops| - 1], t));
      if !Writes(ops[|ops| - 1], ActiveNode(id)) {
        WriteBefore(ops, ActiveNode(id));
      }
    }
  }

  // ---- Status and reason: the first end of a running task wins -------------------------------

  ghost predicate FirstEnd(ops: seq<Op>, i: nat) {
    && i < |ops| && ops[i].MarkTerminal? && ops[i].status != Running
    && forall j :: 0 <= j < i ==> !(ops[j].MarkTerminal? && ops[j].status != Running)
  }

  ghost predicate Endings(ops: seq<Op>) {
    forall i :: 0 <= i < |ops| && ops[i].MarkTerminal? ==> ops[i].status != Running
  }

  lemma MarkLaw(op: Op, t: Task)
    ensures op.MarkTerminal? && t.status == Running ==>
      Apply(op, t).status == op.status && Apply(op, t).failReason == op.reason
    ensures !op.MarkTerminal? || t.status != Running ==>
      Apply(op, t).status == t.status && Apply(op, t).failReason == t.failReason
  {
  }

  lemma {:induction false} StatusKept(ops: seq<Op>, t: Task)
    requires t.status != Running || (forall j :: 0 <= j < |ops| ==> !ops[j].MarkTerminal?)
    ensures Fold(ops, t).status == t.status && Fold(ops, t).failReason == t.failReason
  {
    hide Apply;
    if ops != [] {
      StatusKept(ops[..|ops| - 1], t);
      MarkLaw(ops[|ops| - 1], Fold(ops[..|ops| - 1], t));
    }
  }

  lemma {:induction false} StatusHolds(ops: seq<Op>, t: Task, i: nat)
    requires Endings(ops) && t.status == Running && FirstEnd(ops, i)
    ensures Fold(ops, t).status == ops[i].status && Fold(ops, t).failReason == ops[i].reason
  {
    hide Apply;
    var before := ops[..|ops| - 1];
    MarkLaw(ops[|ops| - 1], Fold(before, t));
    if i < |before| {
      assert FirstEnd(before, i);
      StatusHolds(before, t, i);
    } else {
      StatusKept(before, t);
    }
  }

  // Exactly the call that ended the task learns that it did.
  lemma {:induction false} OneEndReported(ops: seq<Op>, t: Task, i: nat)
    requires Endings(ops) && t.status == Running && i < |ops| && ops[i].MarkTerminal?
    ensures Answer(ops[i], Fold(ops[..i], t)) == Changed(FirstEnd(ops, i))
  {
    if j :| 0 <= j < i && ops[j].MarkTerminal? {
      var first := FirstIn(ops[..i]);
      StatusHolds(ops[..i], t, first);
    } else {
      StatusKept(ops[..i], t);
    }
  }

  lemma {:induction false} FirstIn(ops: seq<Op>) returns (i: nat)
    requires Endings(ops) && exists j :: 0 <= j < |ops| && ops[j].MarkTerminal?
    ensures FirstEnd(ops, i)
  {
    var before := ops[..|ops| - 1];
    if j :| 0 <= j < |before| && before[j].MarkTerminal? {
      i := FirstIn(before);
    } else {
      i := |before|;
    }
  }

  // ---- Loop counts: the number of iterations -------------------------------------------------

  function Iterations(ops: seq<Op>, id: string): nat {
    |set i | 0 <= i < |ops| && ops[i].IncrLoopCount? && ops[i].id == id|
  }

  lemma IterationsLast(ops: seq<Op>, id: string)
    requires ops != []
    ensures
      var last := ops[|ops| - 1];
      Iterations(ops, id)
      == Iterations(ops[..|ops| - 1], id) + (if last.IncrLoopCount? && last.id == id then 1 else 0)
  {
    var last, before := ops[|ops| - 1], ops[..|ops| - 1];
    var some := set i | 0 <= i < |before| && before[i].IncrLoopCount? && before[i].id == id;
    var all := set i | 0 <= i < |ops| && ops[i].IncrLoopCount? && ops[i].id == id;
    if last.IncrLoopCount? && last.id == id {
      assert all == some + {|before|};
    } else {
      assert all == some;
    }
  }

  lemma {:induction false} LoopCountHolds(ops: seq<Op>, t: Task, id: string)
    ensures Count(Fold(ops, t).loopState, id) == Count(t.loopState, id) + Iterations(ops, id)
  {
    if ops != [] {
      LoopCountHolds(ops[..|ops| - 1], t, id);
      IterationsLast(ops, id);
    }
  }

  // An iteration learns its own number.
  lemma IterationNumbered(ops: seq<Op>, t: Task, i: nat)
    requires i < |ops| && ops[i].IncrLoopCount?
    ensures Answer(ops[i], Fold(ops[..i], t))
            == Iteration(Count(t.loopState, ops[i].id) + Iterations(ops[..i], ops[i].id) + 1)
  {
    LoopCountHolds(ops[..i], t, ops[i].id);
  }

  // A leaf learns how many branches are left when it has ended its own.
  lemma BranchesLeft(ops: seq<Op>, t: Task, i: nat)
    requires i < |ops| && ops[i].EndBranch?
    ensures Answer(ops[i], Fold(ops[..i], t)) == Remaining(Fold(ops[..i + 1], t).activeBranches)
    ensures Fold(ops[..i + 1], t).activeBranches == Fold(ops[..i], t).activeBranches - 1
  {
    assert ops[..i + 1][..i] == ops[..i];
  }
}
