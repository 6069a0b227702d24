/**
 The optimistic-lock workhorse of internal/taskscheduler/store.go: every change
 of a Task is a WATCH / GET / MULTI-SET-EXEC transaction that is retried while
 other clients write the same key.
 */
module TaskStores {
  import opened Prelude
  import opened TaskRecord

  const MAX_TX_RETRIES := 100

  // A committed write of the key; another client may also replace the record or
  // the key may expire.
  datatype Write = Update(op: Op) | Put(task: Task) | Expire

  function Written(w: Write, v: Option<Task>): Option<Task> {
    match w
    case Update(op) => if v.Some? then Some(Apply(op, v.value)) else None
    case Put(task) => Some(task)
    case Expire => None
  }

  // The value a history leaves, written one after the other.
  function Replay(start: Option<Task>, log: seq<Write>): Option<Task> {
    if log == [] then start else Written(log[|log| - 1], Replay(start, log[..|log| - 1]))
  }

  lemma {:induction false} ReplayAppend(start: Option<Task>, a: seq<Write>, b: seq<Write>)
    ensures Replay(start, a + b) == Replay(Replay(start, a), b)
  {
    if b == [] {
      assert a + b == a;
    } else {
      assert (a + b)[..|a + b| - 1] == a + b[..|b| - 1];
      ReplayAppend(start, a, b[..|b| - 1]);
    }
  }

  // What other clients commit during one attempt: before WATCH, between WATCH and
  // GET, and between GET and EXEC.
  datatype Interference = Interference(idle: seq<Write>, beforeGet: seq<Write>, afterGet: seq<Write>)

  predicate Conflicts(f: Interference) {
    f.beforeGet != [] || f.afterGet != []
  }

  function AllWrites(f: Interference): seq<Write> {
    f.idle + f.beforeGet + f.afterGet
  }

  // Everything the others committed during the first n attempts.
  function Others(env: nat -> Interference, n: nat): seq<Write> {
    if n == 0 then [] else Others(env, n - 1) + AllWrites(env(n - 1))
  }

  datatype Error = NotFound | RetriesExceeded

  class TaskStore {
    var value: Option<Task>
    var version: nat
    ghost var start: Option<Task>
    ghost var log: seq<Write>  // all commits so far, in order

    // The stored value is the sequential replay of all commits in commit order.
    ghost predicate Valid()
      reads this
    {
      value == Replay(start, log) && version == |log|
    }

    constructor (task: Option<Task>)
      ensures Valid() && value == task && log == []
    {
      value, version, start, log := task, 0, task, [];
    }

    // Writes committed by other clients.
    method Interfere(ws: seq<Write>)
      requires Valid()
      modifies this
      ensures Valid() && start == old(start) && log == old(log) + ws
      ensures version == old(version) + |ws|
    {
      for i := 0 to |ws|
        invariant Valid() && start == old(start) && log == old(log) + ws[..i]
      {
        value, version, log := Written(ws[i], value), version + 1, log + [ws[i]];
        assert log[..|log| - 1] == old(log) + ws[..i];
        assert ws[..i + 1] == ws[..i] + [ws[i]];
      }
      assert ws[..|ws|] == ws;
    }

    // One WATCH / GET / EXEC transaction. It commits unless somebody else wrote the
    // key since WATCH.
    method Attempt(op: Op, f: Interference) returns (r: Option<Result<Task, Error>>, reply: Reply)
      requires Valid()
      modifies this
      ensures Valid() && start == old(start)
      ensures r == None ==> Conflicts(f) && log == old(log) + AllWrites(f)
      ensures r == Some(Err(NotFound)) ==> value == None && log == old(log) + f.idle + f.beforeGet
      ensures r.Some? && r.value.Ok? ==>
                !Conflicts(f) && log == old(log) + f.idle + [Write.Update(op)] && CommittedOnCurrent(op, r.value.value, reply)
      ensures r != Some(Err(RetriesExceeded))
    {
      reply := NoReply;
      Interfere(f.idle);
      var watched := version;
      Interfere(f.beforeGet);
      if value == None {
        return Some(Err(NotFound)), reply;
      }
      ghost var seen := log;
      var cell := new TaskCell(value.value);
      reply := cell.Run(op);
      Interfere(f.afterGet);
      if version != watched {
        return None, reply;
      }
      assert log == seen;
      value, version, log := Some(cell.Value()), version + 1, log + [Write.Update(op)];
      assert log[..|log| - 1] == seen;
      return Some(Ok(cell.Value())), reply;
    }

    // The last commit was this operation, applied to the value current at that
    // moment; result and reply are those of exactly this application.
    ghost predicate CommittedOnCurrent(op: Op, result: Task, reply: Reply)
      reads this
    {
      && log != [] && log[|log| - 1] == Write.Update(op)
      && (var current := Replay(start, log[..|log| - 1]);
          && current.Some?
          && result == Apply(op, current.value)
          && reply == Answer(op, current.value)
          && value == Some(result))
    }

    /** One atomic change of the record, or none: at most 100 attempts. */
    method Update(op: Op, env: nat -> Interference) returns (r: Result<Task, Error>, reply: Reply, ghost attempt: nat)
      requires Valid()
      modifies this
      ensures Valid() && start == old(start)
      // every earlier attempt met a conflict
      ensures forall i :: 0 <= i < attempt ==> Conflicts(env(i))
      // success: committed exactly once, on the current value
      ensures r.Ok? ==>
                && attempt < 100 && !Conflicts(env(attempt))
                && log == old(log) + Others(env, attempt) + (env(attempt).idle + [Write.Update(op)])
                && CommittedOnCurrent(op, r.value, reply)
      // failure: not at all
      ensures r == Err(RetriesExceeded) ==> attempt == 100 && log == old(log) + Others(env, attempt)
      ensures r == Err(NotFound) ==>
                && attempt < 100 && value == None
                && log == old(log) + Others(env, attempt) + (env(attempt).idle + env(attempt).beforeGet)
    {
      reply := NoReply;
      attempt := 0;
      for i := 0 to MAX_TX_RETRIES
        invariant Valid() && start == old(start) && attempt == i
        invariant log == old(log) + Others(env, i)
        invariant forall j :: 0 <= j < i ==> Conflicts(env(j))
      {
        var outcome;
        outcome, reply := Attempt(op, env(i));
        if outcome.Some? {
          return outcome.value, reply, attempt;
        }
        attempt := attempt + 1;
      }
      return Err(RetriesExceeded), reply, attempt;
    }
  }

  // The operations among the commits, in commit order.
  function Commits(log: seq<Write>): seq<Op> {
    if log == [] then []
    else
      var w := log[|log| - 1];
      Commits(log[..|log| - 1]) + (if w.Update? then [w.op] else [])
  }

  // A history of transactions alone is the sequential fold of their closures.
  lemma {:induction false} ReplayIsFold(t: Task, log: seq<Write>)
    requires forall i :: 0 <= i < |log| ==> log[i].Update?
    ensures Replay(Some(t), log) == Some(Fold(Commits(log), t))
    ensures |Commits(log)| == |log|
  {
    if log != [] {
      var before := log[..|log| - 1];
      ReplayIsFold(t, before);
      assert Commits(log)[..|log| - 1] == Commits(before);
    }
  }

  // N concurrent branches arriving at a join of in-degree N through such
  // transactions: whatever else they are interleaved with, exactly one proceeds, and
  // N branches become one.
  lemma ConcurrentJoin(t: Task, log: seq<Write>, id: string, n: int)
    requires n >= 2 && Count(t.joinState, id) == 0
    requires forall i :: 0 <= i < |log| ==> log[i].Update?
    requires ExpectsAt(Commits(log), id, n) && Arrivals(Commits(log), id) == n
    ensures Releases(Commits(log), t, id) == 1
    ensures
      var v := Replay(Some(t), log);
      && v.Some? && Count(v.value.joinState, id) == 0
      && v.value.activeBranches == t.activeBranches + OtherBranchMoves(Commits(log), t, id) - (n - 1)
  {
    ReplayIsFold(t, log);
    JoinArithmetic(Commits(log), t, id, n);
    JoinBranchAccounting(Commits(log), t, id, n);
  }
}
