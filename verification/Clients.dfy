/**
 Any number of clients of one Task key, each running the optimistic-lock loop of
 internal/taskscheduler/store.go: their WATCH, GET and EXEC steps interleave freely.
 */
module Clients {
  import opened Prelude
  import opened TaskRecord
  import opened TaskStores

  datatype Phase =
    | Ready                                   // about to WATCH
    | Watching(version: nat)
    | Holding(version: nat, seen: Task)       // GET done, closure about to be applied
    | Committed(result: Task, reply: Reply)
    | GaveUp                                  // retries exceeded

  datatype Client = Client(op: Op, attempts: nat, phase: Phase)

  // commits names the clients whose EXEC succeeded, in order.
  datatype Db = Db(task: Task, version: nat, clients: seq<Client>, commits: seq<nat>)

  datatype Move = Watch(i: nat) | Get(i: nat) | Exec(i: nat)

  predicate Enabled(s: Db, m: Move) {
    && m.i < |s.clients|
    && match m
       case Watch(i) => s.clients[i].phase.Ready?
       case Get(i) => s.clients[i].phase.Watching?
       case Exec(i) => s.clients[i].phase.Holding?
  }

  function Step(s: Db, m: Move): Db
    requires Enabled(s, m)
  {
    var client := s.clients[m.i];
    match m
    case Watch(i) => s.(clients := s.clients[i := client.(phase := Watching(s.version))])
    case Get(i) => s.(clients := s.clients[i := client.(phase := Holding(client.phase.version, s.task))])
    case Exec(i) =>
      var seen := client.phase.seen;
      if client.phase.version == s.version then
        Db(Apply(client.op, seen), s.version + 1,
          s.clients[i := client.(phase := Committed(Apply(client.op, seen), Answer(client.op, seen)))],
          s.commits + [i])
      else
        var attempts := client.attempts + 1;
        s.(clients := s.clients[i := client.(attempts := attempts,
             phase := if attempts >= MAX_TX_RETRIES then GaveUp else Ready)])
  }

  ghost predicate Run(s: Db, ms: seq<Move>, s2: Db)
    decreases |ms|
  {
    if ms == [] then s == s2
    else Enabled(s, ms[0]) && Run(Step(s, ms[0]), ms[1..], s2)
  }

  function Start(t: Task, ops: seq<Op>): Db {
    Db(t, 0, seq(|ops|, (i: nat) requires i < |ops| => Client(ops[i], 0, Ready)), [])
  }

  // The operations of the committing clients, in commit order.
  function Ops(clients: seq<Op>, commits: seq<nat>): seq<Op>
    requires forall k :: 0 <= k < |commits| ==> commits[k] < |clients|
  {
    seq(|commits|, (k: nat) requires k < |commits| => clients[commits[k]])
  }

  // Client i committed as number k: its result and reply are those of its own
  // operation on the value current at that moment.
  ghost predicate CommittedAt(t: Task, ops: seq<Op>, s: Db, i: nat, k: nat)
    requires i < |s.clients| == |ops| && forall j :: 0 <= j < |s.commits| ==> s.commits[j] < |ops|
  {
    && k < |s.commits| && s.commits[k] == i
    && (var current := Fold(Ops(ops, s.commits)[..k], t);
        s.clients[i].phase == Committed(Apply(ops[i], current), Answer(ops[i], current)))
  }

  ghost predicate ClientFits(t: Task, ops: seq<Op>, s: Db, i: nat)
    requires i < |s.clients| == |ops| && forall j :: 0 <= j < |s.commits| ==> s.commits[j] < |ops|
  {
    var client := s.clients[i];
    && client.op == ops[i]
    && client.attempts <= 100 && (client.phase.GaveUp? <==> client.attempts == 100)
    && (match client.phase
        case Watching(version) => version <= s.version
        case Holding(version, seen) => version <= s.version && (version == s.version ==> seen == s.task)
        case _ => true)
    && (if client.phase.Committed? then exists k: nat :: CommittedAt(t, ops, s, i, k) else i !in s.commits)
  }

  ghost predicate Serial(t: Task, ops: seq<Op>, s: Db) {
    && |s.clients| == |ops| && s.version == |s.commits|
    && (forall k :: 0 <= k < |s.commits| ==> s.commits[k] < |ops|)
    && (forall j, k :: 0 <= j < k < |s.commits| ==> s.commits[j] != s.commits[k])
    && s.task == Fold(Ops(ops, s.commits), t)
    && (forall i: nat :: i < |ops| ==> ClientFits(t, ops, s, i))
  }

  lemma CommitStep(t: Task, ops: seq<Op>, s: Db, i: nat)
    requires Serial(t, ops, s) && Enabled(s, Exec(i)) && s.clients[i].phase.version == s.version
    ensures Serial(t, ops, Step(s, Exec(i)))
  {
    hide Apply, Answer;
    var s2 := Step(s, Exec(i));
    assert ClientFits(t, ops, s, i);
    var before, after := Ops(ops, s.commits), Ops(ops, s2.commits);
    assert after == before + [ops[i]];
    assert after[..|after| - 1] == before;
    assert CommittedAt(t, ops, s2, i, |s.commits|);
    forall j: nat | j < |ops| ensures ClientFits(t, ops, s2, j) {
      assert ClientFits(t, ops, s, j);
      if j != i && s.clients[j].phase.Committed? {
        var k: nat :| CommittedAt(t, ops, s, j, k);
        assert after[..k] == before[..k];
        assert CommittedAt(t, ops, s2, j, k);
      }
    }
  }

  lemma SerialStep(t: Task, ops: seq<Op>, s: Db, m: Move)
    requires Serial(t, ops, s) && Enabled(s, m)
    ensures Serial(t, ops, Step(s, m))
  {
    hide Apply, Answer, Fold;
    if m.Exec? && s.clients[m.i].phase.version == s.version {
      CommitStep(t, ops, s, m.i);
    } else {
      var s2 := Step(s, m);
      forall j: nat | j < |ops| ensures ClientFits(t, ops, s2, j) {
        assert ClientFits(t, ops, s, j);
        if s.clients[j].phase.Committed? {
          var k: nat :| CommittedAt(t, ops, s, j, k);
          assert CommittedAt(t, ops, s2, j, k);
        }
      }
    }
  }

  lemma {:induction false} SerialRun(t: Task, ops: seq<Op>, s: Db, ms: seq<Move>, s2: Db)
    requires Serial(t, ops, s) && Run(s, ms, s2)
    ensures Serial(t, ops, s2)
    decreases |ms|
  {
    if ms != [] {
      SerialStep(t, ops, s, ms[0]);
      SerialRun(t, ops, Step(s, ms[0]), ms[1..], s2);
    }
  }

  // Under any interleaving of the clients' steps the stored record is the sequential
  // fold of the operations in commit order; a client that returned committed exactly
  // once, on the value current then, with the result and reply of that application;
  // one that gave up, after exactly 100 attempts, or is still trying, not at all.
  lemma AnyHistoryIsSequential(t: Task, ops: seq<Op>, ms: seq<Move>, s: Db)
    requires Run(Start(t, ops), ms, s)
    ensures Serial(t, ops, s)
  {
    SerialRun(t, ops, Start(t, ops), ms, s);
  }

  // Once all have returned, every client stands in the commit order exactly once.
  lemma {:induction false} AllCommitted(n: nat, commits: seq<nat>)
    requires forall k :: 0 <= k < |commits| ==> commits[k] < n
    requires forall j, k :: 0 <= j < k < |commits| ==> commits[j] != commits[k]
    requires forall i: nat :: i < n ==> i in commits
    ensures |commits| == n
  {
    if n > 0 {
      var top: nat := n - 1;
      assert top in commits;
      var k :| 0 <= k < |commits| && commits[k] == top;
      var rest := commits[..k] + commits[k + 1..];
      forall i: nat | i < n - 1 ensures i in rest {
        assert i in commits;
        var j :| 0 <= j < |commits| && commits[j] == i;
        assert rest[if j < k then j else j - 1] == i;
      }
      AllCommitted(n - 1, rest);
    }
  }

  // n clients arrive at a join of in-degree n: whatever the interleaving, exactly the
  // last to commit proceeds, the counter is reset and one branch of the n is left.
  lemma OneProceeds(t: Task, id: string, n: nat, ms: seq<Move>, s: Db) returns (last: nat)
    requires n >= 2 && Count(t.joinState, id) == 0
    requires Run(Start(t, seq(n, _ => ArriveAtJoin(id, n))), ms, s)
    requires forall i :: 0 <= i < |s.clients| ==> s.clients[i].phase.Committed?
    ensures |s.clients| == n && last < n
    ensures forall i :: 0 <= i < n ==> s.clients[i].phase.reply == Proceed(i == last)
    ensures Count(s.task.joinState, id) == 0 && s.task.activeBranches == t.activeBranches - (n - 1)
  {
    hide Fold, Apply, Run;
    var ops := seq(n, _ => ArriveAtJoin(id, n));
    AnyHistoryIsSequential(t, ops, ms, s);
    forall i: nat | i < n ensures i in s.commits {
      assert ClientFits(t, ops, s, i);
    }
    AllCommitted(n, s.commits);
    var history := Ops(ops, s.commits);
    last := s.commits[n - 1];
    forall i | 0 <= i < n ensures s.clients[i].phase.reply == Proceed(i == last) {
      assert ClientFits(t, ops, s, i);
      var k: nat :| CommittedAt(t, ops, s, i, k);
      AllArrive(history[..k], t, id, n);
    }
    AllArrive(history, t, id, n);
    assert history[..n] == history;
  }

  // A history of arrivals alone, of at most one per edge.
  lemma {:induction false} AllArrive(history: seq<Op>, t: Task, id: string, n: nat)
    requires n >= 2 && Count(t.joinState, id) == 0 && |history| <= n
    requires forall k :: 0 <= k < |history| ==> history[k] == ArriveAtJoin(id, n)
    ensures
      var u := Fold(history, t);
      && Count(u.joinState, id) == (if |history| < n then |history| else 0)
      && u.activeBranches == t.activeBranches - (if |history| < n then |history| else n - 1)
  {
    if history != [] {
      AllArrive(history[..|history| - 1], t, id, n);
    }
  }
}
