/**
 The execution engine of internal/taskscheduler/scheduler.go as a state machine.

 Handlers run concurrently on one shared Task record. A handler is the stack of
 work it still has to do: the calls it is inside and the remaining iterations of
 its fan-out loops, innermost first. A published plugin message that nobody has
 answered yet is a process of its own, holding only Await; the reply turns it
 into a handler. A step takes the innermost frame of one process and performs at
 most one store transaction.
 */
module Engine {
  import opened Prelude
  import opened Blueprints
  import opened TaskRecord

  datatype Event = TaskCompleted | TaskFailed

  datatype Frame =
    | Exec(node: nat)                    // executeNode is about to run
    | Publish(node: nat)                 // registered as active; message not sent yet
    | Await(id: string)                  // message sent, unanswered
    | Recv(id: string)                   // reply accepted; still registered as active
    | Merge(id: string)                  // node output not merged yet
    | Fan(node: nat)                     // handleFanOut is about to run
    | Walk(node: nat, lo: nat, hi: nat)  // edges lo..hi of node still to be walked
    | Fail(reason: Reason, held: nat)    // failTask, for a branch (held = 1) or for none
    | Complete(held: nat)                // completeTask, likewise
    | Callback(event: Event)             // sendCallback

  type Stack = seq<Frame>

  datatype Message = Message(event: Event, status: Status, failReason: Reason)

  // What a run has done so far, counted.
  datatype Deed =
    | Emitted(node: nat)           // handleFanOut expanded the node's edges, or ended at a leaf
    | Crossed(node: nat, k: nat)   // edge k of the node was walked
    | LastBranch                   // EndBranch returned a count at or below zero
    | Iterated(node: nat)          // a branch arrived at the LOOP node
    | Continued(node: nat)         // ... and was sent to the loop body
    | StaleCallback                // a callback was sent with the handler's own copy of the Task

  datatype Config = Config(bp: Blueprint, trigger: string)

  datatype State = State(
    task: Task,
    procs: seq<Stack>,
    callbacks: seq<Message>,
    trace: multiset<Deed>,
    alarms: nat)  // failures from outside (watchdog, plugin down) still to come

  // What the outside world decides in one step: whether the node's own work,
  // its publication or its reply succeeded, what an expression evaluated to,
  // the clock, the data merged into the context, and whether sendCallback could
  // read the record.
  datatype Pick = Pick(
    ok: bool,
    cond: bool,
    now: int,
    registered: bool,
    hasOutput: bool,
    outputValid: bool,
    output: map<string, string>,
    reason: string,
    readable: bool)

  datatype Label =
    | Turn(p: nat, pick: Pick)  // process p takes a step
    | Sweep(now: int)           // the watchdog finds an expired node
    | PluginDown                // health check: the triggering plugin's container is gone
    | Abort(p: nat)             // a store error ends handler p, or its message is lost

  // At most one transaction, the frames that replace the one taken, possibly a
  // new process, and what was sent and done.
  datatype Effect = Effect(op: Option<Op>, frames: Stack, spawned: Stack, said: seq<Message>, deeds: multiset<Deed>)

  function Local(frames: Stack): Effect {
    Effect(None, frames, [], [], multiset{})
  }

  function Commit(op: Op, frames: Stack): Effect {
    Effect(Some(op), frames, [], [], multiset{})
  }

  function Store(op: Option<Op>, t: Task): Task {
    match op case None => t case Some(o) => Apply(o, t)
  }

  // ---- The handlers, one transaction at a time -----------------------------------

  // executeNode, executeBuiltinNode, handleIFNode, handleLoopNode, handleJoinNode
  // and the registration of executePluginNode.
  function FireExec(c: Config, t: Task, u: nat, pick: Pick): Effect
    requires u < |c.bp|
  {
    var n := c.bp[u];
    match KindOf(n)
    case Plugin =>
      if pick.registered then Commit(AddActiveNode(n.id, pick.now + Timeout(n)), [Publish(u)])
      else Local([Publish(u)])
    case Input => FireBuiltin(u, pick)
    case Output => FireBuiltin(u, pick)
    case Join =>
      var expected := InDegree(c.bp, n.id);
      if expected <= 1 then Local([Fan(u)])
      else Commit(ArriveAtJoin(n.id, expected), if Proceeds(t, n.id, expected) then [Fan(u)] else [])
    case If =>
      if |n.next| < 2 then Local([Fail(BadBranching, 1)])
      else if !pick.ok then Local([Fail(EvalFailed, 1)])
      else Local(Branch(c, u, if pick.cond then 0 else 1))
    case Loop => FireLoop(c, t, u, pick)
    case Unknown => Local([Fail(BadBuiltin, 1)])
  }

  function FireBuiltin(u: nat, pick: Pick): Effect {
    if pick.ok then Commit(MergeContext(pick.output), [Fan(u)])
    else Local([Fail(BadBuiltin, 1)])
  }

  function FireLoop(c: Config, t: Task, u: nat, pick: Pick): Effect
    requires u < |c.bp|
  {
    var n := c.bp[u];
    if |n.next| < 2 then Local([Fail(BadBranching, 1)])
    else
      var iteration := Count(t.loopState, n.id) + 1;
      match RuleOf(n)
      case Fixed(count) => Iterate(c, u, iteration <= count)
      case Conditional =>
        if iteration > MAX_LOOP_ITERATIONS then Spin(c, u, [Fail(LoopCapExceeded, 1)], multiset{Iterated(u)})
        else if !pick.ok then Spin(c, u, [Fail(EvalFailed, 1)], multiset{Iterated(u)})
        else Iterate(c, u, pick.cond)
  }

  function Iterate(c: Config, u: nat, continues: bool): Effect
    requires u < |c.bp| && |c.bp[u].next| >= 2
  {
    if continues then Spin(c, u, Branch(c, u, 0), multiset{Iterated(u), Continued(u)})
    else Spin(c, u, Branch(c, u, 1), multiset{Iterated(u)})
  }

  function Spin(c: Config, u: nat, frames: Stack, deeds: multiset<Deed>): Effect
    requires u < |c.bp|
  {
    Effect(Some(IncrLoopCount(c.bp[u].id)), frames, [], [], deeds)
  }

  // IF and LOOP take a single edge; an empty target completes the task.
  function Branch(c: Config, u: nat, k: nat): Stack
    requires u < |c.bp| && k < |c.bp[u].next|
  {
    if c.bp[u].next[k] == "" then [Complete(1)]
    else if Find(c.bp, c.bp[u].next[k]).None? then [Fail(NextNotFound, 1)]
    else [Walk(u, k, k + 1)]
  }

  predicate AllResolve(bp: Blueprint, u: nat)
    requires u < |bp|
  {
    forall k :: 0 <= k < |bp[u].next| ==> Find(bp, bp[u].next[k]).Some?
  }

  // handleFanOut up to its loop.
  function FireFan(c: Config, t: Task, u: nat): Effect
    requires u < |c.bp|
  {
    var width := |c.bp[u].next|;
    if width == 0 then
      var last := t.activeBranches - 1 <= 0;
      Effect(Some(EndBranch), if last then [Complete(0)] else [], [], [],
        if last then multiset{Emitted(u), LastBranch} else multiset{Emitted(u)})
    else if !AllResolve(c.bp, u) then Local([Fail(NextNotFound, 1)])
    else Effect(if width > 1 then Some(AddBranches(width - 1)) else None, [Walk(u, 0, width)], [], [], multiset{Emitted(u)})
  }

  // One iteration of the fan-out loop, up to the recursive executeNode.
  function FireWalk(c: Config, u: nat, lo: nat, hi: nat): Effect
    requires u < |c.bp| && lo < hi <= |c.bp[u].next| && Find(c.bp, c.bp[u].next[lo]).Some?
  {
    var v := Find(c.bp, c.bp[u].next[lo]).value;
    Effect(Some(AdvanceNode(c.bp[v].id)), [Exec(v)] + (if lo + 1 < hi then [Walk(u, lo + 1, hi)] else []), [], [],
      multiset{Crossed(u, lo)})
  }

  // advanceTask on the node a reply names.
  function Resume(c: Config, id: string): Stack {
    match Find(c.bp, id)
    case None => []
    case Some(u) => if KindOf(c.bp[u]) in {If, Loop} then [Exec(u)] else [Fan(u)]
  }

  function Outcome(event: Event): Status {
    match event case TaskCompleted => Completed case TaskFailed => Failed
  }

  function FireTerminal(t: Task, event: Event, reason: Reason): Effect {
    Commit(MarkTerminal(Outcome(event), reason), if t.status == Running then [Callback(event)] else [])
  }

  predicate WellFormed(c: Config, f: Frame) {
    match f
    case Exec(u) => u < |c.bp|
    case Publish(u) => u < |c.bp| && KindOf(c.bp[u]) == Plugin
    case Await(id) => Find(c.bp, id).Some?
    case Recv(id) => Find(c.bp, id).Some?
    case Merge(id) => Find(c.bp, id).Some?
    case Fan(u) => u < |c.bp| && KindOf(c.bp[u]) !in {If, Loop}
    case Walk(u, lo, hi) =>
      && u < |c.bp| && lo < hi <= |c.bp[u].next|
      && (forall k :: lo <= k < hi ==> Find(c.bp, c.bp[u].next[k]).Some?)
      && (KindOf(c.bp[u]) in {If, Loop} ==> hi == lo + 1)
    case _ => true
  }

  function Fire(c: Config, t: Task, f: Frame, pick: Pick): Effect
    requires WellFormed(c, f)
  {
    match f
    case Exec(u) => FireExec(c, t, u, pick)
    case Publish(u) =>
      if pick.ok then Effect(None, [], [Await(c.bp[u].id)], [], multiset{})
      else Local([Fail(PublishFailed, 1)])
    case Await(id) =>
      // handleNodeResult: the status check on the record as it is now
      if t.status != Running then Local([])
      else if !pick.ok then Local([Fail(Reported(pick.reason), 1)])
      else Local([Recv(id)])
    case Recv(id) =>
      Commit(RemoveActiveNode(id),
        if !pick.hasOutput then Resume(c, id)
        else if !pick.outputValid then [Fail(BadOutput, 1)]
        else [Merge(id)])
    case Merge(id) => Commit(MergeContext(pick.output), Resume(c, id))
    case Fan(u) => FireFan(c, t, u)
    case Walk(u, lo, hi) => FireWalk(c, u, lo, hi)
    case Fail(reason, _) => FireTerminal(t, TaskFailed, reason)
    case Complete(_) => FireTerminal(t, TaskCompleted, NoReason)
    case Callback(event) =>
      if c.trigger == "" then Local([])
      else if pick.readable then Effect(None, [], [], [Message(event, t.status, t.failReason)], multiset{})
      else Effect(None, [], [], [Stale(event)], multiset{StaleCallback})
  }

  // The handler's copy of the Task dates from before it ended the task.
  function Stale(event: Event): Message {
    Message(event, Running, NoReason)
  }

  // ---- Steps and runs -------------------------------------------------------------

  predicate Expired(t: Task, now: int) {
    exists id :: id in t.activeNodes && ZERO_TIME != t.activeNodes[id] <= now
  }

  predicate Enabled(c: Config, s: State, l: Label) {
    match l
    case Turn(p, pick) => p < |s.procs| && s.procs[p] != [] && WellFormed(c, s.procs[p][0]) && pick.now > ZERO_TIME
    case Sweep(now) => s.alarms > 0 && s.task.status == Running && Expired(s.task, now)
    case PluginDown => s.alarms > 0 && s.task.status == Running
    case Abort(p) => p < |s.procs| && s.procs[p] != []
  }

  function Spawn(procs: seq<Stack>, spawned: Stack): seq<Stack> {
    if spawned == [] then procs else procs + [spawned]
  }

  function Step(c: Config, s: State, l: Label): State
    requires Enabled(c, s, l)
  {
    match l
    case Turn(p, pick) =>
      var e := Fire(c, s.task, s.procs[p][0], pick);
      State(Store(e.op, s.task), Spawn(s.procs[p := e.frames + s.procs[p][1..]], e.spawned),
        s.callbacks + e.said, s.trace + e.deeds, s.alarms)
    case Sweep(_) => s.(procs := s.procs + [[Fail(NodeTimeout, 0)]], alarms := s.alarms - 1)
    case PluginDown => s.(procs := s.procs + [[Fail(PluginIsDown(c.trigger), 0)]], alarms := s.alarms - 1)
    case Abort(p) => s.(procs := s.procs[p := []])
  }

  // createAndStartTask, for a blueprint that has nodes.
  function Init(c: Config, context: map<string, string>, alarms: nat): State
    requires c.bp != []
  {
    State(Task(Running, NoReason, c.bp[0].id, context, map[], 1, map[], map[]), [[Exec(0)]], [], multiset{}, alarms)
  }

  // ls leads from s to s2: any interleaving of any handlers with the outside world.
  ghost predicate Run(c: Config, s: State, ls: seq<Label>, s2: State)
    decreases |ls|
  {
    if ls == [] then s == s2
    else Enabled(c, s, ls[0]) && Run(c, Step(c, s, ls[0]), ls[1..], s2)
  }

  // Nothing left to do: every handler returned and every message was answered.
  predicate Quiet(s: State) {
    forall p :: 0 <= p < |s.procs| ==> s.procs[p] == []
  }

  // ---- Sums over all frames of all processes -----------------------------------------

  datatype Gauge =
    | Tokens                      // live branches
    | Bad(c: Config)              // ill-formed frames
    | CallbackOf(event: Event)    // callbacks decided but not sent
    | Stray(c: Config)            // replies to nodes that are no plugin nodes
    | Completions                 // completeTask calls pending
    | Failures                    // failTask calls pending
    | FailedBranches              // ... for a branch
    | Fuel(c: Config, rank: seq<nat>)
    | At(c: Config, node: nat)    // tokens standing at the node
    | Waiting(node: nat)          // tokens about to execute the node
    | Fanning(node: nat)          // tokens about to leave the node
    | Walking(node: nat, k: nat)  // tokens about to cross edge k of the node
    | Accepted                    // replies accepted, their node not taken back yet
    | Answered(c: Config, node: nat)  // tokens between the node's reply and its departure
    | Outstanding(c: Config, id: string)  // dispatches of a plugin node not yet done with

  function Weigh(g: Gauge, f: Frame): nat {
    match g
    case Tokens => Held(f)
    case Bad(c) => if WellFormed(c, f) then 0 else 1
    case CallbackOf(event) => if f == Callback(event) then 1 else 0
    case Stray(c) => if f.Await? || f.Recv? || f.Merge? then (if ForPlugin(c, f.id) then 0 else 1) else 0
    case Completions => if f.Complete? then 1 else 0
    case Failures => if f.Fail? then 1 else 0
    case FailedBranches => if f.Fail? && f.held > 0 then 1 else 0
    case Fuel(c, rank) => FrameFuel(c, rank, f)
    case At(c, u) => if NodeOf(c, f) == Some(u) then 1 else 0
    case Waiting(u) => if f == Exec(u) then 1 else 0
    case Fanning(u) => if f == Fan(u) then 1 else 0
    case Walking(u, k) => if f.Walk? && f.node == u && f.lo <= k < f.hi then 1 else 0
    case Accepted => if f.Recv? then 1 else 0
    case Answered(c, u) => if (f.Recv? || f.Merge? || f.Fan?) && NodeOf(c, f) == Some(u) then 1 else 0
    case Outstanding(c, id) =>
      if (f.Publish? && f.node < |c.bp| && c.bp[f.node].id == id) || f == Await(id) || f == Recv(id) then 1 else 0
  }

  predicate ForPlugin(c: Config, id: string) {
    var u := Find(c.bp, id);
    u.Some? && KindOf(c.bp[u.value]) == Plugin
  }

  function Held(f: Frame): nat {
    match f
    case Walk(_, lo, hi) => if lo <= hi then hi - lo else 0
    case Fail(_, held) => held
    case Complete(held) => held
    case Callback(_) => 0
    case _ => 1
  }

  function NodeOf(c: Config, f: Frame): Option<nat> {
    match f
    case Exec(u) => Some(u)
    case Publish(u) => Some(u)
    case Fan(u) => Some(u)
    case Await(id) => Find(c.bp, id)
    case Recv(id) => Find(c.bp, id)
    case Merge(id) => Find(c.bp, id)
    case _ => None
  }

  // Fuel: how many steps a token can still cause without a LOOP body being taken.
  function ExecFuel(bp: Blueprint, rank: seq<nat>, u: nat): nat
    requires u < |bp| == |rank|
    decreases rank[u], 1, 0
  {
    FanFuel(bp, rank, u) + 6
  }

  function FanFuel(bp: Blueprint, rank: seq<nat>, u: nat): nat
    requires u < |bp| == |rank|
    decreases rank[u], 0, |bp[u].next| + 1
  {
    3 + DownhillFuel(bp, rank, u, 0)
  }

  function DownhillFuel(bp: Blueprint, rank: seq<nat>, u: nat, k: nat): nat
    requires u < |bp| == |rank| && k <= |bp[u].next|
    decreases rank[u], 0, |bp[u].next| - k
  {
    if k == |bp[u].next| then 0
    else
      (match Find(bp, bp[u].next[k])
       case None => 0
       case Some(v) => if rank[v] < rank[u] then ExecFuel(bp, rank, v) + 1 else 0)
      + DownhillFuel(bp, rank, u, k + 1)
  }

  function WalkFuel(bp: Blueprint, rank: seq<nat>, u: nat, lo: nat, hi: nat): nat
    requires u < |bp| == |rank| && lo <= hi <= |bp[u].next|
    decreases hi - lo
  {
    if lo == hi then 0
    else
      (match Find(bp, bp[u].next[lo]) case None => 0 case Some(v) => ExecFuel(bp, rank, v) + 1)
      + WalkFuel(bp, rank, u, lo + 1, hi)
  }

  function FrameFuel(c: Config, rank: seq<nat>, f: Frame): nat {
    if |c.bp| != |rank| || !WellFormed(c, f) then 0
    else
      match f
      case Exec(u) => ExecFuel(c.bp, rank, u)
      case Publish(u) => FanFuel(c.bp, rank, u) + 5
      case Await(id) => ReplyFuel(c, rank, id) + 4
      case Recv(id) => ReplyFuel(c, rank, id) + 3
      case Merge(id) => ReplyFuel(c, rank, id) + 2
      case Fan(u) => FanFuel(c.bp, rank, u)
      case Walk(u, lo, hi) => WalkFuel(c.bp, rank, u, lo, hi)
      case Fail(_, _) => 2
      case Complete(_) => 2
      case Callback(_) => 1
  }

  function ReplyFuel(c: Config, rank: seq<nat>, id: string): nat
    requires |c.bp| == |rank| && Find(c.bp, id).Some?
  {
    var u := Find(c.bp, id).value;
    if KindOf(c.bp[u]) in {If, Loop} then ExecFuel(c.bp, rank, u) else FanFuel(c.bp, rank, u)
  }

  function Sum(g: Gauge, fs: Stack): nat {
    if fs == [] then 0 else Weigh(g, fs[0]) + Sum(g, fs[1..])
  }

  function Total(g: Gauge, procs: seq<Stack>): nat {
    if procs == [] then 0 else Total(g, procs[..|procs| - 1]) + Sum(g, procs[|procs| - 1])
  }

  // Effects are short: the sums over them unroll.
  lemma EffectSum(g: Gauge, c: Config, t: Task, f: Frame, pick: Pick)
    requires WellFormed(c, f)
    ensures
      var e := Fire(c, t, f, pick);
      && |e.frames| <= 2 && |e.spawned| <= 1
      && Sum(g, e.frames) == (if |e.frames| > 0 then Weigh(g, e.frames[0]) else 0)
                             + (if |e.frames| > 1 then Weigh(g, e.frames[1]) else 0)
      && Sum(g, e.spawned) == (if |e.spawned| > 0 then Weigh(g, e.spawned[0]) else 0)
  {
    var e := Fire(c, t, f, pick);
    EffectShort(c, t, f, pick);
    SumShort(g, e.frames);
    SumShort(g, e.spawned);
  }

  // What executing a node can lead to: a single frame, or none when a join
  // absorbs the branch, and never more than node-local bookkeeping.
  ghost predicate ExecResult(c: Config, t: Task, u: nat, e: Effect)
    requires u < |c.bp|
  {
    && e.spawned == [] && e.said == []
    && (match e.op
        case None => true
        case Some(op) =>
          op.AddActiveNode? || op.MergeContext? || op.IncrLoopCount?
          || (op.ArriveAtJoin? && KindOf(c.bp[u]) == Join && op == ArriveAtJoin(c.bp[u].id, InDegree(c.bp, c.bp[u].id))))
    && (forall d :: d in e.deeds ==> d == Iterated(u) || d == Continued(u))
    && (if e.op.Some? && e.op.value.ArriveAtJoin? && !Proceeds(t, e.op.value.id, e.op.value.expected) then e.frames == []
        else |e.frames| == 1 && NextFrame(c, u, e.frames[0]))
  }

  ghost predicate NextFrame(c: Config, u: nat, f: Frame)
    requires u < |c.bp|
  {
    && WellFormed(c, f)
    && (match f
        case Publish(v) => v == u && KindOf(c.bp[u]) == Plugin
        case Fan(v) => v == u && KindOf(c.bp[u]) in {Input, Output, Join}
        case Walk(v, lo, hi) => v == u && hi == lo + 1 && KindOf(c.bp[u]) in {If, Loop}
        case Fail(_, held) => held == 1
        case Complete(held) => held == 1 && KindOf(c.bp[u]) in {If, Loop}
        case _ => false)
  }

  lemma ExecShape(c: Config, t: Task, u: nat, pick: Pick)
    requires u < |c.bp|
    ensures ExecResult(c, t, u, FireExec(c, t, u, pick))
  {
    hide RuleOf, InDegree, FireLoop, Branch, Proceeds;
    match KindOf(c.bp[u])
    case If =>
      if |c.bp[u].next| >= 2 { BranchShape(c, u, 0); BranchShape(c, u, 1); }
    case Loop => LoopShape(c, t, u, pick);
    case _ =>
  }

  lemma LoopShape(c: Config, t: Task, u: nat, pick: Pick)
    requires u < |c.bp| && KindOf(c.bp[u]) == Loop
    ensures ExecResult(c, t, u, FireLoop(c, t, u, pick))
  {
    hide KindOf, RuleOf, Branch, Count;
    if |c.bp[u].next| >= 2 { BranchShape(c, u, 0); BranchShape(c, u, 1); }
  }

  lemma BranchShape(c: Config, u: nat, k: nat)
    requires u < |c.bp| && k < |c.bp[u].next| && KindOf(c.bp[u]) in {If, Loop}
    ensures |Branch(c, u, k)| == 1 && NextFrame(c, u, Branch(c, u, k)[0])
  {
    hide KindOf;
  }

  lemma EffectShort(c: Config, t: Task, f: Frame, pick: Pick)
    requires WellFormed(c, f)
    ensures |Fire(c, t, f, pick).frames| <= 2 && |Fire(c, t, f, pick).spawned| <= 1
  {
    hide FireExec, KindOf, Proceeds, Count;
    if f.Exec? {
      ExecShape(c, t, f.node, pick);
    }
  }

  lemma SumShort(g: Gauge, fs: Stack)
    requires |fs| <= 2
    ensures Sum(g, fs) == (if |fs| > 0 then Weigh(g, fs[0]) else 0) + (if |fs| > 1 then Weigh(g, fs[1]) else 0)
  {
    if fs != [] && fs[1..] != [] {
      assert fs[1..][1..] == [];
    }
  }

  lemma {:induction false} SumAppend(g: Gauge, a: Stack, b: Stack)
    ensures Sum(g, a + b) == Sum(g, a) + Sum(g, b)
  {
    if a == [] {
      assert a + b == b;
    } else {
      assert (a + b)[1..] == a[1..] + b;
      SumAppend(g, a[1..], b);
    }
  }

  lemma {:induction false} TotalReplace(g: Gauge, procs: seq<Stack>, p: nat, fs: Stack)
    requires p < |procs|
    ensures Total(g, procs[p := fs]) == Total(g, procs) - Sum(g, procs[p]) + Sum(g, fs)
    ensures Sum(g, procs[p]) <= Total(g, procs)
  {
    var last := |procs| - 1;
    if p == last {
      assert procs[p := fs][..last] == procs[..last];
    } else {
      assert procs[p := fs][..last] == procs[..last][p := fs];
      TotalReplace(g, procs[..last], p, fs);
    }
  }

  lemma TotalAppend(g: Gauge, procs: seq<Stack>, fs: Stack)
    ensures Total(g, procs + [fs]) == Total(g, procs) + Sum(g, fs)
  {
    assert (procs + [fs])[..|procs|] == procs;
  }

  // What one turn does to any sum.
  lemma TurnTotal(g: Gauge, c: Config, s: State, p: nat, pick: Pick)
    requires Enabled(c, s, Turn(p, pick))
    ensures
      var f, e := s.procs[p][0], Fire(c, s.task, s.procs[p][0], pick);
      && Weigh(g, f) <= Total(g, s.procs)
      && Total(g, Step(c, s, Turn(p, pick)).procs)
         == Total(g, s.procs) - Weigh(g, f) + Sum(g, e.frames) + Sum(g, e.spawned)
  {
    var e := Fire(c, s.task, s.procs[p][0], pick);
    var fs := e.frames + s.procs[p][1..];
    SumAppend(g, e.frames, s.procs[p][1..]);
    TotalReplace(g, s.procs, p, fs);
    if e.spawned != [] {
      TotalAppend(g, s.procs[p := fs], e.spawned);
    }
  }

  // ... and what the outside world does to it.
  lemma OutsideTotal(g: Gauge, c: Config, s: State, l: Label)
    requires Enabled(c, s, l) && !l.Turn?
    ensures l.Abort? ==> Total(g, Step(c, s, l).procs) == Total(g, s.procs) - Sum(g, s.procs[l.p])
    ensures l.Sweep? ==> Total(g, Step(c, s, l).procs) == Total(g, s.procs) + Weigh(g, Fail(NodeTimeout, 0))
    ensures l.PluginDown? ==> Total(g, Step(c, s, l).procs) == Total(g, s.procs) + Weigh(g, Fail(PluginIsDown(c.trigger), 0))
  {
    match l
    case Abort(p) => TotalReplace(g, s.procs, p, []);
    case Sweep(_) => TotalAppend(g, s.procs, [Fail(NodeTimeout, 0)]);
    case PluginDown => TotalAppend(g, s.procs, [Fail(PluginIsDown(c.trigger), 0)]);
  }

  lemma {:induction false} QuietTotal(g: Gauge, procs: seq<Stack>)
    requires forall p :: 0 <= p < |procs| ==> procs[p] == []
    ensures Total(g, procs) == 0
  {
    if procs != [] {
      QuietTotal(g, procs[..|procs| - 1]);
    }
  }

  // At the start there is the entry to execute.
  lemma InitTotal(g: Gauge, c: Config, context: map<string, string>, alarms: nat)
    requires c.bp != []
    ensures Total(g, Init(c, context, alarms).procs) == Weigh(g, Exec(0))
  {
    var procs := Init(c, context, alarms).procs;
    assert procs[..0] == [];
    assert Sum(g, procs[0]) == Weigh(g, Exec(0)) + Sum(g, []);
  }
}
