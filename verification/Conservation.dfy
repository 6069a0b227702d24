/**
 Token conservation: Task.ActiveBranches counts the live branches
 (internal/taskscheduler/types.go), for every blueprint, cycles, IF and LOOP
 included, and every interleaving.
 */
module Conservation {
  import opened Prelude
  import opened Blueprints
  import opened TaskRecord
  import opened Engine

  // Live branches: unanswered plugin messages and continuations held by handlers.
  function Live(s: State): nat {
    Total(Tokens, s.procs)
  }

  ghost predicate Sound(c: Config, s: State) {
    Total(Bad(c), s.procs) == 0
  }

  // No store error has cost a handler its work.
  ghost predicate NoAborts(ls: seq<Label>) {
    forall i :: 0 <= i < |ls| ==> !ls[i].Abort?
  }

  lemma SoundStep(c: Config, s: State, l: Label)
    requires Sound(c, s) && Enabled(c, s, l)
    ensures Sound(c, Step(c, s, l))
  {
    if l.Turn? {
      TurnTotal(Bad(c), c, s, l.p, l.pick);
      EffectWellFormed(c, s.task, s.procs[l.p][0], l.pick);
    } else {
      OutsideTotal(Bad(c), c, s, l);
    }
  }

  lemma EffectWellFormed(c: Config, t: Task, f: Frame, pick: Pick)
    requires WellFormed(c, f)
    ensures Sum(Bad(c), Fire(c, t, f, pick).frames) == 0
    ensures Sum(Bad(c), Fire(c, t, f, pick).spawned) == 0
  {
    hide KindOf, FireExec, FireFan, FireWalk;
    var e := Fire(c, t, f, pick);
    EffectSum(Bad(c), c, t, f, pick);
    match f
    case Exec(u) => ExecWellFormed(c, t, u, pick);
    case Publish(u) => assert Find(c.bp, c.bp[u].id).Some?;
    case Fan(u) => FanWellFormed(c, t, u);
    case Walk(u, lo, hi) => WalkWellFormed(c, u, lo, hi);
    case _ =>
  }

  lemma ExecWellFormed(c: Config, t: Task, u: nat, pick: Pick)
    requires u < |c.bp|
    ensures
      var e := FireExec(c, t, u, pick);
      |e.frames| <= 1 && e.spawned == [] && (e.frames != [] ==> WellFormed(c, e.frames[0]))
  {
    hide FireExec, KindOf;
    ExecShape(c, t, u, pick);
  }

  lemma FanWellFormed(c: Config, t: Task, u: nat)
    requires WellFormed(c, Fan(u))
    ensures
      var e := FireFan(c, t, u);
      |e.frames| <= 1 && e.spawned == [] && (e.frames != [] ==> WellFormed(c, e.frames[0]))
  {
    hide KindOf;
  }

  lemma WalkWellFormed(c: Config, u: nat, lo: nat, hi: nat)
    requires WellFormed(c, Walk(u, lo, hi))
    ensures
      var e := FireWalk(c, u, lo, hi);
      && 1 <= |e.frames| <= 2 && e.spawned == []
      && WellFormed(c, e.frames[0]) && (|e.frames| > 1 ==> WellFormed(c, e.frames[1]))
  {
    hide KindOf;
  }

  // How one transaction moves the branch count.
  function BranchMove(op: Option<Op>, t: Task): int {
    match op
    case Some(AddBranches(delta)) => delta
    case Some(EndBranch) => -1
    case Some(ArriveAtJoin(id, expected)) => if Proceeds(t, id, expected) then 0 else -1
    case _ => 0
  }

  lemma StoreMoves(op: Option<Op>, t: Task)
    ensures Store(op, t).activeBranches == t.activeBranches + BranchMove(op, t)
    ensures Store(op, t).status == if op.Some? && op.value.MarkTerminal? && t.status == Running then op.value.status else t.status
  {
  }

  // The tokens a frame's step leaves, compared with those it held.
  ghost predicate Balanced(t: Task, f: Frame, e: Effect) {
    var created := Sum(Tokens, e.frames) + Sum(Tokens, e.spawned) - Held(f);
    && BranchMove(e.op, t) >= created
    && (BranchMove(e.op, t) == created || f.Fail? || f.Complete? || t.status != Running)
    && (f.Fail? || f.Complete? ==> e.op.Some? && e.op.value.MarkTerminal? && e.op.value.status != Running)
    && (e.op.Some? && e.op.value.MarkTerminal? ==> e.op.value.status != Running)
  }

  lemma EffectTokens(c: Config, t: Task, f: Frame, pick: Pick)
    requires WellFormed(c, f)
    ensures Balanced(t, f, Fire(c, t, f, pick))
  {
    hide KindOf, FireExec, FireFan;
    EffectSum(Tokens, c, t, f, pick);
    match f
    case Exec(u) => ExecTokens(c, t, u, pick);
    case Fan(u) => FanTokens(c, t, u);
    case _ =>
  }

  lemma ExecTokens(c: Config, t: Task, u: nat, pick: Pick)
    requires u < |c.bp|
    ensures
      var e := FireExec(c, t, u, pick);
      && |e.frames| <= 1 && e.spawned == [] && !(e.op.Some? && e.op.value.MarkTerminal?)
      && (if e.frames == [] then BranchMove(e.op, t) == -1 else BranchMove(e.op, t) == 0 && Held(e.frames[0]) == 1)
  {
    hide FireExec, KindOf;
    ExecShape(c, t, u, pick);
  }

  lemma FanTokens(c: Config, t: Task, u: nat)
    requires u < |c.bp|
    ensures Balanced(t, Fan(u), FireFan(c, t, u))
  {
    SumShort(Tokens, FireFan(c, t, u).frames);
  }

  ghost predicate Conserved(s: State) {
    && s.task.activeBranches >= Live(s)
    && (s.task.status == Running ==> s.task.activeBranches == Live(s))
  }

  lemma CoveredStep(c: Config, s: State, l: Label)
    requires Sound(c, s) && Enabled(c, s, l) && s.task.activeBranches >= Live(s)
    ensures Step(c, s, l).task.activeBranches >= Live(Step(c, s, l))
  {
    if l.Turn? {
      var e := Fire(c, s.task, s.procs[l.p][0], l.pick);
      TurnTotal(Tokens, c, s, l.p, l.pick);
      EffectTokens(c, s.task, s.procs[l.p][0], l.pick);
      StoreMoves(e.op, s.task);
    } else {
      OutsideTotal(Tokens, c, s, l);
    }
  }

  lemma ConservedStep(c: Config, s: State, l: Label)
    requires Sound(c, s) && Enabled(c, s, l) && !l.Abort? && Conserved(s)
    ensures Conserved(Step(c, s, l))
  {
    hide Fire;
    if l.Turn? {
      var e := Fire(c, s.task, s.procs[l.p][0], l.pick);
      TurnTotal(Tokens, c, s, l.p, l.pick);
      EffectTokens(c, s.task, s.procs[l.p][0], l.pick);
      StoreMoves(e.op, s.task);
    } else {
      OutsideTotal(Tokens, c, s, l);
    }
  }

  lemma InitHolds(c: Config, context: map<string, string>, alarms: nat)
    requires c.bp != []
    ensures Sound(c, Init(c, context, alarms)) && Conserved(Init(c, context, alarms))
  {
    var procs := Init(c, context, alarms).procs;
    assert procs[..0] == [];
    assert Sum(Tokens, procs[0]) == 1 && Sum(Bad(c), procs[0]) == 0;
  }

  lemma {:induction false} SoundRun(c: Config, s: State, ls: seq<Label>, s2: State)
    requires Sound(c, s) && Run(c, s, ls, s2)
    ensures Sound(c, s2)
    decreases |ls|
  {
    if ls != [] {
      SoundStep(c, s, ls[0]);
      SoundRun(c, Step(c, s, ls[0]), ls[1..], s2);
    }
  }

  lemma {:induction false} CoveredRun(c: Config, s: State, ls: seq<Label>, s2: State)
    requires Sound(c, s) && Run(c, s, ls, s2) && s.task.activeBranches >= Live(s)
    ensures s2.task.activeBranches >= Live(s2)
    decreases |ls|
  {
    if ls != [] {
      SoundStep(c, s, ls[0]);
      CoveredStep(c, s, ls[0]);
      CoveredRun(c, Step(c, s, ls[0]), ls[1..], s2);
    }
  }

  lemma {:induction false} ConservedRun(c: Config, s: State, ls: seq<Label>, s2: State)
    requires Sound(c, s) && Run(c, s, ls, s2) && Conserved(s) && NoAborts(ls)
    ensures Conserved(s2)
    decreases |ls|
  {
    if ls != [] {
      assert !ls[0].Abort?;
      SoundStep(c, s, ls[0]);
      ConservedStep(c, s, ls[0]);
      ConservedRun(c, Step(c, s, ls[0]), ls[1..], s2);
    }
  }

  // In every reachable state the count covers the live branches, so it is never
  // negative, even when store errors abandoned some of them ...
  lemma BranchCountNeverNegative(c: Config, context: map<string, string>, alarms: nat, ls: seq<Label>, s: State)
    requires c.bp != [] && Run(c, Init(c, context, alarms), ls, s)
    ensures s.task.activeBranches >= Live(s) >= 0
  {
    InitHolds(c, context, alarms);
    CoveredRun(c, Init(c, context, alarms), ls, s);
  }

  // ... and while the task is running and no store error occurred, it is exactly
  // the number of live branches.
  lemma TokenConservation(c: Config, context: map<string, string>, alarms: nat, ls: seq<Label>, s: State)
    requires c.bp != [] && Run(c, Init(c, context, alarms), ls, s) && NoAborts(ls)
    ensures s.task.status == Running ==> s.task.activeBranches == Live(s)
  {
    InitHolds(c, context, alarms);
    ConservedRun(c, Init(c, context, alarms), ls, s);
  }

  // ---- Leaf completion ------------------------------------------------------------

  ghost predicate AtLeaf(c: Config, s: State, l: Label) {
    && l.Turn? && Enabled(c, s, l)
    && s.procs[l.p][0].Fan? && c.bp[s.procs[l.p][0].node].next == []
  }

  // EndBranch returns a count at or below zero only when no other token is live,
  // and then completeTask is next for this handler; the last live token of a
  // running task to reach a leaf always gets there.
  lemma LeafCompletionExact(c: Config, context: map<string, string>, alarms: nat, ls: seq<Label>, s: State, l: Label)
    requires c.bp != [] && Run(c, Init(c, context, alarms), ls, s) && AtLeaf(c, s, l)
    ensures
      var s2, returned := Step(c, s, l), s.task.activeBranches - 1;
      && Answer(EndBranch, s.task) == Remaining(returned)
      && (returned <= 0 ==> Live(s) == 1 && Live(s2) == 0)
      && s2.procs[l.p] == (if returned <= 0 then [Complete(0)] else []) + s.procs[l.p][1..]
      && (NoAborts(ls) && s.task.status == Running ==> (returned <= 0 <==> Live(s) == 1))
  {
    BranchCountNeverNegative(c, context, alarms, ls, s);
    TurnTotal(Tokens, c, s, l.p, l.pick);
    if NoAborts(ls) {
      TokenConservation(c, context, alarms, ls, s);
    }
  }

  ghost predicate OnceDone(s: State) {
    s.trace[LastBranch] == 0 || (s.trace[LastBranch] == 1 && Live(s) == 0)
  }

  // Tokens come only from tokens, and the last EndBranch leaves none.
  lemma EffectDeeds(c: Config, t: Task, f: Frame, pick: Pick)
    requires WellFormed(c, f)
    ensures
      var e := Fire(c, t, f, pick);
      var created := Sum(Tokens, e.frames) + Sum(Tokens, e.spawned);
      && (Held(f) == 0 ==> created == 0)
      && e.deeds[LastBranch] <= 1
      && (e.deeds[LastBranch] == 1 ==> Held(f) == 1 && created == 0 && t.activeBranches <= 1)
  {
    hide KindOf, FireExec, FireFan;
    EffectSum(Tokens, c, t, f, pick);
    match f
    case Exec(u) => ExecDeeds(c, t, u, pick);
    case Fan(u) => FanDeeds(c, t, u);
    case _ =>
  }

  lemma ExecDeeds(c: Config, t: Task, u: nat, pick: Pick)
    requires u < |c.bp|
    ensures FireExec(c, t, u, pick).deeds[LastBranch] == 0
  {
    hide FireExec, KindOf;
    ExecShape(c, t, u, pick);
  }

  lemma FanDeeds(c: Config, t: Task, u: nat)
    requires u < |c.bp|
    ensures
      var e := FireFan(c, t, u);
      && e.spawned == [] && |e.frames| <= 1 && e.deeds[LastBranch] <= 1
      && (e.deeds[LastBranch] == 1 ==> e.frames == [Complete(0)] && t.activeBranches <= 1)
  {
  }

  lemma OnceDoneStep(c: Config, s: State, l: Label)
    requires Enabled(c, s, l) && OnceDone(s) && s.task.activeBranches >= Live(s)
    ensures OnceDone(Step(c, s, l))
  {
    hide Fire;
    if l.Turn? {
      TurnTotal(Tokens, c, s, l.p, l.pick);
      EffectDeeds(c, s.task, s.procs[l.p][0], l.pick);
    } else {
      OutsideTotal(Tokens, c, s, l);
    }
  }

  lemma {:induction false} OnceDoneRun(c: Config, s: State, ls: seq<Label>, s2: State)
    requires Sound(c, s) && Run(c, s, ls, s2) && OnceDone(s) && s.task.activeBranches >= Live(s)
    ensures OnceDone(s2)
    decreases |ls|
  {
    if ls != [] {
      SoundStep(c, s, ls[0]);
      CoveredStep(c, s, ls[0]);
      OnceDoneStep(c, s, ls[0]);
      OnceDoneRun(c, Step(c, s, ls[0]), ls[1..], s2);
    }
  }

  // At most one EndBranch of a whole run reports that no branch is left, and from
  // then on no branch is ever live again.
  lemma LastBranchEndsOnce(c: Config, context: map<string, string>, alarms: nat, ls: seq<Label>, s: State)
    requires c.bp != [] && Run(c, Init(c, context, alarms), ls, s)
    ensures s.trace[LastBranch] <= 1
    ensures s.trace[LastBranch] == 1 ==> Live(s) == 0
  {
    InitHolds(c, context, alarms);
    OnceDoneRun(c, Init(c, context, alarms), ls, s);
  }
}
