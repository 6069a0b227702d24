/**
 Which edge an IF or LOOP node takes, over whole runs: the edges walked are counted
 against what the expression evaluated to in each step, read from the run itself.
 */
module Decisions {
  import opened Prelude
  import opened Blueprints
  import opened TaskRecord
  import opened Engine
  import opened Conservation
  import opened Numerals
  import opened Loops

  // ---- Counting the decisions of a run -------------------------------------------------------

  datatype Choice = Any | OnTrue | OnFalse

  predicate Chooses(choice: Choice, pick: Pick) {
    match choice
    case Any => true
    case OnTrue => pick.ok && pick.cond
    case OnFalse => pick.ok && !pick.cond
  }

  // A branch standing at node u is executed.
  predicate StandsAt(c: Config, s: State, l: Label, u: nat)
    requires Enabled(c, s, l)
  {
    l.Turn? && s.procs[l.p][0] == Exec(u)
  }

  // Of the first so many executions of node u in a run, those that chose so.
  function Decided(c: Config, s: State, ls: seq<Label>, u: nat, choice: Choice, limit: nat): nat
    decreases |ls|
  {
    if ls == [] || !Enabled(c, s, ls[0]) || limit == 0 then 0
    else if !StandsAt(c, s, ls[0], u) then Decided(c, Step(c, s, ls[0]), ls[1..], u, choice, limit)
    else
      (if Chooses(choice, ls[0].pick) then 1 else 0)
      + Decided(c, Step(c, s, ls[0]), ls[1..], u, choice, limit - 1)
  }

  // How often node u was executed.
  function Executions(c: Config, s: State, ls: seq<Label>, u: nat): nat {
    Decided(c, s, ls, u, Any, |ls|)
  }

  function Min(a: nat, b: nat): nat {
    if a < b then a else b
  }

  lemma {:induction false} FirstExecutions(c: Config, s: State, ls: seq<Label>, u: nat, limit: nat, all: nat)
    requires all >= |ls|
    ensures Decided(c, s, ls, u, Any, limit) == Min(limit, Decided(c, s, ls, u, Any, all))
    ensures Decided(c, s, ls, u, Any, all) <= |ls|
    decreases |ls|
  {
    hide Fire, Enabled;
    if ls != [] && Enabled(c, s, ls[0]) && limit > 0 {
      var stands := StandsAt(c, s, ls[0], u);
      FirstExecutions(c, Step(c, s, ls[0]), ls[1..], u, if stands then limit - 1 else limit, if stands then all - 1 else all);
    } else if ls != [] && Enabled(c, s, ls[0]) {
      FirstExecutions(c, Step(c, s, ls[0]), ls[1..], u, 0, if StandsAt(c, s, ls[0], u) then all - 1 else all);
    }
  }

  // ---- One step -------------------------------------------------------------------------------

  // Edge k of node u, walked or about to be.
  function Taken(s: State, u: nat, k: nat): nat {
    s.trace[Crossed(u, k)] + Total(Walking(u, k), s.procs)
  }

  // The target of edge k is a node.
  predicate Resolves(bp: Blueprint, u: nat, k: nat)
    requires u < |bp|
  {
    k < |bp[u].next| && bp[u].next[k] != "" && Find(bp, bp[u].next[k]).Some?
  }

  // Only executing an IF or LOOP node makes a branch take one of its edges.
  lemma EdgeKept(c: Config, t: Task, f: Frame, pick: Pick, u: nat, k: nat)
    requires WellFormed(c, f) && u < |c.bp| && KindOf(c.bp[u]) in {If, Loop}
    ensures
      var e := Fire(c, t, f, pick);
      e.deeds[Crossed(u, k)] + Sum(Walking(u, k), e.frames) + Sum(Walking(u, k), e.spawned)
      == Weigh(Walking(u, k), f) + (if f == Exec(u) && e.frames == [Walk(u, k, k + 1)] then 1 else 0)
  {
    hide KindOf, FireExec, Find;
    EffectSum(Walking(u, k), c, t, f, pick);
    if f.Exec? {
      ExecShape(c, t, f.node, pick);
    }
  }

  lemma TakenStep(c: Config, s: State, l: Label, u: nat, k: nat)
    requires Enabled(c, s, l) && !l.Abort? && u < |c.bp| && KindOf(c.bp[u]) in {If, Loop}
    ensures Taken(Step(c, s, l), u, k) == Taken(s, u, k)
      + (if StandsAt(c, s, l, u) && FireExec(c, s.task, u, l.pick).frames == [Walk(u, k, k + 1)] then 1 else 0)
  {
    hide Fire, KindOf, FireExec, Sum, Total;
    if l.Turn? {
      TurnTotal(Walking(u, k), c, s, l.p, l.pick);
      EdgeKept(c, s.task, s.procs[l.p][0], l.pick, u, k);
      ExecFires(c, s.task, u, l.pick);
    } else {
      OutsideTotal(Walking(u, k), c, s, l);
    }
  }

  lemma ExecFires(c: Config, t: Task, u: nat, pick: Pick)
    requires u < |c.bp|
    ensures Fire(c, t, Exec(u), pick) == FireExec(c, t, u, pick)
  {
  }

  // ---- IF ---------------------------------------------------------------------------------------

  lemma IfChooses(c: Config, t: Task, u: nat, pick: Pick, k: nat)
    requires u < |c.bp| && KindOf(c.bp[u]) == If && |c.bp[u].next| >= 2
    ensures k < 2 && Resolves(c.bp, u, k) ==>
      (FireExec(c, t, u, pick).frames == [Walk(u, k, k + 1)] <==> pick.ok && pick.cond == (k == 0))
    ensures k >= 2 ==> FireExec(c, t, u, pick).frames != [Walk(u, k, k + 1)]
  {
    hide KindOf, Find;
  }

  lemma {:induction false} IfRun(c: Config, s: State, ls: seq<Label>, s2: State, u: nat, k: nat, limit: nat)
    requires u < |c.bp| && KindOf(c.bp[u]) == If && |c.bp[u].next| >= 2 && k < 2 && Resolves(c.bp, u, k)
    requires Run(c, s, ls, s2) && NoAborts(ls) && limit >= |ls|
    ensures Taken(s2, u, k) == Taken(s, u, k) + Decided(c, s, ls, u, if k == 0 then OnTrue else OnFalse, limit)
    decreases |ls|
  {
    hide Fire, FireExec, KindOf, Resolves, Taken, Step, Enabled;
    if ls != [] {
      assert !ls[0].Abort?;
      TakenStep(c, s, ls[0], u, k);
      if ls[0].Turn? { IfChooses(c, s.task, u, ls[0].pick, k); }
      IfRun(c, Step(c, s, ls[0]), ls[1..], s2, u, k, if StandsAt(c, s, ls[0], u) then limit - 1 else limit);
    }
  }

  // An IF node has walked its first edge, or is about to, as often as the expression was
  // true when it was executed, and its second edge as often as it was false.
  lemma IfTakes(c: Config, context: map<string, string>, alarms: nat, ls: seq<Label>, s: State, u: nat, k: nat)
    requires c.bp != [] && Run(c, Init(c, context, alarms), ls, s) && NoAborts(ls)
    requires u < |c.bp| && KindOf(c.bp[u]) == If && |c.bp[u].next| >= 2 && k < 2 && Resolves(c.bp, u, k)
    ensures Taken(s, u, k) == Decided(c, Init(c, context, alarms), ls, u, if k == 0 then OnTrue else OnFalse, |ls|)
  {
    hide KindOf, Resolves;
    NothingTaken(c, context, alarms, u, k);
    IfRun(c, Init(c, context, alarms), ls, s, u, k, |ls|);
  }

  lemma NothingTaken(c: Config, context: map<string, string>, alarms: nat, u: nat, k: nat)
    requires c.bp != []
    ensures Taken(Init(c, context, alarms), u, k) == 0
  {
    InitTotal(Walking(u, k), c, context, alarms);
  }

  // ---- LOOP -------------------------------------------------------------------------------------

  // Edge k is taken in the given iteration.
  predicate LoopChooses(n: Node, pick: Pick, k: nat, iteration: int) {
    match RuleOf(n)
    case Fixed(count) => (k == 0) == (iteration <= count)
    case Conditional => iteration <= 10000 && pick.ok && pick.cond == (k == 0)
  }

  lemma LoopWalks(c: Config, t: Task, u: nat, pick: Pick, k: nat)
    requires u < |c.bp| && KindOf(c.bp[u]) == Loop && |c.bp[u].next| >= 2 && k < 2 && Resolves(c.bp, u, k)
    ensures FireExec(c, t, u, pick).frames == [Walk(u, k, k + 1)]
            <==> LoopChooses(c.bp[u], pick, k, Count(t.loopState, c.bp[u].id) + 1)
  {
    hide KindOf, Find, RuleOf, Count;
  }

  // Every execution of a LOOP node counts one iteration; nothing else does.
  lemma IterationStep(c: Config, s: State, l: Label, u: nat)
    requires Enabled(c, s, l) && DistinctIds(c.bp) && u < |c.bp| && KindOf(c.bp[u]) == Loop && |c.bp[u].next| >= 2
    ensures Count(Step(c, s, l).task.loopState, c.bp[u].id)
            == Count(s.task.loopState, c.bp[u].id) + (if StandsAt(c, s, l, u) then 1 else 0)
  {
    hide Fire, KindOf, RuleOf, Count;
    if l.Turn? {
      EffectLoops(c, s.task, u, s.procs[l.p][0], l.pick);
    }
  }

  // What is left of n after the iterations so far.
  function Rest(n: int, loopState: map<string, int>, id: string): nat {
    if n > Count(loopState, id) then n - Count(loopState, id) else 0
  }

  lemma {:induction false} CountedRun(c: Config, s: State, ls: seq<Label>, s2: State, u: nat, n: int, limit: nat)
    requires DistinctIds(c.bp) && u < |c.bp| && KindOf(c.bp[u]) == Loop && |c.bp[u].next| >= 2
    requires RuleOf(c.bp[u]) == Fixed(n) && Run(c, s, ls, s2) && NoAborts(ls) && limit >= |ls|
    ensures
      var first := Decided(c, s, ls, u, Any, Rest(n, s.task.loopState, c.bp[u].id));
      && (Resolves(c.bp, u, 0) ==> Taken(s2, u, 0) == Taken(s, u, 0) + first)
      && (Resolves(c.bp, u, 1) ==> Taken(s2, u, 1) == Taken(s, u, 1) + Decided(c, s, ls, u, Any, limit) - first)
    decreases |ls|
  {
    hide Fire, FireExec, KindOf, RuleOf, Resolves, Taken, Step, Enabled, Count;
    if ls != [] {
      assert !ls[0].Abort?;
      IterationStep(c, s, ls[0], u);
      TakenStep(c, s, ls[0], u, 0);
      TakenStep(c, s, ls[0], u, 1);
      if ls[0].Turn? {
        if Resolves(c.bp, u, 0) { LoopWalks(c, s.task, u, ls[0].pick, 0); }
        if Resolves(c.bp, u, 1) { LoopWalks(c, s.task, u, ls[0].pick, 1); }
      }
      CountedRun(c, Step(c, s, ls[0]), ls[1..], s2, u, n, if StandsAt(c, s, ls[0], u) then limit - 1 else limit);
      NoneOfNone(c, s, ls, u);
      NoneOfNone(c, Step(c, s, ls[0]), ls[1..], u);
    }
  }

  lemma NoneOfNone(c: Config, s: State, ls: seq<Label>, u: nat)
    ensures Decided(c, s, ls, u, Any, 0) == 0
  {
  }

  lemma {:induction false} ConditionalRun(c: Config, s: State, ls: seq<Label>, s2: State, u: nat, k: nat)
    requires DistinctIds(c.bp) && u < |c.bp| && KindOf(c.bp[u]) == Loop && |c.bp[u].next| >= 2
    requires RuleOf(c.bp[u]) == Conditional && k < 2 && Resolves(c.bp, u, k)
    requires Run(c, s, ls, s2) && NoAborts(ls)
    ensures Taken(s2, u, k) == Taken(s, u, k)
      + Decided(c, s, ls, u, if k == 0 then OnTrue else OnFalse, Rest(10000, s.task.loopState, c.bp[u].id))
    decreases |ls|
  {
    hide Fire, FireExec, KindOf, RuleOf, Resolves, Taken, Step, Enabled, Count;
    if ls != [] {
      assert !ls[0].Abort?;
      IterationStep(c, s, ls[0], u);
      TakenStep(c, s, ls[0], u, k);
      if ls[0].Turn? { LoopWalks(c, s.task, u, ls[0].pick, k); }
      ConditionalRun(c, Step(c, s, ls[0]), ls[1..], s2, u, k);
    }
  }

  // A LOOP whose text is the numeral of n, white space around it allowed: over any run
  // its first n executions took the body and all later ones the exit.
  lemma CountedLoop(c: Config, context: map<string, string>, alarms: nat, ls: seq<Label>, s: State, u: nat,
      left: string, n: nat, right: string)
    requires c.bp != [] && DistinctIds(c.bp) && Run(c, Init(c, context, alarms), ls, s) && NoAborts(ls)
    requires u < |c.bp| && KindOf(c.bp[u]) == Loop && |c.bp[u].next| >= 2
    requires c.bp[u].pattern == left + Numeral(n) + right && Blank(left) && Blank(right) && n <= 0x7FFF_FFFF_FFFF_FFFF
    ensures
      var arrivals := Executions(c, Init(c, context, alarms), ls, u);
      && (Resolves(c.bp, u, 0) ==> Taken(s, u, 0) == Min(n, arrivals))
      && (Resolves(c.bp, u, 1) ==> Taken(s, u, 1) == arrivals - Min(n, arrivals))
  {
    hide KindOf, RuleOf, Resolves, Taken, Run, Numeral;
    assert "" + Numeral(n) == Numeral(n);
    CountRead(c.bp[u], left, "", n, right);
    FixedLoop(c, context, alarms, ls, s, u, n);
  }

  // ... and a negative one never takes its body.
  lemma NegativeLoop(c: Config, context: map<string, string>, alarms: nat, ls: seq<Label>, s: State, u: nat,
      left: string, n: nat, right: string)
    requires c.bp != [] && DistinctIds(c.bp) && Run(c, Init(c, context, alarms), ls, s) && NoAborts(ls)
    requires u < |c.bp| && KindOf(c.bp[u]) == Loop && |c.bp[u].next| >= 2
    requires c.bp[u].pattern == left + ("-" + Numeral(n)) + right && Blank(left) && Blank(right)
    requires n <= 0x8000_0000_0000_0000
    ensures Resolves(c.bp, u, 0) ==> Taken(s, u, 0) == 0
    ensures Resolves(c.bp, u, 1) ==> Taken(s, u, 1) == Executions(c, Init(c, context, alarms), ls, u)
  {
    hide KindOf, RuleOf, Resolves, Taken, Run, Numeral;
    CountRead(c.bp[u], left, "-", n, right);
    FixedLoop(c, context, alarms, ls, s, u, -(n as int));
  }

  lemma FixedLoop(c: Config, context: map<string, string>, alarms: nat, ls: seq<Label>, s: State, u: nat, n: int)
    requires c.bp != [] && DistinctIds(c.bp) && Run(c, Init(c, context, alarms), ls, s) && NoAborts(ls)
    requires u < |c.bp| && KindOf(c.bp[u]) == Loop && |c.bp[u].next| >= 2 && RuleOf(c.bp[u]) == Fixed(n)
    ensures
      var arrivals := Executions(c, Init(c, context, alarms), ls, u);
      var first := Min(if n > 0 then n else 0, arrivals);
      && (Resolves(c.bp, u, 0) ==> Taken(s, u, 0) == first)
      && (Resolves(c.bp, u, 1) ==> Taken(s, u, 1) == arrivals - first)
  {
    hide KindOf, RuleOf, Resolves, Taken, Run;
    var start := Init(c, context, alarms);
    NothingTaken(c, context, alarms, u, 0);
    NothingTaken(c, context, alarms, u, 1);
    CountedRun(c, start, ls, s, u, n, |ls|);
    FirstExecutions(c, start, ls, u, Rest(n, map[], c.bp[u].id), |ls|);
  }

  // A conditional LOOP: of its first 10000 executions, those with a true expression took
  // the body and those with a false one the exit; no later one took either.
  lemma ConditionalLoop(c: Config, context: map<string, string>, alarms: nat, ls: seq<Label>, s: State, u: nat, k: nat)
    requires c.bp != [] && DistinctIds(c.bp) && Run(c, Init(c, context, alarms), ls, s) && NoAborts(ls)
    requires u < |c.bp| && KindOf(c.bp[u]) == Loop && |c.bp[u].next| >= 2
    requires RuleOf(c.bp[u]) == Conditional && k < 2 && Resolves(c.bp, u, k)
    ensures Taken(s, u, k)
            == Decided(c, Init(c, context, alarms), ls, u, if k == 0 then OnTrue else OnFalse, 10000)
  {
    hide KindOf, RuleOf, Resolves, Taken, Run;
    NothingTaken(c, context, alarms, u, k);
    ConditionalRun(c, Init(c, context, alarms), ls, s, u, k);
  }
}
