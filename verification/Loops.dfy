/**
 LOOP nodes over whole runs: handleLoopNode and IncrLoopCount.
 */
module Loops {
  import opened Prelude
  import opened Blueprints
  import opened TaskRecord
  import opened Engine

  // Of the arrivals at a LOOP so far, how many went to the body.
  ghost predicate BodyShare(n: Node, arrivals: nat, continued: nat) {
    match RuleOf(n)
    case Fixed(count) => continued == if count <= 0 then 0 else if arrivals <= count then arrivals else count
    case Conditional => continued <= arrivals && continued <= MAX_LOOP_ITERATIONS
  }

  ghost predicate LoopInv(c: Config, s: State, u: nat)
    requires u < |c.bp|
  {
    && s.trace[Iterated(u)] == Count(s.task.loopState, c.bp[u].id)
    && BodyShare(c.bp[u], s.trace[Iterated(u)], s.trace[Continued(u)])
  }

  // One step of frame f, seen from LOOP node u.
  ghost predicate LoopEffect(c: Config, t: Task, u: nat, e: Effect, arrives: bool)
    requires u < |c.bp|
  {
    && Count(Store(e.op, t).loopState, c.bp[u].id) == Count(t.loopState, c.bp[u].id) + (if arrives then 1 else 0)
    && e.deeds[Iterated(u)] == (if arrives then 1 else 0)
    && (!arrives ==> e.deeds[Continued(u)] == 0)
    && (arrives ==>
          var iteration := Count(t.loopState, c.bp[u].id) + 1;
          match RuleOf(c.bp[u])
          case Fixed(count) => e.deeds[Continued(u)] == (if iteration <= count then 1 else 0)
          case Conditional => e.deeds[Continued(u)] <= (if iteration <= MAX_LOOP_ITERATIONS then 1 else 0))
  }

  lemma SpinEffect(c: Config, t: Task, u: nat, v: nat, pick: Pick)
    requires DistinctIds(c.bp) && u < |c.bp| && v < |c.bp| && |c.bp[v].next| >= 2
    ensures LoopEffect(c, t, u, FireLoop(c, t, v, pick), u == v)
  {
    hide KindOf, Branch, RuleOf, Count, Apply;
    CountAfter(t, c.bp[v].id, c.bp[u].id);
    assert u < v ==> c.bp[u].id != c.bp[v].id;
    assert v < u ==> c.bp[u].id != c.bp[v].id;
  }

  lemma CountAfter(t: Task, id: string, other: string)
    ensures Count(Apply(IncrLoopCount(id), t).loopState, other)
            == Count(t.loopState, other) + (if id == other then 1 else 0)
  {
  }

  lemma EffectLoops(c: Config, t: Task, u: nat, f: Frame, pick: Pick)
    requires DistinctIds(c.bp) && u < |c.bp| && WellFormed(c, f)
    ensures LoopEffect(c, t, u, Fire(c, t, f, pick),
              f == Exec(u) && KindOf(c.bp[u]) == Loop && |c.bp[u].next| >= 2)
  {
    hide KindOf, FireLoop, RuleOf, InDegree, Proceeds, Branch, BodyShare;
    if f.Exec? && KindOf(c.bp[f.node]) == Loop && |c.bp[f.node].next| >= 2 {
      SpinEffect(c, t, u, f.node, pick);
    } else if f.Exec? {
      NoSpin(c, t, u, f.node, pick);
    }
  }

  lemma NoSpin(c: Config, t: Task, u: nat, v: nat, pick: Pick)
    requires u < |c.bp| && v < |c.bp| && !(KindOf(c.bp[v]) == Loop && |c.bp[v].next| >= 2)
    ensures LoopEffect(c, t, u, FireExec(c, t, v, pick), false)
  {
    hide KindOf, RuleOf, InDegree, Proceeds, Branch;
  }

  lemma LoopStep(c: Config, s: State, l: Label, u: nat)
    requires DistinctIds(c.bp) && u < |c.bp| && Enabled(c, s, l) && LoopInv(c, s, u)
    ensures LoopInv(c, Step(c, s, l), u)
  {
    hide Fire, KindOf, RuleOf;
    if l.Turn? {
      EffectLoops(c, s.task, u, s.procs[l.p][0], l.pick);
    }
  }

  lemma {:induction false} LoopRun(c: Config, s: State, ls: seq<Label>, s2: State, u: nat)
    requires DistinctIds(c.bp) && u < |c.bp| && Run(c, s, ls, s2) && LoopInv(c, s, u)
    ensures LoopInv(c, s2, u)
    decreases |ls|
  {
    if ls != [] {
      LoopStep(c, s, ls[0], u);
      LoopRun(c, Step(c, s, ls[0]), ls[1..], s2, u);
    }
  }

  // In any run, a fixed-count LOOP n has sent exactly its first n arrivals to the
  // body and all later ones to the exit; a conditional LOOP has taken its body at
  // most 10000 times.
  lemma LoopBudget(c: Config, context: map<string, string>, alarms: nat, ls: seq<Label>, s: State, u: nat)
    requires c.bp != [] && DistinctIds(c.bp) && Run(c, Init(c, context, alarms), ls, s)
    requires u < |c.bp|
    ensures BodyShare(c.bp[u], s.trace[Iterated(u)], s.trace[Continued(u)])
    ensures s.trace[Iterated(u)] == Count(s.task.loopState, c.bp[u].id)
  {
    LoopRun(c, Init(c, context, alarms), ls, s, u);
  }
}
