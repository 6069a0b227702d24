/** Concrete runs, built step by step. */
module Schedules {
  import opened Prelude
  import opened TaskRecord
  import opened Engine
  import opened Flow
  import Terminal

  lemma Nothing(c: Config, s: State)
    ensures Run(c, s, [], s) && SmoothRun([])
  {
  }

  // Process p has frame f at work and rest below it: its step, added to a run.
  lemma Move(c: Config, s0: State, ls: seq<Label>, s: State, p: nat, f: Frame, rest: Stack, pick: Pick)
    returns (more: seq<Label>, s2: State)
    requires Run(c, s0, ls, s)
    requires p < |s.procs| && s.procs[p] == [f] + rest && WellFormed(c, f) && pick.now > ZERO_TIME
    ensures Run(c, s0, more, s2) && more == ls + [Turn(p, pick)]
    ensures
      var e := Fire(c, s.task, f, pick);
      && s2 == State(Store(e.op, s.task), Spawn(s.procs[p := e.frames + rest], e.spawned), s.callbacks + e.said,
                 s.trace + e.deeds, s.alarms)
      && (rest == [] ==> e.frames + rest == e.frames) && (e.frames == [] ==> e.frames + rest == rest)
  {
    hide Fire, WellFormed;
    var l := Turn(p, pick);
    assert s.procs[p][1..] == rest;
    s2 := Step(c, s, l);
    assert Run(c, s, [l], s2) by {
      assert [l][1..] == [];
      assert Run(c, s2, [], s2);
    }
    Terminal.RunAppend(c, s0, ls, s, [l], s2);
    more := ls + [l];
  }

  // The same without failure.
  lemma GoodMove(c: Config, s0: State, ls: seq<Label>, s: State, p: nat, f: Frame, rest: Stack)
    returns (more: seq<Label>, s2: State)
    requires Run(c, s0, ls, s) && SmoothRun(ls)
    requires p < |s.procs| && s.procs[p] == [f] + rest && WellFormed(c, f)
    ensures Run(c, s0, more, s2) && SmoothRun(more)
    ensures
      var e := Fire(c, s.task, f, Good());
      && s2.task == Store(e.op, s.task) && s2.procs == Spawn(s.procs[p := e.frames + rest], e.spawned)
      && (rest == [] ==> e.frames + rest == e.frames) && (e.frames == [] ==> e.frames + rest == rest)
  {
    hide Fire, WellFormed, Run;
    more, s2 := Move(c, s0, ls, s, p, f, rest, Good());
  }
}
