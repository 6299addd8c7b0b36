/** Runs put together from steps, and runs in which one goroutine takes all the steps. */
module Runs {
  import opened Model

  lemma {:induction false} RunExtends(s: State, steps: seq<Step>, step: Step)
    requires InRange(s) && CanRun(s, steps) && Enabled(Run(s, steps), step)
    ensures CanRun(s, steps + [step]) && Run(s, steps + [step]) == Next(Run(s, steps), step)
    decreases |steps|
  {
    hide ApplyRead, ApplyPump, MoveOf, PumpMoveOf;
    if steps == [] {
      assert (steps + [step])[1..] == [];
      assert (steps + [step])[0] == step;
      var s' := Next(s, step);
      assert CanRun(s', []) && Run(s', []) == s';
    } else {
      RunExtends(Next(s, steps[0]), steps[1..], step);
      assert (steps + [step])[1..] == steps[1..] + [step];
    }
  }

  lemma InitReachable(size: int)
    ensures Reachable(Init(size))
  {
    assert CanRun(Init(size), []) && Run(Init(size), []) == Init(size);
  }

  lemma ReachableNext(s: State, step: Step)
    requires Reachable(s) && InRange(s) && Enabled(s, step)
    ensures Reachable(Next(s, step))
  {
    hide Next, Enabled;
    var size, steps :| CanRun(Init(size), steps) && Run(Init(size), steps) == s;
    RunExtends(Init(size), steps, step);
    assert CanRun(Init(size), steps + [step]);
  }

  function Repeat(step: Step, n: nat): seq<Step> {
    seq(n, _ => step)
  }

  /** Taking the one step again and again leads from s to s'. */
  ghost predicate Reaches(s: State, step: Step, s': State)
    requires InRange(s)
  {
    exists n: nat :: CanRun(s, Repeat(step, n)) && Run(s, Repeat(step, n)) == s'
  }

  lemma ReachesSelf(s: State, step: Step)
    requires InRange(s)
    ensures Reaches(s, step, s)
  {
    assert CanRun(s, Repeat(step, 0)) && Run(s, Repeat(step, 0)) == s;
  }

  lemma ReachesNext(s: State, step: Step, s1: State)
    requires InRange(s) && InRange(s1) && Reaches(s, step, s1) && Enabled(s1, step)
    ensures Reaches(s, step, Next(s1, step))
  {
    hide Next, Enabled;
    var n: nat :| CanRun(s, Repeat(step, n)) && Run(s, Repeat(step, n)) == s1;
    RunExtends(s, Repeat(step, n), step);
    assert Repeat(step, n) + [step] == Repeat(step, n + 1);
    assert CanRun(s, Repeat(step, n + 1));
  }

  lemma {:induction false} ReachableRun(s: State, steps: seq<Step>)
    requires Reachable(s) && InRange(s) && CanRun(s, steps)
    ensures Reachable(Run(s, steps))
    decreases |steps|
  {
    hide Next, Enabled, Reachable;
    if steps != [] {
      ReachableNext(s, steps[0]);
      ReachableRun(Next(s, steps[0]), steps[1..]);
    }
  }

  /** What a goroutine alone reaches from a reachable state is reachable. */
  lemma ReachesReachable(s: State, step: Step, s': State)
    requires Reachable(s) && InRange(s) && Reaches(s, step, s')
    ensures Reachable(s') && InRange(s')
  {
    hide Next, Enabled, Reachable;
    var n: nat :| CanRun(s, Repeat(step, n)) && Run(s, Repeat(step, n)) == s';
    ReachableRun(s, Repeat(step, n));
  }
}
