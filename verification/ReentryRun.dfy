/** A run in which a module invokes a callback of its own, and nothing of it ever moves again. */
module ReentryRun {
  import opened Machine
  import opened VmTrace
  import opened Lifecycle
  import opened LifecycleInv
  import opened LifecycleRace
  import opened LifecycleRaceRun
  import opened Reentry
  import opened ReentryDeadlock

  /** A run without invokes is a nested run. */
  lemma Lift(run: seq<State>, steps: seq<Step>) returns (nrun: seq<Nested>, nsteps: seq<NStep>)
    requires IsRun(run, steps)
    ensures IsNestedRun(nrun, nsteps) && |nrun| == |run| && nrun[|nsteps|] == Nested(Last(run), map[])
  {
    hide Enabled, Next;
    nrun := seq(|run|, i requires 0 <= i < |run| => Nested(run[i], map[]));
    nsteps := seq(|steps|, i requires 0 <= i < |steps| => Plain(steps[i]));
  }

  /** The last step: execute 1, in module code of VM 0, invokes a callback of VM 0 as dispatch 2. */
  const LAST: NStep := Invoke(1, 2, 0)

  lemma InvokesItself(n: Nested)
    requires NInv(n) && Serves(n.s, LOADED, CallBody(0, Execute), Some(1), 1) && n.inside == map[]
    ensures NEnabled(n, LAST)
    ensures var n' := NNext(n, LAST);
      && NInv(n') && n'.inside == map[2 := 1] && !n'.s.halted && n'.s.pcs.Keys == {0, 1, 2} && n'.s.pcs[0].Done?
      && n'.s.pcs[1] == CallBody(0, Execute) && n'.s.pcs[2] == CallLock(0, Dispatch)
      && Loops(n', 1) && Loops(n', 2)
  {
    hide Inv, Loops;
    assert !Calling(n, 1);
    StepKeepsNInv(n, LAST);
    SelfInvokeHangs(n, 1, 2, 0);
  }

  lemma ExtendRun(run: seq<Nested>, steps: seq<NStep>, l: NStep) returns (run': seq<Nested>, steps': seq<NStep>)
    requires IsNestedRun(run, steps) && NEnabled(run[|steps|], l)
    ensures IsNestedRun(run', steps') && steps' == steps + [l] && run'[|steps'|] == NNext(run[|steps|], l)
  {
    hide NEnabled, NNext, Lifecycle.Init;
    run', steps' := run + [NNext(run[|steps|], l)], steps + [l];
  }

  /** Execute 1 runs module code of VM 0, which takes a callback slot and invokes its callback. The
      dispatch waits for the mutex execute 1 holds, execute 1 for the dispatch; neither takes a
      step in any continuation, and the handle is never closed. */
  lemma ModuleInvokesItself() returns (run: seq<Nested>, steps: seq<NStep>)
    ensures IsNestedRun(run, steps) && !run[|steps|].s.halted
    ensures var n := run[|steps|];
      && n.inside == map[2 := 1] && n.s.pcs.Keys == {0, 1, 2} && n.s.pcs[0].Done?
      && n.s.pcs[1] == CallBody(0, Execute) && n.s.pcs[2] == CallLock(0, Dispatch)
      && (forall c :: !MayStep(n, 1, c) && !MayStep(n, 2, c))
      && !MayClose(n)
  {
    var run0, steps0 := EnterRun();
    hide Serves, IsRun;
    run, steps := Lift(run0, steps0);
    RunKeepsNInv(run, steps, |steps|);
    hide NInv, NEnabled, NNext, Loops, MayStep, MayClose, IsNestedRun;
    assert |run| == |steps| + 1 by { RunLengths(run, steps); }
    InvokesItself(run[|steps|]);
    run, steps := ExtendRun(run, steps, LAST);
    RunLengths(run, steps);
    var n := run[|steps|];
    forall c ensures !MayStep(n, 1, c) && !MayStep(n, 2, c) {
      LoopNeverSteps(n, 1, c);
      LoopNeverSteps(n, 2, c);
    }
    HungHandleNeverCloses(n, 1);
  }

  lemma RunLengths(run: seq<Nested>, steps: seq<NStep>)
    requires IsNestedRun(run, steps)
    ensures |run| == |steps| + 1
  {
  }
}
