/** Requests on an empty handle, and a load on a full one. */
module LifecycleSamples {
  import opened Machine
  import opened VmTrace
  import opened Lifecycle
  import opened LifecycleInv
  import opened LifecycleRace
  import opened LifecycleRaceRun

  /** An execute before any load fails; the close of an empty handle succeeds. */
  lemma EmptyHandle() returns (run: seq<State>, steps: seq<Step>)
    ensures IsRun(run, steps) && |run| > 0
    ensures Last(run) == State(None, map[], map[0 := Done(false), 1 := Done(true)], Some(1), false)
  {
    run, steps := Begin(StartExec(0));
    hide IsRun;
    run, steps := Extend(run, steps, Go(0, YES));
    run, steps := Extend(run, steps, StartClose(1));
    run, steps := Extend(run, steps, Go(1, YES));
  }

  /** A load on a handle that has a context fails at once, and leaves it alone. */
  lemma SecondLoad() returns (run: seq<State>, steps: seq<Step>)
    ensures IsRun(run, steps) && |run| > 0
    ensures Last(run).fs == Some(0) && 2 in Last(run).pcs && Last(run).pcs[2] == Done(false) && 2 !in Last(run).vms
  {
    run, steps := StartRun();
    hide IsRun;
    run, steps := Extend(run, steps, StartLoad(2));
    run, steps := Extend(run, steps, Go(2, YES));
  }

  /** Threads 0 and 1 alone are in the driver, at these places, and there is no VM. */
  ghost predicate Pair(s: State, pc0: Pc, pc1: Pc)
  {
    && s.fs.None? && s.vms == map[] && s.closer.None? && !s.halted
    && s.pcs.Keys == {0, 1} && s.pcs[0] == pc0 && s.pcs[1] == pc1
  }

  /** Both threads take a step that works on no VM. */
  lemma BothStep(run: seq<State>, steps: seq<Step>, pc: Pc, pc': Pc) returns (run': seq<State>, steps': seq<Step>)
    requires IsRun(run, steps) && |run| > 0 && Pair(Last(run), pc, pc)
    requires (pc == LoadCheck && pc' == LoadVerify) || (pc == LoadVerify && pc' == LoadCopy)
    ensures IsRun(run', steps') && |run'| > 0 && Pair(Last(run'), pc', pc')
  {
    hide IsRun;
    run', steps' := Extend(run, steps, Go(0, YES));
    assert Pair(Last(run'), pc', pc);
    run', steps' := Extend(run', steps', Go(1, YES));
  }

  /** Two loads that both find the handle empty: both verify before either publishes. */
  lemma TwoLoads() returns (run: seq<State>, steps: seq<Step>)
    ensures IsRun(run, steps) && |run| > 0 && Pair(Last(run), LoadCopy, LoadCopy)
  {
    run, steps := Begin(StartLoad(0));
    hide IsRun;
    run, steps := Extend(run, steps, StartLoad(1));
    assert Pair(Last(run), LoadCheck, LoadCheck);
    hide Pair, Next, Enabled;
    run, steps := BothStep(run, steps, LoadCheck, LoadVerify);
    run, steps := BothStep(run, steps, LoadVerify, LoadCopy);
  }
}
