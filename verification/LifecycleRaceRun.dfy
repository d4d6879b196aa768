/** A run in which a module gives all its callback slots back and its destruction still goes wrong. */
module LifecycleRaceRun {
  import opened Machine
  import opened VmTrace
  import opened Lifecycle
  import opened LifecycleInv
  import opened LifecycleProof
  import opened LifecycleRace

  const EMPTY: State := State(None, map[], map[], None, false)

  lemma Begin(l: Step) returns (run: seq<State>, steps: seq<Step>)
    requires Enabled(EMPTY, l)
    ensures run == [EMPTY, Next(EMPTY, l)] && steps == [l] && IsRun(run, steps)
  {
    hide Next, Enabled;
    run, steps := [EMPTY, Next(EMPTY, l)], [l];
  }

  // ---- Thread 0 loads ----

  /** The VM of thread 0, and thread 0 alone in the driver. */
  ghost predicate Loads(s: State, pc: Pc, vm: Vm)
  {
    s == State(None, map[0 := vm], map[0 := pc], None, false)
  }

  const COPIED: Vm := Vm(LIVE, NEVER, NEVER, None, [], {}, 0, false, false, Thread(0), Raw, NotYet)

  const MADE: Vm := COPIED.(ctx := LIVE, arena := LIVE, stage := Born)

  const READY: Vm := MADE.(trace := [Event(Created(true), 0, true)], stage := Alive)

  lemma CopyRun() returns (run: seq<State>, steps: seq<Step>)
    ensures IsRun(run, steps) && |run| > 0 && Loads(Last(run), LoadCtx(0), COPIED)
  {
    run, steps := Begin(StartLoad(0));
    hide IsRun;
    run, steps := Extend(run, steps, Go(0, YES));
    run, steps := Extend(run, steps, Go(0, YES));
    run, steps := Extend(run, steps, Go(0, YES));
  }

  /** A step of thread 0 on its VM. */
  ghost predicate LoadsOn(pc: Pc, vm: Vm, pc': Pc, vm': Vm)
  {
    && pc.On() == Some(0) && !pc.Publish? && !pc.EndLock? && (Locking(pc) ==> vm.mutex.None?)
    && OnVm(0, pc, vm, YES, true) == (vm', pc') && !pc'.CallUnlock?
  }

  lemma LoadVmStep(s: State, pc: Pc, vm: Vm, pc': Pc, vm': Vm)
    requires Loads(s, pc, vm) && LoadsOn(pc, vm, pc', vm')
    ensures CanAct(s, 0) && Loads(VmStep(s, 0, YES), pc', vm')
  {
    RaceOnlyRecorded(0, pc, vm, YES, !CallbacksOver(s, 0));
    hide OnVm, CallbacksOver;
    assert CanAct(s, 0);
    hide CanAct, Locking, Pc.Guest, Pc.Critical;
    assert s.vms[0 := vm'] == map[0 := vm'] && s.pcs[0 := pc'] == map[0 := pc'];
  }

  lemma LoadStep(run: seq<State>, steps: seq<Step>, pc: Pc, vm: Vm, pc': Pc, vm': Vm)
    returns (run': seq<State>, steps': seq<Step>)
    requires IsRun(run, steps) && |run| > 0 && Loads(Last(run), pc, vm) && LoadsOn(pc, vm, pc', vm')
    ensures IsRun(run', steps') && |run'| > 0 && Loads(Last(run'), pc', vm')
  {
    hide IsRun, VmStep, Loads, LoadsOn;
    LoadVmStep(Last(run), pc, vm, pc', vm');
    run', steps' := Advance(run, steps, 0, YES);
  }

  lemma RaceOnlyRecorded(t: Tid, pc: Pc, vm: Vm, c: Choice, race: bool)
    requires pc.On().Some? && !pc.Publish? && !pc.EndLock?
    ensures OnVm(t, pc, vm, c, race) == OnVm(t, pc, vm, c, true)
  {
    hide Tell, Lock, Unlock, Freed, Allocated;
  }

  /** It announces its VM; there is no main to run and will be no unload. */
  lemma CreateRun() returns (run: seq<State>, steps: seq<Step>)
    ensures IsRun(run, steps) && Loads(Last(run), Publish(0), READY)
  {
    run, steps := CopyRun();
    hide IsRun, Loads;
    run, steps := LoadStep(run, steps, LoadCtx(0), COPIED, LoadInit(0), COPIED.(ctx := LIVE, stage := Wired));
    run, steps := LoadStep(run, steps, LoadInit(0), COPIED.(ctx := LIVE, stage := Wired), CreateLock(0), MADE);
    run, steps := LoadStep(run, steps, CreateLock(0), MADE, CreateTell(0), Lock(MADE, 0));
    assert MADE.trace + [Event(Created(true), 0, true)] == READY.trace;
    run, steps := LoadStep(run, steps, CreateTell(0), Lock(MADE, 0), CreateUnlock(0, true), Lock(READY, 0));
    run, steps := LoadStep(run, steps, CreateUnlock(0, true), Lock(READY, 0), Publish(0), READY);
  }

  // ---- Execute 1 ----

  /** The published VM, which has no unload, as far as its callers can tell; execute 1 is at pc. */
  ghost predicate Serves(s: State, rest: map<Tid, Pc>, pc: Pc, mutex: Option<Tid>, slots: nat)
  {
    && s.fs == Some(0) && s.closer.None? && !s.halted && s.pcs == rest[1 := pc]
    && s.vms.Keys == {0} && s.vms[0].mutex == mutex && s.vms[0].slots == slots && !s.vms[0].hasUnload
  }

  const LOADED: map<Tid, Pc> := map[0 := Done(true)]

  lemma StartRun() returns (run: seq<State>, steps: seq<Step>)
    ensures IsRun(run, steps) && Serves(Last(run), LOADED, ExecFind(0), None, 0)
  {
    run, steps := CreateRun();
    hide IsRun;
    run, steps := Extend(run, steps, Go(0, YES));
    assert Last(run) == State(Some(0), map[0 := READY.(owner := Published)], LOADED, None, false);
    run, steps := Extend(run, steps, StartExec(1));
    run, steps := Extend(run, steps, Go(1, YES));
    run, steps := Extend(run, steps, Go(1, YES));
  }

  /** Where execute 1 goes from pc when everything is granted. */
  function Onward(pc: Pc, c: Choice): Pc
  {
    match pc
    case ExecFind(v) => CallLock(v, Execute)
    case CallLock(v, path) => MapIn(v)
    case MapIn(v) => MapOut(v)
    case MapOut(v) => CallPre(v, Execute)
    case CallPre(v, path) => CallStart(v, Execute)
    case CallStart(v, path) => CallBody(v, Execute)
    case CallBody(v, path) => if c.more then pc else CallPost(v, Execute, true)
    case CallPost(v, path, ok) => UnmapOut(v, ok)
    case UnmapOut(v, ok) => UnmapIn(v, ok)
    case UnmapIn(v, ok) => CallUnlock(v, Execute, ok)
    case _ => Done(true)
  }

  lemma ExecuteOnVm(pc: Pc, vm: Vm, c: Choice, race: bool)
    requires pc.On() == Some(0) && pc.Guest() && !DispatchPc(pc) && c.ok && (pc.CallUnlock? ==> pc.ok)
    ensures var (vm', pc') := OnVm(1, pc, vm, c, race);
      && pc' == Onward(pc, c) && vm'.hasUnload == vm.hasUnload && !DispatchPc(pc')
      && vm'.mutex == (if pc.CallLock? then Some(1) else if pc.CallUnlock? then None else vm.mutex)
      && vm'.slots == if pc.CallBody? then c.slots else vm.slots
  {
  }

  lemma ExecuteStep(run: seq<State>, steps: seq<Step>, rest: map<Tid, Pc>, pc: Pc,
                    mutex: Option<Tid>, slots: nat, c: Choice)
    returns (run': seq<State>, steps': seq<Step>)
    requires IsRun(run, steps) && Serves(Last(run), rest, pc, mutex, slots)
    requires pc.On() == Some(0) && pc.Guest() && !DispatchPc(pc) && (pc.CallLock? ==> mutex.None?)
    requires c.ok && (pc.CallUnlock? ==> pc.ok)
    ensures IsRun(run', steps') && |run'| > 0
    ensures Serves(Last(run'), rest, Onward(pc, c),
      if pc.CallLock? then Some(1) else if pc.CallUnlock? then None else mutex,
      if pc.CallBody? then c.slots else slots)
  {
    var s := Last(run);
    ExecuteOnVm(pc, s.vms[0], c, !CallbacksOver(s, 0));
    hide OnVm, CallbacksOver, Onward;
    assert CanAct(s, 1);
    hide IsRun, CanAct, Locking;
    run', steps' := Advance(run, steps, 1, c);
    assert s.pcs[1 := Onward(pc, c)] == rest[1 := Onward(pc, c)];
  }

  /** Execute 1 gets as far as the module's code, which takes a callback slot. */
  lemma EnterRun() returns (run: seq<State>, steps: seq<Step>)
    ensures IsRun(run, steps) && Serves(Last(run), LOADED, CallBody(0, Execute), Some(1), 1)
  {
    run, steps := StartRun();
    hide IsRun, Serves;
    run, steps := ExecuteStep(run, steps, LOADED, ExecFind(0), None, 0, YES);
    run, steps := ExecuteStep(run, steps, LOADED, CallLock(0, Execute), None, 0, YES);
    run, steps := ExecuteStep(run, steps, LOADED, MapIn(0), Some(1), 0, YES);
    run, steps := ExecuteStep(run, steps, LOADED, MapOut(0), Some(1), 0, YES);
    run, steps := ExecuteStep(run, steps, LOADED, CallPre(0, Execute), Some(1), 0, YES);
    run, steps := ExecuteStep(run, steps, LOADED, CallStart(0, Execute), Some(1), 0, YES);
    run, steps := ExecuteStep(run, steps, LOADED, CallBody(0, Execute), Some(1), 0, YES.(more := true, slots := 1));
  }

  /** The slot's callback is invoked as dispatch 2, and waits for the mutex. */
  const WAITING: map<Tid, Pc> := LOADED[2 := CallLock(0, Dispatch)]

  lemma DispatchRun() returns (run: seq<State>, steps: seq<Step>)
    ensures IsRun(run, steps) && Serves(Last(run), WAITING, CallBody(0, Execute), Some(1), 1)
  {
    run, steps := EnterRun();
    hide IsRun;
    run, steps := Extend(run, steps, StartDispatch(2, 0));
  }

  /** The module gives the slot back and returns. */
  lemma LeaveRun() returns (run: seq<State>, steps: seq<Step>)
    ensures IsRun(run, steps) && Serves(Last(run), WAITING, Done(true), None, 0)
  {
    run, steps := DispatchRun();
    hide IsRun, Serves;
    run, steps := ExecuteStep(run, steps, WAITING, CallBody(0, Execute), Some(1), 1, YES);
    run, steps := ExecuteStep(run, steps, WAITING, CallPost(0, Execute, true), Some(1), 0, YES);
    run, steps := ExecuteStep(run, steps, WAITING, UnmapOut(0, true), Some(1), 0, YES);
    run, steps := ExecuteStep(run, steps, WAITING, UnmapIn(0, true), Some(1), 0, YES);
    run, steps := ExecuteStep(run, steps, WAITING, CallUnlock(0, Execute, true), Some(1), 0, YES);
  }

  // ---- Close 3 ----

  lemma CloseComes() returns (run: seq<State>, steps: seq<Step>)
    ensures IsRun(run, steps) && |run| > 0
    ensures var s := Last(run);
      && s.pcs == WAITING[1 := Done(true)][3 := CloseCheck] && s.fs == Some(0) && s.closer == Some(3) && !s.halted
      && s.vms.Keys == {0} && s.vms[0].mutex.None? && s.vms[0].slots == 0 && !s.vms[0].hasUnload
  {
    run, steps := LeaveRun();
    hide IsRun;
    run, steps := Extend(run, steps, StartClose(3));
  }

  lemma CloseRun() returns (run: seq<State>, steps: seq<Step>)
    ensures IsRun(run, steps) && |run| > 0 && CanAct(Last(run), 3) && Last(run).pcs[3] == EndLock(0, true)
    ensures Last(run).vms[0].slots == 0 && 2 in Last(run).pcs && Last(run).pcs[2] == CallLock(0, Dispatch)
  {
    run, steps := CloseComes();
    hide IsRun;
    run, steps := Extend(run, steps, Go(3, YES));
  }

  /** The failing run. The module has given its slot back when the close begins to destroy it, but
      dispatch 2, which picked the context up before, still waits. The close frees the context;
      dispatch 2 then takes the mutex inside it and, if the slot's entry has been filled again
      meanwhile, announces a call into the destroyed VM. */
  lemma DispatchUsesFreedContext() returns (run: seq<State>, steps: seq<Step>, k: nat)
    ensures IsRun(run, steps) && k < |steps| && BeginsDestroy(run[k], steps[k], 0) && 0 in run[k].vms
    ensures run[k].vms[0].slots == 0 && !CallbacksOver(run[k], 0)
    ensures var s := Last(run); 0 in s.vms && s.vms[0].ctx == RETURNED && s.vms[0].mutex.Some? && BadHistory(s, 0)
  {
    var run0, steps0 := CloseRun();
    var s := Last(run0);
    k := |steps0|;
    assert s.pcs[2].On() == Some(0) && DispatchPc(s.pcs[2]);
    assert !NoDispatchOn(s, 0);
    hide NoDispatchOn, VmStep, Scan, Enabled, Next, Late, Pc.Guest, Pc.Critical;
    var run1, steps1, u := LateDispatch(run0, steps0, 3, 0, true, YES);
    run, steps := LateCall(run1, steps1, u, 0);
    ContinuesTrans(run0 + [VmStep(s, 3, YES)], steps0 + [Go(3, YES)], run1, steps1, run, steps);
    assert run[..|run0| + 1][k] == s && steps[..|steps0| + 1][k] == Go(3, YES);
  }
}
