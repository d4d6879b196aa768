/** Destroying a VM while callbacks into it are left: exactly when it goes wrong, and a run in
    which it does. A dispatch picks the context up from its slot without a lock, so giving the slot
    back does not wait for it, and nothing makes the destroyer wait either. */
module LifecycleRace {
  import opened Machine
  import opened VmTrace
  import opened Lifecycle
  import opened LifecycleInv
  import opened LifecycleProof

  // ---- Runs and their continuations ----

  ghost function Last(run: seq<State>): State
    requires |run| > 0
  {
    run[|run| - 1]
  }

  /** run' goes on where run ended. */
  ghost predicate Continues(run': seq<State>, steps': seq<Step>, run: seq<State>, steps: seq<Step>)
  {
    && IsRun(run', steps') && |run| == |steps| + 1 && |steps| <= |steps'|
    && steps'[..|steps|] == steps && run'[..|run|] == run
  }

  lemma Extend(run: seq<State>, steps: seq<Step>, l: Step) returns (run': seq<State>, steps': seq<Step>)
    requires IsRun(run, steps) && Enabled(Last(run), l)
    ensures run' == run + [Next(Last(run), l)] && steps' == steps + [l] && Continues(run', steps', run, steps)
  {
    hide Next, Enabled;
    run', steps' := run + [Next(Last(run), l)], steps + [l];
    assert run'[..|run|] == run && steps'[..|steps|] == steps;
  }

  lemma ContinuesTrans(a: seq<State>, la: seq<Step>, b: seq<State>, lb: seq<Step>, c: seq<State>, lc: seq<Step>)
    requires Continues(b, lb, a, la) && Continues(c, lc, b, lb)
    ensures Continues(c, lc, a, la)
  {
    hide Next, Enabled;
    assert c[..|a|] == c[..|b|][..|a|];
    assert lc[..|la|] == lc[..|lb|][..|la|];
  }

  // ---- Callbacks over: every continuation is fine ----

  lemma {:induction false} CleanStays(run: seq<State>, steps: seq<Step>, i: nat, j: nat, v: Vid)
    requires IsRun(run, steps) && i <= j < |run| && v in run[i].vms && run[i].vms[v].parting == Clean
    ensures v in run[j].vms && run[j].vms[v].parting == Clean
    decreases j
  {
    hide IsRun, Next, Enabled;
    if i < j {
      CleanStays(run, steps, i, j - 1, v);
      StepOf(run, steps, j);
      RunKeepsInv(run, steps, j - 1);
      CleanStep(run[j - 1], steps[j - 1], v);
    }
  }

  lemma CleanStep(s: State, l: Step, v: Vid)
    requires Inv(s) && Enabled(s, l) && v in s.vms && s.vms[v].parting == Clean
    ensures v in Next(s, l).vms && Next(s, l).vms[v].parting == Clean
  {
    hide Inv, Next, Enabled;
    PartingStep(s, l, v);
  }

  /** A thread is about to take, or holds, the mutex inside a context that has been freed. */
  ghost predicate TouchesFreedContext(s: State, v: Vid)
  {
    exists u :: u in s.pcs && DispatchPc(s.pcs[u]) && s.pcs[u].On() == Some(v) && v in s.vms && s.vms[v].ctx == RETURNED
  }

  ghost predicate BadHistory(s: State, v: Vid)
  {
    v in s.vms && Scan(s.vms[v].trace) == Bad
  }

  lemma NoRaceNoHarm(run: seq<State>, steps: seq<Step>, k: nat, v: Vid)
    requires IsRun(run, steps) && k < |run| && v in run[k].vms && run[k].vms[v].parting != Raced
    ensures !TouchesFreedContext(run[k], v) && !BadHistory(run[k], v)
  {
    RunKeepsInv(run, steps, k);
    assert VmOk(run[k], v);
    hide Scan, UnderMutex, IsRun;
    forall u | u in run[k].pcs && DispatchPc(run[k].pcs[u]) && run[k].pcs[u].On() == Some(v)
      ensures run[k].vms[v].ctx == LIVE
    {
      assert ThreadOk(run[k], u);
    }
  }

  // ---- Callbacks left: a continuation goes wrong ----

  /** The environment grants everything and VM code returns. */
  const YES: Choice := Choice(true, false, false, false, 0)

  /** Thread t has got from s0 to pc by steps on v alone, which left v's slots as they were. */
  ghost predicate Alone(s0: State, s: State, t: Tid, v: Vid, pc: Pc)
  {
    && v in s0.vms && v in s.vms && t in s0.pcs && !s.halted
    && s.pcs == s0.pcs[t := pc] && s.vms[v].slots == s0.vms[v].slots
  }

  /** v has been announced destroyed and nobody holds its mutex. */
  ghost predicate GoneFrom(s: State, v: Vid, ctx: Block)
  {
    v in s.vms && s.vms[v].mutex.None? && s.vms[v].ctx == ctx && Scan(s.vms[v].trace) == Gone
  }

  /** What t needs to take a step on its VM. */
  ghost predicate CanAct(s: State, t: Tid)
  {
    && !s.halted && t in s.pcs && s.pcs[t].On().Some? && !s.pcs[t].Publish? && s.pcs[t].On().value in s.vms
    && (Locking(s.pcs[t]) ==> s.vms[s.pcs[t].On().value].mutex.None?)
  }

  lemma Advance(run: seq<State>, steps: seq<Step>, t: Tid, c: Choice)
    returns (run': seq<State>, steps': seq<Step>)
    requires IsRun(run, steps) && CanAct(Last(run), t)
    ensures Continues(run', steps', run, steps) && |run'| > 0 && Last(run') == VmStep(Last(run), t, c)
    ensures run' == run + [VmStep(Last(run), t, c)] && steps' == steps + [Go(t, c)]
  {
    var s := Last(run);
    assert Enabled(s, Go(t, c)) && Next(s, Go(t, c)) == VmStep(s, t, c) by {
      hide VmStep, IsRun;
    }
    hide Next, IsRun, VmStep, Enabled;
    run', steps' := Extend(run, steps, Go(t, c));
  }

  /** The steps of a destroyer, one by one. */
  lemma DestroyerStep(s: State, t: Tid, c: Choice)
    requires CanAct(s, t) && (s.pcs[t].EndLock? || s.pcs[t].EndTell? || s.pcs[t].EndUnlock?)
    ensures var pc := s.pcs[t]; var s' := VmStep(s, t, c); var v := pc.v;
      && Alone(s, s', t, v,
               if pc.EndLock? then EndTell(v, pc.ok)
               else if pc.EndTell? then EndUnlock(v, pc.ok)
               else FreeArena(v, pc.ok))
      && CanAct(s', t) && s'.vms[v].ctx == s.vms[v].ctx && s'.vms[v].arena == s.vms[v].arena
      && (pc.EndLock? ==> s'.vms[v].mutex == Some(t)) && (pc.EndUnlock? ==> s'.vms[v].mutex.None?)
      && (!pc.EndTell? ==> s'.vms[v].trace == s.vms[v].trace)
      && (pc.EndTell? ==> Scan(s'.vms[v].trace) == Accept(Scan(s.vms[v].trace), Destroyed))
  {
    hide Scan, Accept, CallbacksOver;
    var vm := s.vms[s.pcs[t].v];
    ScanAppend(vm.trace, Event(Destroyed, t, vm.mutex == Some(t)));
  }

  lemma FreerStep(s: State, t: Tid, c: Choice)
    requires CanAct(s, t) && (s.pcs[t].FreeArena? || s.pcs[t].FreeCtx? || s.pcs[t].FreeCopy?)
    requires s.pcs[t].FreeArena? ==> s.vms[s.pcs[t].v].arena == LIVE
    ensures var pc := s.pcs[t]; var s' := VmStep(s, t, c); var v := pc.v;
      && Alone(s, s', t, v,
               if pc.FreeArena? then FreeCtx(v, pc.ok)
               else if pc.FreeCtx? then FreeCopy(v, pc.ok)
               else Done(pc.ok))
      && (!pc.FreeCopy? ==> CanAct(s', t))
      && s'.vms[v].ctx == (if pc.FreeCtx? then Freed(s.vms[v].ctx) else s.vms[v].ctx)
      && s'.vms[v].mutex == s.vms[v].mutex
      && Scan(s'.vms[v].trace) == Accept(Scan(s.vms[v].trace), Free)
  {
    hide Scan, Accept, CallbacksOver;
    var vm := s.vms[s.pcs[t].v];
    ScanAppend(vm.trace, Event(Free, t, vm.mutex == Some(t)));
  }

  /** Three steps of t in a row, the last two with everything granted. */
  ghost function Thrice(s: State, t: Tid, c: Choice): State
    requires CanAct(s, t) && CanAct(VmStep(s, t, c), t) && CanAct(VmStep(VmStep(s, t, c), t, YES), t)
  {
    VmStep(VmStep(VmStep(s, t, c), t, YES), t, YES)
  }

  lemma AdvanceThrice(run: seq<State>, steps: seq<Step>, t: Tid, c: Choice)
    returns (run': seq<State>, steps': seq<Step>)
    requires IsRun(run, steps) && CanAct(Last(run), t) && CanAct(VmStep(Last(run), t, c), t)
    requires CanAct(VmStep(VmStep(Last(run), t, c), t, YES), t)
    ensures Continues(run', steps', run + [VmStep(Last(run), t, c)], steps + [Go(t, c)])
    ensures Continues(run', steps', run, steps) && |run'| > 0 && Last(run') == Thrice(Last(run), t, c)
  {
    assert |run| > 0;
    hide VmStep, IsRun;
    var run1, steps1 := Advance(run, steps, t, c);
    var run2, steps2 := Advance(run1, steps1, t, YES);
    run', steps' := Advance(run2, steps2, t, YES);
    hide Continues, CanAct;
    ContinuesTrans(run1, steps1, run2, steps2, run', steps');
    ContinuesTrans(run, steps, run1, steps1, run', steps');
  }

  /** The destroyer takes the mutex, announces destroyed and gives the mutex back. */
  lemma Announces(s: State, t: Tid, v: Vid, ok: bool, c: Choice)
    requires CanAct(s, t) && s.pcs[t] == EndLock(v, ok)
    requires s.vms[v].ctx == LIVE && s.vms[v].arena == LIVE && Accept(Scan(s.vms[v].trace), Destroyed) == Gone
    ensures CanAct(VmStep(s, t, c), t) && CanAct(VmStep(VmStep(s, t, c), t, YES), t)
    ensures var s' := Thrice(s, t, c);
      && Alone(s, s', t, v, FreeArena(v, ok)) && CanAct(s', t)
      && GoneFrom(s', v, LIVE) && s'.vms[v].arena == LIVE
  {
    hide Scan, Accept, VmStep;
    DestroyerStep(s, t, c);
    DestroyerStep(VmStep(s, t, c), t, YES);
    DestroyerStep(VmStep(VmStep(s, t, c), t, YES), t, YES);
  }

  lemma RestsBeforeDestroy(run: seq<State>, steps: seq<Step>, t: Tid)
    requires IsRun(run, steps) && t in Last(run).pcs && Last(run).pcs[t].EndLock?
    requires Last(run).pcs[t].v in Last(run).vms && Last(run).vms[Last(run).pcs[t].v].mutex.None?
    ensures var vm := Last(run).vms[Last(run).pcs[t].v];
      vm.ctx == LIVE && vm.arena == LIVE && Accept(Scan(vm.trace), Destroyed) == Gone
  {
    RunKeepsInv(run, steps, |run| - 1);
    assert ThreadOk(Last(run), t);
    assert VmOk(Last(run), Last(run).pcs[t].v);
    hide Scan, UnderMutex;
  }

  /** It frees the arena, the context and the buffer copy. */
  lemma FreesAll(s: State, t: Tid, v: Vid, ok: bool)
    requires CanAct(s, t) && s.pcs[t] == FreeArena(v, ok)
    requires GoneFrom(s, v, LIVE) && s.vms[v].arena == LIVE
    ensures CanAct(VmStep(s, t, YES), t) && CanAct(VmStep(VmStep(s, t, YES), t, YES), t)
    ensures var s' := Thrice(s, t, YES);
      Alone(s, s', t, v, Done(ok)) && GoneFrom(s', v, RETURNED)
  {
    hide Scan, VmStep;
    FreerStep(s, t, YES);
    FreerStep(VmStep(s, t, YES), t, YES);
    FreerStep(VmStep(VmStep(s, t, YES), t, YES), t, YES);
  }

  /** All of v's destruction, with no other thread moving. */
  lemma DestroyedAndFreed(run: seq<State>, steps: seq<Step>, t: Tid, v: Vid, ok: bool, c: Choice)
    returns (run': seq<State>, steps': seq<Step>)
    requires IsRun(run, steps) && |run| > 0 && CanAct(Last(run), t) && Last(run).pcs[t] == EndLock(v, ok)
    requires var vm := Last(run).vms[v];
      vm.ctx == LIVE && vm.arena == LIVE && Accept(Scan(vm.trace), Destroyed) == Gone
    ensures Continues(run', steps', run + [VmStep(Last(run), t, c)], steps + [Go(t, c)]) && |run'| > 0
    ensures Alone(Last(run), Last(run'), t, v, Done(ok)) && GoneFrom(Last(run'), v, RETURNED)
  {
    hide VmStep, GoneFrom, Scan, Accept, IsRun, Thrice;
    var s := Last(run);
    var one, l := run + [VmStep(s, t, c)], steps + [Go(t, c)];
    hide CanAct;
    Announces(s, t, v, ok, c);
    var run1, steps1 := AdvanceThrice(run, steps, t, c);
    FreesAll(Last(run1), t, v, ok);
    run', steps' := AdvanceThrice(run1, steps1, t, YES);
    hide Continues;
    ContinuesTrans(one, l, run1, steps1, run', steps');
  }

  // ---- A dispatch that comes too late ----

  lemma {:induction false} SomeFreshTid(xs: set<Tid>) returns (w: Tid)
    ensures forall x :: x in xs ==> x < w
  {
    if xs == {} {
      w := 0;
    } else {
      var x :| x in xs;
      var w' := SomeFreshTid(xs - {x});
      w := if w' > x then w' else x + 1;
      assert xs == xs - {x} + {x};
    }
  }

  /** The state s has a dispatch waiting for the mutex of v, whose context has been freed. */
  ghost predicate Late(s: State, u: Tid, v: Vid)
  {
    !s.halted && u in s.pcs && s.pcs[u] == CallLock(v, Dispatch) && GoneFrom(s, v, RETURNED)
  }

  /** With a slot still held or a dispatch still under way when v's destruction begins, v can be
      destroyed and freed completely and a dispatch still go for its mutex. */
  lemma LateDispatch(run: seq<State>, steps: seq<Step>, t: Tid, v: Vid, ok: bool, c: Choice)
    returns (run': seq<State>, steps': seq<Step>, u: Tid)
    requires IsRun(run, steps) && CanAct(Last(run), t) && Last(run).pcs[t] == EndLock(v, ok)
    requires !CallbacksOver(Last(run), v)
    ensures Continues(run', steps', run + [VmStep(Last(run), t, c)], steps + [Go(t, c)]) && |run'| > 0
    ensures Late(Last(run'), u, v)
  {
    var s := Last(run);
    assert t in s.pcs && v in s.vms && s.vms[v].mutex.None?;
    RestsBeforeDestroy(run, steps, t);
    var run2, steps2 := DestroyedAndFreed(run, steps, t, v, ok, c);
    hide VmStep;
    if s.vms[v].slots == 0 {
      u :| u in s.pcs && s.pcs[u].On() == Some(v) && DispatchPc(s.pcs[u]);
      WaitsForMutex(run, steps, u, v);
      run', steps' := run2, steps2;
    } else {
      u := SomeFreshTid(Last(run2).pcs.Keys);
      run', steps' := Extend(run2, steps2, StartDispatch(u, v));
      ContinuesTrans(run + [VmStep(s, t, c)], steps + [Go(t, c)], run2, steps2, run', steps');
    }
  }

  lemma WaitsForMutex(run: seq<State>, steps: seq<Step>, u: Tid, v: Vid)
    requires IsRun(run, steps) && u in Last(run).pcs && DispatchPc(Last(run).pcs[u])
    requires Last(run).pcs[u].On() == Some(v) && v in Last(run).vms && Last(run).vms[v].mutex.None?
    ensures Last(run).pcs[u] == CallLock(v, Dispatch)
  {
    RunKeepsInv(run, steps, |run| - 1);
    assert ThreadOk(Last(run), u);
  }

  /** The late dispatch takes the freed mutex and announces a call into the destroyed VM. */
  lemma LateCall(run: seq<State>, steps: seq<Step>, u: Tid, v: Vid)
    returns (run': seq<State>, steps': seq<Step>)
    requires IsRun(run, steps) && Late(Last(run), u, v)
    ensures Continues(run', steps', run, steps) && |run'| > 0 && BadHistory(Last(run'), v)
    ensures Last(run').vms[v].mutex == Some(u) && Last(run').vms[v].ctx == RETURNED
  {
    var vm := Last(run).vms[v];
    ScanAppend(vm.trace, Event(Precall(true), u, true));
    hide Scan, Enabled, Next, CallbacksOver, Pc.Guest, Pc.Critical;
    var run1, steps1 := Advance(run, steps, u, YES);
    assert Last(run1).vms[v] == Lock(vm, u) && Last(run1).pcs[u] == CallPre(v, Dispatch) && !Last(run1).halted;
    run', steps' := Advance(run1, steps1, u, YES);
    assert Last(run').vms[v].trace == vm.trace + [Event(Precall(true), u, true)];
    hide Continues, IsRun;
    ContinuesTrans(run, steps, run1, steps1, run', steps');
  }

  // ---- The exact condition ----

  /** Some continuation gets to a state in which a dispatch uses the context after it was freed. */
  ghost predicate MayUseFreed(run: seq<State>, steps: seq<Step>, v: Vid)
  {
    exists run', steps' :: Continues(run', steps', run, steps) && TouchesFreedContext(run'[|steps'|], v)
  }

  /** Some continuation breaks the grammar of v's history. */
  ghost predicate MayBreakHistory(run: seq<State>, steps: seq<Step>, v: Vid)
  {
    exists run', steps' :: Continues(run', steps', run, steps) && BadHistory(run'[|steps'|], v)
  }

  lemma CleanDestroyIsSafe(run: seq<State>, steps: seq<Step>, t: Tid, v: Vid, ok: bool, c: Choice)
    requires IsRun(run, steps) && CanAct(Last(run), t) && Last(run).pcs[t] == EndLock(v, ok)
    requires CallbacksOver(Last(run), v)
    ensures var run1, steps1 := run + [VmStep(Last(run), t, c)], steps + [Go(t, c)];
      !MayUseFreed(run1, steps1, v) && !MayBreakHistory(run1, steps1, v)
  {
    var run1, steps1 := Advance(run, steps, t, c);
    assert Last(run1).vms[v].parting == Clean;
    hide VmStep, Enabled, Next, CanAct, TouchesFreedContext, BadHistory;
    forall run', steps' | Continues(run', steps', run1, steps1)
      ensures !TouchesFreedContext(run'[|steps'|], v) && !BadHistory(run'[|steps'|], v)
    {
      assert run'[|run|] == run1[|run|];
      CleanStays(run', steps', |run|, |steps'|, v);
      NoRaceNoHarm(run', steps', |steps'|, v);
    }
  }

  lemma UncleanDestroyIsUnsafe(run: seq<State>, steps: seq<Step>, t: Tid, v: Vid, ok: bool, c: Choice)
    requires IsRun(run, steps) && |run| > 0 && CanAct(Last(run), t) && Last(run).pcs[t] == EndLock(v, ok)
    requires !CallbacksOver(Last(run), v)
    ensures var run1, steps1 := run + [VmStep(Last(run), t, c)], steps + [Go(t, c)];
      MayUseFreed(run1, steps1, v) && MayBreakHistory(run1, steps1, v)
  {
    var run1, steps1 := run + [VmStep(Last(run), t, c)], steps + [Go(t, c)];
    hide IsRun, VmStep, CanAct, CallbacksOver, Scan, TouchesFreedContext, BadHistory;
    var run2, steps2, u := LateDispatch(run, steps, t, v, ok, c);
    var run3, steps3 := LateCall(run2, steps2, u, v);
    assert |run2| == |steps2| + 1 && |run3| == |steps3| + 1 by { RunLength(run2, steps2); RunLength(run3, steps3); }
    LateTouches(Last(run2), u, v);
    hide Continues, Late;
    ContinuesTrans(run1, steps1, run2, steps2, run3, steps3);
    assert TouchesFreedContext(run2[|steps2|], v) && BadHistory(run3[|steps3|], v);
  }

  lemma RunLength(run: seq<State>, steps: seq<Step>)
    requires IsRun(run, steps)
    ensures |run| == |steps| + 1
  {
  }

  lemma LateTouches(s: State, u: Tid, v: Vid)
    requires Late(s, u, v)
    ensures TouchesFreedContext(s, v)
  {
    assert DispatchPc(s.pcs[u]) && s.pcs[u].On() == Some(v);
  }

  /** The exact condition. When the destruction of a VM begins, the module holds no callback slot
      and no callback into it is under way, if and only if no continuation of the run lets a
      dispatch use the freed context; and if and only if no continuation breaks the history's
      grammar. */
  lemma DestroySafeIff(run: seq<State>, steps: seq<Step>, t: Tid, v: Vid, ok: bool, c: Choice)
    requires IsRun(run, steps) && Enabled(Last(run), Go(t, c)) && Last(run).pcs[t] == EndLock(v, ok)
    ensures var run1, steps1 := run + [Next(Last(run), Go(t, c))], steps + [Go(t, c)];
      && (CallbacksOver(Last(run), v) <==> !MayUseFreed(run1, steps1, v))
      && (CallbacksOver(Last(run), v) <==> !MayBreakHistory(run1, steps1, v))
  {
    var s := Last(run);
    hide VmStep, CallbacksOver, MayUseFreed, MayBreakHistory;
    assert CanAct(s, t) && Next(s, Go(t, c)) == VmStep(s, t, c);
    hide Enabled, Next, CanAct, IsRun;
    if CallbacksOver(s, v) {
      CleanDestroyIsSafe(run, steps, t, v, ok, c);
    } else {
      UncleanDestroyIsUnsafe(run, steps, t, v, ok, c);
    }
  }

  // ---- Over a whole run ----

  /** A dispatch finds a cip and announces its call into v. */
  ghost predicate DispatchCalls(s: State, l: Step, v: Vid)
  {
    l.Go? && l.t in s.pcs && s.pcs[l.t] == CallPre(v, Dispatch) && !l.c.more
  }

  /** v's destruction began before moment k. */
  ghost predicate Begun(run: seq<State>, steps: seq<Step>, k: nat, v: Vid)
    requires |run| == |steps| + 1 && k < |run|
  {
    exists i :: 0 <= i < k && BeginsDestroy(run[i], steps[i], v)
  }

  /** Before moment k, v's destruction began and a dispatch announced a call into v afterwards. */
  ghost predicate CalledTooLate(run: seq<State>, steps: seq<Step>, k: nat, v: Vid)
    requires |run| == |steps| + 1 && k < |run|
  {
    exists j :: 0 <= j < k && DispatchCalls(run[j], steps[j], v) && Begun(run, steps, j, v)
  }

  /** After a destruction that began with the callbacks over there are none. */
  lemma CleanNoDispatch(s: State, v: Vid)
    requires Inv(s) && v in s.vms && s.vms[v].parting == Clean
    ensures NoDispatchOn(s, v)
  {
    assert VmOk(s, v);
    hide Scan, UnderMutex, BlocksFit;
    forall u | u in s.pcs && s.pcs[u].On() == Some(v) ensures !DispatchPc(s.pcs[u]) {
      assert ThreadOk(s, u);
      if s.vms[v].owner.Thread? {
        assert ThreadOk(s, s.vms[v].owner.t);
      }
    }
  }

  /** On a VM whose destruction raced with callbacks, only a dispatch's announcement breaks the
      history, and it always does. */
  lemma RacedStep(t: Tid, pc: Pc, vm: Vm, c: Choice, race: bool)
    requires LocalPre(t, pc, vm, race) && vm.parting == Raced
    ensures Scan(OnVm(t, pc, vm, c, race).0.trace) == Bad <==>
      Scan(vm.trace) == Bad || (pc.CallPre? && pc.path == Dispatch && !c.more)
  {
    hide Scan, UnderMutex, BlocksFit, LocalPost;
    if Scan(vm.trace) == Bad {
      LocalStep(t, pc, vm, c, race);
      StaysBad(t, pc, vm, OnVm(t, pc, vm, c, race).1, OnVm(t, pc, vm, c, race).0);
    } else if pc.Guest() {
      RacedGuest(t, pc, vm, c, race);
    } else {
      RacedOwner(t, pc, vm, c, race);
    }
  }

  lemma StaysBad(t: Tid, pc: Pc, vm: Vm, pc': Pc, vm': Vm)
    requires pc.On().Some? && LocalPost(t, pc, vm, pc', vm') && Scan(vm.trace) == Bad
    ensures Scan(vm'.trace) == Bad
  {
    hide Scan, UnderMutex, BlocksFit, Sound, May, Busy, Rest;
  }

  lemma RacedGuest(t: Tid, pc: Pc, vm: Vm, c: Choice, race: bool)
    requires LocalPre(t, pc, vm, race) && vm.parting == Raced && pc.Guest() && Scan(vm.trace) != Bad
    ensures Scan(OnVm(t, pc, vm, c, race).0.trace) == Bad <==> pc.CallPre? && pc.path == Dispatch && !c.more
  {
    hide Scan, UnderMutex, BlocksFit;
    ScanAppend(vm.trace, Event(Precall(c.ok), t, vm.mutex == Some(t)));
  }

  lemma RacedOwner(t: Tid, pc: Pc, vm: Vm, c: Choice, race: bool)
    requires LocalPre(t, pc, vm, race) && vm.parting == Raced && !pc.Guest() && Scan(vm.trace) != Bad
    ensures Scan(OnVm(t, pc, vm, c, race).0.trace) != Bad && !(pc.CallPre? && pc.path == Dispatch)
  {
    hide Scan, UnderMutex, BlocksFit, RestPhase, BusyPhase, MappedAt;
    ScanAppend(vm.trace, Event(if pc.EndTell? then Destroyed else Free, t, vm.mutex == Some(t)));
  }

  /** A history without a race is not broken. */
  lemma UnracedHistory(s: State, v: Vid)
    requires VmOk(s, v) && v in s.vms && s.vms[v].parting != Raced
    ensures Scan(s.vms[v].trace) != Bad
  {
    hide Scan, UnderMutex;
  }

  /** Taking the mutex to destroy announces nothing; a step on no VM or another VM changes nothing
      of this one's history. */
  lemma SilentStep(s: State, l: Step, v: Vid)
    requires Inv(s) && Enabled(s, l) && v in s.vms
    requires l.Go? ==> var pc := s.pcs[l.t]; pc.Publish? || pc.On() != Some(v) || pc.EndLock?
    ensures v in Next(s, l).vms && Next(s, l).vms[v].trace == s.vms[v].trace
  {
    if l.Go? {
      assert ThreadOk(s, l.t);
      assert s.pcs[l.t].EndLock? ==> s.pcs[l.t].On() == Some(s.pcs[l.t].v);
    }
    hide Inv, May, HandleOk, Tell;
  }

  lemma BrokenStep(s: State, l: Step, v: Vid)
    requires Inv(s) && Enabled(s, l) && v in s.vms
    ensures v in Next(s, l).vms
    ensures Scan(Next(s, l).vms[v].trace) == Bad <==>
      Scan(s.vms[v].trace) == Bad || (s.vms[v].parting == Raced && DispatchCalls(s, l, v))
  {
    var s' := Next(s, l);
    assert VmOk(s, v);
    PartingStep(s, l, v);
    if l.Go? && !s.pcs[l.t].Publish? && s.pcs[l.t].On() == Some(v) && !s.pcs[l.t].EndLock? {
      if s.vms[v].parting == Raced {
        assert ThreadOk(s, l.t);
        FindsIt(s, l.t);
        var race := !CallbacksOver(s, v);
        assert s'.vms[v] == OnVm(l.t, s.pcs[l.t], s.vms[v], l.c, race).0 by {
          hide Inv, OnVm, ThreadOk, VmOk;
        }
        hide Inv, OnVm, ThreadOk, Next, VmOk, Scan, Sound, May, Found;
        RacedStep(l.t, s.pcs[l.t], s.vms[v], l.c, race);
      } else {
        StepKeepsInv(s, l);
        assert VmOk(s', v);
        hide Scan, Next, Inv, VmOk;
        UnracedHistory(s, v);
        UnracedHistory(s', v);
      }
    } else {
      hide Next, Inv, VmOk, Scan;
      SilentStep(s, l, v);
    }
  }

  lemma BegunStep(run: seq<State>, steps: seq<Step>, k: nat, v: Vid)
    requires |run| == |steps| + 1 && 0 < k < |run|
    ensures Begun(run, steps, k, v) <==> Begun(run, steps, k - 1, v) || BeginsDestroy(run[k - 1], steps[k - 1], v)
  {
    hide BeginsDestroy;
  }

  /** One step's effect on whether v's destruction has begun. */
  lemma PartingIffStep(s: State, l: Step, v: Vid)
    requires Inv(s) && Enabled(s, l)
    ensures v in Next(s, l).vms && Next(s, l).vms[v].parting != NotYet <==>
      (v in s.vms && s.vms[v].parting != NotYet) || BeginsDestroy(s, l, v)
  {
    hide Inv, Next;
    if v in s.vms {
      hide Enabled;
      PartingStep(s, l, v);
    } else if v in Next(s, l).vms {
      NewVmNotParting(s, l, v);
    }
    assert BeginsDestroy(s, l, v) ==> v in s.vms;
  }

  lemma {:induction false} PartingIff(run: seq<State>, steps: seq<Step>, k: nat, v: Vid)
    requires IsRun(run, steps) && k < |run|
    ensures v in run[k].vms && run[k].vms[v].parting != NotYet <==> Begun(run, steps, k, v)
  {
    hide Next, Enabled, Begun;
    if k > 0 {
      hide IsRun;
      StepOf(run, steps, k);
      PartingIff(run, steps, k - 1, v);
      RunKeepsInv(run, steps, k - 1);
      hide Inv, BeginsDestroy;
      PartingIffStep(run[k - 1], steps[k - 1], v);
      BegunStep(run, steps, k, v);
    } else {
      NothingBegun(run, steps, v);
    }
  }

  lemma NothingBegun(run: seq<State>, steps: seq<Step>, v: Vid)
    requires IsRun(run, steps)
    ensures v !in run[0].vms && !Begun(run, steps, 0, v)
  {
  }

  lemma CalledTooLateStep(run: seq<State>, steps: seq<Step>, k: nat, v: Vid)
    requires |run| == |steps| + 1 && 0 < k < |run|
    ensures CalledTooLate(run, steps, k, v) <==>
      CalledTooLate(run, steps, k - 1, v) || (DispatchCalls(run[k - 1], steps[k - 1], v) && Begun(run, steps, k - 1, v))
    ensures CalledTooLate(run, steps, k, v) ==> Begun(run, steps, k - 1, v)
  {
    hide DispatchCalls, BeginsDestroy;
  }

  lemma DispatchMeansRace(s: State, l: Step, v: Vid)
    requires Inv(s) && v in s.vms && DispatchCalls(s, l, v)
    ensures s.vms[v].parting != NotYet <==> s.vms[v].parting == Raced
  {
    if s.vms[v].parting == Clean {
      CleanNoDispatch(s, v);
      assert false;
    }
  }

  lemma BrokenIffStep(run: seq<State>, steps: seq<Step>, k: nat, v: Vid)
    requires |run| == |steps| + 1 && 0 < k < |run| && Inv(run[k - 1]) && Enabled(run[k - 1], steps[k - 1])
    requires v in run[k - 1].vms && run[k] == Next(run[k - 1], steps[k - 1])
    requires run[k - 1].vms[v].parting != NotYet <==> Begun(run, steps, k - 1, v)
    ensures v in run[k].vms
    ensures Scan(run[k].vms[v].trace) == Bad <==>
      || Scan(run[k - 1].vms[v].trace) == Bad
      || (DispatchCalls(run[k - 1], steps[k - 1], v) && Begun(run, steps, k - 1, v))
  {
    hide Next, Enabled, Inv, Begun, DispatchCalls, Scan;
    BrokenStep(run[k - 1], steps[k - 1], v);
    if DispatchCalls(run[k - 1], steps[k - 1], v) {
      DispatchMeansRace(run[k - 1], steps[k - 1], v);
    }
  }

  lemma NewHistory(s: State, l: Step, v: Vid)
    requires Enabled(s, l) && v !in s.vms && v in Next(s, l).vms
    ensures Scan(Next(s, l).vms[v].trace) != Bad
  {
    NewVmNotParting(s, l, v);
  }

  /** The exact condition over a whole run: a VM's history is broken if and only if a dispatch
      announced a call into the VM after its destruction had begun. */
  lemma {:induction false} HistoryBrokenIff(run: seq<State>, steps: seq<Step>, k: nat, v: Vid)
    requires IsRun(run, steps) && k < |run| && v in run[k].vms
    ensures Scan(run[k].vms[v].trace) == Bad <==> CalledTooLate(run, steps, k, v)
  {
    hide Next, Enabled, Begun, CalledTooLate, DispatchCalls, Scan;
    if k > 0 {
      hide IsRun;
      StepOf(run, steps, k);
      RunKeepsInv(run, steps, k - 1);
      hide Inv;
      PartingIff(run, steps, k - 1, v);
      CalledTooLateStep(run, steps, k, v);
      if v in run[k - 1].vms {
        HistoryBrokenIff(run, steps, k - 1, v);
        BrokenIffStep(run, steps, k, v);
      } else {
        NewHistory(run[k - 1], steps[k - 1], v);
      }
    }
  }
}
