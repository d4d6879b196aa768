/** What every request comes to, told from what the environment was asked on its way and what it
    answered, without looking at how a step is taken. */
module LifecycleOutcome {
  import opened Machine
  import opened VmTrace
  import opened Lifecycle
  import opened LifecycleInv
  import opened LifecycleProof
  import opened LifecycleStatus

  /** What a thread needs to be granted to go on. */
  datatype Ask =
    | HandleEmpty        // FsContext is null when the load tests it
    | Signature          // sizes and signature are good
    | CopyMemory
    | ContextMemory
    | LoaderInit
    | CreatedVerdict     // the observers of created agree
    | Exchange           // the compare-exchange finds null
    | HandleSet          // FsContext is not null when the execute tests it
    | HandleStillSet
    | Resolved           // the request names a function of the module
    | InputMapped
    | OutputMapped
    | PrecallPassed(path: Path)  // for a dispatch: there is a cip, and the observers agree
    | CallSucceeded(path: Path)

  function AskOf(pc: Pc): Option<Ask>
  {
    match pc
    case LoadCheck => Some(HandleEmpty)
    case LoadVerify => Some(Signature)
    case LoadCopy => Some(CopyMemory)
    case LoadCtx(_) => Some(ContextMemory)
    case LoadInit(_) => Some(LoaderInit)
    case CreateTell(_) => Some(CreatedVerdict)
    case Publish(_) => Some(Exchange)
    case ExecCheck => Some(HandleSet)
    case ExecRead => Some(HandleStillSet)
    case ExecFind(_) => Some(Resolved)
    case MapIn(_) => Some(InputMapped)
    case MapOut(_) => Some(OutputMapped)
    case CallPre(_, path) => Some(PrecallPassed(path))
    case CallBody(_, path) => Some(CallSucceeded(path))
    case _ => None
  }

  /** The answer, given the handle and what the environment chose. */
  predicate Yes(ask: Ask, handle: Option<Vid>, c: Choice)
  {
    match ask
    case HandleEmpty => handle.None?
    case Exchange => handle.None?
    case HandleSet => handle.Some?
    case HandleStillSet => handle.Some?
    case PrecallPassed(path) => c.ok && (path == Dispatch ==> !c.more)
    case _ => c.ok
  }

  /** What t is asking for in this step; module code that goes on running asks nothing yet. */
  ghost predicate Asks(s: State, l: Step, t: Tid, ask: Ask)
  {
    && l.Go? && l.t == t && t in s.pcs && AskOf(s.pcs[t]) == Some(ask)
    && (ask.CallSucceeded? ==> !l.c.more)
  }

  /** The answers of a module's unload do not matter. */
  predicate Matters(ask: Ask) { ask != PrecallPassed(Unload) && ask != CallSucceeded(Unload) }

  ghost predicate Grants(s: State, l: Step, t: Tid, ask: Ask)
  {
    Asks(s, l, t, ask) && Yes(ask, s.fs, l.c)
  }

  ghost predicate Refuses(s: State, l: Step, t: Tid)
  {
    exists ask :: Asks(s, l, t, ask) && Matters(ask) && !Yes(ask, s.fs, l.c)
  }

  ghost predicate RefusedBefore(run: seq<State>, steps: seq<Step>, k: nat, t: Tid)
    requires |run| == |steps| + 1 && k < |run|
  {
    exists i :: 0 <= i < k && Refuses(run[i], steps[i], t)
  }

  ghost predicate GrantedBefore(run: seq<State>, steps: seq<Step>, k: nat, t: Tid, ask: Ask)
    requires |run| == |steps| + 1 && k < |run|
  {
    exists i :: 0 <= i < k && Grants(run[i], steps[i], t, ask)
  }

  // ---- A request reports failure exactly if something was refused ----

  /** Places from which thread t can only report failure. */
  predicate Failing(t: Tid, pc: Pc)
  {
    match pc
    case Done(ok) => !ok
    case CreateUnlock(_, ok) => !ok
    case UnmapOut(_, ok) => !ok
    case UnmapIn(_, ok) => !ok
    case EndLock(_, ok) => !ok
    case EndTell(_, ok) => !ok
    case EndUnlock(_, ok) => !ok
    case FreeArena(_, ok) => !ok
    case FreeCtx(_, ok) => !ok
    case FreeCopy(_, ok) => !ok
    case CallPost(v, path, ok) => if path == Unload then t == v else !ok
    case CallUnlock(v, path, ok) => if path == Unload then t == v else !ok
    case CallLock(v, path) => path == Unload && t == v
    case CallPre(v, path) => path == Unload && t == v
    case CallStart(v, path) => path == Unload && t == v
    case CallBody(v, path) => path == Unload && t == v
    case _ => false
  }

  /** The answer to what is asked at pc is no, and matters. */
  predicate No(pc: Pc, handle: Option<Vid>, c: Choice)
  {
    && AskOf(pc).Some? && Matters(AskOf(pc).value) && !Yes(AskOf(pc).value, handle, c)
    && (pc.CallBody? ==> !c.more)
  }

  lemma RefusesIs(s: State, l: Step, t: Tid)
    ensures Refuses(s, l, t) <==> l.Go? && l.t == t && t in s.pcs && No(s.pcs[t], s.fs, l.c)
  {
    if l.Go? && l.t == t && t in s.pcs && No(s.pcs[t], s.fs, l.c) {
      assert Asks(s, l, t, AskOf(s.pcs[t]).value);
    }
  }

  lemma FailingCall(t: Tid, pc: Pc, vm: Vm, c: Choice, race: bool, handle: Option<Vid>)
    requires pc.InCallPath()
    ensures Failing(t, OnVm(t, pc, vm, c, race).1) <==> Failing(t, pc) || No(pc, handle, c)
  {
    hide Tell, Lock, Unlock;
  }

  lemma FailingElse(t: Tid, pc: Pc, vm: Vm, c: Choice, race: bool, handle: Option<Vid>)
    requires pc.On().Some? && !pc.Publish? && !pc.InCallPath()
    ensures Failing(t, OnVm(t, pc, vm, c, race).1) <==> Failing(t, pc) || No(pc, handle, c)
  {
    hide Tell, Lock, Unlock, Freed, Allocated;
  }

  lemma FailingOnVm(t: Tid, pc: Pc, vm: Vm, c: Choice, race: bool, handle: Option<Vid>)
    requires pc.On().Some? && !pc.Publish?
    ensures Failing(t, OnVm(t, pc, vm, c, race).1) <==> Failing(t, pc) || No(pc, handle, c)
  {
    hide OnVm, Failing, No;
    if pc.InCallPath() {
      FailingCall(t, pc, vm, c, race, handle);
    } else {
      FailingElse(t, pc, vm, c, race, handle);
    }
  }

  ghost predicate IsFailing(s: State, t: Tid)
  {
    t in s.pcs && Failing(t, s.pcs[t])
  }

  lemma FailingHandle(s: State, t: Tid, c: Choice)
    requires Inv(s) && AllLoadsOk(s) && Enabled(s, Go(t, c)) && s.pcs[t].On().None?
    ensures t in HandleStep(s, t, c).pcs
    ensures Failing(t, HandleStep(s, t, c).pcs[t]) <==> Failing(t, s.pcs[t]) || No(s.pcs[t], s.fs, c)
  {
    assert ThreadOk(s, t) && LoadOk(s, t) && HandleOk(s);
    hide Inv, AllLoadsOk;
  }

  lemma FailingPublish(s: State, t: Tid)
    requires Inv(s) && t in s.pcs && s.pcs[t].Publish? && s.pcs[t].v in s.vms
    ensures t in PublishStep(s, t).pcs
    ensures Failing(t, PublishStep(s, t).pcs[t]) <==> s.fs.Some?
  {
    assert ThreadOk(s, t);
    hide Inv;
  }

  lemma FailingStep(s: State, l: Step, t: Tid)
    requires Inv(s) && AllLoadsOk(s) && Enabled(s, l)
    ensures IsFailing(Next(s, l), t) <==> IsFailing(s, t) || Refuses(s, l, t)
  {
    RefusesIs(s, l, t);
    if l.t != t {
      MovesOne(s, l, t);
    } else if l.Go? {
      var pc := s.pcs[t];
      if pc.Publish? {
        FailingPublish(s, t);
      } else if pc.On().Some? {
        var v := pc.On().value;
        FailingOnVm(t, pc, s.vms[v], l.c, !CallbacksOver(s, v), s.fs);
        hide OnVm, Failing, No;
      } else {
        FailingHandle(s, t, l.c);
      }
    }
    hide Inv, AllLoadsOk, OnVm, CallbacksOver, Quiet, HandleStep, PublishStep, No, Refuses;
  }

  lemma RefusedMore(run: seq<State>, steps: seq<Step>, k: nat, t: Tid)
    requires |run| == |steps| + 1 && 0 < k < |run|
    ensures RefusedBefore(run, steps, k, t) <==>
      RefusedBefore(run, steps, k - 1, t) || Refuses(run[k - 1], steps[k - 1], t)
  {
    hide Refuses;
  }

  lemma {:induction false} FailingIff(run: seq<State>, steps: seq<Step>, k: nat, t: Tid)
    requires IsRun(run, steps) && k < |run|
    ensures IsFailing(run[k], t) <==> RefusedBefore(run, steps, k, t)
  {
    hide Next, Enabled, IsFailing, RefusedBefore;
    if k == 0 {
      NobodyFails(run, steps, t);
    } else {
      hide IsRun;
      StepOf(run, steps, k);
      FailingIff(run, steps, k - 1, t);
      RunKeepsInv(run, steps, k - 1);
      RunKeepsLoads(run, steps, k - 1);
      hide Inv, AllLoadsOk, Refuses;
      FailingStep(run[k - 1], steps[k - 1], t);
      RefusedMore(run, steps, k, t);
    }
  }

  lemma NobodyFails(run: seq<State>, steps: seq<Step>, t: Tid)
    requires IsRun(run, steps)
    ensures !IsFailing(run[0], t) && !RefusedBefore(run, steps, 0, t)
  {
  }

  /** Over every run, for every load, execute and close: it reports success if and only if nothing it
      asked for was refused. */
  lemma RequestSucceedsIff(run: seq<State>, steps: seq<Step>, k: nat, t: Tid)
    requires IsRun(run, steps) && k < |run| && t in run[k].pcs && run[k].pcs[t].Done?
    ensures run[k].pcs[t].ok <==> !RefusedBefore(run, steps, k, t)
  {
    FailingIff(run, steps, k, t);
    hide IsRun, RefusedBefore;
  }

  /** Once something has been refused to a load, no later state has its VM as the handle's context:
      in particular when created was vetoed, or main was vetoed or failed. */
  lemma RefusedNeverPublished(run: seq<State>, steps: seq<Step>, i: nat, k: nat, t: Tid)
    requires IsRun(run, steps) && i <= k < |run| && RefusedBefore(run, steps, i, t)
    ensures run[k].fs != Some(t)
  {
    assert RefusedBefore(run, steps, k, t) by {
      var m :| 0 <= m < i && Refuses(run[m], steps[m], t);
      hide Refuses;
    }
    FailingIff(run, steps, k, t);
    RunKeepsLoads(run, steps, k);
    RunKeepsInv(run, steps, k);
    assert LoadOk(run[k], t) && HandleOk(run[k]);
    hide IsRun, RefusedBefore, Inv, AllLoadsOk;
  }

  /** A load that reports failure has left nothing behind. */
  lemma FailedLoadLeavesNothing(run: seq<State>, steps: seq<Step>, k: nat, t: Tid)
    requires IsRun(run, steps) && k < |run| && t in run[k].pcs && run[k].pcs[t] == Done(false) && t in run[k].vms
    ensures var vm := run[k].vms[t]; vm.copy == RETURNED && Over(vm.ctx) && Over(vm.arena)
  {
    RunKeepsLoads(run, steps, k);
    RunKeepsInv(run, steps, k);
    assert LoadOk(run[k], t) && VmOk(run[k], t) && HandleOk(run[k]);
    assert run[k].vms[t].owner.Thread? ==> ThreadOk(run[k], run[k].vms[t].owner.t);
    hide IsRun, AllLoadsOk, Scan, UnderMutex, Quiet;
  }

  // ---- Halts ----

  /** The machine stops exactly when a dispatch finds no cip or is vetoed, or its call fails. */
  lemma HaltsIff(run: seq<State>, steps: seq<Step>, k: nat)
    requires IsRun(run, steps) && k < |steps|
    ensures var s, l := run[k], steps[k];
      run[k + 1].halted <==>
        && l.Go? && l.t in s.pcs
        && var pc := s.pcs[l.t];
        && (|| (pc.CallPre? && pc.path == Dispatch && (l.c.more || !l.c.ok))
            || (pc.CallBody? && pc.path == Dispatch && !l.c.more && !l.c.ok))
  {
    StepOf(run, steps, k + 1);
    RunKeepsInv(run, steps, k);
    var s, l := run[k], steps[k];
    if l.Go? {
      assert ThreadOk(s, l.t);
      if s.pcs[l.t].On().Some? && !s.pcs[l.t].Publish? {
        var v := s.pcs[l.t].On().value;
        HaltsOnVm(l.t, s.pcs[l.t], s.vms[v], l.c, !CallbacksOver(s, v));
      }
    }
    hide IsRun, Inv, OnVm, CallbacksOver, Quiet;
  }

  lemma HaltsOnVm(t: Tid, pc: Pc, vm: Vm, c: Choice, race: bool)
    requires pc.On().Some? && !pc.Publish? && !(pc.CallPost? && pc.path == Dispatch)
    ensures var pc' := OnVm(t, pc, vm, c, race).1;
      (pc'.CallUnlock? && pc'.path == Dispatch && !pc'.ok) <==>
        || (pc.CallPre? && pc.path == Dispatch && (c.more || !c.ok))
        || (pc.CallBody? && pc.path == Dispatch && !c.more && !c.ok)
  {
    hide Tell;
  }
}
