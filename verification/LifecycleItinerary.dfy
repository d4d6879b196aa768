/** On which way a request gets where it is: what must have been granted before, and that it was. */
module LifecycleItinerary {
  import opened Machine
  import opened VmTrace
  import opened Lifecycle
  import opened LifecycleInv
  import opened LifecycleProof
  import opened LifecycleStatus
  import opened LifecycleOutcome

  datatype Request = LoadRequest | ExecuteRequest

  /** What a request asks for, in this order. The two about main only concern a VM that has one. */
  function Order(r: Request): seq<Ask>
  {
    match r
    case LoadRequest =>
      [HandleEmpty, Signature, CopyMemory, ContextMemory, LoaderInit, CreatedVerdict,
       PrecallPassed(Main), CallSucceeded(Main), Exchange]
    case ExecuteRequest =>
      [HandleSet, HandleStillSet, Resolved, InputMapped, OutputMapped,
       PrecallPassed(Execute), CallSucceeded(Execute)]
  }

  predicate AboutMain(ask: Ask) { ask == PrecallPassed(Main) || ask == CallSucceeded(Main) }

  /** The places of a request. */
  predicate PlaceOf(r: Request, pc: Pc)
  {
    match r
    case LoadRequest =>
      || pc.LoadCheck? || pc.LoadVerify? || pc.LoadCopy? || Loading(pc) || Ending(pc) || pc.Done?
      || (pc.InCallPath() && pc.path == Unload)
    case ExecuteRequest =>
      || pc.ExecCheck? || pc.ExecRead? || pc.Done? || (pc.Guest() && !(pc.InCallPath() && pc.path == Dispatch))
  }

  /** How many of the request's asks are behind it, unless it is failing. */
  function Behind(r: Request, pc: Pc): nat
  {
    match pc
    case LoadCheck => 0
    case LoadVerify => 1
    case LoadCopy => 2
    case LoadCtx(_) => 3
    case LoadInit(_) => 4
    case CreateLock(_) => 5
    case CreateTell(_) => 5
    case CreateUnlock(_, _) => 6
    case Publish(_) => 8
    case ExecCheck => 0
    case ExecRead => 1
    case ExecFind(_) => 2
    case MapIn(_) => 3
    case MapOut(_) => 4
    case UnmapOut(_, _) => 7
    case UnmapIn(_, _) => 7
    case CallLock(_, _) => if r.LoadRequest? then 6 else 3
    case CallPre(_, _) => if r.LoadRequest? then 6 else 5
    case CallStart(_, _) => if r.LoadRequest? then 7 else 6
    case CallBody(_, _) => if r.LoadRequest? then 7 else 6
    case CallPost(_, _, _) => if r.LoadRequest? then 8 else 7
    case CallUnlock(_, _, _) => if r.LoadRequest? then 8 else 7
    case _ => if r.LoadRequest? then 9 else 7
  }

  /** From pc to pc' a request that does not fail puts at most the ask of pc behind it, and only by a
      yes; a load without main passes over the two about main. */
  ghost predicate Forward(r: Request, pc: Pc, pc': Pc, hasMain: bool, yes: bool)
  {
    || Behind(r, pc') <= Behind(r, pc)
    || (Behind(r, pc') == Behind(r, pc) + 1 <= |Order(r)| && yes && AskOf(pc) == Some(Order(r)[Behind(r, pc)]))
    || (r.LoadRequest? && !hasMain && Behind(r, pc) == 6 && Behind(r, pc') == 8)
  }

  /** What is asked at pc is answered yes. */
  predicate Said(pc: Pc, handle: Option<Vid>, c: Choice)
  {
    AskOf(pc).Some? && Yes(AskOf(pc).value, handle, c) && (pc.CallBody? ==> !c.more)
  }

  /** Whether there is a main and an unload is settled by loader::init. */
  lemma FlagsOnVm(t: Tid, pc: Pc, vm: Vm, c: Choice, race: bool)
    requires pc.On().Some? && !pc.Publish?
    ensures var vm' := OnVm(t, pc, vm, c, race).0;
      if pc.LoadInit? && c.ok then vm'.hasMain == c.main && vm'.hasUnload == c.unload
      else vm'.hasMain == vm.hasMain && vm'.hasUnload == vm.hasUnload
  {
  }

  /** What a step of a load on its VM keeps. */
  ghost predicate LoadStep(t: Tid, pc: Pc, pc': Pc, hasMain: bool, yes: bool)
  {
    && PlaceOf(LoadRequest, pc')
    && (pc'.InCallPath() && pc'.path == Main ==> hasMain)
    && (!Failing(t, pc') ==> Forward(LoadRequest, pc, pc', hasMain, yes))
  }

  lemma LoadCallOnVm(t: Tid, pc: Pc, vm: Vm, c: Choice, race: bool, handle: Option<Vid>)
    requires pc.On() == Some(t) && PlaceOf(LoadRequest, pc) && pc.InCallPath() && (pc.path == Main ==> vm.hasMain)
    ensures LoadStep(t, pc, OnVm(t, pc, vm, c, race).1, vm.hasMain, Said(pc, handle, c))
  {
    hide Tell;
  }

  lemma LoadOwnOnVm(t: Tid, pc: Pc, vm: Vm, c: Choice, race: bool, handle: Option<Vid>)
    requires pc.On() == Some(t) && !pc.Publish? && Loading(pc) && !pc.InCallPath()
    ensures LoadStep(t, pc, OnVm(t, pc, vm, c, race).1, vm.hasMain, Said(pc, handle, c))
  {
    hide Tell;
  }

  lemma LoadEndOnVm(t: Tid, pc: Pc, vm: Vm, c: Choice, race: bool, handle: Option<Vid>)
    requires pc.On() == Some(t) && Ending(pc)
    ensures LoadStep(t, pc, OnVm(t, pc, vm, c, race).1, vm.hasMain, Said(pc, handle, c))
  {
    hide Tell, BlocksFit;
  }

  lemma ExecuteOnVm(t: Tid, pc: Pc, vm: Vm, c: Choice, race: bool, handle: Option<Vid>)
    requires pc.On().Some? && PlaceOf(ExecuteRequest, pc)
    ensures var pc' := OnVm(t, pc, vm, c, race).1;
      && PlaceOf(ExecuteRequest, pc')
      && (!Failing(t, pc') ==> Forward(ExecuteRequest, pc, pc', vm.hasMain, Said(pc, handle, c)))
  {
    hide Tell;
  }

  // ---- Over a run ----

  ghost predicate HasMain(s: State, t: Tid)
  {
    t in s.vms && s.vms[t].hasMain
  }

  ghost predicate OnItsWay(s: State, t: Tid, r: Request)
  {
    && t in s.pcs && PlaceOf(r, s.pcs[t])
    && (r.LoadRequest? && s.pcs[t].InCallPath() && s.pcs[t].path == Main ==> HasMain(s, t))
    && (r.LoadRequest? && s.pcs[t].On().Some? ==> s.pcs[t].On() == Some(t))
  }

  /** A step of another thread leaves t's VM's flags alone, and so does one of t that is not
      loader::init. */
  lemma FlagsStay(s: State, l: Step, v: Vid)
    requires Inv(s) && Enabled(s, l) && v in s.vms
    requires !(l.Go? && l.t == v && s.pcs[v].LoadInit?)
    ensures v in Next(s, l).vms
    ensures Next(s, l).vms[v].hasMain == s.vms[v].hasMain && Next(s, l).vms[v].hasUnload == s.vms[v].hasUnload
  {
    if l.Go? {
      assert ThreadOk(s, l.t);
      if s.pcs[l.t].On() == Some(v) && !s.pcs[l.t].Publish? {
        FlagsOnVm(l.t, s.pcs[l.t], s.vms[v], l.c, !CallbacksOver(s, v));
      }
    }
    hide Inv, OnVm, CallbacksOver, Quiet;
  }

  lemma LoadMoves(s: State, t: Tid, c: Choice)
    requires Inv(s) && Enabled(s, Go(t, c)) && OnItsWay(s, t, LoadRequest) && s.pcs[t].On().Some? && !s.pcs[t].Publish?
    ensures var s' := VmStep(s, t, c);
      t in s'.pcs && LoadStep(t, s.pcs[t], s'.pcs[t], HasMain(s, t), Said(s.pcs[t], s.fs, c))
      && (s'.pcs[t].On().Some? ==> s'.pcs[t].On() == Some(t))
  {
    var pc, race := s.pcs[t], !CallbacksOver(s, t);
    assert ThreadOk(s, t);
    hide Inv, CallbacksOver;
    OnStays(t, pc, s.vms[t], c, race);
    if pc.InCallPath() {
      LoadCallOnVm(t, pc, s.vms[t], c, race, s.fs);
    } else if Ending(pc) {
      LoadEndOnVm(t, pc, s.vms[t], c, race, s.fs);
    } else {
      LoadOwnOnVm(t, pc, s.vms[t], c, race, s.fs);
    }
    hide OnVm, LoadStep, Said;
  }

  lemma OnStays(t: Tid, pc: Pc, vm: Vm, c: Choice, race: bool)
    requires pc.On().Some? && !pc.Publish?
    ensures var pc' := OnVm(t, pc, vm, c, race).1; pc'.On().Some? ==> pc'.On() == pc.On()
  {
    hide Tell;
  }

  /** What one step of t does to its request. */
  ghost predicate Went(s: State, s': State, t: Tid, r: Request, yes: bool)
  {
    && OnItsWay(s', t, r) && t in s.pcs
    && (!Failing(t, s'.pcs[t]) ==> Forward(r, s.pcs[t], s'.pcs[t], HasMain(s, t), yes))
  }

  lemma GoOnVm(s: State, t: Tid, c: Choice)
    requires Enabled(s, Go(t, c)) && s.pcs[t].On().Some? && !s.pcs[t].Publish?
    ensures s.pcs[t].On().value in s.vms && Next(s, Go(t, c)) == VmStep(s, t, c)
  {
    hide VmStep;
  }

  lemma LoadWentOnVm(s: State, t: Tid, c: Choice)
    requires Inv(s) && Enabled(s, Go(t, c)) && OnItsWay(s, t, LoadRequest) && s.pcs[t].On().Some? && !s.pcs[t].Publish?
    ensures Went(s, Next(s, Go(t, c)), t, LoadRequest, Said(s.pcs[t], s.fs, c))
  {
    var pc := s.pcs[t];
    GoOnVm(s, t, c);
    LoadMoves(s, t, c);
    InitThenLock(s, t, c);
    if HasMain(s, t) && !pc.LoadInit? { FlagsStay(s, Go(t, c), t); }
    hide Inv, VmStep, Said, Forward, Next, Enabled;
  }

  lemma LoadWentPublish(s: State, t: Tid, c: Choice)
    requires Inv(s) && Enabled(s, Go(t, c)) && OnItsWay(s, t, LoadRequest) && s.pcs[t].Publish?
    ensures Went(s, Next(s, Go(t, c)), t, LoadRequest, Said(s.pcs[t], s.fs, c))
  {
    assert ThreadOk(s, t);
    hide Inv, VmStep, HandleStep;
  }

  lemma LoadWentHandle(s: State, t: Tid, c: Choice)
    requires Inv(s) && Enabled(s, Go(t, c)) && OnItsWay(s, t, LoadRequest) && s.pcs[t].On().None?
    ensures Went(s, Next(s, Go(t, c)), t, LoadRequest, Said(s.pcs[t], s.fs, c))
  {
    assert s.pcs[t].LoadCheck? || s.pcs[t].LoadVerify? || s.pcs[t].LoadCopy?;
    assert Next(s, Go(t, c)) == HandleStep(s, t, c);
    hide Inv, Next, Enabled;
  }

  lemma LoadWent(s: State, t: Tid, c: Choice)
    requires Inv(s) && Enabled(s, Go(t, c)) && OnItsWay(s, t, LoadRequest)
    ensures Went(s, Next(s, Go(t, c)), t, LoadRequest, Said(s.pcs[t], s.fs, c))
  {
    hide Inv, Next, Went, OnItsWay, Said;
    if s.pcs[t].On().Some? && !s.pcs[t].Publish? {
      LoadWentOnVm(s, t, c);
    } else if s.pcs[t].Publish? {
      LoadWentPublish(s, t, c);
    } else {
      LoadWentHandle(s, t, c);
    }
  }

  lemma InitThenLock(s: State, t: Tid, c: Choice)
    requires t in s.pcs && s.pcs[t].On().Some? && !s.pcs[t].Publish? && s.pcs[t].On().value in s.vms
    ensures s.pcs[t].LoadInit? ==> !VmStep(s, t, c).pcs[t].InCallPath()
  {
  }

  lemma ExecuteWent(s: State, t: Tid, c: Choice)
    requires Inv(s) && Enabled(s, Go(t, c)) && OnItsWay(s, t, ExecuteRequest)
    ensures Went(s, Next(s, Go(t, c)), t, ExecuteRequest, Said(s.pcs[t], s.fs, c))
  {
    var pc := s.pcs[t];
    if pc.On().Some? {
      GoOnVm(s, t, c);
      ExecuteOnVm(t, pc, s.vms[pc.On().value], c, !CallbacksOver(s, pc.On().value), s.fs);
      hide Inv, OnVm, Said, Next, CallbacksOver;
    } else {
      assert ThreadOk(s, t);
      hide Inv, VmStep;
    }
  }

  // ---- What has been granted ----

  /** The thread began as such a request. */
  predicate Begins(l: Step, t: Tid, r: Request)
  {
    l == if r.LoadRequest? then StartLoad(t) else StartExec(t)
  }

  ghost predicate Began(steps: seq<Step>, k: nat, t: Tid, r: Request)
    requires k <= |steps|
  {
    exists i :: 0 <= i < k && Begins(steps[i], t, r)
  }

  /** Of the first n asks of the request every one has been granted; a load whose VM has no main is
      not asked about main. */
  ghost predicate GrantedUpTo(run: seq<State>, steps: seq<Step>, k: nat, t: Tid, r: Request, n: nat)
    requires |run| == |steps| + 1 && k < |run|
  {
    && n <= |Order(r)|
    && forall a: nat :: a < n ==>
         (AboutMain(Order(r)[a]) && !HasMain(run[k], t)) || GrantedBefore(run, steps, k, t, Order(r)[a])
  }

  /** The step answers the request's ask yes: then it is a grant. */
  lemma SaidGrants(s: State, t: Tid, c: Choice)
    requires t in s.pcs && Said(s.pcs[t], s.fs, c)
    ensures Grants(s, Go(t, c), t, AskOf(s.pcs[t]).value)
  {
  }

  lemma GrantedLater(run: seq<State>, steps: seq<Step>, k: nat, t: Tid, ask: Ask)
    requires |run| == |steps| + 1 && 0 < k < |run|
    requires GrantedBefore(run, steps, k - 1, t, ask) || Grants(run[k - 1], steps[k - 1], t, ask)
    ensures GrantedBefore(run, steps, k, t, ask)
  {
    hide Grants;
  }

  /** The flags of a VM whose loader has been initialized stay. */
  ghost predicate MainStays(s: State, s': State, t: Tid)
  {
    HasMain(s, t) <==> HasMain(s', t)
  }

  lemma GrantedFurther(run: seq<State>, steps: seq<Step>, k: nat, t: Tid, r: Request, n: nat)
    requires |run| == |steps| + 1 && 0 < k < |run| && GrantedUpTo(run, steps, k - 1, t, r, n)
    requires n > 6 && r.LoadRequest? ==> MainStays(run[k - 1], run[k], t)
    ensures GrantedUpTo(run, steps, k, t, r, n)
  {
    forall a: nat | a < n
      ensures (AboutMain(Order(r)[a]) && !HasMain(run[k], t)) || GrantedBefore(run, steps, k, t, Order(r)[a])
    {
      if GrantedBefore(run, steps, k - 1, t, Order(r)[a]) {
        GrantedLater(run, steps, k, t, Order(r)[a]);
      }
    }
    hide Grants, HasMain;
  }

  lemma MainStaysStep(s: State, l: Step, t: Tid)
    requires Inv(s) && Enabled(s, l) && !(l.Go? && l.t == t && s.pcs[t].LoadInit?)
    ensures MainStays(s, Next(s, l), t)
  {
    if t in s.vms {
      FlagsStay(s, l, t);
    } else if t in Next(s, l).vms {
      NewVmNotParting(s, l, t);
    }
    hide Next, Enabled, Inv;
  }

  /** The request is where it is by grants alone. */
  ghost predicate ByGrants(run: seq<State>, steps: seq<Step>, k: nat, t: Tid, r: Request)
    requires |run| == |steps| + 1 && k < |run|
  {
    && OnItsWay(run[k], t, r)
    && (!IsFailing(run[k], t) ==> GrantedUpTo(run, steps, k, t, r, Behind(r, run[k].pcs[t])))
  }

  /** A step of another thread. */
  lemma OthersGo(run: seq<State>, steps: seq<Step>, k: nat, t: Tid, r: Request)
    requires |run| == |steps| + 1 && 0 < k < |run| && ByGrants(run, steps, k - 1, t, r)
    requires Inv(run[k - 1]) && Enabled(run[k - 1], steps[k - 1]) && run[k] == Next(run[k - 1], steps[k - 1])
    requires steps[k - 1].t != t
    ensures ByGrants(run, steps, k, t, r)
  {
    MovesOne(run[k - 1], steps[k - 1], t);
    MainStaysStep(run[k - 1], steps[k - 1], t);
    hide Inv, Next, Enabled, GrantedUpTo, HasMain;
    if !IsFailing(run[k], t) {
      GrantedFurther(run, steps, k, t, r, Behind(r, run[k].pcs[t]));
    }
  }

  /** The request's own step. */
  lemma OwnGo(run: seq<State>, steps: seq<Step>, k: nat, t: Tid, r: Request)
    requires |run| == |steps| + 1 && 0 < k < |run| && ByGrants(run, steps, k - 1, t, r)
    requires Inv(run[k - 1]) && AllLoadsOk(run[k - 1]) && Enabled(run[k - 1], steps[k - 1])
    requires run[k] == Next(run[k - 1], steps[k - 1]) && steps[k - 1].Go? && steps[k - 1].t == t
    ensures ByGrants(run, steps, k, t, r)
  {
    var s, c := run[k - 1], steps[k - 1].c;
    assert t in s.pcs && steps[k - 1] == Go(t, c);
    var pc := s.pcs[t];
    FailingStep(s, steps[k - 1], t);
    if r.LoadRequest? { LoadWent(s, t, c); } else { ExecuteWent(s, t, c); }
    if !pc.LoadInit? { MainStaysStep(s, steps[k - 1], t); }
    hide Inv, AllLoadsOk, Next, Enabled, GrantedUpTo, HasMain, OnItsWay, Said, Refuses, Failing;
    if !IsFailing(run[k], t) {
      var n, n' := Behind(r, pc), Behind(r, run[k].pcs[t]);
      assert n > 6 && r.LoadRequest? ==> !pc.LoadInit?;
      GrantedFurther(run, steps, k, t, r, n);
      if n' <= n {
        FewerGranted(run, steps, k, t, r, n, n');
      } else if Said(pc, s.fs, c) && n' == n + 1 <= |Order(r)| && AskOf(pc) == Some(Order(r)[n]) {
        SaidGrants(s, t, c);
        GrantedLater(run, steps, k, t, Order(r)[n]);
        OneMoreGranted(run, steps, k, t, r, n);
      } else {
        assert !pc.LoadInit?;
        MainPassedOver(run, steps, k, t);
      }
    }
  }

  lemma FewerGranted(run: seq<State>, steps: seq<Step>, k: nat, t: Tid, r: Request, n: nat, m: nat)
    requires |run| == |steps| + 1 && k < |run| && GrantedUpTo(run, steps, k, t, r, n) && m <= n
    ensures GrantedUpTo(run, steps, k, t, r, m)
  {
  }

  lemma OneMoreGranted(run: seq<State>, steps: seq<Step>, k: nat, t: Tid, r: Request, n: nat)
    requires |run| == |steps| + 1 && k < |run| && GrantedUpTo(run, steps, k, t, r, n) && n < |Order(r)|
    requires GrantedBefore(run, steps, k, t, Order(r)[n])
    ensures GrantedUpTo(run, steps, k, t, r, n + 1)
  {
  }

  lemma MainPassedOver(run: seq<State>, steps: seq<Step>, k: nat, t: Tid)
    requires |run| == |steps| + 1 && k < |run| && GrantedUpTo(run, steps, k, t, LoadRequest, 6) && !HasMain(run[k], t)
    ensures GrantedUpTo(run, steps, k, t, LoadRequest, 8)
  {
    var asks := Order(LoadRequest);
    assert AboutMain(asks[6]) && AboutMain(asks[7]);
  }

  lemma RequestBegins(run: seq<State>, steps: seq<Step>, k: nat, t: Tid, r: Request)
    requires |run| == |steps| + 1 && 0 < k < |run| && Begins(steps[k - 1], t, r)
    requires Enabled(run[k - 1], steps[k - 1]) && run[k] == Next(run[k - 1], steps[k - 1])
    ensures t !in run[k - 1].pcs && ByGrants(run, steps, k, t, r)
  {
  }

  lemma BeganBefore(steps: seq<Step>, k: nat, t: Tid, r: Request)
    requires 0 < k <= |steps|
    ensures Began(steps, k, t, r) <==> Began(steps, k - 1, t, r) || Begins(steps[k - 1], t, r)
  {
  }

  /** Over every run, wherever a load or an execute is: unless it is failing, everything it has to be
      granted before that place has been granted. */
  lemma {:induction false} WayIsGranted(run: seq<State>, steps: seq<Step>, k: nat, t: Tid, r: Request)
    requires IsRun(run, steps) && |run| == |steps| + 1 && k < |run| && Began(steps, k, t, r)
    ensures ByGrants(run, steps, k, t, r)
  {
    hide IsRun, Next, Enabled, OnItsWay, GrantedUpTo, Begins, Inv, AllLoadsOk;
    assert k > 0;
    StepOf(run, steps, k);
    BeganBefore(steps, k, t, r);
    if Begins(steps[k - 1], t, r) {
      RequestBegins(run, steps, k, t, r);
    } else {
      WayIsGranted(run, steps, k - 1, t, r);
      RunKeepsInv(run, steps, k - 1);
      RunKeepsLoads(run, steps, k - 1);
      if steps[k - 1].t != t {
        OthersGo(run, steps, k, t, r);
      } else {
        GoesOn(run[k - 1], steps[k - 1], r);
        OwnGo(run, steps, k, t, r);
      }
    }
  }

  /** A thread in the driver starts nothing else. */
  lemma GoesOn(s: State, l: Step, r: Request)
    requires Enabled(s, l) && OnItsWay(s, l.t, r)
    ensures l.Go?
  {
  }
}
