/** Main and unload: that they are run exactly when the loader found them and it is their time. */
module LifecycleUnload {
  import opened Machine
  import opened VmTrace
  import opened Lifecycle
  import opened LifecycleInv
  import opened LifecycleProof
  import opened LifecycleStatus
  import opened LifecycleOutcome
  import opened LifecycleItinerary

  // ---- What the loader found ----

  /** loader::init of VM v succeeds. */
  ghost predicate Inits(s: State, l: Step, v: Vid)
  {
    l.Go? && l.t == v && v in s.pcs && s.pcs[v].LoadInit? && l.c.ok
  }

  /** The loader of v has found a main. */
  ghost predicate FoundMain(run: seq<State>, steps: seq<Step>, k: nat, v: Vid)
    requires |run| == |steps| + 1 && k < |run|
  {
    exists i :: 0 <= i < k && Inits(run[i], steps[i], v) && steps[i].c.main
  }

  /** The loader of v has found an unload. */
  ghost predicate FoundUnload(run: seq<State>, steps: seq<Step>, k: nat, v: Vid)
    requires |run| == |steps| + 1 && k < |run|
  {
    exists i :: 0 <= i < k && Inits(run[i], steps[i], v) && steps[i].c.unload
  }

  ghost predicate HasUnload(s: State, v: Vid)
  {
    v in s.vms && s.vms[v].hasUnload
  }

  /** Before loader::init nothing has been found. */
  ghost predicate NothingYet(s: State, t: Tid)
  {
    t in s.pcs && (s.pcs[t].LoadCtx? || s.pcs[t].LoadInit?) ==> !HasMain(s, t) && !HasUnload(s, t)
  }

  lemma FlagsStep(s: State, l: Step, v: Vid)
    requires Inv(s) && Enabled(s, l) && NothingYet(s, v)
    ensures HasMain(Next(s, l), v) <==> HasMain(s, v) || (Inits(s, l, v) && l.c.main)
    ensures HasUnload(Next(s, l), v) <==> HasUnload(s, v) || (Inits(s, l, v) && l.c.unload)
  {
    if l.Go? && l.t == v && s.pcs[v].LoadInit? {
      assert ThreadOk(s, v);
      GoOnVm(s, v, l.c);
      FlagsOnVm(v, s.pcs[v], s.vms[v], l.c, !CallbacksOver(s, v));
      hide OnVm, Next, Inv;
    } else if v in s.vms {
      FlagsStay(s, l, v);
      hide Next, Inv;
    } else if v in Next(s, l).vms {
      NewVmNotParting(s, l, v);
      hide Next, Inv;
    }
  }

  lemma InitPlaces(s: State, l: Step, v: Vid)
    requires Inv(s) && Enabled(s, l) && NothingYet(s, v)
    ensures NothingYet(Next(s, l), v)
  {
    FlagsStep(s, l, v);
    if l.t != v {
      MovesOne(s, l, v);
      hide Next, Inv, Enabled;
    } else if l.Go? {
      if s.pcs[v].On().Some? && !s.pcs[v].Publish? {
        GoOnVm(s, v, l.c);
        BackToInit(v, s.pcs[v], s.vms[s.pcs[v].On().value], l.c, !CallbacksOver(s, s.pcs[v].On().value));
        hide OnVm, Next, Inv, HasMain, HasUnload, CallbacksOver;
      } else {
        assert ThreadOk(s, v);
        hide Inv, VmStep;
      }
    }
  }

  lemma BackToInit(t: Tid, pc: Pc, vm: Vm, c: Choice, race: bool)
    requires pc.On().Some? && !pc.Publish?
    ensures var pc' := OnVm(t, pc, vm, c, race).1; !pc'.LoadCtx? && (pc'.LoadInit? ==> pc.LoadCtx?)
  {
    hide Tell;
  }

  lemma FoundMore(run: seq<State>, steps: seq<Step>, k: nat, v: Vid)
    requires |run| == |steps| + 1 && 0 < k < |run|
    ensures FoundMain(run, steps, k, v) <==>
      FoundMain(run, steps, k - 1, v) || (Inits(run[k - 1], steps[k - 1], v) && steps[k - 1].c.main)
    ensures FoundUnload(run, steps, k, v) <==>
      FoundUnload(run, steps, k - 1, v) || (Inits(run[k - 1], steps[k - 1], v) && steps[k - 1].c.unload)
  {
    hide Inits;
  }

  /** A VM's flags say what its loader has found. */
  lemma {:induction false} FlagsIff(run: seq<State>, steps: seq<Step>, k: nat, v: Vid)
    requires IsRun(run, steps) && |run| == |steps| + 1 && k < |run|
    ensures HasMain(run[k], v) <==> FoundMain(run, steps, k, v)
    ensures HasUnload(run[k], v) <==> FoundUnload(run, steps, k, v)
    ensures NothingYet(run[k], v)
  {
    hide IsRun, Next, Enabled, Inv, Inits, FoundMain, FoundUnload, HasMain, HasUnload, NothingYet;
    if k == 0 {
      NothingFound(run, steps, v);
    } else {
      StepOf(run, steps, k);
      FlagsIff(run, steps, k - 1, v);
      RunKeepsInv(run, steps, k - 1);
      FlagsStep(run[k - 1], steps[k - 1], v);
      InitPlaces(run[k - 1], steps[k - 1], v);
      FoundMore(run, steps, k, v);
    }
  }

  lemma NothingFound(run: seq<State>, steps: seq<Step>, v: Vid)
    requires IsRun(run, steps) && |run| == |steps| + 1
    ensures !HasMain(run[0], v) && !FoundMain(run, steps, 0, v)
    ensures !HasUnload(run[0], v) && !FoundUnload(run, steps, 0, v) && NothingYet(run[0], v)
  {
  }

  // ---- Loads and executes ----

  /** A load that reports success was granted all it asks for; if its loader found a main, that
      includes a precall of main that passed and a call of it that ended well. */
  lemma LoadNeedsAll(run: seq<State>, steps: seq<Step>, k: nat, t: Tid, a: nat)
    requires IsRun(run, steps) && |run| == |steps| + 1 && k < |run| && Began(steps, k, t, LoadRequest)
    requires t in run[k].pcs && run[k].pcs[t] == Done(true) && a < |Order(LoadRequest)|
    ensures (AboutMain(Order(LoadRequest)[a]) && !FoundMain(run, steps, k, t))
      || GrantedBefore(run, steps, k, t, Order(LoadRequest)[a])
  {
    WayIsGranted(run, steps, k, t, LoadRequest);
    FlagsIff(run, steps, k, t);
    hide IsRun, GrantedBefore, HasMain, FoundMain, HasUnload, FoundUnload, NothingYet;
  }

  /** A load gets to the compare-exchange only with its VM announced and, if its loader found a main,
      after a call of main that ended well. */
  lemma PublishNeedsMain(run: seq<State>, steps: seq<Step>, k: nat, t: Tid)
    requires IsRun(run, steps) && |run| == |steps| + 1 && k < |run| && Began(steps, k, t, LoadRequest)
    requires t in run[k].pcs && run[k].pcs[t].Publish?
    ensures GrantedBefore(run, steps, k, t, CreatedVerdict)
    ensures FoundMain(run, steps, k, t) ==>
      GrantedBefore(run, steps, k, t, PrecallPassed(Main)) && GrantedBefore(run, steps, k, t, CallSucceeded(Main))
  {
    WayIsGranted(run, steps, k, t, LoadRequest);
    FlagsIff(run, steps, k, t);
    hide IsRun, GrantedBefore, HasMain, FoundMain, HasUnload, FoundUnload, NothingYet;
    var asks := Order(LoadRequest);
    assert asks[5] == CreatedVerdict && asks[6] == PrecallPassed(Main) && asks[7] == CallSucceeded(Main);
  }

  /** Main is called only if the loader found one. */
  lemma MainOnlyIfFound(run: seq<State>, steps: seq<Step>, k: nat, t: Tid)
    requires IsRun(run, steps) && |run| == |steps| + 1 && k < |run| && Began(steps, k, t, LoadRequest)
    requires t in run[k].pcs && run[k].pcs[t].InCallPath() && run[k].pcs[t].path == Main
    ensures FoundMain(run, steps, k, t)
  {
    WayIsGranted(run, steps, k, t, LoadRequest);
    FlagsIff(run, steps, k, t);
    hide IsRun, FoundMain, FoundUnload, GrantedUpTo;
  }

  /** An execute that reports success was resolved, had both buffers mapped, passed its precall, and
      its call ended well, on the VM the handle holds. */
  lemma ExecuteNeedsAll(run: seq<State>, steps: seq<Step>, k: nat, t: Tid, a: nat)
    requires IsRun(run, steps) && |run| == |steps| + 1 && k < |run| && Began(steps, k, t, ExecuteRequest)
    requires t in run[k].pcs && run[k].pcs[t] == Done(true) && a < |Order(ExecuteRequest)|
    ensures GrantedBefore(run, steps, k, t, Order(ExecuteRequest)[a])
  {
    WayIsGranted(run, steps, k, t, ExecuteRequest);
    hide IsRun, GrantedBefore, HasMain;
  }

  lemma ExecuteOnHandle(run: seq<State>, steps: seq<Step>, k: nat, t: Tid)
    requires IsRun(run, steps) && k < |run| && t in run[k].pcs && run[k].pcs[t].Guest() && !DispatchPc(run[k].pcs[t])
    ensures run[k].pcs[t].On() == run[k].fs
  {
    RunKeepsInv(run, steps, k);
    assert ThreadOk(run[k], t) && VmOk(run[k], run[k].pcs[t].On().value);
    hide IsRun, Sound, Rest, Busy;
  }

  /** The last thing a request asks for. */
  predicate IsLast(ask: Ask) { ask == Exchange || ask == CallSucceeded(Execute) }

  /** Places behind a last ask that was granted. */
  predicate Tail(pc: Pc)
  {
    || pc == Done(true)
    || ((pc.CallPost? || pc.CallUnlock?) && pc.path == Execute && pc.ok)
    || ((pc.UnmapOut? || pc.UnmapIn?) && pc.ok)
  }

  ghost predicate InTail(s: State, t: Tid)
  {
    t in s.pcs && Tail(s.pcs[t])
  }

  lemma TailOnVm(t: Tid, pc: Pc, vm: Vm, c: Choice, race: bool)
    requires pc.On().Some? && !pc.Publish?
    requires Tail(pc) || (pc.CallBody? && pc.path == Execute && !c.more && c.ok)
    ensures Tail(OnVm(t, pc, vm, c, race).1)
  {
    hide Tell;
  }

  lemma TailStep(s: State, l: Step, t: Tid, ask: Ask)
    requires Enabled(s, l) && IsLast(ask) && (InTail(s, t) || Grants(s, l, t, ask))
    ensures InTail(Next(s, l), t)
  {
    if l.t != t {
      MovesOne(s, l, t);
      hide Next;
    } else if l.Go? && s.pcs[t].On().Some? && !s.pcs[t].Publish? {
      var v := s.pcs[t].On().value;
      GoOnVm(s, t, l.c);
      TailOnVm(t, s.pcs[t], s.vms[v], l.c, !CallbacksOver(s, v));
      hide OnVm, Next, Tail, CallbacksOver;
    }
  }

  lemma {:induction false} GrantedThenTail(run: seq<State>, steps: seq<Step>, k: nat, t: Tid, ask: Ask)
    requires IsRun(run, steps) && |run| == |steps| + 1 && k < |run| && IsLast(ask)
    requires GrantedBefore(run, steps, k, t, ask)
    ensures InTail(run[k], t)
  {
    hide IsRun, Next, Enabled, Grants, InTail;
    StepOf(run, steps, k);
    if GrantedBefore(run, steps, k - 1, t, ask) {
      GrantedThenTail(run, steps, k - 1, t, ask);
    }
    TailStep(run[k - 1], steps[k - 1], t, ask);
  }

  /** Exactly when an execute reports success: everything it asks for was granted. */
  lemma ExecuteSucceedsIff(run: seq<State>, steps: seq<Step>, k: nat, t: Tid)
    requires IsRun(run, steps) && |run| == |steps| + 1 && k < |run| && Began(steps, k, t, ExecuteRequest)
    requires t in run[k].pcs && run[k].pcs[t].Done?
    ensures run[k].pcs[t].ok <==>
      forall ask :: ask in Order(ExecuteRequest) ==> GrantedBefore(run, steps, k, t, ask)
  {
    hide IsRun, GrantedBefore;
    if run[k].pcs[t].ok {
      forall ask | ask in Order(ExecuteRequest) ensures GrantedBefore(run, steps, k, t, ask) {
        var a :| 0 <= a < |Order(ExecuteRequest)| && Order(ExecuteRequest)[a] == ask;
        ExecuteNeedsAll(run, steps, k, t, a);
      }
    } else {
      assert Order(ExecuteRequest)[6] == CallSucceeded(Execute);
      if GrantedBefore(run, steps, k, t, CallSucceeded(Execute)) {
        GrantedThenTail(run, steps, k, t, CallSucceeded(Execute));
        assert false;
      }
    }
  }

  /** Exactly when a load reports success: everything it asks for was granted, where it asks about
      main only if its loader found one. */
  lemma LoadSucceedsIff(run: seq<State>, steps: seq<Step>, k: nat, t: Tid)
    requires IsRun(run, steps) && |run| == |steps| + 1 && k < |run| && Began(steps, k, t, LoadRequest)
    requires t in run[k].pcs && run[k].pcs[t].Done?
    ensures run[k].pcs[t].ok <==>
      forall ask :: ask in Order(LoadRequest) && (AboutMain(ask) ==> FoundMain(run, steps, k, t)) ==>
        GrantedBefore(run, steps, k, t, ask)
  {
    hide IsRun, GrantedBefore, FoundMain;
    if run[k].pcs[t].ok {
      forall ask | ask in Order(LoadRequest) && (AboutMain(ask) ==> FoundMain(run, steps, k, t))
        ensures GrantedBefore(run, steps, k, t, ask)
      {
        var a :| 0 <= a < |Order(LoadRequest)| && Order(LoadRequest)[a] == ask;
        LoadNeedsAll(run, steps, k, t, a);
      }
    } else {
      assert Order(LoadRequest)[8] == Exchange;
      if GrantedBefore(run, steps, k, t, Exchange) {
        GrantedThenTail(run, steps, k, t, Exchange);
        assert false;
      }
    }
  }

  // ---- Destruction and unload ----

  /** t has come to announce a call of unload. */
  ghost predicate AskedUnload(run: seq<State>, steps: seq<Step>, k: nat, t: Tid)
    requires |run| == |steps| + 1 && k < |run|
  {
    exists i :: 0 <= i < k && Asks(run[i], steps[i], t, PrecallPassed(Unload))
  }

  /** t has lost the compare-exchange. */
  ghost predicate Loses(s: State, l: Step, t: Tid)
  {
    Asks(s, l, t, Exchange) && s.fs.Some?
  }

  ghost predicate Lost(run: seq<State>, steps: seq<Step>, k: nat, t: Tid)
    requires |run| == |steps| + 1 && k < |run|
  {
    exists i :: 0 <= i < k && Loses(run[i], steps[i], t)
  }

  /** Where t stands between its VM's destruction and unload: asked says whether it has come to
      announce unload, lost whether it has lost the compare-exchange. */
  ghost predicate UnloadAt(s: State, t: Tid, asked: bool, lost: bool)
  {
    && (t !in s.pcs ==> !asked && !lost)
    && (t in s.pcs ==>
      var pc := s.pcs[t];
      var late := s.closer == Some(t) || lost;
      && (Loading(pc) || pc.LoadCheck? || pc.LoadVerify? || pc.LoadCopy? ==> !asked && !lost && s.closer != Some(t))
      && (pc.CloseCheck? ==> !asked && s.closer == Some(t))
      && (pc.InCallPath() && pc.path == Unload ==>
            late && HasUnload(s, pc.v) && (asked <==> !pc.CallLock? && !pc.CallPre?))
      && (pc.EndLock? ==> (asked <==> HasUnload(s, pc.v) && late)))
  }

  /** The same, told of places alone. */
  ghost predicate UnloadPlace(pc: Pc, hasUnload: bool, asked: bool, late: bool)
  {
    && (Loading(pc) ==> !asked && !late)
    && (pc.InCallPath() && pc.path == Unload ==> late && hasUnload && (asked <==> !pc.CallLock? && !pc.CallPre?))
    && (pc.EndLock? ==> (asked <==> hasUnload && late))
  }

  lemma UnloadCallOnVm(t: Tid, pc: Pc, vm: Vm, c: Choice, race: bool, asked: bool, late: bool)
    requires pc.InCallPath() && UnloadPlace(pc, vm.hasUnload, asked, late)
    ensures var pc' := OnVm(t, pc, vm, c, race).1;
      && UnloadPlace(pc', vm.hasUnload, asked || (pc.CallPre? && pc.path == Unload), late)
      && (pc.LoadInit? ==> !pc'.EndLock? && !pc'.InCallPath())
      && !pc'.LoadCheck? && !pc'.LoadVerify? && !pc'.LoadCopy? && !pc'.CloseCheck?
  {
    hide Tell, Lock, Unlock;
  }

  lemma UnloadElseOnVm(t: Tid, pc: Pc, vm: Vm, c: Choice, race: bool, asked: bool, late: bool)
    requires pc.On().Some? && !pc.Publish? && !pc.InCallPath() && UnloadPlace(pc, vm.hasUnload, asked, late)
    ensures var pc' := OnVm(t, pc, vm, c, race).1;
      && UnloadPlace(pc', vm.hasUnload, asked || (pc.CallPre? && pc.path == Unload), late)
      && (pc.LoadInit? ==> !pc'.EndLock? && !pc'.InCallPath())
      && !pc'.LoadCheck? && !pc'.LoadVerify? && !pc'.LoadCopy? && !pc'.CloseCheck?
  {
    hide Tell, Lock, Unlock, Freed, Allocated;
  }

  lemma UnloadOnVm(t: Tid, pc: Pc, vm: Vm, c: Choice, race: bool, asked: bool, late: bool)
    requires pc.On().Some? && !pc.Publish? && UnloadPlace(pc, vm.hasUnload, asked, late)
    ensures var pc' := OnVm(t, pc, vm, c, race).1;
      && UnloadPlace(pc', vm.hasUnload, asked || (pc.CallPre? && pc.path == Unload), late)
      && (pc.LoadInit? ==> !pc'.EndLock? && !pc'.InCallPath())
      && !pc'.LoadCheck? && !pc'.LoadVerify? && !pc'.LoadCopy? && !pc'.CloseCheck?
  {
    hide OnVm, UnloadPlace;
    if pc.InCallPath() {
      UnloadCallOnVm(t, pc, vm, c, race, asked, late);
    } else {
      UnloadElseOnVm(t, pc, vm, c, race, asked, late);
    }
  }

  /** What this step adds to the two facts about t. */
  ghost predicate AsksUnload(s: State, l: Step, t: Tid) { Asks(s, l, t, PrecallPassed(Unload)) }

  lemma UnloadOthers(s: State, l: Step, t: Tid, asked: bool, lost: bool)
    requires Inv(s) && Enabled(s, l) && UnloadAt(s, t, asked, lost) && l.t != t
    ensures UnloadAt(Next(s, l), t, asked, lost) && !AsksUnload(s, l, t) && !Loses(s, l, t)
  {
    MovesOne(s, l, t);
    CloserStays(s, l, t);
    assert ThreadOk(s, t);
    if t in s.pcs && s.pcs[t].On().Some? {
      var v := s.pcs[t].On().value;
      if l.Go? && l.t == v && s.pcs[v].LoadInit? {
        assert ThreadOk(s, v);
        hide Inv, Next;
      } else {
        FlagsStay(s, l, v);
        hide Inv, Next;
      }
    }
    hide Next, Inv, May, NoDispatchOn;
  }

  lemma CloserStays(s: State, l: Step, t: Tid)
    requires Enabled(s, l) && l.t != t
    ensures Next(s, l).closer == Some(t) <==> s.closer == Some(t)
  {
    hide OnVm;
  }

  lemma PlaceOfAt(s: State, t: Tid, asked: bool, lost: bool)
    requires UnloadAt(s, t, asked, lost) && t in s.pcs && s.pcs[t].On().Some? && s.pcs[t].On().value in s.vms
    ensures UnloadPlace(s.pcs[t], s.vms[s.pcs[t].On().value].hasUnload, asked, s.closer == Some(t) || lost)
  {
  }

  lemma AtOfPlace(s: State, t: Tid, v: Vid, hasUnload: bool, asked: bool, lost: bool)
    requires t in s.pcs && UnloadPlace(s.pcs[t], hasUnload, asked, s.closer == Some(t) || lost)
    requires s.pcs[t].On().Some? ==> s.pcs[t].On() == Some(v)
    requires s.pcs[t].EndLock? || s.pcs[t].InCallPath() ==> HasUnload(s, v) == hasUnload
    requires var pc := s.pcs[t]; !pc.LoadCheck? && !pc.LoadVerify? && !pc.LoadCopy? && !pc.CloseCheck?
    ensures UnloadAt(s, t, asked, lost)
  {
  }

  lemma VmStepIs(s: State, t: Tid, c: Choice)
    requires t in s.pcs && s.pcs[t].On().Some? && !s.pcs[t].Publish? && s.pcs[t].On().value in s.vms
    ensures var v, s' := s.pcs[t].On().value, VmStep(s, t, c);
      && t in s'.pcs && v in s'.vms && s'.closer == s.closer
      && (s'.vms[v], s'.pcs[t]) == OnVm(t, s.pcs[t], s.vms[v], c, !CallbacksOver(s, v))
  {
  }

  lemma AsksUnloadIs(s: State, t: Tid, c: Choice)
    requires t in s.pcs
    ensures AsksUnload(s, Go(t, c), t) <==> s.pcs[t].CallPre? && s.pcs[t].path == Unload
    ensures Loses(s, Go(t, c), t) ==> s.pcs[t].Publish?
  {
  }

  lemma UnloadOwnOnVm(s: State, t: Tid, c: Choice, asked: bool, lost: bool)
    requires Inv(s) && Enabled(s, Go(t, c)) && UnloadAt(s, t, asked, lost)
    requires s.pcs[t].On().Some? && !s.pcs[t].Publish?
    ensures UnloadAt(Next(s, Go(t, c)), t, asked || AsksUnload(s, Go(t, c), t), lost) && !Loses(s, Go(t, c), t)
  {
    var pc, v := s.pcs[t], s.pcs[t].On().value;
    hide Inv, UnloadPlace, UnloadAt, OnVm, VmStep, CallbacksOver, AsksUnload, Loses;
    GoOnVm(s, t, c);
    AsksUnloadIs(s, t, c);
    hide Next, Enabled, Pc.On, Pc.Guest, Pc.Critical, Pc.InCallPath;
    PlaceOfAt(s, t, asked, lost);
    VmStepIs(s, t, c);
    var race := !CallbacksOver(s, v);
    UnloadOnVm(t, pc, s.vms[v], c, race, asked, s.closer == Some(t) || lost);
    OnStays(t, pc, s.vms[v], c, race);
    FlagsOnVm(t, pc, s.vms[v], c, race);
    AtOfPlace(VmStep(s, t, c), t, v, s.vms[v].hasUnload, asked || (pc.CallPre? && pc.path == Unload), lost);
  }

  lemma UnloadOwnPublish(s: State, t: Tid, c: Choice, asked: bool, lost: bool)
    requires Inv(s) && Enabled(s, Go(t, c)) && UnloadAt(s, t, asked, lost) && s.pcs[t].Publish?
    ensures UnloadAt(Next(s, Go(t, c)), t, asked, lost || Loses(s, Go(t, c), t)) && !AsksUnload(s, Go(t, c), t)
  {
    assert ThreadOk(s, t);
    hide Inv, VmStep, HandleStep;
  }

  lemma UnloadOwnClose(s: State, t: Tid, c: Choice, asked: bool, lost: bool)
    requires Inv(s) && Enabled(s, Go(t, c)) && UnloadAt(s, t, asked, lost) && s.pcs[t].CloseCheck?
    ensures UnloadAt(HandleStep(s, t, c), t, asked, lost)
    ensures !AsksUnload(s, Go(t, c), t) && !Loses(s, Go(t, c), t)
  {
    assert t in s.pcs;
    hide Inv, Enabled;
  }

  lemma UnloadOwnElse(s: State, t: Tid, c: Choice, asked: bool, lost: bool)
    requires Inv(s) && Enabled(s, Go(t, c)) && UnloadAt(s, t, asked, lost)
    requires s.pcs[t].On().None? && !s.pcs[t].CloseCheck?
    ensures UnloadAt(HandleStep(s, t, c), t, asked, lost)
    ensures !AsksUnload(s, Go(t, c), t) && !Loses(s, Go(t, c), t)
  {
    assert ThreadOk(s, t) && !s.pcs[t].Done?;
    hide Inv, Enabled, Destroying;
  }

  lemma UnloadOwnHandle(s: State, t: Tid, c: Choice, asked: bool, lost: bool)
    requires Inv(s) && Enabled(s, Go(t, c)) && UnloadAt(s, t, asked, lost) && s.pcs[t].On().None?
    ensures UnloadAt(Next(s, Go(t, c)), t, asked, lost)
    ensures !AsksUnload(s, Go(t, c), t) && !Loses(s, Go(t, c), t)
  {
    assert Next(s, Go(t, c)) == HandleStep(s, t, c);
    hide Inv, Next, HandleStep, UnloadAt, AsksUnload, Loses;
    if s.pcs[t].CloseCheck? {
      UnloadOwnClose(s, t, c, asked, lost);
    } else {
      UnloadOwnElse(s, t, c, asked, lost);
    }
  }

  lemma UnloadStarts(s: State, l: Step, t: Tid, asked: bool, lost: bool)
    requires Inv(s) && Enabled(s, l) && UnloadAt(s, t, asked, lost) && l.t == t && !l.Go?
    ensures UnloadAt(Next(s, l), t, asked, lost) && !AsksUnload(s, l, t) && !Loses(s, l, t)
  {
    hide ThreadOk, VmOk, Quiet;
  }

  lemma UnloadStep(s: State, l: Step, t: Tid, asked: bool, lost: bool)
    requires Inv(s) && Enabled(s, l) && UnloadAt(s, t, asked, lost)
    ensures UnloadAt(Next(s, l), t, asked || AsksUnload(s, l, t), lost || Loses(s, l, t))
  {
    hide Inv, Next, UnloadAt, AsksUnload, Loses;
    if l.t != t {
      UnloadOthers(s, l, t, asked, lost);
    } else if !l.Go? {
      UnloadStarts(s, l, t, asked, lost);
    } else {
      assert l == Go(t, l.c);
      if s.pcs[t].Publish? {
        UnloadOwnPublish(s, t, l.c, asked, lost);
      } else if s.pcs[t].On().Some? {
        UnloadOwnOnVm(s, t, l.c, asked, lost);
      } else {
        UnloadOwnHandle(s, t, l.c, asked, lost);
      }
    }
  }

  lemma AskedMore(run: seq<State>, steps: seq<Step>, k: nat, t: Tid)
    requires |run| == |steps| + 1 && 0 < k < |run|
    ensures AskedUnload(run, steps, k, t) <==>
      AskedUnload(run, steps, k - 1, t) || AsksUnload(run[k - 1], steps[k - 1], t)
    ensures Lost(run, steps, k, t) <==> Lost(run, steps, k - 1, t) || Loses(run[k - 1], steps[k - 1], t)
  {
    hide Asks, Loses;
  }

  lemma {:induction false} UnloadIs(run: seq<State>, steps: seq<Step>, k: nat, t: Tid)
    requires IsRun(run, steps) && |run| == |steps| + 1 && k < |run|
    ensures UnloadAt(run[k], t, AskedUnload(run, steps, k, t), Lost(run, steps, k, t))
  {
    hide Next, Enabled, UnloadAt, AskedUnload, Lost;
    if k == 0 {
      NothingAsked(run, steps, t);
    } else {
      hide IsRun;
      StepOf(run, steps, k);
      UnloadIs(run, steps, k - 1, t);
      RunKeepsInv(run, steps, k - 1);
      hide Inv, AsksUnload, Loses;
      UnloadStep(run[k - 1], steps[k - 1], t, AskedUnload(run, steps, k - 1, t), Lost(run, steps, k - 1, t));
      AskedMore(run, steps, k, t);
    }
  }

  lemma NothingAsked(run: seq<State>, steps: seq<Step>, t: Tid)
    requires IsRun(run, steps) && |run| == |steps| + 1
    ensures UnloadAt(run[0], t, AskedUnload(run, steps, 0, t), Lost(run, steps, 0, t))
  {
  }

  /** Over every run: when t begins to destroy VM v, it has gone through v's unload before if and only
      if v's loader found one and t is the close of the handle or a load that lost the
      compare-exchange; a load that failed earlier destroys its VM without it. */
  lemma UnloadIff(run: seq<State>, steps: seq<Step>, k: nat, t: Tid, v: Vid)
    requires IsRun(run, steps) && k < |steps| && BeginsDestroy(run[k], steps[k], v) && steps[k].t == t
    ensures |run| == |steps| + 1
    ensures AskedUnload(run, steps, k, t) <==>
      FoundUnload(run, steps, k, v) && (run[k].closer == Some(t) || Lost(run, steps, k, t))
  {
    assert |run| == |steps| + 1;
    UnloadIs(run, steps, k, t);
    FlagsIff(run, steps, k, v);
    hide IsRun, AskedUnload, Lost, FoundUnload, FoundMain, NothingYet;
  }
}
