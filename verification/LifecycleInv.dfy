/** What every step of the handle protocol keeps. */
module LifecycleInv {
  import opened Machine
  import opened VmTrace
  import opened Lifecycle

  // ---- One VM and one thread working on it ----

  predicate StageFits(pc: Pc, stage: Stage)
    requires pc.Owns()
  {
    if pc.LoadCtx? then stage == Raw
    else if pc.LoadInit? then stage == Wired
    else if pc.CreateLock? || pc.CreateTell? then stage == Born
    else if pc.CreateUnlock? then stage == if pc.ok then Alive else Rejected
    else if pc.EndLock? || pc.EndTell? then stage == Alive || stage == Rejected
    else if pc.EndUnlock? then stage == Ended
    else if pc.FreeArena? then stage == Ended || stage == Doomed
    else if pc.FreeCtx? then stage == NoArena
    else if pc.FreeCopy? then stage == NoCtx
    else stage == Alive
  }

  /** Which blocks are out at each stage. */
  ghost predicate BlocksFit(stage: Stage, copy: Block, ctx: Block, arena: Block)
  {
    match stage
    case Raw => copy == LIVE && ctx == NEVER && arena == NEVER
    case Wired => copy == LIVE && ctx == LIVE && arena == NEVER
    case Doomed => copy == LIVE && ctx == LIVE && (arena == NEVER || arena == LIVE)
    case NoArena => copy == LIVE && ctx == LIVE && Over(arena)
    case NoCtx => copy == LIVE && Over(ctx) && Over(arena)
    case Dead => copy == RETURNED && Over(ctx) && Over(arena)
    case _ => copy == LIVE && ctx == LIVE && arena == LIVE
  }

  /** Never allocated, or allocated once and freed once. */
  predicate Over(b: Block) { b == NEVER || b == RETURNED }

  predicate Resting(p: Phase) { p == Idle || p == Returned(Dispatch) }

  /** Where the history stands while nobody holds the mutex. */
  predicate RestPhase(stage: Stage, p: Phase)
  {
    match stage
    case Rejected => p == Refused
    case Alive => Resting(p)
    case Ended => p == Gone
    case NoArena => p == Gone || p == Fresh || p == Dropped
    case NoCtx => p == Gone || p == Fresh || p == Dropped
    case Dead => p == Gone || p == Dropped
    case _ => p == Fresh
  }

  /** Where the history stands while the mutex is held there. */
  predicate BusyPhase(pc: Pc, p: Phase)
    requires pc.Critical()
  {
    if pc.CreateTell? then p == Fresh
    else if pc.CreateUnlock? then p == if pc.ok then Idle else Refused
    else if pc.CallStart? then p == Ready
    else if pc.CallBody? then p == InCall
    else if pc.CallPost? then p == Returned(pc.path) && pc.path != Dispatch
    else if pc.EndTell? then Resting(p) || p == Refused
    else if pc.EndUnlock? then p == Gone
    else Resting(p)
  }

  /** The buffers an execute has mapped at each of its places. */
  ghost function MappedAt(pc: Pc, t: Tid): set<Buffer>
  {
    if pc.MapOut? || pc.UnmapIn? then {InBuffer(t)}
    else if pc.UnmapOut? || ((pc.CallPre? || pc.CallStart? || pc.CallBody? || pc.CallPost?) && pc.path == Execute)
    then {InBuffer(t), OutBuffer(t)}
    else {}
  }

  /** Facts about a VM that no thread's place matters for. */
  ghost predicate Sound(vm: Vm)
  {
    && BlocksFit(vm.stage, vm.copy, vm.ctx, vm.arena) && UnderMutex(vm.trace)
    && (vm.stage != Alive && vm.parting != Raced ==> vm.slots == 0)
    && (vm.owner == Nobody <==> vm.stage == Dead)
    && (vm.owner == Published ==> vm.stage == Alive && vm.parting == NotYet)
    && (vm.parting == Raced ==> RacedFits(vm))
  }

  /** A destruction that raced with callbacks: the destroyer still has the mutex and will announce
      destroyed, or it has, and then the history has ended or is broken. */
  ghost predicate RacedFits(vm: Vm)
  {
    if vm.stage == Alive || vm.stage == Rejected
    then vm.mutex.Some? && vm.owner == Thread(vm.mutex.value) && Accept(Scan(vm.trace), Destroyed) == Gone
    else Scan(vm.trace) == Gone || Scan(vm.trace) == Bad
  }

  ghost predicate Rest(vm: Vm)
  {
    && vm.mutex.None? && vm.mapped == {}
    && (vm.parting != Raced ==> RestPhase(vm.stage, Scan(vm.trace)))
  }

  ghost predicate Busy(vm: Vm, pc: Pc, t: Tid)
  {
    && vm.mutex == Some(t) && pc.Critical() && vm.mapped == MappedAt(pc, t)
    && (vm.parting != Raced ==> BusyPhase(pc, Scan(vm.trace)))
    && (vm.parting == Raced && (pc.CallStart? || pc.CallBody? || pc.CallPost?) ==> Scan(vm.trace) == Bad)
  }

  /** A thread at pc may work on this VM. */
  ghost predicate May(t: Tid, pc: Pc, vm: Vm)
    requires pc.On().Some?
  {
    && (pc.Critical() ==> vm.mutex == Some(t))
    && (pc.Owns() ==> vm.owner == Thread(t) && StageFits(pc, vm.stage))
    && (pc.Guest() && vm.parting != Raced ==> vm.stage == Alive)
    && (pc.Guest() && !DispatchPc(pc) ==> vm.owner == Published)
    && (pc.Guest() ==> vm.owner != Thread(t))
    && (pc.CallPost? ==> pc.path != Dispatch)
    && (pc.Owns() && Before(pc) ==> vm.parting == NotYet)
    && (pc.EndTell? && vm.parting != Raced ==> vm.slots == 0)
  }

  /** Places of an owner that has not yet locked the VM to destroy it. */
  predicate Before(pc: Pc) { Loading(pc) || pc.InCallPath() || pc.EndLock? }

  /** Places of a load before its VM is published: the VM is its own. */
  predicate Loading(pc: Pc)
  {
    || pc.LoadCtx? || pc.LoadInit? || pc.CreateLock? || pc.CreateTell? || pc.CreateUnlock? || pc.Publish?
    || (pc.InCallPath() && pc.path == Main)
  }

  /** Places that wait for the mutex. */
  predicate Locking(pc: Pc) { pc.CreateLock? || pc.CallLock? || pc.EndLock? }

  /** The VM as the thread finds it: busy with the thread itself, or at rest. Only an execute that
      looks a function up, or a destroyer racing with a dispatch, finds another thread in it. */
  ghost predicate Found(t: Tid, pc: Pc, vm: Vm)
  {
    if pc.Critical() then Busy(vm, pc, t)
    else Rest(vm) || (!Locking(pc) && vm.mutex.Some? && (pc.ExecFind? || vm.parting == Raced))
  }

  /** One step of a thread on a VM, all of it local. */
  ghost predicate LocalPost(t: Tid, pc: Pc, vm: Vm, pc': Pc, vm': Vm)
    requires pc.On().Some?
  {
    && Sound(vm')
    && (pc'.On().Some? ==> pc'.On() == pc.On() && May(t, pc', vm'))
    && (if pc'.Critical() then Busy(vm', pc', t)
        else if pc.Critical() || Locking(pc) then Rest(vm')
        else vm'.mutex == vm.mutex && vm'.mapped == vm.mapped && (vm.mutex.None? ==> Rest(vm')))
    && (vm'.parting == vm.parting || (pc.EndLock? && vm.parting == NotYet))
    && (vm.mutex.Some? && !pc.Critical() ==> vm' == vm || vm'.parting == Raced)
    && (Scan(vm.trace) == Bad ==> Scan(vm'.trace) == Bad)
    && (pc.Guest() ==> vm'.owner == vm.owner && vm'.stage == vm.stage && (pc'.Guest() || pc'.Done?))
    && (pc.Owns() ==> pc'.Owns() || (pc'.Done? && vm'.owner == Nobody))
    && (pc'.Owns() ==> vm'.owner == vm.owner)
    && (vm.stage == Alive && !pc.EndTell? ==> vm'.stage == Alive && vm'.owner == vm.owner)
    && (!pc.Critical() && !Locking(pc) ==> vm'.mutex == vm.mutex)
    && (DispatchPc(pc) ==> DispatchPc(pc') || pc'.Done?)
    && (DispatchPc(pc') ==> DispatchPc(pc))
    && (Loading(pc') ==> Loading(pc))
    && !pc'.ExecRead? && !pc'.CloseCheck? && !pc'.LoadCheck? && !pc'.LoadVerify? && !pc'.LoadCopy?
    && (vm'.slots > vm.slots ==> pc.CallBody?)
    && (pc'.EndTell? ==> pc.EndLock?)
  }

  /** The part of a step's precondition that is local. */
  ghost predicate LocalPre(t: Tid, pc: Pc, vm: Vm, race: bool)
  {
    && pc.On().Some? && !pc.Publish?
    && Sound(vm) && May(t, pc, vm) && Found(t, pc, vm)
    && (pc.EndLock? && !race ==> vm.slots == 0)
  }

  lemma TellUnderMutex(vm: Vm, t: Tid, k: Kind)
    requires UnderMutex(vm.trace) && (k.Free? || vm.mutex == Some(t))
    ensures UnderMutex(Tell(vm, t, k).trace)
    ensures Scan(Tell(vm, t, k).trace) == Accept(Scan(vm.trace), k)
  {
    ScanAppend(vm.trace, Event(k, t, vm.mutex == Some(t)));
  }

  lemma LocalLoadCtx(t: Tid, pc: Pc, vm: Vm, c: Choice, race: bool)
    requires LocalPre(t, pc, vm, race) && pc.LoadCtx?
    ensures LocalPost(t, pc, vm, OnVm(t, pc, vm, c, race).1, OnVm(t, pc, vm, c, race).0)
  {
    hide Scan, UnderMutex, Accept, MappedAt, BusyPhase;
  }

  lemma LocalLoadInit(t: Tid, pc: Pc, vm: Vm, c: Choice, race: bool)
    requires LocalPre(t, pc, vm, race) && pc.LoadInit?
    ensures LocalPost(t, pc, vm, OnVm(t, pc, vm, c, race).1, OnVm(t, pc, vm, c, race).0)
  {
    hide Scan, UnderMutex, Accept, MappedAt, BusyPhase;
  }

  lemma LocalCreateLock(t: Tid, pc: Pc, vm: Vm, c: Choice, race: bool)
    requires LocalPre(t, pc, vm, race) && pc.CreateLock?
    ensures LocalPost(t, pc, vm, OnVm(t, pc, vm, c, race).1, OnVm(t, pc, vm, c, race).0)
  {
    hide Scan, UnderMutex, BlocksFit, Accept;
  }

  lemma LocalCreateUnlock(t: Tid, pc: Pc, vm: Vm, c: Choice, race: bool)
    requires LocalPre(t, pc, vm, race) && pc.CreateUnlock?
    ensures LocalPost(t, pc, vm, OnVm(t, pc, vm, c, race).1, OnVm(t, pc, vm, c, race).0)
  {
    hide Scan, UnderMutex, BlocksFit, Accept;
  }

  lemma LocalCreateTell(t: Tid, pc: Pc, vm: Vm, c: Choice, race: bool)
    requires LocalPre(t, pc, vm, race) && pc.CreateTell?
    ensures LocalPost(t, pc, vm, OnVm(t, pc, vm, c, race).1, OnVm(t, pc, vm, c, race).0)
  {
    hide Scan, UnderMutex;
    TellUnderMutex(vm, t, Created(c.ok));
  }

  lemma LocalFind(t: Tid, pc: Pc, vm: Vm, c: Choice, race: bool)
    requires LocalPre(t, pc, vm, race) && pc.ExecFind?
    ensures LocalPost(t, pc, vm, OnVm(t, pc, vm, c, race).1, OnVm(t, pc, vm, c, race).0)
  {
    hide Scan, UnderMutex, BlocksFit;
  }

  lemma LocalLockCall(t: Tid, pc: Pc, vm: Vm, c: Choice, race: bool)
    requires LocalPre(t, pc, vm, race) && pc.CallLock?
    ensures LocalPost(t, pc, vm, OnVm(t, pc, vm, c, race).1, OnVm(t, pc, vm, c, race).0)
  {
    hide Scan, UnderMutex, BlocksFit, Accept;
  }

  lemma LocalUnlockCall(t: Tid, pc: Pc, vm: Vm, c: Choice, race: bool)
    requires LocalPre(t, pc, vm, race) && pc.CallUnlock?
    ensures LocalPost(t, pc, vm, OnVm(t, pc, vm, c, race).1, OnVm(t, pc, vm, c, race).0)
  {
    hide Scan, UnderMutex, BlocksFit, Accept;
  }

  lemma LocalPrecall(t: Tid, pc: Pc, vm: Vm, c: Choice, race: bool)
    requires LocalPre(t, pc, vm, race) && pc.CallPre?
    ensures LocalPost(t, pc, vm, OnVm(t, pc, vm, c, race).1, OnVm(t, pc, vm, c, race).0)
  {
    hide Scan, UnderMutex, BlocksFit;
    TellUnderMutex(vm, t, Precall(c.ok));
  }

  lemma LocalStart(t: Tid, pc: Pc, vm: Vm, c: Choice, race: bool)
    requires LocalPre(t, pc, vm, race) && pc.CallStart?
    ensures LocalPost(t, pc, vm, OnVm(t, pc, vm, c, race).1, OnVm(t, pc, vm, c, race).0)
  {
    hide Scan, UnderMutex, BlocksFit;
    TellUnderMutex(vm, t, CallBegin);
  }

  lemma LocalBody(t: Tid, pc: Pc, vm: Vm, c: Choice, race: bool)
    requires LocalPre(t, pc, vm, race) && pc.CallBody?
    ensures LocalPost(t, pc, vm, OnVm(t, pc, vm, c, race).1, OnVm(t, pc, vm, c, race).0)
  {
    hide Scan, UnderMutex, BlocksFit;
    TellUnderMutex(vm.(slots := c.slots), t, CallEnd(pc.path));
  }

  lemma LocalPostcall(t: Tid, pc: Pc, vm: Vm, c: Choice, race: bool)
    requires LocalPre(t, pc, vm, race) && pc.CallPost?
    ensures LocalPost(t, pc, vm, OnVm(t, pc, vm, c, race).1, OnVm(t, pc, vm, c, race).0)
  {
    hide Scan, UnderMutex, BlocksFit;
    TellUnderMutex(vm, t, Postcall);
  }

  lemma LocalMap(t: Tid, pc: Pc, vm: Vm, c: Choice, race: bool)
    requires LocalPre(t, pc, vm, race) && (pc.MapIn? || pc.MapOut?)
    ensures LocalPost(t, pc, vm, OnVm(t, pc, vm, c, race).1, OnVm(t, pc, vm, c, race).0)
  {
    hide Scan, UnderMutex, BlocksFit, Accept;
  }

  lemma LocalUnmap(t: Tid, pc: Pc, vm: Vm, c: Choice, race: bool)
    requires LocalPre(t, pc, vm, race) && (pc.UnmapOut? || pc.UnmapIn?)
    ensures LocalPost(t, pc, vm, OnVm(t, pc, vm, c, race).1, OnVm(t, pc, vm, c, race).0)
  {
    hide Scan, UnderMutex, BlocksFit, Accept;
  }

  lemma LocalEnd(t: Tid, pc: Pc, vm: Vm, c: Choice, race: bool)
    requires LocalPre(t, pc, vm, race) && pc.EndLock?
    ensures LocalPost(t, pc, vm, OnVm(t, pc, vm, c, race).1, OnVm(t, pc, vm, c, race).0)
  {
    hide Scan, UnderMutex, BlocksFit;
  }

  lemma LocalEndUnlock(t: Tid, pc: Pc, vm: Vm, c: Choice, race: bool)
    requires LocalPre(t, pc, vm, race) && pc.EndUnlock?
    ensures LocalPost(t, pc, vm, OnVm(t, pc, vm, c, race).1, OnVm(t, pc, vm, c, race).0)
  {
    hide Scan, UnderMutex, BlocksFit, Accept;
  }

  lemma LocalEndTell(t: Tid, pc: Pc, vm: Vm, c: Choice, race: bool)
    requires LocalPre(t, pc, vm, race) && pc.EndTell?
    ensures LocalPost(t, pc, vm, OnVm(t, pc, vm, c, race).1, OnVm(t, pc, vm, c, race).0)
  {
    hide Scan, UnderMutex;
    TellUnderMutex(vm, t, Destroyed);
  }

  /** A free keeps a history that has ended or was never announced, and mends none. */
  lemma TellFree(vm: Vm, t: Tid)
    requires UnderMutex(vm.trace)
    ensures UnderMutex(Tell(vm, t, Free).trace)
    ensures var p, p' := Scan(vm.trace), Scan(Tell(vm, t, Free).trace);
      && (p == Gone || p == Bad ==> p' == p)
      && (p == Fresh || p == Dropped ==> p' == Dropped)
  {
    hide Scan, UnderMutex;
    TellUnderMutex(vm, t, Free);
  }

  lemma LocalNoArena(t: Tid, pc: Pc, vm: Vm, c: Choice, race: bool)
    requires LocalPre(t, pc, vm, race) && pc.FreeArena? && vm.arena.allocs == 0
    ensures LocalPost(t, pc, vm, OnVm(t, pc, vm, c, race).1, OnVm(t, pc, vm, c, race).0)
  {
    hide Scan, UnderMutex, Accept, MappedAt, BusyPhase;
  }

  lemma LocalFreeArena(t: Tid, pc: Pc, vm: Vm, c: Choice, race: bool)
    requires LocalPre(t, pc, vm, race) && pc.FreeArena? && vm.arena.allocs > 0
    ensures LocalPost(t, pc, vm, OnVm(t, pc, vm, c, race).1, OnVm(t, pc, vm, c, race).0)
  {
    hide Scan, UnderMutex, Accept, MappedAt, BusyPhase;
    TellFree(vm, t);
  }

  lemma LocalFreeCtx(t: Tid, pc: Pc, vm: Vm, c: Choice, race: bool)
    requires LocalPre(t, pc, vm, race) && pc.FreeCtx?
    ensures LocalPost(t, pc, vm, OnVm(t, pc, vm, c, race).1, OnVm(t, pc, vm, c, race).0)
  {
    hide Scan, UnderMutex, Accept, MappedAt, BusyPhase;
    TellFree(vm, t);
  }

  lemma LocalFreeCopy(t: Tid, pc: Pc, vm: Vm, c: Choice, race: bool)
    requires LocalPre(t, pc, vm, race) && pc.FreeCopy?
    ensures LocalPost(t, pc, vm, OnVm(t, pc, vm, c, race).1, OnVm(t, pc, vm, c, race).0)
  {
    hide Scan, UnderMutex, Accept, MappedAt, BusyPhase;
    TellFree(vm, t);
  }

  lemma LocalStep(t: Tid, pc: Pc, vm: Vm, c: Choice, race: bool)
    requires LocalPre(t, pc, vm, race)
    ensures LocalPost(t, pc, vm, OnVm(t, pc, vm, c, race).1, OnVm(t, pc, vm, c, race).0)
  {
    hide LocalPost, OnVm, May, Found, Sound;
    match pc {
      case LoadCtx(_) => LocalLoadCtx(t, pc, vm, c, race);
      case LoadInit(_) => LocalLoadInit(t, pc, vm, c, race);
      case CreateLock(_) => LocalCreateLock(t, pc, vm, c, race);
      case CreateTell(_) => LocalCreateTell(t, pc, vm, c, race);
      case CreateUnlock(_, _) => LocalCreateUnlock(t, pc, vm, c, race);
      case ExecFind(_) => LocalFind(t, pc, vm, c, race);
      case CallLock(_, _) => LocalLockCall(t, pc, vm, c, race);
      case CallUnlock(_, _, _) => LocalUnlockCall(t, pc, vm, c, race);
      case CallPre(_, _) => LocalPrecall(t, pc, vm, c, race);
      case CallStart(_, _) => LocalStart(t, pc, vm, c, race);
      case CallBody(_, _) => LocalBody(t, pc, vm, c, race);
      case CallPost(_, _, _) => LocalPostcall(t, pc, vm, c, race);
      case MapIn(_) => LocalMap(t, pc, vm, c, race);
      case MapOut(_) => LocalMap(t, pc, vm, c, race);
      case UnmapOut(_, _) => LocalUnmap(t, pc, vm, c, race);
      case UnmapIn(_, _) => LocalUnmap(t, pc, vm, c, race);
      case EndLock(_, _) => LocalEnd(t, pc, vm, c, race);
      case EndTell(_, _) => LocalEndTell(t, pc, vm, c, race);
      case EndUnlock(_, _) => LocalEndUnlock(t, pc, vm, c, race);
      case FreeArena(_, _) =>
        if vm.arena.allocs > 0 { LocalFreeArena(t, pc, vm, c, race); } else { LocalNoArena(t, pc, vm, c, race); }
      case FreeCtx(_, _) => LocalFreeCtx(t, pc, vm, c, race);
      case FreeCopy(_, _) => LocalFreeCopy(t, pc, vm, c, race);
    }
  }

  // ---- All threads and all VMs ----

  /** Places with no VM that promise something. */
  ghost predicate HandlePc(s: State, t: Tid, pc: Pc)
  {
    && (pc.LoadCheck? || pc.LoadVerify? || pc.LoadCopy? ==> t !in s.vms && s.closer != Some(t))
    && (pc.ExecRead? ==> s.fs.Some?)
    && (pc.CloseCheck? ==> s.closer == Some(t))
    && (pc.ExecCheck? || pc.ExecRead? || Loading(pc) ==> s.closer != Some(t))
  }

  ghost predicate ThreadOk(s: State, t: Tid)
  {
    t in s.pcs ==>
      var pc := s.pcs[t];
      && HandlePc(s, t, pc)
      && (pc.On().Some? ==>
            var v := pc.On().value;
            && v in s.vms && May(t, pc, s.vms[v])
            && (Loading(pc) ==> v == t)
            && (pc.Owns() ==> v == t || (s.closer == Some(t) && s.fs == Some(v)))
            && (pc.EndTell? && s.vms[v].parting != Raced ==> NoDispatchOn(s, v)))
  }

  ghost predicate VmOk(s: State, v: Vid)
  {
    v in s.vms ==>
      var vm := s.vms[v];
      && Sound(vm)
      && (vm.mutex.None? ==> Rest(vm))
      && (vm.mutex.Some? ==>
            var u := vm.mutex.value; u in s.pcs && s.pcs[u].On() == Some(v) && Busy(vm, s.pcs[u], u))
      && (vm.owner.Thread? ==>
            var u := vm.owner.t; u in s.pcs && s.pcs[u].Owns() && s.pcs[u].On() == Some(v))
      && (vm.owner == Published ==> s.fs == Some(v))
  }

  /** The close has come and got past its test of FsContext. */
  ghost predicate Closed(s: State)
  {
    s.closer.Some? && s.closer.value in s.pcs && !s.pcs[s.closer.value].CloseCheck?
  }

  ghost predicate HandleOk(s: State)
  {
    && (s.fs.Some? ==> s.fs.value in s.vms && (!Closed(s) ==> s.vms[s.fs.value].owner == Published))
    && (s.closer.Some? ==> s.closer.value in s.pcs && Quiet(s, s.closer.value))
    && (Closed(s) ==> forall v :: v in s.vms ==> s.vms[v].owner != Published)
  }

  ghost predicate Inv(s: State)
  {
    && (forall t :: ThreadOk(s, t))
    && (forall v :: VmOk(s, v))
    && HandleOk(s)
  }
}
