/** The file-handle protocol and the life of the VMs behind it, as atomic steps of any number of
    threads: loads, executes, the one close, and callback dispatches. Allocation results,
    verification, observer verdicts, mapping results and what VM code does are all choices of the
    environment. One handle; the VM a load creates is named after the loading thread. */
module Lifecycle {
  import opened Machine
  import opened VmTrace

  type Vid = Tid

  /** How often a pool block has been allocated and freed. */
  datatype Block = Block(allocs: nat, frees: nat)

  const NEVER: Block := Block(0, 0)
  const LIVE: Block := Block(1, 0)
  const RETURNED: Block := Block(1, 1)

  datatype Buffer = InBuffer(t: Tid) | OutBuffer(t: Tid)

  /** Book-keeping that no step looks at: who is responsible for the VM, how far its life has got,
      and how its destruction began. */
  datatype Owner = Thread(t: Tid) | Published | Nobody

  /** How the VM's destruction began: with nothing of its callbacks left, or in a race with them. */
  datatype Parting = NotYet | Clean | Raced

  datatype Stage = Raw | Wired | Born | Rejected | Alive | Doomed | Ended | NoArena | NoCtx | Dead

  datatype Vm = Vm(
    copy: Block, ctx: Block, arena: Block,
    mutex: Option<Tid>,
    trace: seq<Event>,
    mapped: set<Buffer>,
    slots: nat,                 // callback slots the module holds
    hasMain: bool, hasUnload: bool,
    owner: Owner, stage: Stage, parting: Parting)

  /** What a thread is about to do. ok carries the status so far. */
  datatype Pc =
    // IOCTL_PIO_LOAD_BINARY
    | LoadCheck                       // test FsContext
    | LoadVerify                      // sizes and signature
    | LoadCopy                        // allocate the buffer copy
    | LoadCtx(v: Vid)                 // allocate the context
    | LoadInit(v: Vid)                // loader::init
    | CreateLock(v: Vid)
    | CreateTell(v: Vid)              // broadcast created
    | CreateUnlock(v: Vid, ok: bool)
    | Publish(v: Vid)                 // compare-exchange FsContext
    // IOCTL_PIO_EXECUTE_FN
    | ExecCheck                       // test FsContext
    | ExecRead                        // read FsContext again, for the argument
    | ExecFind(v: Vid)                // validate the request, look the function up
    | MapIn(v: Vid)
    | MapOut(v: Vid)
    | UnmapOut(v: Vid, ok: bool)
    | UnmapIn(v: Vid, ok: bool)
    // a call into a VM, on any path
    | CallLock(v: Vid, path: Path)
    | CallPre(v: Vid, path: Path)     // broadcast precall
    | CallStart(v: Vid, path: Path)
    | CallBody(v: Vid, path: Path)    // VM code runs
    | CallPost(v: Vid, path: Path, ok: bool) // broadcast postcall
    | CallUnlock(v: Vid, path: Path, ok: bool)
    // destruction
    | EndLock(v: Vid, ok: bool)
    | EndTell(v: Vid, ok: bool)       // broadcast destroyed
    | EndUnlock(v: Vid, ok: bool)
    | FreeArena(v: Vid, ok: bool)
    | FreeCtx(v: Vid, ok: bool)
    | FreeCopy(v: Vid, ok: bool)
    // IRP_MJ_CLOSE
    | CloseCheck
    | Done(ok: bool)
  {
    /** The VM this place in the code works on. */
    function On(): Option<Vid>
    {
      if LoadCheck? || LoadVerify? || LoadCopy? || ExecCheck? || ExecRead? || CloseCheck? || Done? then None
      else Some(v)
    }

    /** Places inside the VM's mutex. */
    predicate Critical()
    {
      || CreateTell? || CreateUnlock? || MapIn? || MapOut? || UnmapOut? || UnmapIn?
      || CallPre? || CallStart? || CallBody? || CallPost? || CallUnlock? || EndTell? || EndUnlock?
    }

    predicate InCallPath()
    {
      CallLock? || CallPre? || CallStart? || CallBody? || CallPost? || CallUnlock?
    }

    /** Places where the thread works on a VM it is not responsible for. */
    predicate Guest()
    {
      || ExecFind? || MapIn? || MapOut? || UnmapOut? || UnmapIn?
      || (InCallPath() && (path == Execute || path == Dispatch))
    }

    /** Places where the thread is responsible for the VM. */
    predicate Owns()
    {
      On().Some? && !Guest()
    }
  }

  datatype State = State(
    fs: Option<Vid>,            // FileObject->FsContext
    vms: map<Vid, Vm>,
    pcs: map<Tid, Pc>,
    closer: Option<Tid>,        // the close request, once it has come
    halted: bool)               // __fastfail was reached

  /** The environment's answers at one step. */
  datatype Choice = Choice(ok: bool, more: bool, main: bool, unload: bool, slots: nat)

  datatype Step =
    | StartLoad(t: Tid)
    | StartExec(t: Tid)
    | StartClose(t: Tid)
    | StartDispatch(t: Tid, v: Vid)
    | Go(t: Tid, c: Choice)

  ghost predicate Init(s: State)
  {
    s == State(None, map[], map[], None, false)
  }

  ghost predicate DispatchPc(pc: Pc)
  {
    pc.InCallPath() && pc.path == Dispatch
  }

  ghost predicate NoDispatchOn(s: State, v: Vid)
  {
    forall u :: u in s.pcs && s.pcs[u].On() == Some(v) ==> !DispatchPc(s.pcs[u])
  }

  /** The module holds no callback slot and no callback into it is under way. */
  ghost predicate CallbacksOver(s: State, v: Vid)
  {
    v in s.vms && s.vms[v].slots == 0 && NoDispatchOn(s, v)
  }

  /** Nothing but dispatches is under way besides t. */
  ghost predicate Quiet(s: State, t: Tid)
  {
    forall u :: u in s.pcs && u != t ==> s.pcs[u].Done? || DispatchPc(s.pcs[u])
  }

  ghost predicate Enabled(s: State, l: Step)
  {
    && !s.halted
    && match l
       case StartLoad(t) => t !in s.pcs && t !in s.vms && s.closer.None?
       case StartExec(t) => t !in s.pcs && s.closer.None?
       // the close of a handle comes once, after every other request on it
       case StartClose(t) => t !in s.pcs && s.closer.None? && Quiet(s, t)
       case StartDispatch(t, v) => t !in s.pcs && v in s.vms && s.vms[v].slots > 0
       case Go(t, c) =>
         && t in s.pcs && !s.pcs[t].Done?
         && var pc := s.pcs[t];
         && (pc.On().Some? ==> pc.On().value in s.vms)
         && (pc.CreateLock? || pc.CallLock? || pc.EndLock? ==> s.vms[pc.v].mutex.None?)
  }

  ghost function Tell(vm: Vm, t: Tid, k: Kind): Vm
  {
    vm.(trace := vm.trace + [Event(k, t, vm.mutex == Some(t))])
  }

  ghost function Freed(b: Block): Block
  {
    b.(frees := b.frees + 1)
  }

  ghost function Allocated(b: Block): Block
  {
    b.(allocs := b.allocs + 1)
  }

  ghost function Lock(vm: Vm, t: Tid): Vm { vm.(mutex := Some(t)) }

  ghost function Unlock(vm: Vm): Vm { vm.(mutex := None) }

  /** Where vm_destroy starts. */
  ghost function Destroying(v: Vid, vm: Vm, ok: bool): Pc
  {
    if vm.hasUnload then CallLock(v, Unload) else EndLock(v, ok)
  }

  /** A step of thread t on the VM it works on: the VM afterwards and where the thread is then.
      race says whether callbacks of the VM are left; it is only recorded. */
  ghost function OnVm(t: Tid, pc: Pc, vm: Vm, c: Choice, race: bool): (Vm, Pc)
    requires pc.On().Some? && !pc.Publish?
  {
    match pc
    case LoadCtx(v) =>
      if c.ok then (vm.(ctx := Allocated(vm.ctx), stage := Wired), LoadInit(v))
      else (vm.(stage := NoCtx), FreeCopy(v, false))
    case LoadInit(v) =>
      // init may fail before or after it has allocated the arena
      if c.ok then
        (vm.(arena := Allocated(vm.arena), stage := Born, hasMain := c.main, hasUnload := c.unload), CreateLock(v))
      else (vm.(arena := if c.more then Allocated(vm.arena) else vm.arena, stage := Doomed), FreeArena(v, false))
    case CreateLock(v) => (Lock(vm, t), CreateTell(v))
    case CreateTell(v) =>
      (Tell(vm, t, Created(c.ok)).(stage := if c.ok then Alive else Rejected), CreateUnlock(v, c.ok))
    case CreateUnlock(v, ok) =>
      (Unlock(vm), if !ok then EndLock(v, false) else if vm.hasMain then CallLock(v, Main) else Publish(v))
    case ExecFind(v) => (vm, if c.ok then CallLock(v, Execute) else Done(false))
    case CallLock(v, path) => (Lock(vm, t), if path == Execute then MapIn(v) else CallPre(v, path))
    case MapIn(v) =>
      if c.ok then (vm.(mapped := vm.mapped + {InBuffer(t)}), MapOut(v)) else (vm, CallUnlock(v, Execute, false))
    case MapOut(v) =>
      if c.ok then (vm.(mapped := vm.mapped + {OutBuffer(t)}), CallPre(v, Execute)) else (vm, UnmapIn(v, false))
    case CallPre(v, path) =>
      // dispatch first reads the slot's cip and does not survive a zero
      if path == Dispatch && c.more then (vm, CallUnlock(v, path, false))
      else
        (Tell(vm, t, Precall(c.ok)),
         if c.ok then CallStart(v, path)
         else if path == Execute then UnmapOut(v, false)
         else CallUnlock(v, path, false))
    case CallStart(v, path) => (Tell(vm, t, CallBegin), CallBody(v, path))
    case CallBody(v, path) =>
      // natives called by the module may take and give back callback slots
      if c.more then (vm.(slots := c.slots), pc)
      else (Tell(vm.(slots := c.slots), t, CallEnd(path)),
            if path == Dispatch then CallUnlock(v, path, c.ok) else CallPost(v, path, c.ok))
    case CallPost(v, path, ok) =>
      (Tell(vm, t, Postcall), if path == Execute then UnmapOut(v, ok) else CallUnlock(v, path, ok))
    case UnmapOut(v, ok) => (vm.(mapped := vm.mapped - {OutBuffer(t)}), UnmapIn(v, ok))
    case UnmapIn(v, ok) => (vm.(mapped := vm.mapped - {InBuffer(t)}), CallUnlock(v, Execute, ok))
    case CallUnlock(v, path, ok) =>
      (Unlock(vm),
       match path
       case Main => if ok then Publish(v) else EndLock(v, false)
       case Unload => EndLock(v, t != v) // a load that lost the compare-exchange reports failure
       case _ => Done(ok))
    case EndLock(v, ok) => (Lock(vm, t).(parting := if race then Raced else Clean), EndTell(v, ok))
    case EndTell(v, ok) => (Tell(vm, t, Destroyed).(stage := Ended), EndUnlock(v, ok))
    case EndUnlock(v, ok) => (Unlock(vm), FreeArena(v, ok))
    case FreeArena(v, ok) =>
      // the loader's destructor frees the arena if there is one
      if vm.arena.allocs > 0 then (Tell(vm, t, Free).(arena := Freed(vm.arena), stage := NoArena), FreeCtx(v, ok))
      else (vm.(stage := NoArena), FreeCtx(v, ok))
    case FreeCtx(v, ok) => (Tell(vm, t, Free).(ctx := Freed(vm.ctx), stage := NoCtx), FreeCopy(v, ok))
    case FreeCopy(v, ok) =>
      (Tell(vm, t, Free).(copy := Freed(vm.copy), stage := Dead, owner := Nobody), Done(ok))
  }

  ghost function At(s: State, t: Tid, pc: Pc): State
  {
    s.(pcs := s.pcs[t := pc])
  }

  ghost function GoStep(s: State, t: Tid, c: Choice): State
    requires Enabled(s, Go(t, c))
  {
    var pc := s.pcs[t];
    if pc.Publish? then PublishStep(s, t)
    else if pc.On().Some? then VmStep(s, t, c)
    else HandleStep(s, t, c)
  }

  /** Steps that touch no VM's state but FsContext's. */
  ghost function HandleStep(s: State, t: Tid, c: Choice): State
    requires Enabled(s, Go(t, c)) && s.pcs[t].On().None?
  {
    var pc := s.pcs[t];
    if pc.LoadCheck? then At(s, t, if s.fs.Some? then Done(false) else LoadVerify)
    else if pc.LoadVerify? then At(s, t, if c.ok then LoadCopy else Done(false))
    else if pc.LoadCopy? then
      if !c.ok then At(s, t, Done(false))
      else At(s, t, LoadCtx(t)).(vms := s.vms[t :=
        Vm(LIVE, NEVER, NEVER, None, [], {}, 0, false, false, Thread(t), Raw, NotYet)])
    else if pc.ExecCheck? then At(s, t, if s.fs.None? then Done(false) else ExecRead)
    else if pc.ExecRead? then At(s, t, if s.fs.None? then Done(false) else ExecFind(s.fs.value))
    else if s.fs.None? || s.fs.value !in s.vms then At(s, t, Done(true))
    else
      // CloseCheck with a context
      var v := s.fs.value;
      At(s, t, Destroying(v, s.vms[v], true)).(vms := s.vms[v := s.vms[v].(owner := Thread(t))])
  }

  /** The compare-exchange of FsContext: the winner is published, a loser destroys its own VM. */
  ghost function PublishStep(s: State, t: Tid): State
    requires t in s.pcs && s.pcs[t].Publish? && s.pcs[t].v in s.vms
  {
    var v := s.pcs[t].v;
    if s.fs.None? then At(s, t, Done(true)).(fs := Some(v), vms := s.vms[v := s.vms[v].(owner := Published)])
    else At(s, t, Destroying(v, s.vms[v], false))
  }

  ghost function VmStep(s: State, t: Tid, c: Choice): State
    requires t in s.pcs && s.pcs[t].On().Some? && !s.pcs[t].Publish? && s.pcs[t].On().value in s.vms
  {
    var v := s.pcs[t].On().value;
    var (vm, pc) := OnVm(t, s.pcs[t], s.vms[v], c, !CallbacksOver(s, v));
    // dispatch does not survive a zero cip, a vetoed or a failed call
    At(s, t, pc).(vms := s.vms[v := vm], halted := pc.CallUnlock? && pc.path == Dispatch && !pc.ok)
  }

  ghost function Next(s: State, l: Step): State
    requires Enabled(s, l)
  {
    match l
    case StartLoad(t) => At(s, t, LoadCheck)
    case StartExec(t) => At(s, t, ExecCheck)
    case StartClose(t) => At(s, t, CloseCheck).(closer := Some(t))
    case StartDispatch(t, v) => At(s, t, CallLock(v, Dispatch))
    case Go(t, c) => GoStep(s, t, c)
  }

  ghost predicate IsRun(run: seq<State>, steps: seq<Step>)
  {
    && |run| == |steps| + 1 && Init(run[0])
    && forall i :: 0 <= i < |steps| ==> Enabled(run[i], steps[i]) && run[i + 1] == Next(run[i], steps[i])
  }
}
