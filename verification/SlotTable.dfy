/** The table of native-to-AMX callback slots: claimed by compare-exchange, its second field
    written later, read by dispatch. Every step below is one memory access or one mutex
    operation of one activity; any number of activities, VMs and slots interleave. A native
    that re-enters the driver while a call is under way is a second activity. */
module SlotTable {
  import opened Machine

  type Vm = nat
  type Act = nat
  type Cell = nat

  datatype Slot = Slot(ctx: Option<Vm>, cip: Cell)

  /** What an activity is about to do. */
  datatype Pc =
    | Outside                               // not in the driver
    | Running(vm: Vm)                       // in amx.call, under the VM's mutex
    | AllocTest(vm: Vm, cip: Cell, i: nat)  // compare slot i's ctx with null
    | AllocCas(vm: Vm, cip: Cell, i: nat)   // compare-exchange slot i's ctx
    | AllocStore(vm: Vm, cip: Cell, i: nat) // store slot i's cip
    | FreeTest(vm: Vm, i: nat)              // compare slot i's ctx with the caller
    | FreeCip(vm: Vm, i: nat)               // clear slot i's cip
    | FreeCtx(vm: Vm, i: nat)               // clear slot i's ctx
    | DispatchRead(i: nat)                  // read slot i's ctx
    | DispatchLock(i: nat, vm: Vm)          // acquire the mutex of the VM just read
    | DispatchCip(i: nat, vm: Vm, owned: bool) // read slot i's cip; owned: it was vm's at the acquire
  {
    /** The VM whose mutex is held here. */
    function Holding(): Option<Vm>
    {
      match this
      case Outside => None
      case DispatchRead(_) => None
      case DispatchLock(_, _) => None
      case _ => Some(vm)
    }
  }

  /** A completed allocation and the function pointer it returned. */
  datatype Alloc = Alloc(vm: Vm, slot: nat, cip: Cell, pfn: Cell)

  datatype State = State(
    fns: seq<Cell>,           // the function pointer of each slot
    slots: seq<Slot>,
    mutex: map<Vm, Act>,
    pcs: map<Act, Pc>,        // activities not listed are outside
    log: seq<Alloc>,          // history: completed allocations, in order
    freed: set<nat>,          // history: positions in the log that have been freed
    halted: bool)             // __fastfail was reached
  {
    function Pc(a: Act): Pc { if a in pcs then pcs[a] else Outside }
  }

  datatype Step =
    | Enter(a: Act, vm: Vm)
    | Leave(a: Act)
    | StartAlloc(a: Act, cip: Cell)
    | StartFree(a: Act, pfn: Cell)
    | StartDispatch(a: Act, i: nat)
    | Go(a: Act)              // whatever the activity is about to do

  ghost predicate Init(s: State)
  {
    && |s.fns| == |s.slots| && (forall i, j :: 0 <= i < j < |s.fns| ==> s.fns[i] != s.fns[j])
    && (forall i :: 0 <= i < |s.slots| ==> s.slots[i] == Slot(None, 0))
    && s.mutex == map[] && s.pcs == map[] && s.log == [] && s.freed == {} && !s.halted
  }

  /** Index of a function pointer; |fns| when it is none of the table's. */
  function IndexOf(fns: seq<Cell>, pfn: Cell): (i: nat)
    ensures i <= |fns|
    ensures i < |fns| ==> fns[i] == pfn
    ensures forall j :: 0 <= j < i ==> fns[j] != pfn
  {
    if fns == [] then 0 else if fns[0] == pfn then 0 else 1 + IndexOf(fns[1..], pfn)
  }

  ghost predicate Enabled(s: State, l: Step)
  {
    && !s.halted
    && match l
       case Enter(a, vm) => s.Pc(a).Outside? && vm !in s.mutex
       case Leave(a) => s.Pc(a).Running?
       case StartAlloc(a, _) => s.Pc(a).Running?
       case StartFree(a, _) => s.Pc(a).Running?
       case StartDispatch(a, i) => s.Pc(a).Outside? && i < |s.slots|
       case Go(a) =>
         match s.Pc(a)
         case Outside => false
         case Running(_) => false
         case AllocTest(_, _, _) => true
         case DispatchLock(_, vm) => vm !in s.mutex
         case _ => s.Pc(a).i < |s.slots|
  }

  ghost function At(s: State, a: Act, pc: Pc): State
  {
    s.(pcs := s.pcs[a := pc])
  }

  /** Allocations of the slot end when it is freed. */
  ghost function FreedAt(log: seq<Alloc>, i: nat): set<nat>
  {
    set j: nat | j < |log| && log[j].slot == i
  }

  ghost function GoStep(s: State, a: Act): State
    requires Enabled(s, Go(a))
  {
    match s.Pc(a)
    case AllocTest(vm, cip, i) =>
      if i >= |s.slots| then At(s, a, Running(vm))  // returns 0
      else if s.slots[i].ctx.None? then At(s, a, AllocCas(vm, cip, i))
      else At(s, a, AllocTest(vm, cip, i + 1))
    case AllocCas(vm, cip, i) =>
      if s.slots[i].ctx.None? then
        At(s, a, AllocStore(vm, cip, i)).(slots := s.slots[i := s.slots[i].(ctx := Some(vm))])
      else At(s, a, AllocTest(vm, cip, i + 1))
    case AllocStore(vm, cip, i) =>
      At(s, a, Running(vm)).(
        slots := s.slots[i := s.slots[i].(cip := cip)],
        log := s.log + [Alloc(vm, i, cip, if i < |s.fns| then s.fns[i] else 0)])
    case FreeTest(vm, i) =>
      if s.slots[i].ctx != Some(vm) then s.(halted := true) else At(s, a, FreeCip(vm, i))
    case FreeCip(vm, i) =>
      At(s, a, FreeCtx(vm, i)).(
        slots := s.slots[i := s.slots[i].(cip := 0)], freed := s.freed + FreedAt(s.log, i))
    case FreeCtx(vm, i) =>
      At(s, a, Running(vm)).(slots := s.slots[i := s.slots[i].(ctx := None)])
    case DispatchRead(i) =>
      if s.slots[i].ctx.None? then s.(halted := true) else At(s, a, DispatchLock(i, s.slots[i].ctx.value))
    case DispatchLock(i, vm) =>
      At(s, a, DispatchCip(i, vm, i < |s.slots| && s.slots[i].ctx == Some(vm))).(mutex := s.mutex[vm := a])
    case DispatchCip(i, vm, _) =>
      if s.slots[i].cip == 0 then s.(halted := true) else At(s, a, Running(vm))
  }

  ghost function Next(s: State, l: Step): State
    requires Enabled(s, l)
  {
    match l
    case Enter(a, vm) => At(s, a, Running(vm)).(mutex := s.mutex[vm := a])
    case Leave(a) => At(s, a, Outside).(mutex := s.mutex - {s.Pc(a).vm})
    case StartAlloc(a, cip) => At(s, a, AllocTest(s.Pc(a).vm, cip, 0))
    case StartFree(a, pfn) =>
      var i := IndexOf(s.fns, pfn);
      if i >= |s.fns| then s.(halted := true) else At(s, a, FreeTest(s.Pc(a).vm, i))
    case StartDispatch(a, i) => At(s, a, DispatchRead(i))
    case Go(a) => GoStep(s, a)
  }

  ghost predicate IsRun(run: seq<State>, steps: seq<Step>)
  {
    && |run| == |steps| + 1 && Init(run[0])
    && forall i :: 0 <= i < |steps| ==> Enabled(run[i], steps[i]) && run[i + 1] == Next(run[i], steps[i])
  }

  /** The allocation has not been freed. */
  ghost predicate Live(s: State, j: nat)
  {
    j < |s.log| && j !in s.freed
  }

  // ---- The invariant ----

  /** The activity holds the mutex its place in the code says, and its slot is in the state that
      place implies. */
  ghost predicate ActOk(s: State, a: Act)
  {
    var pc := s.Pc(a);
    && (pc.Holding().Some? ==> pc.vm in s.mutex && s.mutex[pc.vm] == a)
    && match pc
       case AllocStore(vm, _, i) => i < |s.slots| && s.slots[i] == Slot(Some(vm), 0) && Unowned(s, i)
       case FreeTest(_, i) => i < |s.slots|
       case FreeCip(vm, i) => i < |s.slots| && s.slots[i].ctx == Some(vm)
       case FreeCtx(vm, i) => i < |s.slots| && s.slots[i] == Slot(Some(vm), 0) && Unowned(s, i)
       case DispatchRead(i) => i < |s.slots|
       case DispatchLock(i, _) => i < |s.slots|
       case DispatchCip(i, vm, owned) => i < |s.slots| && (owned <==> s.slots[i].ctx == Some(vm))
       case AllocCas(_, _, i) => i < |s.slots|
       case _ => true
  }

  /** No live allocation has the slot. */
  ghost predicate Unowned(s: State, i: nat)
  {
    forall j: nat :: Live(s, j) ==> s.log[j].slot != i
  }

  /** The holder of the VM's mutex is between the two stores of an alloc or a free of slot i. */
  ghost predicate InWindow(s: State, vm: Vm, i: nat)
  {
    && vm in s.mutex
    && var pc := s.Pc(s.mutex[vm]);
    && (pc.AllocStore? || pc.FreeCtx?) && pc.vm == vm && pc.i == i
  }

  ghost predicate SlotOk(s: State, i: nat)
  {
    i < |s.slots| ==>
      && (s.slots[i].ctx.None? ==> s.slots[i].cip == 0 && Unowned(s, i))
      && (s.slots[i].ctx.Some? && Unowned(s, i) ==> InWindow(s, s.slots[i].ctx.value, i))
  }

  /** A live allocation is what its slot says, and no later one has the same slot. */
  ghost predicate AllocOk(s: State, j: nat)
  {
    Live(s, j) ==>
      var a := s.log[j];
      && a.slot < |s.slots| && s.slots[a.slot] == Slot(Some(a.vm), a.cip) && a.slot < |s.fns| && a.pfn == s.fns[a.slot]
      && forall k :: j < k < |s.log| ==> s.log[k].slot != a.slot
  }

  ghost predicate Fixed(s: State)
  {
    && |s.fns| == |s.slots| && (forall i, j :: 0 <= i < j < |s.fns| ==> s.fns[i] != s.fns[j])
    && (forall j :: j in s.freed ==> j < |s.log|)
  }

  /** A held mutex is held by an activity that is inside that VM. */
  ghost predicate MutexOk(s: State, vm: Vm)
  {
    vm in s.mutex ==> s.Pc(s.mutex[vm]).Holding() == Some(vm)
  }

  ghost predicate Inv(s: State)
  {
    && Fixed(s)
    && (forall a :: ActOk(s, a))
    && (forall vm :: MutexOk(s, vm))
    && (forall i: nat :: SlotOk(s, i))
    && (forall j: nat :: AllocOk(s, j))
  }

  // ---- Every step keeps it ----

  ghost predicate Window(pc: Pc) { pc.AllocStore? || pc.FreeCtx? }

  /** Steps that only move an activity along, without leaving the window between two stores. */
  lemma MoveKeepsInv(s: State, a: Act, pc: Pc)
    requires Inv(s) && pc.Holding() == s.Pc(a).Holding() && !Window(s.Pc(a))
    requires ActOk(At(s, a, pc), a)
    ensures Inv(At(s, a, pc))
  {
    var s' := At(s, a, pc);
    forall b ensures ActOk(s', b) { assert ActOk(s, b); SameUnowned(s, s'); }
    forall vm ensures MutexOk(s', vm) { assert MutexOk(s, vm); }
    forall i: nat ensures SlotOk(s', i) { assert SlotOk(s, i); SameUnowned(s, s'); }
    forall j: nat ensures AllocOk(s', j) { assert AllocOk(s, j); }
  }

  lemma SameUnowned(s: State, s': State)
    requires s'.log == s.log && s'.freed == s.freed
    ensures forall i: nat :: Unowned(s', i) <==> Unowned(s, i)
    ensures forall j: nat :: Live(s', j) <==> Live(s, j)
  {
    forall i: nat ensures Unowned(s', i) <==> Unowned(s, i) {
      assert forall j: nat :: Live(s', j) <==> Live(s, j);
    }
  }

  /** Two activities never hold the same mutex. */
  lemma MutualExclusion(s: State, a: Act, b: Act)
    requires ActOk(s, a) && ActOk(s, b)
    requires s.Pc(a).Holding().Some? && s.Pc(a).Holding() == s.Pc(b).Holding()
    ensures a == b
  {
  }

  lemma EnterKeepsInv(s: State, a: Act, vm: Vm)
    requires Inv(s) && Enabled(s, Enter(a, vm))
    ensures Inv(Next(s, Enter(a, vm)))
  {
    var s' := Next(s, Enter(a, vm));
    SameUnowned(s, s');
    forall b ensures ActOk(s', b) { assert ActOk(s, b); }
    forall v ensures MutexOk(s', v) { assert MutexOk(s, v); }
    forall i: nat ensures SlotOk(s', i) { assert SlotOk(s, i); }
    forall j: nat ensures AllocOk(s', j) { assert AllocOk(s, j); }
  }

  lemma LeaveKeepsInv(s: State, a: Act)
    requires Inv(s) && Enabled(s, Leave(a))
    ensures Inv(Next(s, Leave(a)))
  {
    var s' := Next(s, Leave(a));
    SameUnowned(s, s');
    assert ActOk(s, a);
    forall b ensures ActOk(s', b) { assert ActOk(s, b); }
    forall v ensures MutexOk(s', v) { assert MutexOk(s, v); }
    forall i: nat ensures SlotOk(s', i) { assert SlotOk(s, i); }
    forall j: nat ensures AllocOk(s', j) { assert AllocOk(s, j); }
  }

  lemma LockKeepsInv(s: State, a: Act)
    requires Inv(s) && Enabled(s, Go(a)) && s.Pc(a).DispatchLock?
    ensures Inv(GoStep(s, a))
  {
    var s' := GoStep(s, a);
    SameUnowned(s, s');
    assert ActOk(s, a);
    forall b ensures ActOk(s', b) { assert ActOk(s, b); }
    forall v ensures MutexOk(s', v) { assert MutexOk(s, v); }
    forall i: nat ensures SlotOk(s', i) { assert SlotOk(s, i); }
    forall j: nat ensures AllocOk(s', j) { assert AllocOk(s, j); }
  }

  /** The compare-exchange succeeds. */
  lemma ClaimKeepsInv(s: State, a: Act)
    requires Inv(s) && Enabled(s, Go(a)) && s.Pc(a).AllocCas? && s.slots[s.Pc(a).i].ctx.None?
    ensures Inv(GoStep(s, a))
  {
    var s', i, vm := GoStep(s, a), s.Pc(a).i, s.Pc(a).vm;
    SameUnowned(s, s');
    assert ActOk(s, a) && SlotOk(s, i);
    forall b ensures ActOk(s', b) {
      assert ActOk(s, b);
      if b != a && s.Pc(b).Holding() == Some(vm) { MutualExclusion(s, a, b); }
    }
    forall v ensures MutexOk(s', v) { assert MutexOk(s, v); }
    forall k: nat ensures SlotOk(s', k) { assert SlotOk(s, k); }
    forall j: nat ensures AllocOk(s', j) { assert AllocOk(s, j); }
  }

  /** The store of cip completes the allocation. */
  lemma StoreKeepsInv(s: State, a: Act)
    requires Inv(s) && Enabled(s, Go(a)) && s.Pc(a).AllocStore?
    ensures Inv(GoStep(s, a))
  {
    var s', i, vm := GoStep(s, a), s.Pc(a).i, s.Pc(a).vm;
    var n := |s.log|;
    assert ActOk(s, a);
    assert Live(s', n) && s'.log[n].slot == i;
    assert forall j: nat :: j < n ==> (Live(s', j) <==> Live(s, j)) && s'.log[j] == s.log[j];
    forall k: nat | k != i ensures Unowned(s', k) <==> Unowned(s, k) {
      if Unowned(s, k) {
        forall j: nat | Live(s', j) ensures s'.log[j].slot != k {
          if j < n { assert Live(s, j); }
        }
      } else {
        var j: nat :| Live(s, j) && s.log[j].slot == k;
        assert Live(s', j);
      }
    }
    assert !Unowned(s', i);
    forall b ensures ActOk(s', b) {
      assert ActOk(s, b);
      if b != a && s.Pc(b).Holding() == Some(vm) { MutualExclusion(s, a, b); }
    }
    forall v ensures MutexOk(s', v) { assert MutexOk(s, v); }
    forall k: nat ensures SlotOk(s', k) { assert SlotOk(s, k); }
    forall j: nat ensures AllocOk(s', j) {
      if j < n { assert AllocOk(s, j); }
    }
  }

  /** The free clears cip, which ends the slot's allocation. */
  lemma ClearCipKeepsInv(s: State, a: Act)
    requires Inv(s) && Enabled(s, Go(a)) && s.Pc(a).FreeCip?
    ensures Inv(GoStep(s, a))
  {
    var s', i, vm := GoStep(s, a), s.Pc(a).i, s.Pc(a).vm;
    assert ActOk(s, a);
    assert forall j: nat :: Live(s', j) <==> Live(s, j) && s.log[j].slot != i;
    assert Unowned(s', i);
    forall k: nat | k != i ensures Unowned(s', k) <==> Unowned(s, k) {
      if !Unowned(s, k) {
        var j: nat :| Live(s, j) && s.log[j].slot == k;
        assert Live(s', j);
      }
    }
    forall b ensures ActOk(s', b) {
      assert ActOk(s, b);
      if b != a && s.Pc(b).Holding() == Some(vm) { MutualExclusion(s, a, b); }
    }
    forall v ensures MutexOk(s', v) { assert MutexOk(s, v); }
    forall k: nat ensures SlotOk(s', k) { assert SlotOk(s, k); }
    forall j: nat ensures AllocOk(s', j) { assert AllocOk(s, j); }
  }

  /** The free clears ctx. */
  lemma ClearCtxKeepsInv(s: State, a: Act)
    requires Inv(s) && Enabled(s, Go(a)) && s.Pc(a).FreeCtx?
    ensures Inv(GoStep(s, a))
  {
    var s', i, vm := GoStep(s, a), s.Pc(a).i, s.Pc(a).vm;
    SameUnowned(s, s');
    assert ActOk(s, a);
    forall b ensures ActOk(s', b) {
      assert ActOk(s, b);
      if b != a && s.Pc(b).Holding() == Some(vm) { MutualExclusion(s, a, b); }
    }
    forall v ensures MutexOk(s', v) { assert MutexOk(s, v); }
    forall k: nat ensures SlotOk(s', k) { assert SlotOk(s, k); }
    forall j: nat ensures AllocOk(s', j) { assert AllocOk(s, j); }
  }

  lemma HaltKeepsInv(s: State)
    requires Inv(s)
    ensures Inv(s.(halted := true))
  {
    var s' := s.(halted := true);
    SameUnowned(s, s');
    forall b ensures ActOk(s', b) { assert ActOk(s, b); }
    forall v ensures MutexOk(s', v) { assert MutexOk(s, v); }
    forall k: nat ensures SlotOk(s', k) { assert SlotOk(s, k); }
    forall j: nat ensures AllocOk(s', j) { assert AllocOk(s, j); }
  }

  lemma GoKeepsInv(s: State, a: Act)
    requires Inv(s) && Enabled(s, Go(a))
    ensures Inv(GoStep(s, a))
  {
    assert ActOk(s, a);
    hide Inv;
    match s.Pc(a) {
      case AllocTest(vm, cip, i) =>
        MoveKeepsInv(s, a, if i >= |s.slots| then Running(vm) else if s.slots[i].ctx.None? then AllocCas(vm, cip, i)
                           else AllocTest(vm, cip, i + 1));
      case AllocCas(vm, cip, i) =>
        if s.slots[i].ctx.None? { ClaimKeepsInv(s, a); } else { MoveKeepsInv(s, a, AllocTest(vm, cip, i + 1)); }
      case AllocStore(_, _, _) => StoreKeepsInv(s, a);
      case FreeTest(vm, i) =>
        if s.slots[i].ctx != Some(vm) { HaltKeepsInv(s); } else { MoveKeepsInv(s, a, FreeCip(vm, i)); }
      case FreeCip(_, _) => ClearCipKeepsInv(s, a);
      case FreeCtx(_, _) => ClearCtxKeepsInv(s, a);
      case DispatchRead(i) =>
        if s.slots[i].ctx.None? { HaltKeepsInv(s); } else { MoveKeepsInv(s, a, DispatchLock(i, s.slots[i].ctx.value)); }
      case DispatchLock(_, _) => LockKeepsInv(s, a);
      case DispatchCip(i, vm, _) =>
        if s.slots[i].cip == 0 { HaltKeepsInv(s); } else { MoveKeepsInv(s, a, Running(vm)); }
    }
  }

  lemma StepKeepsInv(s: State, l: Step)
    requires Inv(s) && Enabled(s, l)
    ensures Inv(Next(s, l))
  {
    match l {
      case Enter(a, vm) => EnterKeepsInv(s, a, vm);
      case Leave(a) => LeaveKeepsInv(s, a);
      case StartAlloc(a, cip) =>
        assert ActOk(s, a);
        MoveKeepsInv(s, a, AllocTest(s.Pc(a).vm, cip, 0));
      case StartFree(a, pfn) =>
        assert ActOk(s, a);
        var i := IndexOf(s.fns, pfn);
        if i >= |s.fns| { HaltKeepsInv(s); } else { MoveKeepsInv(s, a, FreeTest(s.Pc(a).vm, i)); }
      case StartDispatch(a, i) => MoveKeepsInv(s, a, DispatchRead(i));
      case Go(a) => GoKeepsInv(s, a);
    }
  }

  lemma InitInv(s: State)
    requires Init(s)
    ensures Inv(s)
  {
  }

  lemma {:induction false} RunKeepsInv(run: seq<State>, steps: seq<Step>, k: nat)
    requires IsRun(run, steps) && k < |run|
    ensures Inv(run[k])
  {
    if k == 0 {
      InitInv(run[0]);
    } else {
      RunKeepsInv(run, steps, k - 1);
      StepKeepsInv(run[k - 1], steps[k - 1]);
    }
  }

  // ---- What it means, over every run ----

  /** A slot without an owner has no entry point. */
  lemma NullOwnerMeansNoEntry(run: seq<State>, steps: seq<Step>, k: nat, i: nat)
    requires IsRun(run, steps) && k < |run| && i < |run[k].slots| && run[k].slots[i].ctx.None?
    ensures run[k].slots[i].cip == 0
  {
    RunKeepsInv(run, steps, k);
    assert SlotOk(run[k], i);
  }

  /** Live allocations never share a function pointer, nor a slot. */
  lemma LivePointersDistinct(run: seq<State>, steps: seq<Step>, k: nat, x: nat, y: nat)
    requires IsRun(run, steps) && k < |run| && x < y && Live(run[k], x) && Live(run[k], y)
    ensures run[k].log[x].slot != run[k].log[y].slot && run[k].log[x].pfn != run[k].log[y].pfn
  {
    RunKeepsInv(run, steps, k);
    assert AllocOk(run[k], x) && AllocOk(run[k], y);
  }

  /** A live allocation is intact: its slot still holds its VM and its entry point. */
  lemma LiveIntact(run: seq<State>, steps: seq<Step>, k: nat, x: nat)
    requires IsRun(run, steps) && k < |run| && Live(run[k], x)
    ensures var a := run[k].log[x]; a.slot < |run[k].slots| && run[k].slots[a.slot] == Slot(Some(a.vm), a.cip)
  {
    RunKeepsInv(run, steps, k);
    assert AllocOk(run[k], x);
  }

  /** A slot owned by a VM changes owner only by becoming free, in the last store of a free
      issued by an activity of that same VM; and its entry point changes only in the stores of
      that VM's own alloc or free. So a free never clears another VM's slot. */
  lemma SlotLeavesOnlyByOwnFree(run: seq<State>, steps: seq<Step>, k: nat, i: nat)
    requires IsRun(run, steps) && k < |steps| && i < |run[k].slots| && run[k].slots[i].ctx.Some?
    ensures i < |run[k + 1].slots|
    ensures run[k + 1].slots[i].ctx != run[k].slots[i].ctx ==>
      && run[k + 1].slots[i].ctx.None?
      && steps[k].Go? && run[k].Pc(steps[k].a) == FreeCtx(run[k].slots[i].ctx.value, i)
    ensures run[k + 1].slots[i].cip != run[k].slots[i].cip ==>
      && steps[k].Go? && var pc := run[k].Pc(steps[k].a);
      && (pc.AllocStore? || pc.FreeCip?) && pc.i == i && Some(pc.vm) == run[k].slots[i].ctx
  {
    RunKeepsInv(run, steps, k);
    assert run[k + 1] == Next(run[k], steps[k]);
    if steps[k].Go? {
      assert ActOk(run[k], steps[k].a);
    }
  }

  /** Dispatch. When it reads cip it holds the mutex of the VM it read; it reads the entry point
      of that VM's most recent completed allocation of the slot, which is still live, if and only
      if the slot was the VM's when the mutex was acquired. */
  lemma DispatchReadsLatestIff(run: seq<State>, steps: seq<Step>, k: nat, a: Act)
    requires IsRun(run, steps) && k < |run| && run[k].Pc(a).DispatchCip?
    ensures var s, pc := run[k], run[k].Pc(a);
      && pc.i < |s.slots|
      && (pc.owned <==> exists j: nat :: LatestOf(s, pc.vm, pc.i, j) && s.slots[pc.i].cip == s.log[j].cip)
  {
    RunKeepsInv(run, steps, k);
    var s, pc := run[k], run[k].Pc(a);
    assert ActOk(s, a) && SlotOk(s, pc.i);
    if pc.owned {
      assert !InWindow(s, pc.vm, pc.i);
      var j: nat :| Live(s, j) && s.log[j].slot == pc.i;
      assert AllocOk(s, j);
      assert LatestOf(s, pc.vm, pc.i, j);
    } else {
      forall j: nat ensures !LatestOf(s, pc.vm, pc.i, j) {
        assert AllocOk(s, j);
      }
    }
  }

  /** Allocation j is live, is of that slot by that VM, and none of that slot came later. */
  ghost predicate LatestOf(s: State, vm: Vm, i: nat, j: nat)
  {
    Live(s, j) && s.log[j].vm == vm && s.log[j].slot == i && forall m :: j < m < |s.log| ==> s.log[m].slot != i
  }

  /** Allocation j is live, is of that slot, and has an entry point. */
  ghost predicate Filled(s: State, i: nat, j: nat)
  {
    Live(s, j) && s.log[j].slot == i && s.log[j].cip != 0
  }

  /** When dispatch goes on. It survives its read of cip if and only if some live allocation has
      filled the slot, whose entry point it then runs; the allocation is by the VM it read if and
      only if the slot was still that VM's at the acquire. So once that VM has given the slot back,
      dispatch runs the entry of another VM that has filled the slot again, or the machine stops. */
  lemma DispatchGoesOnIff(run: seq<State>, steps: seq<Step>, k: nat, a: Act)
    requires IsRun(run, steps) && k < |run| && run[k].Pc(a).DispatchCip? && !run[k].halted
    ensures Enabled(run[k], Go(a))
    ensures var s, pc := run[k], run[k].Pc(a);
      && pc.i < |s.slots|
      && (!Next(s, Go(a)).halted <==> exists j: nat :: Filled(s, pc.i, j))
      && forall j: nat :: Filled(s, pc.i, j) ==>
           s.slots[pc.i] == Slot(Some(s.log[j].vm), s.log[j].cip) && (pc.owned <==> s.log[j].vm == pc.vm)
  {
    RunKeepsInv(run, steps, k);
    var s, pc := run[k], run[k].Pc(a);
    assert ActOk(s, a) && SlotOk(s, pc.i);
    hide IsRun;
    forall j: nat | Filled(s, pc.i, j) ensures s.slots[pc.i] == Slot(Some(s.log[j].vm), s.log[j].cip) {
      assert AllocOk(s, j);
    }
    if s.slots[pc.i].cip != 0 {
      FilledSlot(s, pc.i);
    }
  }

  /** Between the two stores of an alloc or a free the slot has no entry point. */
  lemma WindowHasNoEntry(s: State, i: nat)
    requires Inv(s) && i < |s.slots|
    ensures forall vm: Vm :: InWindow(s, vm, i) ==> s.slots[i].cip == 0
  {
    forall vm: Vm | InWindow(s, vm, i) ensures s.slots[i].cip == 0 {
      assert ActOk(s, s.mutex[vm]);
    }
  }

  lemma FilledSlot(s: State, i: nat)
    requires Inv(s) && i < |s.slots| && s.slots[i].cip != 0
    ensures exists j: nat :: Filled(s, i, j)
  {
    assert SlotOk(s, i);
    WindowHasNoEntry(s, i);
    if !Unowned(s, i) {
      var j: nat :| Live(s, j) && s.log[j].slot == i;
      assert AllocOk(s, j);
      assert Filled(s, i, j);
    }
  }

  // ---- Why ownership at the acquire matters ----

  lemma Extend(run: seq<State>, steps: seq<Step>, l: Step) returns (run': seq<State>, steps': seq<Step>)
    requires IsRun(run, steps) && Enabled(run[|run| - 1], l)
    ensures IsRun(run', steps') && |run'| == |run| + 1 && run'[|run|] == Next(run[|run| - 1], l)
  {
    run', steps' := run + [Next(run[|run| - 1], l)], steps + [l];
  }

  /** A table of one slot, before anything has happened. */
  lemma EmptyRun() returns (run: seq<State>, steps: seq<Step>)
    ensures IsRun(run, steps) && run == [State([100], [Slot(None, 0)], map[], map[], [], {}, false)]
  {
    run, steps := [State([100], [Slot(None, 0)], map[], map[], [], {}, false)], [];
  }

  /** Activity a of a VM claims slot 0 of a one-slot table and returns to the VM's code. */
  lemma ClaimSlot(run: seq<State>, steps: seq<Step>, a: Act, vm: Vm, cip: Cell)
    returns (run': seq<State>, steps': seq<Step>)
    requires IsRun(run, steps)
    requires var s := run[|run| - 1];
      !s.halted && |s.slots| == 1 && s.slots[0] == Slot(None, 0) && s.Pc(a) == Running(vm)
    ensures IsRun(run', steps') && |run'| > 0
    ensures var s, s' := run[|run| - 1], run'[|run'| - 1];
      s' == s.(pcs := s'.pcs, slots := [Slot(Some(vm), cip)], log := s'.log) && s'.Pc(a) == Running(vm)
      && forall b :: b != a ==> s'.Pc(b) == s.Pc(b)
  {
    run', steps' := Extend(run, steps, StartAlloc(a, cip));
    run', steps' := Extend(run', steps', Go(a));
    run', steps' := Extend(run', steps', Go(a));
    run', steps' := Extend(run', steps', Go(a));
  }

  /** Activity a frees slot 0 and leaves the VM. */
  lemma ReleaseSlot(run: seq<State>, steps: seq<Step>, a: Act, vm: Vm, pfn: Cell)
    returns (run': seq<State>, steps': seq<Step>)
    requires IsRun(run, steps)
    requires var s := run[|run| - 1];
      && !s.halted && |s.slots| == 1 && s.slots[0].ctx == Some(vm) && s.Pc(a) == Running(vm)
      && s.fns == [pfn] && vm in s.mutex
    ensures IsRun(run', steps') && |run'| > 0
    ensures var s, s' := run[|run| - 1], run'[|run'| - 1];
      && s' == s.(pcs := s'.pcs, slots := [Slot(None, 0)], freed := s'.freed, mutex := s.mutex - {vm})
      && s'.Pc(a) == Outside && forall b :: b != a ==> s'.Pc(b) == s.Pc(b)
  {
    run', steps' := Extend(run, steps, StartFree(a, pfn));
    run', steps' := Extend(run', steps', Go(a));
    run', steps' := Extend(run', steps', Go(a));
    run', steps' := Extend(run', steps', Go(a));
    run', steps' := Extend(run', steps', Leave(a));
  }

  /** Activity 0 of VM 1 has claimed the slot with entry 7, and activity 2, which dispatches it,
      has read its owner and waits for VM 1's mutex. */
  lemma DispatchHasReadOwner() returns (run: seq<State>, steps: seq<Step>)
    ensures IsRun(run, steps) && |run| > 0
    ensures var s := run[|run| - 1];
      && s.fns == [100] && s.slots == [Slot(Some(1), 7)] && !s.halted && s.mutex == map[1 := 0]
      && s.Pc(0) == Running(1) && s.Pc(1) == Outside && s.Pc(2) == DispatchLock(0, 1)
  {
    hide IsRun;
    run, steps := EmptyRun();
    run, steps := Extend(run, steps, Enter(0, 1));
    run, steps := ClaimSlot(run, steps, 0, 1, 7);
    assert run[|run| - 1].Pc(1) == run[|run| - 1].Pc(2) == Outside;
    run, steps := Extend(run, steps, StartDispatch(2, 0));
    run, steps := Extend(run, steps, Go(2));
  }

  /** If the slot changes hands between dispatch's read of ctx and its acquire of the mutex, the
      cip it then reads under VM 1's mutex is the one VM 2 stored: reading the right entry point
      does not follow from the null tests alone. */
  lemma StaleDispatchReadsForeignEntry() returns (run: seq<State>, steps: seq<Step>)
    ensures IsRun(run, steps) && |run| > 0
    ensures var s := run[|run| - 1];
      s.Pc(2) == DispatchCip(0, 1, false) && |s.slots| == 1 && s.slots[0] == Slot(Some(2), 9) && !s.halted
  {
    hide IsRun;
    run, steps := DispatchHasReadOwner();
    run, steps := ReleaseSlot(run, steps, 0, 1, 100);
    assert run[|run| - 1].Pc(1) == Outside && run[|run| - 1].Pc(2) == DispatchLock(0, 1);
    run, steps := Extend(run, steps, Enter(1, 2));
    run, steps := ClaimSlot(run, steps, 1, 2, 9);
    assert run[|run| - 1].Pc(2) == DispatchLock(0, 1) && 1 !in run[|run| - 1].mutex;
    run, steps := Extend(run, steps, Go(2));
  }
}
