/** What callback_alloc and callback_free come to, over the whole of an operation and whatever the
    other activities do meanwhile. */
module SlotOperations {
  import opened Machine
  import opened SlotTable

  predicate Allocating(pc: Pc) { pc.AllocTest? || pc.AllocCas? || pc.AllocStore? }

  predicate Freeing(pc: Pc) { pc.FreeTest? || pc.FreeCip? || pc.FreeCtx? }

  /** Activity a of vm begins an alloc at step i and is back in the VM's code at moment k. */
  ghost predicate AllocSpan(run: seq<State>, steps: seq<Step>, i: nat, k: nat, a: Act, vm: Vm, cip: Cell)
  {
    && IsRun(run, steps) && |run| == |steps| + 1 && i + 1 < k < |run|
    && run[i].Pc(a) == Running(vm) && steps[i] == StartAlloc(a, cip)
    && (forall m :: i < m < k ==> Allocating(run[m].Pc(a)))
    && run[k].Pc(a) == Running(vm)
  }

  /** Slot j was taken at some moment after i and not after k. */
  ghost predicate SeenTaken(run: seq<State>, i: nat, k: nat, j: nat)
  {
    exists m: nat :: i < m <= k && m < |run| && j < |run[m].slots| && run[m].slots[j].ctx.Some?
  }

  lemma TableFixed(s: State, l: Step)
    requires Enabled(s, l)
    ensures |Next(s, l).slots| == |s.slots| && Next(s, l).fns == s.fns
    ensures forall b :: b != l.a ==> Next(s, l).Pc(b) == s.Pc(b)
  {
  }

  lemma {:induction false} TableFixedOver(run: seq<State>, steps: seq<Step>, i: nat, k: nat)
    requires IsRun(run, steps) && i <= k < |run|
    ensures |run[k].slots| == |run[i].slots| && run[k].fns == run[i].fns
    decreases k
  {
    if i < k {
      TableFixedOver(run, steps, i, k - 1);
      hide Next, Enabled;
      TableFixed(run[k - 1], steps[k - 1]);
    }
  }

  lemma StepOf(run: seq<State>, steps: seq<Step>, k: nat)
    requires IsRun(run, steps) && 0 < k < |run|
    ensures |run| == |steps| + 1 && Enabled(run[k - 1], steps[k - 1]) && run[k] == Next(run[k - 1], steps[k - 1])
  {
    hide Enabled, Next;
  }

  /** The scan of vm's alloc of cip is at slot p. */
  predicate ScanAt(pc: Pc, vm: Vm, cip: Cell, p: nat)
  {
    pc == AllocTest(vm, cip, p) || pc == AllocCas(vm, cip, p) || pc == AllocStore(vm, cip, p)
  }

  /** The last step of an alloc: it logs slot p, or it has come to the end of the table. */
  ghost predicate Returns(s: State, l: Step, s': State, a: Act, vm: Vm, cip: Cell, p: nat)
  {
    && l == Go(a) && s'.Pc(a) == Running(vm)
    && if s.Pc(a).AllocStore? then
         && p < |s.slots| && p < |s'.slots| && s'.slots[p] == s.slots[p].(cip := cip)
         && s'.log == s.log + [Alloc(vm, p, cip, if p < |s.fns| then s.fns[p] else 0)]
       else s.Pc(a).AllocTest? && p >= |s.slots| && s'.log == s.log
  }

  /** One step of an alloc: where the scan is then, and what that says of the slot it was on. */
  lemma ScanStep(s: State, l: Step, a: Act, vm: Vm, cip: Cell, p: nat)
    requires Enabled(s, l) && ScanAt(s.Pc(a), vm, cip, p)
    ensures
      || ScanAt(Next(s, l).Pc(a), vm, cip, p)
      || (Next(s, l).Pc(a) == AllocTest(vm, cip, p + 1) && p < |s.slots| && s.slots[p].ctx.Some?)
      || Returns(s, l, Next(s, l), a, vm, cip, p)
  {
  }

  lemma ScanBegins(s: State, a: Act, vm: Vm, cip: Cell)
    requires Enabled(s, StartAlloc(a, cip)) && s.Pc(a) == Running(vm)
    ensures Next(s, StartAlloc(a, cip)).Pc(a) == AllocTest(vm, cip, 0)
  {
  }

  ghost predicate AllSeen(run: seq<State>, i: nat, k: nat, p: nat)
  {
    forall j: nat :: j < p ==> SeenTaken(run, i, k, j)
  }

  lemma SeenMore(run: seq<State>, i: nat, k: nat, p: nat, now: bool)
    requires i < k && k + 1 < |run| && AllSeen(run, i, k, p)
    requires now ==> p < |run[k].slots| && run[k].slots[p].ctx.Some?
    ensures AllSeen(run, i, k + 1, if now then p + 1 else p)
  {
    assert now ==> SeenTaken(run, i, k, p);
    var bound, k' := if now then p + 1 else p, k + 1;
    forall j: nat | j < bound ensures SeenTaken(run, i, k', j) {
      assert SeenTaken(run, i, k, j);
    }
  }

  /** While the scan is at p, every slot before p has been seen taken. */
  lemma {:induction false} ScanSeen(run: seq<State>, steps: seq<Step>, i: nat, m: nat, a: Act, vm: Vm, cip: Cell)
    returns (p: nat)
    requires IsRun(run, steps) && i < m < |run|
    requires run[i].Pc(a) == Running(vm) && i < |steps| && steps[i] == StartAlloc(a, cip)
    requires forall x :: i < x <= m ==> Allocating(run[x].Pc(a))
    ensures ScanAt(run[m].Pc(a), vm, cip, p) && AllSeen(run, i, m, p)
    decreases m
  {
    hide IsRun, Next, Enabled, SeenTaken;
    StepOf(run, steps, m);
    if m == i + 1 {
      ScanBegins(run[i], a, vm, cip);
      p := 0;
    } else {
      var q := ScanSeen(run, steps, i, m - 1, a, vm, cip);
      ScanStep(run[m - 1], steps[m - 1], a, vm, cip, q);
      var now := !ScanAt(run[m].Pc(a), vm, cip, q);
      SeenMore(run, i, m - 1, q, now);
      p := if now then q + 1 else q;
    }
  }

  /** How an alloc ends. It returns 0, logging nothing, only if every slot has been taken at some
      moment since it began; otherwise it logs the allocation of a slot behind slots all of which
      have been taken, with that slot's function pointer. */
  lemma AllocEnds(run: seq<State>, steps: seq<Step>, i: nat, k: nat, a: Act, vm: Vm, cip: Cell)
    requires AllocSpan(run, steps, i, k, a, vm, cip)
    ensures steps[k - 1] == Go(a)
    ensures run[k].log == run[k - 1].log ==> AllSeen(run, i, k, |run[i].slots|)
    ensures run[k].log != run[k - 1].log ==> exists p: nat :: Took(run, i, k, vm, cip, p)
  {
    hide IsRun, Next, Enabled, SeenTaken, AllSeen, Inv;
    var p := ScanSeen(run, steps, i, k - 1, a, vm, cip);
    StepOf(run, steps, k);
    ScanStep(run[k - 1], steps[k - 1], a, vm, cip, p);
    SeenMore(run, i, k - 1, p, false);
    TableFixedOver(run, steps, i, k - 1);
    TableFixedOver(run, steps, i, k);
    RunKeepsInv(run, steps, k - 1);
    StoreFacts(run[k - 1], a);
    if run[k].log == run[k - 1].log {
      FewerSeen(run, i, k, p, |run[i].slots|);
    } else {
      assert Took(run, i, k, vm, cip, p);
    }
  }

  lemma FewerSeen(run: seq<State>, i: nat, k: nat, p: nat, q: nat)
    requires AllSeen(run, i, k, p) && q <= p
    ensures AllSeen(run, i, k, q)
  {
  }

  lemma StoreFacts(s: State, a: Act)
    requires Inv(s)
    ensures |s.fns| == |s.slots|
    ensures s.Pc(a).AllocStore? ==> s.Pc(a).i < |s.slots| && s.slots[s.Pc(a).i] == Slot(Some(s.Pc(a).vm), 0)
  {
    assert ActOk(s, a);
  }

  /** The alloc that ended at k took slot p. */
  ghost predicate Took(run: seq<State>, i: nat, k: nat, vm: Vm, cip: Cell, p: nat)
    requires 0 < k < |run| && i < |run|
  {
    && p < |run[i].slots| == |run[i].fns| == |run[k].slots| && AllSeen(run, i, k, p)
    && run[k].log == run[k - 1].log + [Alloc(vm, p, cip, run[i].fns[p])]
    && run[k].slots[p] == Slot(Some(vm), cip)
  }

  // ---- An alloc that nobody interrupts ----

  /** The least free index; the table's size when every slot is owned. */
  ghost predicate LeastFree(slots: seq<Slot>, n: nat)
  {
    && n <= |slots| && (forall j :: 0 <= j < n ==> slots[j].ctx.Some?)
    && (n < |slots| ==> slots[n].ctx.None?)
  }

  /** What an undisturbed alloc begun in s has done when it is at pc. */
  ghost predicate AloneAt(s: State, s': State, pc: Pc, vm: Vm, cip: Cell)
  {
    && s'.fns == s.fns && s'.log == s.log && !s'.halted
    && match pc
       case AllocTest(v, c, p) => v == vm && c == cip && s'.slots == s.slots && TakenBefore(s.slots, p)
       case AllocCas(v, c, p) =>
         v == vm && c == cip && s'.slots == s.slots && LeastFree(s.slots, p) && p < |s.slots|
       case AllocStore(v, c, p) =>
         && v == vm && c == cip && LeastFree(s.slots, p) && p < |s.slots|
         && s'.slots == s.slots[p := s.slots[p].(ctx := Some(vm))]
       case _ => false
  }

  predicate TakenBefore(slots: seq<Slot>, p: nat)
  {
    p <= |slots| && forall j :: 0 <= j < p ==> slots[j].ctx.Some?
  }

  /** What an undisturbed alloc comes to: it takes the least free slot, or nothing if there is none. */
  ghost predicate AloneDone(s: State, s': State, vm: Vm, cip: Cell, n: nat)
    requires LeastFree(s.slots, n)
  {
    && !s'.halted
    && if n < |s.slots| then
         && s'.slots == s.slots[n := Slot(Some(vm), cip)]
         && n < |s.fns| && s'.log == s.log + [Alloc(vm, n, cip, s.fns[n])]
       else s'.slots == s.slots && s'.log == s.log
  }

  lemma AloneStep(s: State, s': State, a: Act, vm: Vm, cip: Cell, n: nat)
    requires AloneAt(s, s', s'.Pc(a), vm, cip) && LeastFree(s.slots, n) && |s.fns| == |s.slots|
    ensures Enabled(s', Go(a))
    ensures var s'', pc := Next(s', Go(a)), Next(s', Go(a)).Pc(a);
      if pc.Running? then pc.vm == vm && AloneDone(s, s'', vm, cip, n)
      else Allocating(pc) && AloneAt(s, s'', pc, vm, cip) && StepsLeft(|s.slots|, pc) < StepsLeft(|s.slots|, s'.Pc(a))
  {
  }

  /** How many steps of its own an alloc has left, at most. */
  function StepsLeft(size: nat, pc: Pc): nat
  {
    match pc
    case AllocTest(_, _, p) => if p < size then size - p + 3 else 1
    case AllocCas(_, _, _) => 2
    case AllocStore(_, _, _) => 1
    case _ => 0
  }

  /** An alloc that is left alone always comes to its end: the run goes on with steps of a only until
      a is back in the VM's code, and then the least free slot is a's VM's, or, if there was none,
      nothing has changed. */
  lemma {:induction false} AloneGoesOn(run: seq<State>, steps: seq<Step>, s: State, a: Act, vm: Vm, cip: Cell, n: nat)
    returns (run': seq<State>, steps': seq<Step>)
    requires IsRun(run, steps) && LeastFree(s.slots, n) && |s.fns| == |s.slots|
    requires AloneAt(s, run[|run| - 1], run[|run| - 1].Pc(a), vm, cip)
    ensures IsRun(run', steps') && |run| < |run'| && run <= run' && steps <= steps'
    ensures forall m :: |steps| <= m < |steps'| ==> steps'[m] == Go(a)
    ensures forall m :: |run| <= m < |run'| - 1 ==> Allocating(run'[m].Pc(a))
    ensures run'[|run'| - 1].Pc(a) == Running(vm) && AloneDone(s, run'[|run'| - 1], vm, cip, n)
    decreases StepsLeft(|s.slots|, run[|run| - 1].Pc(a))
  {
    var last := run[|run| - 1];
    AloneStep(s, last, a, vm, cip, n);
    hide AloneAt, AloneDone, Next, Enabled, LeastFree, StepsLeft;
    var run1, steps1 := run + [Next(last, Go(a))], steps + [Go(a)];
    if run1[|run|].Pc(a).Running? {
      run', steps' := run1, steps1;
    } else {
      run', steps' := AloneGoesOn(run1, steps1, s, a, vm, cip, n);
    }
  }

  /** Undisturbed, an alloc fails if and only if every slot is owned, and otherwise takes the least
      free one. */
  lemma AllocAlone(run: seq<State>, steps: seq<Step>, a: Act, vm: Vm, cip: Cell, n: nat)
    returns (run': seq<State>, steps': seq<Step>)
    requires IsRun(run, steps) && var s := run[|run| - 1];
      s.Pc(a) == Running(vm) && !s.halted && LeastFree(s.slots, n)
    ensures run <= run' && steps <= steps' && AllocSpan(run', steps', |run| - 1, |run'| - 1, a, vm, cip)
    ensures forall m :: |steps| <= m < |steps'| ==> steps'[m].a == a
    ensures AloneDone(run[|run| - 1], run'[|run'| - 1], vm, cip, n)
  {
    var s := run[|run| - 1];
    RunKeepsInv(run, steps, |run| - 1);
    var l := StartAlloc(a, cip);
    var run1, steps1 := run + [Next(s, l)], steps + [l];
    assert IsRun(run1, steps1) && run1[|run|].Pc(a) == AllocTest(vm, cip, 0);
    hide Inv, Enabled, Next, AloneDone;
    run', steps' := AloneGoesOn(run1, steps1, s, a, vm, cip, n);
    hide IsRun;
    assert run1 <= run' && steps1 <= steps';
    assert run'[|run| - 1] == run1[|run| - 1] == s && steps'[|run| - 1] == steps1[|run| - 1];
    assert run'[|run|] == run1[|run|];
  }

  // ---- Frees ----

  /** The free of a live allocation's function pointer goes to that allocation's slot. */
  lemma FreeFindsSlot(run: seq<State>, steps: seq<Step>, k: nat, j: nat)
    requires IsRun(run, steps) && k < |steps| && Live(run[k], j)
    requires steps[k] == StartFree(steps[k].a, run[k].log[j].pfn)
    ensures !run[k + 1].halted
    ensures run[k + 1].Pc(steps[k].a) == FreeTest(run[k].Pc(steps[k].a).vm, run[k].log[j].slot)
  {
    RunKeepsInv(run, steps, k);
    assert AllocOk(run[k], j);
    assert Enabled(run[k], steps[k]) && run[k + 1] == Next(run[k], steps[k]);
    var fns, n := run[k].fns, IndexOf(run[k].fns, run[k].log[j].pfn);
    assert n == run[k].log[j].slot;
  }

  /** A free by the VM that has the allocation, in each of its places. */
  ghost predicate FreeAt(s: State, a: Act, vm: Vm, j: nat)
  {
    && j < |s.log| && var n := s.log[j].slot;
    && n < |s.slots| && s.log[j].vm == vm
    && match s.Pc(a)
       case FreeTest(v, p) => v == vm && p == n && Live(s, j)
       case FreeCip(v, p) => v == vm && p == n && Live(s, j)
       case FreeCtx(v, p) => v == vm && p == n && j in s.freed
       case Running(v) => v == vm && j in s.freed && s.slots[n] == Slot(None, 0)
       case _ => false
  }

  lemma FreeStep(s: State, l: Step, a: Act, vm: Vm, j: nat)
    requires Inv(s) && Enabled(s, l) && FreeAt(s, a, vm, j) && Freeing(s.Pc(a))
    ensures Next(s, l).halted || FreeAt(Next(s, l), a, vm, j)
    ensures l.a == a ==> !Next(s, l).halted
  {
    assert ActOk(s, a) && AllocOk(s, j);
    assert l.Go? ==> ActOk(s, l.a);
    hide Inv;
  }

  lemma FreeBegins(run: seq<State>, steps: seq<Step>, i: nat, a: Act, vm: Vm, j: nat)
    requires IsRun(run, steps) && i < |steps| && Live(run[i], j) && run[i].log[j].vm == vm
    requires run[i].Pc(a) == Running(vm) && steps[i] == StartFree(a, run[i].log[j].pfn)
    ensures !run[i + 1].halted && FreeAt(run[i + 1], a, vm, j)
  {
    RunKeepsInv(run, steps, i);
    FreeFindsSlot(run, steps, i, j);
    assert AllocOk(run[i], j);
    assert Enabled(run[i], steps[i]) && run[i + 1] == Next(run[i], steps[i]);
    hide IsRun, Inv;
  }

  /** When a free of the VM's own live allocation comes back, the allocation is freed and its slot is
      empty; the free never stops the machine. */
  lemma {:induction false} FreeEnds(run: seq<State>, steps: seq<Step>, i: nat, k: nat, a: Act, vm: Vm, j: nat)
    requires IsRun(run, steps) && i < k < |run| && Live(run[i], j) && run[i].log[j].vm == vm
    requires run[i].Pc(a) == Running(vm) && steps[i] == StartFree(a, run[i].log[j].pfn)
    requires forall m :: i < m < k ==> Freeing(run[m].Pc(a))
    ensures run[k].halted ==> steps[k - 1].a != a
    ensures !run[k].halted ==> FreeAt(run[k], a, vm, j)
    ensures !run[k].halted && run[k].Pc(a).Running? ==>
      !Live(run[k], j) && run[k].slots[run[k].log[j].slot] == Slot(None, 0)
    decreases k
  {
    if k == i + 1 {
      FreeBegins(run, steps, i, a, vm, j);
      hide IsRun;
    } else {
      FreeEnds(run, steps, i, k - 1, a, vm, j);
      RunKeepsInv(run, steps, k - 1);
      assert Enabled(run[k - 1], steps[k - 1]) && run[k] == Next(run[k - 1], steps[k - 1]);
      hide IsRun, Next, Inv;
      FreeStep(run[k - 1], steps[k - 1], a, vm, j);
    }
  }

  // ---- Dispatch ----

  /** The dispatch read slot i at moment m and found vm. */
  ghost predicate ReadOwner(run: seq<State>, steps: seq<Step>, m: nat, a: Act, i: nat, vm: Vm)
  {
    && m < |steps| && m < |run| && steps[m] == Go(a)
    && run[m].Pc(a) == DispatchRead(i) && i < |run[m].slots| && run[m].slots[i].ctx == Some(vm)
  }

  /** The VM whose mutex a dispatch takes is the one that owned the slot when it read the slot. */
  lemma {:induction false} DispatchLocksOwner(run: seq<State>, steps: seq<Step>, k: nat, a: Act) returns (m: nat)
    requires IsRun(run, steps) && k < |run| && (run[k].Pc(a).DispatchLock? || run[k].Pc(a).DispatchCip?)
    ensures m < k && ReadOwner(run, steps, m, a, run[k].Pc(a).i, run[k].Pc(a).vm)
  {
    if k == 0 {
      AtFirst(run, steps, a);
    }
    hide IsRun, Next, Enabled;
    StepOf(run, steps, k);
    DispatchCameFrom(run[k - 1], steps[k - 1], a);
    if run[k - 1].Pc(a).DispatchRead? {
      m := k - 1;
    } else {
      m := DispatchLocksOwner(run, steps, k - 1, a);
    }
  }

  /** Activity a was invoked at slot i's function at step m, and has started nothing since. */
  ghost predicate InvokedAt(steps: seq<Step>, m: nat, k: nat, a: Act, i: nat)
  {
    && m < k <= |steps| && steps[m] == StartDispatch(a, i)
    && forall x :: m < x < k && steps[x].a == a ==> steps[x].Go?
  }

  predicate Dispatching(pc: Pc) { pc.DispatchRead? || pc.DispatchLock? || pc.DispatchCip? }

  /** A dispatch works on the slot whose function was invoked. */
  lemma {:induction false} DispatchOfInvoked(run: seq<State>, steps: seq<Step>, k: nat, a: Act) returns (m: nat)
    requires IsRun(run, steps) && |run| == |steps| + 1 && k < |run| && Dispatching(run[k].Pc(a)) && !run[k].halted
    ensures InvokedAt(steps, m, k, a, run[k].Pc(a).i)
  {
    if k == 0 {
      AtFirst(run, steps, a);
    }
    hide IsRun, Next, Enabled;
    StepOf(run, steps, k);
    DispatchKeepsSlot(run[k - 1], steps[k - 1], a);
    if steps[k - 1].a == a && !steps[k - 1].Go? {
      m := k - 1;
    } else {
      m := DispatchOfInvoked(run, steps, k - 1, a);
    }
  }

  lemma DispatchKeepsSlot(s: State, l: Step, a: Act)
    requires Enabled(s, l) && Dispatching(Next(s, l).Pc(a)) && !Next(s, l).halted
    ensures !s.halted
    ensures if l.a == a && !l.Go? then l == StartDispatch(a, Next(s, l).Pc(a).i)
      else Dispatching(s.Pc(a)) && s.Pc(a).i == Next(s, l).Pc(a).i
  {
  }

  lemma AtFirst(run: seq<State>, steps: seq<Step>, a: Act)
    requires IsRun(run, steps)
    ensures run[0].Pc(a) == Outside
  {
  }

  lemma DispatchCameFrom(s: State, l: Step, a: Act)
    requires Enabled(s, l) && (Next(s, l).Pc(a).DispatchLock? || Next(s, l).Pc(a).DispatchCip?)
    ensures var pc, pc' := s.Pc(a), Next(s, l).Pc(a);
      if pc.DispatchRead? then
        l == Go(a) && pc.i == pc'.i && pc.i < |s.slots| && s.slots[pc.i].ctx == Some(pc'.vm)
      else (pc.DispatchLock? || pc.DispatchCip?) && pc.i == pc'.i && pc.vm == pc'.vm
  {
  }

  // ---- Exactly when the machine stops, and when an activity can go on ----

  /** The fast-fails: a free of a pointer that is none of the table's or of a slot of another VM, a
      dispatch of a slot without a VM or without an entry point. */
  lemma HaltsIff(run: seq<State>, steps: seq<Step>, k: nat)
    requires IsRun(run, steps) && k < |steps|
    ensures var s, l := run[k], steps[k];
      run[k + 1].halted <==>
        || (l.StartFree? && l.pfn !in s.fns)
        || (l.Go? && s.Pc(l.a).FreeTest? && s.slots[s.Pc(l.a).i].ctx != Some(s.Pc(l.a).vm))
        || (l.Go? && s.Pc(l.a).DispatchRead? && s.slots[s.Pc(l.a).i].ctx.None?)
        || (l.Go? && s.Pc(l.a).DispatchCip? && s.slots[s.Pc(l.a).i].cip == 0)
  {
    assert Enabled(run[k], steps[k]) && run[k + 1] == Next(run[k], steps[k]);
    hide IsRun;
  }

  /** An activity inside one of these operations can always go on, except a dispatch that waits for a
      mutex. */
  lemma CanGoIff(run: seq<State>, steps: seq<Step>, k: nat, a: Act)
    requires IsRun(run, steps) && k < |run|
    ensures var s, pc := run[k], run[k].Pc(a);
      Enabled(s, Go(a)) <==>
        !s.halted && !pc.Outside? && !pc.Running? && (pc.DispatchLock? ==> pc.vm !in s.mutex)
  {
    RunKeepsInv(run, steps, k);
    assert ActOk(run[k], a);
    hide IsRun;
  }
}
