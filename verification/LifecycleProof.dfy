/** Every run of the handle protocol keeps the invariant. */
module LifecycleProof {
  import opened Machine
  import opened VmTrace
  import opened Lifecycle
  import opened LifecycleInv

  /** A thread that works on a VM finds it as its place in the code expects. */
  lemma FindsIt(s: State, t: Tid)
    requires ThreadOk(s, t) && t in s.pcs && s.pcs[t].On().Some? && !s.pcs[t].Publish?
    requires VmOk(s, s.pcs[t].On().value)
    requires Locking(s.pcs[t]) ==> s.vms[s.pcs[t].On().value].mutex.None?
    requires forall u :: ThreadOk(s, u)
    ensures Found(t, s.pcs[t], s.vms[s.pcs[t].On().value])
  {
    var pc := s.pcs[t];
    var v := pc.On().value;
    var vm := s.vms[v];
    if !pc.Critical() && !Locking(pc) && !pc.ExecFind? && vm.mutex.Some? {
      var u := vm.mutex.value;
      assert ThreadOk(s, u);
      assert u != t && s.pcs[u].On() == Some(v);
      assert s.pcs[u].Guest();
    }
  }

  /** The guest or owner elsewhere on the same VM is not disturbed by a step of t. */
  lemma OthersUndisturbed(s: State, t: Tid, u: Tid, vm': Vm, pc': Pc)
    requires u != t && ThreadOk(s, t) && ThreadOk(s, u) && t in s.pcs && u in s.pcs
    requires s.pcs[t].On().Some? && !s.pcs[t].Publish? && s.pcs[u].On() == s.pcs[t].On()
    requires LocalPost(t, s.pcs[t], s.vms[s.pcs[t].On().value], pc', vm')
    requires Locking(s.pcs[t]) ==> s.vms[s.pcs[t].On().value].mutex.None?
    ensures May(u, s.pcs[u], vm')
  {
    var pc, v := s.pcs[t], s.pcs[t].On().value;
    var vm := s.vms[v];
    assert May(t, pc, vm) && May(u, s.pcs[u], vm);
    hide LocalPost, Sound, Rest, Busy;
    PostFacts(t, pc, vm, pc', vm');
    assert pc.Guest() || pc.Owns();
    assert s.pcs[u].Guest() || s.pcs[u].Owns();
    if pc.Owns() {
      assert s.pcs[u].Guest();
      if pc.EndTell? && vm.parting != Raced {
        assert false;
      }
    }
  }

  lemma PostFacts(t: Tid, pc: Pc, vm: Vm, pc': Pc, vm': Vm)
    requires pc.On().Some? && LocalPost(t, pc, vm, pc', vm')
    ensures pc.Guest() ==> vm'.owner == vm.owner && vm'.stage == vm.stage
    ensures vm.stage == Alive && !pc.EndTell? ==> vm'.stage == Alive && vm'.owner == vm.owner
    ensures !pc.Critical() && !Locking(pc) ==> vm'.mutex == vm.mutex
    ensures vm'.slots > vm.slots ==> pc.CallBody?
    ensures vm'.parting == vm.parting || (pc.EndLock? && vm.parting == NotYet)
  {
  }

  /** The state after a thread's step on its VM. */
  ghost function Upd(s: State, t: Tid, v: Vid, vm: Vm, pc: Pc, halted: bool): State
  {
    At(s, t, pc).(vms := s.vms[v := vm], halted := halted)
  }

  /** What a step of t on v needs to have established locally. */
  ghost predicate StepsOn(s: State, t: Tid, v: Vid, vm': Vm, pc': Pc)
  {
    && t in s.pcs && s.pcs[t].On() == Some(v) && !s.pcs[t].Publish? && v in s.vms
    && (Locking(s.pcs[t]) ==> s.vms[v].mutex.None?)
    && (s.pcs[t].EndLock? && vm'.parting != Raced ==> NoDispatchOn(s, v))
    && LocalPost(t, s.pcs[t], s.vms[v], pc', vm')
  }

  lemma DonePlace(pc: Pc)
    requires pc.Done?
    ensures pc.On().None? && !pc.Critical() && !pc.Owns() && !pc.Guest() && !Loading(pc) && !DispatchPc(pc)
  {
  }

  lemma DispatchIsGuest(pc: Pc)
    ensures DispatchPc(pc) ==> pc.Guest()
    ensures pc.Guest() ==> pc.On().Some?
    ensures pc.Critical() ==> pc.On().Some?
    ensures pc.EndTell? || pc.EndLock? ==> pc.Owns()
  {
  }

  lemma StepSelf(s: State, t: Tid, v: Vid, vm': Vm, pc': Pc, h: bool)
    requires StepsOn(s, t, v, vm', pc') && ThreadOk(s, t)
    ensures ThreadOk(Upd(s, t, v, vm', pc', h), t)
  {
    var s' := Upd(s, t, v, vm', pc', h);
    var pc := s.pcs[t];
    DispatchIsGuest(pc');
    DispatchIsGuest(pc);
    hide Pc.On, Pc.Guest, Pc.Critical, DispatchPc, Loading, Locking, Sound, Busy, Rest, May;
    if pc'.Done? {
      DonePlace(pc');
    } else {
      assert pc'.EndTell? && vm'.parting != Raced ==> NoDispatchOn(s', v);
    }
  }

  lemma StepOther(s: State, t: Tid, v: Vid, vm': Vm, pc': Pc, h: bool, u: Tid)
    requires StepsOn(s, t, v, vm', pc') && ThreadOk(s, t) && ThreadOk(s, u) && u != t
    ensures ThreadOk(Upd(s, t, v, vm', pc', h), u)
  {
    var s' := Upd(s, t, v, vm', pc', h);
    if u in s.pcs && s.pcs[u].On() == Some(v) {
      OthersUndisturbed(s, t, u, vm', pc');
    }
    hide Pc.On, Pc.Guest, Pc.Critical, Loading, Locking, Sound, Busy, Rest, May, DispatchPc;
    if u in s.pcs && s.pcs[u].EndTell? && s.vms[s.pcs[u].On().value].parting != Raced {
      assert NoDispatchOn(s', s.pcs[u].On().value);
    }
  }

  lemma StepVm(s: State, t: Tid, v: Vid, vm': Vm, pc': Pc, h: bool)
    requires StepsOn(s, t, v, vm', pc') && ThreadOk(s, t) && VmOk(s, v)
    ensures VmOk(Upd(s, t, v, vm', pc', h), v)
  {
    var pc, vm := s.pcs[t], s.vms[v];
    var s' := Upd(s, t, v, vm', pc', h);
    DispatchIsGuest(pc');
    DispatchIsGuest(pc);
    FindPlace(pc);
    hide Pc.On, Pc.Guest, Pc.Critical, DispatchPc, Loading, Locking, StageFits;
    hide BusyPhase, RestPhase, MappedAt, Scan, UnderMutex, BlocksFit;
    assert pc.Guest() || pc.Owns();
    assert May(t, pc, vm) && LocalPost(t, pc, vm, pc', vm');
    if vm'.mutex.Some? {
      var u := vm'.mutex.value;
      assert u in s'.pcs && s'.pcs[u].On() == Some(v) && Busy(vm', s'.pcs[u], u) by {
        if pc'.Critical() {
          assert Busy(vm', pc', t);
        } else {
          assert vm'.mutex == vm.mutex && vm'.mapped == vm.mapped && u != t;
        }
      }
    }
    if vm'.owner.Thread? {
      var u := vm'.owner.t;
      assert u in s'.pcs && s'.pcs[u].Owns() && s'.pcs[u].On() == Some(v) by {
        if pc.Guest() {
          assert vm'.owner == vm.owner && u != t;
        } else {
          assert pc'.Owns() && u == t;
        }
      }
    }
  }

  lemma FindPlace(pc: Pc)
    ensures pc.ExecFind? ==> !pc.Critical()
  {
  }

  lemma StepOtherVm(s: State, t: Tid, v: Vid, vm': Vm, pc': Pc, h: bool, w: Vid)
    requires StepsOn(s, t, v, vm', pc') && VmOk(s, w) && w != v
    ensures VmOk(Upd(s, t, v, vm', pc', h), w)
  {
    hide Pc.On, Pc.Guest, Pc.Critical, DispatchPc, Loading, Locking, Sound, Busy, Rest, May, LocalPost;
  }

  /** A step on a VM neither publishes nor unpublishes it, and only its owner gives it up. */
  lemma OwnerAfter(s: State, t: Tid, v: Vid, vm': Vm, pc': Pc)
    requires StepsOn(s, t, v, vm', pc') && ThreadOk(s, t)
    ensures vm'.owner == s.vms[v].owner || (s.vms[v].owner == Thread(t) && vm'.owner == Nobody)
    ensures !s.pcs[t].CloseCheck? && !s.pcs[t].Done? && !pc'.CloseCheck?
    ensures DispatchPc(s.pcs[t]) ==> DispatchPc(pc') || pc'.Done?
  {
    hide Sound, Busy, Rest, StageFits;
  }

  lemma StepHandle(s: State, t: Tid, v: Vid, vm': Vm, pc': Pc, h: bool)
    requires StepsOn(s, t, v, vm', pc') && ThreadOk(s, t) && HandleOk(s)
    ensures HandleOk(Upd(s, t, v, vm', pc', h))
  {
    OwnerAfter(s, t, v, vm', pc');
    hide Pc.On, DispatchPc, LocalPost, ThreadOk, Locking, NoDispatchOn;
    var s' := Upd(s, t, v, vm', pc', h);
    assert Closed(s') <==> Closed(s);
  }

  lemma VmStepKeepsInv(s: State, t: Tid, c: Choice)
    requires Inv(s) && Enabled(s, Go(t, c)) && s.pcs[t].On().Some? && !s.pcs[t].Publish?
    ensures Inv(VmStep(s, t, c))
  {
    var s' := VmStep(s, t, c);
    var v := s.pcs[t].On().value;
    assert ThreadOk(s, t) && VmOk(s, v);
    FindsIt(s, t);
    var race := !CallbacksOver(s, v);
    LocalStep(t, s.pcs[t], s.vms[v], c, race);
    var (vm', pc') := OnVm(t, s.pcs[t], s.vms[v], c, race);
    assert s.pcs[t].EndLock? ==> vm'.parting == if race then Raced else Clean;
    hide LocalPost, OnVm, May, Found, Sound, ThreadOk, VmOk, HandleOk, NoDispatchOn;
    var h := pc'.CallUnlock? && pc'.path == Dispatch && !pc'.ok;
    assert s' == Upd(s, t, v, vm', pc', h);
    forall u ensures ThreadOk(s', u) {
      assert ThreadOk(s, u);
      if u == t { StepSelf(s, t, v, vm', pc', h); } else { StepOther(s, t, v, vm', pc', h, u); }
    }
    forall w ensures VmOk(s', w) {
      assert VmOk(s, w);
      if w == v { StepVm(s, t, v, vm', pc', h); } else { StepOtherVm(s, t, v, vm', pc', h, w); }
    }
    StepHandle(s, t, v, vm', pc', h);
  }

  // ---- Steps that move a thread without changing a VM ----

  /** A thread on no VM moves to another place on no VM. */
  lemma MoveKeepsInv(s: State, t: Tid, pc': Pc)
    requires Inv(s) && (t in s.pcs ==> s.pcs[t].On().None?)
    requires pc'.On().None? && HandlePc(s, t, pc')
    requires s.closer.None? || s.closer == Some(t)
    requires s.closer == Some(t) ==> s.fs.None? && pc'.Done?
    ensures Inv(At(s, t, pc'))
  {
    var s' := At(s, t, pc');
    assert !DispatchPc(pc') && !pc'.Owns() && !pc'.Critical();
    hide May, Sound, Busy, Rest, Pc.On, Pc.Guest, Pc.Critical, DispatchPc;
    forall u ensures ThreadOk(s', u) {
      assert ThreadOk(s, u);
      assert u in s.pcs && u != t && s.pcs[u].EndTell? && s.vms[s.pcs[u].On().value].parting != Raced ==>
        NoDispatchOn(s', s.pcs[u].On().value);
    }
    forall v ensures VmOk(s', v) {
      assert VmOk(s, v);
    }
    if s.fs.None? {
      NothingPublished(s);
    }
    assert HandleOk(s');
  }

  lemma NothingPublished(s: State)
    requires s.fs.None? && forall v :: VmOk(s, v)
    ensures forall v :: v in s.vms ==> s.vms[v].owner != Published
  {
    forall v | v in s.vms ensures s.vms[v].owner != Published {
      assert VmOk(s, v);
    }
  }

  lemma OnlyDispatchGuests(s: State, t: Tid, v: Vid)
    requires v in s.vms && s.vms[v].owner == Thread(t) && forall u :: ThreadOk(s, u)
    ensures forall u :: u in s.pcs && u != t && s.pcs[u].On() == Some(v) ==> DispatchPc(s.pcs[u])
  {
    forall u | u in s.pcs && u != t && s.pcs[u].On() == Some(v) ensures DispatchPc(s.pcs[u]) {
      assert ThreadOk(s, u);
    }
  }

  lemma OnlyDispatchesLeft(s: State, t: Tid)
    requires Quiet(s, t)
    ensures forall u :: u in s.pcs && u != t && s.pcs[u].On().Some? ==> DispatchPc(s.pcs[u])
  {
  }

  lemma DestroyingPlace(v: Vid, vm: Vm, ok: bool)
    ensures var pc := Destroying(v, vm, ok);
      && pc.Owns() && pc.On() == Some(v) && !pc.Guest() && !DispatchPc(pc) && !pc.Critical() && !Loading(pc)
      && StageFits(pc, Alive) && !pc.EndTell? && !pc.CloseCheck? && !pc.Done?
      && !pc.LoadCheck? && !pc.LoadVerify? && !pc.LoadCopy? && !pc.ExecCheck? && !pc.ExecRead?
  {
  }

  lemma HandlePlace(pc: Pc)
    requires pc.CloseCheck? || pc.Publish?
    ensures !pc.Critical() && !pc.Guest() && !DispatchPc(pc)
    ensures pc.CloseCheck? ==> pc.On() == None
    ensures pc.Publish? ==> pc.On() == Some(pc.v) && pc.Owns() && Loading(pc)
  {
  }

  /** Only one thread is not quiet once the close has come. */
  lemma CloserOnly(s: State, t: Tid)
    requires HandleOk(s) && t in s.pcs && !s.pcs[t].Done? && !DispatchPc(s.pcs[t])
    ensures s.closer.None? || s.closer == Some(t)
  {
  }

  lemma LoadCopyKeepsInv(s: State, t: Tid, c: Choice)
    requires Inv(s) && Enabled(s, Go(t, c)) && s.pcs[t].LoadCopy? && c.ok
    ensures Inv(HandleStep(s, t, c))
  {
    var s' := HandleStep(s, t, c);
    assert ThreadOk(s, t);
    CloserOnly(s, t);
    NewVmOk(t);
    CopyPlaces(t);
    hide Busy, Rest, Sound, May, Pc.On, Pc.Guest, Pc.Critical, DispatchPc, Loading;
    forall u ensures ThreadOk(s', u) {
      assert ThreadOk(s, u);
      assert u != t && u in s.pcs && s.pcs[u].EndTell? && s.vms[s.pcs[u].On().value].parting != Raced ==>
        NoDispatchOn(s', s.pcs[u].On().value);
    }
    forall v ensures VmOk(s', v) {
      assert VmOk(s, v);
    }
    assert HandleOk(s');
  }

  lemma NewVmOk(t: Tid)
    ensures var vm := Vm(LIVE, NEVER, NEVER, None, [], {}, 0, false, false, Thread(t), Raw, NotYet);
      Sound(vm) && Rest(vm) && May(t, LoadCtx(t), vm)
  {
  }

  lemma CopyPlaces(t: Tid)
    ensures var pc := LoadCopy; pc.On() == None && !pc.Critical() && !pc.Guest() && !DispatchPc(pc)
    ensures var pc := LoadCtx(t);
      pc.On() == Some(t) && pc.Owns() && !pc.Critical() && !pc.Guest() && !DispatchPc(pc) && Loading(pc)
  {
  }

  lemma ExecReadKeepsInv(s: State, t: Tid, c: Choice)
    requires Inv(s) && Enabled(s, Go(t, c)) && s.pcs[t].ExecRead?
    ensures Inv(HandleStep(s, t, c)) && HandleStep(s, t, c).pcs[t].ExecFind?
  {
    var s' := HandleStep(s, t, c);
    assert ThreadOk(s, t);
    CloserOnly(s, t);
    var v := s.fs.value;
    assert VmOk(s, v);
    hide Busy, Rest;
    forall u ensures ThreadOk(s', u) {
      assert ThreadOk(s, u);
    }
    forall w ensures VmOk(s', w) {
      assert VmOk(s, w);
    }
  }

  // ---- Changes of responsibility: publication and close ----

  /** The VM passes from one owner to another while t moves to pc'. */
  ghost function Hand(s: State, t: Tid, v: Vid, owner: Owner, pc': Pc, fs: Option<Vid>): State
    requires v in s.vms
  {
    At(s, t, pc').(fs := fs, vms := s.vms[v := s.vms[v].(owner := owner)])
  }

  /** Only dispatches are guests of the VM, or it is published. */
  lemma HandThread(s: State, t: Tid, v: Vid, owner: Owner, pc': Pc, fs: Option<Vid>, u: Tid)
    requires v in s.vms && ThreadOk(s, u) && u != t && s.vms[v].owner != Thread(u) && !DispatchPc(pc')
    requires s.fs == fs || (s.fs.None? && s.closer.None?)
    requires owner == Published || (u in s.pcs && s.pcs[u].On() == Some(v) ==> DispatchPc(s.pcs[u]))
    requires owner != Thread(u)
    ensures ThreadOk(Hand(s, t, v, owner, pc', fs), u)
  {
    var s' := Hand(s, t, v, owner, pc', fs);
    if u in s.pcs && s.pcs[u].On() == Some(v) {
      assert s.pcs[u].Guest() && May(u, s.pcs[u], s'.vms[v]);
    }
    hide Pc.On, Pc.Guest, Pc.Critical, DispatchPc, Loading, May;
    assert u in s.pcs && s.pcs[u].EndTell? && s.vms[s.pcs[u].On().value].parting != Raced ==>
        NoDispatchOn(s', s.pcs[u].On().value);
  }

  lemma HandVm(s: State, t: Tid, v: Vid, owner: Owner, pc': Pc, fs: Option<Vid>)
    requires VmOk(s, v) && v in s.vms && t in s.pcs && !s.pcs[t].Critical()
    requires s.vms[v].stage == Alive && s.vms[v].parting == NotYet && owner != Nobody
    requires owner.Thread? ==> owner.t == t && pc'.Owns() && pc'.On() == Some(v)
    requires owner == Published ==> fs == Some(v)
    ensures VmOk(Hand(s, t, v, owner, pc', fs), v)
  {
    hide BusyPhase, MappedAt, RestPhase, BlocksFit, UnderMutex, Scan, Pc.On, Pc.Guest, Pc.Critical;
  }

  lemma HandOtherVm(s: State, t: Tid, v: Vid, owner: Owner, pc': Pc, fs: Option<Vid>, w: Vid)
    requires VmOk(s, w) && w != v && v in s.vms && t in s.pcs
    requires !s.pcs[t].Critical() && s.pcs[t].On() in {None, Some(v)}
    requires s.fs.None? || s.fs == fs
    ensures VmOk(Hand(s, t, v, owner, pc', fs), w)
  {
    hide Sound, Busy, Rest, Pc.Guest, Pc.Critical;
  }

  lemma CloseKeepsInv(s: State, t: Tid, c: Choice)
    requires Inv(s) && Enabled(s, Go(t, c)) && s.pcs[t].CloseCheck? && s.fs.Some?
    ensures Inv(HandleStep(s, t, c))
  {
    var s' := HandleStep(s, t, c);
    var v := s.fs.value;
    assert ThreadOk(s, t) && VmOk(s, v);
    assert s.vms[v].owner == Published && s.vms[v].stage == Alive && s.vms[v].parting == NotYet;
    var pc' := Destroying(v, s.vms[v], true);
    assert s' == Hand(s, t, v, Thread(t), pc', s.fs);
    hide Sound, Busy, Rest, StageFits, Destroying, Pc.On, Pc.Guest, Pc.Critical, DispatchPc, Loading;
    DestroyingPlace(v, s.vms[v], true);
    HandlePlace(s.pcs[t]);
    OnlyDispatchesLeft(s, t);
    forall u ensures ThreadOk(s', u) {
      assert ThreadOk(s, u);
      if u != t { HandThread(s, t, v, Thread(t), pc', s.fs, u); }
    }
    forall w ensures VmOk(s', w) {
      assert VmOk(s, w);
      if w == v { HandVm(s, t, v, Thread(t), pc', s.fs); } else { HandOtherVm(s, t, v, Thread(t), pc', s.fs, w); }
    }
    forall w | w in s'.vms ensures s'.vms[w].owner != Published {
      assert VmOk(s, w);
    }
  }

  /** The compare-exchange found null. */
  lemma WinKeepsInv(s: State, t: Tid)
    requires Inv(s) && t in s.pcs && s.pcs[t].Publish? && s.pcs[t].v in s.vms && s.fs.None?
    ensures Inv(PublishStep(s, t))
  {
    var s' := PublishStep(s, t);
    assert ThreadOk(s, t);
    CloserOnly(s, t);
    var pc' := Done(true);
    assert VmOk(s, t) && s.vms[t].owner == Thread(t) && s.vms[t].stage == Alive && s.vms[t].parting == NotYet;
    assert s' == Hand(s, t, t, Published, pc', Some(t));
    assert !DispatchPc(pc') && pc'.On() == None && !Loading(pc') && !s.pcs[t].Critical() && s.pcs[t].On() == Some(t);
    hide Sound, Busy, Rest, StageFits, Pc.On, Pc.Guest, Pc.Critical, DispatchPc, Loading;
    forall u ensures ThreadOk(s', u) {
      assert ThreadOk(s, u);
      if u != t { HandThread(s, t, t, Published, pc', Some(t), u); }
    }
    forall w ensures VmOk(s', w) {
      assert VmOk(s, w);
      if w == t { HandVm(s, t, t, Published, pc', Some(t)); } else { HandOtherVm(s, t, t, Published, pc', Some(t), w); }
    }
  }

  /** The compare-exchange found another context: the load goes on to destroy its own VM. */
  lemma LoseKeepsInv(s: State, t: Tid)
    requires Inv(s) && t in s.pcs && s.pcs[t].Publish? && s.pcs[t].v in s.vms && s.fs.Some?
    ensures Inv(PublishStep(s, t))
  {
    var s' := PublishStep(s, t);
    assert ThreadOk(s, t);
    CloserOnly(s, t);
    var pc' := Destroying(t, s.vms[t], false);
    assert VmOk(s, t) && s.vms[t].owner == Thread(t) && s.vms[t].stage == Alive && s.vms[t].parting == NotYet;
    assert s' == Hand(s, t, t, Thread(t), pc', s.fs);
    hide Sound, Busy, Rest, StageFits, Destroying, Pc.On, Pc.Guest, Pc.Critical, DispatchPc, Loading;
    DestroyingPlace(t, s.vms[t], false);
    HandlePlace(s.pcs[t]);
    OnlyDispatchGuests(s, t, t);
    forall u ensures ThreadOk(s', u) {
      assert ThreadOk(s, u);
      if u != t { HandThread(s, t, t, Thread(t), pc', s.fs, u); }
    }
    forall w ensures VmOk(s', w) {
      assert VmOk(s, w);
      if w == t { HandVm(s, t, t, Thread(t), pc', s.fs); } else { HandOtherVm(s, t, t, Thread(t), pc', s.fs, w); }
    }
  }

  lemma DispatchKeepsInv(s: State, t: Tid, v: Vid)
    requires Inv(s) && Enabled(s, StartDispatch(t, v))
    ensures Inv(Next(s, StartDispatch(t, v)))
  {
    var s' := Next(s, StartDispatch(t, v));
    assert VmOk(s, v);
    hide Busy, Rest, StageFits;
    forall u ensures ThreadOk(s', u) {
      assert ThreadOk(s, u);
    }
    forall w ensures VmOk(s', w) {
      assert VmOk(s, w);
    }
  }

  lemma StartCloseKeepsInv(s: State, t: Tid)
    requires Inv(s) && Enabled(s, StartClose(t))
    ensures Inv(Next(s, StartClose(t)))
  {
    var s' := Next(s, StartClose(t));
    hide Busy, Rest, StageFits, Sound, May;
    forall u ensures ThreadOk(s', u) {
      assert ThreadOk(s, u);
    }
    forall w ensures VmOk(s', w) {
      assert VmOk(s, w);
    }
  }

  // ---- Every step, every run ----

  lemma HandleStepKeepsInv(s: State, t: Tid, c: Choice)
    requires Inv(s) && Enabled(s, Go(t, c)) && s.pcs[t].On().None?
    ensures Inv(HandleStep(s, t, c))
  {
    var pc := s.pcs[t];
    assert ThreadOk(s, t);
    CloserOnly(s, t);
    hide Inv;
    if pc.LoadCopy? && c.ok {
      LoadCopyKeepsInv(s, t, c);
    } else if pc.ExecRead? {
      ExecReadKeepsInv(s, t, c);
    } else if pc.CloseCheck? && s.fs.Some? {
      CloseKeepsInv(s, t, c);
    } else {
      MoveKeepsInv(s, t, HandleStep(s, t, c).pcs[t]);
    }
  }

  lemma StepKeepsInv(s: State, l: Step)
    requires Inv(s) && Enabled(s, l)
    ensures Inv(Next(s, l))
  {
    hide ThreadOk, VmOk, OnVm;
    match l {
      case StartLoad(t) => MoveKeepsInv(s, t, LoadCheck);
      case StartExec(t) => MoveKeepsInv(s, t, ExecCheck);
      case StartClose(t) => StartCloseKeepsInv(s, t);
      case StartDispatch(t, v) => DispatchKeepsInv(s, t, v);
      case Go(t, c) =>
        var pc := s.pcs[t];
        if pc.Publish? {
          if s.fs.None? { WinKeepsInv(s, t); } else { LoseKeepsInv(s, t); }
        } else if pc.On().Some? {
          VmStepKeepsInv(s, t, c);
        } else {
          HandleStepKeepsInv(s, t, c);
        }
    }
  }

  lemma {:induction false} RunKeepsInv(run: seq<State>, steps: seq<Step>, k: nat)
    requires IsRun(run, steps) && k < |run|
    ensures Inv(run[k])
  {
    if k > 0 {
      RunKeepsInv(run, steps, k - 1);
      hide Inv, Next, Enabled;
      StepKeepsInv(run[k - 1], steps[k - 1]);
    }
  }

  /** A step moves one thread. */
  lemma MovesOne(s: State, l: Step, u: Tid)
    requires Enabled(s, l) && u != l.t
    ensures u in Next(s, l).pcs <==> u in s.pcs
    ensures u in s.pcs ==> Next(s, l).pcs[u] == s.pcs[u]
    ensures l.t in Next(s, l).pcs
  {
    hide OnVm, CallbacksOver, Quiet;
  }

  lemma StepOf(run: seq<State>, steps: seq<Step>, k: nat)
    requires IsRun(run, steps) && 0 < k < |run|
    ensures |run| == |steps| + 1 && Enabled(run[k - 1], steps[k - 1]) && run[k] == Next(run[k - 1], steps[k - 1])
  {
    hide Enabled, Next;
  }

  // ---- What it means, over every run ----

  /** FsContext goes from null to one context at most once, in the compare-exchange of the load
      that created it, and never changes again. */
  lemma HandleSetOnce(run: seq<State>, steps: seq<Step>, k: nat)
    requires IsRun(run, steps) && k < |steps|
    ensures run[k + 1].fs == run[k].fs
      || (run[k].fs.None? && steps[k].Go? && run[k].pcs[steps[k].t] == Publish(steps[k].t)
          && run[k + 1].fs == Some(steps[k].t))
  {
    assert run[k + 1] == Next(run[k], steps[k]);
    RunKeepsInv(run, steps, k);
    if steps[k].Go? {
      assert ThreadOk(run[k], steps[k].t);
    }
    hide Inv, OnVm;
  }

  lemma {:induction false} HandleNeverChanges(run: seq<State>, steps: seq<Step>, i: nat, j: nat)
    requires IsRun(run, steps) && i <= j < |run| && run[i].fs.Some?
    ensures run[j].fs == run[i].fs
    decreases j - i
  {
    if i < j {
      HandleNeverChanges(run, steps, i, j - 1);
      hide Next, Enabled;
      HandleSetOnce(run, steps, j - 1);
    }
  }

  /** An execute that saw a context sees it again when it reads FsContext for the second time. */
  lemma ExecuteNeverSeesNull(run: seq<State>, steps: seq<Step>, k: nat, t: Tid)
    requires IsRun(run, steps) && k < |run| && t in run[k].pcs && run[k].pcs[t].ExecRead?
    ensures run[k].fs.Some?
  {
    RunKeepsInv(run, steps, k);
    assert ThreadOk(run[k], t);
  }

  /** Whoever destroys or frees a VM is the load that created it, or the close of the handle that
      holds it: a losing loader destroys its own context only. */
  lemma DestroysOnlyItsOwn(run: seq<State>, steps: seq<Step>, k: nat, t: Tid)
    requires IsRun(run, steps) && k < |run| && t in run[k].pcs
    requires var pc := run[k].pcs[t]; pc.EndTell? || pc.FreeArena? || pc.FreeCtx? || pc.FreeCopy?
    ensures var v := run[k].pcs[t].v;
      && v in run[k].vms && run[k].vms[v].owner == Thread(t)
      && (v == t || (run[k].closer == Some(t) && run[k].fs == Some(v)))
  {
    RunKeepsInv(run, steps, k);
    assert ThreadOk(run[k], t);
  }

  /** The thread is about to take a mutex that another thread holds. */
  ghost predicate Waits(s: State, t: Tid)
  {
    && t in s.pcs && Locking(s.pcs[t]) && s.pcs[t].v in s.vms
    && s.vms[s.pcs[t].v].mutex.Some? && s.vms[s.pcs[t].v].mutex != Some(t)
  }

  /** What enables a step of a thread in the driver, as long as nothing but a mutex holds it up. */
  lemma StepsUnlessWaiting(s: State, t: Tid, c: Choice)
    requires Inv(s) && t in s.pcs && !s.pcs[t].Done?
    ensures Enabled(s, Go(t, c)) <==> !s.halted && !Waits(s, t)
  {
    assert ThreadOk(s, t);
    if s.pcs[t].On().Some? {
      assert VmOk(s, s.pcs[t].On().value);
    }
    hide Scan, UnderMutex, BlocksFit, BusyPhase, RestPhase, MappedAt;
  }

  /** The holder of a mutex is inside the VM. */
  lemma HolderInside(s: State, v: Vid)
    requires Inv(s) && v in s.vms && s.vms[v].mutex.Some?
    ensures var h := s.vms[v].mutex.value;
      && h in s.pcs && s.pcs[h].Critical() && s.pcs[h].On() == Some(v)
      && !s.pcs[h].Done? && !Locking(s.pcs[h])
  {
    assert VmOk(s, v);
    hide Sound, BusyPhase, MappedAt, Scan;
  }

  /** A thread inside a VM holds its mutex. */
  lemma InsideHolds(s: State, t: Tid)
    requires Inv(s) && t in s.pcs && s.pcs[t].Critical()
    ensures s.pcs[t].On().Some? && s.pcs[t].On().value in s.vms
    ensures s.vms[s.pcs[t].On().value].mutex == Some(t)
  {
    assert ThreadOk(s, t);
  }

  /** A mutex stays with its holder while the holder does not move. */
  lemma MutexStays(s: State, l: Step, v: Vid)
    requires Inv(s) && Enabled(s, l) && v in s.vms && s.vms[v].mutex.Some? && s.vms[v].mutex != Some(l.t)
    ensures v in Next(s, l).vms && Next(s, l).vms[v].mutex == s.vms[v].mutex
  {
    if l.Go? {
      assert ThreadOk(s, l.t);
      if s.pcs[l.t].On() == Some(v) && !s.pcs[l.t].Publish? {
        MutexOnVm(l.t, s.pcs[l.t], s.vms[v], l.c, !CallbacksOver(s, v));
      }
    }
    hide Inv, OnVm, CallbacksOver, Quiet;
  }

  lemma MutexOnVm(t: Tid, pc: Pc, vm: Vm, c: Choice, race: bool)
    requires pc.On().Some? && !pc.Publish? && !pc.Critical() && !Locking(pc)
    ensures OnVm(t, pc, vm, c, race).0.mutex == vm.mutex
  {
  }

  // ---- Destruction and callbacks ----

  /** Whenever the destruction of v began before moment k, the module held no callback slot and no
      callback into it was under way. The driver enforces neither. */
  ghost predicate Quiesced(run: seq<State>, steps: seq<Step>, k: nat, v: Vid)
    requires IsRun(run, steps) && k < |run|
  {
    forall i :: 0 <= i < k && BeginsDestroy(run[i], steps[i], v) ==> CallbacksOver(run[i], v)
  }

  /** The step takes v's mutex for vm_callback_destroyed. */
  ghost predicate BeginsDestroy(s: State, l: Step, v: Vid)
  {
    l.Go? && l.t in s.pcs && s.pcs[l.t].EndLock? && s.pcs[l.t].v == v
  }

  /** Once destruction has begun, how it began is settled; only a destroy with callbacks left
      makes it a race. */
  lemma PartingStep(s: State, l: Step, v: Vid)
    requires Inv(s) && Enabled(s, l) && v in s.vms
    ensures v in Next(s, l).vms
    ensures BeginsDestroy(s, l, v) ==>
      s.vms[v].parting == NotYet && Next(s, l).vms[v].parting == if CallbacksOver(s, v) then Clean else Raced
    ensures !BeginsDestroy(s, l, v) ==> Next(s, l).vms[v].parting == s.vms[v].parting
  {
    hide CallbacksOver, Quiet, OnVm;
    if l.Go? {
      assert ThreadOk(s, l.t);
      if s.pcs[l.t].On().Some? && !s.pcs[l.t].Publish? {
        var w := s.pcs[l.t].On().value;
        PartingOnVm(l.t, s.pcs[l.t], s.vms[w], l.c, !CallbacksOver(s, w));
      }
    }
    hide Inv, May;
  }

  lemma PartingOnVm(t: Tid, pc: Pc, vm: Vm, c: Choice, race: bool)
    requires pc.On().Some? && !pc.Publish?
    ensures OnVm(t, pc, vm, c, race).0.parting ==
      if pc.EndLock? then (if race then Raced else Clean) else vm.parting
    ensures pc.EndLock? ==> pc.On() == Some(pc.v)
  {
  }

  lemma {:induction false} QuiescedNeverRaces(run: seq<State>, steps: seq<Step>, k: nat, v: Vid)
    requires IsRun(run, steps) && k < |run| && v in run[k].vms && Quiesced(run, steps, k, v)
    ensures run[k].vms[v].parting != Raced
  {
    if k > 0 && v in run[k - 1].vms {
      QuiescedNeverRaces(run, steps, k - 1, v);
      RunKeepsInv(run, steps, k - 1);
      PartingStep(run[k - 1], steps[k - 1], v);
    } else if k > 0 {
      NewVmNotParting(run[k - 1], steps[k - 1], v);
    }
  }

  lemma NewVmNotParting(s: State, l: Step, v: Vid)
    requires Enabled(s, l) && v !in s.vms && v in Next(s, l).vms
    ensures Next(s, l).vms[v].parting == NotYet && Next(s, l).vms[v].trace == []
    ensures !Next(s, l).vms[v].hasMain && !Next(s, l).vms[v].hasUnload
  {
    hide OnVm;
  }

  /** Every VM's history is a prefix of the grammar, provided its callbacks were over when it was
      destroyed; and every event before the frees happened under the VM's mutex, in any case. */
  lemma TraceAccepted(run: seq<State>, steps: seq<Step>, k: nat, v: Vid)
    requires IsRun(run, steps) && k < |run| && v in run[k].vms
    ensures UnderMutex(run[k].vms[v].trace)
    ensures Quiesced(run, steps, k, v) ==> Scan(run[k].vms[v].trace) != Bad
  {
    if Quiesced(run, steps, k, v) {
      QuiescedNeverRaces(run, steps, k, v);
    }
    RunKeepsInv(run, steps, k);
    assert VmOk(run[k], v);
    hide Scan, UnderMutex, ThreadOk, IsRun;
  }

  /** No block is ever freed without being out, or freed twice. */
  lemma NoDoubleFree(run: seq<State>, steps: seq<Step>, k: nat, v: Vid)
    requires IsRun(run, steps) && k < |run| && v in run[k].vms
    ensures var vm := run[k].vms[v];
      && vm.copy.frees <= vm.copy.allocs <= 1
      && vm.ctx.frees <= vm.ctx.allocs <= 1
      && vm.arena.frees <= vm.arena.allocs <= 1
  {
    RunKeepsInv(run, steps, k);
    assert VmOk(run[k], v);
    hide Scan, UnderMutex, ThreadOk;
  }

  /** No use after free: the blocks a thread may touch at its place in the code are out. It works
      with the context everywhere but before it is allocated and after it is freed, and with the
      arena wherever it looks functions up, holds the mutex or publishes. For dispatches this
      takes a destroy that waited for them. */
  lemma NoUseAfterFree(run: seq<State>, steps: seq<Step>, k: nat, t: Tid)
    requires IsRun(run, steps) && k < |run| && t in run[k].pcs && run[k].pcs[t].On().Some?
    requires DispatchPc(run[k].pcs[t]) ==> Quiesced(run, steps, k, run[k].pcs[t].On().value)
    ensures var pc := run[k].pcs[t];
      && pc.On().value in run[k].vms
      && var vm := run[k].vms[pc.On().value];
      && vm.copy == LIVE
      && (!pc.LoadCtx? && !pc.FreeCopy? ==> vm.ctx == LIVE)
      && (pc.Guest() || pc.Critical() || pc.Publish? || Locking(pc) ==> vm.arena == LIVE)
      && (pc.Critical() ==> vm.mutex == Some(t))
  {
    RunKeepsInv(run, steps, k);
    assert ThreadOk(run[k], t);
    var v := run[k].pcs[t].On().value;
    assert VmOk(run[k], v);
    if DispatchPc(run[k].pcs[t]) {
      QuiescedNeverRaces(run, steps, k, v);
    }
    hide Scan, UnderMutex, ThreadOk, IsRun;
  }

  /** While the handle has a context and no close has come, that VM is published and owns exactly
      its buffer copy, its context and its arena. */
  lemma LiveVmOwnsItsBlocks(run: seq<State>, steps: seq<Step>, k: nat)
    requires IsRun(run, steps) && k < |run| && run[k].fs.Some? && run[k].closer.None?
    ensures run[k].fs.value in run[k].vms
    ensures var vm := run[k].vms[run[k].fs.value];
      vm.copy == LIVE && vm.ctx == LIVE && vm.arena == LIVE && vm.owner == Published
  {
    RunKeepsInv(run, steps, k);
    assert VmOk(run[k], run[k].fs.value);
    hide Scan, UnderMutex, ThreadOk;
  }

  /** Whenever a VM's mutex is free, no buffer is mapped into it: every execute unmaps what it
      mapped, on every path. */
  lemma NothingMappedAtRest(run: seq<State>, steps: seq<Step>, k: nat, v: Vid)
    requires IsRun(run, steps) && k < |run| && v in run[k].vms && run[k].vms[v].mutex.None?
    ensures run[k].vms[v].mapped == {}
  {
    RunKeepsInv(run, steps, k);
    assert VmOk(run[k], v);
    hide Scan, UnderMutex, ThreadOk, BlocksFit;
  }

  /** Conservation. When the close has been served and no thread is left in the driver, every
      VM ever created has been destroyed: each of its blocks was freed as often as it was
      allocated, which is once, and its mutex is free. If its callbacks were over when it was
      destroyed, it was announced and destroyed exactly once, or never announced. */
  lemma EverythingReturned(run: seq<State>, steps: seq<Step>, k: nat, v: Vid)
    requires IsRun(run, steps) && k < |run| && run[k].closer.Some?
    requires forall t :: t in run[k].pcs ==> run[k].pcs[t].Done?
    requires v in run[k].vms
    ensures var vm := run[k].vms[v];
      vm.copy == RETURNED && Over(vm.ctx) && Over(vm.arena) && vm.mutex.None? && vm.mapped == {}
    ensures Quiesced(run, steps, k, v) ==>
      var trace := run[k].vms[v].trace;
      && (Scan(trace) == Gone || Scan(trace) == Dropped)
      && (AnnouncedAndDestroyed(trace) || forall i :: 0 <= i < |trace| ==> trace[i].kind.Free?)
  {
    var s := run[k];
    RunKeepsInv(run, steps, k);
    assert VmOk(s, v);
    if Quiesced(run, steps, k, v) {
      QuiescedNeverRaces(run, steps, k, v);
    }
    hide Scan, UnderMutex, ThreadOk, IsRun, Quiesced;
    assert forall t :: t in s.pcs ==> s.pcs[t].On() == None;
    assert s.vms[v].owner == Nobody;
    if s.vms[v].parting != Raced {
      FinishedShape(s.vms[v].trace);
    }
  }
}
