/** What a load reports: success exactly when its VM became the handle's context. */
module LifecycleStatus {
  import opened Machine
  import opened VmTrace
  import opened Lifecycle
  import opened LifecycleInv
  import opened LifecycleProof

  /** Places on the way to a report of failure. */
  predicate Ending(pc: Pc)
  {
    pc.EndLock? || pc.EndTell? || pc.EndUnlock? || pc.FreeArena? || pc.FreeCtx? || pc.FreeCopy?
  }

  /** A load that got as far as a VM of its own. */
  ghost predicate LoadOk(s: State, t: Tid)
  {
    t in s.vms ==>
      && t in s.pcs
      && var pc := s.pcs[t];
      && (pc.Done? ==> (pc.ok <==> s.fs == Some(t)))
      && (!pc.Done? ==> s.fs != Some(t) && pc.Owns() && pc.On() == Some(t))
      && (Ending(pc) ==> !pc.ok)
  }

  ghost predicate AllLoadsOk(s: State)
  {
    forall t :: LoadOk(s, t)
  }

  /** The thread's own step on its own VM never turns a failure into a success. */
  lemma OwnStep(t: Tid, pc: Pc, vm: Vm, c: Choice, race: bool)
    requires pc.On() == Some(t) && pc.Owns() && !pc.Publish? && (Ending(pc) ==> !pc.ok)
    ensures var pc' := OnVm(t, pc, vm, c, race).1;
      && (pc'.Done? ==> !pc'.ok)
      && (!pc'.Done? ==> pc'.Owns() && pc'.On() == Some(t))
      && (Ending(pc') ==> !pc'.ok)
  {
    hide Tell, Allocated, Freed;
  }

  lemma VmStepLoad(s: State, t: Tid, c: Choice, u: Tid)
    requires Inv(s) && AllLoadsOk(s) && Enabled(s, Go(t, c)) && s.pcs[t].On().Some? && !s.pcs[t].Publish?
    ensures LoadOk(VmStep(s, t, c), u)
  {
    assert LoadOk(s, u) && LoadOk(s, t);
    assert ThreadOk(s, t);
    var v := s.pcs[t].On().value;
    if u == t && t in s.vms {
      OwnStep(t, s.pcs[t], s.vms[v], c, !CallbacksOver(s, v));
    }
    hide OnVm, Inv, Pc.On, Pc.Guest, Ending;
  }

  lemma PublishLoad(s: State, t: Tid, u: Tid)
    requires Inv(s) && AllLoadsOk(s) && t in s.pcs && s.pcs[t].Publish? && s.pcs[t].v in s.vms
    ensures LoadOk(PublishStep(s, t), u)
  {
    assert LoadOk(s, u) && LoadOk(s, t) && ThreadOk(s, t);
    hide Inv, AllLoadsOk;
  }

  lemma HandleLoad(s: State, t: Tid, c: Choice, u: Tid)
    requires Inv(s) && AllLoadsOk(s) && Enabled(s, Go(t, c)) && s.pcs[t].On().None?
    ensures LoadOk(HandleStep(s, t, c), u)
  {
    assert LoadOk(s, u) && LoadOk(s, t) && ThreadOk(s, t) && HandleOk(s);
    hide Inv, AllLoadsOk;
  }

  lemma StartLoadOk(s: State, l: Step, u: Tid)
    requires Inv(s) && AllLoadsOk(s) && Enabled(s, l) && !l.Go?
    ensures LoadOk(Next(s, l), u)
  {
    assert LoadOk(s, u) && LoadOk(s, l.t);
    hide Inv, AllLoadsOk, OnVm;
  }

  lemma StepKeepsLoads(s: State, l: Step)
    requires Inv(s) && AllLoadsOk(s) && Enabled(s, l)
    ensures AllLoadsOk(Next(s, l))
  {
    forall u ensures LoadOk(Next(s, l), u) {
      hide Inv, AllLoadsOk, LoadOk, OnVm;
      if !l.Go? {
        StartLoadOk(s, l, u);
      } else if s.pcs[l.t].Publish? {
        PublishLoad(s, l.t, u);
      } else if s.pcs[l.t].On().Some? {
        VmStepLoad(s, l.t, l.c, u);
      } else {
        HandleLoad(s, l.t, l.c, u);
      }
    }
  }

  lemma {:induction false} RunKeepsLoads(run: seq<State>, steps: seq<Step>, k: nat)
    requires IsRun(run, steps) && k < |run|
    ensures AllLoadsOk(run[k])
  {
    if k > 0 {
      RunKeepsLoads(run, steps, k - 1);
      RunKeepsInv(run, steps, k - 1);
      hide Inv, Next, Enabled, AllLoadsOk;
      StepKeepsLoads(run[k - 1], steps[k - 1]);
    }
  }

  /** Over every run: a load that created a VM reports success if and only if that VM is the
      handle's context; and at most one load ever does. */
  lemma LoadSucceedsIffPublished(run: seq<State>, steps: seq<Step>, k: nat, t: Tid)
    requires IsRun(run, steps) && k < |run| && t in run[k].vms && t in run[k].pcs && run[k].pcs[t].Done?
    ensures run[k].pcs[t].ok <==> run[k].fs == Some(t)
  {
    RunKeepsLoads(run, steps, k);
    assert LoadOk(run[k], t);
  }
}
