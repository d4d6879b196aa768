/** Module code that calls back into the driver on its own thread: the invoke native takes any
    address, also that of a callback slot. The dispatch it starts is one of the handle protocol's
    dispatches, under a name of its own; what is added here is that the invoking thread stands
    still until that dispatch returns. */
module Reentry {
  import opened Machine
  import opened VmTrace
  import opened Lifecycle
  import opened LifecycleInv
  import opened LifecycleProof

  /** inside[u] == t: thread t issued dispatch u from the module code it was running. */
  datatype Nested = Nested(s: State, inside: map<Tid, Tid>)

  datatype NStep =
    | Plain(l: Step)
    | Invoke(t: Tid, u: Tid, v: Vid)  // t's module code invokes a callback of v, as dispatch u

  /** Dispatch u was issued by t and has not returned. */
  ghost predicate Callee(n: Nested, t: Tid, u: Tid)
  {
    u in n.inside && n.inside[u] == t && u in n.s.pcs && !n.s.pcs[u].Done?
  }

  /** t waits for a callback it invoked. */
  ghost predicate Calling(n: Nested, t: Tid)
  {
    exists u :: Callee(n, t, u)
  }

  ghost predicate NEnabled(n: Nested, l: NStep)
  {
    match l
    case Plain(l) => Enabled(n.s, l) && (l.Go? ==> !Calling(n, l.t))
    case Invoke(t, u, v) =>
      && Enabled(n.s, StartDispatch(u, v))
      && t in n.s.pcs && n.s.pcs[t].CallBody? && !Calling(n, t)
  }

  /** The step of the handle protocol it is. */
  function Under(l: NStep): Step
  {
    match l
    case Plain(l) => l
    case Invoke(_, u, v) => StartDispatch(u, v)
  }

  ghost function NNext(n: Nested, l: NStep): Nested
    requires NEnabled(n, l)
  {
    Nested(Next(n.s, Under(l)), if l.Invoke? then n.inside[l.u := l.t] else n.inside)
  }

  ghost predicate IsPath(path: seq<Nested>, steps: seq<NStep>)
  {
    && |path| == |steps| + 1
    && forall i :: 0 <= i < |steps| ==> NEnabled(path[i], steps[i]) && path[i + 1] == NNext(path[i], steps[i])
  }

  ghost predicate IsNestedRun(run: seq<Nested>, steps: seq<NStep>)
  {
    IsPath(run, steps) && Lifecycle.Init(run[0].s) && run[0].inside == map[]
  }

  // ---- Nested runs are runs ----

  ghost function States(run: seq<Nested>): (r: seq<State>)
    ensures |r| == |run| && forall i :: 0 <= i < |r| ==> r[i] == run[i].s
  {
    seq(|run|, i requires 0 <= i < |run| => run[i].s)
  }

  function Steps(steps: seq<NStep>): (r: seq<Step>)
    ensures |r| == |steps| && forall i :: 0 <= i < |r| ==> r[i] == Under(steps[i])
  {
    seq(|steps|, i requires 0 <= i < |steps| => Under(steps[i]))
  }

  /** Every nested run is a run of the handle protocol, so whatever holds of all of those holds
      with re-entry. */
  lemma NestedRunIsRun(run: seq<Nested>, steps: seq<NStep>)
    requires IsNestedRun(run, steps)
    ensures IsRun(States(run), Steps(steps))
  {
    hide Enabled, Next;
  }

  // ---- What every step keeps ----

  /** A dispatch that has not returned keeps the thread that issued it in the module's code. */
  ghost predicate InsideOk(n: Nested, u: Tid)
  {
    u in n.inside ==>
      && u in n.s.pcs && n.inside[u] in n.s.pcs && n.inside[u] != u
      && (n.s.pcs[u].Done? || (DispatchPc(n.s.pcs[u]) && n.s.pcs[n.inside[u]].CallBody?))
  }

  /** A thread waits for one dispatch at a time. */
  ghost predicate OneCallee(n: Nested)
  {
    forall t, u, w :: Callee(n, t, u) && Callee(n, t, w) ==> u == w
  }

  ghost predicate NInv(n: Nested)
  {
    Inv(n.s) && OneCallee(n) && forall u :: InsideOk(n, u)
  }

  /** A dispatch goes on as a dispatch until it is done. */
  lemma DispatchStaysOne(s: State, t: Tid, c: Choice)
    requires Enabled(s, Go(t, c)) && DispatchPc(s.pcs[t])
    ensures var pc := Next(s, Go(t, c)).pcs[t]; pc.Done? || DispatchPc(pc)
  {
    hide CallbacksOver, Tell;
  }

  lemma StartPlaces(s: State, l: Step)
    requires Enabled(s, l) && !l.Go?
    ensures l.t !in s.pcs && !Next(s, l).pcs[l.t].Done?
    ensures l.StartDispatch? ==> DispatchPc(Next(s, l).pcs[l.t])
  {
  }

  lemma StepKeepsNInv(n: Nested, l: NStep)
    requires NInv(n) && NEnabled(n, l)
    ensures NInv(NNext(n, l))
  {
    var n' := NNext(n, l);
    var x := Under(l).t;
    StepKeepsInv(n.s, Under(l));
    if !Under(l).Go? { StartPlaces(n.s, Under(l)); }
    hide Inv, Next, Enabled, DispatchPc;
    forall u ensures InsideOk(n', u) {
      assert InsideOk(n, u);
      MovesOneOf(n.s, Under(l), x, u);
      if u in n.inside { MovesOneOf(n.s, Under(l), x, n.inside[u]); }
      if u == x && Under(l).Go? && u in n.inside && !n.s.pcs[u].Done? {
        DispatchStaysOne(n.s, x, Under(l).c);
      }
      if u in n.inside && n.inside[u] == x && Under(l).Go? {
        assert n.s.pcs[u].Done? || Callee(n, x, u);
      }
      if l.Invoke? { MovesOneOf(n.s, Under(l), x, l.t); }
    }
    forall t, u, w | Callee(n', t, u) && Callee(n', t, w) ensures u == w {
      CalleeBefore(n, l, t, u);
      CalleeBefore(n, l, t, w);
    }
  }

  lemma MovesOneOf(s: State, l: Step, x: Tid, u: Tid)
    requires Enabled(s, l) && x == l.t
    ensures l.t in Next(s, l).pcs
    ensures u != x ==> (u in Next(s, l).pcs <==> u in s.pcs) && (u in s.pcs ==> Next(s, l).pcs[u] == s.pcs[u])
    ensures l.Go? ==> x in s.pcs && !s.pcs[x].Done?
  {
    if u != x { MovesOne(s, l, u); } else { MovesOne(s, l, x + 1); }
  }

  /** Who waits for whom after a step waited for it before, unless the step is that invoke. */
  lemma CalleeBefore(n: Nested, l: NStep, t: Tid, u: Tid)
    requires NInv(n) && NEnabled(n, l) && Callee(NNext(n, l), t, u)
    ensures Callee(n, t, u) || (l.Invoke? && l.t == t && l.u == u)
    ensures l.Invoke? && l.t == t ==> !Callee(n, t, u)
  {
    assert InsideOk(n, u);
    MovesOneOf(n.s, Under(l), Under(l).t, u);
    hide Inv, Next, Enabled;
  }

  lemma {:induction false} PathKeepsNInv(path: seq<Nested>, steps: seq<NStep>, k: nat)
    requires IsPath(path, steps) && k < |path| && NInv(path[0])
    ensures NInv(path[k])
  {
    if k > 0 {
      PathKeepsNInv(path, steps, k - 1);
      hide NInv, NNext, NEnabled;
      StepKeepsNInv(path[k - 1], steps[k - 1]);
    }
  }

  lemma RunKeepsNInv(run: seq<Nested>, steps: seq<NStep>, k: nat)
    requires IsNestedRun(run, steps) && k < |run|
    ensures NInv(run[k])
  {
    PathKeepsNInv(run, steps, k);
  }

  // ---- What holds a thread up ----

  /** The thread t stands still for: the callback it invoked, or the holder of the mutex it is
      about to take. */
  ghost function Blocker(n: Nested, t: Tid): Option<Tid>
  {
    if Calling(n, t) then (var u :| Callee(n, t, u); Some(u))
    else if Waits(n.s, t) then n.s.vms[n.s.pcs[t].v].mutex
    else None
  }

  lemma BlockerIs(n: Nested, t: Tid)
    requires NInv(n)
    ensures forall u: Tid :: Callee(n, t, u) ==> Blocker(n, t) == Some(u)
    ensures !Calling(n, t) ==>
      Blocker(n, t) == if Waits(n.s, t) then n.s.vms[n.s.pcs[t].v].mutex else None
  {
    hide Inv;
  }

  /** A thread that is waited for is in the driver. */
  lemma BlockerAlive(n: Nested, t: Tid)
    requires NInv(n) && Blocker(n, t).Some?
    ensures var b := Blocker(n, t).value; b in n.s.pcs && !n.s.pcs[b].Done?
    ensures t in n.s.pcs && !n.s.pcs[t].Done? && (n.s.pcs[t].CallBody? || Locking(n.s.pcs[t]))
  {
    if Calling(n, t) {
      var u :| Callee(n, t, u);
      assert InsideOk(n, u);
      BlockerIs(n, t);
    } else {
      HolderInside(n.s, n.s.pcs[t].v);
    }
    hide Inv;
  }

  /** A thread in the driver can take its next step if and only if the machine has not stopped,
      no callback it invoked is under way, and it does not wait for a mutex that another holds. */
  lemma CanStepIff(n: Nested, t: Tid, c: Choice)
    requires NInv(n) && t in n.s.pcs && !n.s.pcs[t].Done?
    ensures NEnabled(n, Plain(Go(t, c))) <==> !n.s.halted && Blocker(n, t).None?
  {
    StepsUnlessWaiting(n.s, t, c);
    hide Inv, Enabled;
  }

  /** Whoever holds a VM's mutex can take its next step if and only if no callback it invoked is
      under way. */
  lemma MutexHolderSteps(run: seq<Nested>, steps: seq<NStep>, k: nat, v: Vid, c: Choice)
    requires IsNestedRun(run, steps) && k < |run| && !run[k].s.halted
    requires v in run[k].s.vms && run[k].s.vms[v].mutex.Some?
    ensures var h := run[k].s.vms[v].mutex.value;
      NEnabled(run[k], Plain(Go(h, c))) <==> !Calling(run[k], h)
  {
    RunKeepsNInv(run, steps, k);
    HolderInside(run[k].s, v);
    CanStepIff(run[k], run[k].s.vms[v].mutex.value, c);
    hide NInv, Enabled, IsNestedRun;
  }
}
