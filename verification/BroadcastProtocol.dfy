/** The reader-writer protocol around a callback list: any number of threads broadcast, add and
    remove, one visited callback at a time. */
module BroadcastProtocol {
  import opened Machine
  import opened ListEntry
  import opened CallbackList

  type Tid = nat

  /** A node of the list: its address, which is its cookie, and the registered function. */
  datatype Reg = Reg(cookie: nat, callback: Callback)

  datatype Kind = StatusKind | VoidKind

  /** A broadcast under way: what was registered when it took the lock, the node its iterator
      stands on (none at end()), what it has called and what that returned. */
  datatype Walk = Walk(kind: Kind, start: seq<Reg>, it: Option<nat>, seen: seq<(Reg, int)>, stopped: bool)

  datatype State = State(
    regs: seq<Reg>, next: nat, writer: Option<Tid>, walks: map<Tid, Walk>)

  datatype Step =
    | AcquireShared(t: Tid, kind: Kind)
    | Visit(t: Tid, status: int)
    | ReleaseShared(t: Tid)
    | AcquireExclusive(t: Tid)
    | Add(t: Tid, callback: Callback, granted: bool)
    | Remove(t: Tid, cookie: nat)
    | ReleaseExclusive(t: Tid)

  ghost predicate Init(s: State)
  {
    s == State([], 0, None, map[])
  }

  /** Where the node of that cookie is; |regs| when there is none. */
  function IndexOf(regs: seq<Reg>, cookie: nat): (i: nat)
    ensures i <= |regs|
    ensures i < |regs| ==> regs[i].cookie == cookie
    ensures forall j :: 0 <= j < i ==> regs[j].cookie != cookie
  {
    if regs == [] then 0 else if regs[0].cookie == cookie then 0 else 1 + IndexOf(regs[1..], cookie)
  }

  /** What an iterator on index i holds. */
  function Iterator(regs: seq<Reg>, i: nat): Option<nat>
  {
    if i < |regs| then Some(regs[i].cookie) else None
  }

  ghost predicate Enabled(s: State, l: Step)
  {
    match l
    case AcquireShared(t, _) => s.writer.None? && t !in s.walks
    case Visit(t, _) =>
      t in s.walks && s.walks[t].it.Some? && !s.walks[t].stopped && IndexOf(s.regs, s.walks[t].it.value) < |s.regs|
    case ReleaseShared(t) => t in s.walks && (s.walks[t].it.None? || s.walks[t].stopped)
    case AcquireExclusive(t) => s.writer.None? && s.walks == map[]
    case Add(t, _, _) => s.writer == Some(t)
    case Remove(t, cookie) => s.writer == Some(t) && IndexOf(s.regs, cookie) < |s.regs|
    case ReleaseExclusive(t) => s.writer == Some(t)
  }

  /** The walk after calling the callback its iterator stands on. */
  function VisitWalk(regs: seq<Reg>, w: Walk, status: int): Walk
    requires w.it.Some? && IndexOf(regs, w.it.value) < |regs|
  {
    var i := IndexOf(regs, w.it.value);
    var seen := w.seen + [(regs[i], status)];
    if w.kind.StatusKind? && !NtSuccess(status) then w.(seen := seen, stopped := true)
    else w.(seen := seen, it := Iterator(regs, i + 1))
  }

  ghost function Next(s: State, l: Step): State
    requires Enabled(s, l)
  {
    match l
    case AcquireShared(t, kind) => s.(walks := s.walks[t := Walk(kind, s.regs, Iterator(s.regs, 0), [], false)])
    case Visit(t, status) => s.(walks := s.walks[t := VisitWalk(s.regs, s.walks[t], status)])
    case ReleaseShared(t) => s.(walks := s.walks - {t})
    case AcquireExclusive(t) => s.(writer := Some(t))
    case Add(t, callback, granted) =>
      if granted then s.(regs := [Reg(s.next, callback)] + s.regs, next := s.next + 1) else s
    case Remove(t, cookie) => s.(regs := Removed(s.regs, IndexOf(s.regs, cookie)))
    case ReleaseExclusive(t) => s.(writer := None)
  }

  /** A run of the protocol from the initial state. */
  ghost predicate IsRun(run: seq<State>, steps: seq<Step>)
  {
    && |run| == |steps| + 1 && Init(run[0])
    && forall i :: 0 <= i < |steps| ==> Enabled(run[i], steps[i]) && run[i + 1] == Next(run[i], steps[i])
  }

  /** The walk has called exactly the first |seen| registrations it started from, in order, and
      has stopped exactly if it is a status broadcast whose last call failed. */
  ghost predicate Faithful(w: Walk)
  {
    && |w.seen| <= |w.start|
    && (forall i :: 0 <= i < |w.seen| ==> w.seen[i].0 == w.start[i])
    && (forall i :: 0 <= i < |w.seen| - 1 ==> w.kind.StatusKind? ==> NtSuccess(w.seen[i].1))
    && (w.stopped <==> w.kind.StatusKind? && w.seen != [] && !NtSuccess(w.seen[|w.seen| - 1].1))
  }

  /** Over: it called everything, or it stopped at a failure. */
  ghost predicate Complete(w: Walk)
  {
    Faithful(w) && (w.stopped || |w.seen| == |w.start|)
  }

  /** Newest first: cookies are given out in increasing order. */
  ghost predicate NewestFirst(regs: seq<Reg>)
  {
    forall i, j :: 0 <= i < j < |regs| ==> regs[i].cookie > regs[j].cookie
  }

  ghost predicate CookiesOk(s: State)
  {
    && (forall i :: 0 <= i < |s.regs| ==> s.regs[i].cookie < s.next)
    && NewestFirst(s.regs)
  }

  ghost predicate WalkOk(s: State, t: Tid)
  {
    t in s.walks ==>
      var w := s.walks[t];
      w.start == s.regs && Faithful(w) && (!w.stopped ==> w.it == Iterator(s.regs, |w.seen|))
  }

  ghost predicate Inv(s: State)
  {
    && CookiesOk(s)
    && (s.writer.Some? ==> s.walks == map[])
    && (forall t :: WalkOk(s, t))
  }

  lemma VisitOk(s: State, t: Tid, status: int)
    requires CookiesOk(s) && WalkOk(s, t) && Enabled(s, Visit(t, status))
    ensures WalkOk(Next(s, Visit(t, status)), t)
  {
    var w := s.walks[t];
    var n := |w.seen|;
    assert n < |s.regs| && IndexOf(s.regs, w.it.value) == n;
  }

  lemma WriterStepOk(s: State, l: Step)
    requires Inv(s) && Enabled(s, l) && (l.Add? || l.Remove?)
    ensures Inv(Next(s, l))
  {
  }

  lemma StepKeepsInv(s: State, l: Step)
    requires Inv(s) && Enabled(s, l)
    ensures Inv(Next(s, l))
  {
    hide Faithful, CookiesOk;
    var s' := Next(s, l);
    match l {
      case AcquireShared(t, kind) =>
        FreshWalk(s, t, kind);
        forall u ensures WalkOk(s', u) {
          assert WalkOk(s, u);
        }
        SameRegs(s, s');
      case Visit(t, status) =>
        VisitOk(s, t, status);
        forall u ensures WalkOk(s', u) {
          assert WalkOk(s, u);
        }
        SameRegs(s, s');
      case ReleaseShared(t) =>
        SameRegs(s, s');
        forall u ensures WalkOk(s', u) {
          assert WalkOk(s, u);
        }
      case Add(_, _, _) => WriterStepOk(s, l);
      case Remove(_, _) => WriterStepOk(s, l);
      case AcquireExclusive(_) => SameRegs(s, s');
      case ReleaseExclusive(_) =>
        SameRegs(s, s');
        forall u ensures WalkOk(s', u) {
          assert WalkOk(s, u);
        }
    }
  }

  lemma SameRegs(s: State, s': State)
    requires CookiesOk(s) && s'.regs == s.regs && s'.next == s.next
    ensures CookiesOk(s')
  {
  }

  lemma FreshWalk(s: State, t: Tid, kind: Kind)
    ensures Faithful(Walk(kind, s.regs, Iterator(s.regs, 0), [], false))
  {
  }

  lemma {:induction false} RunKeepsInv(run: seq<State>, steps: seq<Step>, k: nat)
    requires IsRun(run, steps) && k < |run|
    ensures Inv(run[k])
  {
    if k > 0 {
      RunKeepsInv(run, steps, k - 1);
      StepKeepsInv(run[k - 1], steps[k - 1]);
    }
  }

  /** While a broadcast holds the lock no add or remove interleaves: from the state in which it
      took the lock to any later one in which it still holds it, the list does not change. */
  lemma {:induction false} ListFixedDuringBroadcast(run: seq<State>, steps: seq<Step>, t: Tid, i: nat, j: nat)
    requires IsRun(run, steps) && i <= j < |run|
    requires forall k :: i <= k <= j ==> t in run[k].walks
    ensures forall k :: i <= k <= j ==> run[k].regs == run[i].regs && run[k].walks[t].start == run[i].regs
  {
    RunKeepsInv(run, steps, i);
    assert WalkOk(run[i], t);
    if i < j {
      ListFixedDuringBroadcast(run, steps, t, i, j - 1);
      RunKeepsInv(run, steps, j - 1);
      RunKeepsInv(run, steps, j);
      assert WalkOk(run[j], t);
      assert run[j] == Next(run[j - 1], steps[j - 1]);
    }
  }

  // ---- Which registrations the list holds ----

  /** Step i registered r. */
  ghost predicate Registers(run: seq<State>, steps: seq<Step>, i: nat, r: Reg)
    requires i < |steps| < |run|
  {
    steps[i].Add? && steps[i].granted && r == Reg(run[i].next, steps[i].callback)
  }

  predicate Unregisters(l: Step, r: Reg) { l.Remove? && l.cookie == r.cookie }

  /** Before moment k, r was registered and has not been removed since. */
  ghost predicate Live(run: seq<State>, steps: seq<Step>, k: nat, r: Reg)
    requires k <= |steps| < |run|
  {
    exists i: nat :: i < k && Registers(run, steps, i, r) && forall j :: i < j < k ==> !Unregisters(steps[j], r)
  }

  lemma LiveStep(run: seq<State>, steps: seq<Step>, k: nat, r: Reg)
    requires 0 < k <= |steps| < |run|
    ensures Live(run, steps, k, r) <==>
      Registers(run, steps, k - 1, r) || (Live(run, steps, k - 1, r) && !Unregisters(steps[k - 1], r))
  {
    hide Registers, Unregisters;
    if Live(run, steps, k - 1, r) && !Unregisters(steps[k - 1], r) {
      var i: nat :| i < k - 1 && Registers(run, steps, i, r) && forall j :: i < j < k - 1 ==> !Unregisters(steps[j], r);
      assert forall j :: i < j < k ==> !Unregisters(steps[j], r);
    }
  }

  /** One step's effect on membership. */
  lemma MemberStep(s: State, l: Step, r: Reg)
    requires CookiesOk(s) && Enabled(s, l)
    ensures r in Next(s, l).regs <==>
      (l.Add? && l.granted && r == Reg(s.next, l.callback)) || (r in s.regs && !Unregisters(l, r))
  {
    if l.Remove? {
      var n := IndexOf(s.regs, l.cookie);
      assert forall m :: 0 <= m < |s.regs| && m != n ==> s.regs[m].cookie != l.cookie;
      var rest := Removed(s.regs, n);
      if r in s.regs && r.cookie != l.cookie {
        var m :| 0 <= m < |s.regs| && s.regs[m] == r;
        assert r == rest[if m < n then m else m - 1];
      }
    }
  }

  /** Over every run: the list holds exactly the registrations that were granted and not removed
      since, newest first. */
  lemma {:induction false} ListHoldsLive(run: seq<State>, steps: seq<Step>, k: nat, r: Reg)
    requires IsRun(run, steps) && k < |run|
    ensures NewestFirst(run[k].regs)
    ensures r in run[k].regs <==> Live(run, steps, k, r)
  {
    RunKeepsInv(run, steps, k);
    if k > 0 {
      ListHoldsLive(run, steps, k - 1, r);
      RunKeepsInv(run, steps, k - 1);
      LiveStep(run, steps, k, r);
      assert Enabled(run[k - 1], steps[k - 1]) && run[k] == Next(run[k - 1], steps[k - 1]);
      hide Next, Enabled, Live, IsRun, NewestFirst;
      MemberStep(run[k - 1], steps[k - 1], r);
    }
  }

  /** Over every run: a broadcast that takes the lock at step i and releases it at step j has
      called exactly the registrations live at i, newest first, or a prefix of them that ends
      in the first failure; and the list was the same all along. */
  lemma BroadcastExact(run: seq<State>, steps: seq<Step>, t: Tid, i: nat, j: nat)
    requires IsRun(run, steps) && i < j < |steps|
    requires steps[i].AcquireShared? && steps[i].t == t && steps[j] == ReleaseShared(t)
    requires forall k :: i < k < j ==> steps[k] != ReleaseShared(t)
    ensures t in run[j].walks && run[j].walks[t].start == run[i].regs && run[j].walks[t].kind == steps[i].kind
    ensures Complete(run[j].walks[t])
    ensures NewestFirst(run[i].regs) && forall r :: r in run[i].regs <==> Live(run, steps, i, r)
    ensures forall k :: i <= k <= j + 1 ==> run[k].regs == run[i].regs
  {
    StillWalking(run, steps, t, i, j);
    ListFixedDuringBroadcast(run, steps, t, i + 1, j);
    RunKeepsInv(run, steps, j);
    assert WalkOk(run[j], t);
    assert run[i + 1] == Next(run[i], steps[i]) && run[j + 1] == Next(run[j], steps[j]);
    forall r ensures NewestFirst(run[i].regs) && (r in run[i].regs <==> Live(run, steps, i, r)) {
      ListHoldsLive(run, steps, i, r);
    }
  }

  lemma {:induction false} StillWalking(run: seq<State>, steps: seq<Step>, t: Tid, i: nat, j: nat)
    requires IsRun(run, steps) && i < j <= |steps|
    requires steps[i].AcquireShared? && steps[i].t == t
    requires forall k :: i < k < j ==> steps[k] != ReleaseShared(t)
    ensures forall k :: i < k <= j ==> t in run[k].walks && run[k].walks[t].kind == steps[i].kind
  {
    assert run[j] == Next(run[j - 1], steps[j - 1]);
    if i + 1 < j {
      StillWalking(run, steps, t, i, j - 1);
    }
  }

  /** The iterator of a broadcast never dangles: as long as it is not at end(), the node it stands
      on is in the list, so the next visit is always possible. */
  lemma IteratorNeverDangles(run: seq<State>, steps: seq<Step>, k: nat, t: Tid, status: int)
    requires IsRun(run, steps) && k < |run| && t in run[k].walks
    requires run[k].walks[t].it.Some? && !run[k].walks[t].stopped
    ensures Enabled(run[k], Visit(t, status))
  {
    RunKeepsInv(run, steps, k);
    assert WalkOk(run[k], t);
    var n := |run[k].walks[t].seen|;
    assert run[k].regs[n].cookie == run[k].walks[t].it.value;
  }

  /** Removing one cookie leaves every other registration where it was relative to the rest. */
  lemma RemoveKeepsOthers(s: State, t: Tid, cookie: nat, i: nat)
    requires Inv(s) && Enabled(s, Remove(t, cookie))
    requires i < |s.regs| && s.regs[i].cookie != cookie
    ensures var s' := Next(s, Remove(t, cookie));
      && IndexOf(s'.regs, s.regs[i].cookie) < |s'.regs|
      && s'.regs[IndexOf(s'.regs, s.regs[i].cookie)] == s.regs[i]
      && IndexOf(s'.regs, cookie) == |s'.regs|
  {
    var s' := Next(s, Remove(t, cookie));
    var k := IndexOf(s.regs, cookie);
    var j := if i < k then i else i - 1;
    assert s'.regs[j] == s.regs[i];
  }

  // ---- A run with two broadcasts at once ----

  lemma Extend(run: seq<State>, steps: seq<Step>, l: Step) returns (run': seq<State>, steps': seq<Step>)
    requires IsRun(run, steps) && Enabled(run[|steps|], l)
    ensures IsRun(run', steps') && steps' == steps + [l] && run'[|steps'|] == Next(run[|steps|], l)
  {
    run', steps' := run + [Next(run[|steps|], l)], steps + [l];
  }

  /** Two registrations. */
  lemma TwoRegistered() returns (run: seq<State>, steps: seq<Step>)
    ensures IsRun(run, steps) && run[|steps|] == State([Reg(1, 8), Reg(0, 7)], 2, None, map[])
  {
    run, steps := [State([], 0, None, map[])], [];
    assert IsRun(run, steps);
    hide IsRun;
    run, steps := Extend(run, steps, AcquireExclusive(0));
    run, steps := Extend(run, steps, Add(0, 7, true));
    run, steps := Extend(run, steps, Add(0, 8, true));
    run, steps := Extend(run, steps, ReleaseExclusive(0));
  }

  /** A status broadcast stops at the first, which fails, while a void broadcast that runs at the
      same time calls both. */
  lemma TwoBroadcasts() returns (run: seq<State>, steps: seq<Step>)
    ensures IsRun(run, steps) && 1 in run[|steps|].walks && 2 in run[|steps|].walks
    ensures run[|steps|].walks[1].seen == [(Reg(1, 8), -1)] && run[|steps|].walks[1].stopped
    ensures run[|steps|].walks[2].seen == [(Reg(1, 8), 0), (Reg(0, 7), 0)] && run[|steps|].walks[2].it.None?
  {
    run, steps := TwoRegistered();
    hide IsRun;
    run, steps := Extend(run, steps, AcquireShared(1, StatusKind));
    run, steps := Extend(run, steps, AcquireShared(2, VoidKind));
    run, steps := Extend(run, steps, Visit(2, 0));
    run, steps := Extend(run, steps, Visit(1, -1));
    run, steps := Extend(run, steps, Visit(2, 0));
  }
}
