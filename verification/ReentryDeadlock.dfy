/** When threads that call back into the driver hang: following who waits for whom, exactly when
    that never ends. The mutex of a VM is not recursive. */
module ReentryDeadlock {
  import opened Machine
  import opened VmTrace
  import opened Lifecycle
  import opened LifecycleInv
  import opened LifecycleProof
  import opened LifecycleRace
  import opened Reentry

  // ---- Who waits for whom ----

  /** The thread reached from t after k times asking who is in the way. */
  ghost function Follow(n: Nested, t: Tid, k: nat): Option<Tid>
  {
    if k == 0 then Some(t)
    else if Follow(n, t, k - 1).None? then None
    else Blocker(n, Follow(n, t, k - 1).value)
  }

  /** The chain from t comes back to a thread it has passed. */
  ghost predicate Loops(n: Nested, t: Tid)
  {
    exists i: nat, j: nat :: i < j && Follow(n, t, i).Some? && Follow(n, t, i) == Follow(n, t, j)
  }

  /** The chain from t leads to a thread in whose way nobody is. */
  ghost predicate Ends(n: Nested, t: Tid, k: nat)
  {
    Follow(n, t, k).Some? && Blocker(n, Follow(n, t, k).value).None?
  }

  lemma {:induction false} FollowSome(n: Nested, t: Tid, i: nat, j: nat)
    requires i <= j && Follow(n, t, j).Some?
    ensures Follow(n, t, i).Some?
    decreases j
  {
    if i < j {
      FollowSome(n, t, i, j - 1);
    }
  }

  lemma {:induction false} FollowShift(n: Nested, t: Tid, i: nat, m: nat)
    requires Follow(n, t, i).Some?
    ensures Follow(n, t, i + m) == Follow(n, Follow(n, t, i).value, m)
  {
    if m > 0 {
      FollowShift(n, t, i, m - 1);
    }
  }

  /** A chain that comes back never ends. */
  lemma {:induction false} LoopNeverEnds(n: Nested, t: Tid, i: nat, j: nat, k: nat)
    requires i < j && Follow(n, t, i).Some? && Follow(n, t, i) == Follow(n, t, j)
    ensures Follow(n, t, k).Some?
    decreases k
  {
    if k <= j {
      FollowSome(n, t, k, j);
    } else {
      FollowShift(n, t, i, k - j);
      FollowShift(n, t, j, k - j);
      LoopNeverEnds(n, t, i, j, i + (k - j));
    }
  }

  /** The threads the chain has passed. */
  ghost function Passed(n: Nested, t: Tid, k: nat): set<Tid>
  {
    if k == 0 || Follow(n, t, k - 1).None? then {} else Passed(n, t, k - 1) + {Follow(n, t, k - 1).value}
  }

  lemma {:induction false} PassedIs(n: Nested, t: Tid, k: nat, x: Tid)
    requires x in Passed(n, t, k)
    ensures exists i: nat :: i < k && Follow(n, t, i) == Some(x)
  {
    if Follow(n, t, k - 1) != Some(x) {
      PassedIs(n, t, k - 1, x);
    }
  }

  lemma {:induction false} PassedInDriver(n: Nested, t: Tid, k: nat)
    requires NInv(n) && t in n.s.pcs
    ensures Passed(n, t, k) <= n.s.pcs.Keys
  {
    if k > 0 && Follow(n, t, k - 1).Some? {
      PassedInDriver(n, t, k - 1);
      if k > 1 {
        BlockerAlive(n, Follow(n, t, k - 2).value);
      }
      hide NInv, Blocker;
    }
  }

  lemma {:induction false} PassedCount(n: Nested, t: Tid, k: nat)
    requires !Loops(n, t) && (k > 0 ==> Follow(n, t, k - 1).Some?)
    ensures |Passed(n, t, k)| == k
  {
    if k > 0 {
      FollowSome(n, t, if k > 1 then k - 2 else 0, k - 1);
      PassedCount(n, t, k - 1);
      var x := Follow(n, t, k - 1).value;
      if x in Passed(n, t, k - 1) {
        PassedIs(n, t, k - 1, x);
      }
    }
  }

  lemma {:induction false} SubsetSmaller(a: set<Tid>, b: set<Tid>)
    requires a <= b
    ensures |a| <= |b|
  {
    if a != {} {
      var x :| x in a;
      SubsetSmaller(a - {x}, b - {x});
    }
  }

  /** Without a loop the chain gets to its end before the threads run out. */
  lemma {:induction false} ChainEndsAfter(n: Nested, t: Tid, k: nat) returns (m: nat)
    requires NInv(n) && t in n.s.pcs && !Loops(n, t) && Follow(n, t, k).Some? && k < |n.s.pcs.Keys|
    ensures Ends(n, t, m)
    decreases |n.s.pcs.Keys| - k
  {
    hide NInv, Loops, Blocker;
    if Follow(n, t, k + 1).None? {
      m := k;
    } else {
      PassedCount(n, t, k + 2);
      PassedInDriver(n, t, k + 2);
      SubsetSmaller(Passed(n, t, k + 2), n.s.pcs.Keys);
      m := ChainEndsAfter(n, t, k + 1);
    }
  }

  lemma ChainEnds(n: Nested, t: Tid) returns (k: nat)
    requires NInv(n) && t in n.s.pcs && !Loops(n, t)
    ensures Ends(n, t, k)
  {
    assert t in n.s.pcs.Keys;
    hide NInv, Loops, Blocker;
    k := ChainEndsAfter(n, t, 0);
  }

  lemma EndsMeansNoLoop(n: Nested, t: Tid, k: nat)
    requires Ends(n, t, k)
    ensures !Loops(n, t)
  {
    if Loops(n, t) {
      var i: nat, j: nat :| i < j && Follow(n, t, i).Some? && Follow(n, t, i) == Follow(n, t, j);
      LoopNeverEnds(n, t, i, j, k + 1);
      assert false;
    }
  }

  lemma {:induction false} ChainAlive(n: Nested, t: Tid, k: nat)
    requires NInv(n) && t in n.s.pcs && !n.s.pcs[t].Done? && Follow(n, t, k).Some?
    ensures var w := Follow(n, t, k).value; w in n.s.pcs && !n.s.pcs[w].Done?
  {
    if k > 0 {
      BlockerAlive(n, Follow(n, t, k - 1).value);
    }
    hide NInv, Blocker;
  }

  /** Over every nested run: following who is in t's way leads to a thread that can take its next
      step, if and only if it does not come back to a thread it has passed. */
  lemma NoThreadStuck(run: seq<Nested>, steps: seq<NStep>, k: nat, t: Tid, c: Choice)
    requires IsNestedRun(run, steps) && k < |run| && !run[k].s.halted && t in run[k].s.pcs && !run[k].s.pcs[t].Done?
    ensures !Loops(run[k], t) <==>
      exists m: nat :: Follow(run[k], t, m).Some? && NEnabled(run[k], Plain(Go(Follow(run[k], t, m).value, c)))
  {
    RunKeepsNInv(run, steps, k);
    var n := run[k];
    hide NInv, NEnabled, Blocker, IsNestedRun, Loops;
    if !Loops(n, t) {
      var m := ChainEnds(n, t);
      ChainAlive(n, t, m);
      CanStepIff(n, Follow(n, t, m).value, c);
    }
    forall m: nat | Follow(n, t, m).Some? && NEnabled(n, Plain(Go(Follow(n, t, m).value, c))) ensures !Loops(n, t) {
      ChainAlive(n, t, m);
      CanStepIff(n, Follow(n, t, m).value, c);
      EndsMeansNoLoop(n, t, m);
    }
  }

  // ---- A loop lasts ----

  lemma BlockedStaysBlocked(n: Nested, l: NStep, w: Tid)
    requires NInv(n) && NEnabled(n, l) && Blocker(n, w).Some? && Blocker(n, Blocker(n, w).value).Some?
    ensures w in n.s.pcs && w in NNext(n, l).s.pcs && NNext(n, l).s.pcs[w] == n.s.pcs[w]
    ensures Blocker(NNext(n, l), w) == Blocker(n, w)
  {
    var n', b, x := NNext(n, l), Blocker(n, w).value, Under(l).t;
    BlockedDoesNotMove(n, l, w);
    BlockedDoesNotMove(n, l, b);
    StepKeepsNInv(n, l);
    BlockerIs(n', w);
    if Calling(n, w) {
      var u :| Callee(n, w, u);
      BlockerIs(n, w);
      CalleeStays(n, l, w, u);
    } else {
      MutexStays(n.s, Under(l), n.s.pcs[w].v);
      assert Waits(n'.s, w);
      assert !Calling(n', w) by {
        forall u ensures !Callee(n', w, u) {
          assert InsideOk(n', u);
        }
      }
    }
    hide Inv, Next, Enabled;
  }

  /** A thread that something is in the way of does not take the step. */
  lemma BlockedDoesNotMove(n: Nested, l: NStep, w: Tid)
    requires NInv(n) && NEnabled(n, l) && Blocker(n, w).Some?
    ensures w != Under(l).t && w in n.s.pcs && w in NNext(n, l).s.pcs && NNext(n, l).s.pcs[w] == n.s.pcs[w]
    ensures l.Invoke? ==> l.t != w
  {
    BlockerAlive(n, w);
    if Under(l).Go? {
      if Under(l).t == w {
        CanStepIff(n, w, Under(l).c);
      }
    } else {
      StartPlaces(n.s, Under(l));
    }
    hide Inv, Next, Enabled;
    MovesOneOf(n.s, Under(l), Under(l).t, w);
  }

  lemma CalleeStays(n: Nested, l: NStep, w: Tid, u: Tid)
    requires NInv(n) && NEnabled(n, l) && Callee(n, w, u) && u != Under(l).t
    ensures Callee(NNext(n, l), w, u)
  {
    hide Inv, Next, Enabled;
    MovesOneOf(n.s, Under(l), Under(l).t, u);
  }

  lemma {:induction false} FollowStays(n: Nested, l: NStep, t: Tid, k: nat)
    requires NInv(n) && NEnabled(n, l) && Loops(n, t)
    ensures Follow(n, t, k).Some? && Follow(NNext(n, l), t, k) == Follow(n, t, k)
  {
    hide NInv, NNext, NEnabled, Blocker, Loops;
    LoopFollows(n, t, k + 1);
    FollowSome(n, t, k, k + 1);
    if k > 0 {
      FollowStays(n, l, t, k - 1);
      BlockedStaysBlocked(n, l, Follow(n, t, k - 1).value);
    }
  }

  lemma LoopFollows(n: Nested, t: Tid, k: nat)
    requires Loops(n, t)
    ensures Follow(n, t, k).Some?
  {
    var i: nat, j: nat :| i < j && Follow(n, t, i).Some? && Follow(n, t, i) == Follow(n, t, j);
    LoopNeverEnds(n, t, i, j, k);
  }

  /** A thread in or behind a loop does not move, and the loop is still there. */
  lemma LoopLasts(n: Nested, l: NStep, t: Tid)
    requires NInv(n) && NEnabled(n, l) && Loops(n, t)
    ensures Loops(NNext(n, l), t)
    ensures t in n.s.pcs && t in NNext(n, l).s.pcs && NNext(n, l).s.pcs[t] == n.s.pcs[t]
  {
    var i: nat, j: nat :| i < j && Follow(n, t, i).Some? && Follow(n, t, i) == Follow(n, t, j);
    FollowStays(n, l, t, i);
    FollowStays(n, l, t, j);
    LoopFollows(n, t, 1);
    LoopFollows(n, t, 2);
    BlockedStaysBlocked(n, l, t);
    hide NInv, NNext, NEnabled, Blocker;
  }

  lemma {:induction false} LoopLastsOnPath(path: seq<Nested>, steps: seq<NStep>, t: Tid, k: nat)
    requires IsPath(path, steps) && k < |path| && NInv(path[0]) && Loops(path[0], t)
    ensures Loops(path[k], t) && t in path[0].s.pcs && t in path[k].s.pcs && path[k].s.pcs[t] == path[0].s.pcs[t]
  {
    hide NInv, NNext, NEnabled, Loops, Blocker;
    if k > 0 {
      LoopLastsOnPath(path, steps, t, k - 1);
      PathKeepsNInv(path, steps, k - 1);
      LoopLasts(path[k - 1], steps[k - 1], t);
    } else {
      LoopFollows(path[0], t, 1);
      BlockerAlive(path[0], t);
    }
  }

  // ---- Without a loop the way can be cleared ----

  /** Some continuation from n gets to a state in which t can take its next step. */
  ghost predicate MayStep(n: Nested, t: Tid, c: Choice)
  {
    exists path, steps :: IsPath(path, steps) && path[0] == n && NEnabled(path[|steps|], Plain(Go(t, c)))
  }

  lemma Single(n: Nested)
    ensures IsPath([n], [])
  {
  }

  lemma Prepend(n: Nested, l: NStep, path: seq<Nested>, steps: seq<NStep>)
    requires NEnabled(n, l) && IsPath(path, steps) && path[0] == NNext(n, l)
    ensures IsPath([n] + path, [l] + steps)
  {
    hide NEnabled, NNext;
    var p, q := [n] + path, [l] + steps;
    forall i | 0 <= i < |q| ensures NEnabled(p[i], q[i]) && p[i + 1] == NNext(p[i], q[i]) {
      if i > 0 {
        assert p[i] == path[i - 1] && q[i] == steps[i - 1] && p[i + 1] == path[i];
      }
    }
  }

  lemma {:induction false} Concat(a: seq<Nested>, la: seq<NStep>, b: seq<Nested>, lb: seq<NStep>)
    requires IsPath(a, la) && IsPath(b, lb) && b[0] == a[|la|]
    ensures IsPath(a + b[1..], la + lb)
  {
    hide NEnabled, NNext;
    var p, q := a + b[1..], la + lb;
    forall i | 0 <= i < |q| ensures NEnabled(p[i], q[i]) && p[i + 1] == NNext(p[i], q[i]) {
      if i >= |la| {
        assert q[i] == lb[i - |la|] && p[i] == b[i - |la|] && p[i + 1] == b[i - |la| + 1];
      }
    }
  }

  /** How many more steps to the release of the mutex, if everything is granted. */
  function ToRelease(pc: Pc): nat
  {
    match pc
    case CreateTell(_) => 2
    case CreateUnlock(_, _) => 1
    case EndTell(_, _) => 2
    case EndUnlock(_, _) => 1
    case CallLock(_, _) => 10
    case MapIn(_) => 9
    case MapOut(_) => 8
    case CallPre(_, _) => 7
    case CallStart(_, _) => 6
    case CallBody(_, _) => 5
    case CallPost(_, _, _) => 4
    case UnmapOut(_, _) => 3
    case UnmapIn(_, _) => 2
    case CallUnlock(_, _, _) => 1
    case _ => 0
  }

  /** Places from which a thread gets out of the VM without waiting for anyone. */
  ghost predicate OnTheWay(pc: Pc) { pc.Critical() || DispatchPc(pc) }

  /** What a granted step of such a thread does. */
  ghost predicate Granted(pc: Pc, pc': Pc, vm': Vm)
  {
    && (pc'.CallUnlock? && pc'.path == Dispatch ==> pc'.ok)
    && (OnTheWay(pc') ==> ToRelease(pc') < ToRelease(pc) && pc'.Critical() && pc'.On() == pc.On())
    && (!OnTheWay(pc') ==> vm'.mutex.None?)
    && (DispatchPc(pc) ==> DispatchPc(pc') || pc'.Done?)
  }

  lemma GrantedCall(t: Tid, pc: Pc, vm: Vm, race: bool)
    requires pc.InCallPath() && OnTheWay(pc) && !(pc.CallPost? && pc.path == Dispatch)
    ensures Granted(pc, OnVm(t, pc, vm, YES, race).1, OnVm(t, pc, vm, YES, race).0)
  {
    hide Tell;
  }

  lemma GrantedElse(t: Tid, pc: Pc, vm: Vm, race: bool)
    requires !pc.InCallPath() && OnTheWay(pc)
    ensures Granted(pc, OnVm(t, pc, vm, YES, race).1, OnVm(t, pc, vm, YES, race).0)
  {
    hide Tell;
  }

  /** From n to n' only b has moved, on v alone. */
  ghost predicate Moved(n: Nested, n': Nested, b: Tid, v: Vid)
  {
    && n'.inside == n.inside && !n'.s.halted
    && n'.s.pcs.Keys == n.s.pcs.Keys && (forall u :: u in n.s.pcs && u != b ==> n'.s.pcs[u] == n.s.pcs[u])
    && n'.s.vms.Keys == n.s.vms.Keys && (forall x :: x in n.s.vms && x != v ==> n'.s.vms[x] == n.s.vms[x])
  }

  /** A thread that is on its way out of v and has nobody in its way. */
  ghost predicate Leaving(n: Nested, b: Tid, v: Vid)
  {
    && !n.s.halted && b in n.s.pcs && OnTheWay(n.s.pcs[b]) && n.s.pcs[b].On() == Some(v) && v in n.s.vms
    && Blocker(n, b).None?
  }

  lemma NeverDispatchPost(s: State, t: Tid)
    requires Inv(s) && t in s.pcs && OnTheWay(s.pcs[t])
    ensures !(s.pcs[t].CallPost? && s.pcs[t].path == Dispatch)
    ensures s.pcs[t].On().Some? && !s.pcs[t].Publish? && !s.pcs[t].Done? && s.pcs[t].On().value in s.vms
  {
    assert ThreadOk(s, t);
  }

  lemma GrantedStep(s: State, b: Tid, v: Vid)
    requires Inv(s) && Enabled(s, Go(b, YES)) && OnTheWay(s.pcs[b]) && s.pcs[b].On() == Some(v)
    ensures var s' := Next(s, Go(b, YES));
      && !s'.halted && s'.pcs.Keys == s.pcs.Keys && (forall u :: u in s.pcs && u != b ==> s'.pcs[u] == s.pcs[u])
      && s'.vms.Keys == s.vms.Keys && (forall x :: x in s.vms && x != v ==> s'.vms[x] == s.vms[x])
      && Granted(s.pcs[b], s'.pcs[b], s'.vms[v])
  {
    NeverDispatchPost(s, b);
    hide Inv;
    var race := !CallbacksOver(s, v);
    if s.pcs[b].InCallPath() {
      GrantedCall(b, s.pcs[b], s.vms[v], race);
    } else {
      GrantedElse(b, s.pcs[b], s.vms[v], race);
    }
    hide OnVm, CallbacksOver, OnTheWay, Pc.Critical, Pc.Guest;
  }

  lemma LeavingStep(n: Nested, b: Tid, v: Vid) returns (n': Nested)
    requires NInv(n) && Leaving(n, b, v)
    ensures NEnabled(n, Plain(Go(b, YES))) && n' == NNext(n, Plain(Go(b, YES)))
    ensures NInv(n') && Moved(n, n', b, v) && Granted(n.s.pcs[b], n'.s.pcs[b], n'.s.vms[v])
    ensures OnTheWay(n'.s.pcs[b]) ==> Leaving(n', b, v)
  {
    NeverDispatchPost(n.s, b);
    CanStepIff(n, b, YES);
    n' := NNext(n, Plain(Go(b, YES)));
    GrantedStep(n.s, b, v);
    StepKeepsNInv(n, Plain(Go(b, YES)));
    BlockerIs(n, b);
    BlockerIs(n', b);
    hide Inv, Next, Enabled;
    assert !Calling(n', b) by {
      forall u ensures !Callee(n', b, u) {
        assert InsideOk(n', u) && !Callee(n, b, u);
      }
    }
  }

  /** With everything granted it leaves, and the mutex is free. */
  lemma {:induction false} Leaves(n: Nested, b: Tid, v: Vid) returns (path: seq<Nested>, steps: seq<NStep>)
    requires NInv(n) && Leaving(n, b, v)
    ensures IsPath(path, steps) && path[0] == n && NInv(path[|steps|]) && Moved(n, path[|steps|], b, v)
    ensures path[|steps|].s.vms[v].mutex.None?
    ensures DispatchPc(n.s.pcs[b]) ==> path[|steps|].s.pcs[b].Done?
    decreases ToRelease(n.s.pcs[b])
  {
    hide NInv, NEnabled, NNext, Blocker;
    var n' := LeavingStep(n, b, v);
    if OnTheWay(n'.s.pcs[b]) {
      path, steps := Leaves(n', b, v);
    } else {
      path, steps := [n'], [];
    }
    ghost var path', steps' := path, steps;
    Prepend(n, Plain(Go(b, YES)), path', steps');
    path, steps := [n] + path', [Plain(Go(b, YES))] + steps';
    assert path[|steps|] == path'[|steps'|];
  }

  lemma BlockerLeaves(n: Nested, p: Tid) returns (b: Tid, v: Vid)
    requires NInv(n) && !n.s.halted && Blocker(n, p).Some? && Blocker(n, Blocker(n, p).value).None?
    ensures Blocker(n, p) == Some(b) && Leaving(n, b, v)
    ensures n.s.vms[v].mutex.None? || n.s.vms[v].mutex == Some(b)
    ensures Calling(n, p) ==> Callee(n, p, b) && DispatchPc(n.s.pcs[b])
    ensures !Calling(n, p) ==> Waits(n.s, p) && n.s.pcs[p].v == v
  {
    b := Blocker(n, p).value;
    BlockerAlive(n, p);
    BlockerIs(n, p);
    BlockerIs(n, b);
    if Calling(n, p) {
      var u :| Callee(n, p, u);
      assert InsideOk(n, b);
    } else {
      HolderInside(n.s, n.s.pcs[p].v);
    }
    NeverDispatchPost(n.s, b);
    v := n.s.pcs[b].On().value;
    if n.s.pcs[b].Critical() { InsideHolds(n.s, b); }
    hide Inv;
  }

  /** The thread it was in the way of can go on. */
  lemma WayCleared(n: Nested, n': Nested, p: Tid, b: Tid, v: Vid)
    requires NInv(n) && NInv(n') && Blocker(n, p) == Some(b) && Moved(n, n', b, v) && v in n.s.vms
    requires n'.s.vms[v].mutex.None?
    requires Calling(n, p) ==> b in n.s.pcs && n'.s.pcs[b].Done?
    requires !Calling(n, p) ==> Waits(n.s, p) && n.s.pcs[p].v == v
    requires p != b
    ensures Blocker(n', p).None?
  {
    BlockerIs(n, p);
    BlockerIs(n', p);
    BlockerAlive(n, p);
    if Calling(n, p) {
      var u :| Callee(n, p, u);
      assert InsideOk(n, u);
    }
    hide Inv;
    assert !Calling(n', p) by {
      forall u ensures !Callee(n', p, u) {
        assert InsideOk(n', u);
      }
    }
  }

  /** Everybody else in the chain is where he was. */
  lemma OthersWait(n: Nested, n': Nested, q: Tid, b: Tid, v: Vid)
    requires NInv(n) && NInv(n') && Blocker(n, q).Some? && Blocker(n, q) != Some(b) && q != b
    requires Moved(n, n', b, v) && v in n.s.vms && (n.s.vms[v].mutex.None? || n.s.vms[v].mutex == Some(b))
    ensures Blocker(n', q) == Blocker(n, q)
  {
    BlockerIs(n, q);
    BlockerIs(n', q);
    BlockerAlive(n, q);
    hide Inv;
    if Calling(n, q) {
      var u :| Callee(n, q, u);
      assert Callee(n', q, u);
    } else {
      assert !Calling(n', q) by {
        forall u ensures !Callee(n', q, u) {
          assert InsideOk(n', u);
        }
      }
    }
  }

  lemma {:induction false} ChainKept(n: Nested, n': Nested, t: Tid, k: nat, b: Tid, v: Vid, m: nat)
    requires NInv(n) && NInv(n') && Ends(n, t, k) && Follow(n, t, k) == Some(b) && m < k
    requires Moved(n, n', b, v) && v in n.s.vms && (n.s.vms[v].mutex.None? || n.s.vms[v].mutex == Some(b))
    ensures Follow(n, t, m).Some? && Follow(n', t, m) == Follow(n, t, m) && Follow(n, t, m) != Some(b)
  {
    hide NInv, Blocker, Moved;
    FollowSome(n, t, m, k);
    FollowSome(n, t, m + 1, k);
    if m > 0 {
      ChainKept(n, n', t, k, b, v, m - 1);
      OthersWait(n, n', Follow(n, t, m - 1).value, b, v);
    }
  }

  /** The threads in the way leave, the last one first, until t can go on from where it is. */
  lemma {:induction false} ClearsTheWay(n: Nested, t: Tid, k: nat) returns (path: seq<Nested>, steps: seq<NStep>)
    requires NInv(n) && !n.s.halted && t in n.s.pcs && !n.s.pcs[t].Done? && Ends(n, t, k)
    ensures IsPath(path, steps) && path[0] == n && NInv(path[|steps|]) && !path[|steps|].s.halted
    ensures t in path[|steps|].s.pcs && path[|steps|].s.pcs[t] == n.s.pcs[t]
    ensures Blocker(path[|steps|], t).None?
    decreases k
  {
    hide NInv, NEnabled, NNext, Blocker, Leaving;
    if k == 0 {
      path, steps := [n], [];
    } else {
      var p := Follow(n, t, k - 1).value;
      var b, v := BlockerLeaves(n, p);
      assert v in n.s.vms && b in n.s.pcs by { LeavingFacts(n, b, v); }
      var path1, steps1 := Leaves(n, b, v);
      var n1 := path1[|steps1|];
      ChainKept(n, n1, t, k, b, v, k - 1);
      ChainKept(n, n1, t, k, b, v, 0);
      WayCleared(n, n1, p, b, v);
      var path2, steps2 := ClearsTheWay(n1, t, k - 1);
      Concat(path1, steps1, path2, steps2);
      path, steps := path1 + path2[1..], steps1 + steps2;
      assert path[|steps|] == path2[|steps2|];
    }
  }

  lemma LeavingFacts(n: Nested, b: Tid, v: Vid)
    requires Leaving(n, b, v)
    ensures v in n.s.vms && b in n.s.pcs
  {
  }

  /** The exact condition, over every nested run: a thread in the driver hangs for good, in every
      continuation, if and only if following who is in its way comes back to a thread already
      passed. */
  lemma MayStepIff(run: seq<Nested>, steps: seq<NStep>, k: nat, t: Tid, c: Choice)
    requires IsNestedRun(run, steps) && k < |run| && !run[k].s.halted && t in run[k].s.pcs && !run[k].s.pcs[t].Done?
    ensures MayStep(run[k], t, c) <==> !Loops(run[k], t)
  {
    RunKeepsNInv(run, steps, k);
    hide IsNestedRun;
    var n := run[k];
    if Loops(n, t) {
      LoopNeverSteps(n, t, c);
    } else {
      hide NInv, NEnabled, NNext, Blocker, Loops;
      var m := ChainEnds(n, t);
      var path, more := ClearsTheWay(n, t, m);
      CanStepIff(path[|more|], t, c);
    }
  }

  lemma LoopNeverSteps(n: Nested, t: Tid, c: Choice)
    requires NInv(n) && Loops(n, t)
    ensures !MayStep(n, t, c)
  {
    hide NInv, NEnabled, NNext, Blocker, Loops;
    forall path, steps | IsPath(path, steps) && path[0] == n ensures !NEnabled(path[|steps|], Plain(Go(t, c))) {
      LoopLastsOnPath(path, steps, t, |steps|);
      PathKeepsNInv(path, steps, |steps|);
      LoopFollows(path[|steps|], t, 1);
      BlockerAlive(path[|steps|], t);
      CanStepIff(path[|steps|], t, c);
    }
  }

  /** Some continuation from n gets to a state in which the close of the handle may come. */
  ghost predicate MayClose(n: Nested)
  {
    exists path, steps, x :: IsPath(path, steps) && path[0] == n && NEnabled(path[|steps|], Plain(StartClose(x)))
  }

  /** A request that hangs keeps the handle open, and with it every block of its VM. */
  lemma HungHandleNeverCloses(n: Nested, t: Tid)
    requires NInv(n) && Loops(n, t) && t in n.s.pcs && !DispatchPc(n.s.pcs[t])
    ensures !MayClose(n)
  {
    LoopFollows(n, t, 1);
    BlockerAlive(n, t);
    hide NInv, NNext, Blocker, Loops;
    forall path, steps, x | IsPath(path, steps) && path[0] == n
      ensures !NEnabled(path[|steps|], Plain(StartClose(x)))
    {
      LoopLastsOnPath(path, steps, t, |steps|);
    }
  }

  // ---- Which invokes hang ----

  /** Following who is in the way from h leads to t. */
  ghost predicate Reaches(n: Nested, h: Tid, t: Tid)
  {
    exists k: nat :: Follow(n, h, k) == Some(t)
  }

  /** An invoke puts the dispatch in the invoking thread's way, and the holder of the mutex in the
      dispatch's; for everybody else nothing changes. */
  lemma InvokeBlockers(n: Nested, t: Tid, u: Tid, v: Vid, w: Tid)
    requires NInv(n) && NEnabled(n, Invoke(t, u, v))
    ensures var n' := NNext(n, Invoke(t, u, v));
      && Blocker(n, t).None? && Blocker(n', t) == Some(u) && Blocker(n', u) == n.s.vms[v].mutex
      && (w != t && w != u ==> Blocker(n', w) == Blocker(n, w)) && Blocker(n, w) != Some(u)
  {
    var n' := NNext(n, Invoke(t, u, v));
    BlockerIs(n, t);
    InvokedBlocked(n, t, u, v);
    if Blocker(n, w).Some? { BlockerAlive(n, w); }
    if w != t && w != u { BystanderBlocked(n, t, u, v, w); }
    hide Inv, Blocker;
  }

  lemma InvokedBlocked(n: Nested, t: Tid, u: Tid, v: Vid)
    requires NInv(n) && NEnabled(n, Invoke(t, u, v))
    ensures var n' := NNext(n, Invoke(t, u, v));
      Blocker(n', t) == Some(u) && Blocker(n', u) == n.s.vms[v].mutex
  {
    var n' := NNext(n, Invoke(t, u, v));
    StepKeepsNInv(n, Invoke(t, u, v));
    BlockerIs(n', t);
    BlockerIs(n', u);
    assert Callee(n', t, u);
    if n.s.vms[v].mutex.Some? { HolderInside(n.s, v); }
    hide Inv;
    forall x ensures !Callee(n', u, x) {
      assert InsideOk(n, x) && InsideOk(n', x);
    }
  }

  lemma BystanderBlocked(n: Nested, t: Tid, u: Tid, v: Vid, w: Tid)
    requires NInv(n) && NEnabled(n, Invoke(t, u, v)) && w != t && w != u
    ensures Blocker(NNext(n, Invoke(t, u, v)), w) == Blocker(n, w)
  {
    var n' := NNext(n, Invoke(t, u, v));
    StepKeepsNInv(n, Invoke(t, u, v));
    BlockerIs(n, w);
    BlockerIs(n', w);
    hide Inv;
    forall x ensures Callee(n', w, x) <==> Callee(n, w, x) {
      assert InsideOk(n, x);
    }
  }

  /** As long as the chain has not come to t, the invoke does not change it. */
  lemma {:induction false} ChainBefore(n: Nested, t: Tid, u: Tid, v: Vid, h: Tid, k: nat)
    requires NInv(n) && NEnabled(n, Invoke(t, u, v)) && h != u
    requires forall m: nat :: m < k ==> Follow(n, h, m) != Some(t)
    ensures Follow(NNext(n, Invoke(t, u, v)), h, k) == Follow(n, h, k) && Follow(n, h, k) != Some(u)
  {
    hide NInv, NEnabled, NNext, Blocker;
    if k > 0 {
      ChainBefore(n, t, u, v, h, k - 1);
      if Follow(n, h, k - 1).Some? {
        InvokeBlockers(n, t, u, v, Follow(n, h, k - 1).value);
      }
    }
  }

  lemma {:induction false} StepToReach(n: Nested, h: Tid, t: Tid, k: nat)
    requires Follow(n, h, k) == Some(t) && Blocker(n, t).None?
    ensures forall m: nat :: m < k ==> Follow(n, h, m) != Some(t)
  {
    forall m: nat | m < k ensures Follow(n, h, m) != Some(t) {
      FollowSome(n, h, m + 1, k);
    }
    hide Blocker;
  }

  /** Exactly which invokes hang: the mutex of the callback's VM is held, and the holder already
      waits, directly or through others, for the invoking thread; or it hangs itself. */
  lemma InvokeHangsIff(n: Nested, t: Tid, u: Tid, v: Vid)
    requires NInv(n) && NEnabled(n, Invoke(t, u, v))
    ensures v in n.s.vms
    ensures Loops(NNext(n, Invoke(t, u, v)), u) <==>
      n.s.vms[v].mutex.Some? && var h := n.s.vms[v].mutex.value; Reaches(n, h, t) || Loops(n, h)
  {
    var n' := NNext(n, Invoke(t, u, v));
    StepKeepsNInv(n, Invoke(t, u, v));
    InvokeBlockers(n, t, u, v, t);
    InvokedIsNew(n, t, u, v);
    hide NInv, NEnabled, NNext, Blocker, Loops;
    assert Follow(n', u, 1) == n.s.vms[v].mutex;
    if n.s.vms[v].mutex.None? {
      if Loops(n', u) { LoopFollows(n', u, 1); }
    } else {
      var h := n.s.vms[v].mutex.value;
      if Reaches(n, h, t) {
        var k: nat :| Follow(n, h, k) == Some(t);
        ReachingHolder(n, t, u, v, h, k);
      } else {
        forall k: nat ensures GoesOnAs(n, h, n', u, k) {
          ChainBefore(n, t, u, v, h, k);
          FollowShift(n', u, 1, k);
        }
        SameLoops(n, h, n', u);
      }
    }
  }

  lemma InvokedIsNew(n: Nested, t: Tid, u: Tid, v: Vid)
    requires NInv(n) && NEnabled(n, Invoke(t, u, v))
    ensures v in n.s.vms && u !in n.s.pcs && t in n.s.pcs && !n.s.pcs[t].Done? && u != t
    ensures u in NNext(n, Invoke(t, u, v)).s.pcs
    ensures n.s.vms[v].mutex.Some? ==> n.s.vms[v].mutex.value in n.s.pcs
  {
    if n.s.vms[v].mutex.Some? { HolderInside(n.s, v); }
    hide Inv;
  }

  lemma ReachingHolder(n: Nested, t: Tid, u: Tid, v: Vid, h: Tid, k: nat)
    requires NInv(n) && NEnabled(n, Invoke(t, u, v)) && v in n.s.vms && n.s.vms[v].mutex == Some(h)
    requires Follow(n, h, k) == Some(t)
    ensures Loops(NNext(n, Invoke(t, u, v)), u)
  {
    var n' := NNext(n, Invoke(t, u, v));
    InvokeBlockers(n, t, u, v, t);
    InvokedIsNew(n, t, u, v);
    hide NInv, NEnabled, NNext, Blocker;
    StepToReach(n, h, t, k);
    ChainBefore(n, t, u, v, h, k);
    assert Follow(n', u, 1) == Some(h);
    FollowShift(n', u, 1, k);
    assert Follow(n', u, 1 + k) == Some(t) && Follow(n', u, 2 + k) == Some(u) == Follow(n', u, 0);
  }

  /** One step on, the chain from u is where the chain from h is. */
  ghost predicate GoesOnAs(n: Nested, h: Tid, n': Nested, u: Tid, k: nat)
  {
    Follow(n', u, 1 + k) == Follow(n, h, k)
  }

  /** A chain that goes on as another does loops if and only if the other does. */
  lemma SameLoops(n: Nested, h: Tid, n': Nested, u: Tid)
    requires forall k: nat :: GoesOnAs(n, h, n', u, k)
    ensures Loops(n', u) <==> Loops(n, h)
  {
    hide Follow;
    if Loops(n, h) {
      var i: nat, j: nat :| i < j && Follow(n, h, i).Some? && Follow(n, h, i) == Follow(n, h, j);
      assert GoesOnAs(n, h, n', u, i) && GoesOnAs(n, h, n', u, j);
    }
    if Loops(n', u) {
      var i: nat, j: nat :| i < j && Follow(n', u, i).Some? && Follow(n', u, i) == Follow(n', u, j);
      LaterLoop(n', u, i, j);
      assert GoesOnAs(n, h, n', u, j - 1) && GoesOnAs(n, h, n', u, 2 * j - i - 1);
    }
  }

  /** Once round the loop again. */
  lemma LaterLoop(n: Nested, u: Tid, i: nat, j: nat)
    requires i < j && Follow(n, u, i).Some? && Follow(n, u, i) == Follow(n, u, j)
    ensures Follow(n, u, j).Some? && Follow(n, u, j) == Follow(n, u, 2 * j - i)
  {
    FollowShift(n, u, i, j - i);
    FollowShift(n, u, j, j - i);
    hide Blocker;
  }

  // ---- One stack of invokes ----

  /** The thread k invokes below t on its stack. */
  ghost function Below(n: Nested, t: Tid, k: nat): Option<Tid>
  {
    if k == 0 then Some(t)
    else if Below(n, t, k - 1).None? || Below(n, t, k - 1).value !in n.inside then None
    else Some(n.inside[Below(n, t, k - 1).value])
  }

  /** The invoking chain of t: t, the thread that issued it if it is a dispatch, and so on. */
  ghost predicate OnStack(n: Nested, t: Tid, h: Tid)
  {
    exists k: nat :: Below(n, t, k) == Some(h)
  }

  lemma {:induction false} StackReaches(n: Nested, t: Tid, k: nat)
    requires NInv(n) && t in n.s.pcs && !n.s.pcs[t].Done? && Below(n, t, k).Some?
    ensures var h := Below(n, t, k).value;
      h in n.s.pcs && !n.s.pcs[h].Done? && Follow(n, h, k) == Some(t)
  {
    if k > 0 {
      StackReaches(n, t, k - 1);
      var p, h := Below(n, t, k - 1).value, Below(n, t, k).value;
      assert InsideOk(n, p) && Callee(n, h, p);
      BlockerIs(n, h);
      hide Inv, Blocker;
      assert Follow(n, h, 1) == Some(p);
      FollowShift(n, h, 1, k - 1);
    }
  }

  /** An invoke hangs whenever its own invoking chain holds the mutex of the callback's VM: in
      particular when a module invokes a callback of its own VM. */
  lemma ReentryHangs(n: Nested, t: Tid, u: Tid, v: Vid)
    requires NInv(n) && NEnabled(n, Invoke(t, u, v)) && v in n.s.vms
    requires n.s.vms[v].mutex.Some? && OnStack(n, t, n.s.vms[v].mutex.value)
    ensures Loops(NNext(n, Invoke(t, u, v)), u) && Loops(NNext(n, Invoke(t, u, v)), t)
  {
    var h := n.s.vms[v].mutex.value;
    var k: nat :| Below(n, t, k) == Some(h);
    InvokedIsNew(n, t, u, v);
    InvokeBlockers(n, t, u, v, t);
    hide NEnabled, NNext, NInv, Blocker, Loops;
    StackReaches(n, t, k);
    ReachingHolder(n, t, u, v, h, k);
    LoopBehind(NNext(n, Invoke(t, u, v)), t, u);
  }

  lemma LoopBehind(n: Nested, t: Tid, u: Tid)
    requires Blocker(n, t) == Some(u) && Loops(n, u)
    ensures Loops(n, t)
  {
    hide Blocker;
    var i: nat, j: nat :| i < j && Follow(n, u, i).Some? && Follow(n, u, i) == Follow(n, u, j);
    assert Follow(n, t, 1) == Some(u);
    FollowShift(n, t, 1, i);
    FollowShift(n, t, 1, j);
    assert Follow(n, t, 1 + i).Some? && Follow(n, t, 1 + i) == Follow(n, t, 1 + j);
  }

  /** Only t and the threads below it on its stack are in an invoke. */
  ghost predicate OneStack(n: Nested, t: Tid)
  {
    forall w, u :: Callee(n, w, u) ==> OnStack(n, t, u)
  }

  lemma OnStackBelow(n: Nested, t: Tid, w: Tid, u: Tid)
    requires OnStack(n, t, u) && Callee(n, w, u)
    ensures OnStack(n, t, w)
  {
    var k: nat :| Below(n, t, k) == Some(u);
    assert Below(n, t, k + 1) == Some(w);
  }

  /** While nobody else is in an invoke, an invoke hangs if and only if its invoking chain already
      holds the mutex of the callback's VM. */
  lemma OneStackHangsIff(n: Nested, t: Tid, u: Tid, v: Vid)
    requires NInv(n) && NEnabled(n, Invoke(t, u, v)) && OneStack(n, t)
    ensures v in n.s.vms
    ensures Loops(NNext(n, Invoke(t, u, v)), u) <==>
      n.s.vms[v].mutex.Some? && OnStack(n, t, n.s.vms[v].mutex.value)
  {
    InvokeHangsIff(n, t, u, v);
    if n.s.vms[v].mutex.Some? {
      var h := n.s.vms[v].mutex.value;
      if OnStack(n, t, h) {
        ReentryHangs(n, t, u, v);
      } else {
        HolderInside(n.s, v);
        forall w ensures !Callee(n, h, w) {
          if Callee(n, h, w) { OnStackBelow(n, t, h, w); }
        }
        BlockerIs(n, h);
        assert Follow(n, h, 1) == None;
        if Loops(n, h) { LoopFollows(n, h, 1); }
        assert Below(n, t, 0) == Some(t);
        hide Inv, NEnabled, Blocker, Loops;
        forall k: nat ensures Follow(n, h, k) != Some(t) {
          if k > 0 && Follow(n, h, k).Some? { FollowSome(n, h, 1, k); }
        }
      }
    }
  }

  /** Module code of v holds v's mutex, so invoking a callback of the same VM always hangs. */
  lemma SelfInvokeHangs(n: Nested, t: Tid, u: Tid, v: Vid)
    requires NInv(n) && NEnabled(n, Invoke(t, u, v)) && n.s.pcs[t].v == v
    ensures Loops(NNext(n, Invoke(t, u, v)), u) && Loops(NNext(n, Invoke(t, u, v)), t)
  {
    InsideHolds(n.s, t);
    assert Below(n, t, 0) == Some(t);
    ReentryHangs(n, t, u, v);
  }

  /** Two modules that invoke each other's callbacks at the same time hang, and so do both
      dispatches. */
  lemma CrossInvokeHangs(n: Nested, t1: Tid, u1: Tid, v1: Vid, t2: Tid, u2: Tid, v2: Vid)
    requires NInv(n) && t1 != t2 && NEnabled(n, Invoke(t1, u1, v2)) && n.s.pcs[t1].v == v1
    requires var n1 := NNext(n, Invoke(t1, u1, v2)); NEnabled(n1, Invoke(t2, u2, v1)) && n1.s.pcs[t2].v == v2
    ensures var n2 := NNext(NNext(n, Invoke(t1, u1, v2)), Invoke(t2, u2, v1));
      Loops(n2, u1) && Loops(n2, t1) && Loops(n2, u2) && Loops(n2, t2)
  {
    var n1 := NNext(n, Invoke(t1, u1, v2));
    StepKeepsNInv(n, Invoke(t1, u1, v2));
    InvokeBlockers(n, t1, u1, v2, t2);
    InsideHolds(n.s, t1);
    InsideHolds(n1.s, t2);
    assert n1.s.vms[v1].mutex == Some(t1) && n.s.vms[v2].mutex == Some(t2);
    InvokeBlockers(n1, t2, u2, v1, t1);
    InvokeBlockers(n1, t2, u2, v1, u1);
    var n2 := NNext(n1, Invoke(t2, u2, v1));
    assert Blocker(n2, t1) == Some(u1) && Blocker(n2, u1) == Some(t2);
    assert Blocker(n2, t2) == Some(u2) && Blocker(n2, u2) == Some(t1);
    FourCycle(n2, t1, u1, t2, u2);
    FourCycle(n2, u1, t2, u2, t1);
    FourCycle(n2, t2, u2, t1, u1);
    FourCycle(n2, u2, t1, u1, t2);
  }

  lemma FourCycle(n: Nested, a: Tid, b: Tid, c: Tid, d: Tid)
    requires Blocker(n, a) == Some(b) && Blocker(n, b) == Some(c)
    requires Blocker(n, c) == Some(d) && Blocker(n, d) == Some(a)
    ensures Loops(n, a)
  {
    hide Blocker;
    assert Follow(n, a, 1) == Some(b);
    assert Follow(n, a, 2) == Some(c);
    assert Follow(n, a, 3) == Some(d);
    assert Follow(n, a, 4) == Some(a) == Follow(n, a, 0);
  }
}
