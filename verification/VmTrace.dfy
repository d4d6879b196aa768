/** The events of one VM, and the grammar its history obeys. */
module VmTrace {

  type Tid = nat

  /** Which code path a call into the VM belongs to. */
  datatype Path = Main | Execute | Unload | Dispatch

  datatype Kind =
    | Created(ok: bool)
    | Precall(ok: bool)
    | CallBegin
    | CallEnd(path: Path)
    | Postcall
    | Destroyed
    | Free

  /** An event, the thread that caused it, and whether that thread held the VM's mutex. */
  datatype Event = Event(kind: Kind, thread: Tid, held: bool)

  /** Where a history stands. */
  datatype Phase =
    | Fresh
    | Idle
    | Refused          // created was vetoed
    | Ready            // a precall has just passed
    | InCall
    | Returned(path: Path)
    | Gone             // destroyed
    | Dropped          // freed without ever having been announced
    | Bad

  /** The grammar, as an acceptor. A call needs a passed precall right before it and, except from
      dispatch, a postcall right after it; dispatch issues none. */
  function Accept(p: Phase, k: Kind): Phase
  {
    match (p, k)
    case (Fresh, Created(ok)) => if ok then Idle else Refused
    case (Fresh, Free) => Dropped
    case (Dropped, Free) => Dropped
    case (Idle, Precall(ok)) => if ok then Ready else Idle
    case (Returned(Dispatch), Precall(ok)) => if ok then Ready else Idle
    case (Ready, CallBegin) => InCall
    case (InCall, CallEnd(path)) => Returned(path)
    case (Returned(path), Postcall) => if path == Dispatch then Bad else Idle
    case (Idle, Destroyed) => Gone
    case (Refused, Destroyed) => Gone
    case (Returned(Dispatch), Destroyed) => Gone
    case (Gone, Free) => Gone
    case _ => Bad
  }

  function Scan(trace: seq<Event>): Phase
  {
    if trace == [] then Fresh else Accept(Scan(trace[..|trace| - 1]), trace[|trace| - 1].kind)
  }

  lemma ScanAppend(trace: seq<Event>, e: Event)
    ensures Scan(trace + [e]) == Accept(Scan(trace), e.kind)
  {
    assert (trace + [e])[..|trace|] == trace;
  }

  /** Every event but the frees happened under the VM's mutex. */
  ghost predicate UnderMutex(trace: seq<Event>)
  {
    forall i :: 0 <= i < |trace| && !trace[i].kind.Free? ==> trace[i].held
  }

  lemma {:induction false} PrefixAccepted(trace: seq<Event>, i: nat)
    requires i <= |trace| && Scan(trace) != Bad
    ensures Scan(trace[..i]) != Bad
    decreases |trace| - i
  {
    if i < |trace| {
      PrefixAccepted(trace, i + 1);
      assert trace[..i + 1][..i] == trace[..i];
    } else {
      assert trace[..i] == trace;
    }
  }

  lemma ScanStep(trace: seq<Event>, i: nat)
    requires i < |trace| && Scan(trace) != Bad
    ensures Scan(trace[..i]) != Bad && Scan(trace[..i + 1]) != Bad
    ensures Scan(trace[..i + 1]) == Accept(Scan(trace[..i]), trace[i].kind)
  {
    PrefixAccepted(trace, i);
    PrefixAccepted(trace, i + 1);
    assert trace[..i + 1][..i] == trace[..i];
  }

  // ---- What acceptance says about the events themselves ----

  /** created comes first, once. */
  lemma CreatedFirst(trace: seq<Event>, i: nat)
    requires Scan(trace) != Bad && i < |trace|
    ensures trace[i].kind.Created? ==> i == 0
  {
    ScanStep(trace, i);
    if i > 0 {
      ScanStep(trace, i - 1);
    }
  }

  /** A history that starts with anything but created is nothing but frees. */
  lemma {:induction false} NothingWithoutCreated(trace: seq<Event>, i: nat)
    requires Scan(trace) != Bad && i < |trace| && !trace[0].kind.Created?
    ensures trace[i].kind.Free? && Scan(trace[..i + 1]) == Dropped
  {
    ScanStep(trace, i);
    if i > 0 {
      NothingWithoutCreated(trace, i - 1);
    }
  }

  /** A call is immediately preceded by a precall that passed. */
  lemma CallAfterPrecall(trace: seq<Event>, i: nat)
    requires Scan(trace) != Bad && i < |trace| && trace[i].kind.CallBegin?
    ensures i > 0 && trace[i - 1].kind == Precall(true)
  {
    ScanStep(trace, i);
    if i > 0 {
      ScanStep(trace, i - 1);
    }
  }

  /** Calls do not overlap: nothing happens between the begin and the end of a call. */
  lemma CallsDoNotOverlap(trace: seq<Event>, i: nat)
    requires Scan(trace) != Bad && i + 1 < |trace| && trace[i].kind.CallBegin?
    ensures trace[i + 1].kind.CallEnd?
  {
    ScanStep(trace, i);
    ScanStep(trace, i + 1);
  }

  /** The end of a call is followed at once by its postcall, unless it came from dispatch, which
      issues none. */
  lemma PostcallFollows(trace: seq<Event>, i: nat)
    requires Scan(trace) != Bad && i + 1 < |trace| && trace[i].kind.CallEnd?
    ensures trace[i + 1].kind.Postcall? <==> trace[i].kind.path != Dispatch
  {
    ScanStep(trace, i);
    ScanStep(trace, i + 1);
  }

  /** After destroyed there are only frees, so destroyed happens once and no call follows it. */
  lemma {:induction false} OnlyFreesAfterDestroyed(trace: seq<Event>, i: nat, j: nat)
    requires Scan(trace) != Bad && i < j < |trace| && trace[i].kind.Destroyed?
    ensures trace[j].kind.Free? && Scan(trace[..j + 1]) == Gone
    decreases j - i
  {
    ScanStep(trace, j);
    if j == i + 1 {
      ScanStep(trace, i);
    } else {
      OnlyFreesAfterDestroyed(trace, i, j - 1);
    }
  }

  /** Event i is the one destroyed: none and no free before it, only frees after it. */
  ghost predicate DestroyedAt(trace: seq<Event>, i: nat)
  {
    && 0 < i < |trace| && trace[i].kind.Destroyed?
    && (forall j :: 0 <= j < i ==> !trace[j].kind.Destroyed? && !trace[j].kind.Free?)
    && (forall j :: i < j < |trace| ==> trace[j].kind.Free?)
  }

  /** created is the first event, destroyed happens exactly once, and only frees follow it. */
  ghost predicate AnnouncedAndDestroyed(trace: seq<Event>)
  {
    trace != [] && trace[0].kind.Created? && exists i: nat :: DestroyedAt(trace, i)
  }

  lemma {:induction false} GoneShape(trace: seq<Event>)
    requires Scan(trace) == Gone
    ensures AnnouncedAndDestroyed(trace)
    decreases |trace|
  {
    var n := |trace| - 1;
    var front := trace[..n];
    assert Accept(Scan(front), trace[n].kind) == Gone;
    hide Scan;
    if trace[n].kind.Free? {
      GoneShape(front);
      var i: nat :| DestroyedAt(front, i);
      assert DestroyedAt(trace, i);
    } else {
      AliveShape(front);
      assert DestroyedAt(trace, n);
    }
  }

  /** Before it is destroyed, an announced VM has neither been destroyed nor freed. */
  lemma {:induction false} AliveShape(trace: seq<Event>)
    requires Scan(trace) !in {Fresh, Bad, Gone, Dropped}
    ensures trace != [] && trace[0].kind.Created?
    ensures forall j :: 0 <= j < |trace| ==> !trace[j].kind.Destroyed? && !trace[j].kind.Free?
    decreases |trace|
  {
    var front := trace[..|trace| - 1];
    if Scan(front) != Fresh {
      AliveShape(front);
    } else {
      FreshShape(front);
    }
  }

  lemma {:induction false} FreshShape(trace: seq<Event>)
    ensures Scan(trace) == Fresh ==> trace == []
    ensures Scan(trace) == Dropped ==> forall i :: 0 <= i < |trace| ==> trace[i].kind.Free?
    decreases |trace|
  {
    if trace != [] {
      FreshShape(trace[..|trace| - 1]);
    }
  }

  /** A finished history: announced and destroyed once, or nothing but frees. */
  lemma FinishedShape(trace: seq<Event>)
    requires Scan(trace) == Gone || Scan(trace) == Dropped
    ensures AnnouncedAndDestroyed(trace) || forall i :: 0 <= i < |trace| ==> trace[i].kind.Free?
  {
    if Scan(trace) == Gone {
      GoneShape(trace);
    } else {
      FreshShape(trace);
    }
  }
}
