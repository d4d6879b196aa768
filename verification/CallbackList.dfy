/** callback_list: the registrations behind one kind of VM event, newest first. The bodies run
    under the list's lock; module BroadcastProtocol is about the locking itself. */
module CallbackList {
  import opened Machine
  import opened ListEntry
  import opened KList

  type Callback = nat

  predicate NtSuccess(status: int) { status >= 0 }

  const STATUS_SUCCESS: int := 0

  /** A status is a 32-bit word whose top bit says failure. */
  lemma SuccessIsTopBit(word: nat)
    requires word < 0x1_0000_0000
    ensures NtSuccess(if word < 0x8000_0000 then word else word - 0x1_0000_0000) <==> word / 0x8000_0000 == 0
  {
  }

  /** Given what each visit would return, how many callbacks run: up to and including the first
      that fails. */
  function Visits(n: nat, outcome: nat -> int, from: nat): (k: nat)
    requires from <= n
    ensures from <= k <= n
    decreases n - from
  {
    if from == n then n else if !NtSuccess(outcome(from)) then from + 1 else Visits(n, outcome, from + 1)
  }

  lemma {:induction false} VisitsStopsAtFirstFailure(n: nat, outcome: nat -> int, from: nat)
    requires from <= n
    ensures var k := Visits(n, outcome, from);
      && (forall i :: from <= i < k - 1 ==> NtSuccess(outcome(i)))
      && (k < n ==> k > from && !NtSuccess(outcome(k - 1)))
    decreases n - from
  {
    if from < n && NtSuccess(outcome(from)) {
      VisitsStopsAtFirstFailure(n, outcome, from + 1);
    }
  }

  class Registry {
    const list: List<Callback>

    ghost predicate Valid()
      reads this, list, list.head, list.nodes, list.pool
    {
      list.Valid()
    }

    constructor (pool: Pool<Callback>)
      ensures Valid() && list.nodes == [] && list.pool == pool && fresh(list) && fresh(list.head)
    {
      list := new List(pool);
    }

    /** add: in front of all others; null when the pool refuses. */
    method Add(callback: Callback, granted: bool) returns (cookie: Option<Entry<Callback>>)
      requires Valid()
      modifies list, list.pool, list.Cells()`flink, list.Cells()`blink
      ensures Valid()
      ensures cookie.Some? <==> granted
      ensures granted ==> list.nodes == [cookie.value] + old(list.nodes) && fresh(cookie.value)
      ensures granted ==> list.Values() == [callback] + old(list.Values())
      ensures !granted ==> list.nodes == old(list.nodes) && list.Values() == old(list.Values())
    {
      hide Linked;
      var pos := list.Begin();
      var it := list.Insert(pos, callback, granted, 0);
      if granted {
        list.NodesDistinct();
        assert list.nodes[0] == it;
      }
      if it == list.head {
        return None;
      }
      cookie := Some(it);
    }

    /** remove: that registration and no other; null is ignored. Every other cookie stays valid
        and keeps its place. */
    method Remove(cookie: Option<Entry<Callback>>, ghost k: nat)
      requires Valid()
      requires cookie.Some? ==> k < |list.nodes| && list.nodes[k] == cookie.value
      modifies list, list.pool, list.Cells()`flink, list.Cells()`blink
      ensures Valid()
      ensures cookie.None? ==> list.nodes == old(list.nodes)
      ensures cookie.Some? ==> list.nodes == Removed(old(list.nodes), k)
      ensures forall e :: e in old(list.nodes) && Some(e) != cookie ==> e in list.nodes
      ensures cookie.Some? ==> cookie.value !in list.nodes
    {
      hide Linked;
      if cookie.None? {
        return;
      }
      list.NodesDistinct();
      RemovedDistinct(list.nodes, k);
      ghost var was := list.nodes;
      var _ := list.Erase(cookie.value, k);
      assert Elems(list.nodes) == Elems(was) - {cookie.value};
      assert forall e :: e in was ==> e in Elems(was);
      assert forall e :: e in Elems(list.nodes) ==> e in list.nodes;
    }

    /** call_status: newest first, up to and including the first failure, whose status it returns. */
    method CallStatus(outcome: nat -> int) returns (status: int, visited: seq<Callback>)
      requires Valid()
      ensures visited == list.Values()[..Visits(|list.Values()|, outcome, 0)]
      ensures status == if visited == [] then STATUS_SUCCESS else outcome(|visited| - 1)
      ensures NtSuccess(status) ==> visited == list.Values()
      ensures visited != list.Values() ==> !NtSuccess(status)
    {
      hide Linked;
      VisitsStopsAtFirstFailure(|list.nodes|, outcome, 0);
      list.NodesDistinct();
      status, visited := STATUS_SUCCESS, [];
      var it := list.Begin();
      while it != list.head
        invariant |visited| <= |list.nodes| && it == list.At(|visited|) && visited == list.Values()[..|visited|]
        invariant Visits(|list.nodes|, outcome, 0) == Visits(|list.nodes|, outcome, |visited|)
        invariant NtSuccess(status)
        invariant status == if visited == [] then STATUS_SUCCESS else outcome(|visited| - 1)
        decreases |list.nodes| - |visited|
      {
        status := outcome(|visited|);
        visited := visited + [it.value.value];
        if !NtSuccess(status) {
          return;
        }
        it := list.Increment(it, |visited| - 1);
      }
    }

    /** call_void: every registration, newest first. */
    method CallVoid() returns (visited: seq<Callback>)
      requires Valid()
      ensures visited == list.Values()
    {
      hide Linked;
      list.NodesDistinct();
      visited := [];
      var it := list.Begin();
      while it != list.head
        invariant |visited| <= |list.nodes| && it == list.At(|visited|) && visited == list.Values()[..|visited|]
        decreases |list.nodes| - |visited|
      {
        visited := visited + [it.value.value];
        it := list.Increment(it, |visited| - 1);
      }
    }
  }
}
