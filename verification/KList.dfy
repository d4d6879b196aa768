/** klist: a circular doubly linked list of pool-allocated nodes. */
module KList {
  import opened Machine
  import opened ListEntry

  /** The kernel pool as the stateless allocators see it: which nodes are out, which came back. */
  class Pool<T> {
    ghost var live: set<Entry<T>>
    ghost var freed: set<Entry<T>>

    constructor ()
      ensures live == {} && freed == {}
    {
      live, freed := {}, {};
    }

    /** allocate and construct; the pool may refuse. */
    method Allocate(granted: bool, value: T) returns (node: Option<Entry<T>>)
      modifies this
      ensures node.Some? <==> granted
      ensures node.None? ==> live == old(live) && freed == old(freed)
      ensures node.Some? ==> fresh(node.value) && node.value.value == Some(value)
      ensures node.Some? ==> live == old(live) + {node.value} && freed == old(freed)
    {
      node := None;
      if granted {
        var e := new Entry(Some(value));
        live := live + {e};
        node := Some(e);
      }
    }

    /** destroy and deallocate: only a node that is out can come back. */
    method Deallocate(node: Entry<T>)
      requires node in live && node !in freed
      modifies this
      ensures live == old(live) - {node} && freed == old(freed) + {node}
    {
      live, freed := live - {node}, freed + {node};
    }
  }

  class List<T> {
    const head: Entry<T>
    const pool: Pool<T>
    ghost var nodes: seq<Entry<T>>

    ghost function Ring(): seq<Entry<T>>
      reads this
    {
      [head] + nodes
    }

    ghost function Cells(): set<Entry<T>>
      reads this
    {
      {head} + Elems(nodes)
    }

    lemma CellsAreRing()
      ensures Elems(Ring()) == Cells()
    {
    }

    /** The ring is well formed, and its nodes are out of the pool and not returned to it. */
    ghost predicate Valid()
      reads this, head, nodes, pool
    {
      Linked(Ring()) && head !in pool.live && Stocked(nodes, pool)
    }

    static ghost predicate Stocked(ns: seq<Entry<T>>, pool: Pool<T>)
      reads Elems(ns)`value, pool
    {
      forall i :: 0 <= i < |ns| ==> ns[i] in pool.live && ns[i] !in pool.freed && ns[i].value.Some?
    }

    ghost function Values(): seq<T>
      requires Valid()
      reads this, head, nodes, pool
    {
      seq(|nodes|, i requires 0 <= i < |nodes| reads this, nodes requires nodes[i].value.Some? => nodes[i].value.value)
    }

    /** The entry an iterator at index k holds; index |nodes| is end(). */
    ghost function At(k: nat): Entry<T>
      requires k <= |nodes|
      reads this
    {
      if k == |nodes| then head else nodes[k]
    }

    constructor (pool: Pool<T>)
      ensures Valid() && nodes == [] && this.pool == pool && fresh(head)
    {
      this.pool := pool;
      head := new Entry(None);
      nodes := [];
      new;
      assert Ring() == [head];
      assert JoinedAt(Ring(), 0);
    }

    method Begin() returns (it: Entry<T>)
      requires Valid()
      ensures it == At(0)
    {
      assert JoinedAt(Ring(), 0);
      it := head.flink;
    }

    /** operator++ */
    method Increment(it: Entry<T>, ghost k: nat) returns (it': Entry<T>)
      requires Valid() && k < |nodes| && it == At(k)
      ensures it' == At(k + 1)
    {
      assert JoinedAt(Ring(), k + 1) && Ring()[k + 1] == it;
      it' := it.flink;
    }

    /** operator-- */
    method Decrement(it: Entry<T>, ghost k: nat) returns (it': Entry<T>)
      requires Valid() && 0 < k <= |nodes| && it == At(k)
      ensures it' == At(k - 1)
    {
      BlinkAt(Ring(), if k == |nodes| then 0 else k + 1);
      it' := it.blink;
    }

    method Empty() returns (b: bool)
      requires Valid()
      ensures b <==> nodes == []
    {
      assert JoinedAt(Ring(), 0);
      b := head.flink == head;
    }

    lemma NodesDistinct()
      requires Valid()
      ensures Distinct(nodes) && head !in nodes
    {
      var ring := Ring();
      assert forall j :: 0 <= j < |nodes| ==> ring[j + 1] == nodes[j];
      assert ring[0] == head;
    }

    static lemma NextAfterRemoval(head: Entry<T>, s: seq<Entry<T>>, k: nat)
      requires k < |s|
      ensures var r := Removed(s, k);
        ([head] + s)[Next(k + 1, |s| + 1)] == if k == |r| then head else r[k]
    {
    }

    static lemma InsertedMembers(s: seq<Entry<T>>, k: nat, e: Entry<T>)
      requires k <= |s|
      ensures forall i :: 0 <= i < |Inserted(s, k, e)| ==> Inserted(s, k, e)[i] == e || Inserted(s, k, e)[i] in s
    {
    }

    static lemma RingInserted(head: Entry<T>, s: seq<Entry<T>>, k: nat, e: Entry<T>)
      requires k <= |s|
      ensures [head] + Inserted(s, k, e) == Inserted([head] + s, k + 1, e)
    {
    }

    /** insert / emplace: the new node sits just before pos; refused, nothing changes. */
    method Insert(pos: Entry<T>, value: T, granted: bool, ghost k: nat) returns (it: Entry<T>)
      requires Valid() && k <= |nodes| && pos == At(k)
      modifies this, pool, Cells()`flink, Cells()`blink
      ensures Valid()
      ensures !granted ==> it == head && nodes == old(nodes) && pool.live == old(pool.live)
      ensures !granted ==> forall e :: e in Ring() ==> e.flink == old(e.flink) && e.blink == old(e.blink)
      ensures granted ==> fresh(it) && it.value == Some(value) && nodes == Inserted(old(nodes), k, it)
      ensures granted ==> pool.live == old(pool.live) + {it}
      ensures pool.freed == old(pool.freed)
    {
      var node := pool.Allocate(granted, value);
      if node.None? {
        return head;
      }
      it := node.value;
      BlinkAt(Ring(), if k == |nodes| then 0 else k + 1);
      CellsAreRing();
      InsertedMembers(nodes, k, it);
      RingInserted(head, nodes, k, it);
      hide Linked, Elems, Inserted;
      InsertHeadList(pos.blink, it, Ring(), k);
      ghost var was := nodes;
      nodes := Inserted(nodes, k, it);
      forall i | 0 <= i < |nodes| ensures nodes[i] in pool.live && nodes[i] !in pool.freed && nodes[i].value.Some? {
        assert nodes[i] == it || nodes[i] in was;
      }
    }

    /** The nodes that stay, and not the one that goes, are what the pool has out. */
    static lemma StockedWithout(was: seq<Entry<T>>, rest: seq<Entry<T>>, pos: Entry<T>, pool: Pool<T>)
      requires Stocked(was, pool) && Elems(rest) == Elems(was) - {pos}
      ensures forall i :: 0 <= i < |rest| ==>
        rest[i] != pos && rest[i] in pool.live && rest[i] !in pool.freed && rest[i].value.Some?
    {
      forall i | 0 <= i < |rest|
        ensures rest[i] != pos && rest[i] in pool.live && rest[i] !in pool.freed && rest[i].value.Some?
      {
        assert rest[i] in Elems(rest);
      }
    }

    /** erase: exactly that node goes, back to the pool; the successor is returned. */
    method Erase(pos: Entry<T>, ghost k: nat) returns (next: Entry<T>)
      requires Valid() && k < |nodes| && pos == nodes[k]
      modifies this, pool, Cells()`flink, Cells()`blink
      ensures Valid()
      ensures nodes == Removed(old(nodes), k) && next == At(k)
      ensures pool.live == old(pool.live) - {pos} && pool.freed == old(pool.freed) + {pos}
    {
      ghost var ring := Ring();
      NodesDistinct();
      RemovedDistinct(nodes, k);
      assert [head] + Removed(nodes, k) == Removed(ring, k + 1);
      hide Linked, Removed, Distinct;
      FlinkAt(ring, k + 1);
      assert ring[k + 1] == pos;
      next := pos.flink;
      CellsAreRing();
      RemoveEntryList(pos, ring, k + 1);
      ghost var was := nodes;
      nodes := Removed(nodes, k);
      StockedWithout(was, nodes, pos, pool);
      pool.Deallocate(pos);
      assert next == At(k) by {
        NextAfterRemoval(head, was, k);
      }
    }

    /** erase(first, last): exactly the nodes of [first, last) go. */
    method EraseRange(first: Entry<T>, last: Entry<T>, ghost i: nat, ghost j: nat) returns (it: Entry<T>)
      requires Valid() && i <= j <= |nodes| && first == At(i) && last == At(j)
      modifies this, pool, Cells()`flink, Cells()`blink
      ensures Valid()
      ensures nodes == old(nodes[..i] + nodes[j..]) && it == last == At(i)
      ensures pool.live == old(pool.live) - Elems(old(nodes[i..j]))
      ensures pool.freed == old(pool.freed) + Elems(old(nodes[i..j]))
    {
      hide Linked, Removed, Elems, Distinct;
      ghost var s := nodes;
      ghost var m := i;
      RangeStart(s, i);
      var first' := first;
      while first' != last
        invariant Valid() && i <= m <= j && nodes == s[..i] + s[m..]
        invariant first' == At(i) && (i == |nodes| || nodes[i] == s[m])
        invariant Cells() <= old(Cells())
        invariant pool.live == old(pool.live) - Elems(s[i..m])
        invariant pool.freed == old(pool.freed) + Elems(s[i..m])
        invariant last == At(i + (j - m))
        decreases j - m
      {
        RangeStep(s, i, m);
        assert first' == s[m];
        ghost var gone := Elems(s[i..m]);
        first' := Erase(first', i);
        SetStep(old(pool.live), old(pool.freed), gone, s[m]);
        m := m + 1;
      }
      AtInjective(i);
      it := last;
    }

    static lemma RangeStep(s: seq<Entry<T>>, i: nat, m: nat)
      requires i <= m < |s|
      ensures Removed(s[..i] + s[m..], i) == s[..i] + s[m + 1..]
      ensures Elems(s[i..m + 1]) == Elems(s[i..m]) + {s[m]}
      ensures Elems(s[..i] + s[m + 1..]) <= Elems(s)
    {
      assert s[i..m + 1] == s[i..m] + [s[m]];
    }

    static lemma RangeStart(s: seq<Entry<T>>, i: nat)
      requires i <= |s|
      ensures s[..i] + s[i..] == s && Elems(s[i..i]) == {}
    {
    }

    static lemma SetStep(live: set<Entry<T>>, freed: set<Entry<T>>, gone: set<Entry<T>>, e: Entry<T>)
      ensures live - gone - {e} == live - (gone + {e})
      ensures freed + gone + {e} == freed + (gone + {e})
    {
    }

    lemma AtInjective(k: nat)
      requires Valid() && k <= |nodes|
      ensures forall j :: 0 <= j <= |nodes| && At(j) == At(k) ==> j == k
    {
      var ring := Ring();
      assert forall j :: 0 <= j < |nodes| ==> ring[j + 1] == nodes[j];
    }

    /** clear, which is also the destructor. */
    method Clear()
      requires Valid()
      modifies this, pool, Cells()`flink, Cells()`blink
      ensures Valid() && nodes == []
      ensures pool.live == old(pool.live) - Elems(old(nodes)) && pool.freed == old(pool.freed) + Elems(old(nodes))
    {
      ghost var s := nodes;
      ghost var m := 0;
      var empty := Empty();
      while !empty
        invariant Valid() && m <= |s| && nodes == s[m..] && (empty <==> nodes == [])
        invariant Cells() <= old(Cells())
        invariant pool.live == old(pool.live) - Elems(s[..m])
        invariant pool.freed == old(pool.freed) + Elems(s[..m])
        decreases |s| - m
      {
        assert s[..m + 1] == s[..m] + [s[m]];
        var it := Begin();
        it := Erase(it, 0);
        m := m + 1;
        empty := Empty();
      }
      assert s[..m] == s;
    }

    /** Move construction: the nodes change hands, the source is left empty. */
    constructor Move(other: List<T>)
      requires other.Valid()
      modifies other, other.Cells()`flink, other.Cells()`blink
      ensures Valid() && other.Valid() && pool == other.pool && fresh(head)
      ensures nodes == old(other.nodes) && other.nodes == []
    {
      pool := other.pool;
      head := new Entry(None);
      nodes := [];
      new;
      assert Ring() == [head] && JoinedAt(Ring(), 0);
      var empty := other.Empty();
      if !empty {
        TakeFrom(other);
      }
    }

    /** The common tail of the moves: copy the head, fix its neighbours, reset the other head. */
    method TakeFrom(other: List<T>)
      requires other != this && other.Valid() && other.nodes != [] && other.pool == pool
      requires head !in other.Cells() && head !in pool.live
      modifies this, other, head`flink, head`blink, other.Cells()`flink, other.Cells()`blink
      ensures Valid() && other.Valid()
      ensures nodes == old(other.nodes) && other.nodes == []
    {
      ghost var moved := other.nodes;
      hide Linked, Chain, Distinct, Stocked;
      LinkedChain(other.head, moved);
      head.flink, head.blink := other.head.flink, other.head.blink;
      FixNeighbours(head, moved);
      nodes := moved;
      other.nodes := [];
      InitializeListHead(other.head);
      assert other.Ring() == [other.head];
    }

    /** Move assignment; onto itself it does nothing. */
    method MoveAssign(other: List<T>)
      requires Valid() && other.Valid() && pool == other.pool
      requires other != this ==> Apart(other)
      modifies this, other, pool, Cells()`flink, Cells()`blink, other.Cells()`flink, other.Cells()`blink
      ensures Valid() && other.Valid()
      ensures other == this ==> nodes == old(nodes) && pool.live == old(pool.live) && pool.freed == old(pool.freed)
      ensures other != this ==> nodes == old(other.nodes) && other.nodes == [] && Apart(other)
      ensures other != this ==> pool.live == old(pool.live) - Elems(old(nodes))
      ensures other != this ==> pool.freed == old(pool.freed) + Elems(old(nodes))
    {
      if this != other {
        ghost var mine := nodes;
        Clear();
        assert forall i :: 0 <= i < |other.nodes| ==> other.nodes[i] in other.Cells();
        var empty := other.Empty();
        if !empty {
          TakeFrom(other);
        }
      }
    }

    /** Two lists share no entry. */
    ghost predicate Apart(other: List<T>)
      reads this, other
    {
      Cells() !! other.Cells()
    }

    /** swap, in its four emptiness cases. */
    method Swap(other: List<T>)
      requires Valid() && other.Valid() && pool == other.pool
      requires other != this ==> Apart(other)
      modifies this, other, Cells()`flink, Cells()`blink, other.Cells()`flink, other.Cells()`blink
      ensures Valid() && other.Valid()
      ensures nodes == old(other.nodes) && other.nodes == old(nodes)
      ensures other != this ==> Apart(other)
    {
      if this == other {
        return;
      }
      var empty := Empty();
      var otherEmpty := other.Empty();
      if !empty && !otherEmpty {
        SwapHeads(other);
      } else if empty && !otherEmpty {
        TakeFrom(other);
      } else if !empty && otherEmpty {
        other.TakeFrom(this);
      }
    }

    method SwapHeads(other: List<T>)
      requires Valid() && other.Valid() && pool == other.pool && other != this && Apart(other)
      requires nodes != [] && other.nodes != []
      modifies this, other, Cells()`flink, Cells()`blink, other.Cells()`flink, other.Cells()`blink
      ensures Valid() && other.Valid()
      ensures nodes == old(other.nodes) && other.nodes == old(nodes)
    {
      hide Linked, Stocked;
      SwapLinks(head, other.head, nodes, other.nodes);
      nodes, other.nodes := other.nodes, nodes;
    }
  }
}
