/** LIST_ENTRY rings and the WDK primitives on them. */
module ListEntry {
  import opened Machine

  /** A LIST_ENTRY; for a node it comes with the value behind it. */
  class Entry<T> {
    var flink: Entry<T>
    var blink: Entry<T>
    var value: Option<T>

    constructor (value: Option<T>)
      ensures flink == this && blink == this && this.value == value
    {
      flink, blink := this, this;
      this.value := value;
    }
  }

  ghost function Elems<A>(s: seq<A>): set<A>
  {
    set x | x in s
  }

  ghost predicate Distinct<A>(s: seq<A>)
  {
    forall i, j :: 0 <= i < j < |s| ==> s[i] != s[j]
  }

  function Next(i: nat, n: nat): nat { if i + 1 == n then 0 else i + 1 }

  function Prev(i: nat, n: nat): int { if i == 0 then n - 1 else i - 1 }

  /** Following flink visits ring in order and returns to its start; blink is its inverse. */
  ghost predicate Linked<T>(ring: seq<Entry<T>>)
    reads ring
  {
    && ring != [] && Distinct(ring)
    && forall i: nat :: i < |ring| ==> JoinedAt(ring, i)
  }

  /** Entry i and its successor point at each other. */
  ghost predicate JoinedAt<T>(ring: seq<Entry<T>>, i: nat)
    reads ring
  {
    i < |ring| && ring[i].flink == ring[Next(i, |ring|)] && ring[Next(i, |ring|)].blink == ring[i]
  }

  lemma FlinkAt<T>(ring: seq<Entry<T>>, i: nat)
    requires Linked(ring) && i < |ring|
    ensures ring[i].flink == ring[Next(i, |ring|)]
  {
    assert JoinedAt(ring, i);
  }

  lemma BlinkAt<T>(ring: seq<Entry<T>>, i: nat)
    requires Linked(ring) && i < |ring|
    ensures ring[i].blink == ring[Prev(i, |ring|)]
  {
    assert JoinedAt(ring, Prev(i, |ring|));
  }

  ghost function Inserted<A>(s: seq<A>, k: nat, x: A): seq<A>
    requires k <= |s|
  {
    s[..k] + [x] + s[k..]
  }

  ghost function Removed<A>(s: seq<A>, k: nat): seq<A>
    requires k < |s|
  {
    s[..k] + s[k + 1..]
  }

  lemma InsertedDistinct<A>(s: seq<A>, k: nat, x: A)
    requires k <= |s| && Distinct(s) && x !in s
    ensures Distinct(Inserted(s, k, x))
  {
  }

  lemma RemovedDistinct<A>(s: seq<A>, k: nat)
    requires k < |s| && Distinct(s)
    ensures Distinct(Removed(s, k)) && s[k] !in Removed(s, k)
    ensures Elems(Removed(s, k)) == Elems(s) - {s[k]}
  {
    var r := Removed(s, k);
    forall x | x in s && x != s[k] ensures x in r {
      var i :| 0 <= i < |s| && s[i] == x;
      assert x == if i < k then r[i] else r[i - 1];
    }
  }

  method InitializeListHead<T>(head: Entry<T>)
    modifies head`flink, head`blink
    ensures Linked([head])
  {
    head.flink, head.blink := head, head;
  }

  /** InsertHeadList(p, e): e goes right behind p. */
  method InsertHeadList<T>(p: Entry<T>, e: Entry<T>, ghost ring: seq<Entry<T>>, ghost k: nat)
    requires Linked(ring) && k < |ring| && p == ring[k] && e !in ring
    modifies Elems(ring)`flink, Elems(ring)`blink, e`flink, e`blink
    ensures Linked(Inserted(ring, k + 1, e))
  {
    InsertedDistinct(ring, k + 1, e);
    assert JoinedAt(ring, k);
    label before:
    var next := p.flink;
    ghost var n, nx := |ring|, Next(k, |ring|);
    assert next == ring[nx];
    e.flink := next;
    e.blink := p;
    next.blink := e;
    p.flink := e;

    ghost var ring' := Inserted(ring, k + 1, e);
    forall i: nat | i <= n ensures JoinedAt(ring', i) {
      if i < k {
        assert old@before(JoinedAt(ring, i));
        assert ring'[i] == ring[i] && ring'[i + 1] == ring[i + 1];
      } else if i > k + 1 {
        assert old@before(JoinedAt(ring, i - 1));
        assert ring'[i] == ring[i - 1] && ring'[Next(i, n + 1)] == ring[Next(i - 1, n)];
      } else {
        assert ring'[k] == p && ring'[k + 1] == e && ring'[Next(k + 1, n + 1)] == next;
      }
    }
  }

  /** RemoveEntryList(e): its neighbours now point at each other. */
  method RemoveEntryList<T>(e: Entry<T>, ghost ring: seq<Entry<T>>, ghost k: nat)
    requires Linked(ring) && k < |ring| && e == ring[k] && |ring| >= 2
    modifies Elems(ring)`flink, Elems(ring)`blink
    ensures Linked(Removed(ring, k))
    ensures e.flink == old(e.flink) && e.blink == old(e.blink)
  {
    RemovedDistinct(ring, k);
    BlinkAt(ring, k);
    assert JoinedAt(ring, k);
    label before:
    var next, prev := e.flink, e.blink;
    ghost var n := |ring| - 1;
    assert next == ring[Next(k, n + 1)] && prev == ring[Prev(k, n + 1)];
    prev.flink := next;
    next.blink := prev;

    ghost var ring' := Removed(ring, k);
    forall i: nat | i < n ensures JoinedAt(ring', i) {
      var j := if i < k then i else i + 1;
      assert old@before(JoinedAt(ring, j));
      assert ring'[i] == ring[j];
      if Next(j, n + 1) == k {
        assert ring'[Next(i, n)] == next && ring[j] == prev;
      } else {
        assert ring'[Next(i, n)] == ring[Next(j, n + 1)];
      }
    }
  }

  // ---- Moving a whole ring to another head ----

  /** The entries between two visits of the head. */
  ghost predicate Chain<T>(nodes: seq<Entry<T>>)
    reads nodes
  {
    && nodes != [] && Distinct(nodes)
    && forall i: nat :: i + 1 < |nodes| ==> AdjacentAt(nodes, i)
  }

  ghost predicate AdjacentAt<T>(nodes: seq<Entry<T>>, i: nat)
    reads nodes
  {
    i + 1 < |nodes| && nodes[i].flink == nodes[i + 1] && nodes[i + 1].blink == nodes[i]
  }

  lemma LinkedChain<T>(head: Entry<T>, nodes: seq<Entry<T>>)
    requires Linked([head] + nodes) && nodes != []
    ensures Chain(nodes) && head.flink == nodes[0] && head.blink == nodes[|nodes| - 1]
    ensures head !in nodes
  {
    var ring := [head] + nodes;
    assert JoinedAt(ring, 0);
    assert JoinedAt(ring, |nodes|);
    assert forall j :: 0 <= j < |nodes| ==> nodes[j] == ring[j + 1];
    assert forall i: nat :: i + 1 < |nodes| ==> JoinedAt(ring, i + 1) ==> AdjacentAt(nodes, i);
    assert head == ring[0];
  }

  /** With the head's two links already copied, point the ends of the chain back at it. */
  method FixNeighbours<T>(head: Entry<T>, ghost nodes: seq<Entry<T>>)
    requires Chain(nodes) && head !in nodes
    requires head.flink == nodes[0] && head.blink == nodes[|nodes| - 1]
    modifies Elems(nodes)`flink, Elems(nodes)`blink
    ensures Linked([head] + nodes)
  {
    label before:
    head.flink.blink := head;
    head.blink.flink := head;
    ghost var ring := [head] + nodes;
    assert Distinct(ring);
    forall i: nat | i < |ring| ensures JoinedAt(ring, i) {
      if 0 < i < |nodes| {
        assert old@before(AdjacentAt(nodes, i - 1));
      }
    }
  }

  /** std::swap of two heads, then both fixed up: the rings change heads. */
  method SwapLinks<T>(a: Entry<T>, b: Entry<T>, ghost mine: seq<Entry<T>>, ghost theirs: seq<Entry<T>>)
    requires Linked([a] + mine) && Linked([b] + theirs) && mine != [] && theirs != []
    requires a != b && a !in theirs && b !in mine && Elems(mine) !! Elems(theirs)
    modifies {a, b}`flink, {a, b}`blink, Elems(mine)`flink, Elems(mine)`blink, Elems(theirs)`flink, Elems(theirs)`blink
    ensures Linked([a] + theirs) && Linked([b] + mine)
  {
    LinkedChain(a, mine);
    LinkedChain(b, theirs);
    hide Linked, Chain;
    var flink, blink := a.flink, a.blink;
    a.flink, a.blink := b.flink, b.blink;
    b.flink, b.blink := flink, blink;
    FixNeighbours(a, theirs);
    FixNeighbours(b, mine);
  }
}
