/** A klist refines a sequence: over every history of operations, whatever the pool answers. */
module KListHistory {
  import opened ListEntry
  import opened KList

  /** A list operation, iterators given by how far they are from begin(). */
  datatype Op<T> =
    | Insert(at: nat, value: T, granted: bool)
    | Erase(at: nat)
    | EraseRange(from: nat, to: nat)
    | Clear

  /** The operation applies to a list of that length. */
  predicate Applies<T>(op: Op<T>, n: nat)
  {
    match op
    case Insert(at, _, _) => at <= n
    case Erase(at) => at < n
    case EraseRange(from, to) => from <= to <= n
    case Clear => true
  }

  /** The operation on a plain sequence. */
  function Apply<T>(s: seq<T>, op: Op<T>): seq<T>
    requires Applies(op, |s|)
  {
    match op
    case Insert(at, value, granted) => if granted then s[..at] + [value] + s[at..] else s
    case Erase(at) => s[..at] + s[at + 1..]
    case EraseRange(from, to) => s[..from] + s[to..]
    case Clear => []
  }

  /** Nodes of the pool that are out but belong to other lists. */
  ghost function Others<T>(l: List<T>): set<Entry<T>>
    reads l, l.pool
  {
    l.pool.live - Elems(l.nodes)
  }

  ghost predicate PoolOk<T>(pool: Pool<T>)
    reads pool
  {
    pool.live !! pool.freed
  }

  ghost function Allocated<T>(pool: Pool<T>): set<Entry<T>>
    reads pool
  {
    pool.live + pool.freed
  }

  /** begin(), then ++ k times. */
  method Locate<T>(l: List<T>, k: nat) returns (it: Entry<T>)
    requires l.Valid() && k <= |l.nodes|
    ensures it == l.At(k)
  {
    it := l.Begin();
    var i := 0;
    while i < k
      invariant 0 <= i <= k && it == l.At(i)
    {
      it := l.Increment(it, i);
      i := i + 1;
    }
  }

  method Size<T>(l: List<T>) returns (n: nat)
    requires l.Valid()
    ensures n == |l.nodes|
  {
    l.NodesDistinct();
    var it := l.Begin();
    n := 0;
    while it != l.head
      invariant n <= |l.nodes| && it == l.At(n)
      decreases |l.nodes| - n
    {
      it := l.Increment(it, n);
      n := n + 1;
    }
  }

  lemma InsertedElems<A>(s: seq<A>, k: nat, x: A)
    requires k <= |s|
    ensures Elems(Inserted(s, k, x)) == Elems(s) + {x}
  {
    assert s == s[..k] + s[k..];
  }

  lemma SliceElems<A>(s: seq<A>, i: nat, j: nat)
    requires i <= j <= |s|
    ensures Elems(s[i..j]) <= Elems(s)
    ensures j == i + 1 ==> Elems(s[i..j]) == {s[i]}
  {
  }

  lemma SameOthers<A>(live: set<A>, mine: set<A>, more: set<A>)
    requires more !! live
    ensures live + more - (mine + more) == live - mine
  {
  }

  lemma SameOthersLess<A>(live: set<A>, mine: set<A>, gone: set<A>)
    requires gone <= mine
    ensures live - gone - (mine - gone) == live - mine
  {
  }

  method PerformInsert<T>(l: List<T>, at: nat, value: T, granted: bool)
    requires l.Valid() && PoolOk(l.pool) && at <= |l.nodes|
    modifies l, l.pool, l.Cells()`flink, l.Cells()`blink
    ensures l.Valid() && PoolOk(l.pool) && Others(l) == old(Others(l))
    ensures l.Values() == Apply(old(l.Values()), Insert(at, value, granted))
    ensures fresh(l.Cells() - old(l.Cells()))
    ensures old(Allocated(l.pool)) <= Allocated(l.pool)
  {
    hide Linked, Distinct, Elems;
    ghost var was := l.nodes;
    var pos := Locate(l, at);
    var it := l.Insert(pos, value, granted, at);
    if granted {
      InsertedElems(was, at, it);
      SameOthers(old(l.pool.live), Elems(was), {it});
    }
  }

  method PerformErase<T>(l: List<T>, at: nat)
    requires l.Valid() && PoolOk(l.pool) && at < |l.nodes|
    modifies l, l.pool, l.Cells()`flink, l.Cells()`blink
    ensures l.Valid() && PoolOk(l.pool) && Others(l) == old(Others(l))
    ensures l.Values() == Apply(old(l.Values()), Erase(at))
    ensures fresh(l.Cells() - old(l.Cells()))
    ensures old(Allocated(l.pool)) <= Allocated(l.pool)
  {
    hide Linked, Distinct, Elems;
    ghost var was := l.nodes;
    l.NodesDistinct();
    RemovedDistinct(was, at);
    SliceElems(was, at, at + 1);
    assert was[at..at + 1] == [was[at]];
    SameOthersLess(l.pool.live, Elems(was), {was[at]});
    var pos := Locate(l, at);
    ghost var values := l.Values();
    var _ := l.Erase(pos, at);
    assert l.Values() == values[..at] + values[at + 1..];
  }

  method PerformEraseRange<T>(l: List<T>, from: nat, to: nat)
    requires l.Valid() && PoolOk(l.pool) && from <= to <= |l.nodes|
    modifies l, l.pool, l.Cells()`flink, l.Cells()`blink
    ensures l.Valid() && PoolOk(l.pool) && Others(l) == old(Others(l))
    ensures l.Values() == Apply(old(l.Values()), EraseRange(from, to))
    ensures fresh(l.Cells() - old(l.Cells()))
    ensures old(Allocated(l.pool)) <= Allocated(l.pool)
  {
    hide Linked, Distinct, Elems;
    ghost var was := l.nodes;
    l.NodesDistinct();
    RangeElems(was, from, to);
    SliceElems(was, from, to);
    SameOthersLess(l.pool.live, Elems(was), Elems(was[from..to]));
    var first := Locate(l, from);
    var last := Locate(l, to);
    ghost var values := l.Values();
    var _ := l.EraseRange(first, last, from, to);
    assert l.Values() == values[..from] + values[to..];
  }

  /** One operation through iterators. */
  method Perform<T>(l: List<T>, op: Op<T>)
    requires l.Valid() && PoolOk(l.pool) && Applies(op, |l.nodes|)
    modifies l, l.pool, l.Cells()`flink, l.Cells()`blink
    ensures l.Valid() && PoolOk(l.pool) && Others(l) == old(Others(l))
    ensures l.Values() == Apply(old(l.Values()), op)
    ensures fresh(l.Cells() - old(l.Cells()))
    ensures old(Allocated(l.pool)) <= Allocated(l.pool)
  {
    hide Linked;
    match op {
      case Insert(at, value, granted) => PerformInsert(l, at, value, granted);
      case Erase(at) => PerformErase(l, at);
      case EraseRange(from, to) => PerformEraseRange(l, from, to);
      case Clear => l.Clear();
    }
  }

  lemma RangeElems<A>(s: seq<A>, i: nat, j: nat)
    requires i <= j <= |s| && Distinct(s)
    ensures Elems(s[..i] + s[j..]) == Elems(s) - Elems(s[i..j])
  {
    forall x | x in Elems(s) - Elems(s[i..j]) ensures x in s[..i] + s[j..] {
      var k :| 0 <= k < |s| && s[k] == x;
      assert forall m :: i <= m < j ==> s[i..j][m - i] == s[m];
      if k < i {
        assert (s[..i] + s[j..])[k] == x;
      } else {
        assert (s[..i] + s[j..])[k - j + i] == x;
      }
    }
  }

  // ---- Two lists over one pool ----

  datatype Op2<T> =
    | OnFirst(op: Op<T>)
    | OnSecond(op: Op<T>)
    | Swap
    | MoveToFirst
    | MoveToSecond

  /** The operation on a pair of plain sequences; one that does not apply is not issued. */
  function Apply2<T>(s: (seq<T>, seq<T>), op: Op2<T>): (seq<T>, seq<T>)
  {
    match op
    case OnFirst(op) => if Applies(op, |s.0|) then (Apply(s.0, op), s.1) else s
    case OnSecond(op) => if Applies(op, |s.1|) then (s.0, Apply(s.1, op)) else s
    case Swap => (s.1, s.0)
    case MoveToFirst => (s.1, [])
    case MoveToSecond => ([], s.0)
  }

  function ApplyAll<T>(s: (seq<T>, seq<T>), ops: seq<Op2<T>>): (seq<T>, seq<T>)
    decreases |ops|
  {
    if ops == [] then s else ApplyAll(Apply2(s, ops[0]), ops[1..])
  }

  /** Two lists whose nodes are exactly what is out of the pool, none of them shared. */
  ghost predicate Pair<T>(a: List<T>, b: List<T>)
    reads a, b, a.head, b.head, a.nodes, b.nodes, a.pool, b.pool
  {
    && a != b && a.pool == b.pool && a.Valid() && b.Valid() && a.Apart(b)
    && a.pool.live == Elems(a.nodes) + Elems(b.nodes) && PoolOk(a.pool)
  }

  ghost function Contents<T>(a: List<T>, b: List<T>): (seq<T>, seq<T>)
    requires Pair(a, b)
    reads a, b, a.head, b.head, a.nodes, b.nodes, a.pool, b.pool
  {
    (a.Values(), b.Values())
  }

  method PerformOnFirst<T>(a: List<T>, b: List<T>, op: Op<T>)
    requires Pair(a, b)
    modifies a, a.pool, a.Cells()`flink, a.Cells()`blink
    ensures Pair(a, b)
    ensures a.Values() == if Applies(op, |old(a.Values())|) then Apply(old(a.Values()), op) else old(a.Values())
    ensures b.Values() == old(b.Values())
    ensures fresh(a.Cells() - old(a.Cells()))
    ensures old(Allocated(a.pool)) <= Allocated(a.pool)
  {
    hide Linked, Distinct, Apply, Applies;
    var n := Size(a);
    if Applies(op, n) {
      a.NodesDistinct();
      Perform(a, op);
      assert Elems(b.nodes) <= a.pool.live;
      assert forall i :: 0 <= i < |b.nodes| ==> b.nodes[i] in Elems(b.nodes);
    }
  }

  method Perform2<T>(a: List<T>, b: List<T>, op: Op2<T>)
    requires Pair(a, b)
    modifies a, b, a.pool, a.Cells()`flink, a.Cells()`blink, b.Cells()`flink, b.Cells()`blink
    ensures Pair(a, b)
    ensures Contents(a, b) == Apply2(old(Contents(a, b)), op)
    ensures fresh(a.Cells() + b.Cells() - old(a.Cells() + b.Cells()))
    ensures old(Allocated(a.pool)) <= Allocated(a.pool)
  {
    hide Linked, Distinct, Apply, Applies;
    match op {
      case OnFirst(op) => PerformOnFirst(a, b, op);
      case OnSecond(op) => PerformOnFirst(b, a, op);
      case Swap =>
        a.Swap(b);
        assert a.Values() == old(b.Values()) && b.Values() == old(a.Values());
      case MoveToFirst =>
        a.MoveAssign(b);
        assert a.Values() == old(b.Values()) && b.Values() == [];
      case MoveToSecond =>
        b.MoveAssign(a);
        assert b.Values() == old(a.Values()) && a.Values() == [];
    }
  }

  /** Every history over two lists, whatever the pool answers: the contents are those of the two
      sequences, both rings stay well formed, and every node ever allocated is in exactly one
      list or has been freed, once. */
  method Run<T>(a: List<T>, b: List<T>, ops: seq<Op2<T>>)
    requires Pair(a, b)
    modifies a, b, a.pool, a.Cells()`flink, a.Cells()`blink, b.Cells()`flink, b.Cells()`blink
    ensures Pair(a, b)
    ensures Contents(a, b) == ApplyAll(old(Contents(a, b)), ops)
    ensures old(Allocated(a.pool)) <= Allocated(a.pool)
  {
    hide Linked, Pair, Contents, Apply2;
    var i := 0;
    while i < |ops|
      invariant 0 <= i <= |ops| && Pair(a, b)
      invariant ApplyAll(Contents(a, b), ops[i..]) == ApplyAll(old(Contents(a, b)), ops)
      invariant fresh(a.Cells() + b.Cells() - old(a.Cells() + b.Cells()))
      invariant old(Allocated(a.pool)) <= Allocated(a.pool)
    {
      assert ops[i..][1..] == ops[i + 1..];
      Perform2(a, b, ops[i]);
      i := i + 1;
    }
  }

  ghost function Reversed<A>(s: seq<A>): seq<A>
  {
    if s == [] then [] else Reversed(s[1..]) + [s[0]]
  }

  /** From begin() to end() by ++. */
  method Collect<T>(l: List<T>) returns (vs: seq<T>)
    requires l.Valid()
    ensures vs == l.Values()
  {
    l.NodesDistinct();
    var it := l.Begin();
    vs := [];
    while it != l.head
      invariant |vs| <= |l.nodes| && it == l.At(|vs|) && vs == l.Values()[..|vs|]
      decreases |l.nodes| - |vs|
    {
      vs := vs + [it.value.value];
      it := l.Increment(it, |vs| - 1);
    }
  }

  /** From end() to begin() by --: the same values in reverse. */
  method CollectBackward<T>(l: List<T>) returns (vs: seq<T>)
    requires l.Valid()
    ensures vs == Reversed(l.Values())
  {
    l.NodesDistinct();
    var first := l.Begin();
    var it := l.head;
    vs := [];
    ghost var k := |l.nodes|;
    while it != first
      invariant 0 <= k <= |l.nodes| && it == l.At(k) && vs == Reversed(l.Values()[k..])
      decreases k
    {
      it := l.Decrement(it, k);
      k := k - 1;
      assert l.Values()[k..][1..] == l.Values()[k + 1..];
      vs := vs + [it.value.value];
    }
    l.AtInjective(0);
    assert l.Values()[0..] == l.Values();
  }
}
