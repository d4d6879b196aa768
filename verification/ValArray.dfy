/** Arrays of fixed-size entries inside a byte buffer, addressed by two offsets. */
module ValArray {
  import opened Bytes

  /** A size made of whole entries. */
  predicate Whole(size: nat, entry: nat)
    requires entry > 0
  {
    if size < entry then size == 0 else Whole(size - entry, entry)
  }

  /** What the range check is for: whole entries, inside the buffer. */
  predicate RangeOk(bufSize: nat, begin: nat, end: nat, entry: nat)
    requires entry > 0
  {
    begin <= end <= bufSize && Whole(end - begin, entry)
  }

  lemma {:induction false} WholeIsDivisible(size: nat, entry: nat)
    requires entry > 0
    ensures Whole(size, entry) <==> size % entry == 0
  {
    if size >= entry {
      WholeIsDivisible(size - entry, entry);
      DivStep(size - entry, entry);
    } else {
      DivUnique(size, entry, 0, size);
    }
  }

  lemma MulSmall(k: int, d: int)
    requires 0 < d && -d < k * d < d
    ensures k == 0
  {
    MulFar(k, d);
  }

  lemma MulFar(k: int, d: int)
    requires 0 < d
    ensures k >= 1 ==> k * d >= d
    ensures k <= -1 ==> k * d <= -d
  {
  }

  lemma DivUnique(x: nat, d: nat, q: nat, r: nat)
    requires d > 0 && r < d && x == q * d + r
    ensures x / d == q && x % d == r
  {
    assert x == x / d * d + x % d;
    assert (q - x / d) * d == x % d - r;
    MulSmall(q - x / d, d);
  }

  lemma DivStep(x: nat, entry: nat)
    requires entry > 0
    ensures (x + entry) / entry == x / entry + 1
    ensures (x + entry) % entry == x % entry
  {
    var q, r := x / entry, x % entry;
    assert x == q * entry + r;
    assert x + entry == (q + 1) * entry + r;
    DivUnique(x + entry, entry, q + 1, r);
  }

  /** The range check of iter_valarray: pointer arithmetic and comparisons on wrapping
      64-bit addresses, in the order the code performs them. */
  predicate RangeAccepted(buf: nat, bufSize: nat, beginOffset: nat, endOffset: nat, entry: nat)
    requires entry > 0
  {
    var begin := (buf + beginOffset) % TWO64;
    var end := (buf + endOffset) % TWO64;
    var size := (end - begin) % TWO64;
    var bufEnd := (buf + bufSize) % TWO64;
    !(begin < buf || begin > bufEnd) && !(end < buf || end > bufEnd) && !(begin > end || size % entry != 0)
  }

  /** An offset lands in [buf, buf + bufSize] exactly when it is at most bufSize: one beyond
      it ends up above, or wraps around to below buf. */
  lemma OffsetInside(buf: nat, bufSize: nat, off: nat)
    requires buf + bufSize < TWO64 && off < TWO64
    ensures var p := (buf + off) % TWO64; !(p < buf || p > buf + bufSize) <==> off <= bufSize
    ensures off <= bufSize ==> (buf + off) % TWO64 == buf + off
  {
  }

  lemma RangeAcceptedIff(buf: nat, bufSize: nat, begin: nat, end: nat, entry: nat)
    requires entry > 0
    requires buf + bufSize < TWO64 && begin < TWO64 && end < TWO64
    ensures RangeAccepted(buf, bufSize, begin, end, entry) <==> RangeOk(bufSize, begin, end, entry)
  {
    OffsetInside(buf, bufSize, begin);
    OffsetInside(buf, bufSize, end);
    OffsetInside(buf, bufSize, bufSize);
    if begin <= end <= bufSize {
      WholeIsDivisible(end - begin, entry);
      OffsetInside(0, bufSize, end - begin);
    }
  }

  /** Where row i starts. */
  function RowPos(begin: nat, entry: nat, i: nat): nat
  {
    if i == 0 then begin else RowPos(begin, entry, i - 1) + entry
  }

  /** How many whole rows fit. */
  function RowCount(begin: nat, end: nat, entry: nat): nat
    requires entry > 0
    decreases end - begin
  {
    if begin + entry > end then 0 else 1 + RowCount(begin + entry, end, entry)
  }

  lemma {:induction false} RowPosClosed(begin: nat, entry: nat, i: nat)
    ensures RowPos(begin, entry, i) == begin + i * entry
  {
    if i > 0 {
      RowPosClosed(begin, entry, i - 1);
      assert i * entry == (i - 1) * entry + entry;
    }
  }

  lemma {:induction false} RowCountClosed(begin: nat, end: nat, entry: nat)
    requires entry > 0 && begin <= end
    ensures RowCount(begin, end, entry) == (end - begin) / entry
    decreases end - begin
  {
    if begin + entry <= end {
      RowCountClosed(begin + entry, end, entry);
      DivStep(end - begin - entry, entry);
    } else {
      DivUnique(end - begin, entry, 0, end - begin);
    }
  }

  lemma {:induction false} RowPosShift(begin: nat, entry: nat, i: nat)
    ensures RowPos(begin + entry, entry, i) == RowPos(begin, entry, i + 1)
  {
    if i > 0 {
      RowPosShift(begin, entry, i - 1);
    }
  }

  lemma {:induction false} EntryInside(begin: nat, end: nat, entry: nat, i: nat)
    requires entry > 0 && i < RowCount(begin, end, entry)
    ensures RowPos(begin, entry, i) + entry <= end
    decreases i
  {
    if i > 0 {
      EntryInside(begin + entry, end, entry, i - 1);
      RowPosShift(begin, entry, i - 1);
    }
  }

  lemma {:induction false} CountBound(begin: nat, end: nat, entry: nat)
    requires begin <= end && entry >= 8
    ensures 8 * RowCount(begin, end, entry) <= end - begin
    decreases end - begin
  {
    if begin + entry <= end {
      CountBound(begin + entry, end, entry);
    }
  }

  /** The loop header of iter_valarray: the range check, then the number of iterations. */
  method Enter(buf: nat, bufSize: nat, begin: nat, end: nat, entry: nat) returns (ok: bool, rows: nat)
    requires entry > 0
    requires buf + bufSize < TWO64 && begin < TWO64 && end < TWO64
    ensures ok <==> RangeOk(bufSize, begin, end, entry)
    ensures ok ==> rows == RowCount(begin, end, entry)
  {
    RangeAcceptedIff(buf, bufSize, begin, end, entry);
    ok := RangeAccepted(buf, bufSize, begin, end, entry);
    rows := 0;
    if ok {
      rows := (end - begin) / entry;
      RowCountClosed(begin, end, entry);
    }
  }

  /** count_valarray: one tick per entry. */
  method CountValarray(buf: nat, bufSize: nat, begin: nat, end: nat, entry: nat) returns (ok: bool, count: nat)
    requires entry > 0
    requires buf + bufSize < TWO64 && begin < TWO64 && end < TWO64
    ensures ok <==> RangeOk(bufSize, begin, end, entry)
    ensures ok ==> count * entry == end - begin
  {
    count := 0;
    var rows;
    ok, rows := Enter(buf, bufSize, begin, end, entry);
    if !ok {
      return;
    }
    while count < rows
      invariant count <= rows
    {
      count := count + 1;
    }
    RowCountClosed(begin, end, entry);
    if ok {
      WholeIsDivisible(end - begin, entry);
    }
  }
}
