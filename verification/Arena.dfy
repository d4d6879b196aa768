/** Sizing and carving of the loader's single allocation. */
module Arena {
  import opened Machine
  import opened Bytes

  const PAIR: nat := 16
  const NATIVE: nat := 8
  const ALIGNMENT: nat := 16

  /** How many elements each region holds, and the bytes needed for names. */
  datatype Counts = Counts(code: nat, data: nat, publics: nat, pubvars: nat, natives: nat, strings: nat)

  /** Offsets of the regions from the start of the arena. */
  datatype Layout = Layout(code: nat, data: nat, publics: nat, pubvars: nat, natives: nat, strings: nat)

  /** Counts that can come out of a file shorter than 2^32 bytes. */
  predicate FromFile(c: Counts)
  {
    && c.code < 0x2000_0000 && c.data < 0x4000_0000
    && c.publics < 0x2000_0000 && c.pubvars < 0x2000_0000 && c.natives < 0x2000_0000
    && c.strings <= 0x4000_0000_0000_0000
  }

  /** align_up, at the only alignment it is used with. */
  function AlignUp(value: nat): nat
  {
    (value + ALIGNMENT - 1) / ALIGNMENT * ALIGNMENT
  }

  /** AlignUp is the least multiple of the alignment that is not below the value. */
  lemma AlignUpLeast(value: nat, other: nat)
    ensures AlignUp(value) % ALIGNMENT == 0
    ensures value <= AlignUp(value) < value + ALIGNMENT
    ensures value <= other && other % ALIGNMENT == 0 ==> AlignUp(value) <= other
  {
  }

  /** The size requested from the pool. The natives are sized as pairs although they are
      stored as pointers, exactly as the source does. */
  function AllocSize(c: Counts): nat
  {
    AlignUp(c.code * CELL) + AlignUp(c.data * CELL)
    + AlignUp(c.publics * PAIR) + AlignUp(c.pubvars * PAIR)
    + AlignUp(c.natives * PAIR) + c.strings
  }

  /** What a 64-bit register holds of x. */
  function Wrap(x: int): (r: nat)
    ensures r < 0x1_0000_0000_0000_0000 && exists q: int :: Turns(x, r, q)
  {
    assert Turns(x, x % TWO64, x / TWO64);
    x % TWO64
  }

  /** x is r and q times round the register. */
  predicate Turns(x: int, r: int, q: int) { x == r + q * 0x1_0000_0000_0000_0000 }

  function MachineAlignUp(value: nat): nat
  {
    Wrap(Wrap(Wrap(value + ALIGNMENT) - 1) / ALIGNMENT * ALIGNMENT)
  }

  /** Byte sizes of the five typed regions, in the order they are summed. */
  function Regions(c: Counts): seq<nat>
  {
    [c.code * CELL, c.data * CELL, c.publics * PAIR, c.pubvars * PAIR, c.natives * PAIR]
  }

  function Total(regions: seq<nat>): nat
  {
    if regions == [] then 0 else Total(regions[..|regions| - 1]) + AlignUp(regions[|regions| - 1])
  }

  /** The same sum as the machine evaluates it, every operation modulo 2^64. */
  function MachineTotal(regions: seq<nat>): nat
  {
    if regions == [] then 0
    else Wrap(MachineTotal(regions[..|regions| - 1]) + MachineAlignUp(Wrap(regions[|regions| - 1])))
  }

  function MachineAllocSize(c: Counts): nat
  {
    Wrap(MachineTotal(Regions(c)) + c.strings)
  }

  lemma WrapSmall(x: nat)
    requires x < TWO64
    ensures Wrap(x) == x
  {
  }

  lemma MachineAlignUpExact(value: nat)
    requires value < 0x8_0000_0000
    ensures MachineAlignUp(Wrap(value)) == AlignUp(value) < 0x10_0000_0000
  {
    WrapSmall(value);
    WrapSmall(value + ALIGNMENT);
    WrapSmall(value + ALIGNMENT - 1);
    WrapSmall(AlignUp(value));
  }

  lemma {:induction false} TotalDoesNotWrap(regions: seq<nat>)
    requires |regions| <= 5
    requires forall i :: 0 <= i < |regions| ==> regions[i] < 0x8_0000_0000
    ensures MachineTotal(regions) == Total(regions) <= |regions| * 0x10_0000_0000
  {
    if regions != [] {
      var front, last := regions[..|regions| - 1], regions[|regions| - 1];
      TotalDoesNotWrap(front);
      MachineAlignUpExact(last);
      WrapSmall(Total(front) + AlignUp(last));
    }
  }

  lemma TotalIsAllocSize(c: Counts)
    ensures Total(Regions(c)) + c.strings == AllocSize(c)
  {
    var r := Regions(c);
    assert r[..4][..3] == r[..3] && r[..3][..2] == r[..2] && r[..2][..1] == r[..1] && r[..1][..0] == [];
    assert Total(r[..1]) == AlignUp(r[0]);
    assert Total(r[..2]) == Total(r[..1]) + AlignUp(r[1]);
    assert Total(r[..3]) == Total(r[..2]) + AlignUp(r[2]);
    assert Total(r[..4]) == Total(r[..3]) + AlignUp(r[3]);
  }

  /** No step of the size computation wraps. */
  lemma AllocSizeDoesNotWrap(c: Counts)
    requires FromFile(c)
    ensures MachineAllocSize(c) == AllocSize(c) < TWO64 / 2
  {
    TotalDoesNotWrap(Regions(c));
    TotalIsAllocSize(c);
    WrapSmall(AllocSize(c));
  }

  /** alloc_from_buffer_aligned: hand out the cursor, then move it past the region. */
  method AllocFromBufferAligned(buf: nat, elemSize: nat, allocCount: nat) returns (out: nat, count: nat, buf': nat)
    ensures out == buf && count == allocCount
    ensures buf' % ALIGNMENT == buf % ALIGNMENT
    ensures out + count * elemSize <= buf' < out + count * elemSize + ALIGNMENT
    ensures buf' == buf + AlignUp(allocCount * elemSize)
  {
    out, count := buf, allocCount;
    AlignUpLeast(allocCount * elemSize, 0);
    buf' := buf + AlignUp(allocCount * elemSize);
  }

  /** Where the moving cursor puts each region. */
  function LayoutOf(c: Counts): Layout
  {
    var data := AlignUp(c.code * CELL);
    var publics := data + AlignUp(c.data * CELL);
    var pubvars := publics + AlignUp(c.publics * PAIR);
    var natives := pubvars + AlignUp(c.pubvars * PAIR);
    Layout(0, data, publics, pubvars, natives, natives + AlignUp(c.natives * NATIVE))
  }

  /** Bytes left over behind the last name. */
  function Slack(natives: nat): int
  {
    AlignUp(natives * PAIR) - AlignUp(natives * NATIVE)
  }

  /** Every region is aligned. */
  lemma LayoutAligned(c: Counts)
    ensures var l := LayoutOf(c);
      && l.code % ALIGNMENT == 0 && l.data % ALIGNMENT == 0 && l.publics % ALIGNMENT == 0
      && l.pubvars % ALIGNMENT == 0 && l.natives % ALIGNMENT == 0 && l.strings % ALIGNMENT == 0
  {
    var l := LayoutOf(c);
    AddAligned(0, c.code * CELL);
    AddAligned(l.data, c.data * CELL);
    AddAligned(l.publics, c.publics * PAIR);
    AddAligned(l.pubvars, c.pubvars * PAIR);
    AddAligned(l.natives, c.natives * NATIVE);
  }

  lemma AddAligned(at: nat, bytes: nat)
    requires at % ALIGNMENT == 0
    ensures (at + AlignUp(bytes)) % ALIGNMENT == 0
    ensures at + bytes <= at + AlignUp(bytes)
  {
  }

  /** Room for everything, region by region. */
  ghost predicate Fits(c: Counts, l: Layout, size: nat)
  {
    && l.code + c.code * CELL <= l.data && l.data + c.data * CELL <= l.publics
    && l.publics + c.publics * PAIR <= l.pubvars && l.pubvars + c.pubvars * PAIR <= l.natives
    && l.natives + c.natives * NATIVE <= l.strings && l.strings + c.strings <= size
  }

  /** Every region ends before the next one begins, the names end inside the arena, and what is
      left behind them is the slack. */
  lemma LayoutDisjoint(c: Counts)
    ensures Fits(c, LayoutOf(c), AllocSize(c))
    ensures LayoutOf(c).strings + c.strings + Slack(c.natives) == AllocSize(c)
  {
    AlignUpLeast(c.code * CELL, 0);
    AlignUpLeast(c.data * CELL, 0);
    AlignUpLeast(c.publics * PAIR, 0);
    AlignUpLeast(c.pubvars * PAIR, 0);
    SlackExact(c.natives);
  }

  /** The closing guard compares the cursor with the end of the arena: it can only pass
      when two natives or more leave some slack. */
  lemma SlackExact(natives: nat)
    ensures Slack(natives) == if natives % 2 == 0 then 8 * natives else 8 * natives - 8
    ensures Slack(natives) > 0 <==> natives >= 2
  {
  }
}
