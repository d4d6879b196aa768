/** Strings in VM data memory: one character to a cell, in its low byte. */
module VmMemory {
  import opened Machine
  import opened Bytes

  /** The i-th character of the string at va, if its cell is mapped; addresses wrap. */
  function CharAt(mem: Memory, va: nat, i: nat): Option<byte>
  {
    var a := (va + CELL * i) % TWO64;
    if a in mem then Some(mem[a] % 256) else None
  }

  lemma CharShift(mem: Memory, va: nat, i: nat)
    ensures CharAt(mem, (va + CELL) % TWO64, i) == CharAt(mem, va, i + 1)
  {
    assert ((va + CELL) % TWO64 + CELL * i) % TWO64 == (va + CELL * (i + 1)) % TWO64;
  }
}
