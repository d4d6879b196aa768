/** Strings that live in VM data memory, one character per cell, and the names read from them. */
module AmxStrings {
  import opened Machine
  import opened Bytes
  import opened AmxFile
  import opened VmMemory
  import opened Loader

  /** The characters from va up to the first NUL, but at most limit of them; none if a cell that
      has to be read is not mapped. */
  function ReadChars(mem: Memory, va: nat, limit: nat): (r: Option<seq<byte>>)
    ensures r.Some? ==> |r.value| <= limit && 0 !in r.value
    decreases limit
  {
    if limit == 0 then Some([])
    else if va !in mem then None
    else if mem[va] % 256 == 0 then Some([])
    else Onto([mem[va] % 256], ReadChars(mem, (va + CELL) % TWO64, limit - 1))
  }

  /** What is read in memory's own terms: the characters are those of the cells and none is NUL,
      and the text ends at the limit or in front of a NUL. */
  ghost predicate TextAt(mem: Memory, va: nat, limit: nat, text: seq<byte>)
  {
    && |text| <= limit
    && (forall i: nat :: i < |text| ==> text[i] != 0 && CharAt(mem, va, i) == Some(text[i]))
    && (|text| == limit || CharAt(mem, va, |text|) == Some(0))
  }

  /** Cell n is not mapped, and the cells before it are and hold no NUL. */
  ghost predicate UnmappedAt(mem: Memory, va: nat, n: nat)
  {
    CharAt(mem, va, n).None? && forall i: nat :: i < n ==> CharAt(mem, va, i).Some? && CharAt(mem, va, i) != Some(0)
  }

  /** A text is its first character and the text behind it. */
  lemma TextStep(mem: Memory, va: nat, limit: nat, text: seq<byte>)
    requires limit > 0
    ensures TextAt(mem, va, limit, text) <==>
      if text == [] then CharAt(mem, va, 0) == Some(0)
      else text[0] != 0 && CharAt(mem, va, 0) == Some(text[0]) && TextAt(mem, (va + CELL) % TWO64, limit - 1, text[1..])
  {
    hide CharAt;
    if text != [] {
      var next, rest := (va + CELL) % TWO64, text[1..];
      forall i: nat ensures CharAt(mem, next, i) == CharAt(mem, va, i + 1) {
        CharShift(mem, va, i);
      }
      if TextAt(mem, next, limit - 1, rest) && text[0] != 0 && CharAt(mem, va, 0) == Some(text[0]) {
        forall i: nat | i < |text| ensures text[i] != 0 && CharAt(mem, va, i) == Some(text[i]) {
          if i > 0 { assert rest[i - 1] == text[i] && CharAt(mem, next, i - 1) == CharAt(mem, va, i); }
        }
      }
    }
  }

  /** ReadChars reads exactly the text in memory. */
  lemma {:induction false} ReadCharsIff(mem: Memory, va: nat, limit: nat, text: seq<byte>)
    requires va < TWO64
    ensures ReadChars(mem, va, limit) == Some(text) <==> TextAt(mem, va, limit, text)
    decreases limit
  {
    if limit == 0 {
      assert TextAt(mem, va, 0, text) <==> text == [];
    } else {
      TextStep(mem, va, limit, text);
      hide TextAt;
      var next := (va + CELL) % TWO64;
      if text != [] { ReadCharsIff(mem, next, limit - 1, text[1..]); }
      if va in mem && mem[va] % 256 != 0 && ReadChars(mem, next, limit - 1).Some? {
        var rest := ReadChars(mem, next, limit - 1).value;
        assert ([mem[va] % 256] + rest)[1..] == rest;
        if text != [] { assert text == [text[0]] + text[1..]; }
      }
    }
  }

  /** Reading fails exactly at a cell that is not mapped, before any NUL and before the limit. */
  lemma {:induction false} ReadCharsNoneIff(mem: Memory, va: nat, limit: nat)
    requires va < TWO64
    ensures ReadChars(mem, va, limit).None? <==> exists n: nat :: n < limit && UnmappedAt(mem, va, n)
    decreases limit
  {
    if limit > 0 {
      var next := (va + CELL) % TWO64;
      ReadCharsNoneIff(mem, next, limit - 1);
      assert CharAt(mem, va, 0) == if va in mem then Some(mem[va] % 256) else None;
      hide CharAt;
      if va !in mem {
        assert UnmappedAt(mem, va, 0);
      } else if mem[va] % 256 != 0 {
        forall n: nat ensures UnmappedAt(mem, next, n) <==> UnmappedAt(mem, va, n + 1) {
          UnmappedShift(mem, va, n);
        }
        if n: nat :| n < limit && UnmappedAt(mem, va, n) {
          assert UnmappedAt(mem, next, n - 1);
        }
      }
    }
  }

  lemma UnmappedShift(mem: Memory, va: nat, n: nat)
    requires CharAt(mem, va, 0).Some? && CharAt(mem, va, 0) != Some(0)
    ensures UnmappedAt(mem, (va + CELL) % TWO64, n) <==> UnmappedAt(mem, va, n + 1)
  {
    hide CharAt;
    var next := (va + CELL) % TWO64;
    forall i: nat ensures CharAt(mem, next, i) == CharAt(mem, va, i + 1) {
      CharShift(mem, va, i);
    }
    if UnmappedAt(mem, next, n) {
      forall i: nat | i < n + 1 ensures CharAt(mem, va, i).Some? && CharAt(mem, va, i) != Some(0) {
        if i > 0 { assert CharAt(mem, next, i - 1) == CharAt(mem, va, i); }
      }
    }
  }

  function Min(a: nat, b: nat): nat { if a <= b then a else b }

  /** The characters read so far, in front of what reading on would give. */
  function Onto(front: seq<byte>, rest: Option<seq<byte>>): Option<seq<byte>>
  {
    if rest.None? then None else Some(front + rest.value)
  }

  lemma OntoStep(front: seq<byte>, c: byte, rest: Option<seq<byte>>)
    ensures Onto(front, Onto([c], rest)) == Onto(front + [c], rest)
  {
    if rest.Some? {
      assert front + ([c] + rest.value) == front + [c] + rest.value;
    }
  }

  /** Reading ends within limit cells, at a NUL or at a cell that is not mapped. */
  predicate Stops(mem: Memory, va: nat, limit: nat)
  {
    ReadChars(mem, va, limit).None? || |ReadChars(mem, va, limit).value| < limit
  }

  /** Once reading ends, a larger limit changes nothing. */
  lemma {:induction false} StopsForGood(mem: Memory, va: nat, limit: nat, more: nat)
    requires Stops(mem, va, limit) && limit <= more
    ensures ReadChars(mem, va, more) == ReadChars(mem, va, limit)
    decreases limit
  {
    if limit > 0 && va in mem && mem[va] % 256 != 0 {
      StopsForGood(mem, (va + CELL) % TWO64, limit - 1, more - 1);
    }
  }

  /** The string's length, or -1: what any sufficient limit shows. */
  ghost predicate LengthIs(mem: Memory, va: nat, r: int)
  {
    forall limit :: Stops(mem, va, limit) ==>
      r == if ReadChars(mem, va, limit).None? then -1 else |ReadChars(mem, va, limit).value|
  }

  lemma LengthFound(mem: Memory, va: nat, limit: nat, r: int)
    requires Stops(mem, va, limit)
    requires r == if ReadChars(mem, va, limit).None? then -1 else |ReadChars(mem, va, limit).value|
    ensures LengthIs(mem, va, r)
  {
    hide ReadChars;
    forall other | Stops(mem, va, other)
      ensures r == if ReadChars(mem, va, other).None? then -1 else |ReadChars(mem, va, other).value|
    {
      if limit <= other {
        StopsForGood(mem, va, limit, other);
      } else {
        StopsForGood(mem, va, other, limit);
      }
    }
  }

  /** amx_strcpy: the longest prefix that fits, then a NUL. Without a destination it measures the
      string, and comes to an end only if the string does. */
  method AmxStrcpy(dst: array<byte>, mem: Memory, vfmt: nat) returns (r: int)
    requires dst.Length == 0 ==> exists limit :: Stops(mem, vfmt, limit)
    modifies dst
    ensures dst.Length == 0 ==> LengthIs(mem, vfmt, r)
    ensures dst.Length > 0 ==> (r == -1 <==> ReadChars(mem, vfmt, dst.Length).None?)
    ensures dst.Length > 0 && r != -1 ==>
      var text := ReadChars(mem, vfmt, dst.Length).value;
      && r == Min(|text|, dst.Length - 1)
      && dst[..r] == text[..r] && dst[r] == 0
      && forall k :: r < k < dst.Length ==> dst[k] == old(dst[k])
  {
    var vit: nat, idx: nat := vfmt, 0;
    ghost var limit: nat := dst.Length;
    if dst.Length == 0 {
      limit :| Stops(mem, vfmt, limit);
    }
    ghost var all, front: seq<byte> := ReadChars(mem, vfmt, limit), [];
    assert all.Some? ==> [] + all.value == all.value;
    while true
      invariant idx == |front| < limit && (dst.Length > 0 ==> limit == dst.Length && dst[..idx] == front)
      invariant dst.Length == 0 ==> Stops(mem, vfmt, limit)
      invariant all == ReadChars(mem, vfmt, limit) == Onto(front, ReadChars(mem, vit, limit - idx))
      invariant forall k :: idx <= k < dst.Length ==> dst[k] == old(dst[k])
      decreases limit - idx
    {
      var va := vit;
      vit := (vit + CELL) % TWO64;
      if va !in mem {
        if dst.Length == 0 { LengthFound(mem, vfmt, limit, -1); }
        return -1;
      }
      var c: byte := mem[va] % 256;
      if dst.Length != 0 {
        dst[idx] := c;
        assert dst[..idx + 1] == front + [c];
      }
      idx := idx + 1;
      OntoStep(front, c, ReadChars(mem, vit, limit - idx));
      if c == 0 {
        if dst.Length == 0 { LengthFound(mem, vfmt, limit, idx - 1); }
        break;
      }
      front := front + [c];
      if idx == dst.Length {
        assert all.value == dst[..idx];
        dst[dst.Length - 1] := 0;
        break;
      }
    }
    return idx - 1;
  }

  datatype Error = Success | InvalidOperand | AccessViolation

  /** The get_public native: what the module's table says about the first 32 characters. */
  method GetPublicNative(loader: AmxLoader, mem: Memory, dataV2p: Memory, argc: nat, argv: nat)
    returns (error: Error, retval: nat)
    requires loader.Valid()
    ensures error == Error.InvalidOperand <==>
      argc == 0 || (argv in dataV2p && ReadChars(mem, dataV2p[argv], 33) == Some([]))
    ensures error == Error.AccessViolation <==>
      argc != 0 && (argv !in dataV2p || ReadChars(mem, dataV2p[argv], 33).None?)
    ensures error == Error.Success ==>
      var text := ReadChars(mem, dataV2p[argv], 33).value;
      retval == Lookup(loader.publics, text[..Min(|text|, 32)])
    ensures error != Error.Success ==> retval == 0
  {
    hide AmxLoader.Valid, Lookup;
    retval := 0;
    var funcName := new byte[33](_ => 0);
    if argc == 0 {
      return Error.InvalidOperand, 0;
    }
    if argv !in dataV2p {
      return Error.AccessViolation, 0;
    }
    var res := AmxStrcpy(funcName, mem, dataV2p[argv]);
    if res == 0 {
      return Error.InvalidOperand, 0;
    }
    if res == -1 {
      return Error.AccessViolation, 0;
    }
    ghost var text := ReadChars(mem, dataV2p[argv], 33).value;
    CStringAt(funcName[..], 0, text[..res]);
    retval := loader.GetPublic(funcName[..]);
    error := Error.Success;
  }

  datatype Target = InvalidParameter | DeviceNotReady | NotFound | Found(cip: nat)

  const IOCTL_PREFIX: seq<byte> := [105, 111, 99, 116, 108, 95]

  /** How vm_execute_function resolves its request: the name is the C string in the first 32
      bytes, shorter than 32, and starts with "ioctl_". */
  method ResolveRequest(loader: AmxLoader?, input: seq<byte>) returns (r: Target)
    requires loader != null ==> loader.Valid()
    ensures r == InvalidParameter <==>
      |input| < 32 || !Terminated(input[..32], 0) || !(IOCTL_PREFIX <= CString(input[..32], 0))
    ensures r == DeviceNotReady <==> r != InvalidParameter && loader == null
    ensures r == NotFound ==> loader != null && Lookup(loader.publics, CString(input[..32], 0)) == 0
    ensures r.Found? ==> loader != null && r.cip == Lookup(loader.publics, CString(input[..32], 0)) != 0
  {
    hide AmxLoader.Valid, Lookup;
    if |input| < 32 {
      return InvalidParameter;
    }
    var arr := input[..32] + [0];
    SameString(input[..32], arr);
    var len := Strlen(arr);
    if len == 32 {
      return InvalidParameter;
    }
    if !(IOCTL_PREFIX <= arr[..len]) {
      return InvalidParameter;
    }
    if loader == null {
      return DeviceNotReady;
    }
    var fn := loader.GetPublic(arr);
    if fn == 0 {
      return NotFound;
    }
    r := Found(fn);
  }

  method Strlen(str: seq<byte>) returns (n: nat)
    requires Terminated(str, 0)
    ensures n == NulAt(str, 0)
  {
    n := 0;
    while str[n] != 0
      invariant n < |str| && NulAt(str, 0) == NulAt(str, n)
      decreases |str| - n
    {
      n := n + 1;
    }
  }

  /** Appending a terminator shows whether the field already had one. */
  lemma SameString(field: seq<byte>, arr: seq<byte>)
    requires arr == field + [0]
    ensures Terminated(arr, 0)
    ensures Terminated(field, 0) <==> NulAt(arr, 0) < |field|
    ensures Terminated(field, 0) ==> CString(arr, 0) == CString(field, 0)
  {
    NulAtFacts(field, 0);
    if Terminated(field, 0) {
      NulAtUnique(arr, 0, NulAt(field, 0));
    } else {
      NulAtUnique(arr, 0, |field|);
    }
  }
}
