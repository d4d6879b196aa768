/** loader::init and the look-ups it serves: the fields, the arena, and the proof that what the
    look-ups read back from the arena is what the file says. */
module Loader {
  import opened Machine
  import opened Bytes
  import opened KernelStubs
  import opened ValArray
  import opened AmxFile
  import opened Arena
  import opened LoaderPasses
  import opened LoaderStages

  /** What the pool answers for each requested size: 0, or an aligned block that fits. */
  ghost predicate PoolOk(pool: nat -> nat)
  {
    forall n: nat :: pool(n) == 0 || (pool(n) % ALIGNMENT == 0 && pool(n) + n < TWO64)
  }

  datatype Dispatch =
    | SingleStep
    | Break
    | InvalidOperand
    | AccessViolation
    | Invoke(callback: nat, argc: nat, argv: nat)

  class AmxLoader {
    var codePtr: nat
    var codeCount: nat
    var dataPtr: nat
    var dataCount: nat
    var publicsPtr: nat
    var publicsCount: nat
    var pubvarsPtr: nat
    var pubvarsCount: nat
    var nativesPtr: nat
    var nativesCount: nat
    var entryMain: nat
    var alloc: nat
    var arena: array<byte>
    var COD: nat
    var DAT: nat
    var STK: nat
    var STP: nat
    var HEA: nat
    // what the arena holds, once init has succeeded
    ghost var counts: Counts
    ghost var publics: seq<Entry>
    ghost var natives: seq<Entry>
    ghost var pubvars: seq<Entry>
    ghost var host: seq<HostNative>

    constructor ()
      ensures alloc == 0 && fresh(arena)
    {
      codePtr, codeCount, dataPtr, dataCount, publicsPtr, publicsCount := 0, 0, 0, 0, 0, 0;
      pubvarsPtr, pubvarsCount, nativesPtr, nativesCount, entryMain, alloc := 0, 0, 0, 0, 0, 0;
      arena := new byte[0];
      COD, DAT, STK, STP, HEA := 0, 0, 0, 0, 0;
      counts, publics, natives, pubvars, host := Counts(0, 0, 0, 0, 0, 0), [], [], [], [];
    }

    /** The pointer fields point where the layout says. */
    ghost predicate Carved(c: Counts)
      reads this`codePtr, this`codeCount, this`dataPtr, this`dataCount, this`publicsPtr, this`publicsCount,
            this`pubvarsPtr, this`pubvarsCount, this`nativesPtr, this`nativesCount, this`alloc
    {
      var l := LayoutOf(c);
      && codePtr == alloc + l.code && codeCount == c.code
      && dataPtr == alloc + l.data && dataCount == c.data
      && publicsPtr == alloc + l.publics && publicsCount == c.publics
      && pubvarsPtr == alloc + l.pubvars && pubvarsCount == c.pubvars
      && nativesPtr == alloc + l.natives && nativesCount == c.natives
    }

    /** Every region the loader hands out is aligned, if the pool's block is. */
    lemma CarvedAligned(c: Counts)
      requires Carved(c) && alloc % ALIGNMENT == 0
      ensures codePtr % ALIGNMENT == 0 && dataPtr % ALIGNMENT == 0 && publicsPtr % ALIGNMENT == 0
      ensures pubvarsPtr % ALIGNMENT == 0 && nativesPtr % ALIGNMENT == 0
    {
      LayoutAligned(c);
      hide LayoutOf;
    }

    /** The arena holds these tables. */
    ghost predicate Holds(c: Counts, pubs: seq<Entry>, nats: seq<Entry>, vars: seq<Entry>, host: seq<HostNative>)
      requires HostOk(host)
      reads this`codePtr, this`codeCount, this`dataPtr, this`dataCount, this`publicsPtr, this`publicsCount,
            this`pubvarsPtr, this`pubvarsCount, this`nativesPtr, this`nativesCount, this`alloc, this`arena, arena
    {
      var l := LayoutOf(c);
      && c.publics == |pubs| && c.natives == |nats| && c.pubvars == |vars|
      && c.strings == NamesSize(pubs) + NamesSize(vars)
      && Carved(c) && arena.Length == AllocSize(c) && alloc + arena.Length < TWO64
      && TableStored(arena[..], alloc, l.publics, l.strings, pubs)
      && NativesStored(arena[..], l.natives, nats, host)
      && TableStored(arena[..], alloc, l.pubvars, l.strings + NamesSize(pubs), vars)
    }

    /** The look-ups can be used: the arena holds the tables. */
    ghost predicate Valid()
      reads this, arena
    {
      HostOk(host) && Holds(counts, publics, natives, pubvars, host) && Clean(publics) && Clean(pubvars)
    }

    /** The arena and the fields hold the file. */
    ghost predicate Loaded(buf: seq<byte>, host: seq<HostNative>, amxVersion: nat)
      requires HostOk(host)
      reads this, arena
    {
      && FileOk(buf, host, amxVersion)
      && var h, c := ReadHeader(buf), CountsOf(buf, host, amxVersion);
      && this.host == host && counts == c
      && publics == Publics(buf) && natives == Natives(buf) && pubvars == Pubvars(buf)
      && SegmentsStored(arena[..], c, LayoutOf(c), buf, h)
      && entryMain == (if h.cip == TWO32 - 1 then 0 else h.cip)
      && STK == STP == InitialSTP(h) && HEA == InitialHEA(h)
    }

    /** The moving cursor over the fresh arena. */
    method Carve(c: Counts) returns (strings: nat)
      modifies this`codePtr, this`codeCount, this`dataPtr, this`dataCount, this`publicsPtr, this`publicsCount,
               this`pubvarsPtr, this`pubvarsCount, this`nativesPtr, this`nativesCount
      ensures Carved(c)
      ensures strings == alloc + LayoutOf(c).strings
    {
      var it := alloc;
      codePtr, codeCount, it := AllocFromBufferAligned(it, CELL, c.code);
      dataPtr, dataCount, it := AllocFromBufferAligned(it, CELL, c.data);
      publicsPtr, publicsCount, it := AllocFromBufferAligned(it, PAIR, c.publics);
      pubvarsPtr, pubvarsCount, it := AllocFromBufferAligned(it, PAIR, c.pubvars);
      nativesPtr, nativesCount, it := AllocFromBufferAligned(it, NATIVE, c.natives);
      strings := it;
    }

    /** Copy, map, fill, check the cursor and set the registers, once the arena exists. */
    method Populate(buf: seq<byte>, bufAddr: nat, h: Header, host: seq<HostNative>, c: Counts,
                    codeMap: Option<nat>, dataMap: Option<nat>,
                    ghost pubs: seq<Entry>, ghost nats: seq<Entry>, ghost vars: seq<Entry>)
      returns (r: LoaderError)
      requires HostOk(host) && Accepted(buf, bufAddr, h, host, c, pubs, nats, vars)
      requires Carved(c)
      requires arena.Length == AllocSize(c) && alloc + arena.Length < TWO64
      requires forall k :: 0 <= k < arena.Length ==> arena[k] == 0
      modifies arena, this`COD, this`DAT, this`STK, this`STP, this`HEA
      ensures r in {Success, Unknown}
      ensures r == Success <==> codeMap.Some? && dataMap.Some? && |nats| >= 2
      ensures r == Success ==>
        && Holds(c, pubs, nats, vars, host)
        && SegmentsStored(arena[..], c, LayoutOf(c), buf, h)
        && COD == codeMap.value && DAT == dataMap.value
        && STK == STP == InitialSTP(h) && HEA == InitialHEA(h)
    {
      hide Accepted, TableStored, NativesStored, SegmentsStored, NamesSize, HostOk, SameOn, Slack;
      hide LayoutOf, AllocSize, DataCells, Carved;
      AcceptedFacts(buf, bufAddr, h, host, c, pubs, nats, vars);
      LayoutDisjoint(c);
      SlackExact(c.natives);
      CopySegments(arena, buf, h, c, LayoutOf(c));
      if codeMap.None? {
        return Unknown;
      }
      if dataMap.None? {
        return Unknown;
      }
      var cursor := Fill(buf, bufAddr, h, host, c, pubs, nats, vars);
      if alloc + cursor >= alloc + AllocSize(c) {
        return Unknown;
      }
      COD, DAT := codeMap.value, dataMap.value;
      SetRegisters(h, c);
      r := Success;
    }

    method Fill(buf: seq<byte>, bufAddr: nat, h: Header, host: seq<HostNative>, c: Counts,
                ghost pubs: seq<Entry>, ghost nats: seq<Entry>, ghost vars: seq<Entry>)
      returns (cursor: nat)
      requires HostOk(host) && Accepted(buf, bufAddr, h, host, c, pubs, nats, vars)
      requires Carved(c) && arena.Length == AllocSize(c) && alloc + arena.Length < TWO64
      requires SegmentsStored(arena[..], c, LayoutOf(c), buf, h)
      requires forall k :: LayoutOf(c).publics <= k < arena.Length ==> arena[k] == 0
      modifies arena
      ensures Holds(c, pubs, nats, vars, host)
      ensures SegmentsStored(arena[..], c, LayoutOf(c), buf, h)
      ensures cursor == LayoutOf(c).strings + c.strings
    {
      hide Accepted, TableStored, NativesStored, SegmentsStored, NamesSize, HostOk, SameOn, LayoutOf, AllocSize, Carved;
      AcceptedFacts(buf, bufAddr, h, host, c, pubs, nats, vars);
      LayoutDisjoint(c);
      ghost var m := arena[..];
      cursor := FillTables(arena, buf, bufAddr, h, host, alloc, c, LayoutOf(c), pubs, nats, vars);
      SegmentsFrame(m, arena[..], c, LayoutOf(c), buf, h);
    }

    method SetRegisters(h: Header, ghost c: Counts)
      requires Carved(c) && h.dat <= h.hea && c.data == DataCells(h)
      modifies this`STK, this`STP, this`HEA
      ensures STK == STP == InitialSTP(h) && HEA == InitialHEA(h)
    {
      STP := Wrap((dataCount - 1) * CELL);
      STK := STP;
      HEA := (h.hea - h.dat) / CELL * CELL;
    }

    /** init. The pool and the memory manager are parameters: what the pool answers for each
        size, and the base address of each mapping, if it succeeds. */
    method Init(buf: seq<byte>, bufAddr: nat, host: seq<HostNative>, amxVersion: nat,
                pool: nat -> nat, codeMap: Option<nat>, dataMap: Option<nat>)
      returns (r: LoaderError)
      requires |buf| < TWO32 && bufAddr + |buf| < TWO64 && HostOk(host) && PoolOk(pool)
      requires alloc == 0
      modifies this
      ensures FileOk(buf, host, amxVersion) ==>
        && alloc == pool(AllocSize(CountsOf(buf, host, amxVersion)))
        && r == (if alloc != 0 && codeMap.Some? && dataMap.Some? && |Natives(buf)| >= 2 then Success else Unknown)
      ensures !FileOk(buf, host, amxVersion) ==> alloc == 0 && r !in {Success, Unknown}
      ensures r == Success ==> Valid() && Loaded(buf, host, amxVersion)
      ensures r == Success ==> COD == codeMap.value && DAT == dataMap.value
      ensures r == NativeNotResolved <==>
        && |buf| >= HEADER_SIZE && HeaderOk(ReadHeader(buf), |buf|, amxVersion)
        && var h := ReadHeader(buf);
        && TableOk(buf, h.publics, h.natives, h.defsize)
        && MissingNative(buf, h.natives, h.libraries, h.defsize, host)
      ensures r == WrongCellSize <==> |buf| >= HEADER_SIZE && ReadHeader(buf).magic in {0xF1E0, 0xF1E2}
    {
      hide TableOk, TableOf, AllOffered, MissingNative, NamesSize, HostOk;
      hide ReadHeader, Carved, Holds, SegmentsStored, MachineAllocSize, AllocSize, LayoutOf;
      var h, codeCount, dataCount;
      r, h, codeCount, dataCount := CheckHeader(buf, bufAddr, amxVersion);
      if r != Success {
        return;
      }
      var extraSize := (h.stp - h.hea) % TWO32 + CELL - 1;
      var dataAllocCount := dataCount + extraSize / CELL;
      entryMain := if h.cip == TWO32 - 1 then 0 else h.cip;
      var publics, natives, pubvars, strings;
      r, publics, natives, pubvars, strings := CountTables(buf, bufAddr, h, host);
      if r != Success {
        return;
      }
      var c := Counts(codeCount, dataAllocCount, publics, pubvars, natives, strings);
      r := Build(buf, bufAddr, h, host, amxVersion, c, pool, codeMap, dataMap);
    }

    /** The second half of init: size and obtain the arena, then populate it. */
    method Build(buf: seq<byte>, bufAddr: nat, h: Header, host: seq<HostNative>, ghost amxVersion: nat, c: Counts,
                 pool: nat -> nat, codeMap: Option<nat>, dataMap: Option<nat>)
      returns (r: LoaderError)
      requires |buf| < TWO32 && bufAddr + |buf| < TWO64 && HostOk(host) && PoolOk(pool)
      requires FileOk(buf, host, amxVersion) && h == ReadHeader(buf) && c == CountsOf(buf, host, amxVersion)
      requires alloc == 0 && entryMain == (if h.cip == TWO32 - 1 then 0 else h.cip)
      modifies this
      ensures alloc == pool(AllocSize(c))
      ensures r == (if alloc != 0 && codeMap.Some? && dataMap.Some? && |Natives(buf)| >= 2 then Success else Unknown)
      ensures r == Success ==> Valid() && Loaded(buf, host, amxVersion)
      ensures r == Success ==> COD == codeMap.value && DAT == dataMap.value
    {
      hide TableOk, TableOf, TablesOk, AllOffered, NamesSize, HostOk, LayoutOf;
      hide ReadHeader, SegmentsStored, MachineAllocSize, AllocSize, TableStored, NativesStored, DataCells;
      hide Clean, Valid, Holds, Carved, InitialSTP, InitialHEA, Accepted;
      CountsFromFile(buf, host, amxVersion);
      AllocSizeDoesNotWrap(c);
      AcceptedIntro(buf, bufAddr, host, amxVersion);
      TableClean(buf, h.publics, h.natives, h.defsize);
      TableClean(buf, h.pubvars, h.tags, h.defsize);
      ghost var pubs, nats, vars := Publics(buf), Natives(buf), Pubvars(buf);
      hide FileOk, HeaderOk, CountsOf, FromFile, Publics, Natives, Pubvars;
      var allocSize := MachineAllocSize(c);
      var block := pool(allocSize);
      if block == 0 {
        return Unknown;
      }
      arena := new byte[allocSize](_ => 0);
      alloc := block;
      var _ := Carve(c);
      r := Assemble(buf, bufAddr, h, host, c, codeMap, dataMap, pubs, nats, vars);
    }

    /** Populate the arena and note what it holds. */
    method Assemble(buf: seq<byte>, bufAddr: nat, h: Header, host: seq<HostNative>, c: Counts,
                    codeMap: Option<nat>, dataMap: Option<nat>,
                    ghost pubs: seq<Entry>, ghost nats: seq<Entry>, ghost vars: seq<Entry>)
      returns (r: LoaderError)
      requires HostOk(host) && Accepted(buf, bufAddr, h, host, c, pubs, nats, vars) && Clean(pubs) && Clean(vars)
      requires Carved(c) && arena.Length == AllocSize(c) && alloc + arena.Length < TWO64
      requires forall k :: 0 <= k < arena.Length ==> arena[k] == 0
      modifies arena, this`COD, this`DAT, this`STK, this`STP, this`HEA
      modifies this`counts, this`publics, this`natives, this`pubvars, this`host
      ensures r == if codeMap.Some? && dataMap.Some? && |nats| >= 2 then Success else Unknown
      ensures r == Success ==>
        && Valid() && counts == c && publics == pubs && natives == nats && pubvars == vars && this.host == host
        && h.dat <= h.hea && SegmentsStored(arena[..], c, LayoutOf(c), buf, h)
        && COD == codeMap.value && DAT == dataMap.value && STK == STP == InitialSTP(h) && HEA == InitialHEA(h)
    {
      hide HostOk, Accepted, Clean, Carved, Holds, Valid, AllocSize, LayoutOf, SegmentsStored, InitialSTP, InitialHEA;
      AcceptedFacts(buf, bufAddr, h, host, c, pubs, nats, vars);
      r := Populate(buf, bufAddr, h, host, c, codeMap, dataMap, pubs, nats, vars);
      if r == Success {
        Record(c, pubs, nats, vars, host);
      }
    }

    ghost method Record(c: Counts, pubs: seq<Entry>, nats: seq<Entry>, vars: seq<Entry>, host: seq<HostNative>)
      requires HostOk(host) && Holds(c, pubs, nats, vars, host) && Clean(pubs) && Clean(vars)
      modifies this`counts, this`publics, this`natives, this`pubvars, this`host
      ensures Valid()
      ensures counts == c && publics == pubs && natives == nats && pubvars == vars && this.host == host
    {
      hide HostOk, Clean, Holds;
      counts, publics, natives, pubvars, this.host := c, pubs, nats, vars, host;
    }

    /** std::find_if over a table of (name pointer, address) pairs in the arena. */
    method Find(ptr: nat, count: nat, v: seq<byte>, ghost tab: nat, ghost str: nat, ghost t: seq<Entry>)
      returns (r: nat)
      requires Terminated(v, 0) && ptr == alloc + tab && count == |t| && Clean(t)
      requires TableStored(arena[..], alloc, tab, str, t) && alloc + arena.Length < TWO64
      ensures r == Lookup(t, CString(v, 0))
    {
      hide NamesSize, EncodeLE, DecodeLE, NulAt;
      var i := 0;
      while i < count
        invariant 0 <= i <= count
        invariant forall j :: 0 <= j < i ==> t[j].name != CString(v, 0)
      {
        assert RowStored(arena[..], alloc, tab, str, t, i);
        ReadBack(arena[..], alloc, tab + PAIR * i, str + NamesSize(t[..i]), t[i]);
        var o := ptr + PAIR * i - alloc;
        var name := DecodeLE(arena[..][o..o + 8]);
        var c := StrCmp(v, 0, arena[..], name - alloc);
        if c == 0 {
          LookupFirst(t, CString(v, 0), i);
          return DecodeLE(arena[..][o + 8..o + 16]);
        }
        i := i + 1;
      }
      LookupFirst(t, CString(v, 0), |t|);
      r := 0;
    }

    /** get_public: the address of the first public of that name in the file, else 0. */
    method GetPublic(v: seq<byte>) returns (r: nat)
      requires Valid() && Terminated(v, 0)
      ensures r == Lookup(publics, CString(v, 0))
    {
      hide HostOk, Clean, NamesSize, LayoutOf, AllocSize, TableStored, NativesStored, Lookup;
      r := Find(publicsPtr, publicsCount, v, LayoutOf(counts).publics, LayoutOf(counts).strings, publics);
    }

    /** get_pubvar: likewise for the public variables. */
    method GetPubvar(v: seq<byte>) returns (r: nat)
      requires Valid() && Terminated(v, 0)
      ensures r == Lookup(pubvars, CString(v, 0))
    {
      hide HostOk, Clean, NamesSize, LayoutOf, AllocSize, TableStored, NativesStored, Lookup;
      r := Find(pubvarsPtr, pubvarsCount, v, LayoutOf(counts).pubvars,
                LayoutOf(counts).strings + NamesSize(publics), pubvars);
    }

    /** The native pointer at an index. */
    method NativeAt(index: nat, ghost c: Counts, ghost t: seq<Entry>, ghost host: seq<HostNative>)
      returns (callback: nat)
      requires HostOk(host) && index < |t| && nativesPtr == alloc + LayoutOf(c).natives
      requires NativesStored(arena[..], LayoutOf(c).natives, t, host)
      ensures exists k: nat :: FirstHost(host, t[index].name, k) && callback == host[k].callback
    {
      assert NativeStored(arena[..], LayoutOf(c).natives, t, host, index);
      var o := nativesPtr - alloc + NATIVE * index;
      ghost var k: nat :| FirstHost(host, t[index].name, k) && arena[..][o..o + 8] == EncodeLE(host[k].callback, 8);
      Pow256Values();
      DecodeEncode(host[k].callback, 8);
      callback := DecodeLE(arena[..][o..o + 8]);
    }

    /** amx_callback: index k runs the first host native named like the file's k-th native. */
    method AmxCallback(index: nat, stk: nat, cbidSingleStep: nat, cbidBreak: nat, dataV2p: Memory)
      returns (r: Dispatch)
      requires Valid()
      ensures r == SingleStep <==> index == cbidSingleStep
      ensures r == Break <==> index == cbidBreak != cbidSingleStep
      ensures r == InvalidOperand <==> index !in {cbidSingleStep, cbidBreak} && index >= |natives|
      ensures r == AccessViolation <==>
        index !in {cbidSingleStep, cbidBreak} && index < |natives| && stk !in dataV2p
      ensures r.Invoke? ==>
        && index < |natives| && stk in dataV2p
        && r.argc == dataV2p[stk] / CELL && r.argv == (stk + CELL) % TWO64
        && exists k: nat :: FirstHost(host, natives[index].name, k) && r.callback == host[k].callback
    {
      hide HostOk, Clean, NamesSize, LayoutOf, AllocSize, TableStored, NativesStored;
      if index == cbidSingleStep {
        return SingleStep;
      }
      if index == cbidBreak {
        return Break;
      }
      if index >= nativesCount {
        return InvalidOperand;
      }
      if stk !in dataV2p {
        return AccessViolation;
      }
      var callback := NativeAt(index, counts, natives, host);
      r := Invoke(callback, dataV2p[stk] / CELL, (stk + CELL) % TWO64);
    }
  }

  lemma AcceptedIntro(buf: seq<byte>, bufAddr: nat, host: seq<HostNative>, amxVersion: nat)
    requires |buf| < TWO32 && bufAddr + |buf| < TWO64 && HostOk(host) && FileOk(buf, host, amxVersion)
    ensures Accepted(buf, bufAddr, ReadHeader(buf), host, CountsOf(buf, host, amxVersion),
                     Publics(buf), Natives(buf), Pubvars(buf))
  {
    hide TableOk, TableOf, AllOffered, NamesSize, HostOk;
    WholeCells(ReadHeader(buf));
  }

  lemma WholeCells(h: Header)
    requires h.cod <= h.dat <= h.hea && Whole(h.dat - h.cod, 8) && Whole(h.hea - h.dat, 8)
    ensures h.dat - h.cod == (h.dat - h.cod) / 8 * CELL && (h.hea - h.dat) % CELL == 0
  {
    WholeIsDivisible(h.dat - h.cod, 8);
    WholeIsDivisible(h.hea - h.dat, 8);
  }

  /** The counts of a file below 2^32 bytes are within the bounds the size computation needs. */
  lemma CountsFromFile(buf: seq<byte>, host: seq<HostNative>, amxVersion: nat)
    requires |buf| < TWO32 && HostOk(host) && FileOk(buf, host, amxVersion)
    ensures FromFile(CountsOf(buf, host, amxVersion))
  {
    var h := ReadHeader(buf);
    WholeCells(h);
    DataCellsExact(h);
    CountBound(h.publics, h.natives, h.defsize);
    CountBound(h.natives, h.libraries, h.defsize);
    CountBound(h.pubvars, h.tags, h.defsize);
    NamesFit(buf, h.publics, h.natives, h.defsize);
    NamesFit(buf, h.pubvars, h.tags, h.defsize);
    hide TableOk, TableOf, NamesSize, AllOffered, HostOk;
  }
}
