/** The stages of loader::init: header checks, counting, segment copies, table filling, registers. */
module LoaderStages {
  import opened Machine
  import opened Bytes
  import opened KernelStubs
  import opened ValArray
  import opened AmxFile
  import opened Arena
  import opened LoaderPasses

  /** The counts that the first passes produce for an acceptable file. */
  function CountsOf(buf: seq<byte>, host: seq<HostNative>, amxVersion: nat): Counts
    requires HostOk(host) && FileOk(buf, host, amxVersion)
  {
    var h := ReadHeader(buf);
    Counts((h.dat - h.cod) / 8, DataCells(h), |Publics(buf)|, |Pubvars(buf)|, |Natives(buf)|,
           NamesSize(Publics(buf)) + NamesSize(Pubvars(buf)))
  }

  /** The header checks, in the order of the source. */
  method CheckHeader(buf: seq<byte>, bufAddr: nat, amxVersion: nat)
    returns (e: LoaderError, h: Header, codeCount: nat, dataCount: nat)
    requires |buf| < TWO32 && bufAddr + |buf| < TWO64
    ensures |buf| < HEADER_SIZE ==> e == InvalidFile
    ensures |buf| >= HEADER_SIZE ==> h == ReadHeader(buf)
    ensures e == Success <==> |buf| >= HEADER_SIZE && HeaderOk(ReadHeader(buf), |buf|, amxVersion)
    ensures e == WrongCellSize <==> |buf| >= HEADER_SIZE && ReadHeader(buf).magic in {MAGIC_32, MAGIC_16}
    ensures e == UnsupportedFileVersion <==>
      |buf| >= HEADER_SIZE && h.magic == MAGIC_64 && h.size <= |buf| && h.fileVersion != FILE_VERSION
    ensures e == UnsupportedAmxVersion <==>
      && |buf| >= HEADER_SIZE && h.magic == MAGIC_64 && h.size <= |buf| && h.fileVersion == FILE_VERSION
      && h.amxVersion > amxVersion
    ensures e == FeatureNotSupported <==>
      && |buf| >= HEADER_SIZE && h.magic == MAGIC_64 && h.size <= |buf| && h.fileVersion == FILE_VERSION
      && h.amxVersion <= amxVersion && (FlagOverlay(h.flags) || FlagSleep(h.flags))
    ensures e != Unknown && e != NativeNotResolved
    ensures e == Success ==> codeCount == (h.dat - h.cod) / 8 && dataCount == (h.hea - h.dat) / 8
  {
    h, codeCount, dataCount := Header(0, 0, 0, 0, 0, 0, 0, 0, 0, 0, 0, 0, 0, 0, 0, 0), 0, 0;
    if |buf| < HEADER_SIZE {
      return InvalidFile, h, 0, 0;
    }
    h := ReadHeader(buf);
    if h.magic != MAGIC_64 {
      if h.magic == MAGIC_32 || h.magic == MAGIC_64 || h.magic == MAGIC_16 {
        return WrongCellSize, h, 0, 0;
      }
      return InvalidFile, h, 0, 0;
    }
    if h.size > |buf| {
      return InvalidFile, h, 0, 0;
    }
    if h.fileVersion != FILE_VERSION {
      return UnsupportedFileVersion, h, 0, 0;
    }
    if h.amxVersion > amxVersion {
      return UnsupportedAmxVersion, h, 0, 0;
    }
    if FlagOverlay(h.flags) || FlagSleep(h.flags) {
      return FeatureNotSupported, h, 0, 0;
    }
    if h.defsize < 8 {
      return InvalidFile, h, 0, 0;
    }
    var ok;
    ok, codeCount := CountValarray(bufAddr, |buf|, h.cod, h.dat, CELL);
    if !ok {
      return InvalidFile, h, 0, 0;
    }
    ok, dataCount := CountValarray(bufAddr, |buf|, h.dat, h.hea, CELL);
    if !ok {
      return InvalidFile, h, 0, 0;
    }
    e := Success;
  }

  /** The three tables of a header are acceptable. */
  predicate TablesOk(buf: seq<byte>, h: Header, host: seq<HostNative>)
    requires HostOk(host) && h.defsize > 0
  {
    && TableOk(buf, h.publics, h.natives, h.defsize)
    && TableOk(buf, h.natives, h.libraries, h.defsize)
    && AllOffered(host, TableOf(buf, h.natives, h.libraries, h.defsize))
    && h.libraries == h.pubvars
    && TableOk(buf, h.pubvars, h.tags, h.defsize)
  }

  /** The three counting passes. */
  method CountTables(buf: seq<byte>, bufAddr: nat, h: Header, host: seq<HostNative>)
    returns (e: LoaderError, publics: nat, natives: nat, pubvars: nat, strings: nat)
    requires |buf| < TWO32 && bufAddr + |buf| < TWO64 && HostOk(host) && h.defsize >= 8
    requires h.publics < TWO32 && h.natives < TWO32 && h.libraries < TWO32 && h.pubvars < TWO32 && h.tags < TWO32
    ensures e == Success <==> TablesOk(buf, h, host)
    ensures e == NativeNotResolved <==>
      TableOk(buf, h.publics, h.natives, h.defsize) && MissingNative(buf, h.natives, h.libraries, h.defsize, host)
    ensures e == FeatureNotSupported <==>
      && TableOk(buf, h.publics, h.natives, h.defsize) && TableOk(buf, h.natives, h.libraries, h.defsize)
      && AllOffered(host, TableOf(buf, h.natives, h.libraries, h.defsize)) && h.libraries != h.pubvars
    ensures e in {Success, NativeNotResolved, InvalidFile, FeatureNotSupported}
    ensures e == Success ==>
      && publics == |TableOf(buf, h.publics, h.natives, h.defsize)|
      && natives == |TableOf(buf, h.natives, h.libraries, h.defsize)|
      && pubvars == |TableOf(buf, h.pubvars, h.tags, h.defsize)|
      && strings == NamesSize(TableOf(buf, h.publics, h.natives, h.defsize))
                    + NamesSize(TableOf(buf, h.pubvars, h.tags, h.defsize)) <= 0x4000_0000_0000_0000
  {
    natives, pubvars := 0, 0;
    var ok;
    ok, publics, strings := CountNames(buf, bufAddr, h.publics, h.natives, h.defsize, 0);
    if !ok {
      return InvalidFile, publics, natives, pubvars, strings;
    }
    var notFound;
    ok, notFound, natives := CountNatives(buf, bufAddr, h.natives, h.libraries, h.defsize, host);
    if !ok {
      return if notFound then NativeNotResolved else InvalidFile, publics, natives, pubvars, strings;
    }
    if notFound {
      MissingNativeFails(buf, h.natives, h.libraries, h.defsize, host);
      assert false;
    }
    if h.libraries != h.pubvars {
      return FeatureNotSupported, publics, natives, pubvars, strings;
    }
    ok, pubvars, strings := CountNames(buf, bufAddr, h.pubvars, h.tags, h.defsize, strings);
    if !ok {
      return InvalidFile, publics, natives, pubvars, strings;
    }
    e := Success;
  }

  /** Byte order fix-up of a run of cells. On a little-endian machine it rewrites every cell
      with itself. For the data segment the source bounds this loop by the code count; the
      model uses the count of the segment itself. */
  method FromLeCells(arena: array<byte>, at: nat, count: nat)
    requires at + CELL * count <= arena.Length
    modifies arena
    ensures arena[..] == old(arena[..])
  {
    var i := 0;
    while i < count
      invariant 0 <= i <= count
      invariant arena[..] == old(arena[..])
    {
      var o := at + CELL * i;
      var cell := DecodeLE(arena[o..o + CELL]);
      EncodeDecode(arena[o..o + CELL]);
      ghost var was := arena[..];
      MemCpy(arena, o, EncodeLE(cell, 8));
      SpliceSame(was, arena[..], o);
      i := i + 1;
    }
  }

  lemma SpliceSame(a: seq<byte>, b: seq<byte>, o: nat)
    requires o + 8 <= |a| == |b| && a[o..o + 8] == b[o..o + 8]
    requires forall k :: 0 <= k < |a| && !(o <= k < o + 8) ==> a[k] == b[k]
    ensures a == b
  {
    forall k | 0 <= k < |a| ensures a[k] == b[k] {
      if o <= k < o + 8 {
        assert a[k] == a[o..o + 8][k - o] == b[o..o + 8][k - o];
      }
    }
  }

  /** The file has passed every check, and these are its counts and tables. */
  ghost predicate Accepted(buf: seq<byte>, bufAddr: nat, h: Header, host: seq<HostNative>, c: Counts,
                           pubs: seq<Entry>, nats: seq<Entry>, vars: seq<Entry>)
  {
    && |buf| < TWO32 && bufAddr + |buf| < TWO64 && HostOk(host) && h.defsize >= 8
    && h.publics < TWO32 && h.natives < TWO32 && h.libraries < TWO32 && h.pubvars < TWO32 && h.tags < TWO32
    && h.cod <= h.dat <= h.hea <= |buf| && h.dat - h.cod == c.code * CELL
    && (h.hea - h.dat) % CELL == 0 && c.data == DataCells(h)
    && TablesOk(buf, h, host)
    && pubs == TableOf(buf, h.publics, h.natives, h.defsize)
    && nats == TableOf(buf, h.natives, h.libraries, h.defsize)
    && vars == TableOf(buf, h.pubvars, h.tags, h.defsize)
    && c.publics == |pubs| && c.natives == |nats| && c.pubvars == |vars|
    && c.strings == NamesSize(pubs) + NamesSize(vars)
  }

  lemma AcceptedFacts(buf: seq<byte>, bufAddr: nat, h: Header, host: seq<HostNative>, c: Counts,
                      pubs: seq<Entry>, nats: seq<Entry>, vars: seq<Entry>)
    requires Accepted(buf, bufAddr, h, host, c, pubs, nats, vars)
    ensures h.cod <= h.dat <= h.hea <= |buf| && h.dat - h.cod == c.code * CELL && h.hea - h.dat <= c.data * CELL
    ensures c.data == DataCells(h)
    ensures c.publics == |pubs| && c.natives == |nats| && c.pubvars == |vars|
    ensures c.strings == NamesSize(pubs) + NamesSize(vars)
  {
    hide TablesOk, TableOf, NamesSize;
  }

  /** The code and data segments as they are in the file, the rest of the data segment zero. */
  ghost predicate SegmentsStored(mem: seq<byte>, c: Counts, l: Layout, buf: seq<byte>, h: Header)
  {
    && h.cod <= h.dat <= h.hea <= |buf| && l.code + (h.dat - h.cod) <= |mem|
    && l.data + (h.hea - h.dat) <= |mem| && l.data + c.data * CELL <= |mem|
    && mem[l.code..l.code + (h.dat - h.cod)] == buf[h.cod..h.dat]
    && mem[l.data..l.data + (h.hea - h.dat)] == buf[h.dat..h.hea]
    && forall k :: l.data + (h.hea - h.dat) <= k < l.data + c.data * CELL ==> mem[k] == 0
  }

  method CopySegments(arena: array<byte>, buf: seq<byte>, h: Header, c: Counts, l: Layout)
    requires h.cod <= h.dat <= h.hea <= |buf| && h.dat - h.cod == c.code * CELL && h.hea - h.dat <= c.data * CELL
    requires Fits(c, l, arena.Length)
    requires forall k :: 0 <= k < arena.Length ==> arena[k] == 0
    modifies arena
    ensures SegmentsStored(arena[..], c, l, buf, h)
    ensures forall k :: l.publics <= k < arena.Length ==> arena[k] == 0
  {
    MemCpy(arena, l.code, buf[h.cod..h.dat]);
    FromLeCells(arena, l.code, c.code);
    ghost var m := arena[..];
    assert m[l.code..l.code + (h.dat - h.cod)] == buf[h.cod..h.dat];
    MemCpy(arena, l.data, buf[h.dat..h.hea]);
    ghost var m' := arena[..];
    assert m'[l.code..l.code + (h.dat - h.cod)] == m[l.code..l.code + (h.dat - h.cod)];
    FromLeCells(arena, l.data, c.data);
    assert arena[..] == m';
  }

  lemma SegmentsFrame(a: seq<byte>, b: seq<byte>, c: Counts, l: Layout, buf: seq<byte>, h: Header)
    requires SegmentsStored(a, c, l, buf, h) && SameOn(a, b, 0, l.publics)
    requires Fits(c, l, |a|) && h.dat - h.cod <= c.code * CELL && h.hea - h.dat <= c.data * CELL
    ensures SegmentsStored(b, c, l, buf, h)
  {
    assert b[l.code..l.code + (h.dat - h.cod)] == a[l.code..l.code + (h.dat - h.cod)];
    assert b[l.data..l.data + (h.hea - h.dat)] == a[l.data..l.data + (h.hea - h.dat)];
  }

  /** The three filling passes. Their verdicts are ignored, as in the source. */
  method FillTables(arena: array<byte>, buf: seq<byte>, bufAddr: nat, h: Header, host: seq<HostNative>,
                    base: nat, c: Counts, l: Layout,
                    ghost pubs: seq<Entry>, ghost nats: seq<Entry>, ghost vars: seq<Entry>)
    returns (cursor: nat)
    requires Accepted(buf, bufAddr, h, host, c, pubs, nats, vars)
    requires Fits(c, l, arena.Length)
    requires forall k :: l.publics <= k < arena.Length ==> arena[k] == 0
    modifies arena
    ensures cursor == l.strings + c.strings
    ensures TableStored(arena[..], base, l.publics, l.strings, pubs)
    ensures NativesStored(arena[..], l.natives, nats, host)
    ensures TableStored(arena[..], base, l.pubvars, l.strings + NamesSize(pubs), vars)
    ensures SameOn(old(arena[..]), arena[..], 0, l.publics)
  {
    hide TableStored, NativesStored, TableOk, TableOf, AllOffered, NamesSize, SameOutside, SameOn, HostOk;
    ghost var m0 := arena[..];
    var cursor1; ghost var m1;
    cursor1, m1 := FillPublicsAndNatives(arena, buf, bufAddr, h, host, base, c, l, pubs, nats);
    ghost var m2 := arena[..];
    var _, _, cursor2 := FillNames(buf, bufAddr, h.pubvars, h.tags, h.defsize, arena, base, l.pubvars, cursor1, vars);
    assert cursor2 == cursor1 + NamesSize(vars);
    FillsCompose(m0, m1, m2, arena[..], base, c, l, pubs, nats, NamesSize(vars), host);
    cursor := cursor2;
  }

  method FillPublicsAndNatives(arena: array<byte>, buf: seq<byte>, bufAddr: nat, h: Header, host: seq<HostNative>,
                               base: nat, c: Counts, l: Layout, ghost pubs: seq<Entry>, ghost nats: seq<Entry>)
    returns (cursor: nat, ghost m1: seq<byte>)
    requires |buf| < TWO32 && bufAddr + |buf| < TWO64 && HostOk(host) && h.defsize >= 8
    requires h.publics < TWO32 && h.natives < TWO32 && h.libraries < TWO32
    requires TableOk(buf, h.publics, h.natives, h.defsize) && pubs == TableOf(buf, h.publics, h.natives, h.defsize)
    requires TableOk(buf, h.natives, h.libraries, h.defsize) && nats == TableOf(buf, h.natives, h.libraries, h.defsize)
    requires AllOffered(host, nats) && c.publics == |pubs| && c.natives == |nats| && NamesSize(pubs) <= c.strings
    requires Fits(c, l, arena.Length)
    requires forall k :: l.publics <= k < arena.Length ==> arena[k] == 0
    modifies arena
    ensures cursor == l.strings + NamesSize(pubs)
    ensures TableStored(m1, base, l.publics, l.strings, pubs)
    ensures SameOutside(old(arena[..]), m1, l.publics, l.publics + PAIR * |pubs|,
                        l.strings, l.strings + NamesSize(pubs))
    ensures NativesStored(arena[..], l.natives, nats, host)
    ensures SameOutside(m1, arena[..], l.natives, l.natives + NATIVE * |nats|, 0, 0)
    ensures forall k :: cursor <= k < arena.Length ==> arena[k] == 0
  {
    ghost var m0 := arena[..];
    var _, _, cursor1 :=
      FillNames(buf, bufAddr, h.publics, h.natives, h.defsize, arena, base, l.publics, l.strings, pubs);
    m1 := arena[..];
    var _, _ := FillNatives(buf, bufAddr, h.natives, h.libraries, h.defsize, host, arena, l.natives, nats);
    StillClear(m0, m1, arena[..], c, l, NamesSize(pubs));
    forall k | cursor1 <= k < arena.Length ensures arena[k] == 0 {
      assert arena[k] == arena[..][k];
    }
    cursor := cursor1;
  }

  lemma StillClear(m0: seq<byte>, m1: seq<byte>, m2: seq<byte>, c: Counts, l: Layout, used: nat)
    requires Fits(c, l, |m0|)
    requires forall k :: l.publics <= k < |m0| ==> m0[k] == 0
    requires SameOutside(m0, m1, l.publics, l.publics + PAIR * c.publics, l.strings, l.strings + used)
    requires SameOutside(m1, m2, l.natives, l.natives + NATIVE * c.natives, 0, 0)
    ensures forall k :: l.strings + used <= k < |m2| ==> m2[k] == 0
  {
    forall k | l.strings + used <= k < |m2| ensures m2[k] == 0 {
      assert m2[k] == m1[k] == m0[k];
    }
  }

  lemma FillsCompose(m0: seq<byte>, m1: seq<byte>, m2: seq<byte>, m3: seq<byte>, base: nat, c: Counts, l: Layout,
                     pubs: seq<Entry>, nats: seq<Entry>, used: nat, host: seq<HostNative>)
    requires HostOk(host) && Fits(c, l, |m0|) && c.publics == |pubs| && c.natives == |nats|
    requires TableStored(m1, base, l.publics, l.strings, pubs) && NativesStored(m2, l.natives, nats, host)
    requires SameOutside(m0, m1, l.publics, l.publics + PAIR * |pubs|, l.strings, l.strings + NamesSize(pubs))
    requires SameOutside(m1, m2, l.natives, l.natives + NATIVE * |nats|, 0, 0)
    requires var s := l.strings + NamesSize(pubs);
      SameOutside(m2, m3, l.pubvars, l.pubvars + PAIR * c.pubvars, s, s + used)
    ensures TableStored(m3, base, l.publics, l.strings, pubs) && NativesStored(m3, l.natives, nats, host)
    ensures SameOn(m0, m3, 0, l.publics)
  {
    assert SameOn(m1, m3, l.publics, l.publics + PAIR * |pubs|);
    assert SameOn(m1, m3, l.strings, l.strings + NamesSize(pubs));
    TableStoredFrame(m1, m3, base, l.publics, l.strings, pubs);
    NativesStoredFrame(m2, m3, l.natives, nats, host);
  }

  // ---- Initial registers ----

  function InitialSTP(h: Header): nat
    requires h.dat <= h.hea
  {
    Wrap((DataCells(h) - 1) * CELL)
  }

  function InitialHEA(h: Header): nat
    requires h.dat <= h.hea
  {
    (h.hea - h.dat) / CELL * CELL
  }

  /** The registers are what the file promises (a segment of exactly [dat, stp) rounded up to
      cells, the heap at its end, the stack at its last cell) if and only if stp > hea. */
  lemma InitialRegistersIff(h: Header)
    requires h.dat <= h.hea < TWO32 && h.stp < TWO32 && (h.hea - h.dat) % CELL == 0
    ensures InitialHEA(h) == h.hea - h.dat
    ensures
      && DataCells(h) == (h.stp - h.dat + 7) / 8
      && InitialHEA(h) <= InitialSTP(h) && InitialSTP(h) + CELL == DataCells(h) * CELL
      <==> h.stp > h.hea
  {
    DataCellsExact(h);
    if DataCells(h) > 0 {
      WrapSmall((DataCells(h) - 1) * CELL);
    }
  }
}
