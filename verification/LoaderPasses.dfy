/** The loader's passes over the name tables: the counting passes that validate, and the
    filling passes that trust them. Each pass is iter_valarray with its visitor in place. */
module LoaderPasses {
  import opened Bytes
  import opened KernelStubs
  import opened ValArray
  import opened AmxFile
  import opened Arena

  /** The visitor's scan for the end of a name. */
  method ScanName(buf: seq<byte>, nameofs: nat) returns (nameend: nat)
    ensures nameend == NulAt(buf, nameofs)
  {
    nameend := nameofs;
    while nameend < |buf| && buf[nameend] != 0
      invariant nameofs <= nameend
      invariant NulAt(buf, nameofs) == NulAt(buf, nameend)
    {
      nameend := nameend + 1;
    }
  }

  /** The part common to all visitors: read the row and find the end of its name. */
  method ReadRow(buf: seq<byte>, begin: nat, end: nat, defsize: nat, i: nat)
    returns (named: bool, address: nat, nameofs: nat, nameend: nat)
    requires defsize >= 8 && begin <= end <= |buf| && i < RowCount(begin, end, defsize)
    ensures named <==> RowOk(buf, begin, defsize, i)
    ensures named ==> nameofs <= nameend < |buf| && Terminated(buf, nameofs) && nameend == NulAt(buf, nameofs)
    ensures named ==> Row(buf, begin, defsize, i) == Entry(address, buf[nameofs..nameend])
    ensures address < TWO32
  {
    EntryInside(begin, end, defsize, i);
    RowPosClosed(begin, defsize, i);
    var p := begin + i * defsize;
    address := U32(buf, p);
    nameofs := U32(buf, p + 4);
    nameend := ScanName(buf, nameofs);
    named := nameend < |buf|;
  }

  /** On a table that passed counting, the visitor finds exactly row i and never fails. */
  method ReadKnownRow(buf: seq<byte>, begin: nat, end: nat, defsize: nat, i: nat, ghost t: seq<Entry>)
    returns (address: nat, nameofs: nat, nameend: nat)
    requires defsize >= 8 && TableOk(buf, begin, end, defsize) && t == TableOf(buf, begin, end, defsize)
    requires i < |t|
    ensures nameofs <= nameend < |buf| && t[i] == Entry(address, buf[nameofs..nameend])
    ensures Terminated(buf, nameofs) && t[i].name == CString(buf, nameofs)
  {
    assert RowOk(buf, begin, defsize, i) && t[i] == Row(buf, begin, defsize, i);
    var named;
    named, address, nameofs, nameend := ReadRow(buf, begin, end, defsize, i);
    if !named {
      assert false;
    }
  }

  lemma BadRow(buf: seq<byte>, begin: nat, end: nat, defsize: nat, i: nat)
    requires defsize > 0 && i < RowCount(begin, end, defsize) && !RowOk(buf, begin, defsize, i)
    ensures !TableOk(buf, begin, end, defsize)
  {
  }

  ghost predicate RowsRead(buf: seq<byte>, begin: nat, defsize: nat, rows: seq<Entry>)
  {
    forall j: nat :: j < |rows| ==> RowIs(buf, begin, defsize, j, rows[j])
  }

  ghost predicate RowIs(buf: seq<byte>, begin: nat, defsize: nat, j: nat, e: Entry)
  {
    RowOk(buf, begin, defsize, j) && e == Row(buf, begin, defsize, j)
  }

  lemma RowsReadStep(buf: seq<byte>, begin: nat, defsize: nat, rows: seq<Entry>, e: Entry)
    requires RowsRead(buf, begin, defsize, rows)
    requires RowIs(buf, begin, defsize, |rows|, e)
    ensures RowsRead(buf, begin, defsize, rows + [e])
    ensures NamesSize(rows + [e]) == NamesSize(rows) + |e.name| + 1
  {
    hide RowIs, NamesSize;
    NamesSizeAppend(rows, e);
    var rows' := rows + [e];
    forall j: nat | j < |rows'| ensures RowIs(buf, begin, defsize, j, rows'[j]) {
      assert rows'[j] == if j < |rows| then rows[j] else e;
    }
  }

  lemma NamesSizeAppend(rows: seq<Entry>, e: Entry)
    ensures NamesSize(rows + [e]) == NamesSize(rows) + |e.name| + 1
  {
    assert (rows + [e])[..|rows|] == rows;
  }

  lemma RowsReadAll(buf: seq<byte>, begin: nat, end: nat, defsize: nat, rows: seq<Entry>)
    requires defsize > 0 && RangeOk(|buf|, begin, end, defsize)
    requires RowsRead(buf, begin, defsize, rows) && |rows| == RowCount(begin, end, defsize)
    ensures TableOk(buf, begin, end, defsize) && rows == TableOf(buf, begin, end, defsize)
  {
    forall i: nat | i < RowCount(begin, end, defsize) ensures RowOk(buf, begin, defsize, i) {
      assert RowIs(buf, begin, defsize, i, rows[i]);
    }
  }

  /** std::find_if over the host's natives. */
  method FindHost(buf: seq<byte>, nameofs: nat, host: seq<HostNative>) returns (k: nat)
    requires HostOk(host) && Terminated(buf, nameofs)
    ensures k <= |host|
    ensures k < |host| ==> FirstHost(host, CString(buf, nameofs), k)
    ensures k < |host| <==> Offered(host, CString(buf, nameofs))
  {
    k := 0;
    while k < |host|
      invariant k <= |host|
      invariant forall j :: 0 <= j < k ==> host[j].Name() != CString(buf, nameofs)
    {
      var c := StrCmp(buf, nameofs, host[k].nameMem, 0);
      if c == 0 {
        return;
      }
      k := k + 1;
    }
  }

  /** What both counting passes need of their caller. */
  predicate Readable(buf: seq<byte>, bufAddr: nat, begin: nat, end: nat, defsize: nat)
  {
    |buf| < TWO32 && bufAddr + |buf| < TWO64 && begin < TWO32 && end < TWO32 && defsize >= 8
  }

  /** string_buffer_size += end - begin + 1, modulo 2^64. */
  method AddName(size: nat, nameofs: nat, nameend: nat) returns (size': nat)
    requires nameofs <= nameend < TWO32 && size < TWO64 - TWO32
    ensures size' == size + (nameend - nameofs) + 1 <= size + TWO32
  {
    WrapSmall(size + (nameend - nameofs + 1));
    size' := Wrap(size + (nameend - nameofs + 1));
  }

  /** First pass over publics or pubvars: accepts exactly the well-formed tables and measures
      them. The byte total is computed modulo 2^64, and never reaches it. */
  method CountNames(buf: seq<byte>, bufAddr: nat, begin: nat, end: nat, defsize: nat, size0: nat)
    returns (ok: bool, count: nat, size: nat)
    requires Readable(buf, bufAddr, begin, end, defsize)
    requires size0 <= 0x2000_0000_0000_0000
    ensures ok <==> TableOk(buf, begin, end, defsize)
    ensures ok ==> count == |TableOf(buf, begin, end, defsize)|
    ensures ok ==> size == size0 + NamesSize(TableOf(buf, begin, end, defsize))
    ensures size <= size0 + 0x2000_0000_0000_0000
  {
    count, size := 0, size0;
    var n;
    ok, n := Enter(bufAddr, |buf|, begin, end, defsize);
    if !ok {
      return;
    }
    CountBound(begin, end, defsize);
    ghost var rows: seq<Entry> := [];
    var i := 0;
    while i < n
      invariant 0 <= i <= n
      invariant |rows| == count == i
      invariant RowsRead(buf, begin, defsize, rows)
      invariant size == size0 + NamesSize(rows)
      invariant size <= size0 + i * TWO32
    {
      var named, address, nameofs, nameend := ReadRow(buf, begin, end, defsize, i);
      if !named {
        BadRow(buf, begin, end, defsize, i);
        return false, count, size;
      }
      count := count + 1;
      size := AddName(size, nameofs, nameend);
      RowsReadStep(buf, begin, defsize, rows, Entry(address, buf[nameofs..nameend]));
      rows := rows + [Entry(address, buf[nameofs..nameend])];
      i := i + 1;
    }
    RowsReadAll(buf, begin, end, defsize, rows);
  }

  /** Row i is the first one the pass cannot take, and only because the host lacks its name. */
  ghost predicate MissingAt(buf: seq<byte>, begin: nat, defsize: nat, host: seq<HostNative>, i: nat)
    requires HostOk(host)
  {
    && RowOk(buf, begin, defsize, i) && !Offered(host, Row(buf, begin, defsize, i).name)
    && forall j: nat :: j < i ==> RowOffered(buf, begin, defsize, host, j)
  }

  ghost predicate RowOffered(buf: seq<byte>, begin: nat, defsize: nat, host: seq<HostNative>, j: nat)
    requires HostOk(host)
  {
    RowOk(buf, begin, defsize, j) && Offered(host, Row(buf, begin, defsize, j).name)
  }

  ghost predicate MissingNative(buf: seq<byte>, begin: nat, end: nat, defsize: nat, host: seq<HostNative>)
    requires HostOk(host) && defsize > 0
  {
    && RangeOk(|buf|, begin, end, defsize)
    && exists i: nat :: i < RowCount(begin, end, defsize) && MissingAt(buf, begin, defsize, host, i)
  }

  lemma MissingNativeFails(buf: seq<byte>, begin: nat, end: nat, defsize: nat, host: seq<HostNative>)
    requires HostOk(host) && defsize > 0 && MissingNative(buf, begin, end, defsize, host)
    ensures !(TableOk(buf, begin, end, defsize) && AllOffered(host, TableOf(buf, begin, end, defsize)))
  {
    var i: nat :| i < RowCount(begin, end, defsize) && MissingAt(buf, begin, defsize, host, i);
    if TableOk(buf, begin, end, defsize) {
      assert TableOf(buf, begin, end, defsize)[i] == Row(buf, begin, defsize, i);
    }
  }

  lemma OfferedRows(buf: seq<byte>, begin: nat, defsize: nat, host: seq<HostNative>, rows: seq<Entry>)
    requires HostOk(host)
    requires RowsRead(buf, begin, defsize, rows) && AllOffered(host, rows)
    ensures forall j: nat :: j < |rows| ==> RowOffered(buf, begin, defsize, host, j)
  {
    forall j: nat | j < |rows| ensures RowOffered(buf, begin, defsize, host, j) {
      assert RowIs(buf, begin, defsize, j, rows[j]);
    }
  }

  lemma NotMissing(buf: seq<byte>, begin: nat, end: nat, defsize: nat, host: seq<HostNative>, rows: seq<Entry>)
    requires HostOk(host) && defsize > 0
    requires RowsRead(buf, begin, defsize, rows) && AllOffered(host, rows)
    requires |rows| >= RowCount(begin, end, defsize) || !RowOk(buf, begin, defsize, |rows|)
    ensures !MissingNative(buf, begin, end, defsize, host)
  {
    forall i: nat | i < RowCount(begin, end, defsize) ensures !MissingAt(buf, begin, defsize, host, i) {
      if i < |rows| {
        assert RowIs(buf, begin, defsize, i, rows[i]);
      } else if |rows| < i {
        assert !RowOffered(buf, begin, defsize, host, |rows|);
      }
    }
  }

  /** First pass over natives: additionally every name must be offered by the host. */
  method CountNatives(buf: seq<byte>, bufAddr: nat, begin: nat, end: nat, defsize: nat, host: seq<HostNative>)
    returns (ok: bool, notFound: bool, count: nat)
    requires Readable(buf, bufAddr, begin, end, defsize) && HostOk(host)
    ensures ok <==> TableOk(buf, begin, end, defsize) && AllOffered(host, TableOf(buf, begin, end, defsize))
    ensures ok ==> count == |TableOf(buf, begin, end, defsize)|
    ensures notFound <==> MissingNative(buf, begin, end, defsize, host)
  {
    ok, notFound, count := false, false, 0;
    var n;
    ok, n := Enter(bufAddr, |buf|, begin, end, defsize);
    if !ok {
      return;
    }
    ghost var rows: seq<Entry> := [];
    var i := 0;
    while i < n
      invariant 0 <= i <= n
      invariant |rows| == count == i
      invariant RowsRead(buf, begin, defsize, rows)
      invariant AllOffered(host, rows)
    {
      var named, address, nameofs, nameend := ReadRow(buf, begin, end, defsize, i);
      if !named {
        BadRow(buf, begin, end, defsize, i);
        NotMissing(buf, begin, end, defsize, host, rows);
        return false, notFound, count;
      }
      var k := FindHost(buf, nameofs, host);
      if k == |host| {
        notFound := true;
        OfferedRows(buf, begin, defsize, host, rows);
        assert MissingAt(buf, begin, defsize, host, i);
        MissingNativeFails(buf, begin, end, defsize, host);
        return false, notFound, count;
      }
      RowsReadStep(buf, begin, defsize, rows, Entry(address, buf[nameofs..nameend]));
      rows := rows + [Entry(address, buf[nameofs..nameend])];
      count := count + 1;
      i := i + 1;
    }
    RowsReadAll(buf, begin, end, defsize, rows);
    NotMissing(buf, begin, end, defsize, host, rows);
  }

  // ---- What the filling passes leave in the arena ----

  /** Row o of a table of (name pointer, address) pairs, its name copied to offset so. */
  ghost predicate EntryStored(mem: seq<byte>, base: nat, o: nat, so: nat, e: Entry)
  {
    && o + PAIR <= |mem| && so + |e.name| + 1 <= |mem|
    && mem[o..o + 8] == EncodeLE(base + so, 8)
    && mem[o + 8..o + 16] == EncodeLE(e.address, 8)
    && mem[so..so + |e.name| + 1] == e.name + [0]
  }

  /** Row i of a table at offset tab whose names are packed from offset str in file order. */
  ghost predicate RowStored(mem: seq<byte>, base: nat, tab: nat, str: nat, t: seq<Entry>, i: nat)
  {
    i < |t| && EntryStored(mem, base, tab + PAIR * i, str + NamesSize(t[..i]), t[i])
  }

  ghost predicate TableStored(mem: seq<byte>, base: nat, tab: nat, str: nat, t: seq<Entry>)
  {
    forall i: nat :: i < |t| ==> RowStored(mem, base, tab, str, t, i)
  }

  /** A native pointer is that of the first host native of the name. */
  ghost predicate NativeStored(mem: seq<byte>, tab: nat, t: seq<Entry>, host: seq<HostNative>, i: nat)
    requires HostOk(host)
  {
    var o := tab + NATIVE * i;
    && i < |t| && o + NATIVE <= |mem|
    && exists k: nat :: FirstHost(host, t[i].name, k) && mem[o..o + 8] == EncodeLE(host[k].callback, 8)
  }

  ghost predicate NativesStored(mem: seq<byte>, tab: nat, t: seq<Entry>, host: seq<HostNative>)
    requires HostOk(host)
  {
    forall i: nat :: i < |t| ==> NativeStored(mem, tab, t, host, i)
  }

  ghost predicate SameOn(a: seq<byte>, b: seq<byte>, lo: nat, hi: nat)
  {
    |a| == |b| && forall k :: lo <= k < hi && k < |a| ==> a[k] == b[k]
  }

  /** b differs from a inside [lo, hi) and [lo2, hi2) only. */
  ghost predicate SameOutside(a: seq<byte>, b: seq<byte>, lo: nat, hi: nat, lo2: nat, hi2: nat)
  {
    |a| == |b| && forall k :: 0 <= k < |a| && !(lo <= k < hi) && !(lo2 <= k < hi2) ==> a[k] == b[k]
  }

  lemma EntryStoredFrame(a: seq<byte>, b: seq<byte>, base: nat, o: nat, so: nat, e: Entry)
    requires EntryStored(a, base, o, so, e)
    requires SameOn(a, b, o, o + PAIR) && SameOn(a, b, so, so + |e.name| + 1)
    ensures EntryStored(b, base, o, so, e)
  {
    assert b[o..o + 8] == a[o..o + 8];
    assert b[o + 8..o + 16] == a[o + 8..o + 16];
    assert b[so..so + |e.name| + 1] == a[so..so + |e.name| + 1];
  }

  lemma RowStoredFrame(a: seq<byte>, b: seq<byte>, base: nat, tab: nat, str: nat, t: seq<Entry>, i: nat, n: nat)
    requires i < n <= |t| && RowStored(a, base, tab, str, t, i)
    requires SameOn(a, b, tab, tab + PAIR * n) && SameOn(a, b, str, str + NamesSize(t[..n]))
    ensures RowStored(b, base, tab, str, t, i)
  {
    NamesSizeStep(t, i);
    NamesSizeMonotone(t, i + 1, n);
    EntryStoredFrame(a, b, base, tab + PAIR * i, str + NamesSize(t[..i]), t[i]);
  }

  lemma TableStoredFrame(a: seq<byte>, b: seq<byte>, base: nat, tab: nat, str: nat, t: seq<Entry>)
    requires TableStored(a, base, tab, str, t)
    requires SameOn(a, b, tab, tab + PAIR * |t|) && SameOn(a, b, str, str + NamesSize(t))
    ensures TableStored(b, base, tab, str, t)
  {
    assert t[..|t|] == t;
    forall i: nat | i < |t| ensures RowStored(b, base, tab, str, t, i) {
      RowStoredFrame(a, b, base, tab, str, t, i, |t|);
    }
  }

  lemma NativeStoredFrame(a: seq<byte>, b: seq<byte>, tab: nat, t: seq<Entry>, host: seq<HostNative>, i: nat)
    requires HostOk(host) && NativeStored(a, tab, t, host, i)
    requires SameOn(a, b, tab + NATIVE * i, tab + NATIVE * i + NATIVE)
    ensures NativeStored(b, tab, t, host, i)
  {
    var o := tab + NATIVE * i;
    assert a[o..o + 8] == b[o..o + 8];
  }

  lemma NativesStoredFrame(a: seq<byte>, b: seq<byte>, tab: nat, t: seq<Entry>, host: seq<HostNative>)
    requires HostOk(host) && NativesStored(a, tab, t, host)
    requires SameOn(a, b, tab, tab + NATIVE * |t|)
    ensures NativesStored(b, tab, t, host)
  {
    forall i: nat | i < |t| ensures NativeStored(b, tab, t, host, i) {
      NativeStoredFrame(a, b, tab, t, host, i);
    }
  }

  /** After i visits: i rows are in place, the rest of the name area is still clear, and
      nothing else has changed. */
  ghost predicate Filled(m0: seq<byte>, m: seq<byte>, base: nat, tab: nat, str: nat, t: seq<Entry>, i: nat)
  {
    && i <= |t| && str + NamesSize(t) <= |m|
    && (forall j: nat :: j < i ==> RowStored(m, base, tab, str, t, j))
    && (forall k :: str + NamesSize(t[..i]) <= k < str + NamesSize(t) ==> m[k] == 0)
    && SameOutside(m0, m, tab, tab + PAIR * i, str, str + NamesSize(t[..i]))
  }

  lemma FilledStep(m0: seq<byte>, m: seq<byte>, m': seq<byte>, base: nat, tab: nat, str: nat, t: seq<Entry>, i: nat)
    requires i < |t| && tab + PAIR * |t| <= str
    requires Filled(m0, m, base, tab, str, t, i)
    requires RowStored(m', base, tab, str, t, i)
    requires var so := str + NamesSize(t[..i]);
      SameOutside(m, m', tab + PAIR * i, tab + PAIR * i + PAIR, so, so + |t[i].name|)
    ensures Filled(m0, m', base, tab, str, t, i + 1)
  {
    NamesSizeStep(t, i);
    forall j: nat | j < i ensures RowStored(m', base, tab, str, t, j) {
      RowStoredFrame(m, m', base, tab, str, t, j, i);
    }
  }

  /** Rows as a file can hold them. */
  ghost predicate Clean(t: seq<Entry>)
  {
    forall i :: 0 <= i < |t| ==> 0 !in t[i].name && t[i].address < TWO32
  }

  lemma TableClean(buf: seq<byte>, begin: nat, end: nat, defsize: nat)
    requires defsize > 0 && TableOk(buf, begin, end, defsize)
    ensures Clean(TableOf(buf, begin, end, defsize))
  {
    var t := TableOf(buf, begin, end, defsize);
    forall i | 0 <= i < |t| ensures 0 !in t[i].name && t[i].address < TWO32 {
      assert RowOk(buf, begin, defsize, i);
      CStringHasNoNul(buf, U32(buf, RowPos(begin, defsize, i) + 4));
    }
  }

  /** However names overlap in the file, the copies of a table's names stay below 2^61 bytes. */
  lemma NamesFit(buf: seq<byte>, begin: nat, end: nat, defsize: nat)
    requires |buf| < TWO32 && defsize >= 8 && TableOk(buf, begin, end, defsize)
    ensures NamesSize(TableOf(buf, begin, end, defsize)) <= 0x2000_0000_0000_0000
  {
    var t := TableOf(buf, begin, end, defsize);
    CountBound(begin, end, defsize);
    forall i | 0 <= i < |t| ensures |t[i].name| < |buf| {
      assert RowOk(buf, begin, defsize, i);
    }
    NamesSizeBound(t, |buf|);
  }

  lemma {:induction false} NamesSizeBound(t: seq<Entry>, n: nat)
    requires n <= TWO32 && forall i :: 0 <= i < |t| ==> |t[i].name| < n
    ensures NamesSize(t) <= |t| * TWO32
  {
    if t != [] {
      NamesSizeBound(t[..|t| - 1], n);
    }
  }

  /** Reading a stored row back yields the row. */
  lemma ReadBack(mem: seq<byte>, base: nat, o: nat, so: nat, e: Entry)
    requires EntryStored(mem, base, o, so, e) && base + |mem| < TWO64
    requires 0 !in e.name && e.address < TWO32
    ensures DecodeLE(mem[o..o + 8]) == base + so && DecodeLE(mem[o + 8..o + 16]) == e.address
    ensures Terminated(mem, so) && CString(mem, so) == e.name
  {
    Pow256Values();
    DecodeEncode(base + so, 8);
    DecodeEncode(e.address, 8);
    CStringAt(mem, so, e.name);
  }

  // ---- Filling passes ----

  /** One visit of the filling pass: copy the name behind the cursor, then write the pair. The
      terminator is the zero the arena was cleared with. */
  method StoreEntry(arena: array<byte>, base: nat, o: nat, so: nat, name: seq<byte>, address: nat)
    requires o + PAIR <= so && so + |name| + 1 <= arena.Length
    requires arena[so + |name|] == 0
    modifies arena
    ensures EntryStored(arena[..], base, o, so, Entry(address, name))
    ensures SameOutside(old(arena[..]), arena[..], o, o + PAIR, so, so + |name|)
  {
    MemCpy(arena, so, name);
    MemCpy(arena, o, EncodeLE(base + so, 8));
    MemCpy(arena, o + 8, EncodeLE(address, 8));
    ghost var m := arena[..];
    assert m[o..o + 8] == EncodeLE(base + so, 8);
    assert m[so..so + |name| + 1] == name + [0];
  }

  /** Second pass over publics or pubvars. On a table that passed counting no failure branch
      is taken, every row is written, and the cursor advances by exactly the counted bytes. */
  method FillNames(buf: seq<byte>, bufAddr: nat, begin: nat, end: nat, defsize: nat,
                   arena: array<byte>, base: nat, tab: nat, str: nat, ghost t: seq<Entry>)
    returns (ok: bool, counter: nat, cursor: nat)
    requires Readable(buf, bufAddr, begin, end, defsize)
    requires TableOk(buf, begin, end, defsize) && t == TableOf(buf, begin, end, defsize)
    requires tab + PAIR * |t| <= str && str + NamesSize(t) <= arena.Length
    requires forall k :: str <= k < str + NamesSize(t) ==> arena[k] == 0
    modifies arena
    ensures ok && counter == |t| && cursor == str + NamesSize(t)
    ensures TableStored(arena[..], base, tab, str, t)
    ensures SameOutside(old(arena[..]), arena[..], tab, tab + PAIR * |t|, str, cursor)
  {
    ghost var m0 := arena[..];
    counter, cursor := 0, str;
    var n;
    ok, n := Enter(bufAddr, |buf|, begin, end, defsize);
    var i := 0;
    while i < n
      invariant 0 <= i <= n == |t|
      invariant counter == i && cursor == str + NamesSize(t[..i])
      invariant Filled(m0, arena[..], base, tab, str, t, i)
    {
      var address, nameofs, nameend := ReadKnownRow(buf, begin, end, defsize, i, t);
      FillRow(buf[nameofs..nameend], address, i, arena, base, tab, str, cursor, m0, t);
      NamesSizeStep(t, i);
      cursor := cursor + (nameend - nameofs + 1);
      counter := counter + 1;
      i := i + 1;
    }
    assert t[..|t|] == t;
  }

  /** What the visitor of the filling pass writes for row i. */
  method FillRow(bytes: seq<byte>, address: nat, i: nat, arena: array<byte>,
                 base: nat, tab: nat, ghost str: nat, name: nat, ghost m0: seq<byte>, ghost t: seq<Entry>)
    requires i < |t| && t[i] == Entry(address, bytes) && tab + PAIR * |t| <= str
    requires Filled(m0, arena[..], base, tab, str, t, i) && name == str + NamesSize(t[..i])
    modifies arena
    ensures Filled(m0, arena[..], base, tab, str, t, i + 1)
  {
    NamesSizeRoom(t, i);
    ghost var m := arena[..];
    assert m[name + |bytes|] == 0;
    StoreEntry(arena, base, tab + PAIR * i, name, bytes, address);
    RowStoredIntro(arena[..], base, tab, str, t, i, name);
    FilledStep(m0, m, arena[..], base, tab, str, t, i);
  }

  lemma RowStoredIntro(mem: seq<byte>, base: nat, tab: nat, str: nat, t: seq<Entry>, i: nat, so: nat)
    requires i < |t| && so == str + NamesSize(t[..i])
    requires EntryStored(mem, base, tab + PAIR * i, so, t[i])
    ensures RowStored(mem, base, tab, str, t, i)
  {
  }

  lemma NamesSizeRoom(t: seq<Entry>, i: nat)
    requires i < |t|
    ensures NamesSize(t[..i]) + |t[i].name| < NamesSize(t)
  {
    NamesSizeStep(t, i);
    NamesSizeMonotone(t, i + 1, |t|);
    assert t[..|t|] == t;
  }

  /** Second pass over natives. */
  method FillNatives(buf: seq<byte>, bufAddr: nat, begin: nat, end: nat, defsize: nat, host: seq<HostNative>,
                     arena: array<byte>, tab: nat, ghost t: seq<Entry>)
    returns (ok: bool, counter: nat)
    requires Readable(buf, bufAddr, begin, end, defsize) && HostOk(host)
    requires TableOk(buf, begin, end, defsize) && t == TableOf(buf, begin, end, defsize) && AllOffered(host, t)
    requires tab + NATIVE * |t| <= arena.Length
    modifies arena
    ensures ok && counter == |t|
    ensures NativesStored(arena[..], tab, t, host)
    ensures SameOutside(old(arena[..]), arena[..], tab, tab + NATIVE * |t|, 0, 0)
  {
    ghost var m0 := arena[..];
    counter := 0;
    var n;
    ok, n := Enter(bufAddr, |buf|, begin, end, defsize);
    var i := 0;
    while i < n
      invariant 0 <= i <= n == |t| && counter == i
      invariant NativesFilled(m0, arena[..], tab, t, host, i)
    {
      ghost var m := arena[..];
      FillNative(buf, begin, end, defsize, i, host, arena, tab, t);
      NativesFilledStep(m0, m, arena[..], tab, t, host, i);
      counter := counter + 1;
      i := i + 1;
    }
  }

  ghost predicate NativesFilled(m0: seq<byte>, m: seq<byte>, tab: nat, t: seq<Entry>, host: seq<HostNative>, n: nat)
    requires HostOk(host)
  {
    && (forall i: nat :: i < n ==> NativeStored(m, tab, t, host, i))
    && SameOutside(m0, m, tab, tab + NATIVE * n, 0, 0)
  }

  /** The visitor of the filling pass over natives, on row i. */
  method FillNative(buf: seq<byte>, begin: nat, end: nat, defsize: nat, i: nat, host: seq<HostNative>,
                    arena: array<byte>, tab: nat, ghost t: seq<Entry>)
    requires defsize >= 8 && TableOk(buf, begin, end, defsize) && t == TableOf(buf, begin, end, defsize)
    requires HostOk(host) && AllOffered(host, t)
    requires i < |t| && tab + NATIVE * |t| <= arena.Length
    modifies arena
    ensures NativeStored(arena[..], tab, t, host, i)
    ensures SameOutside(old(arena[..]), arena[..], tab + NATIVE * i, tab + NATIVE * i + NATIVE, 0, 0)
  {
    var _, nameofs, _ := ReadKnownRow(buf, begin, end, defsize, i, t);
    var k := FindHost(buf, nameofs, host);
    assert Offered(host, t[i].name);
    StorePointer(arena, tab + NATIVE * i, host[k].callback);
    NativeStoredIntro(arena[..], tab, t, host, i, k);
  }

  method StorePointer(arena: array<byte>, o: nat, value: nat)
    requires o + NATIVE <= arena.Length
    modifies arena
    ensures arena[..][o..o + NATIVE] == EncodeLE(value, 8)
    ensures SameOutside(old(arena[..]), arena[..], o, o + NATIVE, 0, 0)
  {
    MemCpy(arena, o, EncodeLE(value, 8));
  }

  lemma NativeStoredIntro(mem: seq<byte>, tab: nat, t: seq<Entry>, host: seq<HostNative>, i: nat, k: nat)
    requires HostOk(host) && i < |t| && tab + NATIVE * i + NATIVE <= |mem|
    requires FirstHost(host, t[i].name, k)
    requires mem[tab + NATIVE * i..tab + NATIVE * i + NATIVE] == EncodeLE(host[k].callback, 8)
    ensures NativeStored(mem, tab, t, host, i)
  {
  }

  lemma NativesFilledStep(m0: seq<byte>, a: seq<byte>, b: seq<byte>, tab: nat, t: seq<Entry>,
                          host: seq<HostNative>, n: nat)
    requires HostOk(host) && NativesFilled(m0, a, tab, t, host, n)
    requires NativeStored(b, tab, t, host, n)
    requires SameOutside(a, b, tab + NATIVE * n, tab + NATIVE * n + NATIVE, 0, 0)
    ensures NativesFilled(m0, b, tab, t, host, n + 1)
  {
    forall i: nat | i < n ensures NativeStored(b, tab, t, host, i) {
      NativeStoredFrame(a, b, tab, t, host, i);
    }
  }
}
