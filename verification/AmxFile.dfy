/** What an AMX file says: its header, its name tables, and what looking a name up means.
    These definitions mention no passes, cursors or arena. */
module AmxFile {
  import opened Bytes
  import opened ValArray

  datatype LoaderError =
    | Success
    | InvalidFile
    | UnsupportedFileVersion
    | UnsupportedAmxVersion
    | FeatureNotSupported
    | WrongCellSize
    | NativeNotResolved
    | Unknown

  const HEADER_SIZE: nat := 60
  const MAGIC_32: nat := 0xF1E0
  const MAGIC_64: nat := 0xF1E1
  const MAGIC_16: nat := 0xF1E2
  const FILE_VERSION: nat := 11

  datatype Header = Header(
    size: nat, magic: nat, fileVersion: nat, amxVersion: nat, flags: nat, defsize: nat,
    cod: nat, dat: nat, hea: nat, stp: nat, cip: nat,
    publics: nat, natives: nat, libraries: nat, pubvars: nat, tags: nat)

  function ReadHeader(buf: seq<byte>): (h: Header)
    requires |buf| >= HEADER_SIZE
    ensures h.defsize < 0x1_0000
    ensures h.cod < TWO32 && h.dat < TWO32 && h.hea < TWO32 && h.stp < TWO32 && h.cip < TWO32
    ensures h.publics < TWO32 && h.natives < TWO32 && h.libraries < TWO32 && h.pubvars < TWO32 && h.tags < TWO32
  {
    Header(
      U32(buf, 0), U16(buf, 4), buf[6], buf[7], U16(buf, 8), U16(buf, 10),
      U32(buf, 12), U32(buf, 16), U32(buf, 20), U32(buf, 24), U32(buf, 28),
      U32(buf, 32), U32(buf, 36), U32(buf, 40), U32(buf, 44), U32(buf, 48))
  }

  predicate FlagOverlay(flags: nat) { flags % 2 == 1 }

  predicate FlagSleep(flags: nat) { flags / 8 % 2 == 1 }

  /** One row of a name table. */
  datatype Entry = Entry(address: nat, name: seq<byte>)

  /** The row at p lies in the file and its name is a C string in the file. */
  predicate NameOk(buf: seq<byte>, p: nat)
  {
    p + 8 <= |buf| && Terminated(buf, U32(buf, p + 4))
  }

  function EntryAt(buf: seq<byte>, p: nat): Entry
    requires NameOk(buf, p)
  {
    Entry(U32(buf, p), CString(buf, U32(buf, p + 4)))
  }

  /** Row i of a table of rows of the given size. */
  predicate RowOk(buf: seq<byte>, begin: nat, entry: nat, i: nat)
  {
    NameOk(buf, RowPos(begin, entry, i))
  }

  function Row(buf: seq<byte>, begin: nat, entry: nat, i: nat): Entry
    requires RowOk(buf, begin, entry, i)
  {
    EntryAt(buf, RowPos(begin, entry, i))
  }

  predicate TableOk(buf: seq<byte>, begin: nat, end: nat, entry: nat)
    requires entry > 0
  {
    && RangeOk(|buf|, begin, end, entry)
    && forall i: nat :: i < RowCount(begin, end, entry) ==> RowOk(buf, begin, entry, i)
  }

  function TableOf(buf: seq<byte>, begin: nat, end: nat, entry: nat): (t: seq<Entry>)
    requires entry > 0 && TableOk(buf, begin, end, entry)
  {
    seq(RowCount(begin, end, entry), i requires 0 <= i < RowCount(begin, end, entry) => Row(buf, begin, entry, i))
  }

  /** Bytes the names of a table take, terminators included. */
  function NamesSize(t: seq<Entry>): nat
  {
    if t == [] then 0 else NamesSize(t[..|t| - 1]) + |t[|t| - 1].name| + 1
  }

  lemma NamesSizeStep(t: seq<Entry>, i: nat)
    requires i < |t|
    ensures NamesSize(t[..i + 1]) == NamesSize(t[..i]) + |t[i].name| + 1
  {
    assert t[..i + 1][..i] == t[..i];
  }

  lemma {:induction false} NamesSizeMonotone(t: seq<Entry>, i: nat, j: nat)
    requires i <= j <= |t|
    ensures NamesSize(t[..i]) <= NamesSize(t[..j])
    decreases j - i
  {
    if i < j {
      NamesSizeStep(t, i);
      NamesSizeMonotone(t, i + 1, j);
    }
  }

  /** Looking a name up in a table: the address of the first row of that name, else 0. */
  function Lookup(t: seq<Entry>, name: seq<byte>): nat
  {
    if t == [] then 0 else if t[0].name == name then t[0].address else Lookup(t[1..], name)
  }

  lemma {:induction false} LookupFirst(t: seq<Entry>, name: seq<byte>, i: nat)
    requires i <= |t|
    requires forall j :: 0 <= j < i ==> t[j].name != name
    ensures i < |t| && t[i].name == name ==> Lookup(t, name) == t[i].address
    ensures i == |t| ==> Lookup(t, name) == 0
  {
    if i > 0 {
      LookupFirst(t[1..], name, i - 1);
    }
  }

  /** A native offered by the host; its name is a C string. */
  datatype HostNative = HostNative(nameMem: seq<byte>, callback: nat)
  {
    predicate Valid() { Terminated(nameMem, 0) && callback < TWO64 }

    function Name(): seq<byte>
      requires Valid()
    {
      CString(nameMem, 0)
    }
  }

  predicate HostOk(host: seq<HostNative>)
  {
    forall i :: 0 <= i < |host| ==> host[i].Valid()
  }

  /** Index k is the first host native of that name. */
  predicate FirstHost(host: seq<HostNative>, name: seq<byte>, k: nat)
    requires HostOk(host)
  {
    && k < |host| && host[k].Name() == name
    && forall j :: 0 <= j < k ==> host[j].Name() != name
  }

  predicate Offered(host: seq<HostNative>, name: seq<byte>)
    requires HostOk(host)
  {
    exists k :: 0 <= k < |host| && host[k].Name() == name
  }

  predicate AllOffered(host: seq<HostNative>, t: seq<Entry>)
    requires HostOk(host)
  {
    forall i :: 0 <= i < |t| ==> Offered(host, t[i].name)
  }

  /** The header is one this loader takes. */
  predicate HeaderOk(h: Header, bufSize: nat, amxVersion: nat)
  {
    && h.magic == MAGIC_64 && h.size <= bufSize && h.fileVersion == FILE_VERSION && h.amxVersion <= amxVersion
    && !FlagOverlay(h.flags) && !FlagSleep(h.flags) && h.defsize >= 8
    && RangeOk(bufSize, h.cod, h.dat, 8) && RangeOk(bufSize, h.dat, h.hea, 8)
  }

  /** The whole file is one this loader takes, memory permitting. */
  predicate FileOk(buf: seq<byte>, host: seq<HostNative>, amxVersion: nat)
    requires HostOk(host)
  {
    && |buf| >= HEADER_SIZE
    && var h := ReadHeader(buf);
    && HeaderOk(h, |buf|, amxVersion)
    && TableOk(buf, h.publics, h.natives, h.defsize)
    && TableOk(buf, h.natives, h.libraries, h.defsize)
    && AllOffered(host, TableOf(buf, h.natives, h.libraries, h.defsize))
    && h.libraries == h.pubvars
    && TableOk(buf, h.pubvars, h.tags, h.defsize)
  }

  /** Cells of the data segment the code computes from the header; the subtraction of the
      two 32-bit offsets wraps at 32 bits. */
  function DataCells(h: Header): nat
    requires h.dat <= h.hea
  {
    (h.hea - h.dat) / 8 + ((h.stp - h.hea) % TWO32 + 8 - 1) / 8
  }

  /** The segment has room for exactly [dat, stp) precisely when stp is not below hea. */
  lemma DataCellsExact(h: Header)
    requires h.dat <= h.hea < TWO32 && h.stp < TWO32 && (h.hea - h.dat) % 8 == 0
    ensures DataCells(h) == (h.stp - h.dat + 7) / 8 <==> h.stp >= h.hea
    ensures DataCells(h) > (h.hea - h.dat) / 8 <==> h.stp != h.hea
    ensures DataCells(h) < 0x4000_0000
  {
    if h.stp >= h.hea {
      assert (h.stp - h.hea) % TWO32 == h.stp - h.hea;
    } else {
      assert (h.stp - h.hea) % TWO32 == h.stp - h.hea + TWO32;
    }
  }

  function Publics(buf: seq<byte>): seq<Entry>
    requires |buf| >= HEADER_SIZE
    requires var h := ReadHeader(buf); h.defsize > 0 && TableOk(buf, h.publics, h.natives, h.defsize)
  {
    var h := ReadHeader(buf);
    TableOf(buf, h.publics, h.natives, h.defsize)
  }

  function Natives(buf: seq<byte>): seq<Entry>
    requires |buf| >= HEADER_SIZE
    requires var h := ReadHeader(buf); h.defsize > 0 && TableOk(buf, h.natives, h.libraries, h.defsize)
  {
    var h := ReadHeader(buf);
    TableOf(buf, h.natives, h.libraries, h.defsize)
  }

  function Pubvars(buf: seq<byte>): seq<Entry>
    requires |buf| >= HEADER_SIZE
    requires var h := ReadHeader(buf); h.defsize > 0 && TableOk(buf, h.pubvars, h.tags, h.defsize)
  {
    var h := ReadHeader(buf);
    TableOf(buf, h.pubvars, h.tags, h.defsize)
  }
}
