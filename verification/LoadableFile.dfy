/** A family of modules that init loads, whatever their stp: the smallest ones that import two
    natives. */
module LoadableFile {
  import opened Machine
  import opened Bytes
  import opened ValArray
  import opened AmxFile
  import opened Arena
  import opened LoaderStages
  import opened Loader
  import opened MinimalFile

  /** Empty code and data segments at 60, two native rows from 60 to 76, both named by the C string
      "a" at 76; the stp word is the parameter. */
  function ImageByte(stp: byte, i: nat): byte
  {
    if i == 0 then 78
    else if i == 4 then 0xE1 else if i == 5 then 0xF1 else if i == 6 then 11 else if i == 10 then 8
    else if i == 24 then stp
    else if i in {12, 16, 20, 28, 32, 36} then 60
    else if i in {40, 44, 48, 64, 72} then 76
    else if i == 76 then 97
    else 0
  }

  function Image(stp: byte): seq<byte>
  {
    seq(78, i requires 0 <= i => ImageByte(stp, i))
  }

  function HeaderOf(stp: byte): Header
  {
    Header(78, MAGIC_64, FILE_VERSION, 0, 0, 8, 60, 60, 60, stp, 60, 60, 60, 76, 76, 76)
  }

  /** A host that offers the one name. */
  const HOST: seq<HostNative> := [HostNative([97, 0], 1)]

  lemma ImageHeader(stp: byte)
    ensures ReadHeader(Image(stp)) == HeaderOf(stp)
  {
    hide U32, U16;
    forall p: nat | p + 4 <= 76 && (p == 0 || p >= 12) && p % 4 == 0 ensures U32(Image(stp), p) == ImageByte(stp, p) {
      Word(Image(stp), p);
    }
    HalfWord(Image(stp), 4);
    HalfWord(Image(stp), 8);
    HalfWord(Image(stp), 10);
  }

  lemma ImageRow(stp: byte, p: nat)
    requires p == 60 || p == 68
    ensures NameOk(Image(stp), p) && EntryAt(Image(stp), p) == Entry(0, [97])
  {
    var buf := Image(stp);
    Word(buf, p);
    Word(buf, p + 4);
    assert NulAt(buf, 76) == NulAt(buf, 77) == 77;
    assert buf[76..77] == [97];
  }

  lemma ImageNatives(stp: byte)
    ensures TableOk(Image(stp), 60, 76, 8) && TableOf(Image(stp), 60, 76, 8) == [Entry(0, [97]), Entry(0, [97])]
  {
    hide NameOk, EntryAt;
    assert RowCount(76, 76, 8) == 0 && RowCount(68, 76, 8) == 1 && RowCount(60, 76, 8) == 2;
    assert Whole(0, 8) && Whole(8, 8) && Whole(16, 8);
    assert RowPos(60, 8, 0) == 60 && RowPos(60, 8, 1) == 68;
    ImageRow(stp, 60);
    ImageRow(stp, 68);
    assert RowOk(Image(stp), 60, 8, 0) && RowOk(Image(stp), 60, 8, 1);
  }

  lemma HostOffers()
    ensures HostOk(HOST) && Offered(HOST, [97])
  {
    var m := HOST[0].nameMem;
    assert NulAt(m, 0) == NulAt(m, 1) == 1;
    assert m[0..1] == [97];
    assert HOST[0].Name() == [97];
  }

  /** Every check passes, whatever stp is. */
  lemma ImageOk(stp: byte, amxVersion: nat)
    ensures HostOk(HOST) && FileOk(Image(stp), HOST, amxVersion) && |Natives(Image(stp))| == 2
    ensures ReadHeader(Image(stp)) == HeaderOf(stp)
  {
    ImageHeader(stp);
    ImageNatives(stp);
    HostOffers();
    hide ReadHeader, HostOk, Image, NameOk, EntryAt;
    assert |Image(stp)| == 78 by { ImageSize(stp); }
    assert RowCount(60, 60, 8) == 0 && RowCount(76, 76, 8) == 0 && Whole(0, 8);
  }

  lemma ImageSize(stp: byte)
    ensures |Image(stp)| == 78
  {
  }

  /** The registers init sets for such a module are what its header promises exactly when stp > hea,
      here 60; the others are loaded all the same. */
  ghost predicate RegistersAsPromised(h: Header, dataCells: nat, hea: nat, stp: nat)
  {
    && dataCells == (h.stp - h.dat + 7) / 8
    && hea <= stp && stp + CELL == dataCells * CELL
  }

  lemma ImageRegisters(stp: byte)
    ensures var h := HeaderOf(stp);
      && (RegistersAsPromised(h, DataCells(h), InitialHEA(h), InitialSTP(h)) <==> stp > 60)
      && (stp == 60 ==> DataCells(h) == 0 && InitialHEA(h) == 0 && InitialSTP(h) == TWO64 - CELL)
  {
    InitialRegistersIff(HeaderOf(stp));
    if stp == 60 {
      assert (-1 * CELL) % TWO64 == TWO64 - CELL;
    }
  }

  /** What a loaded object's fields say of its registers. */
  lemma LoadedRegisters(loader: AmxLoader, buf: seq<byte>, host: seq<HostNative>, amxVersion: nat)
    requires HostOk(host) && loader.Valid() && loader.Loaded(buf, host, amxVersion)
    ensures var h := ReadHeader(buf);
      loader.dataCount == DataCells(h) && loader.HEA == InitialHEA(h) && loader.STP == InitialSTP(h)
  {
    hide HostOk, ReadHeader, DataCells, TableOk, TableOf, NamesSize, LayoutOf, AllocSize, AllOffered;
    hide SegmentsStored, InitialHEA, InitialSTP;
  }

  /** init succeeds on every module of the family when memory is to be had; at stp <= hea it leaves
      registers the header does not promise, at stp == hea a stack pointer far outside the empty
      data segment. */
  method LoadImage(stp: byte, amxVersion: nat) returns (loader: AmxLoader, r: LoaderError)
    ensures r == Success && loader.Valid() && HostOk(HOST) && loader.Loaded(Image(stp), HOST, amxVersion)
    ensures RegistersAsPromised(HeaderOf(stp), loader.dataCount, loader.HEA, loader.STP) <==> stp > 60
    ensures stp == 60 ==> loader.dataCount == 0 && loader.HEA == 0 && loader.STP == TWO64 - CELL
  {
    hide Image, ImageByte, FileOk, HostOk, AllocSize, AmxLoader.Valid, AmxLoader.Loaded, ReadHeader;
    hide DataCells, InitialHEA, InitialSTP, RegistersAsPromised, Natives, CountsOf, FromFile;
    ImageOk(stp, amxVersion);
    ImageSize(stp);
    CountsFromFile(Image(stp), HOST, amxVersion);
    AllocSizeDoesNotWrap(CountsOf(Image(stp), HOST, amxVersion));
    ImageRegisters(stp);
    loader := new AmxLoader();
    var pool := (n: nat) => if n < TWO64 / 2 then ALIGNMENT else 0;
    r := loader.Init(Image(stp), 0x1000, HOST, amxVersion, pool, Some(0), Some(0));
    LoadedRegisters(loader, Image(stp), HOST, amxVersion);
  }
}
