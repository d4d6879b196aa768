/** A well-formed module that init never loads: one that imports fewer than two natives. */
module MinimalFile {
  import opened Bytes
  import opened ValArray
  import opened AmxFile

  /** A header whose segments and tables are all empty: the words at 0 and from 12 on are 60, the
      magic is 0xF1E1, the file version 11 and the entry size 8. */
  function ByteAt(i: nat): byte
  {
    if i == 4 then 0xE1 else if i == 5 then 0xF1 else if i == 6 then 11 else if i == 10 then 8
    else if i % 4 == 0 && i != 8 then 60 else 0
  }

  const FILE: seq<byte> := seq(60, i requires 0 <= i => ByteAt(i))

  lemma Word(buf: seq<byte>, p: nat)
    requires p + 4 <= |buf| && buf[p + 1] == buf[p + 2] == buf[p + 3] == 0
    ensures U32(buf, p) == buf[p]
  {
    var w := buf[p..p + 4];
    assert DecodeLE(w[3..]) == 0 + 256 * DecodeLE(w[3..][1..]) && w[3..][1..] == [];
    assert w[2..][1..] == w[3..] && DecodeLE(w[2..]) == 0;
    assert w[1..][1..] == w[2..] && DecodeLE(w[1..]) == 0;
  }

  lemma HalfWord(buf: seq<byte>, p: nat)
    requires p + 2 <= |buf|
    ensures U16(buf, p) == (buf[p] as int) + 256 * (buf[p + 1] as int)
  {
    var w := buf[p..p + 2];
    assert DecodeLE(w[1..]) == buf[p + 1] as int + 256 * DecodeLE(w[1..][1..]) && w[1..][1..] == [];
  }

  lemma HeaderIs()
    ensures ReadHeader(FILE) == Header(60, MAGIC_64, FILE_VERSION, 0, 0, 8, 60, 60, 60, 60, 60, 60, 60, 60, 60, 60)
  {
    hide U32, U16;
    forall p: nat | p + 4 <= 60 && (p == 0 || p >= 12) && p % 4 == 0 ensures U32(FILE, p) == 60 {
      Word(FILE, p);
    }
    HalfWord(FILE, 4);
    HalfWord(FILE, 8);
    HalfWord(FILE, 10);
  }

  /** Every check passes, for any host and any AMX version, and the file has no natives. With
      AmxLoader.Init's contract: init answers unknown, however much memory there is. */
  lemma WellFormedWithoutNatives(host: seq<HostNative>, amxVersion: nat)
    requires HostOk(host)
    ensures FileOk(FILE, host, amxVersion) && Natives(FILE) == []
  {
    HeaderIs();
    hide ReadHeader, HostOk;
    assert RowCount(60, 60, 8) == 0 && Whole(0, 8);
    assert TableOf(FILE, 60, 60, 8) == [];
  }
}
