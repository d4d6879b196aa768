/** The layout of an AMX file, told from the writing side: fields one after the other, each of its
    own width, least significant byte first. No offset appears here. */
module HeaderLayout {
  import opened Bytes
  import opened ValArray
  import opened AmxFile

  datatype Field = Field(value: nat, width: nat)
  {
    predicate Fits() { value < Pow256(width) }
  }

  function Text(fs: seq<Field>): seq<byte>
  {
    if fs == [] then [] else EncodeLE(fs[0].value, fs[0].width) + Text(fs[1..])
  }

  /** Bytes taken by the first i fields. */
  function WidthTo(fs: seq<Field>, i: nat): nat
    requires i <= |fs|
  {
    if i == 0 then 0 else WidthTo(fs, i - 1) + fs[i - 1].width
  }

  lemma {:induction false} WidthOfRest(fs: seq<Field>, i: nat)
    requires 0 < i <= |fs|
    ensures WidthTo(fs, i) == fs[0].width + WidthTo(fs[1..], i - 1)
  {
    if i > 1 {
      WidthOfRest(fs, i - 1);
    }
  }

  /** Field i stands behind the fields before it, whatever else follows. */
  lemma {:induction false} FieldAt(fs: seq<Field>, rest: seq<byte>, i: nat)
    requires i < |fs| && fs[i].Fits()
    ensures var o, buf := WidthTo(fs, i), Text(fs) + rest;
      o + fs[i].width <= |buf| && DecodeLE(buf[o..o + fs[i].width]) == fs[i].value
  {
    var first := EncodeLE(fs[0].value, fs[0].width);
    var buf, behind := Text(fs) + rest, Text(fs[1..]) + rest;
    assert buf == first + behind;
    if i == 0 {
      assert buf[..fs[0].width] == first;
      DecodeEncode(fs[0].value, fs[0].width);
    } else {
      WidthOfRest(fs, i);
      FieldAt(fs[1..], rest, i - 1);
      var o := WidthTo(fs[1..], i - 1);
      assert buf[WidthTo(fs, i)..WidthTo(fs, i) + fs[i].width] == behind[o..o + fs[i].width];
    }
  }

  /** The header's fields in file order; the name table and overlay words behind them are not
      read. */
  function Fields(h: Header): seq<Field>
  {
    [ Field(h.size, 4), Field(h.magic, 2), Field(h.fileVersion, 1), Field(h.amxVersion, 1),
      Field(h.flags, 2), Field(h.defsize, 2),
      Field(h.cod, 4), Field(h.dat, 4), Field(h.hea, 4), Field(h.stp, 4), Field(h.cip, 4),
      Field(h.publics, 4), Field(h.natives, 4), Field(h.libraries, 4), Field(h.pubvars, 4), Field(h.tags, 4)]
  }

  predicate InRange(h: Header)
  {
    forall f :: f in Fields(h) ==> f.Fits()
  }

  lemma Offsets(h: Header)
    ensures var fs := Fields(h);
      && WidthTo(fs, 0) == 0 && WidthTo(fs, 1) == 4 && WidthTo(fs, 2) == 6 && WidthTo(fs, 3) == 7
      && WidthTo(fs, 4) == 8 && WidthTo(fs, 5) == 10 && WidthTo(fs, 6) == 12 && WidthTo(fs, 7) == 16
      && WidthTo(fs, 8) == 20 && WidthTo(fs, 9) == 24 && WidthTo(fs, 10) == 28 && WidthTo(fs, 11) == 32
      && WidthTo(fs, 12) == 36 && WidthTo(fs, 13) == 40 && WidthTo(fs, 14) == 44 && WidthTo(fs, 15) == 48
      && WidthTo(fs, 16) == 52
  {
    var fs := Fields(h);
    assert WidthTo(fs, 4) == WidthTo(fs, 3) + 1 == WidthTo(fs, 2) + 2 == WidthTo(fs, 1) + 4 == 8;
    assert WidthTo(fs, 8) == WidthTo(fs, 7) + 4 == WidthTo(fs, 6) + 8 == WidthTo(fs, 5) + 10 == 20;
    assert WidthTo(fs, 12) == WidthTo(fs, 11) + 4 == WidthTo(fs, 10) + 8 == WidthTo(fs, 9) + 12 == 36;
    assert WidthTo(fs, 16) == WidthTo(fs, 15) + 4 == WidthTo(fs, 14) + 8 == WidthTo(fs, 13) + 12 == 52;
  }

  lemma {:induction false} TextLength(fs: seq<Field>)
    ensures |Text(fs)| == WidthTo(fs, |fs|)
  {
    if fs != [] {
      TextLength(fs[1..]);
      WidthOfRest(fs, |fs|);
    }
  }

  /** Round trip: a header written field by field, with anything behind it, is read back. */
  lemma ReadHeaderOfText(h: Header, rest: seq<byte>)
    requires InRange(h) && |rest| >= 8
    ensures |Text(Fields(h)) + rest| >= HEADER_SIZE
    ensures ReadHeader(Text(Fields(h)) + rest) == h
  {
    var fs, buf := Fields(h), Text(Fields(h)) + rest;
    Offsets(h);
    TextLength(fs);
    hide Text, WidthTo, Pow256, DecodeLE;
    forall i: nat | i < 16
      ensures var o := WidthTo(fs, i); o + fs[i].width <= |buf| && DecodeLE(buf[o..o + fs[i].width]) == fs[i].value
    {
      assert fs[i] in fs;
      FieldAt(fs, rest, i);
    }
    OneByte(buf, 6);
    OneByte(buf, 7);
  }

  lemma OneByte(buf: seq<byte>, p: nat)
    requires p < |buf|
    ensures DecodeLE(buf[p..p + 1]) == buf[p]
  {
    assert buf[p..p + 1][1..] == [];
  }

  /** Every header there is can be read: the fields of any buffer's header are in range. */
  lemma ReadHeaderInRange(buf: seq<byte>)
    requires |buf| >= HEADER_SIZE
    ensures InRange(ReadHeader(buf))
  {
    Pow256Values();
    assert Pow256(1) == 256 && Pow256(2) == 0x1_0000;
    hide Pow256;
  }

  /** The words of a file, byte by byte. */
  lemma WordBytes(buf: seq<byte>, p: nat)
    requires p + 4 <= |buf|
    ensures U32(buf, p) ==
      (buf[p] as int) + 256 * buf[p + 1] as int + 65536 * buf[p + 2] as int + 16777216 * buf[p + 3] as int
    ensures U16(buf, p) == (buf[p] as int) + 256 * buf[p + 1] as int
  {
    var w, h := buf[p..p + 4], buf[p..p + 2];
    assert w[1..][1..][1..][1..] == [] && h[1..][1..] == [];
    assert DecodeLE(h[1..]) == h[1] + 256 * DecodeLE(h[1..][1..]);
    assert DecodeLE(w) == w[0] + 256 * DecodeLE(w[1..]);
    assert DecodeLE(w[1..]) == w[1] + 256 * DecodeLE(w[1..][1..]);
    assert DecodeLE(w[1..][1..]) == w[2] + 256 * DecodeLE(w[1..][1..][1..]);
  }

  /** A name-table row is the address and then the offset of the name; the row is good exactly if a
      C string starts there. */
  lemma EntryOfText(buf: seq<byte>, p: nat, address: nat, nameofs: nat)
    requires address < TWO32 && nameofs < TWO32 && p + 8 <= |buf|
    requires buf[p..p + 8] == EncodeLE(address, 4) + EncodeLE(nameofs, 4)
    ensures NameOk(buf, p) <==> Terminated(buf, nameofs)
    ensures NameOk(buf, p) ==> EntryAt(buf, p) == Entry(address, CString(buf, nameofs))
  {
    Pow256Values();
    hide EncodeLE, DecodeLE, Pow256;
    DecodeEncode(address, 4);
    DecodeEncode(nameofs, 4);
    assert buf[p..p + 8][..4] == buf[p..p + 4] && buf[p..p + 8][4..] == buf[p + 4..p + 8];
  }

  /** The two flags that are refused are bits 0 and 3. */
  lemma FlagBits(low: nat, b1: nat, b2: nat, b3: nat, high: nat)
    requires low < 2 && b1 < 2 && b2 < 2 && b3 < 2
    ensures var flags := low + 2 * b1 + 4 * b2 + 8 * b3 + 16 * high;
      (FlagOverlay(flags) <==> low == 1) && (FlagSleep(flags) <==> b3 == 1)
  {
    Remainder(low, 2, b1 + 2 * b2 + 4 * b3 + 8 * high);
    Remainder(low + 2 * b1 + 4 * b2, 8, b3 + 2 * high);
    Remainder(b3, 2, high);
  }

  lemma Remainder(r: nat, d: nat, q: nat)
    requires r < d && d in {2, 8}
    ensures (r + d * q) % d == r && (r + d * q) / d == q
  {
  }
}
