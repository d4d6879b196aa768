/** Byte sequences as the driver sees them: little-endian integers and NUL-terminated strings. */
module Bytes {

  type byte = x: int | 0 <= x < 256

  const TWO32: nat := 0x1_0000_0000
  const TWO64: nat := 0x1_0000_0000_0000_0000

  function Pow256(n: nat): (r: nat)
    ensures r >= 1
  {
    if n == 0 then 1 else 256 * Pow256(n - 1)
  }

  /** The integer a little-endian byte sequence stands for. */
  function DecodeLE(s: seq<byte>): nat
  {
    if s == [] then 0 else s[0] + 256 * DecodeLE(s[1..])
  }

  /** The n low bytes of v, least significant first. */
  function EncodeLE(v: nat, n: nat): (s: seq<byte>)
    ensures |s| == n
  {
    if n == 0 then [] else [v % 256] + EncodeLE(v / 256, n - 1)
  }

  lemma Pow256Values()
    ensures Pow256(4) == TWO32
    ensures Pow256(8) == TWO64
  {
    assert Pow256(2) == 0x1_0000;
    assert Pow256(4) == TWO32;
    assert Pow256(6) == 0x1_0000_0000_0000;
    assert Pow256(8) == TWO64;
  }

  lemma {:induction false} DecodeEncode(v: nat, n: nat)
    requires v < Pow256(n)
    ensures DecodeLE(EncodeLE(v, n)) == v
  {
    if n != 0 {
      DecodeEncode(v / 256, n - 1);
      assert EncodeLE(v, n)[1..] == EncodeLE(v / 256, n - 1);
    }
  }

  lemma {:induction false} EncodeDecode(s: seq<byte>)
    ensures EncodeLE(DecodeLE(s), |s|) == s
    ensures DecodeLE(s) < Pow256(|s|)
  {
    if s != [] {
      EncodeDecode(s[1..]);
      assert DecodeLE(s) / 256 == DecodeLE(s[1..]);
      assert s == [s[0]] + s[1..];
    }
  }

  /** The 32-bit word stored at offset p. */
  function U32(buf: seq<byte>, p: nat): (r: nat)
    requires p + 4 <= |buf|
    ensures r < TWO32
  {
    EncodeDecode(buf[p..p + 4]);
    Pow256Values();
    DecodeLE(buf[p..p + 4])
  }

  /** The 16-bit word stored at offset p. */
  function U16(buf: seq<byte>, p: nat): (r: nat)
    requires p + 2 <= |buf|
    ensures r < 0x1_0000
  {
    EncodeDecode(buf[p..p + 2]);
    assert Pow256(2) == 0x1_0000;
    DecodeLE(buf[p..p + 2])
  }

  /** Index of the first NUL at or after i; at least |s| when there is none. */
  function NulAt(s: seq<byte>, i: nat): (k: nat)
    ensures i <= k
    decreases |s| - i
  {
    if i >= |s| then i else if s[i] == 0 then i else NulAt(s, i + 1)
  }

  lemma {:induction false} NulAtFacts(s: seq<byte>, i: nat)
    ensures var k := NulAt(s, i);
      && (k < |s| ==> s[k] == 0)
      && (forall j :: i <= j < k && j < |s| ==> s[j] != 0)
      && (i <= |s| ==> k <= |s|)
    decreases |s| - i
  {
    if i < |s| && s[i] != 0 {
      NulAtFacts(s, i + 1);
    }
  }

  lemma {:induction false} NulAtUnique(s: seq<byte>, i: nat, k: nat)
    requires i <= k < |s| && s[k] == 0
    requires forall j :: i <= j < k ==> s[j] != 0
    ensures NulAt(s, i) == k
    decreases k - i
  {
    if i < k {
      NulAtUnique(s, i + 1, k);
    }
  }

  /** A C string starts at i. */
  predicate Terminated(s: seq<byte>, i: nat)
  {
    NulAt(s, i) < |s|
  }

  /** The characters of the C string at i, without its NUL. */
  function CString(s: seq<byte>, i: nat): (r: seq<byte>)
    requires Terminated(s, i)
  {
    s[i..NulAt(s, i)]
  }

  lemma CStringHasNoNul(s: seq<byte>, i: nat)
    requires Terminated(s, i)
    ensures 0 !in CString(s, i)
  {
    NulAtFacts(s, i);
  }

  /** NUL-free bytes followed by a NUL are read back as that very string. */
  lemma {:induction false} CStringAt(s: seq<byte>, i: nat, name: seq<byte>)
    requires i + |name| + 1 <= |s|
    requires s[i..i + |name| + 1] == name + [0]
    requires 0 !in name
    ensures Terminated(s, i)
    ensures CString(s, i) == name
  {
    assert s[i + |name|] == s[i..i + |name| + 1][|name|] == 0;
    forall j | i <= j < i + |name| ensures s[j] != 0 {
      assert s[j] == s[i..i + |name| + 1][j - i] == name[j - i];
    }
    NulAtUnique(s, i, i + |name|);
    assert s[i..i + |name|] == s[i..i + |name| + 1][..|name|] == name;
  }

  /** Dictionary order on strings of unsigned bytes. */
  ghost predicate LexLess(a: seq<byte>, b: seq<byte>)
  {
    exists k: nat :: k <= |a| && k < |b| && a[..k] == b[..k] && (k == |a| || a[k] < b[k])
  }
}
