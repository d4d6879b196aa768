/** The kernel C runtime routines that the loader's look-ups and copies rest on. */
module KernelStubs {
  import opened Bytes

  lemma LexLessWitness(a: seq<byte>, b: seq<byte>, k: nat)
    requires k <= |a| && k <= |b| && a[..k] == b[..k]
    requires k < |a| && k < |b| ==> a[k] != b[k]
    ensures LexLess(a, b) <==> k < |b| && (k == |a| || a[k] < b[k])
    ensures a == b <==> k == |a| == |b|
  {
    assert forall j :: 0 <= j < k ==> a[j] == a[..k][j] == b[..k][j] == b[j];
    forall j: nat | j <= |a| && j < |b| && a[..j] == b[..j] ensures j <= k {
      assert forall i :: 0 <= i < j ==> a[i] == a[..j][i] == b[..j][i] == b[i];
    }
    if k == |a| == |b| {
      assert a == a[..k] == b[..k] == b;
    }
  }

  /** strcmp walks both strings while the first has not ended and the characters agree. */
  method StrCmp(s: seq<byte>, i: nat, t: seq<byte>, j: nat) returns (r: int)
    requires Terminated(s, i) && Terminated(t, j)
    ensures r == 0 <==> CString(s, i) == CString(t, j)
    ensures r < 0 <==> LexLess(CString(s, i), CString(t, j))
  {
    NulAtFacts(s, i);
    NulAtFacts(t, j);
    var k := 0;
    while s[i + k] != 0 && s[i + k] == t[j + k]
      invariant i + k <= NulAt(s, i) && j + k <= NulAt(t, j)
      invariant s[i..i + k] == t[j..j + k]
      decreases |s| - k
    {
      assert s[i..i + k + 1] == s[i..i + k] + [s[i + k]];
      assert t[j..j + k + 1] == t[j..j + k] + [t[j + k]];
      k := k + 1;
    }
    ghost var a, b := CString(s, i), CString(t, j);
    assert a[..k] == s[i..i + k] && b[..k] == t[j..j + k];
    LexLessWitness(a, b, k);
    var x: int, y: int := s[i + k], t[j + k];
    r := x - y;
  }

  /** memmove: the destination receives the original source bytes, whatever the overlap. */
  method MemMove(mem: array<byte>, dest: nat, src: nat, count: nat)
    requires dest + count <= mem.Length && src + count <= mem.Length
    modifies mem
    ensures mem[dest..dest + count] == old(mem[src..src + count])
    ensures forall k :: 0 <= k < mem.Length && !(dest <= k < dest + count) ==> mem[k] == old(mem[k])
  {
    if dest == src || count == 0 {
      return;
    }
    ghost var was := mem[..];
    if dest < src {
      var n := 0;
      while n < count
        invariant 0 <= n <= count
        invariant forall k :: dest <= k < dest + n ==> mem[k] == was[k - dest + src]
        invariant forall k :: 0 <= k < mem.Length && !(dest <= k < dest + n) ==> mem[k] == old(mem[k])
      {
        mem[dest + n] := mem[src + n];
        n := n + 1;
      }
    } else {
      var n := count;
      while n > 0
        invariant 0 <= n <= count
        invariant forall k :: dest + n <= k < dest + count ==> mem[k] == was[k - dest + src]
        invariant forall k :: 0 <= k < mem.Length && !(dest + n <= k < dest + count) ==> mem[k] == old(mem[k])
      {
        n := n - 1;
        mem[dest + n] := mem[src + n];
      }
    }
  }

  /** memcpy out of a separate read-only buffer. */
  method MemCpy(mem: array<byte>, dest: nat, src: seq<byte>)
    requires dest + |src| <= mem.Length
    modifies mem
    ensures mem[dest..dest + |src|] == src
    ensures forall k :: 0 <= k < mem.Length && !(dest <= k < dest + |src|) ==> mem[k] == old(mem[k])
  {
    var n := 0;
    while n < |src|
      invariant 0 <= n <= |src|
      invariant forall k :: dest <= k < dest + n ==> mem[k] == src[k - dest]
      invariant forall k :: 0 <= k < mem.Length && !(dest <= k < dest + n) ==> mem[k] == old(mem[k])
    {
      mem[dest + n] := src[n];
      n := n + 1;
    }
  }
}
