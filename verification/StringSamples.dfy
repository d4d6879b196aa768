/** The texts and characters the string natives know, in letters, and what they do with two strings
    given cell by cell. */
module StringSamples {
  import opened Machine
  import opened Bytes
  import opened VmMemory
  import opened AmxStrings
  import opened DebugPrint

  function Ascii(s: string): (r: seq<byte>)
    requires forall i :: 0 <= i < |s| ==> s[i] < 128 as char
    ensures |r| == |s| && forall i :: 0 <= i < |s| ==> r[i] == s[i] as int
  {
    seq(|s|, i requires 0 <= i < |s| => s[i] as int)
  }

  /** The texts, and the conversions debug_print lets through: those that print an integer, and
      neither %s nor %n. */
  lemma Texts(c: byte)
    ensures DebugPrint.PREFIX == Ascii("[PawnIO] debug_print: ") && IOCTL_PREFIX == Ascii("ioctl_")
    ensures IsConversion(c) <==> c as char in "diouxX"
    ensures Ascii("%l") == [PERCENT, ELL]
    ensures MESSAGE_SIZE == 1024 && MAX_ARGS == 64
  {
  }

  /** "%d" at 100, its argument 42 at 200; the parameters' references are at 0 and 8. */
  const MEMORY: Memory := map[100 := 37, 108 := 100, 116 := 0, 200 := 42]

  const PARAMETERS: Memory := map[0 := 100, 8 := 200]

  lemma FormatRead()
    ensures AllValid([Conversion(100)]) && DebugPrint.Fits([Conversion(100)])
    ensures Ended(MEMORY, 100, [Conversion(100)], Finished)
    ensures TargetOf([Conversion(100)]) == Ascii("%lld") && Conversions([Conversion(100)]) == 1
  {
    var ts := [Conversion(100)];
    assert ts[..0] == [];
    assert SourceOf(ts) == [37, 100];
    assert TargetOf(ts) == [37, 108, 108, 100];
    assert CharAt(MEMORY, 100, 0) == Some(37) && CharAt(MEMORY, 100, 1) == Some(100);
    assert CharAt(MEMORY, 100, 2) == Some(0);
  }

  lemma FirstParameter()
    ensures Parameter(0, 0) == 8 && 8 in PARAMETERS && PARAMETERS[8] == 200 && 200 in MEMORY && MEMORY[200] == 42
    ensures 0 in PARAMETERS && PARAMETERS[0] == 100 && forall a :: a in PARAMETERS ==> PARAMETERS[a] < TWO64
  {
  }

  /** debug_print("%d", 42) prints the value, as a 64-bit integer. */
  method PrintFortyTwo() returns (r: Outcome)
    ensures r.Printed? && r.message == DebugPrint.PREFIX + Ascii("%lld") && |r.args| == 64 && r.args[0] == 42
  {
    FormatRead();
    FirstParameter();
    hide Ended, AllValid, DebugPrint.Fits, TargetOf, Conversions, Parse, IsConversion, Parameter, Ascii;
    var memory, parameters, argCount := MEMORY, PARAMETERS, 0;
    ghost var ts, end;
    r, argCount, ts, end := DebugPrintNative(memory, parameters, 2, 0);
    EndedUnique(memory, 100, ts, end, [Conversion(100)], Finished);
  }

  /** amx_strcpy of "ab": both characters, the NUL, and the length. */
  method CopyAb(dst: array<byte>) returns (r: int)
    requires dst.Length == 33
    modifies dst
    ensures r == 2 && dst[..3] == Ascii("ab") + [0] && forall k :: 3 <= k < 33 ==> dst[k] == old(dst[k])
  {
    ghost var mem: Memory := map[100 := 97, 108 := 98, 116 := 0];
    assert CharAt(mem, 100, 0) == Some(97) && CharAt(mem, 100, 1) == Some(98) && CharAt(mem, 100, 2) == Some(0);
    assert TextAt(mem, 100, 33, [97, 98]);
    ReadCharsIff(mem, 100, 33, [97, 98]);
    hide ReadChars;
    r := AmxStrcpy(dst, map[100 := 97, 108 := 98, 116 := 0], 100);
  }
}
