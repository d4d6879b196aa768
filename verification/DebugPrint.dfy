/** debug_print: translation of a Pawn format string into one for the kernel's printer. */
module DebugPrint {
  import opened Machine
  import opened Bytes
  import opened KernelStubs
  import opened VmMemory

  const MESSAGE_SIZE: nat := 1024
  const MAX_ARGS: nat := 64
  const PERCENT: byte := 37
  const ELL: byte := 108

  /** "[PawnIO] debug_print: " */
  const PREFIX: seq<byte> :=
    [91, 80, 97, 119, 110, 73, 79, 93, 32, 100, 101, 98, 117, 103, 95, 112, 114, 105, 110, 116, 58, 32]

  /** d i u o x X */
  predicate IsConversion(c: byte) { c in [100, 105, 117, 111, 120, 88] }

  datatype Token = Literal(c: byte) | Percent | Conversion(c: byte)
  {
    predicate Valid()
    {
      match this
      case Literal(c) => c != 0 && c != PERCENT
      case Percent => true
      case Conversion(c) => IsConversion(c)
    }

    /** The token as the module writes it. */
    function Source(): seq<byte>
    {
      match this
      case Literal(c) => [c]
      case Percent => [PERCENT, PERCENT]
      case Conversion(c) => [PERCENT, c]
    }

    /** The token as the kernel's printer is given it. */
    function Target(): (r: seq<byte>)
    {
      match this
      case Literal(c) => [c]
      case Percent => [PERCENT, PERCENT]
      case Conversion(c) => [PERCENT, ELL, ELL, c]
    }
  }

  predicate AllValid(ts: seq<Token>) { forall i :: 0 <= i < |ts| ==> ts[i].Valid() }

  function SourceOf(ts: seq<Token>): seq<byte>
  {
    if ts == [] then [] else SourceOf(ts[..|ts| - 1]) + ts[|ts| - 1].Source()
  }

  function TargetOf(ts: seq<Token>): seq<byte>
  {
    if ts == [] then [] else TargetOf(ts[..|ts| - 1]) + ts[|ts| - 1].Target()
  }

  function Conversions(ts: seq<Token>): nat
  {
    if ts == [] then 0 else Conversions(ts[..|ts| - 1]) + if ts[|ts| - 1].Conversion? then 1 else 0
  }

  lemma Snoc(ts: seq<Token>, t: Token)
    ensures SourceOf(ts + [t]) == SourceOf(ts) + t.Source()
    ensures TargetOf(ts + [t]) == TargetOf(ts) + t.Target()
    ensures Conversions(ts + [t]) == Conversions(ts) + if t.Conversion? then 1 else 0
  {
    assert (ts + [t])[..|ts|] == ts;
  }

  // ---- Reading a printer format back ----

  /** How the printer reads a format: whole literals, %% and %ll conversions, nothing else. */
  function Parse(s: seq<byte>): Option<seq<Token>>
  {
    if s == [] then Some([])
    else if s[0] != PERCENT then Before(Literal(s[0]), Parse(s[1..]))
    else if |s| >= 2 && s[1] == PERCENT then Before(Percent, Parse(s[2..]))
    else if |s| >= 4 && s[1] == ELL && s[2] == ELL && IsConversion(s[3]) then Before(Conversion(s[3]), Parse(s[4..]))
    else None
  }

  function Before(t: Token, rest: Option<seq<Token>>): Option<seq<Token>>
  {
    if rest.None? then None else Some([t] + rest.value)
  }

  lemma ParseOne(t: Token, s: seq<byte>)
    requires t.Valid()
    ensures Parse(t.Target() + s) == Before(t, Parse(s))
  {
    var x := t.Target() + s;
    assert x[|t.Target()|..] == s;
  }

  /** Parsing distributes over the tokens: appending one token's text appends the token. */
  lemma {:induction false} ParseAppend(ts: seq<Token>, s: seq<byte>)
    requires AllValid(ts) && Parse(s).Some?
    ensures Parse(TargetOf(ts) + s) == Some(ts + Parse(s).value)
  {
    hide Parse, Token.Target;
    if ts == [] {
      assert TargetOf(ts) + s == s && ts + Parse(s).value == Parse(s).value;
    } else {
      var front, last := ts[..|ts| - 1], ts[|ts| - 1];
      ParseOne(last, s);
      ParseAppend(front, last.Target() + s);
      assert TargetOf(ts) + s == TargetOf(front) + (last.Target() + s);
      assert front + ([last] + Parse(s).value) == ts + Parse(s).value;
    }
  }

  /** Round trip: the printer reads back exactly the tokens that were written. */
  lemma ParseTarget(ts: seq<Token>)
    requires AllValid(ts)
    ensures Parse(TargetOf(ts)) == Some(ts)
  {
    assert Parse([]) == Some([]);
    hide Parse, TargetOf;
    ParseAppend(ts, []);
    assert TargetOf(ts) + [] == TargetOf(ts) && ts + [] == ts;
  }

  function Literals(s: seq<byte>): (ts: seq<Token>)
    ensures |ts| == |s| && forall i :: 0 <= i < |s| ==> ts[i] == Literal(s[i])
  {
    seq(|s|, i requires 0 <= i < |s| => Literal(s[i]))
  }

  lemma {:induction false} LiteralsTarget(s: seq<byte>)
    ensures TargetOf(Literals(s)) == s && Conversions(Literals(s)) == 0
  {
    if s != [] {
      var front := s[..|s| - 1];
      LiteralsTarget(front);
      assert Literals(s)[..|s| - 1] == Literals(front);
      assert s == front + [s[|s| - 1]];
    }
  }

  lemma {:induction false} ConversionsConcat(a: seq<Token>, b: seq<Token>)
    ensures Conversions(a + b) == Conversions(a) + Conversions(b)
  {
    if b == [] {
      assert a + b == a;
    } else {
      ConversionsConcat(a, b[..|b| - 1]);
      assert (a + b)[..|a + b| - 1] == a + b[..|b| - 1];
    }
  }

  /** The message, prefix included, has exactly as many conversions as its tokens. */
  lemma MessageParses(ts: seq<Token>)
    requires AllValid(ts)
    ensures Parse(PREFIX + TargetOf(ts)) == Some(Literals(PREFIX) + ts)
    ensures Conversions(Literals(PREFIX) + ts) == Conversions(ts)
  {
    assert AllValid(Literals(PREFIX));
    hide Parse, TargetOf, Conversions, Literals;
    ParseTarget(ts);
    LiteralsTarget(PREFIX);
    ParseAppend(Literals(PREFIX), TargetOf(ts));
    ConversionsConcat(Literals(PREFIX), ts);
  }

  // ---- The translation loop ----

  /** The format begins with these characters. */
  ghost predicate Begins(mem: Memory, vfmt: nat, chars: seq<byte>)
  {
    forall i :: 0 <= i < |chars| ==> CharAt(mem, vfmt, i) == Some(chars[i])
  }

  /** How the loop ended. */
  datatype End =
    | Finished            // at the NUL
    | Truncated(t: Token) // this token did not fit
    | Unmapped            // the next cell is not mapped
    | BadEscape(c: byte)  // a % before something else

  /** What the loop has done when it ends: the tokens translate a prefix of the input. */
  ghost predicate Ended(mem: Memory, vfmt: nat, ts: seq<Token>, end: End)
  {
    var src := SourceOf(ts);
    && Begins(mem, vfmt, src)
    && match end
       case Finished => CharAt(mem, vfmt, |src|) == Some(0)
       case Truncated(t) =>
         && t.Valid() && Begins(mem, vfmt, src + t.Source())
         && |PREFIX| + |TargetOf(ts)| + |t.Target()| >= MESSAGE_SIZE
       case Unmapped =>
         || CharAt(mem, vfmt, |src|).None?
         || (Begins(mem, vfmt, src + [PERCENT]) && CharAt(mem, vfmt, |src| + 1).None?)
       case BadEscape(c) => c != PERCENT && !IsConversion(c) && Begins(mem, vfmt, src + [PERCENT, c])
  }

  /** The conversions counted: also that of a token that did not fit. */
  function Counted(ts: seq<Token>, end: End): nat
  {
    Conversions(ts) + if end.Truncated? && end.t.Conversion? then 1 else 0
  }

  ghost predicate Holds(message: seq<byte>, it: nat, ts: seq<Token>)
  {
    it < |message| == MESSAGE_SIZE && message[..it] == PREFIX + TargetOf(ts) && message[it] == 0
  }

  lemma BeginsMore(mem: Memory, vfmt: nat, chars: seq<byte>, c: byte)
    requires Begins(mem, vfmt, chars) && CharAt(mem, vfmt, |chars|) == Some(c)
    ensures Begins(mem, vfmt, chars + [c])
  {
  }

  /** Old text, the token's text and a NUL make the new text. */
  lemma HoldsMore(was: seq<byte>, now: seq<byte>, it: nat, token: Token, ts: seq<Token>)
    requires Holds(was, it, ts) && it + |token.Target()| < MESSAGE_SIZE == |now|
    requires now[..it] == was[..it] && now[it..it + |token.Target()|] == token.Target()
    requires now[it + |token.Target()|] == 0
    ensures Holds(now, it + |token.Target()|, ts + [token])
  {
    Snoc(ts, token);
    hide Token.Target, TargetOf;
    assert now[..it + |token.Target()|] == now[..it] + now[it..it + |token.Target()|];
  }

  /** Append a token's text and a NUL. */
  method Append(message: array<byte>, it: nat, token: Token, ghost ts: seq<Token>) returns (it': nat)
    requires Holds(message[..], it, ts) && it + |token.Target()| < MESSAGE_SIZE
    modifies message
    ensures it' == it + |token.Target()| && Holds(message[..], it', ts + [token])
  {
    var toCat := token.Target();
    hide Token.Target, TargetOf;
    ghost var was := message[..];
    PutText(message, it, toCat);
    it' := it + |toCat|;
    HoldsMore(was, message[..], it, token, ts);
  }

  /** The memcpy and the NUL behind it. */
  method PutText(message: array<byte>, it: nat, text: seq<byte>)
    requires it + |text| < message.Length
    modifies message
    ensures message[..it] == old(message[..it]) && message[it..it + |text|] == text && message[it + |text|] == 0
  {
    MemCpy(message, it, text);
    message[it + |text|] := 0;
  }

  /** What has been read of the format: the tokens, and a % if one is pending. */
  ghost function Read(ts: seq<Token>, inEscape: bool): seq<byte>
  {
    SourceOf(ts) + if inEscape then [PERCENT] else []
  }

  /** Between two iterations. */
  ghost predicate Between(mem: Memory, vfmt: nat, vit: nat, inEscape: bool, ts: seq<Token>)
  {
    && AllValid(ts) && Begins(mem, vfmt, Read(ts, inEscape))
    && vit == (vfmt + CELL * |Read(ts, inEscape)|) % TWO64
  }

  lemma NextCell(vfmt: nat, n: nat)
    ensures ((vfmt + CELL * n) % TWO64 + CELL) % TWO64 == (vfmt + CELL * (n + 1)) % TWO64
  {
  }

  /** What one character does to the reader: it completes a token, starts an escape, or ends. */
  datatype Reaction = Completes(t: Token) | Escapes | Ends | Rejects

  function React(c: byte, inEscape: bool): Reaction
  {
    if inEscape then
      if c == PERCENT then Completes(Percent) else if IsConversion(c) then Completes(Conversion(c)) else Rejects
    else if c == PERCENT then Escapes
    else if c == 0 then Ends
    else Completes(Literal(c))
  }

  lemma ReactSound(mem: Memory, vfmt: nat, vit: nat, inEscape: bool, ts: seq<Token>, c: byte)
    requires Between(mem, vfmt, vit, inEscape, ts) && vit in mem && c == mem[vit] % 256
    ensures CharAt(mem, vfmt, |Read(ts, inEscape)|) == Some(c)
    ensures match React(c, inEscape)
      case Completes(t) =>
        && t.Valid() && Begins(mem, vfmt, SourceOf(ts) + t.Source())
        && Between(mem, vfmt, (vit + CELL) % TWO64, false, ts + [t])
      case Escapes => Between(mem, vfmt, (vit + CELL) % TWO64, true, ts)
      case Ends => Ended(mem, vfmt, ts, Finished)
      case Rejects => Ended(mem, vfmt, ts, BadEscape(c))
  {
    hide SourceOf, TargetOf, Begins, CharAt, IsConversion;
    var read := Read(ts, inEscape);
    assert CharAt(mem, vfmt, |read|) == Some(c) by { CharHere(mem, vfmt, vit, |read|); }
    BeginsMore(mem, vfmt, read, c);
    BeginsPrefix(mem, vfmt, SourceOf(ts), read);
    NextCell(vfmt, |read|);
    match React(c, inEscape) {
      case Completes(t) =>
        Snoc(ts, t);
        assert read + [c] == SourceOf(ts) + t.Source();
        assert Read(ts + [t], false) == read + [c];
      case Escapes =>
        assert Read(ts, true) == read + [c];
      case Ends =>
        assert read == SourceOf(ts);
      case Rejects =>
        assert read + [c] == SourceOf(ts) + [PERCENT, c];
    }
  }

  lemma CharHere(mem: Memory, vfmt: nat, vit: nat, n: nat)
    requires vit == (vfmt + CELL * n) % TWO64
    ensures CharAt(mem, vfmt, n) == if vit in mem then Some(mem[vit] % 256) else None
  {
  }

  lemma BeginsPrefix(mem: Memory, vfmt: nat, a: seq<byte>, b: seq<byte>)
    requires Begins(mem, vfmt, b) && a <= b
    ensures Begins(mem, vfmt, a)
  {
    forall i | 0 <= i < |a| ensures CharAt(mem, vfmt, i) == Some(a[i]) {
      assert a[i] == b[i];
    }
  }

  lemma UnmappedSound(mem: Memory, vfmt: nat, vit: nat, inEscape: bool, ts: seq<Token>)
    requires Between(mem, vfmt, vit, inEscape, ts) && vit !in mem
    ensures Ended(mem, vfmt, ts, Unmapped)
  {
    CharHere(mem, vfmt, vit, |Read(ts, inEscape)|);
    BeginsPrefix(mem, vfmt, SourceOf(ts), Read(ts, inEscape));
    if !inEscape {
      assert Read(ts, inEscape) == SourceOf(ts);
    }
  }

  /** The loop over the format. It terminates on any memory: every iteration uses up space in the
      message or, without using any, enters an escape. */
  method Translate(mem: Memory, vfmt: nat, message: array<byte>)
    returns (end: End, it: nat, argCount: nat, ghost ts: seq<Token>)
    requires Holds(message[..], |PREFIX|, [])
    requires vfmt < TWO64
    modifies message
    ensures AllValid(ts) && Ended(mem, vfmt, ts, end)
    ensures Holds(message[..], it, ts) && argCount == Counted(ts, end)
  {
    hide Ended, Begins, SourceOf, TargetOf, IsConversion, Token.Source, Token.Valid;
    it, argCount, ts := |PREFIX|, 0, [];
    var vit: nat, inEscape := vfmt, false;
    assert Between(mem, vfmt, vit, inEscape, ts) by { BetweenStart(mem, vfmt); }
    while true
      invariant Holds(message[..], it, ts) && argCount == Conversions(ts)
      invariant Between(mem, vfmt, vit, inEscape, ts)
      decreases MESSAGE_SIZE - it, if inEscape then 0 else 1
    {
      var pc := vit;
      vit := (vit + CELL) % TWO64;
      if pc !in mem {
        UnmappedSound(mem, vfmt, pc, inEscape, ts);
        return Unmapped, it, argCount, ts;
      }
      var c: byte := mem[pc] % 256;
      ReactSound(mem, vfmt, pc, inEscape, ts, c);
      match React(c, inEscape) {
        case Rejects =>
          return BadEscape(c), it, argCount, ts;
        case Ends =>
          return Finished, it, argCount, ts;
        case Escapes =>
          inEscape := true;
        case Completes(t) =>
          inEscape := false;
          Snoc(ts, t);
          if t.Conversion? {
            argCount := argCount + 1;
          }
          if it + |t.Target()| >= MESSAGE_SIZE {
            assert Ended(mem, vfmt, ts, Truncated(t)) by { TruncatedSound(mem, vfmt, ts, t, it, message[..]); }
            return Truncated(t), it, argCount, ts;
          }
          it := Append(message, it, t, ts);
          ts := ts + [t];
      }
    }
  }

  lemma BetweenStart(mem: Memory, vfmt: nat)
    requires vfmt < TWO64
    ensures Between(mem, vfmt, vfmt, false, [])
  {
  }

  lemma TruncatedSound(mem: Memory, vfmt: nat, ts: seq<Token>, t: Token, it: nat, message: seq<byte>)
    requires t.Valid() && Begins(mem, vfmt, SourceOf(ts) + t.Source())
    requires Holds(message, it, ts) && it + |t.Target()| >= MESSAGE_SIZE
    ensures Ended(mem, vfmt, ts, Truncated(t))
  {
    BeginsPrefix(mem, vfmt, SourceOf(ts), SourceOf(ts) + t.Source());
  }

  // ---- The format decides what is translated and how it ends ----

  /** The text fits into the message with its terminator. */
  predicate Fits(ts: seq<Token>) { |PREFIX| + |TargetOf(ts)| < MESSAGE_SIZE }

  lemma {:induction false} FrontOf(ts: seq<Token>, i: nat)
    requires i <= |ts|
    ensures SourceOf(ts[..i]) <= SourceOf(ts) && TargetOf(ts[..i]) <= TargetOf(ts)
    decreases |ts|
  {
    if i == |ts| {
      assert ts[..i] == ts;
    } else {
      FrontOf(ts[..|ts| - 1], i);
      assert ts[..|ts| - 1][..i] == ts[..i];
    }
  }

  /** The next characters of the format decide the next token. */
  lemma SameToken(mem: Memory, vfmt: nat, src: seq<byte>, t: Token, u: Token)
    requires t.Valid() && u.Valid() && Begins(mem, vfmt, src + t.Source()) && Begins(mem, vfmt, src + u.Source())
    ensures t == u
  {
    NextChars(mem, vfmt, src, t.Source());
    NextChars(mem, vfmt, src, u.Source());
    hide Begins, CharAt;
  }

  lemma NextChars(mem: Memory, vfmt: nat, src: seq<byte>, more: seq<byte>)
    requires Begins(mem, vfmt, src + more)
    ensures |more| > 0 ==> CharAt(mem, vfmt, |src|) == Some(more[0])
    ensures |more| > 1 ==> CharAt(mem, vfmt, |src| + 1) == Some(more[1])
  {
    hide CharAt;
    var all := src + more;
    assert forall k :: 0 <= k < |more| ==> all[|src| + k] == more[k];
  }

  /** Token i of a translated format, and the characters before and of it. */
  lemma TokenRead(mem: Memory, vfmt: nat, ts: seq<Token>, i: nat)
    requires i < |ts| && AllValid(ts) && Begins(mem, vfmt, SourceOf(ts))
    ensures ts[i].Valid() && Begins(mem, vfmt, SourceOf(ts[..i]) + ts[i].Source())
    ensures Fits(ts) ==> |PREFIX| + |TargetOf(ts[..i])| + |ts[i].Target()| < MESSAGE_SIZE
  {
    hide Begins, SourceOf, TargetOf, Token.Source, Token.Target;
    FrontOf(ts, i + 1);
    assert ts[..i + 1] == ts[..i] + [ts[i]];
    Snoc(ts[..i], ts[i]);
    BeginsPrefix(mem, vfmt, SourceOf(ts[..i + 1]), SourceOf(ts));
  }

  lemma {:induction false} SameTokens(mem: Memory, vfmt: nat, ts: seq<Token>, us: seq<Token>, i: nat)
    requires AllValid(ts) && AllValid(us) && i <= |ts| && i <= |us|
    requires Begins(mem, vfmt, SourceOf(ts)) && Begins(mem, vfmt, SourceOf(us))
    ensures ts[..i] == us[..i]
  {
    if i > 0 {
      hide Begins, SourceOf, TargetOf, Token.Source, Token.Target, Token.Valid, AllValid;
      SameTokens(mem, vfmt, ts, us, i - 1);
      TokenRead(mem, vfmt, ts, i - 1);
      TokenRead(mem, vfmt, us, i - 1);
      SameToken(mem, vfmt, SourceOf(ts[..i - 1]), ts[i - 1], us[i - 1]);
      TakeOneMore(ts, us, i);
    }
  }

  lemma TakeOneMore(ts: seq<Token>, us: seq<Token>, i: nat)
    requires 0 < i <= |ts| && i <= |us| && ts[..i - 1] == us[..i - 1] && ts[i - 1] == us[i - 1]
    ensures ts[..i] == us[..i]
  {
    assert ts[..i] == ts[..i - 1] + [ts[i - 1]] && us[..i] == us[..i - 1] + [us[i - 1]];
  }

  /** Where the loop ends it could not have gone on. */
  lemma EndIsEnd(mem: Memory, vfmt: nat, ts: seq<Token>, end: End, u: Token)
    requires Ended(mem, vfmt, ts, end) && u.Valid() && Begins(mem, vfmt, SourceOf(ts) + u.Source())
    ensures |PREFIX| + |TargetOf(ts)| + |u.Target()| >= MESSAGE_SIZE
  {
    var src := SourceOf(ts);
    NextChars(mem, vfmt, src, u.Source());
    if end.Truncated? {
      SameToken(mem, vfmt, src, end.t, u);
    } else if end.BadEscape? {
      NextChars(mem, vfmt, src, [PERCENT, end.c]);
    } else if end.Unmapped? && CharAt(mem, vfmt, |src|).Some? {
      NextChars(mem, vfmt, src, [PERCENT]);
    }
    hide Begins, CharAt, SourceOf, TargetOf;
  }

  /** After the same tokens the loop ends in the same way. */
  lemma SameEnd(mem: Memory, vfmt: nat, ts: seq<Token>, end: End, end': End)
    requires Ended(mem, vfmt, ts, end) && Ended(mem, vfmt, ts, end')
    ensures end == end'
  {
    var src := SourceOf(ts);
    EndChars(mem, vfmt, ts, end);
    EndChars(mem, vfmt, ts, end');
    if end.Truncated? && end'.Truncated? {
      SameToken(mem, vfmt, src, end.t, end'.t);
    }
    hide Begins, CharAt, SourceOf, TargetOf, Ended;
  }

  /** What the next characters are at each end. */
  lemma EndChars(mem: Memory, vfmt: nat, ts: seq<Token>, end: End)
    requires Ended(mem, vfmt, ts, end)
    ensures var c, d := CharAt(mem, vfmt, |SourceOf(ts)|), CharAt(mem, vfmt, |SourceOf(ts)| + 1);
      match end
      case Finished => c == Some(0)
      case Truncated(t) =>
        && t.Valid() && c == Some(t.Source()[0])
        && (!t.Literal? ==> d == Some(t.Source()[1]))
      case Unmapped => c.None? || (c == Some(PERCENT) && d.None?)
      case BadEscape(x) => c == Some(PERCENT) && d == Some(x) && x != PERCENT && !IsConversion(x)
  {
    hide Begins, CharAt, SourceOf, TargetOf, Token.Target, IsConversion;
    var src := SourceOf(ts);
    match end {
      case Finished =>
      case Truncated(t) => NextChars(mem, vfmt, src, t.Source());
      case Unmapped =>
        if CharAt(mem, vfmt, |src|).Some? {
          NextChars(mem, vfmt, src, [PERCENT]);
        }
      case BadEscape(x) => NextChars(mem, vfmt, src, [PERCENT, x]);
    }
  }

  /** The format in memory decides the translation: at most one sequence of tokens that fits and
      one way to end satisfy the loop's contract. */
  lemma EndedUnique(mem: Memory, vfmt: nat, ts: seq<Token>, end: End, us: seq<Token>, end': End)
    requires AllValid(ts) && Fits(ts) && Ended(mem, vfmt, ts, end)
    requires AllValid(us) && Fits(us) && Ended(mem, vfmt, us, end')
    ensures ts == us && end == end'
  {
    var n := if |ts| <= |us| then |ts| else |us|;
    SameTokens(mem, vfmt, ts, us, n);
    if |ts| < |us| {
      assert ts[..n] == ts;
      TokenRead(mem, vfmt, us, n);
      EndIsEnd(mem, vfmt, ts, end, us[n]);
      assert false;
    } else if |us| < |ts| {
      assert us[..n] == us;
      TokenRead(mem, vfmt, ts, n);
      EndIsEnd(mem, vfmt, us, end', ts[n]);
      assert false;
    } else {
      assert ts[..n] == ts && us[..n] == us;
      SameEnd(mem, vfmt, ts, end, end');
    }
  }

  // ---- The native ----

  datatype Outcome = InvalidOperand | AccessViolation | Printed(message: seq<byte>, args: seq<nat>)

  /** The address, as the module's data sees it, of the reference to the i-th conversion's value. */
  function Parameter(argv: nat, i: nat): nat { (argv + 8 * (i + 1)) % 0x1_0000_0000_0000_0000 }

  /** The native as a whole: ts and end are what the loop translated and how it ended, which
      EndedUnique says the format decides; argCount is the conversions counted. It prints exactly
      when the format could be read and every counted conversion has an argument; the printer then
      finds no more conversions in the message than there are arguments. */
  method DebugPrintNative(mem: Memory, dataV2p: Memory, argc: nat, argv: nat)
    returns (r: Outcome, argCount: nat, ghost ts: seq<Token>, ghost end: End)
    requires forall a :: a in dataV2p ==> dataV2p[a] < TWO64
    ensures argc == 0 ==> r == InvalidOperand
    ensures argc != 0 && argv !in dataV2p ==> r == AccessViolation
    ensures argc != 0 && argv in dataV2p ==>
      && AllValid(ts) && Fits(ts) && Ended(mem, dataV2p[argv], ts, end) && argCount == Counted(ts, end)
      && (r == AccessViolation <==> end.Unmapped?)
      && (r.Printed? <==>
            && (end.Finished? || end.Truncated?) && argCount <= argc - 1 && argCount <= MAX_ARGS
            && forall i: nat :: i < argCount ==>
                 Parameter(argv, i) in dataV2p && dataV2p[Parameter(argv, i)] in mem)
    ensures r.Printed? ==>
      && r.message == PREFIX + TargetOf(ts) && |r.message| < MESSAGE_SIZE
      && Parse(r.message).Some? && Conversions(Parse(r.message).value) <= argCount <= MAX_ARGS == |r.args|
      && (forall i: nat :: i < argCount ==>
            var p := Parameter(argv, i); p in dataV2p && dataV2p[p] in mem && r.args[i] == mem[dataV2p[p]])
      && forall i :: argCount <= i < MAX_ARGS ==> r.args[i] == 0
  {
    ts, end := [], Finished;
    argCount := 0;
    if argc == 0 {
      r := InvalidOperand;
      return;
    }
    if argv !in dataV2p {
      r := AccessViolation;
      return;
    }
    var message := new byte[MESSAGE_SIZE](i => if 0 <= i < |PREFIX| then PREFIX[i] else 0);
    assert message[..|PREFIX|] == PREFIX + TargetOf([]);
    var args: seq<nat> := seq(MAX_ARGS, _ => 0);
    hide Ended, TargetOf, Parse, Conversions, AllValid;
    var ended, it;
    ended, it, argCount, ts := Translate(mem, dataV2p[argv], message);
    end := ended;
    if ended.Unmapped? {
      r := AccessViolation;
      return;
    }
    if ended.BadEscape? {
      r := InvalidOperand;
      return;
    }
    if argCount > argc - 1 {
      r := InvalidOperand;
      return;
    }
    if argCount > MAX_ARGS {
      r := InvalidOperand;
      return;
    }
    var i: nat := 0;
    while i < argCount
      invariant i <= argCount && |args| == MAX_ARGS
      invariant forall k: nat :: k < i ==>
        var p := Parameter(argv, k); p in dataV2p && dataV2p[p] in mem && args[k] == mem[dataV2p[p]]
      invariant forall k :: i <= k < MAX_ARGS ==> args[k] == 0
    {
      var pparg := (argv + (i + 1) * CELL) % TWO64;
      assert pparg == Parameter(argv, i);
      if pparg !in dataV2p {
        r := InvalidOperand;
        return;
      }
      if dataV2p[pparg] !in mem {
        r := InvalidOperand;
        return;
      }
      args := args[i := mem[dataV2p[pparg]]];
      i := i + 1;
    }
    MessageParses(ts);
    r := Printed(message[..it], args);
  }
}
