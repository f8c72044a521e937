/**
 The NSIS string table: null-terminated strings with escape codes, in a one-byte and a two-byte
 encoding. Both encodings of the same symbolic strings resolve to the same text, and walking
 either table from terminator to terminator visits exactly its strings.
 */
module NsisStrings {
  import opened Common
  import opened Bytes
  import opened Texts

  const SKIP_CODE: byte := 1
  const SHELL_CODE: byte := 2
  const VAR_CODE: byte := 3
  const LANG_CODE: byte := 4
  const UNDERSCORE: byte := 95

  function Str(s: string): (b: seq<byte>)
    ensures |b| == |s|
  {
    seq(|s|, i requires 0 <= i < |s| => if s[i] < '\U{0100}' then s[i] as int else 63)
  }

  // ---------------------------------------------------------------- tokens

  /** The NSIS constant for a CSIDL, or the empty string for an id NSIS has no name for. */
  function Csidl(id: int): string
  {
    if id == 0x00 || id == 0x10 || id == 0x19 then "DESKTOP"
    else if id == 0x02 || id == 0x17 then "SMPROGRAMS"
    else if id == 0x05 || id == 0x2E then "DOCUMENTS"
    else if id == 0x06 || id == 0x1F then "FAVORITES"
    else if id == 0x07 || id == 0x18 then "SMSTARTUP"
    else if id == 0x08 then "RECENT"
    else if id == 0x09 then "SENDTO"
    else if id == 0x0B || id == 0x16 then "STARTMENU"
    else if id == 0x0D || id == 0x35 then "MUSIC"
    else if id == 0x0E || id == 0x37 then "VIDEOS"
    else if id == 0x13 then "NETHOOD"
    else if id == 0x14 then "FONTS"
    else if id == 0x15 || id == 0x2D then "TEMPLATES"
    else if id == 0x1A || id == 0x23 then "APPDATA"
    else if id == 0x1B then "PRINTHOOD"
    else if id == 0x1C then "LOCALAPPDATA"
    else if id == 0x1D then "ALTSTARTUP"
    else if id == 0x20 then "INTERNET_CACHE"
    else if id == 0x21 then "COOKIES"
    else if id == 0x22 then "HISTORY"
    else if id == 0x24 then "WINDIR"
    else if id == 0x25 then "SYSDIR"
    else if id == 0x26 then "PROGRAMFILES"
    else if id == 0x27 || id == 0x36 then "PICTURES"
    else if id == 0x28 then "PROFILE"
    else if id == 0x2B then "COMMONFILES"
    else if id == 0x2F || id == 0x30 then "ADMINTOOLS"
    else if id == 0x38 then "RESOURCES"
    else if id == 0x39 then "RESOURCES_LOCALIZED"
    else if id == 0x3B then "CDBURN_AREA"
    else ""
  }

  /** A shell reference packs two CSIDLs of seven bits; the per-user one names the folder if it can. */
  function ShellName(param: nat): (s: seq<byte>)
    ensures |s| > 0
  {
    var cur, all := param % 128, param / 128;
    if Csidl(cur) != "" then Str("$") + Str(Csidl(cur))
    else if Csidl(all) != "" then Str("$") + Str(Csidl(all))
    else Str("$SHELL") + Itoa(cur) + Str("_") + Itoa(all)
  }

  function VarName(idx: int): (s: seq<byte>)
    ensures |s| > 0
  {
    if 0 <= idx <= 9 then Str("$") + Itoa(idx)
    else if 10 <= idx <= 19 then Str("$R") + Itoa(idx - 10)
    else if idx == 20 then Str("$CMDLINE")
    else if idx == 21 then Str("$INSTDIR")
    else if idx == 22 then Str("$OUTDIR")
    else if idx == 23 then Str("$EXEDIR")
    else if idx == 24 then Str("$LANGUAGE")
    else Str("$VAR") + Itoa(idx)
  }

  lemma SmallNames(idx: nat)
    requires idx <= 24
    ensures var s := VarName(idx);
            && |s| >= 2
            && (idx <= 9 ==> s[1] == 48 + idx)
            && (10 <= idx <= 19 ==> s[1] == 82 && |s| == 3 && s[2] == 48 + idx - 10)
            && (idx == 20 ==> s[1] == 67) && (idx == 21 ==> s[1] == 73) && (idx == 22 ==> s[1] == 79)
            && (idx == 23 ==> s[1] == 69) && (idx == 24 ==> s[1] == 76)
  {
  }

  lemma OtherNames(idx: int)
    requires idx < 0 || idx > 24
    ensures var s := VarName(idx); |s| >= 4 && s[1] == 86 && s[4..] == Itoa(idx)
  {
    hide Itoa;
    var v := Str("$VAR");
    assert |v| == 4 && v[1] == 86 && (v + Itoa(idx))[4..] == Itoa(idx);
  }

  /** Different variables have different names: the second character tells the kind, the rest the index. */
  lemma VarNamesDiffer(a: int, b: int)
    requires VarName(a) == VarName(b)
    ensures a == b
  {
    hide VarName, Itoa;
    if 0 <= a <= 24 {
      SmallNames(a);
    } else {
      OtherNames(a);
    }
    if 0 <= b <= 24 {
      SmallNames(b);
    } else {
      OtherNames(b);
    }
    if Itoa(a) == Itoa(b) {
      ItoaInjective(a, b);
    }
  }

  function CodeText(code: byte, param: nat): (s: seq<byte>)
    requires SHELL_CODE <= code <= LANG_CODE
    ensures |s| > 0
  {
    if code == SHELL_CODE then ShellName(param)
    else if code == VAR_CODE then VarName(param)
    else Str("$LANG") + Itoa(param)
  }

  // ---------------------------------------------------------------- resolving, position by position

  function Unit(tab: seq<byte>, i: nat): (u: nat)
    requires i + 2 <= |tab|
    ensures u < 0x10000
  {
    tab[i] as nat + 256 * tab[i + 1] as nat
  }

  /** Seven bits of each parameter byte, the low ones first. */
  function AnsiParam(a: byte, b: byte): nat { a % 128 + (b as nat) % 128 * 128 }
  function WideParam(u: nat): nat { u % 128 + u / 256 % 128 * 128 }

  function ResolveAnsi(tab: seq<byte>, i: nat): seq<byte>
    decreases if i <= |tab| then |tab| - i else 0
  {
    if i >= |tab| || tab[i] == 0 then []
    else
      var c := tab[i];
      if c == SKIP_CODE then
        if i + 1 >= |tab| then [] else [tab[i + 1]] + ResolveAnsi(tab, i + 2)
      else if SHELL_CODE <= c <= LANG_CODE then
        if i + 2 >= |tab| then []
        else CodeText(c, AnsiParam(tab[i + 1], tab[i + 2])) + ResolveAnsi(tab, i + 3)
      else [if c < 0x20 then UNDERSCORE else c] + ResolveAnsi(tab, i + 1)
  }

  function ResolveWide(tab: seq<byte>, i: nat): seq<byte>
    decreases if i <= |tab| then |tab| - i else 0
  {
    if i + 1 >= |tab| || Unit(tab, i) == 0 then []
    else
      var c := Unit(tab, i);
      if c == SKIP_CODE then
        if i + 3 >= |tab| then [] else Utf8(Unit(tab, i + 2)) + ResolveWide(tab, i + 4)
      else if SHELL_CODE <= c <= LANG_CODE then
        if i + 3 >= |tab| then []
        else
          CodeText(c, WideParam(Unit(tab, i + 2))) + ResolveWide(tab, i + 4)
      else (if c < 0x20 then [UNDERSCORE] else Utf8(c)) + ResolveWide(tab, i + 2)
  }

  function Resolve(tab: seq<byte>, off: int, unicode: bool): seq<byte>
  {
    if off < 0 || off >= |tab| then []
    else if unicode then ResolveWide(tab, off)
    else ResolveAnsi(tab, off)
  }

  /** Bytes up to and including the terminator at or after i, counted from off. */
  function LenAnsi(tab: seq<byte>, off: nat, i: nat): (n: nat)
    requires off <= i && off < |tab|
    ensures 0 < n && off + n <= |tab|
    decreases if i <= |tab| then |tab| - i else 0
  {
    if i >= |tab| then |tab| - off
    else if tab[i] == 0 then i + 1 - off
    else LenAnsi(tab, off, i + 1)
  }

  function LenWide(tab: seq<byte>, off: nat, i: nat): (n: nat)
    requires off <= i && off < |tab|
    ensures 0 < n && off + n <= |tab|
    decreases if i <= |tab| then |tab| - i else 0
  {
    if i + 1 >= |tab| then |tab| - off
    else if Unit(tab, i) == 0 then i + 2 - off
    else LenWide(tab, off, i + 2)
  }

  function NextLen(tab: seq<byte>, off: nat, unicode: bool): (n: nat)
    requires off < |tab|
    ensures 0 < n && off + n <= |tab|
  {
    if unicode then LenWide(tab, off, off) else LenAnsi(tab, off, off)
  }

  function Dump(tab: seq<byte>, off: nat, unicode: bool): seq<seq<byte>>
    requires off <= |tab|
    decreases |tab| - off
  {
    if off == |tab| then []
    else
      var s := Resolve(tab, off, unicode);
      (if s != [] then [s] else []) + Dump(tab, off + NextLen(tab, off, unicode), unicode)
  }

  // ---------------------------------------------------------------- the loops

  method ResolveString(tab: seq<byte>, off: int, unicode: bool) returns (text: seq<byte>)
    ensures text == Resolve(tab, off, unicode)
  {
    text := [];
    if off < 0 || off >= |tab| {
      return;
    }
    if unicode {
      text := ResolveWideLoop(tab, off);
    } else {
      text := ResolveAnsiLoop(tab, off);
    }
  }

  method ResolveAnsiLoop(tab: seq<byte>, off: nat) returns (text: seq<byte>)
    requires off < |tab|
    ensures text == ResolveAnsi(tab, off)
  {
    hide CodeText, AnsiParam;
    text := [];
    var i := off;
    while i < |tab|
      invariant off <= i
      invariant text + ResolveAnsi(tab, i) == ResolveAnsi(tab, off)
      decreases |tab| - i
    {
      var c := tab[i];
      if c == 0 { break; }
      if c == SKIP_CODE {
        if i + 1 >= |tab| { break; }
        Glue(text, [tab[i + 1]], ResolveAnsi(tab, i + 2));
        text := text + [tab[i + 1]];
        i := i + 2;
      } else if SHELL_CODE <= c <= LANG_CODE {
        if i + 2 >= |tab| { break; }
        var token := CodeText(c, AnsiParam(tab[i + 1], tab[i + 2]));
        Glue(text, token, ResolveAnsi(tab, i + 3));
        text := text + token;
        i := i + 3;
      } else {
        var b := if c < 0x20 then UNDERSCORE else c;
        Glue(text, [b], ResolveAnsi(tab, i + 1));
        text := text + [b];
        i := i + 1;
      }
    }
  }

  method ResolveWideLoop(tab: seq<byte>, off: nat) returns (text: seq<byte>)
    requires off < |tab|
    ensures text == ResolveWide(tab, off)
  {
    hide CodeText, Utf8, Unit, WideParam;
    text := [];
    var i := off;
    while i + 1 < |tab|
      invariant off <= i
      invariant text + ResolveWide(tab, i) == ResolveWide(tab, off)
      decreases |tab| - i
    {
      var c := Unit(tab, i);
      if c == 0 { break; }
      if c == SKIP_CODE {
        if i + 3 >= |tab| { break; }
        Glue(text, Utf8(Unit(tab, i + 2)), ResolveWide(tab, i + 4));
        text := text + Utf8(Unit(tab, i + 2));
        i := i + 4;
      } else if SHELL_CODE <= c <= LANG_CODE {
        if i + 3 >= |tab| { break; }
        var token := CodeText(c, WideParam(Unit(tab, i + 2)));
        Glue(text, token, ResolveWide(tab, i + 4));
        text := text + token;
        i := i + 4;
      } else {
        var r := if c < 0x20 then [UNDERSCORE] else Utf8(c);
        Glue(text, r, ResolveWide(tab, i + 2));
        text := text + r;
        i := i + 2;
      }
    }
  }

  method NextStringLen(tab: seq<byte>, off: nat, unicode: bool) returns (n: nat)
    requires off < |tab|
    ensures n == NextLen(tab, off, unicode)
  {
    var i := off;
    if unicode {
      while i + 1 < |tab|
        invariant off <= i && LenWide(tab, off, i) == LenWide(tab, off, off)
        decreases |tab| - i
      {
        if Unit(tab, i) == 0 {
          return i + 2 - off;
        }
        i := i + 2;
      }
      return |tab| - off;
    }
    while i < |tab|
      invariant off <= i && LenAnsi(tab, off, i) == LenAnsi(tab, off, off)
      decreases |tab| - i
    {
      if tab[i] == 0 {
        return i + 1 - off;
      }
      i := i + 1;
    }
    return |tab| - off;
  }

  method DumpStrings(tab: seq<byte>, unicode: bool) returns (out: seq<seq<byte>>)
    ensures out == Dump(tab, 0, unicode)
    ensures forall strs: seq<seq<Sym>> ::
              TableOk(strs) && tab == Table(strs, unicode) ==> out == NonEmpty(strs)
  {
    hide Resolve, NextLen, TableOk, Table, NonEmpty;
    forall strs: seq<seq<Sym>> | TableOk(strs) && tab == Table(strs, unicode)
      ensures Dump(tab, 0, unicode) == NonEmpty(strs)
    {
      DumpsItsStrings(strs, unicode);
    }
    out := DumpLoop(tab, unicode);
  }

  method DumpLoop(tab: seq<byte>, unicode: bool) returns (out: seq<seq<byte>>)
    ensures out == Dump(tab, 0, unicode)
  {
    hide Resolve, NextLen;
    out := [];
    var off := 0;
    while off < |tab|
      invariant off <= |tab|
      invariant out + Dump(tab, off, unicode) == Dump(tab, 0, unicode)
      decreases |tab| - off
    {
      var s := ResolveString(tab, off, unicode);
      if s != [] {
        out := out + [s];
      }
      var adv := NextStringLen(tab, off, unicode);
      if adv <= 0 { break; }
      off := off + adv;
    }
  }

  // ---------------------------------------------------------------- symbolic strings

  /** A plain character, an escaped one, or a reference to a variable, shell folder or language string. */
  datatype Sym = Lit(c: byte) | Quoted(c: byte) | Code(code: byte, param: nat)

  predicate SymOk(x: Sym)
  {
    match x
    case Lit(c) => LANG_CODE < c < 0x80
    case Quoted(c) => 0 < c < 0x80
    case Code(code, param) => SHELL_CODE <= code <= LANG_CODE && param < 0x4000
  }

  predicate SymsOk(xs: seq<Sym>) { forall i :: 0 <= i < |xs| ==> SymOk(xs[i]) }
  predicate TableOk(strs: seq<seq<Sym>>) { forall i :: 0 <= i < |strs| ==> SymsOk(strs[i]) }

  /** Parameters carry seven bits a byte, the eighth being set so that no byte of one is null. */
  function EncSym(x: Sym, unicode: bool): (s: seq<byte>)
    requires SymOk(x)
    ensures |s| > 0
  {
    match x
    case Lit(c) => if unicode then [c, 0] else [c]
    case Quoted(c) => if unicode then [SKIP_CODE, 0, c, 0] else [SKIP_CODE, c]
    case Code(code, param) =>
      if unicode then [code, 0, 128 + param % 128, 128 + param / 128]
      else [code, 128 + param % 128, 128 + param / 128]
  }

  function Terminator(unicode: bool): (s: seq<byte>)
    ensures |s| > 0
  {
    if unicode then [0, 0] else [0]
  }

  function EncString(xs: seq<Sym>, unicode: bool): (s: seq<byte>)
    requires SymsOk(xs)
    ensures |s| > 0
  {
    if |xs| == 0 then Terminator(unicode) else EncSym(xs[0], unicode) + EncString(xs[1..], unicode)
  }

  function Table(strs: seq<seq<Sym>>, unicode: bool): seq<byte>
    requires TableOk(strs)
  {
    if |strs| == 0 then [] else EncString(strs[0], unicode) + Table(strs[1..], unicode)
  }

  function SymText(x: Sym): (s: seq<byte>)
    requires SymOk(x)
    ensures |s| > 0
  {
    match x
    case Lit(c) => [if c < 0x20 then UNDERSCORE else c]
    case Quoted(c) => [c]
    case Code(code, param) => CodeText(code, param)
  }

  function TextOf(xs: seq<Sym>): (s: seq<byte>)
    requires SymsOk(xs)
    ensures s == [] <==> xs == []
  {
    if |xs| == 0 then [] else SymText(xs[0]) + TextOf(xs[1..])
  }

  function NonEmpty(strs: seq<seq<Sym>>): seq<seq<byte>>
    requires TableOk(strs)
  {
    if |strs| == 0 then []
    else (if strs[0] != [] then [TextOf(strs[0])] else []) + NonEmpty(strs[1..])
  }

  // ---------------------------------------------------------------- both encodings mean the same

  lemma ParamSplits(param: nat)
    requires param < 0x4000
    ensures AnsiParam(128 + param % 128, 128 + param / 128) == param
    ensures WideParam((128 + param % 128) + 256 * (128 + param / 128)) == param
  {
  }

  /** One symbol, read at its place, contributes its text and moves the cursor past it. */
  lemma SymResolves(tab: seq<byte>, i: nat, x: Sym, unicode: bool)
    requires SymOk(x) && At(tab, i, EncSym(x, unicode))
    ensures !unicode ==> ResolveAnsi(tab, i) == SymText(x) + ResolveAnsi(tab, i + |EncSym(x, unicode)|)
    ensures unicode ==> ResolveWide(tab, i) == SymText(x) + ResolveWide(tab, i + |EncSym(x, unicode)|)
  {
    hide CodeText;
    var e := EncSym(x, unicode);
    assert forall k :: 0 <= k < |e| ==> tab[i + k] == e[k] by {
      forall k | 0 <= k < |e| ensures tab[i + k] == e[k] {
        assert tab[i..i + |e|][k] == e[k];
      }
    }
    assert tab[i] == e[0];
    if |e| > 1 { assert tab[i + 1] == e[1]; }
    if |e| > 2 { assert tab[i + 2] == e[2]; }
    if |e| > 3 { assert tab[i + 3] == e[3]; }
    if x.Code? {
      ParamSplits(x.param);
    }
  }

  lemma {:induction false} StringResolves(tab: seq<byte>, i: nat, xs: seq<Sym>, unicode: bool)
    requires SymsOk(xs) && At(tab, i, EncString(xs, unicode))
    ensures Resolve(tab, i, unicode) == TextOf(xs)
    decreases xs
  {
    hide ResolveAnsi, ResolveWide, SymText;
    if |xs| == 0 {
      Terminates(tab, i, unicode);
    } else {
      var e := EncSym(xs[0], unicode);
      AtConcat(tab, i, e, EncString(xs[1..], unicode));
      SymResolves(tab, i, xs[0], unicode);
      StringResolves(tab, i + |e|, xs[1..], unicode);
    }
  }

  lemma Terminates(tab: seq<byte>, i: nat, unicode: bool)
    requires At(tab, i, Terminator(unicode))
    ensures Resolve(tab, i, unicode) == []
    ensures forall off: nat :: off <= i ==>
              (if unicode then LenWide(tab, off, i) else LenAnsi(tab, off, i)) == i + |Terminator(unicode)| - off
  {
    var e := Terminator(unicode);
    assert tab[i..i + |e|][0] == e[0];
    if unicode {
      assert tab[i..i + |e|][1] == e[1];
    }
  }

  /** No byte of a symbol reads as a terminator, so the walk steps over the whole of it. */
  lemma SymHasNoTerminator(tab: seq<byte>, off: nat, i: nat, x: Sym, unicode: bool)
    requires SymOk(x) && At(tab, i, EncSym(x, unicode)) && off <= i
    ensures !unicode ==> LenAnsi(tab, off, i) == LenAnsi(tab, off, i + |EncSym(x, unicode)|)
    ensures unicode ==> LenWide(tab, off, i) == LenWide(tab, off, i + |EncSym(x, unicode)|)
  {
    var e := EncSym(x, unicode);
    forall k | 0 <= k < |e| ensures tab[i + k] == e[k] {
      assert tab[i..i + |e|][k] == e[k];
    }
    assert tab[i] == e[0];
    if |e| > 1 { assert tab[i + 1] == e[1]; }
    if |e| > 2 { assert tab[i + 2] == e[2]; }
    if |e| > 3 { assert tab[i + 3] == e[3]; }
    if unicode {
      assert Unit(tab, i) != 0;
      if |e| == 4 {
        assert Unit(tab, i + 2) != 0;
        assert LenWide(tab, off, i + 2) == LenWide(tab, off, i + 4);
      }
    } else {
      if |e| > 1 {
        assert LenAnsi(tab, off, i) == LenAnsi(tab, off, i + 1);
        assert LenAnsi(tab, off, i + 1) == LenAnsi(tab, off, i + 2);
      }
    }
  }

  lemma {:induction false} StringLength(tab: seq<byte>, off: nat, i: nat, xs: seq<Sym>, unicode: bool)
    requires SymsOk(xs) && At(tab, i, EncString(xs, unicode)) && off <= i
    ensures (if unicode then LenWide(tab, off, i) else LenAnsi(tab, off, i)) == i + |EncString(xs, unicode)| - off
    decreases xs
  {
    hide LenAnsi, LenWide;
    if |xs| == 0 {
      Terminates(tab, i, unicode);
    } else {
      var e := EncSym(xs[0], unicode);
      AtConcat(tab, i, e, EncString(xs[1..], unicode));
      SymHasNoTerminator(tab, off, i, xs[0], unicode);
      StringLength(tab, off, i + |e|, xs[1..], unicode);
    }
  }

  /** Where the k-th string of a table starts. */
  function Start(strs: seq<seq<Sym>>, k: nat, unicode: bool): nat
    requires TableOk(strs) && k <= |strs|
  {
    if k == 0 then 0 else |EncString(strs[0], unicode)| + Start(strs[1..], k - 1, unicode)
  }

  lemma {:induction false} StringInTable(strs: seq<seq<Sym>>, k: nat, unicode: bool)
    requires TableOk(strs) && k < |strs|
    ensures At(Table(strs, unicode), Start(strs, k, unicode), EncString(strs[k], unicode))
  {
    hide EncString, SymsOk;
    var first, rest := EncString(strs[0], unicode), Table(strs[1..], unicode);
    if k == 0 {
      AtConcat(first + rest, 0, first, rest);
      assert At(first + rest, 0, first + rest);
    } else {
      StringInTable(strs[1..], k - 1, unicode);
      AtShifted(first, rest, Start(strs[1..], k - 1, unicode), EncString(strs[k], unicode));
    }
  }

  /** The ANSI and the UTF-16 table of the same strings resolve, string by string, to the same text. */
  lemma EncodingsAgree(strs: seq<seq<Sym>>, k: nat)
    requires TableOk(strs) && k < |strs|
    ensures Resolve(Table(strs, false), Start(strs, k, false), false) == TextOf(strs[k])
    ensures Resolve(Table(strs, true), Start(strs, k, true), true) == TextOf(strs[k])
  {
    StringInTable(strs, k, false);
    StringInTable(strs, k, true);
    StringResolves(Table(strs, false), Start(strs, k, false), strs[k], false);
    StringResolves(Table(strs, true), Start(strs, k, true), strs[k], true);
  }

  /** Walking a table visits its strings one after another and nothing else. */
  lemma {:induction false} WalkVisitsStrings(tab: seq<byte>, off: nat, strs: seq<seq<Sym>>, unicode: bool)
    requires TableOk(strs) && off <= |tab| && tab[off..] == Table(strs, unicode)
    ensures Dump(tab, off, unicode) == NonEmpty(strs)
    decreases strs
  {
    hide Resolve, NextLen, At, EncString, TextOf, TableOk, SymsOk, Table, NonEmpty;
    FirstOfTable(strs, unicode);
    if |strs| > 0 {
      var e := EncString(strs[0], unicode);
      SplitAt(tab, off, e, Table(strs[1..], unicode));
      StringResolves(tab, off, strs[0], unicode);
      OneStep(tab, off, strs[0], unicode);
      WalkVisitsStrings(tab, off + |e|, strs[1..], unicode);
    }
  }

  lemma FirstOfTable(strs: seq<seq<Sym>>, unicode: bool)
    requires TableOk(strs)
    ensures |strs| == 0 ==> Table(strs, unicode) == [] && NonEmpty(strs) == []
    ensures |strs| > 0 ==>
              && SymsOk(strs[0]) && TableOk(strs[1..])
              && Table(strs, unicode) == EncString(strs[0], unicode) + Table(strs[1..], unicode)
              && NonEmpty(strs) == (if TextOf(strs[0]) != [] then [TextOf(strs[0])] else []) + NonEmpty(strs[1..])
  {
  }

  lemma SplitAt(tab: seq<byte>, off: nat, e: seq<byte>, rest: seq<byte>)
    requires off <= |tab| && tab[off..] == e + rest
    ensures At(tab, off, e) && tab[off + |e|..] == rest
  {
    assert tab[off..off + |e|] == tab[off..][..|e|];
    assert tab[off + |e|..] == tab[off..][|e|..];
  }

  lemma OneStep(tab: seq<byte>, off: nat, xs: seq<Sym>, unicode: bool)
    requires SymsOk(xs) && At(tab, off, EncString(xs, unicode))
    ensures off < |tab| && NextLen(tab, off, unicode) == |EncString(xs, unicode)|
  {
    StringLength(tab, off, off, xs, unicode);
  }

  lemma DumpsItsStrings(strs: seq<seq<Sym>>, unicode: bool)
    requires TableOk(strs)
    ensures Dump(Table(strs, unicode), 0, unicode) == NonEmpty(strs)
  {
    var tab := Table(strs, unicode);
    assert tab[0..] == tab;
    WalkVisitsStrings(tab, 0, strs, unicode);
  }
}
