/**
 The line conventions of a decompiled C file: the header comment that starts a function record, the
 comment that ends the output, and the name of a function in its signature line.
 */
module DecompiledLines {
  import opened Common
  import opened Chars
  import Texts

  // ---------------------------------------------------------------- headers

  predicate IsWord(s: string)
  {
    s != "" && !('0' <= s[0] <= '9') && forall k :: 0 <= k < |s| ==> IsIdent(s[k])
  }

  predicate IsSpacePrefix(p: string)
  {
    p == "" || (p[|p| - 1] == ':' && IsWord(p[..|p| - 1]))
  }

  /** "// ", an optional memory space such as "ram:", then 4 to 16 hex digits and nothing more. */
  ghost predicate HeaderOf(line: string, p: string, hex: string)
  {
    line == "// " + p + hex && IsSpacePrefix(p) && 4 <= |hex| <= 16 && AllHex(hex)
  }

  function AfterColon(s: string): (k: nat)
    ensures k <= |s| && (k > 0 ==> s[k - 1] == ':')
    ensures forall j :: k <= j < |s| ==> s[j] != ':'
  {
    if s == "" then 0 else if s[|s| - 1] == ':' then |s| else AfterColon(s[..|s| - 1])
  }

  /** The digits of a record header, if the line is one. */
  function HeaderHex(line: string): (r: Option<string>)
    ensures r.Some? ==> 4 <= |r.value| <= 16 && AllHex(r.value)
  {
    if |line| < 3 || line[..3] != "// " then None
    else
      var rest := line[3..];
      var k := AfterColon(rest);
      var p, hex := rest[..k], rest[k..];
      if IsSpacePrefix(p) && 4 <= |hex| <= 16 && AllHex(hex) then Some(hex) else None
  }

  lemma {:induction false} ColonSplit(p: string, hex: string)
    requires (p == "" || p[|p| - 1] == ':') && AllHex(hex)
    ensures AfterColon(p + hex) == |p|
    decreases |hex|
  {
    var s := p + hex;
    if hex != "" {
      var n := |hex| - 1;
      assert s[|s| - 1] == hex[n] && s[..|s| - 1] == p + hex[..n];
      ColonSplit(p, hex[..n]);
    } else {
      assert s == p;
    }
  }

  lemma FoundIsHeader(line: string) returns (p: string)
    requires HeaderHex(line).Some?
    ensures HeaderOf(line, p, HeaderHex(line).value)
  {
    hide AfterColon, IsWord;
    var rest := line[3..];
    var k := AfterColon(rest);
    p := rest[..k];
    assert line == "// " + rest && rest == rest[..k] + rest[k..];
  }

  lemma HeaderIsFound(line: string, p: string, hex: string)
    requires HeaderOf(line, p, hex)
    ensures HeaderHex(line) == Some(hex)
  {
    hide AfterColon, IsWord;
    var rest := p + hex;
    assert line[..3] == "// " && line[3..] == rest;
    ColonSplit(p, hex);
    assert rest[..|p|] == p && rest[|p|..] == hex;
  }

  /** The function finds exactly what the pattern allows. */
  lemma HeaderHexIff(line: string, hex: string)
    ensures HeaderHex(line) == Some(hex) <==> exists p :: HeaderOf(line, p, hex)
  {
    hide HeaderHex, HeaderOf;
    if HeaderHex(line) == Some(hex) {
      var p := FoundIsHeader(line);
      assert HeaderOf(line, p, hex);
    }
    if exists p :: HeaderOf(line, p, hex) {
      var p :| HeaderOf(line, p, hex);
      HeaderIsFound(line, p, hex);
    }
  }

  /** A header ends in a hex digit. */
  lemma HeaderEnds(line: string)
    requires HeaderHex(line).Some?
    ensures line != "" && IsHex(line[|line| - 1])
  {
    HeaderHexIff(line, HeaderHex(line).value);
    var p :| HeaderOf(line, p, HeaderHex(line).value);
  }

  predicate IsTotal(line: string) { |line| >= 9 && line[..9] == "// Total:" }

  /** A total is a line with these nine characters in front. */
  lemma TotalIff(line: string)
    ensures IsTotal(line) <==> |line| >= 9 && line == "// Total:" + line[9..]
  {
    if |line| >= 9 {
      assert line == line[..9] + line[9..];
    }
  }

  const SEP := "// === "

  predicate IsSep(line: string) { |line| >= 7 && line[..7] == SEP }

  lemma HeaderFourth(line: string)
    requires HeaderHex(line).Some?
    ensures |line| > 3 && (IsIdent(line[3]) || IsHex(line[3]))
  {
    var hex := HeaderHex(line).value;
    HeaderHexIff(line, hex);
    var p :| HeaderOf(line, p, hex);
    assert line[3] == (p + hex)[0];
    if p != "" {
      assert p[..|p| - 1][0] == p[0];
    }
  }

  /** No line that begins like a separator is a header: an address has no '=' in it. */
  lemma SepIsNoHeader(line: string)
    requires IsSep(line)
    ensures HeaderHex(line).None?
  {
    assert line[3] == line[..7][3];
    if HeaderHex(line).Some? {
      HeaderFourth(line);
    }
  }

  // ---------------------------------------------------------------- names

  predicate NameChar(c: char) { IsIdent(c) || c == ':' || c == '~' || c == '<' || c == '>' || c == ',' }

  /** Letters, digits and these six characters make up a name. */
  lemma NameCharIff(c: char)
    ensures NameChar(c) <==> 'a' <= c <= 'z' || 'A' <= c <= 'Z' || '0' <= c <= '9' || c in "_:~<>,"
  {
  }

  /** A '(' that a name attaches to with nothing in between. */
  predicate CallParen(sig: string, i: nat)
  {
    0 < i < |sig| && sig[i] == '(' && (IsIdent(sig[i - 1]) || sig[i - 1] == '>')
  }

  const PRIMITIVES: set<string> := {
    "void", "bool", "char", "uchar", "wchar_t", "short", "ushort", "int", "uint", "long", "ulong", "longlong",
    "ulonglong", "float", "double", "byte", "code", "undefined", "undefined1", "undefined2", "undefined4", "undefined8"}

  predicate IsPrimitive(name: string) { name in PRIMITIVES }

  /** The type names that are never taken for a function's. */
  lemma PrimitiveIff(name: string)
    ensures IsPrimitive(name) <==>
            || name == "void" || name == "bool" || name == "char" || name == "uchar" || name == "wchar_t" || name == "short"
            || name == "ushort" || name == "int" || name == "uint" || name == "long" || name == "ulong" || name == "longlong"
            || name == "ulonglong" || name == "float" || name == "double" || name == "byte" || name == "code"
            || name == "undefined" || name == "undefined1" || name == "undefined2" || name == "undefined4" || name == "undefined8"
  {
  }

  /** sig[j..i] is the whole run of name characters before the first call parenthesis, at i. */
  ghost predicate NameSpan(sig: string, j: nat, i: nat)
  {
    && j <= i && CallParen(sig, i) && (forall k :: 0 <= k < i ==> !CallParen(sig, k))
    && (forall k :: j <= k < i ==> NameChar(sig[k])) && (j > 0 ==> !NameChar(sig[j - 1]))
  }

  function FirstParen(sig: string, from: nat): (i: nat)
    requires from <= |sig|
    ensures from <= i <= |sig|
    ensures i < |sig| ==> CallParen(sig, i)
    ensures forall k :: from <= k < i ==> !CallParen(sig, k)
    decreases |sig| - from
  {
    if from == |sig| || CallParen(sig, from) then from else FirstParen(sig, from + 1)
  }

  function NameStart(sig: string, end: nat): (j: nat)
    requires end <= |sig|
    ensures j <= end && (forall k :: j <= k < end ==> NameChar(sig[k])) && (j > 0 ==> !NameChar(sig[j - 1]))
  {
    if end > 0 && NameChar(sig[end - 1]) then NameStart(sig, end - 1) else end
  }

  /** The name in a signature line, or "" when nothing looks like one. */
  function FuncName(sig: string): (name: string)
    ensures forall c :: c in name ==> NameChar(c)
  {
    var i := FirstParen(sig, 0);
    if i == |sig| then ""
    else
      var name := sig[NameStart(sig, i)..i];
      if IsPrimitive(name) then "" else name
  }

  /** The span of the name is determined by the line, and FuncName takes it unless it is a primitive type. */
  lemma NameIsSpan(sig: string, j: nat, i: nat)
    requires NameSpan(sig, j, i)
    ensures sig[j..i] != "" && FuncName(sig) == if IsPrimitive(sig[j..i]) then "" else sig[j..i]
  {
    SameStart(sig, i, j);
    SameParen(sig, 0, i);
  }

  lemma {:induction false} SameStart(sig: string, end: nat, j: nat)
    requires j <= end <= |sig|
    requires (forall k :: j <= k < end ==> NameChar(sig[k])) && (j > 0 ==> !NameChar(sig[j - 1]))
    ensures NameStart(sig, end) == j
    decreases end
  {
    if j < end {
      SameStart(sig, end - 1, j);
    }
  }

  lemma {:induction false} SameParen(sig: string, from: nat, i: nat)
    requires from <= i && CallParen(sig, i) && forall k :: from <= k < i ==> !CallParen(sig, k)
    ensures FirstParen(sig, from) == i
    decreases i - from
  {
    if from < i {
      SameParen(sig, from + 1, i);
    }
  }

  function TrimLeftOf(s: string, cut: string): string
  {
    if s != "" && s[0] in cut then TrimLeftOf(s[1..], cut) else s
  }

  lemma NotCut(c: char)
    requires NameChar(c)
    ensures c !in "*& \t" && !IsSpace(c)
  {
  }

  lemma NothingCut(s: string, cut: string)
    requires s != "" && s[0] !in cut
    ensures TrimLeftOf(s, cut) == s
  {
  }

  lemma NoBlanks(s: string)
    requires s != "" && !IsSpace(s[0]) && !IsSpace(s[|s| - 1])
    ensures TrimSpace(s) == s
  {
    assert TrimLeft(s) == s && TrimRight(s) == s;
  }

  lemma NothingToCut(head: string, start: nat)
    requires start < |head| && forall k :: start <= k < |head| ==> NameChar(head[k])
    ensures var name := head[start..]; TrimSpace(name) == name && TrimLeftOf(name, "*& \t") == name
  {
    hide NameChar, IsSpace, TrimSpace, TrimLeftOf;
    var name := head[start..];
    NotCut(name[0]);
    NotCut(name[|name| - 1]);
    NoBlanks(name);
    NothingCut(name, "*& \t");
  }

  lemma CallChars()
    ensures forall c :: IsIdent(c) || c == '>' ==> NameChar(c)
  {
  }

  lemma StripChars()
    ensures forall c :: c == ' ' || c == '\t' || c == '*' || c == '&' ==> !NameChar(c)
  {
  }

  method ExtractFuncName(sig: string) returns (name: string)
    ensures name == FuncName(sig)
  {
    hide IsPrimitive, TrimSpace, TrimLeftOf, NameChar, IsIdent, IsSpace;
    var paren := -1;
    var i := 0;
    while i < |sig|
      invariant 0 <= i <= |sig| && paren == -1
      invariant FirstParen(sig, 0) == FirstParen(sig, i)
    {
      if sig[i] == '(' && i > 0 {
        var c := sig[i - 1];
        if IsIdent(c) || c == '>' {
          paren := i;
          break;
        }
      }
      i := i + 1;
    }
    if paren < 0 {
      return "";
    }
    var head := sig[..paren];
    StripChars();
    var end := |head|;
    while end > 0 && (head[end - 1] == ' ' || head[end - 1] == '\t' || head[end - 1] == '*' || head[end - 1] == '&')
      invariant 0 <= end <= |head| && forall k :: end <= k < |head| ==> !NameChar(head[k])
    {
      end := end - 1;
    }
    CallChars();
    assert NameChar(head[|head| - 1]);
    var start := end;
    while start > 0 && NameChar(head[start - 1])
      invariant 0 <= start <= end == |head|
      invariant NameStart(sig, end) == NameStart(sig, start)
      invariant forall k :: start <= k < end ==> NameChar(head[k])
    {
      start := start - 1;
    }
    assert start < end;
    name := head[start..end];
    assert name == sig[NameStart(sig, paren)..paren];
    NothingToCut(head, start);
    name := TrimSpace(name);
    name := TrimLeftOf(name, "*& \t");
    if name == "" || IsPrimitive(name) {
      return "";
    }
  }

  /** A name Ghidra made up from the address. */
  predicate IsAnon(name: string)
  {
    StartsWith(name, "FUN_") || StartsWith(name, "DAT_") || StartsWith(name, "LAB_") || StartsWith(name, "UNK_")
    || StartsWith(name, "SUB_")
  }

  /** A name that says nothing but where the symbol is. */
  lemma AnonIff(name: string)
    ensures IsAnon(name) <==>
            && |name| >= 4 && name[3] == '_'
            && (name[..3] == "FUN" || name[..3] == "DAT" || name[..3] == "LAB" || name[..3] == "UNK" || name[..3] == "SUB")
  {
    if |name| >= 4 {
      assert name[..4] == name[..3] + [name[3]];
    }
  }

  function Decimal(n: nat): (s: string)
    ensures forall c :: c in s ==> '0' <= c <= '9'
  {
    var d := Texts.Digits(n);
    seq(|d|, k requires 0 <= k < |d| => d[k] as char)
  }

  // ---------------------------------------------------------------- text and its lines

  predicate OneLine(l: string) { '\n' !in l }

  function Text(ls: seq<string>): (t: string)
  {
    if ls == [] then "" else ls[0] + "\n" + Text(ls[1..])
  }

  lemma {:induction false} TextConcat(a: seq<string>, b: seq<string>)
    ensures Text(a + b) == Text(a) + Text(b)
  {
    if a == [] {
      assert a + b == b;
    } else {
      TextConcat(a[1..], b);
      assert (a + b)[1..] == a[1..] + b && (a + b)[0] == a[0];
    }
  }

  lemma TextSnoc(a: seq<string>, l: string)
    ensures Text(a + [l]) == Text(a) + l + "\n"
  {
    TextConcat(a, [l]);
    assert [l][1..] == [] && Text([l]) == l + "\n";
  }

  /** The end of the line that starts at i, its '\n' included. */
  function LineEnd(t: string, i: nat): (e: nat)
    requires i <= |t|
    ensures i <= e <= |t| && (i < |t| ==> i < e)
    decreases |t| - i
  {
    if i == |t| then i else if t[i] == '\n' then i + 1 else LineEnd(t, i + 1)
  }

  /** The lines of a text as a reader splits them, each with its '\n', the last perhaps without. */
  function Lines(t: string): (ls: seq<string>)
    decreases |t|
  {
    if t == "" then [] else [t[..LineEnd(t, 0)]] + Lines(t[LineEnd(t, 0)..])
  }

  lemma {:induction false} LineEndAt(l: string, rest: string, i: nat)
    requires OneLine(l) && i <= |l|
    ensures LineEnd(l + "\n" + rest, i) == |l| + 1
    decreases |l| - i
  {
    if i < |l| {
      assert l[i] in l;
      LineEndAt(l, rest, i + 1);
    }
  }

  function Ended(ls: seq<string>): (es: seq<string>)
    ensures |es| == |ls|
  {
    seq(|ls|, k requires 0 <= k < |ls| => ls[k] + "\n")
  }

  lemma {:induction false} LinesOfText(ls: seq<string>)
    requires forall k :: 0 <= k < |ls| ==> OneLine(ls[k])
    ensures Lines(Text(ls)) == Ended(ls)
  {
    if ls != [] {
      var rest := Text(ls[1..]);
      LineEndAt(ls[0], rest, 0);
      var t := ls[0] + "\n" + rest;
      assert t[..|ls[0]| + 1] == ls[0] + "\n" && t[|ls[0]| + 1..] == rest;
      LinesOfText(ls[1..]);
    }
  }
}
