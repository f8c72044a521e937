/** The NSIS string codes byte by byte, in plain numbers, and the names they stand for. */
module NsisWire {
  import opened Common
  import opened Bytes
  import opened Texts
  import opened NsisStrings

  /** Which ids have which name. */
  lemma CsidlsOf(id: int)
    ensures Csidl(id) == "DESKTOP" <==> id in {0, 16, 25}
    ensures Csidl(id) == "SMPROGRAMS" <==> id in {2, 23}
    ensures Csidl(id) == "DOCUMENTS" <==> id in {5, 46}
    ensures Csidl(id) == "FAVORITES" <==> id in {6, 31}
    ensures Csidl(id) == "SMSTARTUP" <==> id in {7, 24}
    ensures Csidl(id) == "RECENT" <==> id == 8
    ensures Csidl(id) == "SENDTO" <==> id == 9
    ensures Csidl(id) == "STARTMENU" <==> id in {11, 22}
  {
  }

  lemma CsidlsOf2(id: int)
    ensures Csidl(id) == "MUSIC" <==> id in {13, 53}
    ensures Csidl(id) == "VIDEOS" <==> id in {14, 55}
    ensures Csidl(id) == "NETHOOD" <==> id == 19
    ensures Csidl(id) == "FONTS" <==> id == 20
    ensures Csidl(id) == "TEMPLATES" <==> id in {21, 45}
    ensures Csidl(id) == "APPDATA" <==> id in {26, 35}
    ensures Csidl(id) == "PRINTHOOD" <==> id == 27
    ensures Csidl(id) == "LOCALAPPDATA" <==> id == 28
  {
  }

  lemma CsidlsOf3(id: int)
    ensures Csidl(id) == "ALTSTARTUP" <==> id == 29
    ensures Csidl(id) == "INTERNET_CACHE" <==> id == 32
    ensures Csidl(id) == "COOKIES" <==> id == 33
    ensures Csidl(id) == "HISTORY" <==> id == 34
    ensures Csidl(id) == "WINDIR" <==> id == 36
    ensures Csidl(id) == "SYSDIR" <==> id == 37
    ensures Csidl(id) == "PROGRAMFILES" <==> id == 38
    ensures Csidl(id) == "PICTURES" <==> id in {39, 54}
  {
  }

  lemma CsidlsOf4(id: int)
    ensures Csidl(id) == "PROFILE" <==> id == 40
    ensures Csidl(id) == "COMMONFILES" <==> id == 43
    ensures Csidl(id) == "ADMINTOOLS" <==> id in {47, 48}
    ensures Csidl(id) == "RESOURCES" <==> id == 56
    ensures Csidl(id) == "RESOURCES_LOCALIZED" <==> id == 57
    ensures Csidl(id) == "CDBURN_AREA" <==> id == 59
  {
  }

  /** A dollar sign and the folder: the user's own, or where that has no name that of all users. */
  function FolderText(user: nat, all: nat): seq<byte>
  {
    if Csidl(user) != "" then [36] + Str(Csidl(user))
    else if Csidl(all) != "" then [36] + Str(Csidl(all))
    else [36, 83, 72, 69, 76, 76] + (Itoa(user) + ([95] + Itoa(all)))
  }

  /** $0 to $9, $R0 to $R9, five names, and $VAR with the number from 25 on. */
  function VariableText(n: nat): seq<byte>
  {
    if n <= 9 then [36, 48 + n]
    else if n <= 19 then [36, 82, 38 + n]
    else if n == 20 then [36, 67, 77, 68, 76, 73, 78, 69]
    else if n == 21 then [36, 73, 78, 83, 84, 68, 73, 82]
    else if n == 22 then [36, 79, 85, 84, 68, 73, 82]
    else if n == 23 then [36, 69, 88, 69, 68, 73, 82]
    else if n == 24 then [36, 76, 65, 78, 71, 85, 65, 71, 69]
    else [36, 86, 65, 82] + Itoa(n)
  }

  lemma FolderIsShell(user: nat, all: nat)
    requires user < 128
    ensures ShellName(user + 128 * all) == FolderText(user, all)
  {
    hide Csidl, Itoa;
    Split(user, all);
    assert Str("$") == [36] && Str("$SHELL") == [36, 83, 72, 69, 76, 76] && Str("_") == [95];
    var a, b, c, d := [36, 83, 72, 69, 76, 76], Itoa(user), [95], Itoa(all);
    assert a + b + c + d == a + (b + (c + d));
  }

  lemma Split(user: nat, all: nat)
    requires user < 128
    ensures (user + 128 * all) % 128 == user && (user + 128 * all) / 128 == all
  {
  }

  lemma VariableIsVar(n: nat)
    ensures VarName(n) == VariableText(n)
  {
    hide Itoa;
    if n <= 19 {
      OneDigit(n % 10);
      assert Str("$") == [36] && Str("$R") == [36, 82];
    } else if n <= 24 {
      FiveNames(n);
    } else {
      assert Str("$VAR") == [36, 86, 65, 82];
    }
  }

  lemma FiveNames(n: nat)
    requires 20 <= n <= 24
    ensures VarName(n) == VariableText(n)
  {
  }

  lemma OneDigit(d: nat)
    requires d <= 9
    ensures Itoa(d) == [48 + d]
  {
  }

  /** The text of a code with the parameter bytes a and b, of which seven bits each count, the low ones first. */
  function CodeBytes(code: byte, a: byte, b: byte): seq<byte>
    requires 2 <= code <= 4
  {
    var low, high := a as nat % 128, b as nat % 128;
    if code == 2 then FolderText(low, high)
    else if code == 3 then VariableText(low + 128 * high)
    else [36, 76, 65, 78, 71] + Itoa(low + 128 * high)
  }

  lemma CodeIsBytes(code: byte, a: byte, b: byte)
    requires 2 <= code <= 4
    ensures CodeText(code, AnsiParam(a, b)) == CodeBytes(code, a, b)
    ensures CodeText(code, WideParam(a as nat + 256 * b as nat)) == CodeBytes(code, a, b)
  {
    hide ShellName, VarName, Itoa, FolderText, VariableText, AnsiParam, WideParam;
    LowAndHigh(a, b);
    var low, high := a as nat % 128, b as nat % 128;
    FolderIsShell(low, high);
    VariableIsVar(low + 128 * high);
    assert Str("$LANG") == [36, 76, 65, 78, 71];
  }

  /** What the character or code at i contributes in a table of single bytes, and where the next one is. */
  lemma ByteCodes(tab: seq<byte>, i: nat)
    requires i < |tab|
    ensures tab[i] == 0 ==> ResolveAnsi(tab, i) == []
    ensures tab[i] == 1 && i + 1 < |tab| ==> ResolveAnsi(tab, i) == [tab[i + 1]] + ResolveAnsi(tab, i + 2)
    ensures 2 <= tab[i] <= 4 && i + 2 < |tab| ==>
              ResolveAnsi(tab, i) == CodeBytes(tab[i], tab[i + 1], tab[i + 2]) + ResolveAnsi(tab, i + 3)
    ensures 5 <= tab[i] < 32 ==> ResolveAnsi(tab, i) == [95] + ResolveAnsi(tab, i + 1)
    ensures tab[i] >= 32 ==> ResolveAnsi(tab, i) == [tab[i]] + ResolveAnsi(tab, i + 1)
    ensures 1 <= tab[i] <= 4 && i + (if tab[i] == 1 then 1 else 2) >= |tab| ==> ResolveAnsi(tab, i) == []
  {
    hide CodeText, CodeBytes, AnsiParam;
    if i + 2 < |tab| && 2 <= tab[i] <= 4 {
      CodeIsBytes(tab[i], tab[i + 1], tab[i + 2]);
    }
  }

  /** The same in a table of two-byte units, where each character is written out in UTF-8. */
  lemma UnitCodes(tab: seq<byte>, i: nat)
    requires i + 1 < |tab|
    ensures U16(tab, i) == 0 ==> ResolveWide(tab, i) == []
    ensures U16(tab, i) == 1 && i + 3 < |tab| ==> ResolveWide(tab, i) == Utf8(U16(tab, i + 2)) + ResolveWide(tab, i + 4)
    ensures 2 <= U16(tab, i) <= 4 && i + 3 < |tab| ==>
              ResolveWide(tab, i) == CodeBytes(U16(tab, i), tab[i + 2], tab[i + 3]) + ResolveWide(tab, i + 4)
    ensures 5 <= U16(tab, i) < 32 ==> ResolveWide(tab, i) == [95] + ResolveWide(tab, i + 2)
    ensures U16(tab, i) >= 32 ==> ResolveWide(tab, i) == Utf8(U16(tab, i)) + ResolveWide(tab, i + 2)
    ensures 1 <= U16(tab, i) <= 4 && i + 3 >= |tab| ==> ResolveWide(tab, i) == []
  {
    hide CodeText, CodeBytes, WideParam, Utf8;
    if i + 3 < |tab| && 2 <= U16(tab, i) <= 4 {
      CodeIsBytes(U16(tab, i), tab[i + 2], tab[i + 3]);
    }
  }

  lemma LowAndHigh(a: byte, b: byte)
    ensures WideParam(a as nat + 256 * b as nat) == a as nat % 128 + 128 * (b as nat % 128) == AnsiParam(a, b)
  {
  }

  /** UTF-8: the bits of the character, six in each byte after the first, the first saying how many there are. */
  lemma Utf8Bits(r: nat)
    requires r < 65536
    ensures r < 128 ==> Utf8(r) == [r]
    ensures 128 <= r < 2048 ==> var s := Utf8(r);
              |s| == 2 && 192 <= s[0] < 224 && 128 <= s[1] < 192 && 64 * (s[0] as int - 192) + (s[1] as int - 128) == r
    ensures r >= 2048 && !(55296 <= r < 57344) ==> var s := Utf8(r);
              |s| == 3 && 224 <= s[0] < 240 && 128 <= s[1] < 192 && 128 <= s[2] < 192
              && 4096 * (s[0] as int - 224) + 64 * (s[1] as int - 128) + (s[2] as int - 128) == r
    ensures 55296 <= r < 57344 ==> Utf8(r) == [239, 191, 189]
  {
  }
}
