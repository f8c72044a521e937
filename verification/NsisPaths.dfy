/**
 Turning the path strings of an installer into paths inside the output directory. A path is a
 list of components; the file system is rooted, so a cleaned path has no "." or ".." in it.
 */
module NsisPaths {
  import opened Common
  import opened Chars
  import opened NsisStrings

  type Path = seq<string>

  // ---------------------------------------------------------------- strings

  function TrimSlashes(s: string): (t: string)
    ensures forall c :: c in t ==> c in s
  {
    if s != "" && s[0] == '/' then TrimSlashes(s[1..]) else s
  }

  function ForwardSlashes(s: string): (t: string)
    ensures |t| == |s|
    ensures '\\' !in t
  {
    seq(|s|, i requires 0 <= i < |s| => if s[i] == '\\' then '/' else s[i])
  }

  /** The pieces between slashes; there is always at least one. */
  function Split(s: string): (parts: seq<string>)
    ensures |parts| > 0
    ensures forall i :: 0 <= i < |parts| ==> '/' !in parts[i]
    ensures '\\' !in s ==> forall i :: 0 <= i < |parts| ==> '\\' !in parts[i]
  {
    if s == "" then [""]
    else
      var rest := Split(s[1..]);
      if s[0] == '/' then [""] + rest else [[s[0]] + rest[0]] + rest[1..]
  }

  function Join(parts: seq<string>): string
  {
    if |parts| == 0 then ""
    else if |parts| == 1 then parts[0]
    else parts[0] + "/" + Join(parts[1..])
  }

  /** Upper-casing as far as comparison with ASCII names can tell: two other letters map into ASCII. */
  function Upper(c: char): char
  {
    if 'a' <= c <= 'z' then (c as int - 32) as char
    else if c == '\U{017F}' then 'S'
    else if c == '\U{0131}' then 'I'
    else c
  }

  function ToUpper(s: string): (t: string)
    ensures |t| == |s|
    ensures forall i :: 0 <= i < |s| ==> t[i] == Upper(s[i])
  {
    seq(|s|, i requires 0 <= i < |s| => Upper(s[i]))
  }

  // ---------------------------------------------------------------- components

  /** A component that names something: it neither goes up, nor stays, nor contains a separator. */
  predicate Plain(c: string)
  {
    c != "" && c != "." && c != ".." && '/' !in c && '\\' !in c
  }

  predicate PlainPath(p: Path) { forall i :: 0 <= i < |p| ==> Plain(p[i]) }

  /** Cleaning a rooted path: ".." at the root stays at the root. */
  function CleanOnto(acc: Path, parts: seq<string>): (p: Path)
    requires PlainPath(acc)
    requires forall i :: 0 <= i < |parts| ==> '/' !in parts[i] && '\\' !in parts[i]
    ensures PlainPath(p)
    decreases |parts|
  {
    if |parts| == 0 then acc
    else if parts[0] == "" || parts[0] == "." then CleanOnto(acc, parts[1..])
    else if parts[0] == ".." then CleanOnto(if |acc| > 0 then acc[..|acc| - 1] else [], parts[1..])
    else CleanOnto(acc + [parts[0]], parts[1..])
  }

  /** Cleaning a relative path: leading ".." components are kept. */
  function CleanRelOnto(acc: seq<string>, parts: seq<string>): seq<string>
    decreases |parts|
  {
    if |parts| == 0 then acc
    else if parts[0] == "" || parts[0] == "." then CleanRelOnto(acc, parts[1..])
    else if parts[0] == ".." && |acc| > 0 && acc[|acc| - 1] != ".." then
      CleanRelOnto(acc[..|acc| - 1], parts[1..])
    else CleanRelOnto(acc + [parts[0]], parts[1..])
  }

  /** Joining relative texts cleans the result; nothing left is the current directory. */
  function JoinText(dir: seq<string>, name: string): string
  {
    var parts := CleanRelOnto([], dir + Split(name));
    if |parts| == 0 then "." else Join(parts)
  }

  lemma {:induction false} CleanPlain(acc: Path, parts: seq<string>)
    requires PlainPath(acc) && PlainPath(parts)
    ensures CleanOnto(acc, parts) == acc + parts
    decreases |parts|
  {
    if |parts| == 0 {
      assert acc + parts == acc;
    } else {
      assert Plain(parts[0]);
      CleanPlain(acc + [parts[0]], parts[1..]);
      assert acc + [parts[0]] + parts[1..] == acc + parts;
    }
  }

  lemma {:induction false} CleanRelPlain(acc: seq<string>, parts: seq<string>)
    requires PlainPath(parts)
    ensures CleanRelOnto(acc, parts) == acc + parts
    decreases |parts|
  {
    if |parts| == 0 {
      assert acc + parts == acc;
    } else {
      assert Plain(parts[0]);
      CleanRelPlain(acc + [parts[0]], parts[1..]);
      assert acc + [parts[0]] + parts[1..] == acc + parts;
    }
  }

  // ---------------------------------------------------------------- sanitizeRel

  predicate IsShellName(s: string)
  {
    s != "" && exists id :: 0 <= id < 64 && Csidl(id) == s
  }

  predicate Stripped(c: char) { c == '.' || c == '/' || c == '\\' || c == ':' }

  function Strip(s: string): (t: string)
    ensures forall c :: c in t ==> !Stripped(c)
  {
    if s == "" then "" else (if Stripped(s[0]) then "" else [s[0]]) + Strip(s[1..])
  }

  function AfterPrefix(s: string, p: string): string { if p <= s then s[|p|..] else s }

  /** A whole segment that is a variable becomes one plain name, or nothing for the install root. */
  function VarSegment(seg: string): (t: string)
    requires '/' !in seg && '\\' !in seg
    ensures t == "" || Plain(t)
  {
    var up := ToUpper(seg);
    if up == "$INSTDIR" || up == "$OUTDIR" || up == "$EXEDIR" then ""
    else if up == "$PLUGINSDIR" then "_plugins"
    else if up == "$TEMP" || up == "$PLUGINSDIR_TEMP" then "_temp"
    else
      var name := AfterPrefix(seg, "$");
      if IsShellName(ToUpper(name)) then
        UpperKeepsPlain(name);
        NamedPlain("_shell_", ToUpper(name));
        "_shell_" + ToUpper(name)
      else
        var rest := AfterPrefix(name, "VAR");
        var tail := Strip(if rest != name && rest != "" then rest else "_" + name);
        NamedPlain("_var", tail);
        "_var" + tail
  }

  lemma UpperKeepsPlain(s: string)
    requires '/' !in s && '\\' !in s
    ensures '/' !in ToUpper(s) && '\\' !in ToUpper(s)
  {
  }

  lemma NamedPlain(prefix: string, s: string)
    requires prefix == "_shell_" || prefix == "_var"
    requires '/' !in s && '\\' !in s
    ensures Plain(prefix + s)
  {
    assert (prefix + s)[0] == '_';
  }

  /** What one segment contributes: nothing, or one plain component. */
  function Segment(raw: string): (parts: seq<string>)
    requires '/' !in raw && '\\' !in raw
    ensures |parts| <= 1 && PlainPath(parts)
  {
    TrimmedSegment(TrimSpace(raw))
  }

  function TrimmedSegment(seg: string): (parts: seq<string>)
    requires '/' !in seg && '\\' !in seg
    ensures |parts| <= 1 && PlainPath(parts)
  {
    if seg == "" || seg == "." || seg == ".." then []
    else if StartsWith(seg, "$") then
      var v := VarSegment(seg);
      if v == "" then [] else [v]
    else [seg]
  }

  function Segments(parts: seq<string>): (p: Path)
    requires forall i :: 0 <= i < |parts| ==> '/' !in parts[i] && '\\' !in parts[i]
    ensures PlainPath(p)
  {
    if |parts| == 0 then [] else Segment(parts[0]) + Segments(parts[1..])
  }

  /** A drive letter is one byte followed by a colon. */
  function DropDrive(s: string): (t: string)
    ensures forall c :: c in t ==> c in s
  {
    if HasDrive(s) then s[2..] else s
  }

  predicate HasDrive(s: string) { |s| >= 2 && s[0] < '\U{0080}' && s[1] == ':' }

  /** The text of a path with slashes only, and without blanks around it, drive and root. */
  function Uprooted(p: string): (t: string)
    ensures '\\' !in t
  {
    TrimSlashes(DropDrive(TrimSpace(ForwardSlashes(p))))
  }

  /** The components of such a text. */
  function RelOf(t: string): (r: Path)
    requires '\\' !in t
    ensures PlainPath(r)
  {
    var parts := Segments(Split(t));
    CleanRelPlain([], parts);
    assert [] + parts == parts;
    CleanRelOnto([], parts)
  }

  function SanitizeRel(p: string): (r: Path)
    ensures PlainPath(r)
  {
    RelOf(Uprooted(p))
  }

  lemma SegmentsStep(parts: seq<string>, segs: seq<string>, i: nat)
    requires i < |segs|
    requires forall k :: 0 <= k < |segs| ==> '/' !in segs[k] && '\\' !in segs[k]
    ensures parts + Segments(segs[i..]) == parts + Segment(segs[i]) + Segments(segs[i + 1..])
  {
    hide Segment;
    assert segs[i..][1..] == segs[i + 1..];
  }

  lemma NoSegments(segs: seq<string>)
    ensures segs[|segs|..] == [] && Segments([]) == [] && segs[0..] == segs
  {
  }

  method SanitizeRelLoop(p: string) returns (r: Path)
    ensures r == SanitizeRel(p)
  {
    hide Segment, Segments, TrimSpace, TrimSlashes, DropDrive, ForwardSlashes, Split, CleanRelOnto, PlainPath;
    var t := TrimSlashes(DropDrive(TrimSpace(ForwardSlashes(p))));
    var segs := Split(t);
    var parts: seq<string> := [];
    for i := 0 to |segs|
      invariant parts + Segments(segs[i..]) == Segments(segs)
    {
      SegmentsStep(parts, segs, i);
      parts := parts + Segment(segs[i]);
    }
    NoSegments(segs);
    assert parts + Segments(segs[|segs|..]) == parts;
    r := CleanRelOnto([], parts);
  }

  // ---------------------------------------------------------------- what cleaning keeps

  /** A component with no blank at either end that is not a variable. */
  predicate Tidy(c: string) { Plain(c) && !IsSpace(c[0]) && !IsSpace(c[|c| - 1]) && c[0] != '$' }

  lemma Untrimmed(s: string)
    requires s == "" || (!IsSpace(s[0]) && !IsSpace(s[|s| - 1]))
    ensures TrimSpace(s) == s
  {
    hide IsSpace;
    assert TrimLeft(s) == s;
    assert TrimRight(s) == s;
  }

  lemma {:induction false} SplitJoins(p: seq<string>)
    requires |p| > 0 && forall i :: 0 <= i < |p| ==> '/' !in p[i]
    ensures Split(Join(p)) == p
    decreases |p|, |p[0]|
  {
    var s := Join(p);
    if |p| == 1 {
      if p[0] != "" {
        SplitJoins([p[0][1..]]);
        assert s[1..] == Join([p[0][1..]]);
        assert [p[0][0]] + p[0][1..] == p[0];
      }
    } else if p[0] == "" {
      SplitJoins(p[1..]);
      assert s == "/" + Join(p[1..]) && s[1..] == Join(p[1..]);
      assert [""] + p[1..] == p;
    } else {
      var q := [p[0][1..]] + p[1..];
      assert q[1..] == p[1..];
      SplitJoins(q);
      assert s == [p[0][0]] + (p[0][1..] + "/" + Join(p[1..])) && s[1..] == Join(q);
      assert [p[0][0]] + p[0][1..] == p[0];
      assert [[p[0][0]] + q[0]] + q[1..] == p;
    }
  }

  lemma {:induction false} JoinEnds(p: seq<string>)
    requires |p| > 0 && forall i :: 0 <= i < |p| ==> Tidy(p[i])
    ensures var s := Join(p);
            && |s| > 0 && p[0] != "" && s[0] == p[0][0] && !IsSpace(s[|s| - 1]) && '\\' !in s
            && (|s| >= 2 ==> s[1] == if |p[0]| >= 2 then p[0][1] else '/')
    decreases |p|
  {
    hide IsSpace;
    if |p| > 1 {
      JoinEnds(p[1..]);
    }
  }

  lemma TidySegment(c: string)
    requires Tidy(c)
    ensures '/' !in c && '\\' !in c && Segment(c) == [c]
  {
    hide VarSegment, IsSpace;
    Untrimmed(c);
    assert !StartsWith(c, "$");
    hide TrimSpace;
  }

  lemma {:induction false} SegmentsKeep(p: seq<string>)
    requires forall i :: 0 <= i < |p| ==> Tidy(p[i])
    ensures (forall i :: 0 <= i < |p| ==> '/' !in p[i] && '\\' !in p[i]) && Segments(p) == p
    decreases |p|
  {
    hide Tidy, Segment;
    if |p| > 0 {
      TidySegment(p[0]);
      SegmentsKeep(p[1..]);
      assert forall i :: 1 <= i < |p| ==> p[i] == p[1..][i - 1];
      assert [p[0]] + p[1..] == p;
    }
  }

  /** A relative path of tidy components stays as it is. */
  lemma SanitizeKeepsTidy(p: seq<string>)
    requires |p| > 0 && (forall i :: 0 <= i < |p| ==> Tidy(p[i])) && !HasDrive(p[0])
    ensures SanitizeRel(Join(p)) == p
  {
    hide Tidy, HasDrive, Join, Uprooted, RelOf;
    TidyUprooted(p);
    TidyRel(p);
  }

  lemma TidyUprooted(p: seq<string>)
    requires |p| > 0 && (forall i :: 0 <= i < |p| ==> Tidy(p[i])) && !HasDrive(p[0])
    ensures Uprooted(Join(p)) == Join(p)
  {
    hide Tidy, HasDrive, Join, TrimSpace, TrimSlashes, DropDrive, ForwardSlashes, IsSpace;
    JoinEnds(p);
    NoDrive(p);
    Untouched(Join(p));
    NotCut(Join(p));
  }

  lemma TidyRel(p: seq<string>)
    requires |p| > 0 && forall i :: 0 <= i < |p| ==> Tidy(p[i])
    ensures '\\' !in Join(p) && RelOf(Join(p)) == p
  {
    hide Tidy, Join, Split, Segments, CleanRelOnto;
    JoinEnds(p);
    SplitTidy(p);
    SegmentsKeep(p);
    TidyIsClean(p);
  }

  lemma NoDrive(p: seq<string>)
    requires |p| > 0 && (forall i :: 0 <= i < |p| ==> Tidy(p[i])) && !HasDrive(p[0])
    ensures var s := Join(p); s != "" && !HasDrive(s) && s[0] != '/' && !IsSpace(s[0])
  {
    hide Join, IsSpace;
    JoinEnds(p);
    assert Tidy(p[0]);
  }

  lemma NotCut(s: string)
    requires s != "" && !HasDrive(s) && s[0] != '/'
    ensures DropDrive(s) == s && TrimSlashes(s) == s
  {
    hide HasDrive;
  }

  lemma Untouched(s: string)
    requires s != "" && !IsSpace(s[0]) && !IsSpace(s[|s| - 1]) && '\\' !in s
    ensures ForwardSlashes(s) == s && TrimSpace(s) == s
  {
    Untrimmed(s);
  }

  lemma SplitTidy(p: seq<string>)
    requires |p| > 0 && forall i :: 0 <= i < |p| ==> Tidy(p[i])
    ensures Split(Join(p)) == p
  {
    hide Split, Join;
    SplitJoins(p);
  }

  lemma TidyIsClean(p: seq<string>)
    requires forall i :: 0 <= i < |p| ==> Tidy(p[i])
    ensures CleanRelOnto([], p) == p
  {
    CleanRelPlain([], p);
    assert [] + p == p;
  }

  /** Backslashes separate as slashes do. */
  lemma SeparatorsAlike(s: string)
    ensures SanitizeRel(s) == SanitizeRel(ForwardSlashes(s))
  {
    OnlyOnce(s);
    hide ForwardSlashes, TrimSpace, TrimSlashes, DropDrive, RelOf;
  }

  lemma OnlyOnce(s: string)
    ensures ForwardSlashes(ForwardSlashes(s)) == ForwardSlashes(s)
  {
  }

  /** A drive letter is dropped, and so are leading slashes, so that every path is relative. */
  lemma DriveDropped(d: char, s: string)
    requires d < '\U{0080}' && !IsSpace(d) && s != "" && !IsSpace(s[|s| - 1]) && d != '\\' && '\\' !in s
    ensures Uprooted([d, ':'] + s) == TrimSlashes(s)
  {
    hide TrimSpace, TrimSlashes, ForwardSlashes, IsSpace;
    var t := [d, ':'] + s;
    Untouched(t);
    assert t[2..] == s;
  }

  lemma SlashDropped(s: string)
    requires s != "" && !IsSpace(s[|s| - 1]) && '\\' !in s && s[0] != ':'
    ensures Uprooted(['/'] + s) == TrimSlashes(s)
  {
    RootStays(s);
    hide TrimSpace, TrimSlashes, ForwardSlashes, IsSpace, DropDrive;
    Untouched(['/'] + s);
    SlashTrimmed(s);
  }

  lemma RootStays(s: string)
    requires s != "" && !IsSpace(s[|s| - 1]) && '\\' !in s && s[0] != ':'
    ensures var t := ['/'] + s;
            t != "" && !IsSpace(t[0]) && !IsSpace(t[|t| - 1]) && '\\' !in t && DropDrive(t) == t
  {
    var t := ['/'] + s;
    assert t[|t| - 1] == s[|s| - 1] && t[1] == s[0] && t[0] == '/';
  }

  lemma SlashTrimmed(s: string)
    ensures TrimSlashes(['/'] + s) == TrimSlashes(s)
  {
    assert (['/'] + s)[1..] == s;
  }

  lemma NoBlank(d: char, s: string)
    requires d == '/' && s != ""
    ensures !IsSpace(d) && ([d] + s)[|s|] == s[|s| - 1]
  {
  }

  /** What a cleaned path has no component for: nothing, the same place, and the place above. */
  lemma NoSegment(c: string)
    requires c == "" || c == "." || c == ".."
    ensures Segment(c) == []
  {
    assert TrimSpace("") == "";
    if c != "" {
      Untrimmed(c);
    }
  }

  /** A variable, with nothing around it, in a piece of a path. */
  predicate IsVariable(c: string)
  {
    |c| > 1 && c[0] == '$' && !IsSpace(c[|c| - 1]) && '/' !in c && '\\' !in c
  }

  lemma VariableSegment(c: string)
    requires IsVariable(c)
    ensures Segment(c) == if VarSegment(c) == "" then [] else [VarSegment(c)]
  {
    VariableTrims(c);
    DollarStarts(c);
    hide VarSegment, IsSpace, TrimSpace, IsVariable, StartsWith;
  }

  lemma VariableTrims(c: string)
    requires IsVariable(c)
    ensures TrimSpace(c) == c && |c| > 1 && c[0] == '$' && '/' !in c && '\\' !in c
  {
    Untrimmed(c);
  }

  lemma DollarStarts(c: string)
    ensures |c| > 1 && c[0] == '$' ==> StartsWith(c, "$") && c != "" && c != "." && c != ".."
    ensures |c| > 1 && c[0] == '$' ==> AfterPrefix(c, "$") == c[1..]
  {
  }

  /** The variables of the install root vanish, whatever their case; two more have a directory of their own. */
  lemma RootVariables(c: string)
    requires IsVariable(c)
    ensures ToUpper(c) == "$INSTDIR" || ToUpper(c) == "$OUTDIR" || ToUpper(c) == "$EXEDIR" ==> Segment(c) == []
    ensures ToUpper(c) == "$PLUGINSDIR" ==> Segment(c) == ["_plugins"]
    ensures ToUpper(c) == "$TEMP" || ToUpper(c) == "$PLUGINSDIR_TEMP" ==> Segment(c) == ["_temp"]
  {
    VariableSegment(c);
    hide Segment, ToUpper, IsSpace, IsShellName, AfterPrefix, Strip;
  }

  /** A shell folder becomes "_shell_" and its name in capitals. */
  lemma FolderVariable(c: string, id: int)
    requires IsVariable(c) && 0 <= id < 64 && ToUpper(c[1..]) == Csidl(id) != ""
    requires ToUpper(c) != "$TEMP" && ToUpper(c) != "$PLUGINSDIR_TEMP" && ToUpper(c) != "$INSTDIR"
    requires ToUpper(c) != "$OUTDIR" && ToUpper(c) != "$EXEDIR" && ToUpper(c) != "$PLUGINSDIR"
    ensures Segment(c) == ["_shell_" + Csidl(id)]
  {
    assert IsShellName(ToUpper(c[1..]));
    hide Segment, ToUpper, IsSpace, Csidl, AfterPrefix, Strip, IsShellName, StartsWith;
    VariableSegment(c);
    DollarStarts(c);
  }

  /** A numbered variable becomes "_var" and its number, any other "_var_" and its name, without dots, slashes and colons. */
  lemma OtherVariable(c: string, rest: string)
    requires IsVariable(c) && !IsShellName(ToUpper(c[1..]))
    requires ToUpper(c) != "$TEMP" && ToUpper(c) != "$PLUGINSDIR_TEMP" && ToUpper(c) != "$INSTDIR"
    requires ToUpper(c) != "$OUTDIR" && ToUpper(c) != "$EXEDIR" && ToUpper(c) != "$PLUGINSDIR"
    ensures c[1..] == "VAR" + rest && rest != "" ==> Segment(c) == ["_var" + Strip(rest)]
    ensures c[1..] == "VAR" || !("VAR" <= c[1..]) ==> Segment(c) == ["_var" + Strip("_" + c[1..])]
  {
    hide Segment, ToUpper, IsSpace, Csidl, Strip, IsShellName, AfterPrefix, StartsWith;
    VariableSegment(c);
    DollarStarts(c);
    AfterVar(c[1..], rest);
  }

  lemma AfterVar(name: string, rest: string)
    ensures name == "VAR" + rest ==> AfterPrefix(name, "VAR") == rest && rest != name
    ensures name == "VAR" ==> AfterPrefix(name, "VAR") == ""
    ensures !("VAR" <= name) ==> AfterPrefix(name, "VAR") == name
  {
    if name == "VAR" + rest {
      assert |rest| != |name| && name[3..] == rest;
    }
  }

  /** Stripping takes out dots, slashes and colons, and nothing else. */
  lemma {:induction false} StripKeeps(s: string)
    ensures (forall c :: c in s ==> !Stripped(c)) ==> Strip(s) == s
    ensures forall c :: c in Strip(s) <==> c in s && c != '.' && c != '/' && c != '\\' && c != ':'
  {
    if s != "" {
      StripKeeps(s[1..]);
      assert s == [s[0]] + s[1..];
    }
  }

  // ---------------------------------------------------------------- safeJoin

  function CommonPrefix(a: Path, b: Path): (n: nat)
    ensures n <= |a| && n <= |b| && a[..n] == b[..n]
    ensures n < |a| && n < |b| ==> a[n] != b[n]
  {
    if |a| > 0 && |b| > 0 && a[0] == b[0] then
      var n := CommonPrefix(a[1..], b[1..]);
      assert a[..n + 1] == [a[0]] + a[1..][..n] && b[..n + 1] == [b[0]] + b[1..][..n];
      n + 1
    else 0
  }

  function Ups(n: nat): (u: seq<string>)
    ensures |u| == n && forall i :: 0 <= i < n ==> u[i] == ".."
  {
    seq(n, _ => "..")
  }

  /** How to get from base to target: up out of what they do not share, then down. */
  function RelPath(base: Path, target: Path): seq<string>
  {
    var n := CommonPrefix(base, target);
    if n == |base| == |target| then ["."] else Ups(|base| - n) + target[n..]
  }

  function SafeJoin(base: Path, rel: seq<string>): (r: Option<Path>)
    requires PlainPath(base)
    requires forall i :: 0 <= i < |rel| ==> '/' !in rel[i] && '\\' !in rel[i]
  {
    var target := CleanOnto([], base + rel);
    var r := RelPath(base, target);
    if r[0] == ".." then None else Some(target)
  }

  /** The guard lets a path through exactly when, cleaned, it lies at or below the base. */
  lemma SafeJoinIff(base: Path, rel: seq<string>)
    requires PlainPath(base)
    requires forall i :: 0 <= i < |rel| ==> '/' !in rel[i] && '\\' !in rel[i]
    ensures SafeJoin(base, rel).Some? <==> base <= CleanOnto([], base + rel)
    ensures SafeJoin(base, rel).Some? ==> SafeJoin(base, rel).value == CleanOnto([], base + rel)
  {
    var target := CleanOnto([], base + rel);
    var n := CommonPrefix(base, target);
    if base <= target {
      assert forall k :: 0 <= k < |base| ==> base[k] == target[k];
      if |target| > n { assert Plain(target[n]); }
    } else {
      assert base[..n] == target[..n] && base[..|base|] == base;
      assert n < |base|;
    }
  }

  /** A sanitized path is never rejected, and lands strictly below the base unless it is empty. */
  lemma SafeJoinKeepsSanitized(base: Path, rel: Path)
    requires PlainPath(base) && PlainPath(rel)
    ensures SafeJoin(base, rel) == Some(base + rel)
  {
    CleanPlain([], base + rel);
    assert [] + (base + rel) == base + rel;
    SafeJoinIff(base, rel);
  }
}
