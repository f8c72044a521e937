/**
 The clone-canonical form of a decompiled body: every address symbol becomes a fixed marker. The
 streaming scan writes exactly the leftmost, greedy, word-boundary-anchored replacement; bodies
 that differ only in their address symbols give the same stream, and only they do as long as no
 marker in the stream of one is copied from the body where the other has a symbol.
 */
module CloneCanon {
  import opened Common
  import opened Chars

  const MARK := "<SYM>"

  predicate IsPrefix(p: string) { p == "FUN" || p == "DAT" || p == "LAB" || p == "UNK" || p == "SUB" }

  /** An address symbol begins at s[i]. */
  predicate SymStart(s: string, i: nat)
  {
    && i + 5 <= |s|
    && s[i + 3] == '_'
    && IsPrefix(s[i..i + 3])
    && IsHex(s[i + 4])
    && (i == 0 || !IsIdent(s[i - 1]))
  }

  /** The first index from j on that is not a hex digit. */
  function HexEnd(s: string, j: nat): (e: nat)
    requires j <= |s|
    ensures j <= e <= |s|
    ensures forall k :: j <= k < e ==> IsHex(s[k])
    ensures e < |s| ==> !IsHex(s[e])
    decreases |s| - j
  {
    if j < |s| && IsHex(s[j]) then HexEnd(s, j + 1) else j
  }

  function CanonFrom(s: string, i: nat): string
    requires i <= |s|
    decreases |s| - i
  {
    if i == |s| then ""
    else if SymStart(s, i) then MARK + CanonFrom(s, HexEnd(s, i + 4))
    else [s[i]] + CanonFrom(s, i + 1)
  }

  function Canon(s: string): string { CanonFrom(s, 0) }

  /** The scan: copy a run up to the next symbol, write the marker, skip the symbol's hex digits. */
  method HashBody(body: string) returns (written: string)
    ensures written == Canon(body)
  {
    hide SymStart, CanonFrom, HexEnd, IsHex;
    written := "";
    var i, n := 0, |body|;
    while i < n
      invariant i <= n
      invariant written + CanonFrom(body, i) == Canon(body)
      decreases n - i
    {
      var start := i;
      while i < n && !SymStart(body, i)
        invariant start <= i <= n
        invariant CanonFrom(body, start) == body[start..i] + CanonFrom(body, i)
      {
        CopyOne(body, start, i);
        i := i + 1;
      }
      Glue(written, body[start..i], CanonFrom(body, i));
      if i > start {
        written := written + body[start..i];
      }
      if i >= n {
        break;
      }
      SymRoom(body, i);
      ghost var sym := i;
      i := i + 4;
      while i < n && IsHex(body[i])
        invariant sym + 4 <= i <= n && HexEnd(body, sym + 4) == HexEnd(body, i)
      {
        HexStep(body, i);
        i := i + 1;
      }
      HexStep(body, i);
      FromStep(body, sym);
      Glue(written, MARK, CanonFrom(body, i));
      written := written + MARK;
    }
    FromStep(body, |body|);
  }

  lemma CopyOne(s: string, start: nat, i: nat)
    requires start <= i < |s| && !SymStart(s, i)
    ensures s[start..i] + CanonFrom(s, i) == s[start..i + 1] + CanonFrom(s, i + 1)
  {
    hide SymStart;
    assert s[start..i + 1] == s[start..i] + [s[i]];
  }

  lemma HexStep(s: string, j: nat)
    requires j <= |s|
    ensures HexEnd(s, j) == if j < |s| && IsHex(s[j]) then HexEnd(s, j + 1) else j
  {
    hide IsHex;
  }

  lemma FromStep(s: string, i: nat)
    requires i <= |s|
    ensures i == |s| ==> CanonFrom(s, i) == ""
    ensures SymStart(s, i) ==> i + 4 <= |s| && CanonFrom(s, i) == MARK + CanonFrom(s, HexEnd(s, i + 4))
    ensures i < |s| && !SymStart(s, i) ==> CanonFrom(s, i) == [s[i]] + CanonFrom(s, i + 1)
  {
    hide HexEnd;
  }

  lemma SymRoom(s: string, i: nat)
    requires SymStart(s, i)
    ensures i + 5 <= |s|
  {
  }

  // ---------------------------------------------------------------- leftmost, greedy replacement

  /** s[i..j] is a whole address symbol: its hex run cannot be extended. */
  predicate IsMatch(s: string, i: nat, j: nat)
  {
    SymStart(s, i) && i + 5 <= j <= |s| && (forall k :: i + 4 <= k < j ==> IsHex(s[k])) && (j < |s| ==> !IsHex(s[j]))
  }

  /** ms are the matches from `from` on: each the leftmost after the one before, and none left over. */
  predicate LeftmostGreedy(s: string, from: nat, ms: seq<(nat, nat)>)
    requires from <= |s|
    decreases |ms|
  {
    if |ms| == 0 then forall k :: from <= k < |s| ==> !SymStart(s, k)
    else
      var (i, j) := ms[0];
      && from <= i && IsMatch(s, i, j) && (forall k :: from <= k < i ==> !SymStart(s, k))
      && LeftmostGreedy(s, j, ms[1..])
  }

  function Replaced(s: string, from: nat, ms: seq<(nat, nat)>): string
    requires from <= |s| && LeftmostGreedy(s, from, ms)
    decreases |ms|
  {
    if |ms| == 0 then s[from..]
    else s[from..ms[0].0] + (MARK + Replaced(s, ms[0].1, ms[1..]))
  }

  lemma {:induction false} CopyRun(s: string, from: nat, i: nat)
    requires from <= i <= |s| && forall k :: from <= k < i ==> !SymStart(s, k)
    ensures CanonFrom(s, from) == s[from..i] + CanonFrom(s, i)
    decreases i - from
  {
    hide SymStart;
    if from == i {
      assert s[from..i] == "";
    } else {
      CopyRun(s, from + 1, i);
      assert s[from..i] == [s[from]] + s[from + 1..i];
      Glue([s[from]], s[from + 1..i], CanonFrom(s, i));
    }
  }

  lemma {:induction false} HexEndUnique(s: string, j: nat, e: nat)
    requires j <= e <= |s| && (forall k :: j <= k < e ==> IsHex(s[k])) && (e < |s| ==> !IsHex(s[e]))
    ensures HexEnd(s, j) == e
    decreases e - j
  {
    if j < e {
      HexEndUnique(s, j + 1, e);
    }
  }

  /** Any leftmost greedy choice of matches renders to what the scan writes. */
  lemma {:induction false} ScanIsReplacement(s: string, from: nat, ms: seq<(nat, nat)>)
    requires from <= |s| && LeftmostGreedy(s, from, ms)
    ensures CanonFrom(s, from) == Replaced(s, from, ms)
    decreases |ms|
  {
    hide SymStart;
    if |ms| == 0 {
      CopyRun(s, from, |s|);
      assert s[from..|s|] + "" == s[from..];
    } else {
      var (i, j) := ms[0];
      CopyRun(s, from, i);
      SymRoom(s, i);
      HexEndUnique(s, i + 4, j);
      ScanIsReplacement(s, j, ms[1..]);
    }
  }

  /** There is such a choice. */
  function Matches(s: string, from: nat): (ms: seq<(nat, nat)>)
    requires from <= |s|
    decreases |s| - from
  {
    if from == |s| then []
    else if SymStart(s, from) then [(from, HexEnd(s, from + 4))] + Matches(s, HexEnd(s, from + 4))
    else Matches(s, from + 1)
  }

  lemma {:induction false} MatchesExist(s: string, from: nat)
    requires from <= |s|
    ensures LeftmostGreedy(s, from, Matches(s, from))
    decreases |s| - from
  {
    if from < |s| {
      if SymStart(s, from) {
        var e := HexEnd(s, from + 4);
        MatchesExist(s, e);
        assert Matches(s, from)[1..] == Matches(s, e);
      } else {
        MatchesExist(s, from + 1);
      }
    }
  }

  lemma {:induction false} MatchesUnique(s: string, from: nat, ms: seq<(nat, nat)>, ns: seq<(nat, nat)>)
    requires from <= |s| && LeftmostGreedy(s, from, ms) && LeftmostGreedy(s, from, ns)
    ensures ms == ns
    decreases |ms|
  {
    hide SymStart;
    if |ms| > 0 {
      FirstMatchStarts(s, from, ms);
    }
    if |ns| > 0 {
      FirstMatchStarts(s, from, ns);
    }
    if |ms| > 0 && |ns| > 0 {
      var (i, j) := ms[0];
      var (k, l) := ns[0];
      assert i == k;
      HexEndUnique(s, i + 4, j);
      HexEndUnique(s, i + 4, l);
      MatchesUnique(s, j, ms[1..], ns[1..]);
      assert ms == [ms[0]] + ms[1..] && ns == [ns[0]] + ns[1..];
    }
  }

  lemma FirstMatchStarts(s: string, from: nat, ms: seq<(nat, nat)>)
    requires from <= |s| && |ms| > 0 && LeftmostGreedy(s, from, ms)
    ensures from <= ms[0].0 < |s| && SymStart(s, ms[0].0)
  {
  }

  /** What is written is the replacement of the one leftmost greedy choice of matches. */
  lemma CanonIsReplacement(s: string)
    ensures LeftmostGreedy(s, 0, Matches(s, 0)) && Canon(s) == Replaced(s, 0, Matches(s, 0))
    ensures forall ms :: LeftmostGreedy(s, 0, ms) ==> ms == Matches(s, 0)
  {
    MatchesExist(s, 0);
    ScanIsReplacement(s, 0, Matches(s, 0));
    forall ms | LeftmostGreedy(s, 0, ms) ensures ms == Matches(s, 0) {
      MatchesUnique(s, 0, ms, Matches(s, 0));
    }
  }

  // ---------------------------------------------------------------- the scan on tails

  /** A symbol begins at the head of t, `inWord` saying whether the character before t is an identifier one. */
  predicate SymHere(inWord: bool, t: string)
  {
    |t| >= 5 && t[3] == '_' && IsPrefix(t[..3]) && IsHex(t[4]) && !inWord
  }

  function DropHex(t: string): (r: string)
    ensures |r| <= |t| && r == t[|t| - |r|..]
    ensures |r| > 0 ==> !IsHex(r[0])
  {
    if |t| > 0 && IsHex(t[0]) then DropHex(t[1..]) else t
  }

  function CanonTail(inWord: bool, t: string): string
    decreases |t|
  {
    if |t| == 0 then ""
    else if SymHere(inWord, t) then MARK + CanonTail(true, DropHex(t[4..]))
    else [t[0]] + CanonTail(IsIdent(t[0]), t[1..])
  }

  predicate InWord(s: string, i: nat)
    requires i <= |s|
  {
    i > 0 && IsIdent(s[i - 1])
  }

  lemma {:induction false} HexEndDrops(s: string, j: nat)
    requires j <= |s|
    ensures s[HexEnd(s, j)..] == DropHex(s[j..])
    decreases |s| - j
  {
    if j < |s| && IsHex(s[j]) {
      HexEndDrops(s, j + 1);
      assert s[j..][1..] == s[j + 1..];
    }
  }

  lemma StartIsHere(s: string, i: nat)
    requires i <= |s|
    ensures SymStart(s, i) <==> SymHere(InWord(s, i), s[i..])
  {
    if i + 5 <= |s| {
      assert s[i..][..3] == s[i..i + 3];
    }
  }

  lemma {:induction false} CanonOfTail(s: string, i: nat)
    requires i <= |s|
    ensures CanonFrom(s, i) == CanonTail(InWord(s, i), s[i..])
    decreases |s| - i
  {
    hide SymStart, SymHere, CanonFrom, CanonTail, HexEnd, DropHex, IsIdent;
    FromStep(s, i);
    if i == |s| {
      assert s[i..] == "";
      NothingScanned(InWord(s, i));
    } else {
      StartIsHere(s, i);
      TailStep(InWord(s, i), s[i..]);
      if SymStart(s, i) {
        SymRoom(s, i);
        HexDigitAt(s, i);
        HexEndDrops(s, i + 4);
        assert s[i..][4..] == s[i + 4..];
        CanonOfTail(s, HexEnd(s, i + 4));
      } else {
        CanonOfTail(s, i + 1);
        assert s[i..][1..] == s[i + 1..];
      }
    }
  }

  lemma NothingScanned(inWord: bool)
    ensures CanonTail(inWord, "") == ""
  {
  }

  lemma HexDigitAt(s: string, i: nat)
    requires SymStart(s, i)
    ensures i + 4 <= |s| && HexEnd(s, i + 4) >= i + 5 && InWord(s, HexEnd(s, i + 4))
  {
    var e := HexEnd(s, i + 4);
    assert IsHex(s[e - 1]);
  }

  /** A three-letter word, an underscore and hex digits are a symbol for exactly these five words. */
  lemma FivePrefixes(p: string, h: string)
    requires |p| == 3 && h != "" && AllHex(h)
    ensures Canon(p + "_" + h)
         == if p == "FUN" || p == "DAT" || p == "LAB" || p == "UNK" || p == "SUB" then "<SYM>" else p + "_" + h
  {
    var s := p + "_" + h;
    assert s[3] == '_' && s[0..3] == p && s[4..] == h && s[4] == h[0];
    if SymStart(s, 0) {
      HexEndUnique(s, 4, |s|);
      FromStep(s, 0);
      FromStep(s, |s|);
      assert MARK + "" == MARK;
    } else {
      forall k | 0 <= k < |s|
        ensures !SymStart(s, k)
      {
        if k > 0 && k + 5 <= |s| {
          assert s[k + 3] == h[k - 1];
        }
      }
      CopyRun(s, 0, |s|);
      FromStep(s, |s|);
      assert s[0..|s|] + "" == s;
    }
  }

  // ---------------------------------------------------------------- renaming symbols

  /** An address symbol on its own: any of the prefixes and a non-empty run of hex digits. */
  predicate IsSymbol(y: string)
  {
    |y| >= 5 && y[3] == '_' && IsPrefix(y[..3]) && forall k :: 4 <= k < |y| ==> IsHex(y[k])
  }

  predicate AllSymbols(ys: seq<string>) { forall k :: 0 <= k < |ys| ==> IsSymbol(ys[k]) }

  function Symbols(inWord: bool, t: string): (n: nat)
    decreases |t|
  {
    if |t| == 0 then 0
    else if SymHere(inWord, t) then 1 + Symbols(true, DropHex(t[4..]))
    else Symbols(IsIdent(t[0]), t[1..])
  }

  /** t with its symbols replaced, one after another, by those of ys. */
  function Renamed(inWord: bool, t: string, ys: seq<string>): string
    requires |ys| >= Symbols(inWord, t)
    decreases |t|
  {
    if |t| == 0 then ""
    else if SymHere(inWord, t) then ys[0] + Renamed(true, DropHex(t[4..]), ys[1..])
    else [t[0]] + Renamed(IsIdent(t[0]), t[1..], ys)
  }

  /** Inside a word no symbol can begin, so the next character is copied. */
  lemma WordCopies(t: string, ys: seq<string>)
    requires |ys| >= Symbols(true, t) && |t| > 0
    ensures |ys| >= Symbols(IsIdent(t[0]), t[1..])
    ensures Renamed(true, t, ys) == [t[0]] + Renamed(IsIdent(t[0]), t[1..], ys)
  {
  }

  lemma NothingRenamed(inWord: bool, ys: seq<string>)
    ensures Renamed(inWord, "", ys) == ""
  {
  }

  /** Renaming later symbols cannot make a symbol appear where there was none. */
  lemma NoNewSymbol(inWord: bool, t: string, ys: seq<string>)
    requires |t| > 0 && |ys| >= Symbols(inWord, t) && !SymHere(inWord, t)
    ensures !SymHere(inWord, Renamed(inWord, t, ys))
  {
    hide Renamed, Symbols, SymHere;
    CopyHead(inWord, t, ys);
    var u := Renamed(inWord, t, ys);
    if SymHere(inWord, u) {
      HeadSymbol(inWord, t, ys, u);
    }
  }

  /** A symbol at the head of the renamed text was already there: its first five characters are copies. */
  lemma HeadSymbol(inWord: bool, t: string, ys: seq<string>, u: string)
    requires |t| > 0 && |ys| >= Symbols(IsIdent(t[0]), t[1..])
    requires u == [t[0]] + Renamed(IsIdent(t[0]), t[1..], ys) && SymHere(inWord, u)
    ensures SymHere(inWord, t)
  {
    hide Renamed, Symbols;
    Letters(u);
    var r1, u1 := t[1..], u[1..];
    NextChar(r1, u1, ys);
    var r2, u2 := r1[1..], u1[1..];
    NextChar(r2, u2, ys);
    var r3, u3 := r2[1..], u2[1..];
    NextChar(r3, u3, ys);
    var r4, u4 := r3[1..], u3[1..];
    NextChar(r4, u4, ys);
    assert t[0] == u[0] && t[1] == u[1] && t[2] == u[2] && t[3] == u[3] && t[4] == u[4];
    assert t[..3] == u[..3];
  }

  lemma CopyHead(inWord: bool, t: string, ys: seq<string>)
    requires |t| > 0 && |ys| >= Symbols(inWord, t) && !SymHere(inWord, t)
    ensures |ys| >= Symbols(IsIdent(t[0]), t[1..])
    ensures Renamed(inWord, t, ys) == [t[0]] + Renamed(IsIdent(t[0]), t[1..], ys)
  {
  }

  /** The first four characters of a symbol are identifier characters. */
  lemma Letters(u: string)
    requires |u| >= 5 && u[3] == '_' && IsPrefix(u[..3])
    ensures IsIdent(u[0]) && IsIdent(u[1]) && IsIdent(u[2]) && IsIdent(u[3])
  {
    assert u[..3][0] == u[0] && u[..3][1] == u[1] && u[..3][2] == u[2];
  }

  lemma NextChar(r: string, u: string, ys: seq<string>)
    requires |ys| >= Symbols(true, r) && u == Renamed(true, r, ys) && |u| > 0
    ensures |r| > 0 && r[0] == u[0] && |ys| >= Symbols(IsIdent(r[0]), r[1..])
    ensures u[1..] == Renamed(IsIdent(r[0]), r[1..], ys)
  {
    hide Renamed, Symbols;
    if |r| == 0 {
      NothingRenamed(true, ys);
    } else {
      WordCopies(r, ys);
    }
  }

  lemma {:induction false} DropHexRun(y: string, w: string)
    requires (forall k :: 0 <= k < |y| ==> IsHex(y[k])) && (|w| > 0 ==> !IsHex(w[0]))
    ensures DropHex(y + w) == w
    decreases |y|
  {
    hide IsHex, DropHex;
    var t := y + w;
    DropHexStep(t);
    if |y| == 0 {
      assert t == w;
    } else {
      assert t[1..] == y[1..] + w;
      DropHexRun(y[1..], w);
    }
  }

  lemma DropHexStep(t: string)
    ensures DropHex(t) == if |t| > 0 && IsHex(t[0]) then DropHex(t[1..]) else t
  {
    hide IsHex;
  }

  /** A renamed symbol is found, whole, where the old one was. */
  lemma SymbolFound(y: string, w: string)
    requires IsSymbol(y) && (|w| > 0 ==> !IsHex(w[0]))
    ensures SymHere(false, y + w) && DropHex((y + w)[4..]) == w
  {
    assert (y + w)[..3] == y[..3];
    assert (y + w)[4..] == y[4..] + w;
    DropHexRun(y[4..], w);
  }

  lemma {:induction false} RenamingKeepsCanon(inWord: bool, t: string, ys: seq<string>)
    requires |ys| >= Symbols(inWord, t)
    requires AllSymbols(ys)
    ensures CanonTail(inWord, Renamed(inWord, t, ys)) == CanonTail(inWord, t)
    decreases |t|
  {
    if |t| == 0 {
      return;
    }
    hide IsSymbol, SymHere, Renamed, Symbols, CanonTail, DropHex, IsIdent;
    var u := Renamed(inWord, t, ys);
    TailStep(inWord, t);
    if SymHere(inWord, t) {
      NotInWord(inWord, t);
      HeadIsSymbol(inWord, t);
      SymbolUnfolds(inWord, t, ys);
      var rest := DropHex(t[4..]);
      var w := Renamed(true, rest, ys[1..]);
      RestStarts(rest, ys[1..]);
      SymbolNotEmpty(ys[0]);
      SymbolFound(ys[0], w);
      TailStep(inWord, u);
      RenamingKeepsCanon(true, rest, ys[1..]);
    } else {
      NoNewSymbol(inWord, t, ys);
      CharUnfolds(inWord, t, ys);
      var w := Renamed(IsIdent(t[0]), t[1..], ys);
      assert u == [t[0]] + w && u[1..] == w;
      TailStep(inWord, u);
      RenamingKeepsCanon(IsIdent(t[0]), t[1..], ys);
    }
  }

  /** What follows a renamed symbol does not begin with a hex digit, as what followed the old one did not. */
  lemma RestStarts(rest: string, ys: seq<string>)
    requires |ys| >= Symbols(true, rest) && (|rest| > 0 ==> !IsHex(rest[0]))
    ensures var w := Renamed(true, rest, ys); |w| > 0 ==> !IsHex(w[0])
  {
    hide IsHex, IsIdent;
    if |rest| > 0 {
      WordCopies(rest, ys);
    }
  }

  lemma TailStep(inWord: bool, t: string)
    requires |t| > 0
    ensures SymHere(inWord, t) ==> |t| >= 4 && CanonTail(inWord, t) == MARK + CanonTail(true, DropHex(t[4..]))
    ensures !SymHere(inWord, t) ==> CanonTail(inWord, t) == [t[0]] + CanonTail(IsIdent(t[0]), t[1..])
  {
    hide DropHex, IsIdent;
  }

  lemma NotInWord(inWord: bool, t: string)
    requires SymHere(inWord, t)
    ensures !inWord && |t| >= 5
  {
  }

  lemma SymbolNotEmpty(y: string)
    requires IsSymbol(y)
    ensures |y| >= 5
  {
  }

  /** Replacing every address symbol of a body by any other leaves its stream unchanged. */
  lemma SymbolsDoNotMatter(s: string, ys: seq<string>)
    requires |ys| >= Symbols(false, s)
    requires AllSymbols(ys)
    ensures Canon(Renamed(false, s, ys)) == Canon(s)
  {
    var t := Renamed(false, s, ys);
    RenamingKeepsCanon(false, s, ys);
    CanonOfTail(s, 0);
    CanonOfTail(t, 0);
    assert s[0..] == s && t[0..] == t;
  }

  // ---------------------------------------------------------------- nothing else is merged

  predicate Spells(t: string) { |t| >= 5 && t[..5] == MARK }

  /** Does the marker itself occur in t? */
  predicate SpellsMark(t: string)
  {
    |t| > 0 && (Spells(t) || SpellsMark(t[1..]))
  }

  function SymbolsOf(inWord: bool, t: string): (ys: seq<string>)
    ensures |ys| == Symbols(inWord, t)
    decreases |t|
  {
    if |t| == 0 then []
    else if SymHere(inWord, t) then
      var rest := DropHex(t[4..]);
      [t[..|t| - |rest|]] + SymbolsOf(true, rest)
    else SymbolsOf(IsIdent(t[0]), t[1..])
  }

  /**
   Where in the stream a marker stands that was not written for a symbol but copied from the body,
   `at` being the place of the stream's first character.
   */
  function Copied(inWord: bool, t: string, at: nat): (os: set<nat>)
    decreases |t|
  {
    if |t| == 0 then {}
    else if SymHere(inWord, t) then Copied(true, DropHex(t[4..]), at + |MARK|)
    else (if Spells(t) then {at} else {}) + Copied(IsIdent(t[0]), t[1..], at + 1)
  }

  lemma {:induction false} CopiedFrom(inWord: bool, t: string, at: nat)
    ensures forall o :: o in Copied(inWord, t, at) ==> o >= at
    decreases |t|
  {
    if |t| > 0 {
      if SymHere(inWord, t) {
        CopiedFrom(true, DropHex(t[4..]), at + |MARK|);
      } else {
        CopiedFrom(IsIdent(t[0]), t[1..], at + 1);
      }
    }
  }

  /** The head of the text decides whether a copied marker stands at `at`, its tail what stands beyond. */
  lemma CopiedStep(inWord: bool, t: string, at: nat)
    requires |t| > 0
    ensures SymHere(inWord, t) ==>
              |t| >= 4 && at !in Copied(inWord, t, at) && Copied(inWord, t, at) == Copied(true, DropHex(t[4..]), at + |MARK|)
    ensures !SymHere(inWord, t) ==>
              && at !in Copied(IsIdent(t[0]), t[1..], at + 1)
              && Copied(inWord, t, at) == (if Spells(t) then {at} else {}) + Copied(IsIdent(t[0]), t[1..], at + 1)
  {
    hide Spells, SymHere, DropHex, IsIdent;
    if SymHere(inWord, t) {
      NotInWord(inWord, t);
      CopiedFrom(true, DropHex(t[4..]), at + |MARK|);
    } else {
      CopiedFrom(IsIdent(t[0]), t[1..], at + 1);
    }
  }

  /** A body that does not spell the marker has no copied one. */
  lemma {:induction false} NoneCopied(inWord: bool, t: string, at: nat)
    requires !SpellsMark(t)
    ensures Copied(inWord, t, at) == {}
    decreases |t|
  {
    hide Spells, IsIdent, DropHex, SymHere, Copied;
    if |t| == 0 {
      NothingCopied(inWord, at);
    } else {
      CopiedStep(inWord, t, at);
      SymbolOrChar(inWord, t);
      if SymHere(inWord, t) {
        var t1 := DropHex(t[4..]);
        SuffixSpells(t, |t| - |t1|);
        NoneCopied(true, t1, at + |MARK|);
      } else {
        NoneCopied(IsIdent(t[0]), t[1..], at + 1);
      }
    }
  }

  lemma NothingCopied(inWord: bool, at: nat)
    ensures Copied(inWord, "", at) == {}
  {
  }

  lemma {:induction false} SuffixSpells(t: string, n: nat)
    requires n <= |t| && !SpellsMark(t)
    ensures !SpellsMark(t[n..])
    decreases n
  {
    if n > 0 {
      SuffixSpells(t[1..], n - 1);
      assert t[1..][n - 1..] == t[n..];
    } else {
      assert t[n..] == t;
    }
  }

  /** A stream that starts with the marker comes from a body that starts with a symbol or the marker. */
  lemma MarkMeansSymbol(inWord: bool, t: string, rest: string)
    requires CanonTail(inWord, t) == MARK + rest
    ensures |t| > 0 && (SymHere(inWord, t) || Spells(t))
  {
    assert CanonTail(inWord, t)[0] == '<' && CanonTail(inWord, t)[1..] == "SYM>" + rest;
    if |t| > 0 && !SymHere(inWord, t) {
      HeadSpells(t, rest);
    }
  }

  lemma MarkIsCopied(inWord: bool, t: string)
    requires Spells(t)
    ensures Spells(CanonTail(inWord, t))
  {
    hide SymHere, CanonTail;
    assert t[..5][0] == t[0] && t[..5][1] == t[1] && t[..5][2] == t[2] && t[..5][3] == t[3] && t[..5][4] == t[4];
    var t1, t2, t3, t4 := t[1..], t[2..], t[3..], t[4..];
    NoSymbolHere(inWord, t);
    TailStep(inWord, t);
    NoSymbolHere(false, t1);
    TailStep(false, t1);
    assert t1[1..] == t2 && t2[1..] == t3 && t3[1..] == t4;
    TailStep(true, t2);
    NoSymbolHere(true, t2);
    TailStep(true, t3);
    NoSymbolHere(true, t3);
    TailStep(true, t4);
    NoSymbolHere(true, t4);
  }

  lemma NoSymbolHere(inWord: bool, t: string)
    ensures inWord || |t| < 4 || t[0] == '<' || t[3] == '>' ==> !SymHere(inWord, t)
  {
    if |t| >= 3 {
      assert t[..3][0] == t[0];
    }
  }

  lemma HeadSpells(t: string, rest: string)
    requires |t| > 0 && t[0] == '<' && CanonTail(false, t[1..]) == "SYM>" + rest
    ensures Spells(t)
  {
    var c := CanonTail(false, t[1..]);
    assert c[0] == 'S' && c[1] == 'Y' && c[2] == 'M' && c[3] == '>';
    var t1 := t[1..];
    PlainHead(false, t1, c);
    PlainHead(true, t1[1..], c[1..]);
    PlainHead(true, t1[2..], c[2..]);
    PlainHead(true, t1[3..], c[3..]);
    assert t[..5] == MARK;
  }

  /** A stream that starts with anything but '<' comes from a body that starts with that character. */
  lemma PlainHead(inWord: bool, t: string, c: string)
    requires c == CanonTail(inWord, t) && |c| > 0 && c[0] != '<'
    ensures |t| > 0 && t[0] == c[0] && c[1..] == CanonTail(IsIdent(t[0]), t[1..])
  {
  }

  /** Bodies with the same stream and the same copied markers are one another with symbols renamed. */
  lemma {:induction false} SameStreamSameShape(inWord: bool, s: string, t: string, at: nat)
    requires CanonTail(inWord, s) == CanonTail(inWord, t) && Copied(inWord, s, at) == Copied(inWord, t, at)
    ensures Symbols(inWord, s) == Symbols(inWord, t)
    ensures t == Renamed(inWord, s, SymbolsOf(inWord, t))
    decreases |s| + |t|
  {
    hide SymHere, Spells, Copied, CanonTail, Symbols, SymbolsOf, Renamed, DropHex, IsIdent;
    EmptyStream(inWord, s);
    EmptyStream(inWord, t);
    if |s| == 0 || |t| == 0 {
      return;
    }
    SymbolOrChar(inWord, s);
    SymbolOrChar(inWord, t);
    CopiedStep(inWord, s, at);
    CopiedStep(inWord, t, at);
    if SymHere(inWord, s) || SymHere(inWord, t) {
      if SymHere(inWord, s) {
        MarkMeansSymbol(inWord, t, CanonTail(inWord, s)[5..]);
      } else {
        MarkMeansSymbol(inWord, s, CanonTail(inWord, t)[5..]);
      }
      SameStreamSameShape(true, DropHex(s[4..]), DropHex(t[4..]), at + |MARK|);
    } else {
      SameStreamSameShape(IsIdent(s[0]), s[1..], t[1..], at + 1);
    }
    RenamedStep(inWord, s, t);
  }

  /** Renaming symbols neither makes nor moves a copied marker. */
  lemma {:induction false} RenamingKeepsCopied(inWord: bool, t: string, ys: seq<string>, at: nat)
    requires |ys| >= Symbols(inWord, t)
    requires AllSymbols(ys)
    ensures Copied(inWord, Renamed(inWord, t, ys), at) == Copied(inWord, t, at)
    decreases |t|
  {
    if |t| == 0 {
      return;
    }
    hide IsSymbol, SymHere, Renamed, Symbols, CanonTail, DropHex, IsIdent, Copied, Spells;
    var u := Renamed(inWord, t, ys);
    CopiedStep(inWord, t, at);
    if SymHere(inWord, t) {
      NotInWord(inWord, t);
      HeadIsSymbol(inWord, t);
      SymbolUnfolds(inWord, t, ys);
      var rest := DropHex(t[4..]);
      RestStarts(rest, ys[1..]);
      SymbolNotEmpty(ys[0]);
      SymbolFound(ys[0], Renamed(true, rest, ys[1..]));
      CopiedStep(inWord, u, at);
      RenamingKeepsCopied(true, rest, ys[1..], at + |MARK|);
    } else {
      NoNewSymbol(inWord, t, ys);
      CharUnfolds(inWord, t, ys);
      var w := Renamed(IsIdent(t[0]), t[1..], ys);
      assert u == [t[0]] + w && u[1..] == w;
      CopiedStep(inWord, u, at);
      RenamingKeepsCanon(inWord, t, ys);
      SpellsIff(inWord, t);
      SpellsIff(inWord, u);
      RenamingKeepsCopied(IsIdent(t[0]), t[1..], ys, at + 1);
    }
  }

  /** Where no symbol begins, the text spells the marker exactly when its stream does. */
  lemma SpellsIff(inWord: bool, t: string)
    requires |t| > 0 && !SymHere(inWord, t)
    ensures Spells(t) <==> Spells(CanonTail(inWord, t))
  {
    hide SymHere, CanonTail;
    var c := CanonTail(inWord, t);
    if Spells(t) {
      MarkIsCopied(inWord, t);
    }
    if Spells(c) {
      assert c == MARK + c[5..];
      MarkMeansSymbol(inWord, t, c[5..]);
    }
  }

  lemma EmptyStream(inWord: bool, t: string)
    ensures CanonTail(inWord, t) == "" <==> t == ""
    ensures Symbols(inWord, "") == 0 && SymbolsOf(inWord, "") == [] && Renamed(inWord, "", []) == ""
  {
  }

  /** How a stream starts, and where the text after its first piece is. */
  lemma SymbolOrChar(inWord: bool, t: string)
    requires |t| > 0
    ensures SymHere(inWord, t) ==>
              && |t| >= 5
              && var t1 := DropHex(t[4..]);
                 && |t1| < |t| && t1 == t[|t| - |t1|..]
                 && |CanonTail(inWord, t)| >= 5 && CanonTail(inWord, t) == MARK + CanonTail(inWord, t)[5..]
                 && CanonTail(inWord, t)[5..] == CanonTail(true, t1)
    ensures !SymHere(inWord, t) ==>
              && |CanonTail(inWord, t)| >= 1 && CanonTail(inWord, t)[0] == t[0]
              && CanonTail(inWord, t)[1..] == CanonTail(IsIdent(t[0]), t[1..])
  {
  }

  lemma RenamedStep(inWord: bool, s: string, t: string)
    requires |s| > 0 && |t| > 0 && (SymHere(inWord, s) <==> SymHere(inWord, t))
    requires SymHere(inWord, s) ==>
               && |s| >= 5 && |t| >= 5
               && var s1, t1 := DropHex(s[4..]), DropHex(t[4..]);
                  Symbols(true, s1) == Symbols(true, t1) && t1 == Renamed(true, s1, SymbolsOf(true, t1))
    requires !SymHere(inWord, s) ==>
               && s[0] == t[0] && Symbols(IsIdent(s[0]), s[1..]) == Symbols(IsIdent(s[0]), t[1..])
               && t[1..] == Renamed(IsIdent(s[0]), s[1..], SymbolsOf(IsIdent(s[0]), t[1..]))
    ensures Symbols(inWord, s) == Symbols(inWord, t) && t == Renamed(inWord, s, SymbolsOf(inWord, t))
  {
    hide SymHere, Renamed, Symbols, SymbolsOf, DropHex;
    if SymHere(inWord, t) {
      var s1, t1 := DropHex(s[4..]), DropHex(t[4..]);
      SymbolUnfolds(inWord, s, SymbolsOf(inWord, t));
      SymbolUnfolds(inWord, t, SymbolsOf(inWord, t));
      assert t == t[..|t| - |t1|] + t1;
    } else {
      CharUnfolds(inWord, s, SymbolsOf(inWord, t));
      CharUnfolds(inWord, t, SymbolsOf(inWord, t));
      assert t == [t[0]] + t[1..];
    }
  }

  lemma SymbolUnfolds(inWord: bool, t: string, ys: seq<string>)
    requires |t| >= 5 && SymHere(inWord, t) && DropHex(t[4..]) == t[|t| - |DropHex(t[4..])|..]
    ensures var t1 := DropHex(t[4..]);
            && Symbols(inWord, t) == 1 + Symbols(true, t1)
            && |SymbolsOf(inWord, t)| >= 1
            && SymbolsOf(inWord, t)[0] == t[..|t| - |t1|] && SymbolsOf(inWord, t)[1..] == SymbolsOf(true, t1)
            && (|ys| >= Symbols(inWord, t) ==> Renamed(inWord, t, ys) == ys[0] + Renamed(true, t1, ys[1..]))
  {
    hide SymHere, DropHex;
  }

  lemma CharUnfolds(inWord: bool, t: string, ys: seq<string>)
    requires |t| > 0 && !SymHere(inWord, t)
    ensures Symbols(inWord, t) == Symbols(IsIdent(t[0]), t[1..])
    ensures SymbolsOf(inWord, t) == SymbolsOf(IsIdent(t[0]), t[1..])
    ensures |ys| >= Symbols(inWord, t) ==>
              Renamed(inWord, t, ys) == [t[0]] + Renamed(IsIdent(t[0]), t[1..], ys)
  {
    hide SymHere, DropHex;
  }

  lemma HeadIsSymbol(inWord: bool, t: string)
    requires SymHere(inWord, t)
    ensures |t| >= 5 && DropHex(t[4..]) == t[|t| - |DropHex(t[4..])|..] && |DropHex(t[4..])| < |t|
    ensures IsSymbol(t[..|t| - |DropHex(t[4..])|])
  {
    hide DropHex, IsIdent, IsHex;
    var r := DropHex(t[4..]);
    var y := t[..|t| - |r|];
    DroppedAreHex(t[4..]);
    DropsOne(t[4..]);
    assert y[..3] == t[..3];
    assert forall k :: 4 <= k < |y| ==> y[k] == t[4..][k - 4];
  }

  lemma {:induction false} SymbolsAreSymbols(inWord: bool, t: string)
    ensures AllSymbols(SymbolsOf(inWord, t))
    decreases |t|
  {
    if |t| == 0 {
      return;
    }
    hide SymHere, SymbolsOf, Symbols, Renamed, DropHex, IsSymbol, IsIdent, AllSymbols;
    if SymHere(inWord, t) {
      HeadIsSymbol(inWord, t);
      SymbolUnfolds(inWord, t, []);
      SymbolsAreSymbols(true, DropHex(t[4..]));
      AllSymbolsCons(SymbolsOf(inWord, t));
    } else {
      CharUnfolds(inWord, t, []);
      SymbolsAreSymbols(IsIdent(t[0]), t[1..]);
    }
  }

  lemma AllSymbolsCons(ys: seq<string>)
    requires |ys| > 0 && IsSymbol(ys[0]) && AllSymbols(ys[1..])
    ensures AllSymbols(ys)
  {
    hide IsSymbol;
    assert forall k :: 1 <= k < |ys| ==> ys[k] == ys[1..][k - 1];
  }

  lemma {:induction false} DroppedAreHex(t: string)
    ensures forall k :: 0 <= k < |t| - |DropHex(t)| ==> IsHex(t[k])
    decreases |t|
  {
    if |t| > 0 && IsHex(t[0]) {
      DroppedAreHex(t[1..]);
    }
  }

  lemma DropsOne(t: string)
    ensures |t| > 0 && IsHex(t[0]) ==> |DropHex(t)| < |t|
  {
  }

  /**
   Two bodies have the same stream, with the markers copied from them at the same places, exactly
   when one is the other with its address symbols renamed.
   */
  lemma SameStreamExactly(s: string, t: string)
    ensures Canon(s) == Canon(t) && Copied(false, s, 0) == Copied(false, t, 0)
       <==> Symbols(false, s) == Symbols(false, t) && t == Renamed(false, s, SymbolsOf(false, t))
  {
    CanonOfTail(s, 0);
    CanonOfTail(t, 0);
    assert s[0..] == s && t[0..] == t;
    if Canon(s) == Canon(t) && Copied(false, s, 0) == Copied(false, t, 0) {
      SameStreamSameShape(false, s, t, 0);
    }
    if Symbols(false, s) == Symbols(false, t) && t == Renamed(false, s, SymbolsOf(false, t)) {
      SymbolsAreSymbols(false, t);
      SymbolsDoNotMatter(s, SymbolsOf(false, t));
      RenamingKeepsCopied(false, s, SymbolsOf(false, t), 0);
    }
  }

  /** For bodies that do not spell the marker the stream alone says it. */
  lemma SameStreamIff(s: string, t: string)
    requires !SpellsMark(s) && !SpellsMark(t)
    ensures Canon(s) == Canon(t)
       <==> Symbols(false, s) == Symbols(false, t) && t == Renamed(false, s, SymbolsOf(false, t))
  {
    hide Canon, Symbols, Renamed, SymbolsOf;
    NoneCopied(false, s, 0);
    NoneCopied(false, t, 0);
    SameStreamExactly(s, t);
  }

  /** A copied marker and a written one: two bodies of different shape with one stream. */
  lemma MarkerCollides()
    ensures Canon("<SYM>") == Canon("FUN_0") && Symbols(false, "<SYM>") != Symbols(false, "FUN_0")
  {
    var a, b := "<SYM>", "FUN_0";
    assert !SymStart(a, 0) && !SymStart(a, 1) && !SymStart(a, 2) && !SymStart(a, 3) && !SymStart(a, 4);
    CopyRun(a, 0, 5);
    assert a[0..5] == a;
    assert b[0..3] == "FUN";
    assert SymStart(b, 0);
    HexEndUnique(b, 4, 5);
    assert b[..3] == "FUN";
    assert SymHere(false, b);
    assert Symbols(false, b) >= 1;
    NoSymbolsInMark();
  }

  lemma NoSymbolsInMark()
    ensures Symbols(false, "<SYM>") == 0
  {
    assert "<SYM>"[1..] == "SYM>" && "SYM>"[1..] == "YM>" && "YM>"[1..] == "M>" && "M>"[1..] == ">";
    assert ">"[1..] == "";
    assert Symbols(true, ">") == 0;
    assert Symbols(true, "M>") == 0;
    assert Symbols(true, "YM>") == 0;
    assert Symbols(false, "SYM>") == 0;
  }
}
