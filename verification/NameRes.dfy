/**
 Naming anonymous functions after the one qualified identifier their strings mention: rows of
 (function, address, string) are grouped by address, each group is judged by itself, and the
 accepted names are written over the symbol table.
 */
module NameRes {
  import opened Common
  import opened DecompiledLines

  // ---------------------------------------------------------------- candidates

  /** Words joined by "::", at least two of them. */
  predicate IsQualified(s: string)
  {
    exists i | 0 < i <= |s| - 2 ::
      IsWord(s[..i]) && s[i..i + 2] == "::" && (IsWord(s[i + 2..]) || IsQualified(s[i + 2..]))
  }

  /** The words with "::" between them. */
  function Chained(ws: seq<string>): string
  {
    if |ws| == 0 then "" else if |ws| == 1 then ws[0] else ws[0] + "::" + Chained(ws[1..])
  }

  /** A qualified identifier is a chain of two words or more. */
  lemma {:induction false} ChainsAreQualified(ws: seq<string>)
    requires |ws| >= 2 && forall k :: 0 <= k < |ws| ==> IsWord(ws[k])
    ensures IsQualified(Chained(ws))
    decreases |ws|
  {
    hide IsWord;
    var s, i := Chained(ws), |ws[0]|;
    WordNotEmpty(ws[0]);
    assert s == ws[0] + ("::" + Chained(ws[1..]));
    assert s[..i] == ws[0] && s[i..i + 2] == "::" && s[i + 2..] == Chained(ws[1..]);
    if |ws| == 2 {
      assert Chained(ws[1..]) == ws[1];
    } else {
      ChainsAreQualified(ws[1..]);
    }
    NotEmpty(ws[1..]);
  }

  lemma WordNotEmpty(w: string)
    requires IsWord(w)
    ensures w != ""
  {
  }

  lemma NotEmpty(ws: seq<string>)
    requires |ws| > 0 && IsWord(ws[0])
    ensures Chained(ws) != ""
  {
  }

  lemma {:induction false} QualifiedIsChain(s: string) returns (ws: seq<string>)
    requires IsQualified(s)
    ensures |ws| >= 2 && (forall k :: 0 <= k < |ws| ==> IsWord(ws[k])) && Chained(ws) == s
    decreases |s|
  {
    hide IsWord;
    var i :| 0 < i <= |s| - 2 && IsWord(s[..i]) && s[i..i + 2] == "::" && (IsWord(s[i + 2..]) || IsQualified(s[i + 2..]));
    var rest := [s[i + 2..]];
    if !IsWord(s[i + 2..]) {
      rest := QualifiedIsChain(s[i + 2..]);
    }
    ws := [s[..i]] + rest;
    assert ws[1..] == rest;
    assert s == s[..i] + s[i..i + 2] + s[i + 2..];
  }

  /** n is the only distinct qualified identifier among the strings. */
  predicate Sole(strs: seq<string>, n: string)
  {
    IsQualified(n) && n in strs && forall s :: s in strs && IsQualified(s) ==> s == n
  }

  method ResolveNameFromStrings(strs: seq<string>) returns (r: Option<string>)
    ensures forall n :: r == Some(n) <==> Sole(strs, n)
  {
    hide IsQualified;
    var cand := "";
    var seen: set<string> := {};
    EmptyNotQualified();
    for k := 0 to |strs|
      invariant seen == if cand == "" then {} else {cand}
      invariant cand != "" ==> cand in strs && IsQualified(cand)
      invariant forall j :: 0 <= j < k && IsQualified(strs[j]) ==> strs[j] == cand
    {
      var s := strs[k];
      if !IsQualified(s) || s in seen {
        continue;
      }
      seen := seen + {s};
      if |seen| > 1 {
        assert cand in strs && s in strs && cand != s;
        return None;
      }
      OnlyOne(seen, s, cand);
      cand := s;
    }
    if cand == "" {
      return None;
    }
    return Some(cand);
  }

  lemma EmptyNotQualified()
    ensures !IsQualified("")
  {
  }

  lemma OnlyOne(seen: set<string>, s: string, cand: string)
    requires |seen| <= 1 && s in seen && (cand != "" ==> cand in seen)
    ensures seen == {s} && (cand == "" || cand == s)
  {
    assert |seen - {s}| == |seen| - 1;
    assert seen == (seen - {s}) + {s};
  }

  // ---------------------------------------------------------------- grouping the rows

  datatype Row = Row(fn: string, addr: string, str: string)

  /** What a function is judged by when its group ends. */
  datatype Judged = Judged(addr: string, oldName: string, strs: seq<string>)

  /** The rows that count: the heading is skipped, and so is a record of fewer than three fields. */
  function RowsOf(recs: seq<seq<string>>): (rows: seq<Row>)
  {
    if |recs| <= 1 then []
    else
      var r := recs[|recs| - 1];
      RowsOf(recs[..|recs| - 1]) + if |r| < 3 then [] else [Row(r[0], r[1], r[2])]
  }

  datatype Open = Open(addr: string, oldName: string, strs: seq<string>)

  function Closing(g: Open): seq<Judged> { if g.addr == "" then [] else [Judged(g.addr, g.oldName, g.strs)] }

  /** The strings carried into the next group: those of rows without an address are not let go. */
  function Carried(g: Open): seq<string> { if g.addr == "" then g.strs else [] }

  function Next(g: Open, r: Row): Open
  {
    if r.addr != g.addr then Open(r.addr, r.fn, Carried(g) + [r.str]) else g.(strs := g.strs + [r.str])
  }

  function GroupsFrom(g: Open, rows: seq<Row>): seq<Judged>
    decreases |rows|
  {
    if rows == [] then Closing(g)
    else (if rows[0].addr != g.addr then Closing(g) else []) + GroupsFrom(Next(g, rows[0]), rows[1..])
  }

  function Groups(rows: seq<Row>): seq<Judged> { GroupsFrom(Open("", "", []), rows) }

  // ---------------------------------------------------------------- deciding

  datatype Names = Names(known: set<string>, renames: map<string, string>, written: seq<(string, string, string)>)

  function Candidate(strs: seq<string>): (r: Option<string>)
    ensures forall n :: r == Some(n) <==> Sole(strs, n)
  {
    hide IsQualified;
    var cs := Distinct(strs);
    OneDistinct(strs);
    if |cs| == 1 then Some(cs[0]) else None
  }

  /** The distinct qualified identifiers, in order of appearance. */
  function Distinct(strs: seq<string>): (cs: seq<string>)
    ensures forall s :: s in cs <==> s in strs && IsQualified(s)
    ensures forall i, j :: 0 <= i < j < |cs| ==> cs[i] != cs[j]
  {
    hide IsQualified;
    if strs == [] then []
    else
      var n := |strs| - 1;
      var cs := Distinct(strs[..n]);
      assert strs == strs[..n] + [strs[n]];
      if IsQualified(strs[n]) && strs[n] !in cs then cs + [strs[n]] else cs
  }

  lemma OneDistinct(strs: seq<string>)
    ensures var cs := Distinct(strs);
            forall n :: Sole(strs, n) <==> |cs| == 1 && cs[0] == n
  {
    hide IsQualified, Distinct;
    var cs := Distinct(strs);
    forall n | Sole(strs, n)
      ensures |cs| == 1 && cs[0] == n
    {
      assert n in cs;
      var m :| 0 <= m < |cs| && cs[m] == n;
      assert cs[0] in cs && cs[|cs| - 1] in cs;
    }
    if |cs| == 1 {
      assert cs[0] in cs;
    }
  }

  /** A group is renamed when its function is anonymous, has a sole candidate, and that name is free. */
  function Decided(ns: Names, g: Judged): Names
  {
    var c := Candidate(g.strs);
    if !IsAnon(g.oldName) || c.None? || c.value in ns.known then ns
    else Names(ns.known + {c.value}, ns.renames[g.addr := c.value], ns.written + [(g.addr, g.oldName, c.value)])
  }

  function DecideAll(ns: Names, gs: seq<Judged>): Names
    decreases |gs|
  {
    if gs == [] then ns else DecideAll(Decided(ns, gs[0]), gs[1..])
  }

  // ---------------------------------------------------------------- the pass over the rows

  class Renamer {
    var knownNames: set<string>
    var renameByAddr: map<string, string>
    var written: seq<(string, string, string)>
    var curAddr: string
    var curOld: string
    var curStrs: seq<string>

    ghost function View(): Names
      reads this
    {
      Names(knownNames, renameByAddr, written)
    }

    constructor (known: set<string>)
      ensures View() == Names(known, map[], []) && curAddr == "" && curOld == "" && curStrs == []
    {
      knownNames, renameByAddr, written := known, map[], [];
      curAddr, curOld, curStrs := "", "", [];
    }

    /** Ends the current group. Without an address nothing is decided, and nothing is cleared. */
    method Flush()
      modifies this
      ensures View() == DecideAll(old(View()), Closing(Open(old(curAddr), old(curOld), old(curStrs))))
      ensures curAddr == old(curAddr) && curOld == old(curOld)
      ensures curStrs == Carried(Open(old(curAddr), old(curOld), old(curStrs)))
    {
      if curAddr == "" {
        return;
      }
      hide IsAnon, Candidate;
      ghost var g := Judged(curAddr, curOld, curStrs);
      assert [g][1..] == [];
      var strs := curStrs;
      curStrs := [];
      if !IsAnon(curOld) {
        return;
      }
      var name := ResolveNameFromStrings(strs);
      SameCandidate(strs, name);
      if name.None? || name.value in knownNames {
        return;
      }
      knownNames := knownNames + {name.value};
      renameByAddr := renameByAddr[curAddr := name.value];
      written := written + [(curAddr, curOld, name.value)];
    }

    method Record(rec: seq<string>)
      requires |rec| >= 3
      modifies this
      ensures var r := Row(rec[0], rec[1], rec[2]);
              var g := Open(old(curAddr), old(curOld), old(curStrs));
              && Open(curAddr, curOld, curStrs) == Next(g, r)
              && View() == DecideAll(old(View()), if r.addr != g.addr then Closing(g) else [])
    {
      var fn, addr, str := rec[0], rec[1], rec[2];
      if addr != curAddr {
        Flush();
        curAddr, curOld := addr, fn;
      }
      curStrs := curStrs + [str];
    }
  }

  lemma SameCandidate(strs: seq<string>, r: Option<string>)
    requires forall n :: r == Some(n) <==> Sole(strs, n)
    ensures r == Candidate(strs)
  {
    hide Sole;
    var c := Candidate(strs);
    assert r.Some? ==> Sole(strs, r.value);
    assert c.Some? ==> Sole(strs, c.value);
  }

  lemma {:induction false} DecideConcat(ns: Names, a: seq<Judged>, b: seq<Judged>)
    ensures DecideAll(ns, a + b) == DecideAll(DecideAll(ns, a), b)
    decreases |a|
  {
    hide Decided;
    if a == [] {
      assert a + b == b;
    } else {
      DecideConcat(Decided(ns, a[0]), a[1..], b);
      assert (a + b)[0] == a[0] && (a + b)[1..] == a[1..] + b;
    }
  }

  lemma {:induction false} GroupsOneMore(g: Open, rows: seq<Row>, r: Row)
    ensures var h := OpenAfter(g, rows);
            && GroupsBefore(g, rows + [r]) == GroupsBefore(g, rows) + (if r.addr != h.addr then Closing(h) else [])
            && OpenAfter(g, rows + [r]) == Next(h, r)
            && GroupsFrom(g, rows) == GroupsBefore(g, rows) + Closing(h)
    decreases |rows|
  {
    hide Next, Closing;
    var all := rows + [r];
    if rows == [] {
      assert all[1..] == [] && all[0] == r;
    } else {
      assert all[0] == rows[0] && all[1..] == rows[1..] + [r];
      GroupsOneMore(Next(g, rows[0]), rows[1..], r);
    }
  }

  /** The groups that have ended, and the one that is open, after some rows. */
  function GroupsBefore(g: Open, rows: seq<Row>): seq<Judged>
    decreases |rows|
  {
    if rows == [] then []
    else (if rows[0].addr != g.addr then Closing(g) else []) + GroupsBefore(Next(g, rows[0]), rows[1..])
  }

  function OpenAfter(g: Open, rows: seq<Row>): Open
    decreases |rows|
  {
    if rows == [] then g else OpenAfter(Next(g, rows[0]), rows[1..])
  }

  /** The rename map and name_map rows for the records of string_refs.csv, the heading included. */
  method BuildRenameMap(recs: seq<seq<string>>, known: set<string>) returns (ns: Names)
    ensures ns == DecideAll(Names(known, map[], []), Groups(RowsOf(recs)))
  {
    hide Next, Closing, DecideAll, RowsOf, GroupsFrom, GroupsBefore, OpenAfter;
    var w := new Renamer(known);
    var header := true;
    ghost var g0 := Open("", "", []);
    NothingRead(recs);
    for i := 0 to |recs|
      invariant fresh(w) && header == (i == 0)
      invariant Open(w.curAddr, w.curOld, w.curStrs) == OpenAfter(g0, RowsOf(recs[..i]))
      invariant w.View() == DecideAll(Names(known, map[], []), GroupsBefore(g0, RowsOf(recs[..i])))
    {
      var rec := recs[i];
      RowsStep(recs, i);
      if header {
        header := false;
        continue;
      }
      if |rec| < 3 {
        continue;
      }
      var r := Row(rec[0], rec[1], rec[2]);
      GroupsOneMore(g0, RowsOf(recs[..i]), r);
      ghost var h := OpenAfter(g0, RowsOf(recs[..i]));
      DecideConcat(Names(known, map[], []), GroupsBefore(g0, RowsOf(recs[..i])),
                   if r.addr != h.addr then Closing(h) else []);
      w.Record(rec);
    }
    assert recs[..|recs|] == recs;
    ghost var h := OpenAfter(g0, RowsOf(recs));
    GroupsOneMore(g0, RowsOf(recs), Row("", "", ""));
    DecideConcat(Names(known, map[], []), GroupsBefore(g0, RowsOf(recs)), Closing(h));
    w.Flush();
    ns := Names(w.knownNames, w.renameByAddr, w.written);
  }

  lemma NothingRead(recs: seq<seq<string>>)
    ensures RowsOf(recs[..0]) == [] && OpenAfter(Open("", "", []), []) == Open("", "", [])
    ensures GroupsBefore(Open("", "", []), []) == []
    ensures forall ns: Names :: DecideAll(ns, []) == ns
  {
  }

  lemma RowsStep(recs: seq<seq<string>>, i: nat)
    requires i < |recs|
    ensures RowsOf(recs[..i + 1])
         == if i == 0 || |recs[i]| < 3 then RowsOf(recs[..i])
            else RowsOf(recs[..i]) + [Row(recs[i][0], recs[i][1], recs[i][2])]
  {
    assert recs[..i + 1][..i] == recs[..i];
  }

  // ---------------------------------------------------------------- what holds of any rows

  /**
   The names given are new and given once: none was a known name before, no two addresses share
   one, and each was the sole candidate of a group of an anonymous function at that address. A
   group of an anonymous function with a sole candidate goes without only if that name was taken.
   */
  ghost predicate Sound(known: set<string>, ns: Names, gs: seq<Judged>)
  {
    && known <= ns.known
    && (forall n :: n in ns.known && n !in known ==> exists a, o :: (a, o, n) in ns.written)
    && (forall a :: a in ns.renames ==> ns.renames[a] in ns.known && ns.renames[a] !in known)
    && (forall a, b :: a in ns.renames && b in ns.renames && ns.renames[a] == ns.renames[b] ==> a == b)
    && (forall a :: a in ns.renames ==>
          exists g :: g in gs && g.addr == a && IsAnon(g.oldName) && Sole(g.strs, ns.renames[a]))
    && (forall g, n :: g in gs && IsAnon(g.oldName) && Sole(g.strs, n) ==> n in ns.known)
  }

  lemma SoundStep(known: set<string>, ns: Names, gs: seq<Judged>, g: Judged)
    requires Sound(known, ns, gs)
    ensures Sound(known, Decided(ns, g), gs + [g])
  {
    hide Sole, IsAnon;
    var ns1 := Decided(ns, g);
    assert forall h :: h in gs + [g] <==> h in gs || h == g;
    assert ns1 != ns ==> ns1.written[|ns.written|] in ns1.written;
    assert forall x :: x in ns.written ==> x in ns1.written;
  }

  lemma {:induction false} SoundAll(known: set<string>, gs: seq<Judged>)
    ensures Sound(known, DecideAll(Names(known, map[], []), gs), gs)
  {
    hide Sound, Decided;
    var ns := Names(known, map[], []);
    if gs == [] {
      SoundAtFirst(known);
    } else {
      var n := |gs| - 1;
      SoundAll(known, gs[..n]);
      SoundStep(known, DecideAll(ns, gs[..n]), gs[..n], gs[n]);
      DecideConcat(ns, gs[..n], [gs[n]]);
      assert gs == gs[..n] + [gs[n]] && [gs[n]][1..] == [];
    }
  }

  lemma SoundAtFirst(known: set<string>)
    ensures Sound(known, Names(known, map[], []), [])
  {
  }

  // ---------------------------------------------------------------- who gets a name

  /** The group is of an anonymous function and has the sole candidate n. */
  ghost predicate Offers(g: Judged, n: string) { IsAnon(g.oldName) && Sole(g.strs, n) }

  /** Group i is the first to offer n, which no function had before. */
  ghost predicate Claims(known: set<string>, gs: seq<Judged>, i: nat, n: string)
    requires i < |gs|
  {
    Offers(gs[i], n) && n !in known && forall j :: 0 <= j < i ==> !Offers(gs[j], n)
  }

  /** n is what the last claim at address a claims. */
  ghost predicate Gets(known: set<string>, gs: seq<Judged>, a: string, n: string)
  {
    exists i :: 0 <= i < |gs| && gs[i].addr == a && Claims(known, gs, i, n) &&
                forall k, m :: i < k < |gs| && gs[k].addr == a ==> !Claims(known, gs, k, m)
  }

  ghost predicate Settled(known: set<string>, ns: Names, gs: seq<Judged>)
  {
    && (forall n :: n in ns.known <==> n in known || exists g :: g in gs && Offers(g, n))
    && (forall a, n :: a in ns.renames && ns.renames[a] == n <==> Gets(known, gs, a, n))
  }

  lemma SettledStep(known: set<string>, ns: Names, gs: seq<Judged>, g: Judged)
    requires Settled(known, ns, gs)
    ensures Settled(known, Decided(ns, g), gs + [g])
  {
    hide Offers, Sole, IsAnon;
    var ns1, gs1 := Decided(ns, g), gs + [g];
    DecidedMeans(ns, g);
    forall m
      ensures Claims(known, gs1, |gs|, m) <==> Offers(g, m) && m !in ns.known
    {
      ClaimsLast(known, gs, g, m);
    }
    hide Claims, Gets, Decided;
    assert forall h :: h in gs1 <==> h in gs || h == g;
    forall a, n
      ensures a in ns1.renames && ns1.renames[a] == n <==> Gets(known, gs1, a, n)
    {
      GetsStep(known, gs, g, a, n);
    }
  }

  lemma ClaimsLast(known: set<string>, gs: seq<Judged>, g: Judged, m: string)
    ensures Claims(known, gs + [g], |gs|, m) <==> Offers(g, m) && m !in known && forall h :: h in gs ==> !Offers(h, m)
  {
    hide Offers;
    var gs1 := gs + [g];
    assert forall j :: 0 <= j < |gs| ==> gs1[j] == gs[j] && gs[j] in gs;
  }

  lemma DecidedMeans(ns: Names, g: Judged)
    ensures forall n :: Offers(g, n) && n !in ns.known ==>
              Decided(ns, g).known == ns.known + {n} && Decided(ns, g).renames == ns.renames[g.addr := n]
    ensures (forall n :: Offers(g, n) ==> n in ns.known) ==> Decided(ns, g) == ns
    ensures forall n, m :: Offers(g, n) && Offers(g, m) ==> n == m
  {
    hide Sole, IsAnon;
    assert forall n :: Sole(g.strs, n) ==> Candidate(g.strs) == Some(n);
    var c := Candidate(g.strs);
    assert c.Some? ==> Sole(g.strs, c.value);
  }

  lemma GetsStep(known: set<string>, gs: seq<Judged>, g: Judged, a: string, n: string)
    ensures Gets(known, gs + [g], a, n) <==>
            if g.addr == a && exists m :: Claims(known, gs + [g], |gs|, m) then Claims(known, gs + [g], |gs|, n)
            else Gets(known, gs, a, n)
  {
    hide Offers;
    var gs1 := gs + [g];
    forall i, m | 0 <= i < |gs|
      ensures Claims(known, gs1, i, m) <==> Claims(known, gs, i, m)
    {
      assert forall j :: 0 <= j <= i ==> gs1[j] == gs[j];
    }
  }

  /** An address gets exactly the name its last claim claims, which the groups alone tell. */
  lemma NamedIff(known: set<string>, gs: seq<Judged>, a: string, n: string)
    ensures var r := DecideAll(Names(known, map[], []), gs).renames;
            a in r && r[a] == n <==> Gets(known, gs, a, n)
  {
    SettledAll(known, gs);
  }

  lemma {:induction false} SettledAll(known: set<string>, gs: seq<Judged>)
    ensures Settled(known, DecideAll(Names(known, map[], []), gs), gs)
  {
    hide Settled, Decided;
    var ns := Names(known, map[], []);
    if gs == [] {
      SettledAtFirst(known);
    } else {
      var n := |gs| - 1;
      SettledAll(known, gs[..n]);
      SettledStep(known, DecideAll(ns, gs[..n]), gs[..n], gs[n]);
      DecideConcat(ns, gs[..n], [gs[n]]);
      assert gs == gs[..n] + [gs[n]] && [gs[n]][1..] == [];
    }
  }

  lemma SettledAtFirst(known: set<string>)
    ensures Settled(known, Names(known, map[], []), [])
  {
  }

  // ---------------------------------------------------------------- whose strings they were

  /** All strings of the rows at an address. */
  function StringsOf(rows: seq<Row>, a: string): seq<string>
  {
    if rows == [] then [] else (if rows[0].addr == a then [rows[0].str] else []) + StringsOf(rows[1..], a)
  }

  /** The rows of an address stand together, and rows without an address only at the end. */
  ghost predicate Grouped(rows: seq<Row>)
  {
    && (forall i, j, k :: 0 <= i < j < k < |rows| && rows[i].addr == rows[k].addr ==> rows[j].addr == rows[i].addr)
    && (forall i, j :: 0 <= i < j < |rows| && rows[i].addr == "" ==> rows[j].addr == "")
  }

  /** Every group is judged by exactly the strings of its address. */
  ghost predicate OwnStrings(rows: seq<Row>)
  {
    forall g :: g in Groups(rows) ==> g.strs == StringsOf(rows, g.addr)
  }

  lemma StringsCons(rows: seq<Row>, a: string)
    requires rows != []
    ensures StringsOf(rows, a) == (if rows[0].addr == a then [rows[0].str] else []) + StringsOf(rows[1..], a)
  {
  }

  lemma {:induction false} StringsConcat(p: seq<Row>, q: seq<Row>, a: string)
    ensures StringsOf(p + q, a) == StringsOf(p, a) + StringsOf(q, a)
    decreases |p|
  {
    if p == [] {
      assert p + q == q;
    } else {
      hide StringsOf;
      StringsConcat(p[1..], q, a);
      assert (p + q)[0] == p[0] && (p + q)[1..] == p[1..] + q;
      StringsCons(p + q, a);
      StringsCons(p, a);
      Glue(if p[0].addr == a then [p[0].str] else [], StringsOf(p[1..], a), StringsOf(q, a));
    }
  }

  lemma {:induction false} StringsIff(rows: seq<Row>, a: string)
    ensures forall s :: s in StringsOf(rows, a) <==> exists k :: 0 <= k < |rows| && rows[k].addr == a && rows[k].str == s
    ensures StringsOf(rows, a) == [] <==> forall k :: 0 <= k < |rows| ==> rows[k].addr != a
  {
    if rows != [] {
      StringsIff(rows[1..], a);
      assert forall k :: 1 <= k < |rows| ==> rows[k] == rows[1..][k - 1];
      assert forall k :: 0 <= k < |rows| - 1 ==> rows[1..][k] == rows[k + 1];
    }
  }

  /** The open group holds exactly its address's strings so far, and nothing is carried over. */
  ghost predicate InStep(g: Open, pre: seq<Row>)
  {
    && (pre == [] ==> g.addr == "" && g.strs == [])
    && (pre != [] ==> g.addr == pre[|pre| - 1].addr)
    && (g.addr != "" ==> g.strs == StringsOf(pre, g.addr))
  }

  lemma {:induction false} GroupedFrom(g: Open, pre: seq<Row>, rows: seq<Row>)
    requires Grouped(pre + rows) && InStep(g, pre)
    ensures forall j :: j in GroupsFrom(g, rows) ==> j.strs == StringsOf(pre + rows, j.addr)
    decreases |rows|
  {
    if rows == [] {
      assert pre + rows == pre;
    } else {
      var r := rows[0];
      var pre1 := pre + [r];
      assert pre1 + rows[1..] == pre + rows;
      StringsConcat(pre, [r], r.addr);
      assert [r][1..] == [];
      if r.addr != g.addr {
        GroupComplete(g, pre, rows);
      }
      GroupedFrom(Next(g, r), pre1, rows[1..]);
    }
  }

  /** In grouped rows a change of address means the old one is over, the new one new, and nothing carried. */
  lemma GroupComplete(g: Open, pre: seq<Row>, rows: seq<Row>)
    requires Grouped(pre + rows) && InStep(g, pre) && rows != [] && rows[0].addr != g.addr
    ensures Carried(g) == [] && StringsOf(pre, rows[0].addr) == []
    ensures g.addr != "" ==> g.strs == StringsOf(pre + rows, g.addr)
  {
    hide StringsOf, Grouped;
    var a := rows[0].addr;
    if pre == [] {
      StringsIff(pre, a);
    } else {
      NewAddress(pre, rows);
      OldAddress(pre, rows);
      StringsConcat(pre, rows, g.addr);
      assert StringsOf(pre, g.addr) + [] == StringsOf(pre, g.addr);
    }
  }

  lemma NewAddress(pre: seq<Row>, rows: seq<Row>)
    requires Grouped(pre + rows) && pre != [] && rows != [] && rows[0].addr != pre[|pre| - 1].addr
    ensures StringsOf(pre, rows[0].addr) == [] && pre[|pre| - 1].addr != ""
  {
    hide StringsOf, Grouped;
    var all, n := pre + rows, |pre|;
    StringsIff(pre, rows[0].addr);
    assert all[n] == rows[0] && all[n - 1] == pre[n - 1];
    NoBlankBefore(all, n - 1, n);
    forall k | 0 <= k < n
      ensures pre[k].addr != rows[0].addr
    {
      assert all[k] == pre[k];
      OneRun(all, k, n - 1, n);
    }
  }

  lemma OneRun(rows: seq<Row>, i: nat, j: nat, k: nat)
    requires Grouped(rows) && i <= j <= k < |rows|
    ensures rows[i].addr == rows[k].addr ==> rows[j].addr == rows[i].addr
  {
  }

  lemma NoBlankBefore(rows: seq<Row>, i: nat, j: nat)
    requires Grouped(rows) && i < j < |rows|
    ensures rows[i].addr == "" ==> rows[j].addr == ""
  {
  }

  lemma OldAddress(pre: seq<Row>, rows: seq<Row>)
    requires Grouped(pre + rows) && pre != [] && rows != [] && rows[0].addr != pre[|pre| - 1].addr
    ensures StringsOf(rows, pre[|pre| - 1].addr) == []
  {
    hide StringsOf, Grouped;
    var all, n := pre + rows, |pre|;
    StringsIff(rows, pre[n - 1].addr);
    assert all[n] == rows[0] && all[n - 1] == pre[n - 1];
    forall k | 0 <= k < |rows|
      ensures rows[k].addr != pre[n - 1].addr
    {
      assert all[n + k] == rows[k];
      OneRun(all, n - 1, n, n + k);
    }
  }

  /** Grouped rows are judged function by function. */
  lemma GroupedMeansOwn(rows: seq<Row>)
    requires Grouped(rows)
    ensures OwnStrings(rows)
  {
    assert [] + rows == rows;
    GroupedFrom(Open("", "", []), [], rows);
  }

  lemma {:induction false} OpenAfterSnoc(g: Open, rows: seq<Row>, n: nat)
    requires n < |rows|
    ensures OpenAfter(g, rows[..n + 1]) == Next(OpenAfter(g, rows[..n]), rows[n])
    decreases n
  {
    hide Next;
    if n == 0 {
      assert rows[..1] == [rows[0]] && rows[..1][1..] == [] && rows[..0] == [];
    } else {
      assert rows[..n + 1][1..] == rows[1..][..n] && rows[..n][1..] == rows[1..][..n - 1];
      OpenAfterSnoc(Next(g, rows[0]), rows[1..], n - 1);
    }
  }

  /** The groups of some rows are those ended before row n and those from there on. */
  lemma {:induction false} GroupsSplit(g: Open, rows: seq<Row>, n: nat)
    requires n <= |rows|
    ensures GroupsFrom(g, rows) == GroupsBefore(g, rows[..n]) + GroupsFrom(OpenAfter(g, rows[..n]), rows[n..])
    decreases n
  {
    hide Next, Closing;
    if n == 0 {
      assert rows[..0] == [] && rows[0..] == rows;
    } else {
      assert rows[..n][1..] == rows[1..][..n - 1] && rows[1..][n - 1..] == rows[n..];
      GroupsSplit(Next(g, rows[0]), rows[1..], n - 1);
      Glue(if rows[0].addr != g.addr then Closing(g) else [], GroupsBefore(Next(g, rows[0]), rows[1..][..n - 1]),
                 GroupsFrom(OpenAfter(g, rows[..n]), rows[n..]));
    }
  }

  /** The open group belongs to the last row's address, and holds only strings of the rows before. */
  lemma {:induction false} OpenHolds(rows: seq<Row>, n: nat)
    requires n <= |rows|
    ensures var h := OpenAfter(Open("", "", []), rows[..n]);
            && (n > 0 ==> h.addr == rows[n - 1].addr && |h.strs| > 0 && h.strs[|h.strs| - 1] == rows[n - 1].str)
            && forall s :: s in h.strs ==> exists k :: 0 <= k < n && rows[k].str == s
    decreases n
  {
    if n > 0 {
      OpenHolds(rows, n - 1);
      OpenAfterSnoc(Open("", "", []), rows, n - 1);
      var h, h1 := OpenAfter(Open("", "", []), rows[..n - 1]), OpenAfter(Open("", "", []), rows[..n]);
      assert h1 == Next(h, rows[n - 1]);
      assert h1.strs == (if rows[n - 1].addr != h.addr then Carried(h) else h.strs) + [rows[n - 1].str];
    } else {
      assert rows[..0] == [];
    }
  }

  /** The group that is open now is judged in the end, with at least the strings it has. */
  lemma {:induction false} OpenIsJudged(g: Open, rows: seq<Row>)
    requires g.addr != ""
    ensures exists j :: j in GroupsFrom(g, rows) && j.addr == g.addr && g.strs <= j.strs
    ensures rows != [] && rows[0].addr != g.addr ==> Judged(g.addr, g.oldName, g.strs) in GroupsFrom(g, rows)
    decreases |rows|
  {
    if rows == [] || rows[0].addr != g.addr {
      var j := Judged(g.addr, g.oldName, g.strs);
      assert j in Closing(g);
      assert j in GroupsFrom(g, rows) && g.strs <= j.strs;
    } else {
      OpenIsJudged(Next(g, rows[0]), rows[1..]);
    }
  }

  /** Rows without an address stand only at the end; the splitter writes none. */
  ghost predicate BlanksLast(rows: seq<Row>)
  {
    forall i, j :: 0 <= i < j < |rows| && rows[i].addr == "" ==> rows[j].addr == ""
  }

  /** Nothing is carried over then: the open group holds at most the strings its address has had so far. */
  lemma {:induction false} OpenAtMost(rows: seq<Row>, n: nat)
    requires BlanksLast(rows) && n <= |rows|
    ensures var h := OpenAfter(Open("", "", []), rows[..n]);
            && (n > 0 ==> h.addr == rows[n - 1].addr)
            && (n == 0 ==> h == Open("", "", []))
            && (h.addr != "" ==> |h.strs| <= |StringsOf(rows[..n], h.addr)|)
    decreases n
  {
    hide StringsOf;
    assert rows[..0] == [];
    if n > 0 {
      OpenAtMost(rows, n - 1);
      var r := rows[n - 1];
      OpenAfterSnoc(Open("", "", []), rows, n - 1);
      assert rows[..n] == rows[..n - 1] + [r];
      StringsConcat(rows[..n - 1], [r], r.addr);
      OneString(r);
      OpenGrows(OpenAfter(Open("", "", []), rows[..n - 1]), r);
    }
  }

  lemma OneString(r: Row)
    ensures StringsOf([r], r.addr) == [r.str]
  {
    assert [r][1..] == [];
  }

  lemma OpenGrows(g: Open, r: Row)
    ensures var h := Next(g, r);
            && h.addr == r.addr
            && |h.strs| == (if r.addr == g.addr || g.addr == "" then |g.strs| else 0) + 1
  {
  }

  /**
   Of rows that all have an address, or lack it only at the end, every function is judged by its
   own strings exactly when the rows of each address stand together.
   */
  lemma OwnIff(rows: seq<Row>)
    requires BlanksLast(rows)
    ensures OwnStrings(rows) <==> Grouped(rows)
  {
    if Grouped(rows) {
      GroupedMeansOwn(rows);
    }
    if OwnStrings(rows) {
      forall i, j, k | 0 <= i < j < k < |rows| && rows[i].addr == rows[k].addr
        ensures rows[j].addr == rows[i].addr
      {
        if rows[j].addr != rows[i].addr {
          SecondRun(rows, ChangeAfter(rows, i, j), k);
        }
      }
    }
  }

  /** A second run of an address has strings that the group of the first lacks. */
  lemma SecondRun(rows: seq<Row>, m: nat, k: nat)
    requires BlanksLast(rows) && 0 < m < k < |rows|
    requires rows[m - 1].addr == rows[k].addr != "" && rows[m].addr != rows[k].addr
    ensures !OwnStrings(rows)
  {
    hide GroupsFrom, OpenAfter, StringsOf;
    var g0, a := Open("", "", []), rows[k].addr;
    OpenAtMost(rows, m);
    GroupsSplit(g0, rows, m);
    var h := OpenAfter(g0, rows[..m]);
    assert rows[m..][0] == rows[m];
    OpenIsJudged(h, rows[m..]);
    assert Judged(h.addr, h.oldName, h.strs) in Groups(rows);
    assert rows == rows[..m] + rows[m..];
    StringsConcat(rows[..m], rows[m..], a);
    StringsIff(rows[m..], a);
    assert rows[m..][k - m] == rows[k];
  }

  /** A stray row without an address can make up for a second run: here every string is counted twice. */
  lemma BlanksCanRescue(a: string, s: string)
    requires a != ""
    ensures var rows := [Row("", "", s), Row("", a, s), Row("", "", s), Row("", a, s)];
            OwnStrings(rows) && !Grouped(rows)
  {
    var b, r := Row("", "", s), Row("", a, s);
    RescuedGroups(b, r);
    assert [b, r] + [b, r] == [b, r, b, r] && [b] + [r] == [b, r];
    StringsConcat([b, r], [b, r], a);
    StringsConcat([b], [r], a);
    OneString(r);
    assert [b][1..] == [];
    hide Groups;
    assert [b, r, b, r][0].addr == "" && [b, r, b, r][1].addr == a;
  }

  lemma RescuedGroups(b: Row, r: Row)
    requires b.addr == "" && r.addr != ""
    ensures var j := Judged(r.addr, r.fn, [b.str, r.str]); Groups([b, r, b, r]) == [j, j]
  {
    var j, g := Judged(r.addr, r.fn, [b.str, r.str]), Open(r.addr, r.fn, [b.str, r.str]);
    assert [b, r, b, r][1..] == [r, b, r] && [r, b, r][1..] == [b, r] && [b, r][1..] == [r] && [r][1..] == [];
    assert GroupsFrom(g, []) == [j];
    AfterBlank(b, r, b.fn, []);
    assert [r] + [] == [r] && [r] + [b, r] == [r, b, r];
    assert Next(g, b) == Open("", b.fn, [b.str]) && Next(Open("", "", []), b) == Open("", "", [b.str]);
    assert GroupsFrom(g, [b, r]) == [j, j];
    AfterBlank(b, r, "", [b, r]);
  }

  lemma AfterBlank(b: Row, r: Row, fn: string, rest: seq<Row>)
    requires b.addr == "" && r.addr != ""
    ensures GroupsFrom(Open("", fn, [b.str]), [r] + rest) == GroupsFrom(Open(r.addr, r.fn, [b.str, r.str]), rest)
  {
    assert ([r] + rest)[1..] == rest;
    assert Next(Open("", fn, [b.str]), r) == Open(r.addr, r.fn, [b.str, r.str]);
  }

  /** Where the strings are all different, stray rows cannot make up for anything. */
  lemma OwnMeansGrouped(rows: seq<Row>)
    requires OwnStrings(rows) && forall i, j :: 0 <= i < j < |rows| ==> rows[i].str != rows[j].str
    ensures Grouped(rows)
  {
    forall i, j | 0 <= i < j < |rows| && rows[i].addr == ""
      ensures rows[j].addr == ""
    {
      if rows[j].addr != "" {
        FirstAddress(rows, i, j);
      }
    }
    forall i, j, k | 0 <= i < j < k < |rows| && rows[i].addr == rows[k].addr
      ensures rows[j].addr == rows[i].addr
    {
      if rows[j].addr != rows[i].addr && rows[i].addr != "" {
        LaterIsEarlier(rows, ChangeAfter(rows, i, j), k);
      }
    }
  }

  lemma FirstAddress(rows: seq<Row>, i: nat, j: nat)
    requires OwnStrings(rows) && i < j < |rows| && rows[i].addr == "" && rows[j].addr != ""
    ensures exists p, q :: 0 <= p < |rows| && 0 <= q < |rows| && p != q && rows[p].str == rows[q].str
  {
    var m := ChangeAfter(rows, i, j);
    CarriedIsJudged(rows, m);
    var k :| 0 <= k < |rows| && rows[k].addr == rows[m].addr && rows[k].str == rows[m - 1].str;
    assert k != m - 1;
  }

  /** Where the address first changes after row i. */
  function ChangeAfter(rows: seq<Row>, i: nat, j: nat): (m: nat)
    requires i < j < |rows| && rows[j].addr != rows[i].addr
    ensures i < m <= j && rows[m].addr != rows[i].addr && rows[m - 1].addr == rows[i].addr
    decreases j - i
  {
    if rows[j - 1].addr == rows[i].addr then j else ChangeAfter(rows, i, j - 1)
  }

  /** Where an address comes up right after rows without one, it is also judged by the last of those. */
  lemma CarriedIsJudged(rows: seq<Row>, m: nat)
    requires OwnStrings(rows) && 0 < m < |rows| && rows[m - 1].addr == "" && rows[m].addr != ""
    ensures exists k :: 0 <= k < |rows| && rows[k].addr == rows[m].addr && rows[k].str == rows[m - 1].str
  {
    hide GroupsFrom, OpenAfter, StringsOf;
    var g0 := Open("", "", []);
    OpenHolds(rows, m);
    var h := OpenAfter(g0, rows[..m]);
    var h1 := Next(h, rows[m]);
    assert h1.strs == h.strs + [rows[m].str] && h1.strs[|h.strs| - 1] == rows[m - 1].str;
    JudgedLater(g0, rows, m);
    var jd :| jd in Groups(rows) && jd.addr == rows[m].addr && h1.strs <= jd.strs;
    assert jd.strs[|h.strs| - 1] == rows[m - 1].str && jd.strs[|h.strs| - 1] in jd.strs;
    StringsIff(rows, jd.addr);
  }

  lemma JudgedLater(g: Open, rows: seq<Row>, m: nat)
    requires m < |rows| && rows[m].addr != ""
    ensures var h1 := Next(OpenAfter(g, rows[..m]), rows[m]);
            exists j :: j in GroupsFrom(g, rows) && j.addr == rows[m].addr && h1.strs <= j.strs
  {
    GroupsSplit(g, rows, m);
    var h := OpenAfter(g, rows[..m]);
    hide OpenAfter, GroupsBefore;
    assert rows[m..][0] == rows[m] && rows[m..][1..] == rows[m + 1..];
    OpenIsJudged(Next(h, rows[m]), rows[m + 1..]);
    var j :| j in GroupsFrom(Next(h, rows[m]), rows[m + 1..]) && j.addr == rows[m].addr && Next(h, rows[m]).strs <= j.strs;
    assert j in GroupsFrom(h, rows[m..]);
  }

  /** An address that comes up again after its group has ended has its later strings among the earlier ones. */
  lemma LaterIsEarlier(rows: seq<Row>, m: nat, k: nat)
    requires OwnStrings(rows) && 0 < m < k < |rows|
    requires rows[m - 1].addr == rows[k].addr != "" && rows[m].addr != rows[k].addr
    ensures exists p :: 0 <= p < m && rows[p].str == rows[k].str
  {
    hide GroupsFrom, OpenAfter, StringsOf;
    var g0 := Open("", "", []);
    OpenHolds(rows, m);
    GroupsSplit(g0, rows, m);
    var h := OpenAfter(g0, rows[..m]);
    assert rows[m..][0] == rows[m];
    OpenIsJudged(h, rows[m..]);
    var jd := Judged(h.addr, h.oldName, h.strs);
    assert jd in Groups(rows);
    StringsIff(rows, h.addr);
    assert rows[k].str in StringsOf(rows, h.addr);
  }

  /** A name given over grouped rows was the only qualified identifier among all that function's strings. */
  lemma NamedByOwnStrings(rows: seq<Row>, known: set<string>, a: string)
    requires Grouped(rows)
    ensures var ns := DecideAll(Names(known, map[], []), Groups(rows));
            a in ns.renames ==> Sole(StringsOf(rows, a), ns.renames[a])
  {
    hide Sole, GroupsFrom, DecideAll, Grouped;
    SoundAll(known, Groups(rows));
    GroupedMeansOwn(rows);
  }

  lemma OnlyOneQualified(n: string, x: string)
    requires IsQualified(n) && !IsQualified(x)
    ensures Sole([n], n) && Sole([n, x], n) && forall m :: !Sole([x], m)
  {
    hide IsQualified;
    assert n == [n][0] && n == [n, x][0];
  }

  /** Without it, since strings of a row without an address are kept, they name the next function. */
  lemma StrayName(known: set<string>, f: string, g: string, a: string, n: string, x: string)
    requires a != "" && IsAnon(g) && IsQualified(n) && !IsQualified(x) && n !in known
    ensures var rows := [Row(f, "", n), Row(g, a, x)];
            && DecideAll(Names(known, map[], []), Groups(rows)).renames == map[a := n]
            && StringsOf(rows, a) == [x] && !Sole([x], n)
  {
    hide IsAnon, IsQualified, Sole;
    var p, q := Row(f, "", n), Row(g, a, x);
    assert [p, q][1..] == [q] && [q][1..] == [];
    assert StringsOf([q], a) == [x];
    assert [n] + [x] == [n, x];
    var j := Judged(a, g, [n, x]);
    assert Next(Open("", "", []), p) == Open("", "", [n]);
    assert Next(Open("", "", [n]), q) == Open(a, g, [n, x]);
    assert GroupsFrom(Open(a, g, [n, x]), []) == [j];
    assert GroupsFrom(Open("", "", [n]), [q]) == [j];
    OnlyOneQualified(n, x);
    assert [j][1..] == [];
  }

  /** Without it, an address that comes up in two runs is judged twice, and the later name stands. */
  lemma TwoRuns(known: set<string>, f: string, g: string, a: string, b: string, n: string, m: string, x: string)
    requires a != "" && b != "" && a != b && IsAnon(f) && n !in known && m !in known && n != m
    requires IsQualified(n) && IsQualified(m) && !IsQualified(x)
    ensures var rows := [Row(f, a, n), Row(g, b, x), Row(f, a, m)];
            && DecideAll(Names(known, map[], []), Groups(rows)).renames == map[a := m]
            && StringsOf(rows, a) == [n, m] && forall k :: !Sole([n, m], k)
  {
    hide IsAnon, IsQualified, Sole;
    var p, q, r := Row(f, a, n), Row(g, b, x), Row(f, a, m);
    TwoRunStrings(p, q, r);
    var i, j, k := Judged(a, f, [n]), Judged(b, g, [x]), Judged(a, f, [m]);
    TwoRunGroups(p, q, r);
    OnlyOneQualified(n, x);
    OnlyOneQualified(m, x);
    NoSole(n, m);
    DecidedTwice(known, i, j, k, n, m);
  }

  lemma DecidedTwice(known: set<string>, i: Judged, j: Judged, k: Judged, n: string, m: string)
    requires IsAnon(i.oldName) && IsAnon(k.oldName) && i.addr == k.addr && n !in known && m !in known && n != m
    requires Sole(i.strs, n) && Sole(k.strs, m) && forall x :: !Sole(j.strs, x)
    ensures DecideAll(Names(known, map[], []), [i, j, k]).renames == map[i.addr := m]
  {
    hide IsAnon, Sole;
    assert [i, j, k][1..] == [j, k] && [j, k][1..] == [k] && [k][1..] == [];
    var ns1 := Decided(Names(known, map[], []), i);
    assert ns1 == Names(known + {n}, map[i.addr := n], [(i.addr, i.oldName, n)]);
    assert Candidate(j.strs).None? && Decided(ns1, j) == ns1;
    assert Candidate(k.strs) == Some(m);
    var ns2 := Decided(ns1, k);
    assert ns2.renames == map[i.addr := m];
    assert DecideAll(ns2, []) == ns2;
    assert DecideAll(ns1, [k]) == ns2;
    assert DecideAll(ns1, [j, k]) == ns2;
  }

  lemma NoSole(n: string, m: string)
    requires IsQualified(n) && IsQualified(m) && n != m
    ensures forall k :: !Sole([n, m], k)
  {
    hide IsQualified;
    assert n == [n, m][0] && m == [n, m][1];
  }

  lemma TwoRunStrings(p: Row, q: Row, r: Row)
    requires r.addr == p.addr != q.addr
    ensures StringsOf([p, q, r], p.addr) == [p.str, r.str]
  {
    assert [p, q, r][1..] == [q, r] && [q, r][1..] == [r] && [r][1..] == [];
    assert StringsOf([r], p.addr) == [r.str];
    assert StringsOf([q, r], p.addr) == [r.str];
  }

  lemma TwoRunGroups(p: Row, q: Row, r: Row)
    requires p.addr != "" && q.addr != "" && r.addr == p.addr != q.addr
    ensures Groups([p, q, r]) == [Judged(p.addr, p.fn, [p.str]), Judged(q.addr, q.fn, [q.str]), Judged(r.addr, r.fn, [r.str])]
  {
    hide Closing;
    var g1, g2, g3 := Open(p.addr, p.fn, [p.str]), Open(q.addr, q.fn, [q.str]), Open(r.addr, r.fn, [r.str]);
    assert [p, q, r][1..] == [q, r] && [q, r][1..] == [r] && [r][1..] == [];
    assert Next(Open("", "", []), p) == g1 && Next(g1, q) == g2 && Next(g2, r) == g3;
    assert GroupsFrom(g3, []) == Closing(g3);
    assert GroupsFrom(g2, [r]) == Closing(g2) + Closing(g3);
    assert GroupsFrom(g1, [q, r]) == Closing(g1) + (Closing(g2) + Closing(g3));
    Closes(Open("", "", []));
    Closes(g1);
    Closes(g2);
    Closes(g3);
  }

  lemma Closes(g: Open)
    ensures Closing(g) == if g.addr == "" then [] else [Judged(g.addr, g.oldName, g.strs)]
  {
  }

  /** An input of that kind: the functions at one address of two memory spaces, which the header's address drops. */
  lemma TwoRunsExample()
    ensures var rows := [Row("FUN_1000", "0x1000", "A::b"), Row("FUN_2000", "0x2000", "x"), Row("FUN_1000", "0x1000", "C::d")];
            && DecideAll(Names({}, map[], []), Groups(rows)).renames == map["0x1000" := "C::d"]
            && StringsOf(rows, "0x1000") == ["A::b", "C::d"] && forall k :: !Sole(StringsOf(rows, "0x1000"), k)
  {
    ShortQualified("A::b");
    ShortQualified("C::d");
    assert !IsQualified("x");
    assert IsAnon("FUN_1000");
    hide IsQualified, IsAnon, DecideAll, GroupsFrom, StringsOf, Sole;
    TwoRuns({}, "FUN_1000", "FUN_2000", "0x1000", "0x2000", "A::b", "C::d", "x");
  }

  lemma ShortQualified(s: string)
    requires |s| == 4 && s[1..3] == "::" && IsWord(s[..1]) && IsWord(s[3..])
    ensures IsQualified(s)
  {
  }

  // ---------------------------------------------------------------- the symbol table

  datatype Symbol = Symbol(addr: string, name: string)

  predicate IsReal(name: string) { name != "" && !IsAnon(name) }

  /** The names already in the table that a rename must not collide with; a line that does not parse is None. */
  function RealNames(lines: seq<Option<Symbol>>): (names: set<string>)
  {
    set k | 0 <= k < |lines| && lines[k].Some? && IsReal(lines[k].value.name) :: lines[k].value.name
  }

  /** They are the names in the table that are there at all and do not come from an address. */
  lemma RealNamesAre(lines: seq<Option<Symbol>>, name: string)
    ensures name in RealNames(lines) <==>
            name != "" && !IsAnon(name) && exists k :: 0 <= k < |lines| && lines[k].Some? && lines[k].value.name == name
  {
    hide IsAnon;
  }

  method CollectRealNames(lines: seq<Option<Symbol>>) returns (names: set<string>)
    ensures names == RealNames(lines)
  {
    names := {};
    for i := 0 to |lines|
      invariant names == set k | 0 <= k < i && lines[k].Some? && IsReal(lines[k].value.name) :: lines[k].value.name
    {
      if lines[i].None? {
        continue;
      }
      if IsReal(lines[i].value.name) {
        names := names + {lines[i].value.name};
      }
    }
  }

  function Renamed(e: Symbol, renames: map<string, string>): Symbol
  {
    if e.addr in renames then e.(name := renames[e.addr]) else e
  }

  function Parsed(lines: seq<Option<Symbol>>): seq<Symbol>
  {
    if lines == [] then []
    else Parsed(lines[..|lines| - 1]) + if lines[|lines| - 1].None? then [] else [lines[|lines| - 1].value]
  }

  function RenamedAll(es: seq<Symbol>, renames: map<string, string>): (rs: seq<Symbol>)
    ensures |rs| == |es|
  {
    seq(|es|, k requires 0 <= k < |es| => Renamed(es[k], renames))
  }

  /** Rewrites the table line by line; lines that do not parse are gone afterwards. */
  method ApplyRenamesToSymbols(lines: seq<Option<Symbol>>, renames: map<string, string>) returns (out: seq<Symbol>)
    ensures out == RenamedAll(Parsed(lines), renames)
  {
    out := [];
    for i := 0 to |lines|
      invariant out == RenamedAll(Parsed(lines[..i]), renames)
    {
      assert lines[..i + 1][..i] == lines[..i];
      if lines[i].None? {
        continue;
      }
      var e := lines[i].value;
      if e.addr in renames {
        e := e.(name := renames[e.addr]);
      }
      out := out + [e];
    }
    assert lines[..|lines|] == lines;
  }

  ghost predicate RealAt(lines: seq<Option<Symbol>>, k: nat)
    requires k < |lines|
  {
    lines[k].Some? && IsReal(lines[k].value.name)
  }

  ghost predicate KeepsReal(lines: seq<Option<Symbol>>, renames: map<string, string>)
  {
    forall k :: 0 <= k < |lines| && RealAt(lines, k) ==> Renamed(lines[k].value, renames) == lines[k].value
  }

  /** Some group claims a name for the address of a symbol that has a real one. */
  ghost predicate ClaimsReal(lines: seq<Option<Symbol>>, gs: seq<Judged>)
  {
    exists k, i, n :: 0 <= k < |lines| && RealAt(lines, k) && 0 <= i < |gs| && gs[i].addr == lines[k].value.addr &&
                      Claims(RealNames(lines), gs, i, n)
  }

  /** The whole pass leaves every real name of the table as it was if and only if no group of the rows claims one. */
  lemma RealNamesKeptIff(lines: seq<Option<Symbol>>, rows: seq<Row>)
    ensures KeepsReal(lines, DecideAll(Names(RealNames(lines), map[], []), Groups(rows)).renames)
       <==> !ClaimsReal(lines, Groups(rows))
  {
    hide Groups, RealNames, Claims, IsReal, DecideAll;
    var gs, known := Groups(rows), RealNames(lines);
    var ns := DecideAll(Names(known, map[], []), gs);
    forall k | 0 <= k < |lines| && RealAt(lines, k)
      ensures Renamed(lines[k].value, ns.renames) == lines[k].value <==> lines[k].value.addr !in ns.renames
    {
      GivenIsNew(lines, rows, k);
    }
    forall k | 0 <= k < |lines| && RealAt(lines, k)
      ensures lines[k].value.addr in ns.renames <==>
              exists i, n :: 0 <= i < |gs| && gs[i].addr == lines[k].value.addr && Claims(known, gs, i, n)
    {
      ClaimedIff(known, gs, lines[k].value.addr);
    }
  }

  lemma GivenIsNew(lines: seq<Option<Symbol>>, rows: seq<Row>, k: nat)
    requires k < |lines| && RealAt(lines, k)
    ensures var ns := DecideAll(Names(RealNames(lines), map[], []), Groups(rows));
            lines[k].value.addr in ns.renames ==> ns.renames[lines[k].value.addr] != lines[k].value.name
  {
    hide Groups, Sole, IsReal, DecideAll;
    SoundAll(RealNames(lines), Groups(rows));
    assert lines[k].value.name in RealNames(lines);
  }

  /** An address gets a name exactly when some group claims one for it. */
  lemma ClaimedIff(known: set<string>, gs: seq<Judged>, a: string)
    ensures a in DecideAll(Names(known, map[], []), gs).renames <==>
            exists i, n :: 0 <= i < |gs| && gs[i].addr == a && Claims(known, gs, i, n)
  {
    hide Claims, DecideAll;
    SettledAll(known, gs);
    var r := DecideAll(Names(known, map[], []), gs).renames;
    if i, n :| 0 <= i < |gs| && gs[i].addr == a && Claims(known, gs, i, n) {
      var j, m := LastClaim(known, gs, a, i, n);
      assert Gets(known, gs, a, m);
    }
    if a in r {
      assert Gets(known, gs, a, r[a]);
    }
  }

  /** Of the claims at an address there is a last one. */
  lemma LastClaim(known: set<string>, gs: seq<Judged>, a: string, i: nat, n: string) returns (j: nat, m: string)
    requires i < |gs| && gs[i].addr == a && Claims(known, gs, i, n)
    ensures i <= j < |gs| && gs[j].addr == a && Claims(known, gs, j, m)
    ensures forall k, x :: j < k < |gs| && gs[k].addr == a ==> !Claims(known, gs, k, x)
    decreases |gs| - i
  {
    hide Claims;
    if k, x :| i < k < |gs| && gs[k].addr == a && Claims(known, gs, k, x) {
      j, m := LastClaim(known, gs, a, k, x);
    } else {
      j, m := i, n;
    }
  }

  /** The names of the string rows are those of the symbol table. */
  ghost predicate Agrees(rows: seq<Row>, lines: seq<Option<Symbol>>)
  {
    forall i, k :: 0 <= i < |rows| && 0 <= k < |lines| && lines[k].Some? && lines[k].value.addr == rows[i].addr ==>
                     lines[k].value.name == rows[i].fn
  }

  lemma {:induction false} GroupNames(g: Open, rows: seq<Row>)
    ensures forall j :: j in GroupsFrom(g, rows) ==>
              (j.addr == g.addr && j.oldName == g.oldName)
              || exists i :: 0 <= i < |rows| && rows[i].addr == j.addr && rows[i].fn == j.oldName
    decreases |rows|
  {
    if rows != [] {
      GroupNames(Next(g, rows[0]), rows[1..]);
      assert forall i :: 0 <= i < |rows| - 1 ==> rows[1..][i] == rows[i + 1];
    }
  }

  lemma {:induction false} GroupsHaveAddresses(g: Open, rows: seq<Row>)
    ensures forall j :: j in GroupsFrom(g, rows) ==> j.addr != ""
    decreases |rows|
  {
    if rows != [] {
      GroupsHaveAddresses(Next(g, rows[0]), rows[1..]);
    }
  }

  /** With rows that agree with the table, no real name is overwritten. */
  lemma AgreementKeepsRealNames(rows: seq<Row>, lines: seq<Option<Symbol>>, k: nat)
    requires Agrees(rows, lines) && k < |lines| && lines[k].Some? && IsReal(lines[k].value.name)
    ensures var ns := DecideAll(Names(RealNames(lines), map[], []), Groups(rows));
            Renamed(lines[k].value, ns.renames) == lines[k].value
  {
    hide Sole, GroupsFrom, DecideAll, RealNames, IsAnon;
    var ns := DecideAll(Names(RealNames(lines), map[], []), Groups(rows));
    SoundAll(RealNames(lines), Groups(rows));
    GroupNames(Open("", "", []), rows);
    GroupsHaveAddresses(Open("", "", []), rows);
  }

  /** After the rewrite a name that was given stands at its address only, except where an anonymous symbol spelled it. */
  lemma GivenNamesAreFresh(lines: seq<Option<Symbol>>, ns: Names, gs: seq<Judged>, a: string, k: nat)
    requires Sound(RealNames(lines), ns, gs) && a in ns.renames && k < |lines| && lines[k].Some?
    requires Renamed(lines[k].value, ns.renames).name == ns.renames[a]
    ensures lines[k].value.addr == a || !IsReal(lines[k].value.name)
  {
    hide IsReal, Sole, IsAnon;
  }
}
