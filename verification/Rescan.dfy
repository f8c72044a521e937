/**
 Reading the split files back, record by record, and the round trip: what the splitter wrote is
 found again, except for the body lines that the reader takes for something else.
 */
module Rescan {
  import opened Common
  import opened Chars
  import opened DecompiledLines
  import opened Splitter
  import B = BucketFiles

  datatype Found = Found(addr: string, body: string)

  datatype Scan = Scan(out: seq<Found>, cur: Option<Found>)

  /** strings.TrimRight with the cut set "\r\n". */
  function TrimBreaks(l: string): (t: string)
    ensures |t| <= |l| && t == l[..|t|]
    ensures t == "" || (t[|t| - 1] != '\r' && t[|t| - 1] != '\n')
    ensures forall k :: |t| <= k < |l| ==> l[k] == '\r' || l[k] == '\n'
  {
    if l != "" && (l[|l| - 1] == '\r' || l[|l| - 1] == '\n') then TrimBreaks(l[..|l| - 1]) else l
  }

  function Closed(st: Scan): Scan
  {
    match st.cur
    case None => st
    case Some(f) => Scan(st.out + [f], None)
  }

  function Read(st: Scan, line: string): Scan
  {
    var trimmed := TrimBreaks(line);
    match HeaderHex(trimmed)
    case Some(hex) => Scan(Closed(st).out, Some(Found("0x" + Lower(hex), "")))
    case None =>
      if st.cur.None? || IsSep(trimmed) then st
      else st.(cur := Some(st.cur.value.(body := st.cur.value.body + line)))
  }

  function ReadAll(st: Scan, ls: seq<string>): Scan
    decreases |ls|
  {
    if ls == [] then st else ReadAll(Read(st, ls[0]), ls[1..])
  }

  function RescanOf(text: string): seq<Found> { Closed(ReadAll(Scan([], None), Lines(text))).out }

  method ScanSplitRecords(text: string) returns (out: seq<Found>)
    ensures out == RescanOf(text)
  {
    hide Read, HeaderHex, TrimBreaks;
    out := [];
    var curAddr, body, haveRec := "", "", false;
    var i := 0;
    assert text[0..] == text;
    while i < |text|
      invariant i <= |text| && (!haveRec ==> body == "")
      invariant ReadAll(Scan(out, if haveRec then Some(Found(curAddr, body)) else None), Lines(text[i..]))
             == ReadAll(Scan([], None), Lines(text))
    {
      var e := LineEnd(text, i);
      var line := text[i..e];
      NextLine(text, i);
      var trimmed := TrimBreaks(line);
      var m := HeaderHex(trimmed);
      ReadCases(Scan(out, if haveRec then Some(Found(curAddr, body)) else None), line);
      if m.Some? {
        if haveRec {
          out := out + [Found(curAddr, body)];
          body := "";
        }
        curAddr := "0x" + Lower(m.value);
        haveRec := true;
      } else if haveRec {
        if !IsSep(trimmed) {
          body := body + line;
        }
      }
      i := e;
    }
    assert text[i..] == "";
    if haveRec {
      out := out + [Found(curAddr, body)];
    }
  }

  lemma ReadCases(st: Scan, line: string)
    ensures HeaderHex(TrimBreaks(line)).Some? ==>
              Read(st, line)
              == Scan(Closed(st).out, Some(Found("0x" + Lower(HeaderHex(TrimBreaks(line)).value), "")))
    ensures HeaderHex(TrimBreaks(line)).None? ==>
              Read(st, line)
              == if st.cur.None? || IsSep(TrimBreaks(line)) then st
                 else st.(cur := Some(st.cur.value.(body := st.cur.value.body + line)))
  {
  }

  lemma {:induction false} LineEndShift(t: string, i: nat, j: nat)
    requires i <= j <= |t|
    ensures LineEnd(t[i..], j - i) == LineEnd(t, j) - i
    decreases |t| - j
  {
    if j < |t| {
      assert t[i..][j - i] == t[j];
      LineEndShift(t, i, j + 1);
    }
  }

  lemma NextLine(t: string, i: nat)
    requires i < |t|
    ensures var e := LineEnd(t, i); Lines(t[i..]) == [t[i..e]] + Lines(t[e..])
  {
    LineEndShift(t, i, i);
    var e := LineEnd(t, i);
    assert t[i..][..e - i] == t[i..e] && t[i..][e - i..] == t[e..];
  }

  // ---------------------------------------------------------------- what the reader does not mistake

  /** A body line that the reader keeps. */
  predicate Clean(l: string)
  {
    var t := TrimBreaks(l + "\n");
    HeaderHex(t).None? && !IsSep(t)
  }

  lemma {:induction false} TrimPrefix(l: string, n: nat)
    requires n <= |l| && (n == 0 || (l[n - 1] != '\r' && l[n - 1] != '\n'))
    requires forall k :: n <= k < |l| ==> l[k] == '\r' || l[k] == '\n'
    ensures TrimBreaks(l) == l[..n]
    decreases |l|
  {
    if n < |l| {
      TrimPrefix(l[..|l| - 1], n);
      assert l[..|l| - 1][..n] == l[..n];
    } else {
      assert l[..n] == l;
    }
  }

  /** A line break at the end does not matter to the reader. */
  lemma TrimEnded(l: string)
    ensures TrimBreaks(l + "\n") == TrimBreaks(l)
  {
    var t := TrimBreaks(l);
    var m := l + "\n";
    assert forall k :: |t| <= k < |m| ==> m[k] == '\r' || m[k] == '\n';
    TrimPrefix(m, |t|);
    assert m[..|t|] == t;
  }

  /** Headers end in a hex digit and are left alone. */
  lemma TrimKeeps(l: string)
    requires l == "" || (l[|l| - 1] != '\r' && l[|l| - 1] != '\n')
    ensures TrimBreaks(l) == l
  {
  }

  lemma TrimSep(l: string)
    ensures IsSep(TrimBreaks(l)) <==> IsSep(l)
  {
    var t := TrimBreaks(l);
    assert |t| >= 7 ==> t[..7] == l[..7];
    if IsSep(l) {
      assert l[..7][6] == l[6] == ' ';
    }
  }

  /**
   Among the lines the splitter files under a record, the reader loses exactly those that look like
   a separator and those that end in carriage returns and are a record header without them.
   */
  lemma CleanIff(l: string)
    requires OneLine(l) && HeaderHex(l).None?
    ensures Clean(l)
       <==> !IsSep(l) && !(l != "" && l[|l| - 1] == '\r' && HeaderHex(TrimBreaks(l)).Some?)
  {
    hide HeaderHex, IsSep;
    TrimEnded(l);
    TrimSep(l);
    if l == "" || l[|l| - 1] != '\r' {
      assert l != "" ==> l[|l| - 1] in l;
      TrimKeeps(l);
    }
  }

  /** The second happens: a header with a stray carriage return is body text to the splitter only. */
  lemma StrayReturnLost()
    ensures HeaderHex("// 00402000\r").None? && !Clean("// 00402000\r")
  {
    hide HeaderHex;
    var l, h := "// 00402000\r", "// 00402000";
    assert !IsHex('\r');
    if HeaderHex(l).Some? {
      HeaderEnds(l);
    }
    assert l[..11] == h;
    TrimPrefix(l, 11);
    TrimEnded(l);
    assert h == "// " + "" + "00402000";
    assert HeaderOf(h, "", "00402000");
    HeaderHexIff(h, "00402000");
  }

  /** So does the first: a comment that starts like a separator. */
  lemma SeparatorLikeLost()
    ensures HeaderHex("// === note").None? && !Clean("// === note")
  {
    hide HeaderHex;
    var s := "// === note";
    assert s[..7] == SEP;
    SepIsNoHeader(s);
    TrimEnded(s);
    TrimSep(s);
  }

  // ---------------------------------------------------------------- the round trip of one file

  /** What the splitter makes of any input: a header with its address, and no header below it. */
  ghost predicate WellFormed(r: Rec)
  {
    && r.lines != [] && (forall k :: 0 <= k < |r.lines| ==> OneLine(r.lines[k]))
    && HeaderHex(r.lines[0]).Some? && r.addr == Lower(HeaderHex(r.lines[0]).value)
    && (forall k :: 1 <= k < |r.lines| ==> HeaderHex(r.lines[k]).None?)
  }

  function Body(r: Rec): seq<string>
    requires r.lines != []
  {
    Keep(r.lines).lines[1..]
  }

  predicate AllClean(ls: seq<string>) { forall k :: 0 <= k < |ls| ==> Clean(ls[k]) }

  predicate CleanRecords(rs: seq<Rec>)
  {
    forall k :: 0 <= k < |rs| ==> rs[k].lines != [] && AllClean(Body(rs[k]))
  }

  ghost predicate WellFormedAll(rs: seq<Rec>) { forall k :: 0 <= k < |rs| ==> WellFormed(rs[k]) }

  function Expected(rs: seq<Rec>): (fs: seq<Found>)
    requires NonEmpty(rs)
    ensures |fs| == |rs|
  {
    seq(|rs|, k requires 0 <= k < |rs| => Found("0x" + rs[k].addr, Text(Body(rs[k]))))
  }

  function LinesOf(rs: seq<Rec>): seq<string>
    requires NonEmpty(rs)
  {
    if rs == [] then [] else FileLines(rs[0]) + LinesOf(rs[1..])
  }

  lemma {:induction false} ReadConcat(st: Scan, a: seq<string>, b: seq<string>)
    ensures ReadAll(st, a + b) == ReadAll(ReadAll(st, a), b)
    decreases |a|
  {
    hide Read;
    if a == [] {
      assert a + b == b;
    } else {
      ReadConcat(Read(st, a[0]), a[1..], b);
      assert (a + b)[0] == a[0] && (a + b)[1..] == a[1..] + b;
    }
  }

  lemma EndedConcat(a: seq<string>, b: seq<string>)
    ensures Ended(a + b) == Ended(a) + Ended(b)
  {
  }

  lemma EndedCons(ls: seq<string>)
    requires ls != []
    ensures Ended(ls) != [] && Ended(ls)[0] == ls[0] + "\n" && Ended(ls)[1..] == Ended(ls[1..])
  {
  }

  lemma {:induction false} CleanBodyRead(st: Scan, ls: seq<string>)
    requires st.cur.Some? && AllClean(ls)
    ensures ReadAll(st, Ended(ls)) == st.(cur := Some(st.cur.value.(body := st.cur.value.body + Text(ls))))
    decreases |ls|
  {
    hide HeaderHex, IsSep, TrimBreaks;
    if ls == [] {
      assert st.cur.value.body + "" == st.cur.value.body;
    } else {
      EndedCons(ls);
      var st1 := Read(st, ls[0] + "\n");
      CleanBodyRead(st1, ls[1..]);
      var b := st.cur.value.body;
      assert b + (ls[0] + "\n") + Text(ls[1..]) == b + Text(ls);
    }
  }

  /** The separator is passed over, and the header opens the record. */
  lemma HeadRead(st: Scan, r: Rec)
    requires WellFormed(r)
    ensures FileLines(r) == [Separator(r), r.lines[0]] + Body(r)
    ensures ReadAll(st, Ended(FileLines(r)))
         == ReadAll(Scan(Closed(st).out, Some(Found("0x" + r.addr, ""))), Ended(Body(r)))
  {
    hide HeaderHex, TrimBreaks, Keep, NameOf, Size;
    var h, s := r.lines[0], Separator(r);
    assert FileLines(r) == [s, h] + Body(r);
    assert s[..7] == SEP;
    SepIsNoHeader(s);
    TrimEnded(s);
    TrimSep(s);
    SeparatorEnds(r);
    TrimKeeps(s);
    assert Read(st, s + "\n") == st;
    HeaderEnds(h);
    TrimEnded(h);
    TrimKeeps(h);
    var e := Ended(FileLines(r));
    assert e[0] == s + "\n" && e[1..][0] == h + "\n" && e[1..][1..] == Ended(Body(r));
  }

  lemma SeparatorEnds(r: Rec)
    ensures var s := Separator(r); s[|s| - 1] == '='
  {
    hide NameOf, Size, Decimal;
  }

  lemma ExpectedCons(rs: seq<Rec>)
    requires NonEmpty(rs) && rs != []
    ensures Expected(rs) == [Found("0x" + rs[0].addr, Text(Body(rs[0])))] + Expected(rs[1..])
  {
    hide Body, Text;
  }

  lemma {:induction false} CleanRead(st: Scan, rs: seq<Rec>)
    requires NonEmpty(rs) && WellFormedAll(rs) && CleanRecords(rs)
    ensures Closed(ReadAll(st, Ended(LinesOf(rs)))).out == Closed(st).out + Expected(rs)
    decreases |rs|
  {
    hide WellFormed, Read, FileLines, Body, AllClean, Expected, Text;
    if rs == [] {
      assert Expected(rs) == [];
    } else {
      var r := rs[0];
      EndedConcat(FileLines(r), LinesOf(rs[1..]));
      ReadConcat(st, Ended(FileLines(r)), Ended(LinesOf(rs[1..])));
      HeadRead(st, r);
      var st1 := Scan(Closed(st).out, Some(Found("0x" + r.addr, "")));
      CleanBodyRead(st1, Body(r));
      assert "" + Text(Body(r)) == Text(Body(r));
      CleanRead(ReadAll(st1, Ended(Body(r))), rs[1..]);
      ExpectedCons(rs);
      Glue(Closed(st).out, [Found("0x" + r.addr, Text(Body(r)))], Expected(rs[1..]));
    }
  }

  // ---------------------------------------------------------------- nothing less will do

  function BodySize(fs: seq<Found>): nat
  {
    if fs == [] then 0 else |fs[0].body| + BodySize(fs[1..])
  }

  function Weight(st: Scan): nat { BodySize(Closed(st).out) }

  lemma {:induction false} BodySizeConcat(a: seq<Found>, b: seq<Found>)
    ensures BodySize(a + b) == BodySize(a) + BodySize(b)
    decreases |a|
  {
    if a == [] {
      assert a + b == b;
    } else {
      BodySizeConcat(a[1..], b);
      assert (a + b)[0] == a[0] && (a + b)[1..] == a[1..] + b;
    }
  }

  lemma OneSize(f: Found)
    ensures BodySize([f]) == |f.body|
  {
    assert [f][1..] == [];
  }

  function CleanSize(ls: seq<string>): (n: nat)
    ensures n <= |Text(ls)|
    ensures n == |Text(ls)| <==> AllClean(ls)
  {
    if ls == [] then 0
    else
      assert AllClean(ls) <==> Clean(ls[0]) && AllClean(ls[1..]);
      (if Clean(ls[0]) then |ls[0]| + 1 else 0) + CleanSize(ls[1..])
  }

  lemma ReadWeight(st: Scan, l: string)
    requires st.cur.Some?
    ensures var st1 := Read(st, l + "\n");
            st1.cur.Some? && Weight(st1) == Weight(st) + if Clean(l) then |l| + 1 else 0
  {
    hide HeaderHex, IsSep, TrimBreaks;
    var f := st.cur.value;
    var st1 := Read(st, l + "\n");
    BodySizeConcat(st.out, [f]);
    OneSize(f);
    BodySizeConcat(st1.out, [st1.cur.value]);
    OneSize(st1.cur.value);
  }

  lemma {:induction false} BodyWeight(st: Scan, ls: seq<string>)
    requires st.cur.Some?
    ensures var st1 := ReadAll(st, Ended(ls)); st1.cur.Some? && Weight(st1) == Weight(st) + CleanSize(ls)
    decreases |ls|
  {
    hide Read, Clean, Weight;
    if ls != [] {
      EndedCons(ls);
      ReadWeight(st, ls[0]);
      BodyWeight(Read(st, ls[0] + "\n"), ls[1..]);
    }
  }

  function CleanSizes(rs: seq<Rec>): nat
    requires NonEmpty(rs)
  {
    if rs == [] then 0 else CleanSize(Body(rs[0])) + CleanSizes(rs[1..])
  }

  lemma {:induction false} RecordsWeight(st: Scan, rs: seq<Rec>)
    requires NonEmpty(rs) && WellFormedAll(rs)
    ensures Weight(ReadAll(st, Ended(LinesOf(rs)))) == Weight(st) + CleanSizes(rs)
    decreases |rs|
  {
    hide WellFormed, Read, FileLines, Body;
    if rs != [] {
      var r := rs[0];
      EndedConcat(FileLines(r), LinesOf(rs[1..]));
      ReadConcat(st, Ended(FileLines(r)), Ended(LinesOf(rs[1..])));
      HeadRead(st, r);
      var f := Found("0x" + r.addr, "");
      var st1 := Scan(Closed(st).out, Some(f));
      BodySizeConcat(Closed(st).out, [f]);
      OneSize(f);
      BodyWeight(st1, Body(r));
      RecordsWeight(ReadAll(st1, Ended(Body(r))), rs[1..]);
    }
  }

  lemma {:induction false} ExpectedWeight(rs: seq<Rec>)
    requires NonEmpty(rs)
    ensures CleanSizes(rs) <= BodySize(Expected(rs))
    ensures CleanSizes(rs) == BodySize(Expected(rs)) <==> CleanRecords(rs)
    decreases |rs|
  {
    hide Body, AllClean;
    if rs != [] {
      ExpectedWeight(rs[1..]);
      assert Expected(rs)[1..] == Expected(rs[1..]);
      assert CleanRecords(rs) <==> AllClean(Body(rs[0])) && CleanRecords(rs[1..]);
    }
  }

  /**
   Reading back a file that holds the given records returns each of them once, in order, with its
   address and its whole body, if and only if all their body lines are clean.
   */
  lemma RoundTripIff(rs: seq<Rec>)
    requires NonEmpty(rs) && WellFormedAll(rs)
    ensures RescanOf(Text(LinesOf(rs))) == Expected(rs) <==> CleanRecords(rs)
  {
    hide WellFormed, Read, CleanRecords;
    LinesAreOneLine(rs);
    LinesOfText(LinesOf(rs));
    var st := Scan([], None);
    if CleanRecords(rs) {
      CleanRead(st, rs);
      assert [] + Expected(rs) == Expected(rs);
    }
    if RescanOf(Text(LinesOf(rs))) == Expected(rs) {
      RecordsWeight(st, rs);
      ExpectedWeight(rs);
    }
  }

  lemma {:induction false} LinesAreOneLine(rs: seq<Rec>)
    requires NonEmpty(rs) && WellFormedAll(rs)
    ensures forall k :: 0 <= k < |LinesOf(rs)| ==> OneLine(LinesOf(rs)[k])
    decreases |rs|
  {
    hide WellFormed, FileLines;
    if rs != [] {
      LinesAreOneLine(rs[1..]);
      FileLinesOneLine(rs[0]);
    }
  }

  lemma FileLinesOneLine(r: Rec)
    requires WellFormed(r)
    ensures forall k :: 0 <= k < |FileLines(r)| ==> OneLine(FileLines(r)[k])
  {
    hide HeaderHex, NameOf, Separator;
    SeparatorOneLine(r);
    TruncatedOneLine();
    var ks := Keep(r.lines).lines;
    forall j | 1 <= j < |ks|
      ensures OneLine(ks[j])
    {
      if ks[j] != TRUNCATED {
        var i :| 0 <= i < |r.lines[1..]| && r.lines[1..][i] == ks[j];
        assert r.lines[i + 1] == ks[j];
      }
    }
  }

  lemma TruncatedOneLine()
    ensures OneLine(TRUNCATED)
  {
  }

  lemma Joined(a: string, b: string)
    requires OneLine(a) && OneLine(b)
    ensures OneLine(a + b)
  {
  }

  lemma SeparatorOneLine(r: Rec)
    requires WellFormed(r)
    ensures OneLine(Separator(r))
  {
    NameOneLine(r);
    AddrOneLine(r);
    DecimalOneLine(Size(r.lines));
    DecimalOneLine(|r.lines|);
    Pieces();
    hide NameOf, Size, Decimal, WellFormed, OneLine;
    var a := SEP + NameOf(r) + " @ ";
    Joined(SEP, NameOf(r));
    Joined(SEP + NameOf(r), " @ ");
    Joined(a, "0x");
    Joined(a + "0x", r.addr);
    var b := a + "0x" + r.addr + " (size=";
    Joined(a + "0x" + r.addr, " (size=");
    Joined(b, Decimal(Size(r.lines)));
    var c := b + Decimal(Size(r.lines)) + " lines=";
    Joined(b + Decimal(Size(r.lines)), " lines=");
    Joined(c, Decimal(|r.lines|));
    Joined(c + Decimal(|r.lines|), ") ===");
  }

  lemma Pieces()
    ensures OneLine(SEP) && OneLine(" @ ") && OneLine("0x") && OneLine(" (size=") && OneLine(" lines=") && OneLine(") ===")
  {
  }

  lemma DecimalOneLine(n: nat)
    ensures OneLine(Decimal(n))
  {
  }

  lemma AddrOneLine(r: Rec)
    requires WellFormed(r)
    ensures OneLine(r.addr)
  {
    var hex := HeaderHex(r.lines[0]).value;
    hide HeaderHex;
    assert forall k :: 0 <= k < |r.addr| ==> IsHex(hex[k]) && r.addr[k] == LowerChar(hex[k]) != '\n';
  }

  lemma NameOneLine(r: Rec)
    requires WellFormed(r)
    ensures OneLine(NameOf(r))
  {
    AddrOneLine(r);
    hide WellFormed, Signature, IsPrimitive;
    assert forall c :: NameChar(c) ==> c != '\n';
  }

  // ---------------------------------------------------------------- the round trip of a whole split

  /** Every record the splitter makes of single lines is well formed. */
  lemma {:induction false} SplitIsWellFormed(lines: seq<string>, i: nat)
    requires i <= |lines| && forall k :: 0 <= k < |lines| ==> OneLine(lines[k])
    ensures NonEmpty(RecordsFrom(lines, i)) && WellFormedAll(RecordsFrom(lines, i))
    decreases |lines| - i
  {
    hide HeaderHex, IsTotal, Lower;
    if i < |lines| {
      SplitIsWellFormed(lines, i + 1);
      if IsHead(lines[i]) {
        var r := RecordAt(lines, i);
        assert r.lines[0] == lines[i];
        assert forall k :: 1 <= k < |r.lines| ==> r.lines[k] == lines[i + k] && !Ends(lines[i + k]);
      }
    }
  }

  /** The file that the catalog names for the k-th record. */
  function FileAt(rs: seq<Rec>, k: nat): B.Path
    requires NonEmpty(rs) && k < |rs|
  {
    Entries(rs)[k].file
  }

  /** The records whose catalog entry names the file p, in order. */
  function RecordsIn(rs: seq<Rec>, p: B.Path): (ps: seq<Rec>)
    requires NonEmpty(rs)
    ensures NonEmpty(ps)
  {
    if rs == [] then []
    else
      var n := |rs| - 1;
      RecordsIn(rs[..n], p) + if FileAt(rs, n) == p then [rs[n]] else []
  }

  lemma {:induction false} TheyAreWellFormed(rs: seq<Rec>, p: B.Path)
    requires NonEmpty(rs) && WellFormedAll(rs)
    ensures WellFormedAll(RecordsIn(rs, p))
    decreases |rs|
  {
    hide WellFormed, FileAt;
    if rs != [] {
      TheyAreWellFormed(rs[..|rs| - 1], p);
    }
  }

  lemma {:induction false} LinesOfConcat(a: seq<Rec>, b: seq<Rec>)
    requires NonEmpty(a) && NonEmpty(b)
    ensures NonEmpty(a + b) && LinesOf(a + b) == LinesOf(a) + LinesOf(b)
    decreases |a|
  {
    hide FileLines;
    if a == [] {
      assert a + b == b;
    } else {
      LinesOfConcat(a[1..], b);
      assert (a + b)[0] == a[0] && (a + b)[1..] == a[1..] + b;
    }
  }

  /** A block ends in a line break already. */
  lemma BlockTerminated(r: Rec)
    requires r.lines != []
    ensures B.Terminated(BlockOf(r).text) == Text(FileLines(r))
  {
    hide Keep, Separator, Text;
    EndsInBreak(FileLines(r));
  }

  lemma EndsInBreak(ls: seq<string>)
    requires ls != []
    ensures var t := Text(ls); t != "" && t[|t| - 1] == '\n'
  {
    hide Text;
    var n := |ls| - 1;
    TextSnoc(ls[..n], ls[n]);
    assert ls == ls[..n] + [ls[n]];
  }

  lemma {:induction false} GatheredText(rs: seq<Rec>, p: B.Path)
    requires NonEmpty(rs)
    ensures B.Gathered(B.Fresh(), Blocks(rs), p) == Text(LinesOf(RecordsIn(rs, p)))
    decreases |rs|
  {
    hide FileLines, BlockOf, Blocks, FileAt, RecordsIn, LinesOf, Text;
    hide B.Target, B.WriteAll, B.Terminated, B.Gathered, B.PathOf;
    if rs == [] {
      NothingIn(p);
      B.NoWrites(B.Fresh(), p);
    } else {
      var n := |rs| - 1;
      var r := rs[n];
      BlocksSnoc(rs);
      GatheredText(rs[..n], p);
      B.LastWrite(B.Fresh(), Blocks(rs), p);
      InSnoc(rs, p);
      BlockTerminated(r);
      LastLines(RecordsIn(rs[..n], p), r);
    }
  }

  lemma NothingIn(p: B.Path)
    ensures Blocks([]) == [] && RecordsIn([], p) == [] && Text(LinesOf([])) == ""
  {
  }

  lemma BlocksSnoc(rs: seq<Rec>)
    requires NonEmpty(rs) && rs != []
    ensures NonEmpty(rs[..|rs| - 1]) && Blocks(rs)[..|rs| - 1] == Blocks(rs[..|rs| - 1])
    ensures Blocks(rs)[|rs| - 1] == BlockOf(rs[|rs| - 1])
  {
    hide BlockOf;
  }

  lemma InSnoc(rs: seq<Rec>, p: B.Path)
    requires NonEmpty(rs) && rs != []
    ensures NonEmpty(rs[..|rs| - 1])
    ensures var n := |rs| - 1;
            RecordsIn(rs, p)
            == RecordsIn(rs[..n], p) + if B.PathOf(B.Fresh(), Blocks(rs), n) == p then [rs[n]] else []
  {
    hide Blocks, FileAt, B.PathOf;
    FileOfEntry(rs, |rs| - 1);
  }

  lemma FileOfEntry(rs: seq<Rec>, k: nat)
    requires NonEmpty(rs) && k < |rs|
    ensures FileAt(rs, k) == B.PathOf(B.Fresh(), Blocks(rs), k)
  {
  }

  lemma LastLines(ps: seq<Rec>, r: Rec)
    requires NonEmpty(ps) && r.lines != []
    ensures NonEmpty(ps + [r]) && Text(LinesOf(ps + [r])) == Text(LinesOf(ps)) + Text(FileLines(r))
    ensures ps + [] == ps && Text(LinesOf(ps)) + "" == Text(LinesOf(ps))
  {
    hide FileLines, Text;
    LinesOfConcat(ps, [r]);
    assert [r][1..] == [] && LinesOf([r]) == FileLines(r) + LinesOf([]);
    assert LinesOf([r]) == FileLines(r);
    TextConcat(LinesOf(ps), FileLines(r));
  }

  /**
   After a split, reading back any of its files returns exactly the records whose catalog entry
   names it, in order, address and body, if and only if their kept body lines are all clean.
   */
  lemma SplitRoundTripIff(lines: seq<string>, p: B.Path)
    requires forall k :: 0 <= k < |lines| ==> OneLine(lines[k])
    ensures NonEmpty(Records(lines))
    ensures var rs := Records(lines);
            var files := B.WriteAll(B.Fresh(), Blocks(rs));
            RescanOf(B.Content(files, p)) == Expected(RecordsIn(rs, p)) <==> CleanRecords(RecordsIn(rs, p))
  {
    RecordsAreSpans(lines);
    SplitIsWellFormed(lines, 0);
    FileRoundTripIff(Records(lines), p);
  }

  lemma FileRoundTripIff(rs: seq<Rec>, p: B.Path)
    requires NonEmpty(rs) && WellFormedAll(rs)
    ensures RescanOf(B.Content(B.WriteAll(B.Fresh(), Blocks(rs)), p)) == Expected(RecordsIn(rs, p))
       <==> CleanRecords(RecordsIn(rs, p))
  {
    hide WellFormed, B.WriteAll, B.Gathered, RescanOf, CleanRecords, Expected, LinesOf, Text, RecordsIn, Blocks;
    B.FilesAreGathered(B.Fresh(), Blocks(rs), p);
    GatheredText(rs, p);
    var text := B.Gathered(B.Fresh(), Blocks(rs), p);
    assert "" + text == text;
    var ps := RecordsIn(rs, p);
    TheyAreWellFormed(rs, p);
    RoundTripIff(ps);
  }

  /** With no capped record the body given back is every line the input had below the header. */
  lemma WholeBody(r: Rec)
    requires r.lines != [] && !Keep(r.lines).capped
    ensures Body(r) == r.lines[1..]
  {
  }
}
