/**
 Splitting a decompiled C file, line by line, into one record per function: each is written, behind
 a separator line, to its bucket file, and entered in the catalog.
 */
module Splitter {
  import opened Common
  import opened Chars
  import opened DecompiledLines
  import B = BucketFiles

  /** A record: its address in lower case, and its lines, the header first. */
  datatype Rec = Rec(addr: string, lines: seq<string>)

  datatype Split = Split(done: seq<Rec>, cur: Option<Rec>)

  function Flushed(st: Split): Split
  {
    match st.cur
    case None => st
    case Some(r) => Split(st.done + [r], None)
  }

  function LineSeen(st: Split, line: string): Split
  {
    if IsTotal(line) then Flushed(st)
    else match HeaderHex(line)
      case Some(hex) => Split(Flushed(st).done, Some(Rec(Lower(hex), [line])))
      case None =>
        match st.cur
        case None => st
        case Some(r) => st.(cur := Some(r.(lines := r.lines + [line])))
  }

  function Run(st: Split, lines: seq<string>, i: nat): Split
    requires i <= |lines|
    decreases |lines| - i
  {
    if i == |lines| then Flushed(st) else Run(LineSeen(st, lines[i]), lines, i + 1)
  }

  function Records(lines: seq<string>): seq<Rec> { Run(Split([], None), lines, 0).done }

  // ---------------------------------------------------------------- which lines make a record

  predicate IsHead(line: string) { !IsTotal(line) && HeaderHex(line).Some? }

  /** A line that ends the record before it. */
  predicate Ends(line: string) { IsTotal(line) || HeaderHex(line).Some? }

  function EndFrom(lines: seq<string>, i: nat): (e: nat)
    requires i <= |lines|
    ensures i <= e <= |lines| && (e < |lines| ==> Ends(lines[e]))
    ensures forall k :: i <= k < e ==> !Ends(lines[k])
    decreases |lines| - i
  {
    if i == |lines| || Ends(lines[i]) then i else EndFrom(lines, i + 1)
  }

  /** The record whose header is line a: all lines up to the next header or total. */
  function RecordAt(lines: seq<string>, a: nat): Rec
    requires a < |lines| && IsHead(lines[a])
  {
    Rec(Lower(HeaderHex(lines[a]).value), lines[a..EndFrom(lines, a + 1)])
  }

  function RecordsFrom(lines: seq<string>, i: nat): seq<Rec>
    requires i <= |lines|
    decreases |lines| - i
  {
    if i == |lines| then []
    else (if IsHead(lines[i]) then [RecordAt(lines, i)] else []) + RecordsFrom(lines, i + 1)
  }

  /** The open record, completed by the lines from i on. */
  function CurFrom(st: Split, lines: seq<string>, i: nat): seq<Rec>
    requires i <= |lines|
  {
    match st.cur
    case None => []
    case Some(r) => [Rec(r.addr, r.lines + lines[i..EndFrom(lines, i)])]
  }

  lemma EndingLine(st: Split, lines: seq<string>, i: nat)
    requires i < |lines| && Ends(lines[i])
    ensures var st1 := LineSeen(st, lines[i]);
            st1.done + CurFrom(st1, lines, i + 1) + RecordsFrom(lines, i + 1)
            == st.done + CurFrom(st, lines, i) + RecordsFrom(lines, i)
  {
    hide HeaderHex, IsTotal, Lower, EndFrom, RecordsFrom;
    CurEnds(st, lines, i);
    RecordsUnfold(lines, i);
    if IsHead(lines[i]) {
      NewCur(lines, i);
      var x := RecordsFrom(lines, i + 1);
      assert Flushed(st).done + [RecordAt(lines, i)] + x == Flushed(st).done + ([RecordAt(lines, i)] + x);
    }
  }

  lemma CurEnds(st: Split, lines: seq<string>, i: nat)
    requires i < |lines| && Ends(lines[i])
    ensures Flushed(st).done == st.done + CurFrom(st, lines, i)
  {
    hide Ends;
    assert EndFrom(lines, i) == i && lines[i..i] == [];
    assert st.cur.Some? ==> st.cur.value.lines + lines[i..i] == st.cur.value.lines;
  }

  lemma RecordsUnfold(lines: seq<string>, i: nat)
    requires i < |lines|
    ensures RecordsFrom(lines, i)
         == (if IsHead(lines[i]) then [RecordAt(lines, i)] else []) + RecordsFrom(lines, i + 1)
  {
    hide IsHead, RecordAt;
  }

  lemma NewCur(lines: seq<string>, i: nat)
    requires i < |lines| && IsHead(lines[i])
    ensures CurFrom(Split([], Some(Rec(Lower(HeaderHex(lines[i]).value), [lines[i]]))), lines, i + 1)
         == [RecordAt(lines, i)]
  {
    hide HeaderHex, IsTotal, Lower;
    var e := EndFrom(lines, i + 1);
    assert lines[i..e] == [lines[i]] + lines[i + 1..e];
  }

  lemma PlainLine(st: Split, lines: seq<string>, i: nat)
    requires i < |lines| && !Ends(lines[i])
    ensures var st1 := LineSeen(st, lines[i]);
            && st1.done == st.done && CurFrom(st1, lines, i + 1) == CurFrom(st, lines, i)
            && RecordsFrom(lines, i + 1) == RecordsFrom(lines, i)
  {
    hide HeaderHex, IsTotal, Lower;
    var e := EndFrom(lines, i + 1);
    assert EndFrom(lines, i) == e && lines[i..e] == [lines[i]] + lines[i + 1..e];
    if st.cur.Some? {
      var r := st.cur.value;
      assert r.lines + [lines[i]] + lines[i + 1..e] == r.lines + lines[i..e];
    }
  }

  lemma {:induction false} RunIsRecordsFrom(st: Split, lines: seq<string>, i: nat)
    requires i <= |lines|
    ensures Run(st, lines, i).done == st.done + CurFrom(st, lines, i) + RecordsFrom(lines, i)
    decreases |lines| - i
  {
    hide LineSeen, Ends;
    if i == |lines| {
      assert st.cur.Some? ==> st.cur.value.lines + lines[i..i] == st.cur.value.lines;
    } else {
      RunIsRecordsFrom(LineSeen(st, lines[i]), lines, i + 1);
      if Ends(lines[i]) {
        EndingLine(st, lines, i);
      } else {
        PlainLine(st, lines, i);
      }
    }
  }

  /** The splitter's records are the headers of the input, each with every line up to its end, in order. */
  lemma RecordsAreSpans(lines: seq<string>)
    ensures Records(lines) == RecordsFrom(lines, 0)
  {
    RunIsRecordsFrom(Split([], None), lines, 0);
  }

  /** A line belongs to at most one record, and to one exactly when a header stands before it with no total between. */
  lemma OwnedOnce(lines: seq<string>, i: nat, a: nat, b: nat)
    requires a <= i < |lines| && b <= i && IsHead(lines[a]) && IsHead(lines[b])
    ensures i < EndFrom(lines, a + 1) && i < EndFrom(lines, b + 1) ==> a == b
    ensures i < EndFrom(lines, a + 1) <==> forall k :: a < k <= i ==> !Ends(lines[k])
  {
    hide HeaderHex, IsTotal;
    assert Ends(lines[a]) && Ends(lines[b]);
  }

  // ---------------------------------------------------------------- what is written for a record

  const RECORD_CAP := 64 * 0x10_0000
  const TRUNCATED := "// ... [record body truncated by " + "Morgue: exceeded in-memory cap] ..."

  function Size(lines: seq<string>): nat
  {
    if lines == [] then 0 else Size(lines[..|lines| - 1]) + |lines[|lines| - 1]| + 1
  }

  datatype Kept = Kept(lines: seq<string>, capped: bool)

  /** The lines held in memory: all of them, or those up to the cap and a note. */
  function Keep(lines: seq<string>): (k: Kept)
    requires lines != []
    ensures k.lines != [] && k.lines[0] == lines[0]
    ensures forall j :: 1 <= j < |k.lines| ==> k.lines[j] == TRUNCATED || k.lines[j] in lines[1..]
    ensures !k.capped ==> k.lines == lines
  {
    var n := |lines| - 1;
    if n == 0 then Kept(lines, false)
    else
      var k := Keep(lines[..n]);
      if k.capped then k
      else if |Text(k.lines)| >= RECORD_CAP then Kept(k.lines + [TRUNCATED], true)
      else Kept(k.lines + [lines[n]], false)
  }

  /** The signature is the first line after the header that is not blank. */
  function Signature(lines: seq<string>): Option<string>
  {
    if |lines| <= 1 then None
    else
      var n := |lines| - 1;
      var s := Signature(lines[..n]);
      if s.Some? then s else if TrimSpace(lines[n]) != "" then Some(lines[n]) else None
  }

  function NameIn(lines: seq<string>): string
  {
    match Signature(lines) case None => "" case Some(l) => FuncName(l)
  }

  function NameOf(r: Rec): string
  {
    if NameIn(r.lines) != "" then NameIn(r.lines) else "FUN_" + r.addr
  }

  function Separator(r: Rec): string
  {
    SEP + NameOf(r) + " @ " + "0x" + r.addr + " (size=" + Decimal(Size(r.lines)) + " lines=" + Decimal(|r.lines|) + ") ==="
  }

  function FileLines(r: Rec): seq<string>
    requires r.lines != []
  {
    [Separator(r)] + Keep(r.lines).lines
  }

  function BlockOf(r: Rec): B.Block
    requires r.lines != []
  {
    B.Block(r.addr, Text(FileLines(r)))
  }

  /** The signature is line k if that has something in it and the lines between it and the header have not. */
  lemma {:induction false} SignatureIs(lines: seq<string>, k: nat)
    requires 1 <= k <= |lines| && forall j :: 1 <= j < k ==> TrimSpace(lines[j]) == ""
    ensures k == |lines| ==> Signature(lines) == None
    ensures k < |lines| && TrimSpace(lines[k]) != "" ==> Signature(lines) == Some(lines[k])
    decreases |lines|
  {
    hide TrimSpace;
    var n := |lines| - 1;
    if n > 0 {
      SignatureIs(lines[..n], if k <= n then k else n);
    }
  }

  /** The size entered for a record is that of its whole text, the header and every line break included. */
  lemma {:induction false} SizeIsText(lines: seq<string>)
    ensures Size(lines) == |Text(lines)|
  {
    if lines != [] {
      var n := |lines| - 1;
      SizeIsText(lines[..n]);
      assert lines == lines[..n] + [lines[n]];
      TextConcat(lines[..n], [lines[n]]);
      assert [lines[n]][1..] == [];
      assert Text([lines[n]]) == lines[n] + "\n";
    }
  }

  /** Lines are held until the text of those before has reached 64 MB; then comes the note and nothing more. */
  lemma {:induction false} KeepIs(lines: seq<string>, n: nat)
    requires 1 <= n <= |lines| && forall k :: 1 <= k < n ==> |Text(lines[..k])| < 67108864
    ensures n == |lines| ==> Keep(lines) == Kept(lines, false)
    ensures n < |lines| && |Text(lines[..n])| >= 67108864 ==> Keep(lines) == Kept(lines[..n] + [TRUNCATED], true)
    decreases |lines|
  {
    hide Text;
    var m := |lines| - 1;
    if m > 0 {
      var init := lines[..m];
      assert forall k :: 0 <= k <= m ==> init[..k] == lines[..k];
      KeepIs(init, if n <= m then n else m);
      assert lines == init + [lines[m]];
    }
  }

  /** The line before a record and its entry: the name, or FUN_ and the address, the address, size and number of lines. */
  lemma Described(r: Rec, file: B.Path)
    requires r.lines != []
    ensures var name := if NameIn(r.lines) == "" then "FUN_" + r.addr else NameIn(r.lines);
            && Separator(r) == "// === " + name + " @ 0x" + r.addr + " (size=" + Decimal(|Text(r.lines)|) + " lines="
                               + Decimal(|r.lines|) + ") ==="
            && EntryOf(r, file).name == name && EntryOf(r, file).address == "0x" + r.addr && EntryOf(r, file).file == file
            && EntryOf(r, file).sizeBytes == |Text(r.lines)| && EntryOf(r, file).lines == |r.lines|
            && (EntryOf(r, file).isNamed <==> !IsAnon(name))
            && EntryOf(r, file).signature == (if Signature(r.lines) == None then "" else TrimSpace(Signature(r.lines).value))
  {
    hide NameIn, Decimal, Text, IsAnon, TrimSpace, Signature;
    SizeIsText(r.lines);
    AddressPart(r.addr);
  }

  lemma AddressPart(addr: string)
    ensures forall a: string :: a + " @ " + "0x" + addr == a + " @ 0x" + addr
  {
    forall a: string
      ensures a + " @ " + "0x" == a + " @ 0x"
    {
    }
  }

  predicate NonEmpty(rs: seq<Rec>) { forall k :: 0 <= k < |rs| ==> rs[k].lines != [] }

  function Blocks(rs: seq<Rec>): (bs: seq<B.Block>)
    requires NonEmpty(rs)
    ensures |bs| == |rs|
  {
    seq(|rs|, k requires 0 <= k < |rs| => BlockOf(rs[k]))
  }

  datatype Entry = Entry(name: string, address: string, sizeBytes: nat, lines: nat, isNamed: bool,
                         file: B.Path, signature: string)

  function EntryOf(r: Rec, file: B.Path): Entry
  {
    Entry(NameOf(r), "0x" + r.addr, Size(r.lines), |r.lines|, !IsAnon(NameOf(r)), file,
          match Signature(r.lines) case None => "" case Some(l) => TrimSpace(l))
  }

  /** The catalog: one entry for each record, with the file its block went to. */
  function Entries(rs: seq<Rec>): (es: seq<Entry>)
    requires NonEmpty(rs)
    ensures |es| == |rs|
  {
    seq(|rs|, k requires 0 <= k < |rs| => EntryOf(rs[k], B.PathOf(B.Fresh(), Blocks(rs), k)))
  }

  function TotalSize(rs: seq<Rec>): nat
  {
    if rs == [] then 0 else TotalSize(rs[..|rs| - 1]) + Size(rs[|rs| - 1].lines)
  }

  function NamedIn(rs: seq<Rec>): (n: nat)
    ensures n <= |rs|
  {
    if rs == [] then 0 else NamedIn(rs[..|rs| - 1]) + if IsAnon(NameOf(rs[|rs| - 1])) then 0 else 1
  }

  lemma OneMore(rs: seq<Rec>, r: Rec)
    requires NonEmpty(rs) && r.lines != []
    ensures NonEmpty(rs + [r]) && Blocks(rs + [r]) == Blocks(rs) + [BlockOf(r)]
    ensures B.WriteAll(B.Fresh(), Blocks(rs + [r])) == B.Written(B.WriteAll(B.Fresh(), Blocks(rs)), BlockOf(r))
    ensures Entries(rs + [r])
         == Entries(rs) + [EntryOf(r, B.Target(B.WriteAll(B.Fresh(), Blocks(rs)), BlockOf(r)))]
    ensures TotalSize(rs + [r]) == TotalSize(rs) + Size(r.lines)
    ensures NamedIn(rs + [r]) == NamedIn(rs) + if IsAnon(NameOf(r)) then 0 else 1
  {
    hide BlockOf, EntryOf, IsAnon, NameOf, B.WriteAll, B.Written, B.Target, Size;
    var rs1 := rs + [r];
    var bs, bs1 := Blocks(rs), Blocks(rs1);
    var n := |rs|;
    assert bs1 == bs + [BlockOf(r)];
    assert bs1[..n] == bs && rs1[..n] == rs;
    B.LastWrite(B.Fresh(), bs1, B.Path("", 0));
    forall k | 0 <= k < n
      ensures B.PathOf(B.Fresh(), bs1, k) == B.PathOf(B.Fresh(), bs, k)
    {
      B.EarlierPath(B.Fresh(), bs1, n, k);
    }
  }

  // ---------------------------------------------------------------- the splitter object

  /** What the variables of the open record hold, in terms of the lines it has. */
  ghost predicate RecordIs(cur: Option<Rec>, inRecord: bool, addr: string, builder: string, bytes: nat, lines: nat,
                           capped: bool, pending: bool, name: string, sig: string)
  {
    match cur
    case None => !inRecord
    case Some(r) =>
      && inRecord && r.lines != [] && addr == r.addr
      && builder == Text(Keep(r.lines).lines) && capped == Keep(r.lines).capped
      && bytes == Size(r.lines) && lines == |r.lines|
      && pending == Signature(r.lines).None? && name == NameIn(r.lines)
      && sig == match Signature(r.lines) case None => "" case Some(l) => TrimSpace(l)
  }

  lemma RecordOpen(cur: Option<Rec>, inRecord: bool, addr: string, builder: string, bytes: nat, lines: nat,
                   capped: bool, pending: bool, name: string, sig: string)
    ensures RecordIs(cur, inRecord, addr, builder, bytes, lines, capped, pending, name, sig) ==>
              inRecord == cur.Some? && (inRecord ==> cur.value.lines != [])
    ensures cur.None? && !inRecord ==> RecordIs(cur, inRecord, addr, builder, bytes, lines, capped, pending, name, sig)
  {
  }

  lemma RecordStart(addr: string, l: string)
    ensures RecordIs(Some(Rec(addr, [l])), true, addr, l + "\n", |l| + 1, 1, false, true, "", "")
  {
    FirstLine(l);
  }

  /** What one more line does to the variables: it is counted, perhaps the signature, and kept below the cap. */
  lemma RecordStep(r: Rec, addr: string, builder: string, bytes: nat, lines: nat,
                   capped: bool, pending: bool, name: string, sig: string, l: string)
    requires RecordIs(Some(r), true, addr, builder, bytes, lines, capped, pending, name, sig)
    ensures var first := pending && TrimSpace(l) != "";
            var full := |builder| >= RECORD_CAP;
            RecordIs(Some(r.(lines := r.lines + [l])), true, addr,
                     if capped then builder else builder + (if full then TRUNCATED else l) + "\n",
                     bytes + |l| + 1, lines + 1, capped || full, pending && !first,
                     if first then FuncName(l) else name, if first then TrimSpace(l) else sig)
  {
    hide Keep, Signature, NameIn, Size, Text, TrimSpace, FuncName;
    MoreLine(r.lines, l);
  }

  ghost predicate CatalogIs(done: seq<Rec>, entries: seq<Entry>, count: nat, bytes: nat, named: nat, anonymous: nat)
  {
    && NonEmpty(done) && entries == Entries(done) && count == |done| && bytes == TotalSize(done)
    && named == NamedIn(done) && anonymous == |done| - NamedIn(done)
  }

  lemma CatalogStep(done: seq<Rec>, r: Rec, entries: seq<Entry>, count: nat, bytes: nat, named: nat, anonymous: nat)
    requires CatalogIs(done, entries, count, bytes, named, anonymous) && r.lines != []
    ensures NonEmpty(done) && NonEmpty(done + [r])
    ensures B.WriteAll(B.Fresh(), Blocks(done + [r])) == B.Written(B.WriteAll(B.Fresh(), Blocks(done)), BlockOf(r))
    ensures var e := EntryOf(r, B.Target(B.WriteAll(B.Fresh(), Blocks(done)), BlockOf(r)));
            CatalogIs(done + [r], entries + [e], count + 1, bytes + e.sizeBytes,
                      named + (if e.isNamed then 1 else 0), anonymous + (if e.isNamed then 0 else 1))
  {
    hide NonEmpty, BlockOf, EntryOf, IsAnon, NameOf, Entries, Blocks, TotalSize, NamedIn, Size;
    hide B.Written, B.Target, B.WriteAll;
    OneMore(done, r);
    EntryFields(r, B.Target(B.WriteAll(B.Fresh(), Blocks(done)), BlockOf(r)));
  }

  lemma EntryFields(r: Rec, file: B.Path)
    ensures EntryOf(r, file).sizeBytes == Size(r.lines) && EntryOf(r, file).isNamed == !IsAnon(NameOf(r))
  {
    hide Size, IsAnon, NameOf, Signature, TrimSpace;
  }

  class Splitter {
    var inRecord: bool
    var recAddrHex: string
    var recBuilder: string
    var recBytes: nat
    var recLines: nat
    var recCapped: bool
    var sigPending: bool
    var recName: string
    var recSig: string
    const bw: B.BucketWriter
    var entries: seq<Entry>
    var functionCount: nat
    var namedCount: nat
    var anonymousCount: nat
    var totalFunctionBytes: nat
    ghost var state: Split

    ghost predicate RecordValid()
      reads this
    {
      RecordIs(state.cur, inRecord, recAddrHex, recBuilder, recBytes, recLines, recCapped, sigPending, recName, recSig)
    }

    ghost predicate CatalogValid()
      reads this
    {
      CatalogIs(state.done, entries, functionCount, totalFunctionBytes, namedCount, anonymousCount)
    }

    ghost predicate Valid()
      reads this, bw
    {
      && RecordValid() && CatalogValid()
      && bw.Ready() && bw.View() == B.WriteAll(B.Fresh(), Blocks(state.done))
    }

    constructor ()
      ensures Valid() && state == Split([], None) && fresh(bw)
    {
      inRecord, recAddrHex, recBuilder, recBytes, recLines := false, "", "", 0, 0;
      recCapped, sigPending, recName, recSig := false, false, "", "";
      bw := new B.BucketWriter();
      entries, functionCount, namedCount, anonymousCount, totalFunctionBytes := [], 0, 0, 0, 0;
      state := Split([], None);
    }

    /** Writes the open record to its file, behind a separator that describes it. */
    method WriteRecord() returns (e: Entry)
      requires RecordValid() && inRecord && bw.Ready()
      modifies bw
      ensures bw.Ready() && state.cur.Some? && state.cur.value.lines != []
      ensures bw.View() == B.Written(old(bw.View()), BlockOf(state.cur.value))
      ensures e == EntryOf(state.cur.value, B.Target(old(bw.View()), BlockOf(state.cur.value)))
    {
      hide Keep, IsAnon, Signature, NameIn, Size, Text, Decimal, B.Written, B.Target, B.BucketWriter.View;
      ghost var r := state.cur.value;
      var name := recName;
      if name == "" {
        name := "FUN_" + recAddrHex;
      }
      var addr0x := "0x" + recAddrHex;
      var isNamed := name != "" && !IsAnon(name);
      var header := SEP + name + " @ " + addr0x + " (size=" + Decimal(recBytes) + " lines=" + Decimal(recLines) + ") ===\n";
      NamePart(name, addr0x, Decimal(recBytes), Decimal(recLines), r);
      SeparatorText(r, header);
      var relFile := bw.Write(B.Block(recAddrHex, header + recBuilder));
      e := Entry(name, addr0x, recBytes, recLines, isNamed, relFile, recSig);
    }

    method Flush()
      requires Valid()
      modifies this, bw
      ensures Valid() && state == Flushed(old(state))
    {
      hide NonEmpty, BlockOf, EntryOf, Entries, Blocks, CatalogIs, B.Written, B.Target, B.WriteAll, B.BucketWriter.View;
      hide RecordIs, B.BucketWriter.Ready, B.BucketWriter.Valid;
      RecordOpen(state.cur, inRecord, recAddrHex, recBuilder, recBytes, recLines, recCapped, sigPending, recName, recSig);
      if !inRecord {
        return;
      }
      CatalogStep(state.done, state.cur.value, entries, functionCount, totalFunctionBytes, namedCount, anonymousCount);
      var e := WriteRecord();
      Enter(e);
      ClearRecord();
      state := Flushed(state);
      RecordOpen(state.cur, inRecord, recAddrHex, recBuilder, recBytes, recLines, recCapped, sigPending, recName, recSig);
    }

    method Enter(e: Entry)
      modifies `entries, `functionCount, `totalFunctionBytes, `namedCount, `anonymousCount
      ensures entries == old(entries) + [e] && functionCount == old(functionCount) + 1
      ensures totalFunctionBytes == old(totalFunctionBytes) + e.sizeBytes
      ensures namedCount == old(namedCount) + (if e.isNamed then 1 else 0)
      ensures anonymousCount == old(anonymousCount) + (if e.isNamed then 0 else 1)
    {
      entries := entries + [e];
      functionCount := functionCount + 1;
      totalFunctionBytes := totalFunctionBytes + e.sizeBytes;
      if e.isNamed {
        namedCount := namedCount + 1;
      } else {
        anonymousCount := anonymousCount + 1;
      }
    }

    method ClearRecord()
      modifies `inRecord, `recBuilder, `recBytes, `recLines, `recCapped, `recName, `recSig, `sigPending
      ensures !inRecord
    {
      inRecord := false;
      recBuilder, recBytes, recLines, recCapped := "", 0, 0, false;
      recName, recSig, sigPending := "", "", false;
    }

    method StartRecord(addrHex: string, rawLine: string)
      requires Valid()
      modifies this, bw
      ensures Valid() && state == Split(Flushed(old(state)).done, Some(Rec(Lower(addrHex), [rawLine])))
    {
      hide NonEmpty, Entries, Blocks, RecordIs, CatalogIs, Lower;
      hide B.BucketWriter.Ready, B.BucketWriter.Valid, B.BucketWriter.View, B.WriteAll;
      Flush();
      inRecord := true;
      recAddrHex := Lower(addrHex);
      recBuilder := rawLine + "\n";
      recBytes := |rawLine| + 1;
      recLines := 1;
      recCapped := false;
      recName, recSig := "", "";
      sigPending := true;
      state := state.(cur := Some(Rec(recAddrHex, [rawLine])));
      RecordStart(recAddrHex, rawLine);
    }

    method AppendLine(rawLine: string)
      requires Valid() && inRecord && state.cur.Some?
      modifies this
      ensures Valid()
      ensures var r := old(state).cur.value;
              state == old(state).(cur := Some(r.(lines := r.lines + [rawLine])))
    {
      hide NonEmpty, Entries, Blocks, RecordIs, CatalogIs, IsSpace, TrimSpace, FuncName, NameChar;
      hide B.BucketWriter.Ready, B.BucketWriter.Valid, B.BucketWriter.View, B.WriteAll;
      ghost var r := state.cur.value;
      RecordStep(r, recAddrHex, recBuilder, recBytes, recLines, recCapped, sigPending, recName, recSig, rawLine);
      recBytes := recBytes + |rawLine| + 1;
      recLines := recLines + 1;
      NoteSignature(rawLine);
      KeepLine(rawLine);
      state := state.(cur := Some(r.(lines := r.lines + [rawLine])));
    }

    method NoteSignature(rawLine: string)
      modifies `recName, `recSig, `sigPending
      ensures if old(sigPending) && TrimSpace(rawLine) != ""
              then !sigPending && recName == FuncName(rawLine) && recSig == TrimSpace(rawLine)
              else sigPending == old(sigPending) && recName == old(recName) && recSig == old(recSig)
    {
      if sigPending && TrimSpace(rawLine) != "" {
        recName := ExtractFuncName(rawLine);
        recSig := TrimSpace(rawLine);
        sigPending := false;
      }
    }

    method KeepLine(rawLine: string)
      modifies `recBuilder, `recCapped
      ensures var full := |old(recBuilder)| >= RECORD_CAP;
              && recCapped == (old(recCapped) || full)
              && recBuilder == if old(recCapped) then old(recBuilder)
                               else old(recBuilder) + (if full then TRUNCATED else rawLine) + "\n"
    {
      if recCapped {
        return;
      }
      if |recBuilder| >= RECORD_CAP {
        recBuilder := recBuilder + TRUNCATED + "\n";
        recCapped := true;
        return;
      }
      recBuilder := recBuilder + rawLine;
      recBuilder := recBuilder + "\n";
    }

    method OnLine(line: string)
      requires Valid()
      modifies this, bw
      ensures Valid() && state == LineSeen(old(state), line)
    {
      hide HeaderHex, RecordIs, CatalogIs;
      InRecordMeans();
      if IsTotal(line) {
        Flush();
        return;
      }
      var m := HeaderHex(line);
      if m.Some? {
        StartRecord(m.value, line);
        return;
      }
      if inRecord {
        AppendLine(line);
      }
    }

    lemma InRecordMeans()
      requires Valid()
      ensures inRecord <==> state.cur.Some?
    {
    }
  }

  lemma NamePart(name: string, addr0x: string, size: string, lines: string, r: Rec)
    requires name == NameOf(r) && addr0x == "0x" + r.addr
    requires size == Decimal(Size(r.lines)) && lines == Decimal(|r.lines|)
    ensures SEP + name + " @ " + addr0x + " (size=" + size + " lines=" + lines + ") ===\n" == Separator(r) + "\n"
  {
    hide NameOf, Decimal, Size;
    var a := SEP + name + " @ ";
    assert a + addr0x == a + "0x" + r.addr;
    assert ") ===\n" == ") ===" + "\n";
  }

  lemma SeparatorText(r: Rec, header: string)
    requires r.lines != [] && header == Separator(r) + "\n"
    ensures header + Text(Keep(r.lines).lines) == Text(FileLines(r))
  {
    hide Separator, Keep;
    var ls := FileLines(r);
    assert ls[0] == Separator(r) && ls[1..] == Keep(r.lines).lines;
  }

  lemma FirstLine(l: string)
    ensures Keep([l]) == Kept([l], false) && Text([l]) == l + "\n" && Size([l]) == |l| + 1
    ensures Signature([l]).None? && NameIn([l]) == ""
  {
    assert [l][1..] == [] && [l][..0] == [];
    assert Text([l]) == l + "\n" + Text([]);
    assert Size([l]) == Size([]) + |l| + 1;
  }

  lemma MoreLine(lines: seq<string>, l: string)
    requires lines != []
    ensures Keep(lines + [l])
         == if Keep(lines).capped then Keep(lines)
            else if |Text(Keep(lines).lines)| >= RECORD_CAP then Kept(Keep(lines).lines + [TRUNCATED], true)
            else Kept(Keep(lines).lines + [l], false)
    ensures forall x :: Text(Keep(lines).lines + [x]) == Text(Keep(lines).lines) + x + "\n"
    ensures Size(lines + [l]) == Size(lines) + |l| + 1
    ensures Signature(lines + [l])
         == if Signature(lines).Some? then Signature(lines) else if TrimSpace(l) != "" then Some(l) else None
    ensures Signature(lines).None? ==> NameIn(lines) == ""
    ensures NameIn(lines + [l]) == if Signature(lines).Some? then NameIn(lines)
                                   else if TrimSpace(l) != "" then FuncName(l) else ""
  {
    hide Text, TrimSpace, FuncName;
    assert (lines + [l])[..|lines|] == lines;
    forall x
      ensures Text(Keep(lines).lines + [x]) == Text(Keep(lines).lines) + x + "\n"
    {
      TextSnoc(Keep(lines).lines, x);
    }
  }

  datatype Outcome = NoFunctions | SplitInto(entries: seq<Entry>, files: map<B.Path, string>,
                                             functionCount: nat, namedCount: nat, anonymousCount: nat, totalBytes: nat)

  /**
   The whole pass over the lines of a combined file of the given size. Without a single record it
   is an error, unless the file was empty.
   */
  method SplitDecompiledC(lines: seq<string>, inputSize: nat) returns (o: Outcome)
    ensures NonEmpty(Records(lines))
    ensures o.NoFunctions? <==> Records(lines) == [] && inputSize > 0
    ensures o.SplitInto? ==>
              var rs := Records(lines);
              && o.entries == Entries(rs) && o.files == B.WriteAll(B.Fresh(), Blocks(rs)).files
              && o.functionCount == |rs| == o.namedCount + o.anonymousCount
              && o.totalBytes == TotalSize(rs)
  {
    hide Entries, Blocks, TotalSize, NamedIn, LineSeen, B.WriteAll;
    var s := new Splitter();
    for i := 0 to |lines|
      invariant s.Valid() && fresh(s) && fresh(s.bw)
      invariant Run(s.state, lines, i) == Run(Split([], None), lines, 0)
    {
      s.OnLine(lines[i]);
    }
    s.Flush();
    s.bw.CloseOpen();
    if s.functionCount == 0 && inputSize > 0 {
      return NoFunctions;
    }
    return SplitInto(s.entries, s.bw.disk, s.functionCount, s.namedCount, s.anonymousCount, s.totalFunctionBytes);
  }
}
