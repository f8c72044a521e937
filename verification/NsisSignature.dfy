/**
 Finding the NSIS first header in a file: a 16-byte signature in which one byte may have been
 changed, followed by two size fields that must make sense for the file.
 */
module NsisSignature {
  import opened Bytes

  const MAGIC: seq<byte> := [0xEF, 0xBE, 0xAD, 0xDE]
  /** "NullsoftInst" */
  const NAME: seq<byte> := [78, 117, 108, 108, 115, 111, 102, 116, 73, 110, 115, 116]
  const SIGNATURE: seq<byte> := MAGIC + NAME
  const HEADER_SIZE := 28
  const MAX_SCAN := 96 * 0x10_0000
  const MAX_HEADER := 512 * 0x10_0000

  // ---------------------------------------------------------------- distance

  function Hamming(a: seq<byte>, b: seq<byte>): (d: nat)
    requires |a| == |b|
  {
    if |a| == 0 then 0 else Hamming(a[..|a| - 1], b[..|a| - 1]) + if a[|a| - 1] != b[|a| - 1] then 1 else 0
  }

  method HammingLE(a: seq<byte>, want: seq<byte>) returns (d: nat)
    ensures d == if |a| < |want| then |want| else Hamming(a[..|want|], want)
  {
    if |a| < |want| {
      return |want|;
    }
    d := 0;
    for i := 0 to |want|
      invariant d == Hamming(a[..i], want[..i])
    {
      assert a[..i + 1][..i] == a[..i] && want[..i + 1][..i] == want[..i];
      if a[i] != want[i] {
        d := d + 1;
      }
    }
    assert want[..|want|] == want;
  }

  lemma {:induction false} HammingZeroIff(a: seq<byte>, b: seq<byte>)
    requires |a| == |b|
    ensures Hamming(a, b) == 0 <==> a == b
  {
    if |a| > 0 {
      HammingZeroIff(a[..|a| - 1], b[..|a| - 1]);
      assert a == a[..|a| - 1] + [a[|a| - 1]] && b == b[..|a| - 1] + [b[|a| - 1]];
    }
  }

  lemma {:induction false} HammingConcat(a: seq<byte>, b: seq<byte>, c: seq<byte>, d: seq<byte>)
    requires |a| == |b| && |c| == |d|
    ensures Hamming(a + c, b + d) == Hamming(a, b) + Hamming(c, d)
    decreases |c|
  {
    if |c| == 0 {
      assert a + c == a && b + d == b;
    } else {
      var n := |c| - 1;
      HammingConcat(a, b, c[..n], d[..n]);
      assert (a + c)[..|a + c| - 1] == a + c[..n] && (b + d)[..|a + c| - 1] == b + d[..n];
    }
  }

  /** At most one byte differs exactly when no two positions do. */
  lemma {:induction false} HammingOneIff(a: seq<byte>, b: seq<byte>)
    requires |a| == |b|
    ensures Hamming(a, b) <= 1 <==> forall i, j :: 0 <= i < j < |a| ==> a[i] == b[i] || a[j] == b[j]
  {
    if |a| > 0 {
      var n := |a| - 1;
      HammingOneIff(a[..n], b[..n]);
      HammingZeroIff(a[..n], b[..n]);
      if a[n] != b[n] && a[..n] != b[..n] {
        var i :| 0 <= i < n && a[i] != b[i];
      }
      assert forall i, j :: 0 <= i < j < n ==>
        (a[i] == b[i] || a[j] == b[j] <==> a[..n][i] == b[..n][i] || a[..n][j] == b[..n][j]);
    }
  }

  // ---------------------------------------------------------------- candidates

  predicate Has(buf: seq<byte>, p: int, pat: seq<byte>)
  {
    0 <= p && p + |pat| <= |buf| && buf[p..p + |pat|] == pat
  }

  /** The signature stands at p, give or take one byte. */
  predicate Near(buf: seq<byte>, p: int)
  {
    0 <= p && p + 16 <= |buf| && Hamming(buf[p..p + 16], SIGNATURE) <= 1
  }

  predicate Intact(buf: seq<byte>, p: int) { Has(buf, p, MAGIC) }

  /** The near matches before n whose magic number is intact, or is not, in increasing order. */
  function NearBelow(buf: seq<byte>, n: nat, intact: bool): (ps: seq<nat>)
  {
    if n == 0 then []
    else NearBelow(buf, n - 1, intact) + if Near(buf, n - 1) && Intact(buf, n - 1) == intact then [n - 1] else []
  }

  function Candidates(buf: seq<byte>): seq<nat>
  {
    NearBelow(buf, |buf|, true) + NearBelow(buf, |buf|, false)
  }

  /** One changed byte leaves one of the two halves of the signature as it was. */
  lemma OneHalfIntact(buf: seq<byte>, p: nat)
    requires Near(buf, p)
    ensures Has(buf, p, MAGIC) || Has(buf, p + 4, NAME)
  {
    var a, c := buf[p..p + 4], buf[p + 4..p + 16];
    assert buf[p..p + 16] == a + c;
    HammingConcat(a, MAGIC, c, NAME);
    HammingZeroIff(a, MAGIC);
    HammingZeroIff(c, NAME);
  }

  lemma {:induction false} NothingBetween(buf: seq<byte>, m: nat, n: nat, intact: bool)
    requires m <= n && forall p :: m <= p < n ==> !(Near(buf, p) && Intact(buf, p) == intact)
    ensures NearBelow(buf, n, intact) == NearBelow(buf, m, intact)
    decreases n
  {
    if m < n {
      NothingBetween(buf, m, n - 1, intact);
      assert NearBelow(buf, n, intact) == NearBelow(buf, n - 1, intact) + [];
    }
  }

  lemma {:induction false} NearBelowHolds(buf: seq<byte>, n: nat, intact: bool)
    ensures var ps := NearBelow(buf, n, intact);
            && (forall p :: p in ps <==> 0 <= p < n && Near(buf, p) && Intact(buf, p) == intact)
            && forall i, j :: 0 <= i < j < |ps| ==> ps[i] < ps[j]
  {
    hide Near, Intact;
    if n > 0 {
      NearBelowHolds(buf, n - 1, intact);
      var qs := NearBelow(buf, n - 1, intact);
      assert forall i :: 0 <= i < |qs| ==> qs[i] in qs;
    }
  }

  /** bytes.Index: how far after i the pattern first occurs, or -1. */
  method IndexFrom(buf: seq<byte>, i: nat, pat: seq<byte>) returns (idx: int)
    requires i <= |buf|
    ensures -1 <= idx
    ensures idx < 0 ==> forall p :: i <= p ==> !Has(buf, p, pat)
    ensures idx >= 0 ==> Has(buf, i + idx, pat) && forall p :: i <= p < i + idx ==> !Has(buf, p, pat)
  {
    idx := 0;
    while i + idx + |pat| <= |buf|
      invariant 0 <= idx
      invariant forall p :: i <= p < i + idx ==> !Has(buf, p, pat)
    {
      if buf[i + idx..i + idx + |pat|] == pat {
        return idx;
      }
      idx := idx + 1;
    }
    return -1;
  }

  method Add(buf: seq<byte>, seen: set<nat>, out: seq<nat>, sigStart: int) returns (seen1: set<nat>, out1: seq<nat>)
    ensures Near(buf, sigStart) && sigStart !in seen ==> seen1 == seen + {sigStart} && out1 == out + [sigStart]
    ensures !(Near(buf, sigStart) && sigStart !in seen) ==> seen1 == seen && out1 == out
  {
    seen1, out1 := seen, out;
    if sigStart < 0 || sigStart + 16 > |buf| {
      return;
    }
    if sigStart in seen {
      return;
    }
    var d := HammingLE(buf[sigStart..sigStart + 16], SIGNATURE);
    assert buf[sigStart..sigStart + 16][..16] == buf[sigStart..sigStart + 16];
    if d <= 1 {
      seen1, out1 := seen + {sigStart}, out + [sigStart];
    }
  }

  /** Searches for each intact half in turn, and checks the whole window wherever one is found. */
  method SignatureCandidates(buf: seq<byte>) returns (out: seq<nat>)
    ensures out == Candidates(buf)
  {
    hide NearBelow, Near, Has;
    var seen: set<nat> := {};
    out := [];
    var i := 0;
    NearBelowNone(buf, true);
    while true
      invariant i <= |buf| && out == NearBelow(buf, i, true)
      invariant forall p :: p in seen <==> p in out
      decreases |buf| - i
    {
      var idx := IndexFrom(buf, i, MAGIC);
      if idx < 0 {
        NothingBetween(buf, i, |buf|, true);
        break;
      }
      HasRoom(buf, i + idx, MAGIC);
      NothingBetween(buf, i, i + idx, true);
      NearBelowHolds(buf, i + idx, true);
      seen, out := Add(buf, seen, out, i + idx);
      NearBelowStep(buf, i + idx, true);
      i := i + idx + 1;
    }
    ghost var magic := out;
    NearBelowHolds(buf, |buf|, true);
    NearBelowNone(buf, false);
    i := 0;
    while true
      invariant i <= |buf| && out == magic + NearBelow(buf, Back(i), false)
      invariant forall p :: p in seen <==> p in out
      decreases |buf| - i
    {
      var idx := IndexFrom(buf, i, NAME);
      if idx < 0 {
        NoNameLeft(buf, i, |buf|);
        break;
      }
      HasRoom(buf, i + idx, NAME);
      NoNameLeft(buf, i, Back(i + idx));
      NearBelowHolds(buf, Back(i + idx), false);
      NearBelowHolds(buf, |buf|, true);
      seen, out := Add(buf, seen, out, i + idx - 4);
      NearRoom(buf, i + idx - 4);
      if i + idx >= 4 {
        NearBelowStep(buf, i + idx - 4, false);
      }
      i := i + idx + 1;
    }
  }

  /** Where a signature would begin whose name begins before i. */
  function Back(i: nat): nat { if i < 4 then 0 else i - 4 }

  lemma NearBelowNone(buf: seq<byte>, intact: bool)
    ensures NearBelow(buf, 0, intact) == []
  {
  }

  lemma NearBelowStep(buf: seq<byte>, n: nat, intact: bool)
    ensures NearBelow(buf, n + 1, intact)
         == NearBelow(buf, n, intact) + if Near(buf, n) && Intact(buf, n) == intact then [n] else []
  {
  }

  lemma NearRoom(buf: seq<byte>, p: int)
    ensures Near(buf, p) ==> 0 <= p && p + 16 <= |buf|
  {
  }

  lemma HasRoom(buf: seq<byte>, p: int, pat: seq<byte>)
    requires Has(buf, p, pat) && |pat| > 0
    ensures p < |buf|
  {
  }

  lemma NoNameLeft(buf: seq<byte>, i: nat, n: nat)
    requires Back(i) <= n && forall p :: Back(i) < n && i <= p < n + 4 ==> !Has(buf, p, NAME)
    ensures NearBelow(buf, n, false) == NearBelow(buf, Back(i), false)
  {
    forall p | Back(i) <= p < n
      ensures !(Near(buf, p) && Intact(buf, p) == false)
    {
      if Near(buf, p) {
        OneHalfIntact(buf, p);
      }
    }
    NothingBetween(buf, Back(i), n, false);
  }

  /**
   Although only the two intact halves are searched for, the candidates are exactly the offsets
   whose window is within one byte of the signature, none of them twice.
   */
  lemma CandidatesExactly(buf: seq<byte>)
    ensures forall p :: p in Candidates(buf) <==> Near(buf, p)
    ensures var c := Candidates(buf); forall i, j :: 0 <= i < j < |c| ==> c[i] != c[j]
  {
    NearBelowHolds(buf, |buf|, true);
    NearBelowHolds(buf, |buf|, false);
    hide NearBelow, Near, Intact;
    var a, b := NearBelow(buf, |buf|, true), NearBelow(buf, |buf|, false);
    var c := Candidates(buf);
    assert forall i :: 0 <= i < |a| ==> c[i] == a[i] && c[i] in a;
    assert forall i :: |a| <= i < |c| ==> c[i] == b[i - |a|] && c[i] in b;
  }

  // ---------------------------------------------------------------- the header

  function Word(buf: seq<byte>, p: nat): nat
    requires p + 4 <= |buf|
  {
    FromLE(buf[p..p + 4])
  }

  predicate Sane(hdrSize: nat, archiveSize: nat, at: nat, fileSize: nat)
  {
    0 < hdrSize <= MAX_HEADER && archiveSize > HEADER_SIZE && at + archiveSize <= fileSize
  }

  method SaneFirstHeader(hdrSize: nat, archiveSize: nat, at: nat, fileSize: nat) returns (ok: bool)
    ensures ok == Sane(hdrSize, archiveSize, at, fileSize)
  {
    if hdrSize == 0 || hdrSize > MAX_HEADER {
      return false;
    }
    if archiveSize <= HEADER_SIZE {
      return false;
    }
    if at + archiveSize > fileSize {
      return false;
    }
    return true;
  }

  /** A signature at p with its flags before it and believable size fields behind it. */
  predicate Header(buf: seq<byte>, p: int, base: nat, fileSize: nat)
  {
    && Near(buf, p) && p >= 4 && p + 24 <= |buf|
    && Sane(Word(buf, p + 16), Word(buf, p + 20), base + p - 4, fileSize)
  }

  /** Believable sizes: a header of at most 512 MiB, and an archive longer than its 28 bytes that ends in the file. */
  lemma HeaderIs(buf: seq<byte>, p: nat, base: nat, fileSize: nat)
    requires p >= 4 && p + 24 <= |buf|
    ensures Header(buf, p, base, fileSize) <==>
            && Near(buf, p) && 0 < U32(buf, p + 16) <= 536_870_912
            && 28 < U32(buf, p + 20) && base + (p - 4) + U32(buf, p + 20) <= fileSize
  {
    hide Near, FromLE;
    LowByteFirst(buf[p + 16..p + 20]);
    LowByteFirst(buf[p + 20..p + 24]);
  }

  datatype SubType = Plain | Lzma | Bzip2

  datatype Hit = NoHit | Hit(subType: SubType, offset: nat)

  function DeriveSubType(buf: seq<byte>, tail: nat): SubType
  {
    var c := tail + 12;
    if c + 1 < |buf| && buf[c] == 0x5D then Lzma
    else if c + 2 < |buf| && buf[c] == 66 && buf[c + 1] == 90 && buf[c + 2] == 104 then Bzip2
    else Plain
  }

  /** An intact magic number is preferred; among equals the first in the buffer is taken. */
  ghost predicate Best(buf: seq<byte>, p: int, base: nat, fileSize: nat)
  {
    && Header(buf, p, base, fileSize)
    && (forall q :: q < p && Header(buf, q, base, fileSize) && Intact(buf, q) ==> false)
    && (Intact(buf, p) || forall q :: Header(buf, q, base, fileSize) ==> !Intact(buf, q) && p <= q)
  }

  ghost predicate Scanned(h: Hit, buf: seq<byte>, base: nat, fileSize: nat)
  {
    match h
    case NoHit => forall p :: !Header(buf, p, base, fileSize)
    case Hit(t, off) =>
      && off >= base && Best(buf, off - base + 4, base, fileSize)
      && t == DeriveSubType(buf, off - base + 20)
  }

  const BZH: seq<byte> := [66, 90, 104]

  predicate StartsLzma(buf: seq<byte>, c: nat) { c + 1 < |buf| && buf[c] == 0x5D }

  predicate StartsBzip2(buf: seq<byte>, c: nat) { At(buf, c, BZH) }

  /** The compression of data that start at c. */
  function TypeOfData(buf: seq<byte>, c: nat): SubType
  {
    if StartsLzma(buf, c) then Lzma else if StartsBzip2(buf, c) then Bzip2 else Plain
  }

  lemma DerivedFromTail(buf: seq<byte>, tail: nat)
    ensures DeriveSubType(buf, tail) == TypeOfData(buf, tail + 12)
  {
    var c := tail + 12;
    if c + 2 < |buf| {
      var b := buf[c..c + 3];
      assert b[0] == buf[c] && b[1] == buf[c + 1] && b[2] == buf[c + 2];
    }
  }

  /**
   Of data right behind the 28-byte header the type is told from bytes four further on: what is
   reported is their type exactly when both places give the same answer to both questions.
   */
  lemma SubTypeAgreesIff(h: Hit, buf: seq<byte>, base: nat, fileSize: nat)
    requires Scanned(h, buf, base, fileSize) && h.Hit?
    ensures var c := h.offset - base + HEADER_SIZE;
            h.subType == TypeOfData(buf, c) <==>
              && (StartsLzma(buf, c) <==> StartsLzma(buf, c + 4))
              && (StartsBzip2(buf, c) <==> StartsBzip2(buf, c + 4))
  {
    hide Best;
    DerivedFromTail(buf, h.offset - base + 20);
    NotBoth(buf, h.offset - base + HEADER_SIZE);
    NotBoth(buf, h.offset - base + HEADER_SIZE + 4);
  }

  lemma NotBoth(buf: seq<byte>, c: nat)
    ensures !(StartsLzma(buf, c) && StartsBzip2(buf, c))
  {
    if c + 3 <= |buf| {
      assert buf[c..c + 3][0] == buf[c];
    }
  }

  /**
   So compressed data standing there go unnoticed: an LZMA stream, whose properties byte is followed by the
   size of its dictionary, is reported plain if that is below 0x42000000, and a bzip2 stream, whose
   first block begins with the byte 0x31, always.
   */
  lemma DataBehindHeaderMissed(h: Hit, buf: seq<byte>, base: nat, fileSize: nat)
    requires Scanned(h, buf, base, fileSize) && h.Hit?
    ensures var c := h.offset - base + HEADER_SIZE;
            && (StartsLzma(buf, c) && c + 5 <= |buf| && Word(buf, c + 1) < 0x4200_0000 ==> h.subType == Plain)
            && (StartsBzip2(buf, c) && c + 4 < |buf| && buf[c + 4] == 0x31 ==> h.subType == Plain)
  {
    hide Best, FromLE;
    var c := h.offset - base + HEADER_SIZE;
    DerivedFromTail(buf, h.offset - base + 20);
    if c + 7 <= |buf| {
      assert buf[c + 4..c + 7][0] == buf[c + 4];
    }
    if c + 5 <= |buf| {
      TopByte(buf[c + 1..c + 5]);
    }
  }

  /** A header that believes in an archive of 40 bytes, with an LZMA stream of an 8 MB dictionary behind it. */
  const LZMA_ARCHIVE: seq<byte> :=
    [0, 0, 0, 0] + ([0xEF, 0xBE, 0xAD, 0xDE, 78, 117, 108, 108, 115, 111, 102, 116, 73, 110, 115, 116]
    + [1, 0, 0, 0, 40, 0, 0, 0] + [0x5D, 0, 0, 128, 0, 0, 0, 0, 0, 0, 0, 0])

  lemma SmallWord(buf: seq<byte>, p: nat, v: byte)
    requires p + 4 <= |buf| && buf[p..p + 4] == [v, 0, 0, 0]
    ensures Word(buf, p) == v
  {
    var e := buf[p..p + 4];
    assert e[1..] == [0, 0, 0] && e[1..][1..] == [0, 0] && e[1..][1..][1..] == [0] && e[1..][1..][1..][1..] == [];
    assert FromLE([0]) == 0 && FromLE([0, 0]) == 0 && FromLE([0, 0, 0]) == 0;
  }

  lemma LzmaArchiveHeader()
    ensures Header(LZMA_ARCHIVE, 4, 0, 40) && Intact(LZMA_ARCHIVE, 4)
  {
    var buf := LZMA_ARCHIVE;
    assert buf[4..20] == SIGNATURE;
    HammingZeroIff(SIGNATURE, SIGNATURE);
    assert buf[4..8] == MAGIC;
    SmallWord(buf, 20, 1);
    SmallWord(buf, 24, 40);
  }

  /** Scanned as a file of its own it is found at its start, and called plain. */
  lemma LzmaArchiveIsPlain(h: Hit)
    requires Scanned(h, Window(LZMA_ARCHIVE, 0), 0, |LZMA_ARCHIVE|)
    ensures h == Hit(Plain, 0) && StartsLzma(LZMA_ARCHIVE, HEADER_SIZE)
  {
    var buf := LZMA_ARCHIVE;
    assert |buf| == 40 && Window(buf, 0) == buf;
    LzmaArchiveHeader();
    assert h.Hit?;
    assert buf[28] == 0x5D && buf[29] == 0 && buf[30] == 0 && buf[31] == 128 && buf[32] == 0;
    assert buf[29..33] == [buf[29], buf[30], buf[31], buf[32]];
    MediumWord(buf, 29);
    hide Header, Intact;
    DataBehindHeaderMissed(h, buf, 0, 40);
  }

  lemma MediumWord(buf: seq<byte>, p: nat)
    requires p + 4 <= |buf| && buf[p..p + 4] == [0, 0, 128, 0]
    ensures Word(buf, p) == 0x80_0000
  {
    var e := buf[p..p + 4];
    assert e[1..] == [0, 128, 0] && e[1..][1..] == [128, 0] && e[1..][1..][1..] == [0] && e[1..][1..][1..][1..] == [];
    assert FromLE([0]) == 0 && FromLE([128, 0]) == 128 && FromLE([0, 128, 0]) == 0x8000;
  }

  lemma TopByte(e: seq<byte>)
    requires |e| == 4
    ensures FromLE(e) >= 0x100_0000 * (e[3] as int)
  {
    assert e[1..][1..] == e[2..] && e[2..][1..] == e[3..] && e[3..][1..] == [];
    assert FromLE(e[3..]) == e[3];
    assert FromLE(e[2..]) == e[2] + 256 * FromLE(e[3..]);
    assert FromLE(e[1..]) == e[1] + 256 * FromLE(e[2..]);
  }

  function Window(file: seq<byte>, base: nat): seq<byte>
    requires base <= |file|
  {
    if |file| - base > MAX_SCAN then file[base..base + MAX_SCAN] else file[base..]
  }

  /** No more than 96 MiB are searched. */
  lemma WindowIs(file: seq<byte>, base: nat)
    requires base <= |file|
    ensures Window(file, base) == file[base..if |file| <= base + 100_663_296 then |file| else base + 100_663_296]
  {
  }

  method ScanForFirstHeader(file: seq<byte>, base: nat) returns (h: Hit)
    requires base < |file|
    ensures Scanned(h, Window(file, base), base, |file|)
  {
    hide Near, Sane, Candidates, FromLE;
    var buf := Window(file, base);
    var cs := SignatureCandidates(buf);
    CandidatesExactly(buf);
    CandidatesOrdered(buf);
    for k := 0 to |cs|
      invariant forall j :: 0 <= j < k ==> !Header(buf, cs[j], base, |file|)
    {
      var sigStart := cs[k];
      if sigStart < 4 || sigStart + 24 > |buf| {
        continue;
      }
      var hdrSize, archiveSize := Word(buf, sigStart + 16), Word(buf, sigStart + 20);
      var at := base + sigStart - 4;
      var ok := SaneFirstHeader(hdrSize, archiveSize, at, |file|);
      if !ok {
        continue;
      }
      FirstIsBest(buf, cs, k, base, |file|);
      return Hit(DeriveSubType(buf, sigStart + 16), at);
    }
    forall p
      ensures !Header(buf, p, base, |file|)
    {
      NearRoom(buf, p);
      if Near(buf, p) {
        assert p in cs;
      }
    }
    return NoHit;
  }

  predicate Ordered(buf: seq<byte>, cs: seq<nat>)
  {
    forall i, j :: 0 <= i < j < |cs| ==>
      if Intact(buf, cs[i]) then Intact(buf, cs[j]) ==> cs[i] < cs[j] else !Intact(buf, cs[j]) && cs[i] < cs[j]
  }

  lemma CandidatesOrdered(buf: seq<byte>)
    ensures Ordered(buf, Candidates(buf))
  {
    NearBelowHolds(buf, |buf|, true);
    NearBelowHolds(buf, |buf|, false);
    hide NearBelow, Intact;
    var a, b := NearBelow(buf, |buf|, true), NearBelow(buf, |buf|, false);
    var c := Candidates(buf);
    assert forall i :: 0 <= i < |a| ==> c[i] == a[i] && c[i] in a;
    assert forall i :: |a| <= i < |c| ==> c[i] == b[i - |a|] && c[i] in b;
  }

  lemma FirstIsBest(buf: seq<byte>, cs: seq<nat>, k: nat, base: nat, fileSize: nat)
    requires k < |cs| && Ordered(buf, cs) && (forall p :: p in cs <==> Near(buf, p))
    requires Header(buf, cs[k], base, fileSize) && forall j :: 0 <= j < k ==> !Header(buf, cs[j], base, fileSize)
    ensures Best(buf, cs[k], base, fileSize)
  {
    hide Near, Intact, Sane;
    forall q | Header(buf, q, base, fileSize)
      ensures q == cs[k] || exists j :: k < j < |cs| && cs[j] == q
    {
      NearRoom(buf, q);
      assert q in cs;
      var j :| 0 <= j < |cs| && cs[j] == q;
    }
  }

  // ---------------------------------------------------------------- the file

  function ScanBase(file: seq<byte>, overlay: int): nat
  {
    if 0 < overlay < |file| then overlay else 0
  }

  ghost predicate HeaderFrom(file: seq<byte>, base: nat)
  {
    base <= |file| && exists p :: Header(Window(file, base), p, base, |file|)
  }

  /** The overlay is searched first, and the whole file when that finds nothing. */
  method DetectNSIS(file: seq<byte>, overlay: int) returns (h: Hit)
    ensures h.NoHit? <==> !HeaderFrom(file, ScanBase(file, overlay)) && !HeaderFrom(file, 0)
    ensures h.Hit? ==> var base := if HeaderFrom(file, ScanBase(file, overlay)) then ScanBase(file, overlay) else 0;
                       base <= |file| && Scanned(h, Window(file, base), base, |file|)
  {
    if |file| < HEADER_SIZE {
      TooShort(file, 0);
      TooShort(file, ScanBase(file, overlay));
      return NoHit;
    }
    var scanBase := 0;
    if 0 < overlay < |file| {
      scanBase := overlay;
    }
    hide Header, Window;
    h := ScanForFirstHeader(file, scanBase);
    if h.Hit? {
      BestIsHeader(Window(file, scanBase), h.offset - scanBase + 4, scanBase, |file|);
      return;
    }
    if scanBase != 0 {
      h := ScanForFirstHeader(file, 0);
      if h.Hit? {
        BestIsHeader(Window(file, 0), h.offset + 4, 0, |file|);
      }
    }
  }

  lemma BestIsHeader(buf: seq<byte>, p: int, base: nat, fileSize: nat)
    requires Best(buf, p, base, fileSize)
    ensures Header(buf, p, base, fileSize)
  {
  }

  lemma TooShort(file: seq<byte>, base: nat)
    requires |file| < HEADER_SIZE
    ensures !HeaderFrom(file, base)
  {
    hide Near, Sane;
    if base <= |file| {
      assert |Window(file, base)| < HEADER_SIZE;
    }
  }

  lemma SliceSlice(s: seq<byte>, a: nat, b: nat, i: nat, j: nat)
    requires a <= b <= |s| && i <= j <= b - a
    ensures s[a..b][i..j] == s[a + i..a + j]
  {
    var t := s[a..b];
    assert forall k :: i <= k < j ==> t[k] == s[a + k];
    assert forall k :: 0 <= k < j - i ==> t[i..j][k] == s[a + i..a + j][k];
  }

  lemma WindowSlice(file: seq<byte>, base: nat, i: nat, j: nat)
    requires base <= |file| && i <= j <= |Window(file, base)|
    ensures base + j <= |file| && Window(file, base)[i..j] == file[base + i..base + j]
  {
    var b := if |file| - base > MAX_SCAN then base + MAX_SCAN else |file|;
    assert Window(file, base) == file[base..b];
    SliceSlice(file, base, b, i, j);
  }

  /** Near, read off in the file itself: only the bytes of the window count. */
  lemma NearInFile(file: seq<byte>, base: nat, p: nat)
    requires base <= |file| && p + 16 <= |Window(file, base)|
    ensures Near(Window(file, base), p) <==> Near(file, base + p)
  {
    hide Window, Hamming;
    WindowSlice(file, base, p, p + 16);
  }

  lemma SameWord(file: seq<byte>, base: nat, p: nat)
    requires base <= |file| && p + 4 <= |Window(file, base)|
    ensures base + p + 4 <= |file| && Word(Window(file, base), p) == Word(file, base + p)
  {
    hide Window, FromLE;
    WindowSlice(file, base, p, p + 4);
  }

  /** Near, spelled out: no two bytes of the window differ from the signature. */
  lemma NearMeans(buf: seq<byte>, p: nat)
    requires p + 16 <= |buf|
    ensures Near(buf, p)
       <==> forall i, j :: 0 <= i < j < 16 ==> buf[p + i] == SIGNATURE[i] || buf[p + j] == SIGNATURE[j]
  {
    var w := buf[p..p + 16];
    HammingOneIff(w, SIGNATURE);
    hide Hamming;
    assert forall i :: 0 <= i < 16 ==> w[i] == buf[p + i];
  }

  /**
   A header within the first 96 MiB of the overlay is found if at most one byte of its signature
   was changed and its sizes are sane, whatever stands before the overlay.
   */
  lemma TamperedHeaderIsSeen(file: seq<byte>, overlay: int, at: nat)
    requires (if 0 < overlay < |file| then overlay else 0) <= at && at + 28 <= |file|
    requires at + 28 <= (if 0 < overlay < |file| then overlay else 0) + 100_663_296
    requires Near(file, at + 4) && 0 < Word(file, at + 20) <= 536_870_912
    requires 28 < Word(file, at + 24) && at + Word(file, at + 24) <= |file|
    ensures HeaderFrom(file, ScanBase(file, overlay))
  {
    hide Near, FromLE;
    var base := ScanBase(file, overlay);
    var p := at + 4 - base;
    NearInFile(file, base, p);
    SameWord(file, base, p + 16);
    SameWord(file, base, p + 20);
    assert Header(Window(file, base), p, base, |file|);
  }
}
