/**
 The rolling writer of the split files. Records are filed by address into buckets, one file open
 at a time; a full file is followed by the next index, and a file met again is appended to.
 */
module BucketFiles {
  import opened Common
  import opened Chars

  /** The value of one hex digit, and below of a string of them. */
  function Digit(c: char): nat
    requires IsHex(c)
  {
    if c <= '9' then c as nat - 48 else if c <= 'F' then c as nat - 55 else c as nat - 87
  }

  function HexValue(s: string): (v: nat)
    requires AllHex(s)
  {
    if s == "" then 0 else 16 * HexValue(s[..|s| - 1]) + Digit(s[|s| - 1])
  }

  function HexChar(d: nat): char
    requires d < 16
  {
    if d < 10 then (48 + d) as char else (87 + d) as char
  }

  function Hex3(v: nat): (s: string)
    requires v < 4096
  {
    [HexChar(v / 256), HexChar(v / 16 % 16), HexChar(v % 16)]
  }

  const U64 := 0x1_0000_0000_0000_0000
  const FALLBACK := "000"

  function StripPrefix(s: string): string { if |s| >= 2 && s[..2] == "0x" then s[2..] else s }

  /** The middle 12 bits of the address, as three digits; an unreadable address goes to a fixed bucket. */
  function BucketFor(addrHex: string): (b: string)
    ensures |b| == 3
  {
    var h := StripPrefix(Lower(TrimSpace(addrHex)));
    if h == "" || !AllHex(h) || HexValue(h) >= U64 then FALLBACK
    else Hex3(HexValue(h) / 4096 % 4096)
  }

  predicate LowerHex(h: string) { AllHex(h) && Lower(h) == h }

  lemma DigitChar(c: char)
    requires IsHex(c)
    ensures Digit(c) < 16 && HexChar(Digit(c)) == LowerChar(c)
  {
  }

  lemma {:induction false} HexValueBound(s: string, n: nat)
    requires AllHex(s) && |s| <= n <= 16
    ensures HexValue(s) < Power16(n)
    decreases n
  {
    if s != "" {
      HexValueBound(s[..|s| - 1], n - 1);
      DigitChar(s[|s| - 1]);
    } else {
      Power16Positive(n);
    }
  }

  function Power16(n: nat): nat { if n == 0 then 1 else 16 * Power16(n - 1) }

  lemma {:induction false} Power16Positive(n: nat)
    ensures Power16(n) > 0
  {
    if n > 0 {
      Power16Positive(n - 1);
    }
  }

  lemma TopPower()
    ensures Power16(16) == U64
  {
    assert Power16(4) == 0x1_0000;
    assert Power16(8) == 0x1_0000_0000;
    assert Power16(12) == 0x1_0000_0000_0000;
  }

  lemma Divided(q: nat, r: nat)
    requires r < 4096
    ensures (4096 * q + r) / 4096 == q && (4096 * q + r) % 4096 == r
  {
  }

  lemma Divided16(q: nat, r: nat)
    requires r < 16
    ensures (16 * q + r) / 16 == q && (16 * q + r) % 16 == r
  {
  }

  lemma Hex3Digits(a: nat, b: nat, c: nat)
    requires a < 16 && b < 16 && c < 16
    ensures Hex3(256 * a + 16 * b + c) == [HexChar(a), HexChar(b), HexChar(c)]
  {
    var u := 256 * a + 16 * b + c;
    Divided16(16 * a + b, c);
    Divided16(a, b);
    assert u / 256 == a;
  }

  lemma LastDigits(s: string)
    requires AllHex(s) && |s| >= 3
    ensures var n := |s|;
            && Digit(s[n - 3]) < 16 && Digit(s[n - 2]) < 16 && Digit(s[n - 1]) < 16
            && HexValue(s) == 4096 * HexValue(s[..n - 3])
                              + (256 * Digit(s[n - 3]) + 16 * Digit(s[n - 2]) + Digit(s[n - 1]))
  {
    hide Digit;
    var n := |s|;
    DigitChar(s[n - 3]);
    DigitChar(s[n - 2]);
    DigitChar(s[n - 1]);
    assert s[..n - 1][..n - 2] == s[..n - 2] && s[..n - 2][..n - 3] == s[..n - 3];
    assert HexValue(s) == 16 * HexValue(s[..n - 1]) + Digit(s[n - 1]);
    assert HexValue(s[..n - 1]) == 16 * HexValue(s[..n - 2]) + Digit(s[n - 2]);
    assert HexValue(s[..n - 2]) == 16 * HexValue(s[..n - 3]) + Digit(s[n - 3]);
  }

  lemma NoTrim(h: string)
    requires LowerHex(h) && h != ""
    ensures StripPrefix(Lower(TrimSpace(h))) == h
  {
    hide Lower;
    Untrimmed(h);
    assert |h| >= 2 ==> h[..2][1] != 'x';
  }

  lemma Untrimmed(h: string)
    requires AllHex(h) && h != ""
    ensures TrimSpace(h) == h
  {
    assert TrimLeft(h) == h;
    assert TrimRight(h) == h;
    assert h[0..] == h;
  }

  lemma {:induction false} LeadingZeros(h: string, n: nat)
    requires AllHex(h)
    ensures AllHex(Zeros(n) + h) && HexValue(Zeros(n) + h) == HexValue(h)
  {
    hide Digit;
    var z := Zeros(n) + h;
    if h != "" {
      LeadingZeros(h[..|h| - 1], n);
      assert z[..|z| - 1] == Zeros(n) + h[..|h| - 1];
    } else if n > 0 {
      LeadingZeros(h, n - 1);
      assert z[..|z| - 1] == Zeros(n - 1) + h;
      ZeroDigit();
    }
  }

  lemma ZeroDigit()
    ensures Digit('0') == 0
  {
  }

  function Zeros(n: nat): string { seq(n, k => '0') }

  lemma MiddleDigits(z: string)
    requires LowerHex(z) && |z| >= 6
    ensures Hex3(HexValue(z) / 4096 % 4096) == z[|z| - 6..|z| - 3]
  {
    hide HexValue, Lower, Digit, Hex3, HexChar, LowerChar;
    var n := |z|;
    var t := z[..n - 3];
    LastDigits(z);
    LastDigits(t);
    Divided(HexValue(t), 256 * Digit(z[n - 3]) + 16 * Digit(z[n - 2]) + Digit(z[n - 1]));
    Divided(HexValue(t[..n - 6]), 256 * Digit(z[n - 6]) + 16 * Digit(z[n - 5]) + Digit(z[n - 4]));
    Hex3Digits(Digit(z[n - 6]), Digit(z[n - 5]), Digit(z[n - 4]));
    DigitChar(z[n - 6]);
    DigitChar(z[n - 5]);
    DigitChar(z[n - 4]);
    LowerAt(z);
    var r := z[n - 6..n - 3];
    assert r == [z[n - 6], z[n - 5], z[n - 4]];
  }

  lemma LowerZeros(n: nat, h: string)
    requires LowerHex(h)
    ensures LowerHex(Zeros(n) + h)
  {
    LowerAt(h);
    assert Lower(Zeros(n) + h) == Zeros(n) + h;
  }

  /**
   The bucket of an address is its fourth to sixth digit from the right, counting leading zeros:
   nearby addresses share a bucket, and the load base in the high digits does not matter.
   */
  lemma BucketIsMiddleDigits(h: string)
    requires LowerHex(h) && 0 < |h| <= 16
    ensures BucketFor(h) == (Zeros(5) + h)[|h| - 1..|h| + 2]
  {
    hide HexValue, Lower, Digit, Hex3, HexChar, LowerChar;
    NoTrim(h);
    HexValueBound(h, 16);
    TopPower();
    assert |Zeros(5)| == 5;
    LeadingZeros(h, 5);
    LowerZeros(5, h);
    MiddleDigits(Zeros(5) + h);
  }

  /** What is no number of 64 bits goes to the first bucket. */
  lemma UnreadableAddress(addrHex: string)
    ensures var h := StripPrefix(Lower(TrimSpace(addrHex)));
            h == "" || !AllHex(h) || HexValue(h) >= 18446744073709551616 ==> BucketFor(addrHex) == "000"
    ensures forall h: string :: StripPrefix("0x" + h) == h
  {
    forall h: string
      ensures StripPrefix("0x" + h) == h
    {
      assert ("0x" + h)[..2] == "0x" && ("0x" + h)[2..] == h;
    }
  }

  lemma LowerAt(h: string)
    requires Lower(h) == h
    ensures forall k :: 0 <= k < |h| ==> LowerChar(h[k]) == h[k]
  {
  }

  // ---------------------------------------------------------------- the writer on values

  /** A split file is known by its bucket and index. */
  datatype Path = Path(bucket: string, index: nat)

  const SOFT_CAP := 1_500_000

  /** The files as they are once everything buffered is flushed, and which one is open. */
  datatype Writer = Writer(files: map<Path, string>, open: Option<Path>)

  datatype Block = Block(addr: string, text: string)

  function Fresh(): Writer { Writer(map[], None) }

  function Content(w: Writer, p: Path): string { if p in w.files then w.files[p] else "" }

  function Terminated(text: string): (t: string)
    ensures text <= t && t != "" && t[|t| - 1] == '\n'
  {
    if text != "" && text[|text| - 1] == '\n' then text else text + "\n"
  }

  /** The open file while it is of the right bucket and below the cap; else the bucket's next, or its first. */
  function Target(w: Writer, b: Block): Path
  {
    var bucket := BucketFor(b.addr);
    if w.open.None? || w.open.value.bucket != bucket then Path(bucket, 0)
    else if |Content(w, w.open.value)| >= SOFT_CAP then Path(bucket, w.open.value.index + 1)
    else w.open.value
  }

  function Written(w: Writer, b: Block): Writer
  {
    var p := Target(w, b);
    Writer(w.files[p := Content(w, p) + Terminated(b.text)], Some(p))
  }

  function WriteAll(w: Writer, bs: seq<Block>): Writer
  {
    if bs == [] then w else Written(WriteAll(w, bs[..|bs| - 1]), bs[|bs| - 1])
  }

  /** The path that the k-th write returned. */
  function PathOf(w: Writer, bs: seq<Block>, k: nat): Path
    requires k < |bs|
  {
    Target(WriteAll(w, bs[..k]), bs[k])
  }

  /** The blocks whose write returned p, in order. */
  function Gathered(w: Writer, bs: seq<Block>, p: Path): string
  {
    if bs == [] then ""
    else
      var n := |bs| - 1;
      Gathered(w, bs[..n], p) + if PathOf(w, bs, n) == p then Terminated(bs[n].text) else ""
  }

  lemma LastWrite(w: Writer, bs: seq<Block>, p: Path)
    requires bs != []
    ensures var n := |bs| - 1;
            && WriteAll(w, bs) == Written(WriteAll(w, bs[..n]), bs[n])
            && PathOf(w, bs, n) == Target(WriteAll(w, bs[..n]), bs[n])
            && Gathered(w, bs, p)
               == Gathered(w, bs[..n], p) + if PathOf(w, bs, n) == p then Terminated(bs[n].text) else ""
  {
    hide Target, Written, Terminated;
  }

  lemma EarlierPath(w: Writer, bs: seq<Block>, n: nat, k: nat)
    requires k < n <= |bs|
    ensures PathOf(w, bs[..n], k) == PathOf(w, bs, k)
  {
    assert bs[..n][..k] == bs[..k];
  }

  /**
   Whatever the order of the addresses, also when a bucket is returned to, every file ends as what
   it held before followed by the blocks whose write returned its path, in order.
   */
  lemma {:induction false} FilesAreGathered(w: Writer, bs: seq<Block>, p: Path)
    ensures Content(WriteAll(w, bs), p) == Content(w, p) + Gathered(w, bs, p)
  {
    hide Target, Terminated, WriteAll, PathOf, Gathered;
    if bs == [] {
      NoWrites(w, p);
    } else {
      var n := |bs| - 1;
      FilesAreGathered(w, bs[..n], p);
      LastWrite(w, bs, p);
      Glue(Content(w, p), Gathered(w, bs[..n], p), Terminated(bs[n].text));
    }
  }

  lemma NoWrites(w: Writer, p: Path)
    ensures WriteAll(w, []) == w && Gathered(w, [], p) == ""
  {
  }

  /** There is a file exactly where there was one or some write returned its path. */
  lemma {:induction false} FilesAreTargets(w: Writer, bs: seq<Block>, p: Path)
    ensures p in WriteAll(w, bs).files <==> p in w.files || exists k :: 0 <= k < |bs| && PathOf(w, bs, k) == p
  {
    hide Target, Terminated, WriteAll, PathOf;
    if bs == [] {
      NoWrites(w, p);
    } else {
      var n := |bs| - 1;
      FilesAreTargets(w, bs[..n], p);
      LastWrite(w, bs, p);
      forall k | 0 <= k < n
        ensures PathOf(w, bs[..n], k) == PathOf(w, bs, k)
      {
        EarlierPath(w, bs, n, k);
      }
    }
  }

  // ---------------------------------------------------------------- the cap

  /** How much the blocks of a bucket put into its files. */
  function BucketSize(bs: seq<Block>, bucket: string): nat
  {
    if bs == [] then 0
    else
      var b := bs[|bs| - 1];
      BucketSize(bs[..|bs| - 1], bucket) + if BucketFor(b.addr) == bucket then |Terminated(b.text)| else 0
  }

  /** The k-th write goes to a file below the cap; a new file counts as empty. */
  ghost predicate BelowCap(bs: seq<Block>, k: nat)
    requires k < |bs|
  {
    |Content(WriteAll(Fresh(), bs[..k]), PathOf(Fresh(), bs, k))| < 1_500_000
  }

  /** The k-th block changes the bucket, to one whose earlier blocks have reached the cap. */
  ghost predicate FullReturn(bs: seq<Block>, k: nat)
    requires k < |bs|
  {
    && k > 0
    && BucketFor(bs[k - 1].addr) != BucketFor(bs[k].addr)
    && BucketSize(bs[..k], BucketFor(bs[k].addr)) >= 1_500_000
  }

  /** In any stream every file below an existing one is full, and a lone first file holds its whole bucket. */
  ghost predicate Stacked(w: Writer, bs: seq<Block>)
  {
    && (bs == [] <==> w.open.None?)
    && (bs != [] ==> w.open.value in w.files && w.open.value.bucket == BucketFor(bs[|bs| - 1].addr))
    && (forall p, j: nat :: p in w.files && j < p.index ==> |Content(w, Path(p.bucket, j))| >= SOFT_CAP)
    && (forall k: string :: |Content(w, Path(k, 0))| <= BucketSize(bs, k))
    && (forall k: string :: Path(k, 1) !in w.files ==> |Content(w, Path(k, 0))| == BucketSize(bs, k))
  }

  lemma OnlyTarget(w: Writer, b: Block, q: Path)
    ensures Content(Written(w, b), q) == if q == Target(w, b) then Content(w, q) + Terminated(b.text) else Content(w, q)
    ensures q in Written(w, b).files <==> q in w.files || q == Target(w, b)
  {
    hide Target, Terminated;
  }

  lemma FullBelow(w: Writer, bs: seq<Block>, q: Path, j: nat)
    requires bs != [] && Stacked(w, bs[..|bs| - 1])
    requires var b := bs[|bs| - 1]; (q in w.files || q == Target(w, b)) && j < q.index
    ensures |Content(w, Path(q.bucket, j))| >= SOFT_CAP
  {
    hide BucketFor, BucketSize;
    if q !in w.files {
      assert j < w.open.value.index || Path(q.bucket, j) == w.open.value;
    }
  }

  lemma SizesStep(w: Writer, bs: seq<Block>, k: string)
    requires bs != [] && Stacked(w, bs[..|bs| - 1])
    ensures var w1 := Written(w, bs[|bs| - 1]);
            && |Content(w1, Path(k, 0))| <= BucketSize(bs, k)
            && (Path(k, 1) !in w1.files ==> |Content(w1, Path(k, 0))| == BucketSize(bs, k))
  {
    hide BucketFor, Terminated, Written, Content;
    var b := bs[|bs| - 1];
    var p := Target(w, b);
    OnlyTarget(w, b, Path(k, 0));
    OnlyTarget(w, b, Path(k, 1));
    if k == p.bucket && p.index > 1 {
      FullBelow(w, bs, p, 1);
      NoContent(w, Path(k, 1));
    }
  }

  lemma NoContent(w: Writer, p: Path)
    ensures p !in w.files ==> Content(w, p) == ""
  {
  }

  lemma StackedStep(w: Writer, bs: seq<Block>)
    requires bs != [] && Stacked(w, bs[..|bs| - 1])
    ensures Stacked(Written(w, bs[|bs| - 1]), bs)
  {
    hide BucketFor, Terminated, BucketSize, Content;
    var b := bs[|bs| - 1];
    var w1 := Written(w, b);
    forall q, j: nat | q in w1.files && j < q.index
      ensures |Content(w1, Path(q.bucket, j))| >= SOFT_CAP
    {
      FullBelow(w, bs, q, j);
      OnlyTarget(w, b, Path(q.bucket, j));
    }
    forall k: string
      ensures |Content(w1, Path(k, 0))| <= BucketSize(bs, k)
      ensures Path(k, 1) !in w1.files ==> |Content(w1, Path(k, 0))| == BucketSize(bs, k)
    {
      SizesStep(w, bs, k);
    }
  }

  lemma NothingStacked()
    ensures Stacked(Fresh(), [])
  {
  }

  lemma {:induction false} AlwaysStacked(bs: seq<Block>)
    ensures Stacked(WriteAll(Fresh(), bs), bs)
  {
    hide BucketFor, Terminated, WriteAll, Stacked;
    if bs == [] {
      NoWrites(Fresh(), Path("", 0));
      NothingStacked();
    } else {
      AlwaysStacked(bs[..|bs| - 1]);
      LastWrite(Fresh(), bs, Path("", 0));
      StackedStep(WriteAll(Fresh(), bs[..|bs| - 1]), bs);
    }
  }

  /** The open file is the last of its bucket. */
  ghost predicate OnTop(w: Writer)
  {
    w.open.Some? ==> forall p :: p in w.files && p.bucket == w.open.value.bucket ==> p.index <= w.open.value.index
  }

  lemma FilesBelowCap(bs: seq<Block>, k: nat)
    requires k < |bs| && OnTop(WriteAll(Fresh(), bs[..k])) && !FullReturn(bs, k)
    ensures BelowCap(bs, k) && OnTop(WriteAll(Fresh(), bs[..k + 1]))
  {
    hide BucketFor, Terminated, WriteAll, BucketSize;
    var w := WriteAll(Fresh(), bs[..k]);
    AlwaysStacked(bs[..k]);
    LastWrite(Fresh(), bs[..k + 1], Path("", 0));
    assert bs[..k + 1][..k] == bs[..k];
    if w.open.None? || w.open.value.bucket != BucketFor(bs[k].addr) {
      NoSize(BucketFor(bs[k].addr));
      assert |Content(w, Path(BucketFor(bs[k].addr), 0))| < SOFT_CAP;
    }
  }

  lemma NoSize(bucket: string)
    ensures BucketSize([], bucket) == 0
  {
  }

  lemma {:induction false} StaysOnTop(bs: seq<Block>, k: nat)
    requires k <= |bs| && forall i :: 0 <= i < k ==> !FullReturn(bs, i)
    ensures OnTop(WriteAll(Fresh(), bs[..k]))
  {
    hide FullReturn, WriteAll;
    if k == 0 {
      NoWrites(Fresh(), Path("", 0));
    } else {
      StaysOnTop(bs, k - 1);
      FilesBelowCap(bs, k - 1);
    }
  }

  lemma FullReturnFails(bs: seq<Block>, k: nat)
    requires k < |bs| && FullReturn(bs, k)
    ensures !BelowCap(bs, k)
  {
    hide BucketFor, Terminated, WriteAll, BucketSize;
    AlwaysStacked(bs[..k]);
    var w, bucket := WriteAll(Fresh(), bs[..k]), BucketFor(bs[k].addr);
    assert Path(bucket, 1) in w.files ==> |Content(w, Path(bucket, 0))| >= SOFT_CAP;
  }

  /**
   The first write that goes to a full file is the first return to a bucket whose earlier blocks
   have reached the cap: no file is overfilled exactly when there is no such return.
   */
  lemma CapIff(bs: seq<Block>)
    ensures (forall k :: 0 <= k < |bs| ==> BelowCap(bs, k)) <==> (forall k :: 0 <= k < |bs| ==> !FullReturn(bs, k))
  {
    hide BelowCap, FullReturn;
    if forall k :: 0 <= k < |bs| ==> BelowCap(bs, k) {
      forall k | 0 <= k < |bs|
        ensures !FullReturn(bs, k)
      {
        if FullReturn(bs, k) {
          FullReturnFails(bs, k);
        }
      }
    }
    if forall k :: 0 <= k < |bs| ==> !FullReturn(bs, k) {
      forall k | 0 <= k < |bs|
        ensures BelowCap(bs, k)
      {
        StaysOnTop(bs, k);
        FilesBelowCap(bs, k);
      }
    }
  }

  /** No bucket is left and come back to. */
  ghost predicate Contiguous(bs: seq<Block>)
  {
    forall i, j, k :: 0 <= i < j < k < |bs| && BucketFor(bs[i].addr) == BucketFor(bs[k].addr)
                      ==> BucketFor(bs[j].addr) == BucketFor(bs[i].addr)
  }

  lemma {:induction false} UnseenBucket(bs: seq<Block>, bucket: string)
    requires forall i :: 0 <= i < |bs| ==> BucketFor(bs[i].addr) != bucket
    ensures BucketSize(bs, bucket) == 0
  {
    hide BucketFor, Terminated;
    if bs != [] {
      UnseenBucket(bs[..|bs| - 1], bucket);
    }
  }

  /** So it is when every bucket is visited in one run. */
  lemma CapHolds(bs: seq<Block>)
    requires Contiguous(bs)
    ensures forall k :: 0 <= k < |bs| ==> BelowCap(bs, k)
  {
    hide BucketFor, BelowCap, BucketSize;
    forall k | 0 <= k < |bs|
      ensures !FullReturn(bs, k)
    {
      if k > 0 && BucketFor(bs[k - 1].addr) != BucketFor(bs[k].addr) {
        UnseenBucket(bs[..k], BucketFor(bs[k].addr));
      }
    }
    CapIff(bs);
  }

  lemma OneWrite(bs: seq<Block>, k: nat, q: Path)
    requires k < |bs|
    ensures var w, w1, b := WriteAll(Fresh(), bs[..k]), WriteAll(Fresh(), bs[..k + 1]), bs[k];
            && w1.open == Some(PathOf(Fresh(), bs, k))
            && (q in w1.files <==> q in w.files || q == PathOf(Fresh(), bs, k))
            && |Content(w1, q)| >= |Content(w, q)| + if q == PathOf(Fresh(), bs, k) then |b.text| else 0
  {
    hide BucketFor, Terminated, WriteAll, Target;
    LastWrite(Fresh(), bs[..k + 1], q);
    assert bs[..k + 1][..k] == bs[..k];
    OnlyTarget(WriteAll(Fresh(), bs[..k]), bs[k], q);
  }

  lemma TargetCases(w: Writer, b: Block)
    ensures var bucket := BucketFor(b.addr);
            && (w.open.None? || w.open.value.bucket != bucket ==> Target(w, b) == Path(bucket, 0))
            && (w.open.Some? && w.open.value.bucket == bucket ==>
                  Target(w, b) == if |Content(w, w.open.value)| >= SOFT_CAP then Path(bucket, w.open.value.index + 1) else w.open.value)
  {
  }

  /**
   After a return to a full bucket its first file is taken up again whatever its size, and so are
   the later ones as the writer rolls on within the bucket.
   */
  lemma ReturnToFullFile(a: string, b: string, text: string)
    requires BucketFor(a) != BucketFor(b) && |text| >= 1_500_000
    ensures var bs := [Block(a, text), Block(a, text), Block(b, "x"), Block(a, "y"), Block(a, "z")];
            && PathOf(Fresh(), bs, 3) == Path(BucketFor(a), 0) && !BelowCap(bs, 3)
            && PathOf(Fresh(), bs, 4) == Path(BucketFor(a), 1) && !BelowCap(bs, 4)
  {
    hide BucketFor, Terminated, Written, Target, Content, WriteAll;
    var bs := [Block(a, text), Block(a, text), Block(b, "x"), Block(a, "y"), Block(a, "z")];
    assert bs[..0] == [] && bs[..1][..0] == [] && bs[..2][..1] == bs[..1];
    assert bs[..3][..2] == bs[..2] && bs[..4][..3] == bs[..3];
    NoWrites(Fresh(), Path("", 0));
    var w1, w2 := WriteAll(Fresh(), bs[..1]), WriteAll(Fresh(), bs[..2]);
    var w3, w4 := WriteAll(Fresh(), bs[..3]), WriteAll(Fresh(), bs[..4]);
    var p0, p1 := Path(BucketFor(a), 0), Path(BucketFor(a), 1);
    TargetCases(Fresh(), bs[0]);
    OneWrite(bs, 0, p0);
    TargetCases(w1, bs[1]);
    OneWrite(bs, 1, p0);
    OneWrite(bs, 1, p1);
    TargetCases(w2, bs[2]);
    OneWrite(bs, 2, p0);
    OneWrite(bs, 2, p1);
    TargetCases(w3, bs[3]);
    OneWrite(bs, 3, p0);
    OneWrite(bs, 3, p1);
    TargetCases(w4, bs[4]);
  }

  // ---------------------------------------------------------------- the writer object

  class BucketWriter {
    /** What has been flushed to each file. */
    var disk: map<Path, string>
    var fileOpen: bool
    var curBucket: string
    var curIndex: int
    var curWritten: nat
    var curBuf: string

    ghost predicate Valid()
      reads this
    {
      if fileOpen then
        && curIndex >= 0 && Path(curBucket, curIndex) in disk
        && curWritten == |disk[Path(curBucket, curIndex)]| + |curBuf|
      else curBuf == ""
    }

    /** Not closed for good: a file is open, or nothing was written yet. */
    ghost predicate Ready()
      reads this
    {
      Valid() && (fileOpen || (curBucket == "" && curIndex == -1))
    }

    ghost function View(): Writer
      requires Valid()
      reads this
    {
      if fileOpen then
        var p := Path(curBucket, curIndex);
        Writer(disk[p := disk[p] + curBuf], Some(p))
      else Writer(disk, None)
    }

    constructor ()
      ensures Ready() && View() == Fresh()
    {
      disk, fileOpen, curBucket, curIndex, curWritten, curBuf := map[], false, "", -1, 0, "";
    }

    /** Flushes the buffer and closes the file: everything written is then on disk. */
    method CloseOpen()
      requires Valid()
      modifies this
      ensures Valid() && !fileOpen && disk == old(View()).files
    {
      if !fileOpen {
        return;
      }
      var p := Path(curBucket, curIndex);
      disk := disk[p := disk[p] + curBuf];
      curBuf, fileOpen := "", false;
    }

    /** Opens a file for appending: an existing one keeps its bytes, and they count towards the cap. */
    method OpenFile(bucket: string, index: nat)
      requires Valid()
      modifies this
      ensures Valid() && fileOpen && curBucket == bucket && curIndex == index && curBuf == ""
      ensures disk == old(View()).files[Path(bucket, index) := Content(old(View()), Path(bucket, index))]
    {
      CloseOpen();
      var p := Path(bucket, index);
      if p !in disk {
        disk := disk[p := ""];
      }
      fileOpen, curBucket, curIndex := true, bucket, index;
      curWritten := |disk[p]|;
    }

    /** The text reaches the open file, ended by a line break of its own if it has none. */
    method Append(text: string)
      requires Valid() && fileOpen
      modifies this
      ensures Valid() && fileOpen && curBucket == old(curBucket) && curIndex == old(curIndex)
      ensures var p := Path(curBucket, curIndex);
              View() == Writer(old(View()).files[p := old(View()).files[p] + Terminated(text)], Some(p))
    {
      ghost var flushed, before := disk[Path(curBucket, curIndex)], curBuf;
      curBuf := curBuf + text;
      if text == "" || text[|text| - 1] != '\n' {
        curBuf := curBuf + "\n";
        curWritten := curWritten + 1;
      }
      curWritten := curWritten + |text|;
      assert curBuf == before + Terminated(text);
      Glue(flushed, before, Terminated(text));
    }

    method Write(b: Block) returns (rel: Path)
      requires Ready()
      modifies this
      ensures Ready() && View() == Written(old(View()), b)
      ensures rel == Target(old(View()), b)
    {
      hide BucketFor, Terminated;
      ghost var was := View();
      var bucket := BucketFor(b.addr);
      if !fileOpen || bucket != curBucket || curWritten >= SOFT_CAP {
        var index := 0;
        if bucket == curBucket {
          index := curIndex + 1;
        }
        OpenFile(bucket, index);
      }
      rel := Path(curBucket, curIndex);
      assert rel == Target(was, b);
      assert View().files[rel] == Content(was, rel);
      Append(b.text);
      assert View().files == was.files[rel := Content(was, rel) + Terminated(b.text)];
    }
  }
}
