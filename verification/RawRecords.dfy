/**
 The last-resort dump of an archive's data as consecutive size-prefixed records. A size that
 cannot be is stepped over four bytes at a time.
 */
module RawRecords {
  import opened Bytes

  const LIMIT: nat := 100_000
  const HIGH_BIT: nat := 0x8000_0000

  /** A record taken from the data: where its size field is, how long its body is, whether it was written. */
  datatype Rec = Rec(start: nat, size: nat, written: bool)

  datatype Scan = Scan(took: seq<Rec>, written: nat, skipped: nat, pos: nat)

  /** The size field at p without its top bit. */
  function SizeAt(dec: seq<byte>, p: nat): nat
    requires p + 4 <= |dec|
  {
    FromLE(dec[p..p + 4]) % HIGH_BIT
  }

  predicate Takes(dec: seq<byte>, p: nat)
    requires p + 4 <= |dec|
  {
    SizeAt(dec, p) > 0 && p + 4 + SizeAt(dec, p) <= |dec|
  }

  /** Whether writing the k-th record succeeds is up to the file system. */
  function ScanFrom(dec: seq<byte>, pos: nat, took: seq<Rec>, written: nat, skipped: nat, io: nat -> bool): (r: Scan)
    decreases if pos <= |dec| then |dec| - pos else 0
  {
    if pos + 4 > |dec| || written >= LIMIT || skipped >= LIMIT then Scan(took, written, skipped, pos)
    else if !Takes(dec, pos) then ScanFrom(dec, pos + 4, took, written, skipped + 1, io)
    else
      var size := SizeAt(dec, pos);
      var ok := io(|took|);
      ScanFrom(dec, pos + 4 + size, took + [Rec(pos, size, ok)], if ok then written + 1 else written, skipped, io)
  }

  function StartOf(dec: seq<byte>, hdrSize: int): nat
  {
    if hdrSize < 0 || hdrSize >= |dec| then 0 else hdrSize
  }

  function Total(rs: seq<Rec>): nat
  {
    if |rs| == 0 then 0 else Total(rs[..|rs| - 1]) + 4 + rs[|rs| - 1].size
  }

  function WrittenOf(rs: seq<Rec>): nat
  {
    if |rs| == 0 then 0 else WrittenOf(rs[..|rs| - 1]) + if rs[|rs| - 1].written then 1 else 0
  }

  /** Records are real, lie one after another between from and to, and do not overlap. */
  ghost predicate Laid(dec: seq<byte>, rs: seq<Rec>, from: nat, to: nat)
  {
    && (forall i :: 0 <= i < |rs| ==>
          && rs[i].start + 4 <= |dec| && rs[i].size == SizeAt(dec, rs[i].start) > 0
          && from <= rs[i].start && rs[i].start + 4 + rs[i].size <= to && rs[i].start + 4 + rs[i].size <= |dec|)
    && (forall i, j :: 0 <= i < j < |rs| ==> rs[i].start + 4 + rs[i].size <= rs[j].start)
  }

  lemma LaidSnoc(dec: seq<byte>, rs: seq<Rec>, from: nat, to: nat, r: Rec)
    requires Laid(dec, rs, from, to) && from <= to <= r.start && r.start + 4 <= |dec|
    requires r.size == SizeAt(dec, r.start) > 0 && r.start + 4 + r.size <= |dec|
    ensures Laid(dec, rs + [r], from, r.start + 4 + r.size)
    ensures Total(rs + [r]) == Total(rs) + 4 + r.size
    ensures WrittenOf(rs + [r]) == WrittenOf(rs) + if r.written then 1 else 0
  {
    assert (rs + [r])[..|rs + [r]| - 1] == rs;
  }

  lemma LaidWider(dec: seq<byte>, rs: seq<Rec>, from: nat, to: nat, to1: nat)
    requires Laid(dec, rs, from, to) && to <= to1
    ensures Laid(dec, rs, from, to1)
  {
  }

  method ExtractRawRecords(dec: seq<byte>, hdrSize: int, io: nat -> bool) returns (r: Scan)
    ensures r == ScanFrom(dec, StartOf(dec, hdrSize), [], 0, 0, io)
    ensures Laid(dec, r.took, StartOf(dec, hdrSize), r.pos)
    ensures r.pos == StartOf(dec, hdrSize) + 4 * r.skipped + Total(r.took)
    ensures r.written == WrittenOf(r.took) <= 100_000 && r.skipped <= 100_000 && r.pos <= |dec|
  {
    hide SizeAt, ScanFrom, Laid;
    var pos := hdrSize;
    if pos < 0 || pos >= |dec| {
      pos := 0;
    }
    ghost var start := pos;
    var took, written, skipped := [], 0, 0;
    assert Laid(dec, took, pos, pos) by { LaidNothing(dec, pos); }
    while pos + 4 <= |dec| && written < LIMIT && skipped < LIMIT
      invariant start <= pos <= |dec| && written <= LIMIT && skipped <= LIMIT
      invariant Laid(dec, took, start, pos)
      invariant pos == start + 4 * skipped + Total(took)
      invariant written == WrittenOf(took)
      invariant ScanFrom(dec, start, [], 0, 0, io) == ScanFrom(dec, pos, took, written, skipped, io)
      decreases |dec| - pos
    {
      ScanStep(dec, pos, took, written, skipped, io);
      var size := SizeAt(dec, pos);
      if size <= 0 || pos + 4 + size > |dec| {
        LaidWider(dec, took, start, pos, pos + 4);
        pos := pos + 4;
        skipped := skipped + 1;
        continue;
      }
      var rec := Rec(pos, size, io(|took|));
      LaidSnoc(dec, took, start, pos, rec);
      took := took + [rec];
      if rec.written {
        written := written + 1;
      }
      pos := pos + 4 + size;
    }
    ScanEnds(dec, pos, took, written, skipped, io);
    r := Scan(took, written, skipped, pos);
  }

  lemma LaidNothing(dec: seq<byte>, p: nat)
    ensures Laid(dec, [], p, p)
  {
  }

  lemma ScanStep(dec: seq<byte>, pos: nat, took: seq<Rec>, written: nat, skipped: nat, io: nat -> bool)
    requires pos + 4 <= |dec| && written < LIMIT && skipped < LIMIT
    ensures ScanFrom(dec, pos, took, written, skipped, io)
         == if !Takes(dec, pos) then ScanFrom(dec, pos + 4, took, written, skipped + 1, io)
            else
              var size, ok := SizeAt(dec, pos), io(|took|);
              ScanFrom(dec, pos + 4 + size, took + [Rec(pos, size, ok)], if ok then written + 1 else written, skipped,
                       io)
  {
  }

  lemma ScanEnds(dec: seq<byte>, pos: nat, took: seq<Rec>, written: nat, skipped: nat, io: nat -> bool)
    requires pos + 4 > |dec| || written >= LIMIT || skipped >= LIMIT
    ensures ScanFrom(dec, pos, took, written, skipped, io) == Scan(took, written, skipped, pos)
  {
  }

  // ---------------------------------------------------------------- a clean archive

  /** One record: its size, with or without the top bit, then its bytes. */
  datatype Body = Body(bytes: seq<byte>, flagged: bool)

  predicate BodyOk(b: Body) { 0 < |b.bytes| < HIGH_BIT }

  function EncBody(b: Body): seq<byte>
    requires BodyOk(b)
  {
    ToLE(|b.bytes| + if b.flagged then HIGH_BIT else 0, 4) + b.bytes
  }

  function EncBodies(bs: seq<Body>): seq<byte>
    requires forall i :: 0 <= i < |bs| ==> BodyOk(bs[i])
  {
    if |bs| == 0 then [] else EncBody(bs[0]) + EncBodies(bs[1..])
  }

  function Recs(bs: seq<Body>, pos: nat): (rs: seq<Rec>)
    ensures |rs| == |bs|
  {
    if |bs| == 0 then [] else [Rec(pos, |bs[0].bytes|, true)] + Recs(bs[1..], pos + 4 + |bs[0].bytes|)
  }

  lemma BodyTaken(dec: seq<byte>, pos: nat, b: Body)
    requires BodyOk(b) && At(dec, pos, EncBody(b))
    ensures pos + 4 + |b.bytes| <= |dec| && Takes(dec, pos) && SizeAt(dec, pos) == |b.bytes|
    ensures dec[pos + 4..pos + 4 + |b.bytes|] == b.bytes
  {
    var v := |b.bytes| + if b.flagged then HIGH_BIT else 0;
    AtConcat(dec, pos, ToLE(v, 4), b.bytes);
    LEDecodesEncoding(v, 4);
  }

  /** On a clean run of records, up to the limit, every one is recovered in order and nothing is skipped. */
  lemma {:induction false} CleanArchive(dec: seq<byte>, pos: nat, bs: seq<Body>, took: seq<Rec>, written: nat,
                                        io: nat -> bool)
    requires forall i :: 0 <= i < |bs| ==> BodyOk(bs[i])
    requires pos <= |dec| && dec[pos..] == EncBodies(bs)
    requires written + |bs| <= 100_000 && forall k :: io(k)
    ensures ScanFrom(dec, pos, took, written, 0, io)
         == Scan(took + Recs(bs, pos), written + |bs|, 0, |dec|)
    decreases |bs|
  {
    hide SizeAt, At, BodyOk, EncBody, Recs, ScanFrom;
    if |bs| == 0 {
      ScanEnds(dec, pos, took, written, 0, io);
      assert took + [] == took;
    } else {
      var e, rest := EncBody(bs[0]), EncBodies(bs[1..]);
      Front(dec, pos, e, rest);
      BodyTaken(dec, pos, bs[0]);
      BodyLength(bs[0]);
      ScanStep(dec, pos, took, written, 0, io);
      var n := 4 + |bs[0].bytes|;
      CleanArchive(dec, pos + n, bs[1..], took + [Rec(pos, |bs[0].bytes|, true)], written + 1, io);
      RecsStep(took, bs, pos);
    }
  }

  lemma RecsStep(took: seq<Rec>, bs: seq<Body>, pos: nat)
    requires |bs| > 0
    ensures took + [Rec(pos, |bs[0].bytes|, true)] + Recs(bs[1..], pos + (4 + |bs[0].bytes|)) == took + Recs(bs, pos)
  {
  }

  lemma BodyLength(b: Body)
    requires BodyOk(b)
    ensures |EncBody(b)| == 4 + |b.bytes|
  {
  }

  lemma Front(dec: seq<byte>, pos: nat, e: seq<byte>, rest: seq<byte>)
    requires pos <= |dec| && dec[pos..] == e + rest
    ensures At(dec, pos, e) && dec[pos + |e|..] == rest
  {
    assert dec[pos..pos + |e|] == dec[pos..][..|e|];
    assert dec[pos + |e|..] == dec[pos..][|e|..];
  }

  /** The bytes a recovered record stands for. */
  function BytesOf(dec: seq<byte>, r: Rec): seq<byte>
    requires r.start + 4 + r.size <= |dec|
  {
    dec[r.start + 4..r.start + 4 + r.size]
  }

  lemma {:induction false} CleanBytes(dec: seq<byte>, pos: nat, bs: seq<Body>, k: nat)
    requires forall i :: 0 <= i < |bs| ==> BodyOk(bs[i])
    requires pos <= |dec| && dec[pos..] == EncBodies(bs) && k < |bs|
    ensures var r := Recs(bs, pos)[k];
            r.start + 4 + r.size <= |dec| && BytesOf(dec, r) == bs[k].bytes
    decreases |bs|
  {
    hide SizeAt, BodyOk, EncBody;
    var e, rest := EncBody(bs[0]), EncBodies(bs[1..]);
    Front(dec, pos, e, rest);
    BodyTaken(dec, pos, bs[0]);
    BodyLength(bs[0]);
    if k > 0 {
      CleanBytes(dec, pos + |e|, bs[1..], k - 1);
    }
  }
}
