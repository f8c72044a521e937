/**
 What a bounds-checked reader computes, as functions of a buffer and a position, and the
 reader itself: an object whose cursor every successful read advances.
 */
module Cursors {
  import opened Bytes

  datatype Fault =
    | Truncated
    | BadMagic
    | UnsupportedVersion
    | OverCap
    | NameOutOfRange
    | TooDeep
    | SizeMismatch
    | CodecFailed
    | OodleCompressed
    | BrotliCompressed
    | UnknownCompression
    | BadLength

  /** The outcome of a read: a value and the position after it, or why it failed. */
  datatype Step<+T> = Bad(why: Fault) | Ok(value: T, pos: nat) {
    predicate IsFailure() { Bad? }

    function PropagateFailure<U>(): Step<U>
      requires Bad?
    {
      Bad(why)
    }

    function Extract(): (T, nat)
      requires Ok?
    {
      (value, pos)
    }
  }

  datatype Result<+T> = Success(value: T) | Failure(why: Fault) {
    predicate IsFailure() { Failure? }

    function PropagateFailure<U>(): Result<U>
      requires Failure?
    {
      Failure(why)
    }

    function Extract(): T
      requires Success?
    {
      value
    }
  }

  /** The outcome and final cursor of a reading method are those of the position-by-position function. */
  ghost predicate Agrees<T>(spec: Step<T>, r: Result<T>, pos: nat)
  {
    match spec
    case Ok(v, q) => r == Success(v) && pos == q
    case Bad(e) => r == Failure(e)
  }

  function UintAt(s: seq<byte>, p: nat, n: nat): (r: Step<nat>)
    ensures r.Ok? ==> r.pos == p + n <= |s| && FitsUnsigned(r.value, n)
  {
    if p + n <= |s| then Ok(FromLE(s[p..p + n]), p + n) else Bad(Truncated)
  }

  function IntAt(s: seq<byte>, p: nat, n: nat): (r: Step<int>)
    ensures r.Ok? ==> r.pos == p + n <= |s|
  {
    var (u, q) :- UintAt(s, p, n);
    Ok(Signed(u, n), q)
  }

  function TakeAt(s: seq<byte>, p: nat, n: nat): (r: Step<seq<byte>>)
    ensures r.Ok? ==> r.pos == p + n <= |s| && At(s, p, r.value) && |r.value| == n
  {
    if p + n <= |s| then Ok(s[p..p + n], p + n) else Bad(Truncated)
  }

  /** Reading an unsigned field and finding it encoded are the same thing. */
  lemma UintAtIff(s: seq<byte>, p: nat, n: nat, v: nat)
    requires v < Pow256(n)
    ensures UintAt(s, p, n) == Ok(v, p + n) <==> At(s, p, ToLE(v, n))
  {
    LEDecodesEncoding(v, n);
    if p + n <= |s| {
      LEEncodesDecoding(s[p..p + n]);
    }
  }

  lemma IntAtIff(s: seq<byte>, p: nat, n: nat, v: int)
    requires n > 0
    requires FitsSigned(v, n)
    ensures IntAt(s, p, n) == Ok(v, p + n) <==> At(s, p, ToLE(Unsigned(v, n), n))
  {
    UintAtIff(s, p, n, Unsigned(v, n));
  }

  lemma TakeAtIff(s: seq<byte>, p: nat, e: seq<byte>)
    ensures TakeAt(s, p, |e|) == Ok(e, p + |e|) <==> At(s, p, e)
  {
  }

  /** Fields in plain numbers, their low byte first. */
  lemma FieldBytes(s: seq<byte>, p: nat)
    ensures UintAt(s, p, 1) == if p < |s| then Ok(s[p] as nat, p + 1) else Bad(Truncated)
    ensures UintAt(s, p, 2) == if p + 2 <= |s| then Ok(U16(s, p), p + 2) else Bad(Truncated)
    ensures UintAt(s, p, 4) == if p + 4 <= |s| then Ok(U32(s, p), p + 4) else Bad(Truncated)
    ensures UintAt(s, p, 8) == if p + 8 <= |s| then Ok(U32(s, p) + 4294967296 * U32(s, p + 4), p + 8) else Bad(Truncated)
    ensures IntAt(s, p, 4) == if p + 4 <= |s| then Ok(if U32(s, p) < 2147483648 then U32(s, p) else U32(s, p) - 4294967296, p + 4)
                              else Bad(Truncated)
  {
    hide FromLE, Signed;
    if p < |s| {
      LowByteFirst(s[p..p + 1]);
    }
    if p + 2 <= |s| {
      LowByteFirst(s[p..p + 2]);
    }
    if p + 4 <= |s| {
      LowByteFirst(s[p..p + 4]);
      TopBitIsSign(U32(s, p));
    }
    if p + 8 <= |s| {
      var e := s[p..p + 8];
      LowByteFirst(e);
      LowByteFirst(e[..4]);
      LowByteFirst(e[4..]);
    }
  }

  lemma SignedRange(u: nat, n: nat)
    requires n > 0 && u < Pow256(n)
    ensures FitsSigned(Signed(u, n), n) && Unsigned(Signed(u, n), n) == u
  {
  }

  // ---------------------------------------------------------------- counted lists

  /** A count-driven loop: `item(k, q)` reads the k-th element at position q. */
  function Repeat<T>(item: (nat, nat) -> Step<T>, k: nat, p: nat, n: nat, acc: seq<T>): (r: Step<seq<T>>)
    decreases n
  {
    if n == 0 then Ok(acc, p)
    else
      var (x, q) :- item(k, p);
      Repeat(item, k + 1, q, n - 1, acc + [x])
  }

  function Concat<R>(enc: R -> seq<byte>, xs: seq<R>): (s: seq<byte>)
  {
    if |xs| == 0 then [] else enc(xs[0]) + Concat(enc, xs[1..])
  }

  function Map<R, T>(f: R -> T, xs: seq<R>): (ys: seq<T>)
    ensures |ys| == |xs|
    ensures forall i :: 0 <= i < |xs| ==> ys[i] == f(xs[i])
  {
    seq(|xs|, i requires 0 <= i < |xs| => f(xs[i]))
  }

  /** `item` decodes what `enc` writes: x is a legal k-th element iff it is read back as den(x). */
  ghost predicate Reads<R(!new), T>(s: seq<byte>, item: (nat, nat) -> Step<T>, enc: R -> seq<byte>, den: R -> T,
                                    legal: (nat, R) -> bool)
  {
    forall k: nat, p: nat, x: R :: legal(k, x) && At(s, p, enc(x)) ==> item(k, p) == Ok(den(x), p + |enc(x)|)
  }

  /** Whatever `item` accepts is the encoding of some legal element. */
  ghost predicate Explains<R(!new), T>(s: seq<byte>, item: (nat, nat) -> Step<T>, enc: R -> seq<byte>, den: R -> T,
                                       legal: (nat, R) -> bool)
  {
    forall k: nat, p: nat :: item(k, p).Ok? ==>
      exists x: R :: legal(k, x) && At(s, p, enc(x)) && item(k, p) == Ok(den(x), p + |enc(x)|)
  }

  ghost predicate AllLegal<R>(legal: (nat, R) -> bool, k: nat, xs: seq<R>)
  {
    forall i :: 0 <= i < |xs| ==> legal(k + i, xs[i])
  }

  lemma MapStep<R, T>(f: R -> T, acc: seq<T>, xs: seq<R>)
    requires |xs| > 0
    ensures acc + [f(xs[0])] + Map(f, xs[1..]) == acc + Map(f, xs)
  {
  }

  lemma LegalTail<R>(legal: (nat, R) -> bool, k: nat, xs: seq<R>)
    requires |xs| > 0
    ensures AllLegal(legal, k, xs) <==> legal(k, xs[0]) && AllLegal(legal, k + 1, xs[1..])
  {
    if AllLegal(legal, k, xs) {
      assert legal(k + 0, xs[0]);
      forall i | 0 <= i < |xs[1..]| ensures legal(k + 1 + i, xs[1..][i]) {
        assert legal(k + (i + 1), xs[i + 1]);
      }
    }
    if legal(k, xs[0]) && AllLegal(legal, k + 1, xs[1..]) {
      forall i | 0 <= i < |xs| ensures legal(k + i, xs[i]) {
        if i > 0 {
          assert legal(k + 1 + (i - 1), xs[1..][i - 1]);
        }
      }
    }
  }

  lemma {:induction false} RepeatReads<R(!new), T>(s: seq<byte>, item: (nat, nat) -> Step<T>, enc: R -> seq<byte>,
                                                   den: R -> T, legal: (nat, R) -> bool,
                                                   k: nat, p: nat, xs: seq<R>, acc: seq<T>)
    requires Reads(s, item, enc, den, legal)
    requires AllLegal(legal, k, xs)
    requires At(s, p, Concat(enc, xs))
    ensures Repeat(item, k, p, |xs|, acc) == Ok(acc + Map(den, xs), p + |Concat(enc, xs)|)
    decreases |xs|
  {
    if |xs| == 0 {
      assert acc + Map(den, xs) == acc;
    } else {
      var x, rest := xs[0], xs[1..];
      var q := p + |enc(x)|;
      LegalTail(legal, k, xs);
      AtConcat(s, p, enc(x), Concat(enc, rest));
      assert item(k, p) == Ok(den(x), q);
      RepeatReads(s, item, enc, den, legal, k + 1, q, rest, acc + [den(x)]);
      MapStep(den, acc, xs);
    }
  }

  lemma {:induction false} RepeatExplains<R(!new), T>(s: seq<byte>, item: (nat, nat) -> Step<T>, enc: R -> seq<byte>,
                                                      den: R -> T, legal: (nat, R) -> bool,
                                                      k: nat, p: nat, n: nat, acc: seq<T>) returns (xs: seq<R>)
    requires Explains(s, item, enc, den, legal)
    requires Repeat(item, k, p, n, acc).Ok?
    requires p <= |s|
    ensures |xs| == n && AllLegal(legal, k, xs) && At(s, p, Concat(enc, xs))
    ensures Repeat(item, k, p, n, acc) == Ok(acc + Map(den, xs), p + |Concat(enc, xs)|)
    decreases n
  {
    hide At;
    if n == 0 {
      xs := [];
      assert acc + Map(den, xs) == acc;
      assert At(s, p, []) by { AtNothing(s, p); }
    } else {
      assert item(k, p).Ok?;
      var x: R :| legal(k, x) && At(s, p, enc(x)) && item(k, p) == Ok(den(x), p + |enc(x)|);
      var q := p + |enc(x)|;
      var rest := RepeatExplains(s, item, enc, den, legal, k + 1, q, n - 1, acc + [den(x)]);
      xs := [x] + rest;
      assert xs[0] == x && xs[1..] == rest;
      AtConcat(s, p, enc(x), Concat(enc, rest));
      LegalTail(legal, k, xs);
      MapStep(den, acc, xs);
    }
  }

  /** A list preceded by its length, which is refused when it exceeds a cap. */
  function CountedAt<T>(s: seq<byte>, p: nat, w: nat, cap: nat, item: (nat, nat) -> Step<T>): (r: Step<seq<T>>)
  {
    var (n, q) :- UintAt(s, p, w);
    if n > cap then Bad(OverCap) else Repeat(item, 0, q, n, [])
  }

  function EncCounted<R>(w: nat, enc: R -> seq<byte>, xs: seq<R>): seq<byte>
  {
    ToLE(|xs|, w) + Concat(enc, xs)
  }

  ghost predicate CountedOk<R>(w: nat, cap: nat, legal: (nat, R) -> bool, xs: seq<R>)
  {
    FitsUnsigned(|xs|, w) && |xs| <= cap && AllLegal(legal, 0, xs)
  }

  lemma CountedReads<R(!new), T>(s: seq<byte>, item: (nat, nat) -> Step<T>, enc: R -> seq<byte>, den: R -> T,
                                 legal: (nat, R) -> bool, p: nat, w: nat, cap: nat, xs: seq<R>)
    requires Reads(s, item, enc, den, legal)
    requires CountedOk(w, cap, legal, xs)
    requires At(s, p, EncCounted(w, enc, xs))
    ensures CountedAt(s, p, w, cap, item) == Ok(Map(den, xs), p + |EncCounted(w, enc, xs)|)
  {
    hide At, Reads, AllLegal, Repeat, Concat, Map, UintAt, ToLE;
    AtConcat(s, p, ToLE(|xs|, w), Concat(enc, xs));
    UintAtIff(s, p, w, |xs|);
    RepeatReads(s, item, enc, den, legal, 0, p + w, xs, []);
    assert [] + Map(den, xs) == Map(den, xs);
  }

  lemma CountedExplains<R(!new), T>(s: seq<byte>, item: (nat, nat) -> Step<T>, enc: R -> seq<byte>, den: R -> T,
                                    legal: (nat, R) -> bool, p: nat, w: nat, cap: nat) returns (xs: seq<R>)
    requires Explains(s, item, enc, den, legal)
    requires CountedAt(s, p, w, cap, item).Ok?
    ensures CountedOk(w, cap, legal, xs) && At(s, p, EncCounted(w, enc, xs))
    ensures CountedAt(s, p, w, cap, item) == Ok(Map(den, xs), p + |EncCounted(w, enc, xs)|)
  {
    hide At, Explains, Repeat, Concat, Map, ToLE;
    var n := UintAt(s, p, w).value;
    UintAtIff(s, p, w, n);
    xs := RepeatExplains(s, item, enc, den, legal, 0, p + w, n, []);
    AtConcat(s, p, ToLE(n, w), Concat(enc, xs));
    assert [] + Map(den, xs) == Map(den, xs);
  }

  // ---------------------------------------------------------------- the reader object

  class ByteReader {
    const data: seq<byte>
    var pos: nat

    ghost predicate Valid()
      reads this
    {
      pos <= |data|
    }

    constructor (bytes: seq<byte>)
      ensures Valid() && data == bytes && pos == 0
    {
      data := bytes;
      pos := 0;
    }

    method Remaining() returns (n: nat)
      requires Valid()
      ensures n == |data| - pos
    {
      n := |data| - pos;
    }

    method Need(n: int) returns (ok: bool)
      requires Valid()
      ensures ok <==> n >= 0 && pos + n <= |data|
    {
      ok := !(n < 0 || pos + n > |data|);
    }

    method Skip(n: int) returns (ok: bool)
      requires Valid()
      modifies this
      ensures Valid()
      ensures ok <==> n >= 0 && old(pos) + n <= |data|
      ensures pos == if ok then old(pos) + n else old(pos)
    {
      ok := Need(n);
      if ok {
        pos := pos + n;
      }
    }

    /** The fixed-width readers: one byte, two, four or eight, little-endian. */
    method Uint(n: nat) returns (r: Result<nat>)
      requires Valid()
      modifies this
      ensures Valid()
      ensures match UintAt(data, old(pos), n)
              case Ok(v, q) => r == Success(v) && pos == q
              case Bad(e) => r == Failure(e) && pos == old(pos)
    {
      var ok := Need(n);
      if !ok {
        return Failure(Truncated);
      }
      r := Success(FromLE(data[pos..pos + n]));
      pos := pos + n;
    }

    method Int32() returns (r: Result<int>)
      requires Valid()
      modifies this
      ensures Valid()
      ensures match IntAt(data, old(pos), 4)
              case Ok(v, q) => r == Success(v) && pos == q
              case Bad(e) => r == Failure(e) && pos == old(pos)
    {
      var u :- Uint(4);
      r := Success(Signed(u, 4));
    }

    method Take(n: nat) returns (r: Result<seq<byte>>)
      requires Valid()
      modifies this
      ensures Valid()
      ensures match TakeAt(data, old(pos), n)
              case Ok(v, q) => r == Success(v) && pos == q
              case Bad(e) => r == Failure(e) && pos == old(pos)
    {
      var ok := Need(n);
      if !ok {
        return Failure(Truncated);
      }
      r := Success(data[pos..pos + n]);
      pos := pos + n;
    }
  }
}
