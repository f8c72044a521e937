/** Character classes and the trimming functions that the text-handling parts share. */
module Chars {

  predicate IsIdent(c: char)
  {
    c == '_' || 'a' <= c <= 'z' || 'A' <= c <= 'Z' || '0' <= c <= '9'
  }

  predicate IsHex(c: char) { '0' <= c <= '9' || 'a' <= c <= 'f' || 'A' <= c <= 'F' }

  predicate AllHex(s: string) { forall k :: 0 <= k < |s| ==> IsHex(s[k]) }

  predicate IsSpace(c: char)
  {
    '\t' <= c <= '\r' || c == ' ' || c == '\U{0085}' || c == '\U{00A0}' || c == '\U{1680}'
    || '\U{2000}' <= c <= '\U{200A}' || c == '\U{2028}' || c == '\U{2029}' || c == '\U{202F}' || c == '\U{205F}'
    || c == '\U{3000}'
  }

  function TrimLeft(s: string): (t: string)
    ensures |t| <= |s| && t == s[|s| - |t|..]
    ensures t == "" || !IsSpace(t[0])
  {
    if s != "" && IsSpace(s[0]) then TrimLeft(s[1..]) else s
  }

  function TrimRight(s: string): (t: string)
    ensures |t| <= |s| && t == s[..|t|]
    ensures t == "" || !IsSpace(t[|t| - 1])
  {
    if s != "" && IsSpace(s[|s| - 1]) then TrimRight(s[..|s| - 1]) else s
  }

  function TrimSpace(s: string): (t: string)
    ensures forall c :: c in t ==> c in s
  {
    TrimRight(TrimLeft(s))
  }

  function LowerChar(c: char): char { if 'A' <= c <= 'Z' then c + 32 as char else c }

  function Lower(s: string): (t: string)
    ensures |t| == |s| && forall k :: 0 <= k < |s| ==> t[k] == LowerChar(s[k])
  {
    seq(|s|, k requires 0 <= k < |s| => LowerChar(s[k]))
  }

  /** Trimming takes all blanks off both ends and nothing else. */
  lemma TrimIs(s: string, a: nat, b: nat)
    requires a <= b <= |s|
    requires (forall k :: 0 <= k < a ==> IsSpace(s[k])) && (forall k :: b <= k < |s| ==> IsSpace(s[k]))
    requires a == b || (!IsSpace(s[a]) && !IsSpace(s[b - 1]))
    ensures TrimSpace(s) == s[a..b]
  {
    hide IsSpace;
    if a == b {
      AllBlank(s);
    } else {
      LeftTrimmed(s, a);
      RestTrimmed(s, a, b);
      hide TrimLeft, TrimRight;
    }
  }

  lemma RestTrimmed(s: string, a: nat, b: nat)
    requires a < b <= |s| && (forall k :: b <= k < |s| ==> IsSpace(s[k])) && !IsSpace(s[b - 1])
    ensures TrimRight(s[a..]) == s[a..b]
  {
    hide IsSpace, TrimRight;
    var r := s[a..];
    forall k | b - a <= k < |r|
      ensures IsSpace(r[k])
    {
      assert r[k] == s[k + a];
    }
    assert r[b - a - 1] == s[b - 1];
    RightTrimmed(r, b - a);
    assert r[..b - a] == s[a..b];
  }

  lemma {:induction false} AllBlank(s: string)
    requires forall k :: 0 <= k < |s| ==> IsSpace(s[k])
    ensures TrimLeft(s) == ""
  {
    hide IsSpace;
    if s != "" {
      AllBlank(s[1..]);
    }
  }

  lemma {:induction false} LeftTrimmed(s: string, a: nat)
    requires a < |s| && (forall k :: 0 <= k < a ==> IsSpace(s[k])) && !IsSpace(s[a])
    ensures TrimLeft(s) == s[a..]
    decreases a
  {
    hide IsSpace;
    if a > 0 {
      LeftTrimmed(s[1..], a - 1);
    }
  }

  lemma {:induction false} RightTrimmed(s: string, b: nat)
    requires 0 < b <= |s| && (forall k :: b <= k < |s| ==> IsSpace(s[k])) && !IsSpace(s[b - 1])
    ensures TrimRight(s) == s[..b]
    decreases |s| - b
  {
    hide IsSpace;
    if b < |s| {
      RightTrimmed(s[..|s| - 1], b);
    }
  }
}
