/** A file system as a map from paths to directories and files, and the operations the walk performs. */
module FileTree {
  import opened Bytes
  import opened NsisPaths

  datatype Node = Dir | File(bytes: seq<byte>)
  type Tree = map<Path, Node>

  /** The root is always a directory. */
  predicate IsDir(t: Tree, p: Path) { p == [] || (p in t && t[p].Dir?) }

  function Parent(p: Path): Path { if p == [] then [] else p[..|p| - 1] }

  predicate Below(base: Path, p: Path) { base < p }

  /** Creating a directory creates the missing ones above it; a file in the way stops it. */
  function MkdirAll(t: Tree, p: Path): (r: (bool, Tree))
    decreases |p|
  {
    if p == [] then (true, t)
    else if p in t then (t[p].Dir?, t)
    else
      var (ok, t1) := MkdirAll(t, Parent(p));
      if !ok then (false, t1) else (true, t1[p := Dir])
  }

  function WriteFile(t: Tree, p: Path, bytes: seq<byte>): (r: (bool, Tree))
  {
    if IsDir(t, p) || !IsDir(t, Parent(p)) then (false, t) else (true, t[p := File(bytes)])
  }

  predicate HasChildren(t: Tree, p: Path) { exists q :: q in t && Below(p, q) }

  /** The entries at or below a, each under its name below b. */
  function Moved(t: Tree, a: Path, b: Path): (u: Tree)
    ensures forall r :: r in u ==> b <= r
  {
    var from := set q | q in t && a <= q;
    var to := set q | q in from :: b + q[|a|..];
    assert forall r :: r in to ==> b <= r && a + r[|b|..] in t by {
      forall r | r in to ensures b <= r && a + r[|b|..] in t {
        var q :| q in from && r == b + q[|a|..];
        assert a + r[|b|..] == q;
      }
    }
    map r | r in to :: t[a + r[|b|..]]
  }

  /** Moving a file or a whole directory. A file may replace a file; nothing replaces a directory. */
  function Rename(t: Tree, a: Path, b: Path): (r: (bool, Tree))
  {
    if a !in t || a == [] || IsDir(t, b) then (false, t)
    else if a == b then (true, t)
    else if a <= b || !IsDir(t, Parent(b)) then (false, t)
    else if t[a].File? then (true, (t - {a})[b := t[a]])
    else if b in t then (false, t)
    else (true, (map q | q in t && !(a <= q) :: t[q]) + Moved(t, a, b))
  }

  function Remove(t: Tree, p: Path): Tree
  {
    if p in t && !(t[p].Dir? && HasChildren(t, p)) then t - {p} else t
  }

  function RemoveAll(t: Tree, p: Path): Tree
  {
    map q | q in t && !(p <= q) :: t[q]
  }

  // ---------------------------------------------------------------- containment

  /** Nothing but what lies strictly below base differs between the two trees. */
  ghost predicate OnlyBelow(base: Path, t: Tree, u: Tree)
  {
    forall q: Path :: !Below(base, q) ==> (q in t <==> q in u) && (q in t ==> t[q] == u[q])
  }

  /** base and everything above it are directories. */
  ghost predicate Rooted(t: Tree, base: Path)
  {
    forall k :: 0 < k <= |base| ==> base[..k] in t && t[base[..k]] == Dir
  }

  lemma RootedStays(base: Path, t: Tree, u: Tree)
    requires Rooted(t, base) && OnlyBelow(base, t, u)
    ensures Rooted(u, base)
  {
    forall k | 0 < k <= |base| ensures base[..k] in u && u[base[..k]] == Dir {
      assert !Below(base, base[..k]);
    }
  }

  lemma OnlyBelowTrans(base: Path, t: Tree, u: Tree, v: Tree)
    requires OnlyBelow(base, t, u) && OnlyBelow(base, u, v)
    ensures OnlyBelow(base, t, v)
  {
  }

  lemma {:induction false} MkdirAllContained(t: Tree, base: Path, p: Path)
    requires Rooted(t, base) && base <= p
    ensures OnlyBelow(base, t, MkdirAll(t, p).1)
    decreases |p|
  {
    if p == base {
      if p != [] {
        assert base[..|base|] == base;
      }
    } else {
      assert base <= Parent(p);
      MkdirAllContained(t, base, Parent(p));
    }
  }

  /** Everything in the tree is in a directory of the tree. */
  ghost predicate Closed(t: Tree)
  {
    forall q :: q in t && q != [] ==> IsDir(t, Parent(q))
  }

  /** p and what is above it, the root excepted. */
  predicate OnTheWay(p: Path, q: Path) { q <= p && q != [] }

  lemma {:induction false} AllAbove(t: Tree, p: Path)
    requires Closed(t) && IsDir(t, p)
    ensures forall q :: OnTheWay(p, q) ==> q in t && t[q].Dir?
    decreases |p|
  {
    if p != [] {
      AllAbove(t, Parent(p));
      forall q | OnTheWay(p, q)
        ensures q == p || OnTheWay(Parent(p), q)
      {
      }
    }
  }

  /** Creating a directory keeps what there is, what is new is a directory on the way to it, and failing changes nothing. */
  lemma {:induction false} MkdirAllCreates(t: Tree, p: Path)
    ensures var (ok, u) := MkdirAll(t, p);
            && (ok ==> IsDir(u, p)) && (!ok ==> u == t)
            && (forall q :: q in t ==> q in u && u[q] == t[q])
            && (forall q :: q in u && q !in t ==> OnTheWay(p, q) && u[q] == Dir)
    decreases |p|
  {
    if p != [] && p !in t {
      MkdirAllCreates(t, Parent(p));
      assert forall q :: OnTheWay(Parent(p), q) ==> OnTheWay(p, q);
    }
  }

  lemma {:induction false} MkdirAllClosed(t: Tree, p: Path)
    requires Closed(t)
    ensures Closed(MkdirAll(t, p).1)
    decreases |p|
  {
    if p != [] && p !in t {
      MkdirAllClosed(t, Parent(p));
      MkdirAllCreates(t, Parent(p));
    }
  }

  /** It fails exactly if a file is in the way; otherwise everything on the way is a directory afterwards. */
  lemma MkdirAllIff(t: Tree, p: Path)
    requires Closed(t)
    ensures MkdirAll(t, p).0 <==> forall q :: OnTheWay(p, q) && q in t ==> t[q].Dir?
    ensures MkdirAll(t, p).0 ==> forall q :: OnTheWay(p, q) ==> q in MkdirAll(t, p).1 && MkdirAll(t, p).1[q].Dir?
  {
    hide Closed;
    MkdirAllCreates(t, p);
    MkdirAllClosed(t, p);
    if MkdirAll(t, p).0 {
      AllAbove(MkdirAll(t, p).1, p);
    } else {
      FileInTheWay(t, p);
    }
  }

  lemma {:induction false} FileInTheWay(t: Tree, p: Path)
    requires !MkdirAll(t, p).0
    ensures exists q :: OnTheWay(p, q) && q in t && t[q].File?
    decreases |p|
  {
    if p in t {
      assert OnTheWay(p, p);
    } else {
      FileInTheWay(t, Parent(p));
      var q :| OnTheWay(Parent(p), q) && q in t && t[q].File?;
      assert OnTheWay(p, q);
    }
  }

  /** The other operations keep every entry in a directory, too. */
  lemma ClosedStays(t: Tree, a: Path, b: Path, bytes: seq<byte>)
    requires Closed(t)
    ensures Closed(WriteFile(t, a, bytes).1) && Closed(Remove(t, a)) && Closed(RemoveAll(t, a))
    ensures Closed(Rename(t, a, b).1)
  {
    ClosedRemove(t, a);
    RenameClosed(t, a, b);
    hide Rename, Remove, RemoveAll;
  }

  lemma ClosedRemove(t: Tree, p: Path)
    requires Closed(t)
    ensures Closed(Remove(t, p)) && Closed(RemoveAll(t, p))
  {
    forall q | q in RemoveAll(t, p) && q != []
      ensures IsDir(RemoveAll(t, p), Parent(q))
    {
      assert p <= Parent(q) ==> p <= q;
    }
    forall q | q in Remove(t, p) && q != []
      ensures IsDir(Remove(t, p), Parent(q))
    {
      assert Parent(q) == p ==> Below(p, q);
    }
  }

  lemma RenameClosed(t: Tree, a: Path, b: Path)
    requires Closed(t)
    ensures Closed(Rename(t, a, b).1)
  {
    if a in t && t[a].Dir? && Rename(t, a, b).0 {
      assert Rename(t, a, b).1 == MovedDir(t, a, b);
      MovedDirClosed(t, a, b);
    }
  }

  function MovedDir(t: Tree, a: Path, b: Path): Tree
  {
    (map q | q in t && !(a <= q) :: t[q]) + Moved(t, a, b)
  }

  lemma MovedDirClosed(t: Tree, a: Path, b: Path)
    requires Closed(t) && a in t && t[a].Dir? && a != [] && b !in t && IsDir(t, Parent(b)) && !(a <= b)
    requires b != []
    ensures Closed(MovedDir(t, a, b))
  {
    hide MovedDir;
    FreeBelow(t, b);
    forall q | q in MovedDir(t, a, b) && q != []
      ensures IsDir(MovedDir(t, a, b), Parent(q))
    {
      if b <= q && q != b {
        MovedInDir(t, a, b, q);
      } else {
        KeptInDir(t, a, b, q);
      }
    }
  }

  lemma MovedInDir(t: Tree, a: Path, b: Path, q: Path)
    requires Closed(t) && a in t && t[a].Dir? && a != [] && forall r :: r in t ==> !(b <= r)
    requires q in MovedDir(t, a, b) && b <= q && q != b
    ensures IsDir(MovedDir(t, a, b), Parent(q))
  {
    hide MovedDir;
    MovedEntry(t, a, b, q);
    assert |b| < |q| && b <= Parent(q);
    MovedEntry(t, a, b, Parent(q));
    assert Parent(a + q[|b|..]) == a + Parent(q)[|b|..];
  }

  lemma KeptInDir(t: Tree, a: Path, b: Path, q: Path)
    requires Closed(t) && a in t && a != [] && b != [] && IsDir(t, Parent(b)) && !(a <= b)
    requires forall r :: r in t ==> !(b <= r)
    requires q in MovedDir(t, a, b) && q != [] && (b <= q ==> q == b)
    ensures IsDir(MovedDir(t, a, b), Parent(q))
  {
    hide MovedDir;
    KeptEntry(t, a, b, q);
    KeptEntry(t, a, b, Parent(q));
    assert a <= Parent(q) ==> a <= q;
    assert b <= Parent(q) ==> b <= q && |b| < |q|;
  }

  lemma KeptEntry(t: Tree, a: Path, b: Path, r: Path)
    ensures !(b <= r) ==> (r in MovedDir(t, a, b) <==> r in t && !(a <= r))
    ensures !(b <= r) && r in MovedDir(t, a, b) ==> MovedDir(t, a, b)[r] == t[r]
  {
  }

  /** Where there is nothing, there is nothing below. */
  lemma FreeBelow(t: Tree, b: Path)
    requires Closed(t) && b != [] && b !in t
    ensures forall q :: q in t ==> !(b <= q)
  {
    forall q | q in t && b <= q
      ensures false
    {
      assert |b| == |q| ==> b == q;
      AllAbove(t, Parent(q));
      assert OnTheWay(Parent(q), b);
    }
  }

  lemma MovedHas(t: Tree, a: Path, b: Path, r: Path)
    requires b <= r
    ensures r in Moved(t, a, b) <==> a + r[|b|..] in t
    ensures r in Moved(t, a, b) ==> Moved(t, a, b)[r] == t[a + r[|b|..]]
  {
    var q := a + r[|b|..];
    assert a <= q && q[|a|..] == r[|b|..] && b + q[|a|..] == r;
    if r in Moved(t, a, b) {
      var p :| p in t && a <= p && r == b + p[|a|..];
      assert p == q;
    }
  }

  lemma MovedEntry(t: Tree, a: Path, b: Path, r: Path)
    requires b <= r && forall q :: q in t ==> !(b <= q)
    ensures r in MovedDir(t, a, b) <==> a + r[|b|..] in t
    ensures r in MovedDir(t, a, b) ==> MovedDir(t, a, b)[r] == t[a + r[|b|..]]
  {
    MovedHas(t, a, b, r);
  }

  lemma WriteContained(t: Tree, base: Path, p: Path, bytes: seq<byte>)
    requires Below(base, p)
    ensures OnlyBelow(base, t, WriteFile(t, p, bytes).1)
  {
  }

  lemma RenameContained(t: Tree, base: Path, a: Path, b: Path)
    requires Below(base, a) && Below(base, b)
    ensures OnlyBelow(base, t, Rename(t, a, b).1)
  {
    var u := Rename(t, a, b).1;
    forall q: Path | !Below(base, q) ensures (q in t <==> q in u) && (q in t ==> t[q] == u[q]) {
      assert !(a <= q) && !(b <= q);
    }
  }

  lemma RemoveContained(t: Tree, base: Path, p: Path)
    requires Below(base, p)
    ensures OnlyBelow(base, t, Remove(t, p)) && OnlyBelow(base, t, RemoveAll(t, p))
  {
    forall q: Path | !Below(base, q) ensures !(p <= q) {
    }
  }

  /** Moving a directory loses nothing: every file that was below it is below its new place. */
  lemma RenameKeepsFiles(t: Tree, a: Path, b: Path, q: Path)
    requires Rename(t, a, b).0 && a != b && q in t && a <= q && (t[a].File? ==> q == a)
    ensures b + q[|a|..] in Rename(t, a, b).1 && Rename(t, a, b).1[b + q[|a|..]] == t[q]
  {
    var r := b + q[|a|..];
    assert r[|b|..] == q[|a|..];
    assert a + q[|a|..] == q;
    if t[a].File? {
      assert r == b;
    } else {
      assert r in Moved(t, a, b);
    }
  }
}
