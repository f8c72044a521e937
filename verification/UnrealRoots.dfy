/**
 Choosing among the roots at which Unreal containers were found: server builds give way to the
 game, nested roots to the outermost one, and the containers of a dropped root move to the kept
 root above it. A path is the list of its components.
 */
module UnrealRoots {
  import opened Common
  import opened Chars

  type Path = seq<string>

  predicate EqualFold(a: string, b: string) { Lower(a) == Lower(b) }

  function Folded(p: Path): (q: Path)
    ensures |q| == |p|
  {
    seq(|p|, i requires 0 <= i < |p| => Lower(p[i]))
  }

  predicate HasBuilds(p: Path) { exists i :: 0 <= i < |p| && EqualFold(p[i], "Builds") }

  /** A strict prefix, component by component, whatever the case of the letters. */
  predicate Above(a: Path, d: Path) { Folded(a) < Folded(d) }

  method HasBuildsSegment(p: Path) returns (b: bool)
    ensures b == HasBuilds(p)
  {
    for i := 0 to |p|
      invariant forall j :: 0 <= j < i ==> !EqualFold(p[j], "Builds")
    {
      if EqualFold(p[i], "Builds") {
        return true;
      }
    }
    return false;
  }

  method IsAncestorRoot(a: Path, d: Path) returns (b: bool)
    ensures b == Above(a, d)
  {
    if |a| >= |d| {
      return false;
    }
    for i := 0 to |a|
      invariant forall j :: 0 <= j < i ==> Folded(a)[j] == Folded(d)[j]
    {
      if !EqualFold(a[i], d[i]) {
        assert Folded(a)[i] != Folded(d)[i];
        return false;
      }
    }
    assert Folded(a) == Folded(d)[..|a|];
    return true;
  }

  // ---------------------------------------------------------------- what is kept

  predicate Distinct(rs: seq<Path>) { forall i, j :: 0 <= i < j < |rs| ==> rs[i] != rs[j] }

  /** The order of rs is kept. */
  function Filter(rs: seq<Path>, keep: Path -> bool): (fs: seq<Path>)
    ensures forall r :: r in fs <==> r in rs && keep(r)
    ensures Distinct(rs) ==> Distinct(fs)
  {
    if rs == [] then []
    else
      var n := |rs| - 1;
      var fs := Filter(rs[..n], keep);
      assert rs == rs[..n] + [rs[n]];
      if keep(rs[n]) then fs + [rs[n]] else fs
  }

  /** Do both kinds of root occur, those under a Builds directory and others? */
  predicate Mixed(rs: seq<Path>)
  {
    (exists r :: r in rs && HasBuilds(r)) && exists r :: r in rs && !HasBuilds(r)
  }

  function OutsideBuilds(): Path -> bool { (p: Path) => !HasBuilds(p) }

  /** The roots that the Builds rule leaves. */
  function Survivors(rs: seq<Path>): seq<Path>
  {
    if Mixed(rs) then Filter(rs, OutsideBuilds()) else rs
  }

  predicate Minimal(rs: seq<Path>, r: Path) { forall o :: o in rs ==> !Above(o, r) }

  function MinimalIn(rs: seq<Path>): Path -> bool { (p: Path) => Minimal(rs, p) }

  function Kept(rs: seq<Path>): seq<Path> { Filter(Survivors(rs), MinimalIn(Survivors(rs))) }

  lemma FilterStep(rs: seq<Path>, keep: Path -> bool, i: nat)
    requires i < |rs|
    ensures Filter(rs[..i + 1], keep) == if keep(rs[i]) then Filter(rs[..i], keep) + [rs[i]] else Filter(rs[..i], keep)
    ensures Filter(rs[..0], keep) == [] && rs[..|rs|] == rs
  {
    assert rs[..i + 1][..i] == rs[..i];
  }

  method BothKinds(roots: seq<Path>) returns (both: bool)
    ensures both == Mixed(roots)
  {
    hide HasBuilds;
    var hasBuilds, hasNonBuilds := false, false;
    for i := 0 to |roots|
      invariant hasBuilds <==> exists j :: 0 <= j < i && HasBuilds(roots[j])
      invariant hasNonBuilds <==> exists j :: 0 <= j < i && !HasBuilds(roots[j])
    {
      var b := HasBuildsSegment(roots[i]);
      if b {
        hasBuilds := true;
      } else {
        hasNonBuilds := true;
      }
    }
    both := hasBuilds && hasNonBuilds;
  }

  method DropBuilds(roots: seq<Path>) returns (afterBuilds: seq<Path>)
    requires roots != []
    ensures afterBuilds == Survivors(roots)
  {
    hide HasBuilds, Mixed, Filter;
    var both := BothKinds(roots);
    afterBuilds := [];
    FilterStep(roots, OutsideBuilds(), 0);
    if both {
      for i := 0 to |roots|
        invariant afterBuilds == Filter(roots[..i], OutsideBuilds())
      {
        FilterStep(roots, OutsideBuilds(), i);
        var b := HasBuildsSegment(roots[i]);
        if !b {
          afterBuilds := afterBuilds + [roots[i]];
        }
      }
    } else {
      afterBuilds := afterBuilds + roots;
    }
  }

  method IsDescendant(afterBuilds: seq<Path>, r: Path) returns (isDescendant: bool)
    ensures isDescendant == !Minimal(afterBuilds, r)
  {
    hide Above;
    isDescendant := false;
    for j := 0 to |afterBuilds|
      invariant !isDescendant && forall k :: 0 <= k < j ==> !Above(afterBuilds[k], r)
    {
      var other := afterBuilds[j];
      if other == r {
        NotAboveItself(r);
        continue;
      }
      isDescendant := IsAncestorRoot(other, r);
      if isDescendant {
        assert other in afterBuilds;
        return;
      }
    }
  }

  method DedupeUnrealRoots(roots: seq<Path>) returns (kept: seq<Path>)
    ensures kept == Kept(roots)
  {
    hide Survivors, Minimal, Filter;
    if |roots| <= 1 {
      OneRoot(roots);
      return roots;
    }
    var afterBuilds := DropBuilds(roots);
    kept := [];
    NothingFiltered(afterBuilds, MinimalIn(afterBuilds));
    for i := 0 to |afterBuilds|
      invariant kept == Filter(afterBuilds[..i], MinimalIn(afterBuilds))
    {
      FilterStep(afterBuilds, MinimalIn(afterBuilds), i);
      var isDescendant := IsDescendant(afterBuilds, afterBuilds[i]);
      if !isDescendant {
        kept := kept + [afterBuilds[i]];
      }
    }
  }

  lemma NothingFiltered(rs: seq<Path>, keep: Path -> bool)
    ensures Filter(rs[..0], keep) == [] && rs[..|rs|] == rs
  {
  }

  lemma NotAboveItself(r: Path)
    ensures !Above(r, r)
  {
  }

  lemma OneRoot(roots: seq<Path>)
    requires |roots| <= 1
    ensures Kept(roots) == roots
  {
    hide Filter, Above, HasBuilds;
    if |roots| == 1 {
      NotAboveItself(roots[0]);
      assert Survivors(roots) == roots;
      FilterStep(roots, MinimalIn(roots), 0);
      assert MinimalIn(roots)(roots[0]);
      assert roots[..1] == roots && [] + [roots[0]] == roots;
    } else {
      NothingFiltered(roots, OutsideBuilds());
      NothingFiltered(roots, MinimalIn(roots));
      assert roots == roots[..0];
    }
  }

  lemma AboveTransitive(a: Path, b: Path, c: Path)
    requires Above(a, b) && Above(b, c)
    ensures Above(a, c)
  {
  }

  /** Two roots above the same one are comparable, or the same but for the case of letters. */
  lemma Comparable(a: Path, b: Path, d: Path)
    requires Above(a, d) && Above(b, d)
    ensures Above(a, b) || Above(b, a) || Folded(a) == Folded(b)
  {
    var x, y := Folded(a), Folded(b);
    if |x| <= |y| {
      assert x == Folded(d)[..|x|] == y[..|x|];
    } else {
      assert y == Folded(d)[..|y|] == x[..|y|];
    }
  }

  /** Above every root there is a minimal one, or it is minimal itself. */
  lemma {:induction false} MinimalAbove(rs: seq<Path>, r: Path) returns (m: Path)
    requires r in rs
    ensures m in rs && Minimal(rs, m) && (m == r || Above(m, r))
    decreases |r|
  {
    hide Folded;
    if Minimal(rs, r) {
      m := r;
    } else {
      var o :| o in rs && Above(o, r);
      Shorter(o, r);
      m := MinimalAbove(rs, o);
      if m != o {
        AboveTransitive(m, o, r);
      }
    }
  }

  lemma Shorter(o: Path, r: Path)
    requires Above(o, r)
    ensures |o| < |r|
  {
  }

  /**
   The kept roots are exactly the minimal ones among the survivors of the Builds rule. None is above
   another, some root is kept if there was any, and every root dropped by the second rule has a
   kept one above it, unique but for the case of letters.
   */
  lemma KeptAreMinimal(rs: seq<Path>)
    ensures forall r :: r in Kept(rs) <==> r in Survivors(rs) && Minimal(Survivors(rs), r)
    ensures forall a, b :: a in Kept(rs) && b in Kept(rs) ==> !Above(a, b)
    ensures rs != [] ==> Kept(rs) != []
    ensures forall r :: r in Survivors(rs) && r !in Kept(rs) ==> exists k :: k in Kept(rs) && Above(k, r)
    ensures forall a, b, r :: a in Kept(rs) && b in Kept(rs) && Above(a, r) && Above(b, r) ==> Folded(a) == Folded(b)
  {
    hide Above, Folded, HasBuilds;
    var ss := Survivors(rs);
    forall r | r in ss && r !in Kept(rs)
      ensures exists k :: k in Kept(rs) && Above(k, r)
    {
      var m := MinimalAbove(ss, r);
      assert m in Kept(rs);
    }
    if rs != [] {
      SomeSurvive(rs);
      var m := MinimalAbove(ss, ss[0]);
      assert m in Kept(rs);
    }
    forall a, b, r | a in Kept(rs) && b in Kept(rs) && Above(a, r) && Above(b, r)
      ensures Folded(a) == Folded(b)
    {
      Comparable(a, b, r);
    }
  }

  /** One of the components is "builds", letter case aside. */
  predicate UnderBuilds(p: Path) { exists i :: 0 <= i < |p| && Lower(p[i]) == "builds" }

  /**
   The Builds rule: where some root is not under a Builds directory no kept one is, and the roots that
   are not are kept up to nesting among themselves. Where all are, or none, only nesting counts.
   */
  lemma BuildsRule(rs: seq<Path>, r: Path)
    ensures (exists o :: o in rs && !UnderBuilds(o)) && r in Kept(rs) ==> !UnderBuilds(r)
    ensures r in rs && !UnderBuilds(r) && r !in Kept(rs) ==> exists o :: o in rs && !UnderBuilds(o) && Above(o, r)
    ensures (forall o :: o in rs ==> UnderBuilds(o)) && r in rs && r !in Kept(rs) ==> exists o :: o in rs && Above(o, r)
  {
    hide Above;
    forall p
      ensures HasBuilds(p) == UnderBuilds(p)
    {
      BuildsIs(p);
    }
    hide HasBuilds, UnderBuilds;
    KeptAreMinimal(rs);
  }

  lemma BuildsIs(p: Path)
    ensures HasBuilds(p) == UnderBuilds(p)
  {
    assert Lower("Builds") == "builds";
  }

  lemma SomeSurvive(rs: seq<Path>)
    requires rs != []
    ensures Survivors(rs) != []
    ensures forall r :: r in Survivors(rs) ==> r in rs
    ensures forall r :: r in rs && r !in Survivors(rs) ==> HasBuilds(r)
  {
    hide HasBuilds;
    if Mixed(rs) {
      var r :| r in rs && !HasBuilds(r);
      assert OutsideBuilds()(r);
      assert r in Survivors(rs);
    }
  }

  // ---------------------------------------------------------------- where the containers go

  function Length(p: Path): nat { if p == [] then 0 else Length(p[..|p| - 1]) + |p[|p| - 1]| + 1 }

  /** The longest kept path above d; among equals the first. */
  function Home(kept: seq<Path>, d: Path): (h: Option<Path>)
    ensures h.Some? ==> h.value in kept && Above(h.value, d)
    ensures h.None? <==> forall k :: k in kept ==> !Above(k, d)
  {
    if kept == [] then None
    else
      var n := |kept| - 1;
      var h := Home(kept[..n], d);
      assert kept == kept[..n] + [kept[n]];
      if Above(kept[n], d) && (h.None? || Length(kept[n]) > Length(h.value)) then Some(kept[n]) else h
  }

  type Files = map<Path, seq<string>>

  /** What happens to the containers of one root. */
  function Moved(files: Files, kept: seq<Path>, d: Path): Files
    requires (forall k :: k in kept ==> k in files) && d in files
  {
    if d in kept then files
    else match Home(kept, d)
      case None => files
      case Some(h) => files[h := files[h] + files[d]]
  }

  /** All containers of the given roots. */
  function Union(files: Files, rs: seq<Path>): multiset<string>
    requires forall r :: r in rs ==> r in files
  {
    if rs == [] then multiset{} else Union(files, rs[..|rs| - 1]) + multiset(files[rs[|rs| - 1]])
  }

  predicate Counted(kept: seq<Path>, r: Path) { r in kept || Home(kept, r).Some? }

  function DroppedIn(kept: seq<Path>): Path -> bool { (p: Path) => p !in kept && Home(kept, p).Some? }

  /** The containers of the dropped roots whose home is k, in the order of the roots. */
  function Received(files: Files, kept: seq<Path>, roots: seq<Path>, k: Path): seq<string>
    requires forall r :: r in roots ==> r in files
  {
    if roots == [] then []
    else
      var d := roots[|roots| - 1];
      Received(files, kept, roots[..|roots| - 1], k) + if d !in kept && Home(kept, d) == Some(k) then files[d] else []
  }

  lemma {:induction false} UnionGrows(files: Files, rs: seq<Path>, h: Path, more: seq<string>)
    requires (forall r :: r in rs ==> r in files) && Distinct(rs) && h in files
    ensures Union(files[h := files[h] + more], rs) == Union(files, rs) + if h in rs then multiset(more) else multiset{}
  {
    if rs != [] {
      var n := |rs| - 1;
      UnionGrows(files, rs[..n], h, more);
      assert rs == rs[..n] + [rs[n]];
      assert multiset(files[h] + more) == multiset(files[h]) + multiset(more);
    }
  }

  /**
   Moves the containers of every dropped root to its home, in the order of the roots. Every kept root
   ends with its own containers and then those of the roots whose home it is; in all these are the
   containers of every dropped root that has a kept one above it, none counted twice.
   */
  method Rehome(roots: seq<Path>, kept: seq<Path>, rootFiles: Files) returns (files: Files)
    requires Distinct(roots) && Distinct(kept) && forall r :: r in kept ==> r in roots
    requires forall r :: r in roots <==> r in rootFiles
    ensures files.Keys == rootFiles.Keys
    ensures forall r :: r in roots && r !in kept ==> files[r] == rootFiles[r]
    ensures forall k :: k in kept ==> files[k] == rootFiles[k] + Received(rootFiles, kept, roots, k)
    ensures Union(files, kept) == Union(rootFiles, kept) + Union(rootFiles, Filter(roots, DroppedIn(kept)))
  {
    hide Union, Filter, Moved, Distinct, DroppedIn, Received;
    files := rootFiles;
    NoneDropped(rootFiles, kept);
    assert roots[..0] == [];
    for i := 0 to |roots|
      invariant files.Keys == rootFiles.Keys
      invariant forall r :: r in roots && r !in kept ==> files[r] == rootFiles[r]
      invariant forall k :: k in kept ==> files[k] == rootFiles[k] + Received(rootFiles, kept, roots[..i], k)
      invariant forall r :: r in Filter(roots[..i], DroppedIn(kept)) ==> r in rootFiles
      invariant Union(files, kept) == Union(rootFiles, kept) + Union(rootFiles, Filter(roots[..i], DroppedIn(kept)))
    {
      DroppedStep(rootFiles, roots, kept, i);
      MovedKeeps(files, kept, roots[i]);
      forall k | k in kept
        ensures Moved(files, kept, roots[i])[k] == rootFiles[k] + Received(rootFiles, kept, roots[..i + 1], k)
      {
        ReceivedStep(rootFiles, files, roots, kept, i, k);
      }
      GlueBags(Union(rootFiles, kept), Union(rootFiles, Filter(roots[..i], DroppedIn(kept))), multiset(files[roots[i]]));
      files := MoveOne(files, kept, roots[i]);
    }
    assert roots[..|roots|] == roots;
  }

  lemma GlueBags(a: multiset<string>, b: multiset<string>, c: multiset<string>)
    ensures a + b + c == a + (b + c) && a + b + multiset{} == a + b && b + multiset{} == b
  {
  }

  method MoveOne(files0: Files, kept: seq<Path>, dropped: Path) returns (files: Files)
    requires (forall k :: k in kept ==> k in files0) && dropped in files0
    ensures files == Moved(files0, kept, dropped)
  {
    hide Home, Above;
    files := files0;
    if dropped in kept {
      return;
    }
    var best := FindHome(kept, dropped);
    if best.Some? {
      files := files[best.value := files[best.value] + files[dropped]];
    }
  }

  lemma MovedKeeps(files: Files, kept: seq<Path>, d: Path)
    requires (forall k :: k in kept ==> k in files) && Distinct(kept) && d in files
    ensures Moved(files, kept, d).Keys == files.Keys
    ensures forall r :: r in files && r !in kept ==> Moved(files, kept, d)[r] == files[r]
    ensures Union(Moved(files, kept, d), kept)
         == Union(files, kept) + if d !in kept && Home(kept, d).Some? then multiset(files[d]) else multiset{}
  {
    hide Above, Union, Home;
    var h := Home(kept, d);
    if d !in kept && h.Some? {
      UnionGrows(files, kept, h.value, files[d]);
    }
  }

  method FindHome(kept: seq<Path>, d: Path) returns (h: Option<Path>)
    ensures h == Home(kept, d)
  {
    hide Above, Length;
    h := None;
    for i := 0 to |kept|
      invariant h == Home(kept[..i], d)
    {
      assert kept[..i + 1][..i] == kept[..i];
      var above := IsAncestorRoot(kept[i], d);
      if above && (h.None? || Length(kept[i]) > Length(h.value)) {
        h := Some(kept[i]);
      }
    }
    assert kept[..|kept|] == kept;
  }

  lemma NoneDropped(files: Files, kept: seq<Path>)
    ensures Filter([], DroppedIn(kept)) == [] && Union(files, []) == multiset{}
    ensures forall k :: Received(files, kept, [], k) == []
  {
  }

  lemma ReceivedStep(rootFiles: Files, files: Files, roots: seq<Path>, kept: seq<Path>, i: nat, k: Path)
    requires i < |roots| && (forall r :: r in roots ==> r in rootFiles) && files.Keys == rootFiles.Keys
    requires k in kept && (forall r :: r in kept ==> r in roots)
    requires roots[i] !in kept ==> files[roots[i]] == rootFiles[roots[i]]
    requires files[k] == rootFiles[k] + Received(rootFiles, kept, roots[..i], k)
    ensures k in Moved(files, kept, roots[i])
    ensures Moved(files, kept, roots[i])[k] == rootFiles[k] + Received(rootFiles, kept, roots[..i + 1], k)
  {
    hide Home;
    assert roots[..i + 1][..i] == roots[..i];
    Glue(rootFiles[k], Received(rootFiles, kept, roots[..i], k), rootFiles[roots[i]]);
  }

  lemma DroppedStep(files: Files, roots: seq<Path>, kept: seq<Path>, i: nat)
    requires i < |roots| && forall r :: r in roots ==> r in files
    ensures var fs, gs := Filter(roots[..i], DroppedIn(kept)), Filter(roots[..i + 1], DroppedIn(kept));
            && (forall r :: r in fs ==> r in files) && (forall r :: r in gs ==> r in files)
            && Union(files, gs) == Union(files, fs)
               + if roots[i] !in kept && Home(kept, roots[i]).Some? then multiset(files[roots[i]]) else multiset{}
  {
    hide Home;
    assert roots[..i + 1][..i] == roots[..i];
    var fs, gs := Filter(roots[..i], DroppedIn(kept)), Filter(roots[..i + 1], DroppedIn(kept));
    assert gs == fs || gs[..|gs| - 1] == fs;
  }

  /** Every root that survives the Builds rule is kept or has a home; a dropped one under Builds may have none. */
  lemma OnlyBuildsAreLost(roots: seq<Path>, r: Path)
    requires r in roots && !Counted(Kept(roots), r)
    ensures HasBuilds(r) && Mixed(roots)
  {
    hide Above, Folded, HasBuilds, Home;
    KeptAreMinimal(roots);
    SomeSurvive(roots);
    HomeIff(Kept(roots), r);
  }

  lemma HomeIff(kept: seq<Path>, d: Path)
    ensures Home(kept, d).Some? <==> exists k :: k in kept && Above(k, d)
  {
  }

  /** Which kept root takes the containers of a dropped one does not depend on the order of the roots, but for case. */
  lemma HomeUnique(roots: seq<Path>, d: Path, k: Path)
    requires k in Kept(roots) && Above(k, d)
    ensures Home(Kept(roots), d).Some? && Folded(Home(Kept(roots), d).value) == Folded(k)
  {
    hide Above, Folded, HasBuilds, Kept;
    KeptAreMinimal(roots);
    HomeIff(Kept(roots), d);
  }

  /** The path at i is above d; those after it that are too are no longer, and those before it shorter. */
  ghost predicate FirstLongest(kept: seq<Path>, d: Path, i: nat)
  {
    && i < |kept| && Above(kept[i], d)
    && (forall k :: i < k < |kept| && Above(kept[k], d) ==> Length(kept[k]) <= Length(kept[i]))
    && (forall k :: 0 <= k < i && Above(kept[k], d) ==> Length(kept[k]) < Length(kept[i]))
  }

  /** The receiving root is the first of those with the longest path above the dropped one. */
  lemma {:induction false} HomeIsLongest(kept: seq<Path>, d: Path) returns (i: nat)
    requires Home(kept, d).Some?
    ensures i < |kept| && kept[i] == Home(kept, d).value && FirstLongest(kept, d, i)
    decreases |kept|
  {
    hide Above, Length;
    var n := |kept| - 1;
    var h := Home(kept[..n], d);
    assert forall k :: 0 <= k < n ==> kept[..n][k] == kept[k];
    if h.None? {
      i := n;
      assert forall k :: 0 <= k < n ==> kept[k] in kept[..n];
    } else {
      i := HomeIsLongest(kept[..n], d);
      assert kept[i] == kept[..n][i];
      if Above(kept[n], d) && Length(kept[n]) > Length(h.value) {
        i := n;
      }
    }
  }

  /** Length counts the characters of a path, one separator for each component. */
  lemma {:induction false} LengthIs(p: Path, c: string)
    ensures Length(p + [c]) == Length(p) + |c| + 1 && Length([]) == 0
  {
    assert (p + [c])[..|p|] == p;
  }
}
