/**
 Grouping function bodies by the hash of their canonical form, with a budget on the number of
 groups and a cap on the examples kept for each. A record stands here with the hash it has.
 */
module Dedupe {

  type Key = k: int | 0 <= k < 0x1_0000_0000_0000_0000

  datatype Member = Member(addr: string, name: string)

  datatype Rec = Rec(key: Key, who: Member)

  const EXAMPLE_CAP := 64

  /** What is remembered of a group: its first member, how many there are, and some of the later ones. */
  datatype Group = Group(canon: Member, count: nat, dups: seq<Member>, truncated: bool)

  // ---------------------------------------------------------------- what the pass is about

  /** The members of group k, in the order of the stream. */
  function Members(rs: seq<Rec>, k: Key): (ms: seq<Member>)
  {
    if rs == [] then []
    else
      var n := |rs| - 1;
      Members(rs[..n], k) + if rs[n].key == k then [rs[n].who] else []
  }

  /** The distinct keys, each where it first appears. */
  function Firsts(rs: seq<Rec>): (ks: seq<Key>)
    ensures forall k :: k in ks <==> exists i :: 0 <= i < |rs| && rs[i].key == k
    ensures forall i, j :: 0 <= i < j < |ks| ==> ks[i] != ks[j]
  {
    if rs == [] then []
    else
      var n := |rs| - 1;
      var ks := Firsts(rs[..n]);
      assert forall i :: 0 <= i < n ==> rs[..n][i] == rs[i];
      if rs[n].key in ks then ks else ks + [rs[n].key]
  }

  function Min(a: nat, b: nat): nat { if a < b then a else b }

  /** The keys that get a group: the first so many distinct ones. */
  function Tracked(rs: seq<Rec>, budget: nat): seq<Key> { Firsts(rs)[..Min(budget, |Firsts(rs)|)] }

  function GroupOf(rs: seq<Rec>, k: Key): Group
    requires Members(rs, k) != []
  {
    var ms := Members(rs, k);
    Group(ms[0], |ms|, ms[1..Min(|ms|, EXAMPLE_CAP + 1)], |ms| - 1 > EXAMPLE_CAP)
  }

  lemma {:induction false} MembersIff(rs: seq<Rec>, k: Key)
    ensures Members(rs, k) != [] <==> k in Firsts(rs)
  {
    if rs != [] {
      MembersIff(rs[..|rs| - 1], k);
    }
  }

  lemma OneMore(rs: seq<Rec>, r: Rec, k: Key)
    ensures Members(rs + [r], k) == Members(rs, k) + if r.key == k then [r.who] else []
    ensures Firsts(rs + [r]) == if r.key in Firsts(rs) then Firsts(rs) else Firsts(rs) + [r.key]
  {
    assert (rs + [r])[..|rs|] == rs;
  }

  /** A group's members are the records of its key: the first is its canonical one. */
  lemma {:induction false} MembersAre(rs: seq<Rec>, k: Key, i: nat)
    ensures |Members(rs, k)| == |set j | 0 <= j < |rs| && rs[j].key == k|
    ensures i < |rs| && rs[i].key == k && (forall j :: 0 <= j < i ==> rs[j].key != k) ==>
              Members(rs, k) != [] && Members(rs, k)[0] == rs[i].who
    decreases |rs|
  {
    if rs != [] {
      var n := |rs| - 1;
      MembersAre(rs[..n], k, i);
      var before, now := set j | 0 <= j < n && rs[..n][j].key == k, set j | 0 <= j < |rs| && rs[j].key == k;
      assert now == if rs[n].key == k then before + {n} else before;
      if i == n && forall j :: 0 <= j < i ==> rs[j].key != k {
        assert before == {};
      }
    }
  }

  /** They keep the order of the stream. */
  lemma {:induction false} MembersInOrder(rs: seq<Rec>, k: Key, m: nat) returns (i: nat)
    requires m < |Members(rs, k)|
    ensures i < |rs| && rs[i].key == k && Members(rs, k)[m] == rs[i].who && |Members(rs[..i], k)| == m
    decreases |rs|
  {
    var n := |rs| - 1;
    assert rs[..n + 1] == rs;
    if m < |Members(rs[..n], k)| {
      i := MembersInOrder(rs[..n], k, m);
      assert rs[..n][..i] == rs[..i];
    } else {
      i := n;
    }
  }

  /** A group shows its first member, how many there are, the next 64, and whether there are more. */
  lemma GroupShows(rs: seq<Rec>, k: Key, i: nat, m: nat)
    requires i < |rs| && rs[i].key == k && forall j :: 0 <= j < i ==> rs[j].key != k
    ensures Members(rs, k) != []
    ensures var g, count := GroupOf(rs, k), |set j | 0 <= j < |rs| && rs[j].key == k|;
            && g.canon == rs[i].who && g.count == count && (g.truncated <==> count > 65)
            && |g.dups| == (if count > 65 then 64 else count - 1)
            && (m < |g.dups| ==> exists j :: 0 <= j < |rs| && rs[j].key == k && g.dups[m] == rs[j].who
                                             && |set l | 0 <= l < j && rs[l].key == k| == m + 1)
  {
    MembersAre(rs, k, i);
    hide Members;
    var g := GroupOf(rs, k);
    if m < |g.dups| {
      var j := MembersInOrder(rs, k, m + 1);
      MembersAre(rs[..j], k, 0);
      assert (set l | 0 <= l < j && rs[l].key == k) == set l | 0 <= l < |rs[..j]| && rs[..j][l].key == k;
    }
  }

  // ---------------------------------------------------------------- the accumulator

  /** Only a new key can change which keys are tracked, and only below the budget. */
  lemma StillTracked(rs: seq<Rec>, r: Rec, budget: nat)
    ensures forall k :: k in Tracked(rs, budget) ==> k in Firsts(rs)
    ensures r.key in Firsts(rs) ==> Tracked(rs + [r], budget) == Tracked(rs, budget)
    ensures |Firsts(rs)| >= budget ==> Tracked(rs + [r], budget) == Tracked(rs, budget)
    ensures |Firsts(rs)| <= budget ==> Tracked(rs, budget) == Firsts(rs)
    ensures |Firsts(rs)| < budget ==> Tracked(rs + [r], budget) == Firsts(rs + [r])
    ensures Firsts(rs + [r]) == if r.key in Firsts(rs) then Firsts(rs) else Firsts(rs) + [r.key]
  {
    OneMore(rs, r, r.key);
  }

  function Grown(g: Group, who: Member): Group
  {
    if |g.dups| < EXAMPLE_CAP then g.(count := g.count + 1, dups := g.dups + [who])
    else g.(count := g.count + 1, truncated := true)
  }

  lemma GroupGrows(rs: seq<Rec>, r: Rec)
    requires Members(rs, r.key) != []
    ensures Members(rs + [r], r.key) != []
    ensures GroupOf(rs + [r], r.key) == Grown(GroupOf(rs, r.key), r.who)
  {
    hide Members;
    OneMore(rs, r, r.key);
    var ms := Members(rs, r.key);
    if |ms| <= EXAMPLE_CAP {
      assert (ms + [r.who])[1..|ms| + 1] == ms[1..|ms|] + [r.who];
    } else {
      assert (ms + [r.who])[1..EXAMPLE_CAP + 1] == ms[1..EXAMPLE_CAP + 1];
    }
  }

  /** The groups are exactly those of the first distinct keys within the budget, over everything seen. */
  ghost predicate Groups(groups: map<Key, Group>, exceeded: bool, seen: seq<Rec>, budget: nat)
  {
    && (forall k :: k in groups <==> k in Tracked(seen, budget))
    && (forall k :: k in groups ==> Members(seen, k) != [] && groups[k] == GroupOf(seen, k))
    && |groups| == Min(budget, |Firsts(seen)|)
    && exceeded == (|Firsts(seen)| > budget)
  }

  lemma OtherGroups(groups: map<Key, Group>, exceeded: bool, seen: seq<Rec>, r: Rec, budget: nat)
    requires Groups(groups, exceeded, seen, budget)
    ensures forall k :: k in groups && k != r.key ==>
              Members(seen + [r], k) != [] && groups[k] == GroupOf(seen + [r], k)
  {
    hide Members, Firsts, Tracked;
    forall k | k in groups && k != r.key
      ensures Members(seen + [r], k) != [] && groups[k] == GroupOf(seen + [r], k)
    {
      OneMore(seen, r, k);
      assert Members(seen, k) + [] == Members(seen, k);
    }
  }

  lemma KnownKey(groups: map<Key, Group>, exceeded: bool, seen: seq<Rec>, r: Rec, budget: nat)
    requires Groups(groups, exceeded, seen, budget) && r.key in groups
    ensures Groups(groups[r.key := Grown(groups[r.key], r.who)], exceeded, seen + [r], budget)
  {
    hide Members, Firsts, GroupOf, Tracked, Grown;
    assert r.key in Tracked(seen, budget);
    StillTracked(seen, r, budget);
    OtherGroups(groups, exceeded, seen, r, budget);
    GroupGrows(seen, r);
    SameSize(groups, r.key, Grown(groups[r.key], r.who));
  }

  lemma SameSize(groups: map<Key, Group>, k: Key, g: Group)
    requires k in groups
    ensures |groups[k := g]| == |groups|
  {
    assert groups[k := g].Keys == groups.Keys;
    assert |groups.Keys| == |groups| && |groups[k := g].Keys| == |groups[k := g]|;
  }

  lemma OverBudget(groups: map<Key, Group>, exceeded: bool, seen: seq<Rec>, r: Rec, budget: nat)
    requires Groups(groups, exceeded, seen, budget) && r.key !in groups && |groups| >= budget
    ensures Groups(groups, true, seen + [r], budget)
  {
    hide Members, Firsts, GroupOf, Tracked;
    StillTracked(seen, r, budget);
    OtherGroups(groups, exceeded, seen, r, budget);
  }

  lemma NewKey(groups: map<Key, Group>, exceeded: bool, seen: seq<Rec>, r: Rec, budget: nat)
    requires Groups(groups, exceeded, seen, budget) && r.key !in groups && |groups| < budget
    ensures Groups(groups[r.key := Group(r.who, 1, [], false)], exceeded, seen + [r], budget)
  {
    hide Members, Firsts, GroupOf, Tracked;
    StillTracked(seen, r, budget);
    OtherGroups(groups, exceeded, seen, r, budget);
    NewGroup(seen, r);
  }

  lemma NewGroup(seen: seq<Rec>, r: Rec)
    requires r.key !in Firsts(seen)
    ensures Members(seen + [r], r.key) != [] && GroupOf(seen + [r], r.key) == Group(r.who, 1, [], false)
  {
    MembersIff(seen, r.key);
    OneMore(seen, r, r.key);
    assert Members(seen + [r], r.key) == [r.who];
  }

  class Accumulator {
    const budget: nat
    var totalFunctions: nat
    var groups: map<Key, Group>
    var budgetExceeded: bool
    ghost var seen: seq<Rec>

    ghost predicate Valid()
      reads this
    {
      totalFunctions == |seen| && Groups(groups, budgetExceeded, seen, budget)
    }

    constructor (budget: nat)
      ensures Valid() && seen == [] && this.budget == budget
    {
      this.budget := budget;
      totalFunctions, groups, budgetExceeded, seen := 0, map[], false, [];
    }

    method Add(r: Rec)
      requires Valid()
      modifies this
      ensures Valid() && seen == old(seen) + [r]
    {
      hide Groups;
      if r.key in groups {
        KnownKey(groups, budgetExceeded, seen, r, budget);
      } else if |groups| >= budget {
        OverBudget(groups, budgetExceeded, seen, r, budget);
      } else {
        NewKey(groups, budgetExceeded, seen, r, budget);
      }
      totalFunctions := totalFunctions + 1;
      seen := seen + [r];
      if r.key in groups {
        var g := groups[r.key];
        g := g.(count := g.count + 1);
        if |g.dups| < EXAMPLE_CAP {
          g := g.(dups := g.dups + [r.who]);
        } else {
          g := g.(truncated := true);
        }
        groups := groups[r.key := g];
        return;
      }
      if |groups| >= budget {
        budgetExceeded := true;
        return;
      }
      groups := groups[r.key := Group(r.who, 1, [], false)];
    }
  }

  // ---------------------------------------------------------------- the totals

  function CountIn(rs: seq<Rec>, s: set<Key>): (n: nat)
    ensures n <= |rs|
  {
    if rs == [] then 0 else CountIn(rs[..|rs| - 1], s) + if rs[|rs| - 1].key in s then 1 else 0
  }

  lemma {:induction false} CountOneMore(rs: seq<Rec>, s: set<Key>, k: Key)
    requires k !in s
    ensures CountIn(rs, s + {k}) == CountIn(rs, s) + |Members(rs, k)|
  {
    if rs != [] {
      CountOneMore(rs[..|rs| - 1], s, k);
    }
  }

  lemma {:induction false} CountNone(rs: seq<Rec>)
    ensures CountIn(rs, {}) == 0
  {
    if rs != [] {
      CountNone(rs[..|rs| - 1]);
    }
  }

  lemma {:induction false} CountAll(rs: seq<Rec>, s: set<Key>)
    requires forall i :: 0 <= i < |rs| ==> rs[i].key in s
    ensures CountIn(rs, s) == |rs|
  {
    if rs != [] {
      CountAll(rs[..|rs| - 1], s);
    }
  }

  function SetOf(ks: seq<Key>): set<Key> { set k | k in ks }

  lemma SetSnoc(ks: seq<Key>)
    requires ks != [] && forall i, j :: 0 <= i < j < |ks| ==> ks[i] != ks[j]
    ensures var n := |ks| - 1; SetOf(ks) == SetOf(ks[..n]) + {ks[n]} && ks[n] !in SetOf(ks[..n])
  {
    assert ks == ks[..|ks| - 1] + [ks[|ks| - 1]];
  }

  /** The sum of (count - 1) over the groups of the keys ks. */
  function Collapsed(rs: seq<Rec>, ks: seq<Key>): int
  {
    if ks == [] then 0 else Collapsed(rs, ks[..|ks| - 1]) + |Members(rs, ks[|ks| - 1])| - 1
  }

  lemma {:induction false} CollapsedIsCount(rs: seq<Rec>, ks: seq<Key>)
    requires forall i, j :: 0 <= i < j < |ks| ==> ks[i] != ks[j]
    ensures Collapsed(rs, ks) == CountIn(rs, SetOf(ks)) - |ks|
    decreases |ks|
  {
    if ks == [] {
      CountNone(rs);
      assert SetOf(ks) == {};
    } else {
      var n := |ks| - 1;
      CollapsedIsCount(rs, ks[..n]);
      SetSnoc(ks);
      CountOneMore(rs, SetOf(ks[..n]), ks[n]);
    }
  }

  function Untracked(rs: seq<Rec>, budget: nat): int
  {
    |rs| - CountIn(rs, SetOf(Tracked(rs, budget)))
  }

  datatype Report = Report(total: nat, unique: int, duplicates: int, exceeded: bool, groups: seq<Group>)

  /** Larger groups first, and by canonical address among groups of one size. */
  predicate Before(a: Group, b: Group)
  {
    a.count > b.count || (a.count == b.count && NotAfter(a.canon.addr, b.canon.addr))
  }

  predicate NotAfter(a: string, b: string)
  {
    a == "" || (b != "" && (a[0] < b[0] || (a[0] == b[0] && NotAfter(a[1..], b[1..]))))
  }

  predicate Sorted(gs: seq<Group>) { forall i, j :: 0 <= i < j < |gs| ==> Before(gs[i], gs[j]) }

  lemma {:induction false} NotAfterTotal(a: string, b: string)
    ensures NotAfter(a, b) || NotAfter(b, a)
  {
    if a != "" && b != "" && a[0] == b[0] {
      NotAfterTotal(a[1..], b[1..]);
    }
  }

  lemma {:induction false} NotAfterTransitive(a: string, b: string, c: string)
    requires NotAfter(a, b) && NotAfter(b, c)
    ensures NotAfter(a, c)
  {
    if a != "" && b != "" && c != "" && a[0] == b[0] == c[0] {
      NotAfterTransitive(a[1..], b[1..], c[1..]);
    }
  }

  function InsertAt<T>(xs: seq<T>, i: nat, x: T): (r: seq<T>)
    requires i <= |xs|
    ensures |r| == |xs| + 1 && r[i] == x
    ensures forall j :: 0 <= j < |r| ==> r[j] == if j < i then xs[j] else if j == i then x else xs[j - 1]
  {
    xs[..i] + [x] + xs[i..]
  }

  lemma SameHead(a: string, b: string, k: nat)
    requires k <= |a| && k <= |b| && a != "" && b != ""
    ensures k > 0 && a[..k] == b[..k] ==> a[0] == b[0]
  {
    if k > 0 {
      assert a[..k][0] == a[0] && b[..k][0] == b[0];
    }
  }

  /** Addresses are compared as texts: the first difference decides, and a text comes before what it begins. */
  lemma {:induction false} NotAfterIff(a: string, b: string)
    ensures NotAfter(a, b) <==>
            a <= b || exists k :: 0 <= k < |a| && k < |b| && a[..k] == b[..k] && a[k] < b[k]
    decreases |a|
  {
    if a != "" && b != "" && a[0] == b[0] {
      var c, d := a[1..], b[1..];
      NotAfterIff(c, d);
      assert a == [a[0]] + c && b == [b[0]] + d;
      if k :| 0 <= k < |a| && k < |b| && a[..k] == b[..k] && a[k] < b[k] {
        assert c[..k - 1] == a[1..k] == a[..k][1..] && d[..k - 1] == b[1..k] == b[..k][1..];
        assert c[k - 1] < d[k - 1];
      }
      if k :| 0 <= k < |c| && k < |d| && c[..k] == d[..k] && c[k] < d[k] {
        assert a[..k + 1] == [a[0]] + c[..k] && b[..k + 1] == [b[0]] + d[..k];
        assert a[k + 1] < b[k + 1];
      }
    } else if a != "" && b != "" && a[0] < b[0] {
      assert a[..0] == b[..0];
    } else if a != "" && b != "" {
      forall k | 0 <= k < |a| && k < |b| && a[k] < b[k]
        ensures a[..k] != b[..k]
      {
        SameHead(a, b, k);
      }
    }
  }

  /** sort.Slice on the groups found so far: the new one is put before the first it precedes. */
  method Insert(gs: seq<Group>, g: Group) returns (r: seq<Group>)
    requires Sorted(gs)
    ensures Sorted(r) && exists i :: 0 <= i <= |gs| && r == InsertAt(gs, i, g)
  {
    hide NotAfter;
    var i := 0;
    while i < |gs| && Before(gs[i], g)
      invariant i <= |gs| && forall j :: 0 <= j < i ==> Before(gs[j], g)
    {
      i := i + 1;
    }
    r := InsertAt(gs, i, g);
    assert gs == gs[..i] + gs[i..];
    forall j | i <= j < |gs|
      ensures Before(g, gs[j])
    {
      NotAfterTotal(gs[i].canon.addr, g.canon.addr);
      if j > i && Before(g, gs[i]) && g.count == gs[i].count == gs[j].count {
        NotAfterTransitive(g.canon.addr, gs[i].canon.addr, gs[j].canon.addr);
      }
    }
  }

  function Shared(rs: seq<Rec>, s: set<Key>): set<Key> { set k | k in s && |Members(rs, k)| > 1 }

  /** The groups of the keys, one by one. */
  ghost predicate GroupsAre(gs: seq<Group>, rs: seq<Rec>, ks: seq<Key>)
  {
    |ks| == |gs| && forall i :: 0 <= i < |ks| ==> Members(rs, ks[i]) != [] && gs[i] == GroupOf(rs, ks[i])
  }

  /** The list is that of the keys ks, group by group, and these are the shared ones of s, each once. */
  ghost predicate ListsAs(gs: seq<Group>, rs: seq<Rec>, s: set<Key>, ks: seq<Key>)
  {
    && SetOf(ks) == Shared(rs, s)
    && (forall i, j :: 0 <= i < j < |ks| ==> ks[i] != ks[j])
    && GroupsAre(gs, rs, ks)
  }

  ghost predicate Lists(gs: seq<Group>, rs: seq<Rec>, s: set<Key>)
  {
    exists ks :: ListsAs(gs, rs, s, ks)
  }

  lemma SharedOneMore(rs: seq<Rec>, s: set<Key>, k: Key)
    requires k !in s
    ensures Shared(rs, s + {k}) == if |Members(rs, k)| > 1 then Shared(rs, s) + {k} else Shared(rs, s)
  {
    hide Members;
  }

  lemma InsertedKey(ks: seq<Key>, i: nat, k: Key)
    requires i <= |ks| && k !in ks && forall a, b :: 0 <= a < b < |ks| ==> ks[a] != ks[b]
    ensures var ks1 := InsertAt(ks, i, k);
            SetOf(ks1) == SetOf(ks) + {k} && forall a, b :: 0 <= a < b < |ks1| ==> ks1[a] != ks1[b]
  {
    var ks1 := InsertAt(ks, i, k);
    assert ks == ks[..i] + ks[i..];
    assert forall x :: x in ks1 <==> x in ks || x == k;
    hide InsertAt;
  }

  lemma GroupInserted(gs: seq<Group>, rs: seq<Rec>, ks: seq<Key>, k: Key, i: nat)
    requires GroupsAre(gs, rs, ks) && i <= |ks| && Members(rs, k) != []
    ensures GroupsAre(InsertAt(gs, i, GroupOf(rs, k)), rs, InsertAt(ks, i, k))
  {
    hide Members, GroupOf;
    var gs1, ks1 := InsertAt(gs, i, GroupOf(rs, k)), InsertAt(ks, i, k);
    forall j | 0 <= j < |ks1|
      ensures Members(rs, ks1[j]) != [] && gs1[j] == GroupOf(rs, ks1[j])
    {
      if j != i {
        var at := if j < i then j else j - 1;
        assert ks1[j] == ks[at] && gs1[j] == gs[at];
      }
    }
  }

  lemma ListsInserted(gs: seq<Group>, rs: seq<Rec>, s: set<Key>, ks: seq<Key>, k: Key, i: nat)
    requires ListsAs(gs, rs, s, ks) && i <= |ks| && k !in s && |Members(rs, k)| > 1
    ensures |ks| == |gs| && Lists(InsertAt(gs, i, GroupOf(rs, k)), rs, s + {k})
  {
    SharedOneMore(rs, s, k);
    assert k !in SetOf(ks);
    InsertedKey(ks, i, k);
    GroupInserted(gs, rs, ks, k, i);
    hide SetOf, Shared, Members, GroupOf, InsertAt, GroupsAre;
    assert ListsAs(InsertAt(gs, i, GroupOf(rs, k)), rs, s + {k}, InsertAt(ks, i, k));
  }

  lemma ListsOneMore(gs: seq<Group>, rs: seq<Rec>, s: set<Key>, k: Key, gs1: seq<Group>)
    requires Lists(gs, rs, s) && k !in s && Members(rs, k) != []
    requires |Members(rs, k)| > 1 ==> exists i :: 0 <= i <= |gs| && gs1 == InsertAt(gs, i, GroupOf(rs, k))
    requires |Members(rs, k)| <= 1 ==> gs1 == gs
    ensures Lists(gs1, rs, s + {k})
  {
    hide Members, GroupOf, ListsAs;
    var ks :| ListsAs(gs, rs, s, ks);
    if |Members(rs, k)| > 1 {
      var i :| 0 <= i <= |gs| && gs1 == InsertAt(gs, i, GroupOf(rs, k));
      SameLength(gs, rs, s, ks);
      ListsInserted(gs, rs, s, ks, k, i);
    } else {
      SharedOneMore(rs, s, k);
      SameShared(gs, rs, s, s + {k}, ks);
    }
  }

  lemma SameLength(gs: seq<Group>, rs: seq<Rec>, s: set<Key>, ks: seq<Key>)
    requires ListsAs(gs, rs, s, ks)
    ensures |ks| == |gs|
  {
  }

  lemma SameShared(gs: seq<Group>, rs: seq<Rec>, s: set<Key>, t: set<Key>, ks: seq<Key>)
    requires ListsAs(gs, rs, s, ks) && Shared(rs, s) == Shared(rs, t)
    ensures Lists(gs, rs, t)
  {
    hide Members, GroupOf, SetOf, Shared;
    assert ListsAs(gs, rs, t, ks);
  }

  /** The report's groups: those with a duplicate, taken from the map in any order and sorted. */
  method BuildGroups(groups: map<Key, Group>, ghost rs: seq<Rec>) returns (gs: seq<Group>)
    requires forall k :: k in groups ==> Members(rs, k) != [] && groups[k] == GroupOf(rs, k)
    ensures Sorted(gs) && Lists(gs, rs, groups.Keys)
  {
    hide Members, Before, GroupOf, Lists;
    gs := [];
    var todo := groups.Keys;
    ghost var done: set<Key> := {};
    NoneListed(rs);
    while todo != {}
      invariant done !! todo && done + todo == groups.Keys
      invariant Sorted(gs) && Lists(gs, rs, done)
      decreases todo
    {
      var k :| k in todo;
      ghost var was := gs;
      GroupCount(rs, k);
      if groups[k].count > 1 {
        gs := Insert(gs, groups[k]);
      }
      ListsOneMore(was, rs, done, k, gs);
      done, todo := done + {k}, todo - {k};
    }
    assert done == groups.Keys;
  }

  lemma NoneListed(rs: seq<Rec>)
    ensures Lists([], rs, {})
  {
    assert SetOf([]) == {} && Shared(rs, {}) == {};
    assert ListsAs([], rs, {}, []);
  }

  method DedupeFunctionBodies(rs: seq<Rec>, budget: nat) returns (rep: Report)
    ensures rep.total == |rs| && rep.exceeded == (|Firsts(rs)| > budget)
    ensures rep.duplicates == Collapsed(rs, Tracked(rs, budget))
    ensures rep.unique == |rs| - Collapsed(rs, Tracked(rs, budget))
    ensures Sorted(rep.groups)
    ensures Lists(rep.groups, rs, SetOf(Tracked(rs, budget)))
  {
    hide Members, Firsts, Before, GroupOf;
    var acc := new Accumulator(budget);
    for i := 0 to |rs|
      invariant acc.Valid() && fresh(acc) && acc.budget == budget && acc.seen == rs[..i]
    {
      acc.Add(rs[i]);
    }
    assert rs[..|rs|] == rs;
    ghost var ks := Tracked(rs, budget);
    assert acc.groups.Keys == SetOf(ks);
    TrackedDistinct(rs, budget);
    CollapsedIsCount(rs, ks);
    SetOfDistinct(ks);
    var collapsed := SumCollapsed(acc.groups, rs);
    var gs := BuildGroups(acc.groups, rs);
    rep := Report(acc.totalFunctions, acc.totalFunctions - collapsed, collapsed, acc.budgetExceeded, gs);
  }

  /** The sum over the groups, in whatever order the map gives them. */
  method SumCollapsed(groups: map<Key, Group>, ghost rs: seq<Rec>) returns (collapsed: int)
    requires forall k :: k in groups ==> Members(rs, k) != [] && groups[k] == GroupOf(rs, k)
    ensures collapsed == CountIn(rs, groups.Keys) - |groups.Keys|
  {
    hide Members, GroupOf;
    collapsed := 0;
    var todo := groups.Keys;
    ghost var done: set<Key> := {};
    CountNone(rs);
    while todo != {}
      invariant done !! todo && done + todo == groups.Keys
      invariant collapsed == CountIn(rs, done) - |done|
      decreases todo
    {
      var k :| k in todo;
      CountOneMore(rs, done, k);
      GroupCount(rs, k);
      collapsed := collapsed + (groups[k].count - 1);
      done, todo := done + {k}, todo - {k};
    }
    assert done == groups.Keys;
  }

  lemma GroupCount(rs: seq<Rec>, k: Key)
    requires Members(rs, k) != []
    ensures GroupOf(rs, k).count == |Members(rs, k)|
  {
  }

  lemma TrackedDistinct(rs: seq<Rec>, budget: nat)
    ensures var ks := Tracked(rs, budget); forall i, j :: 0 <= i < j < |ks| ==> ks[i] != ks[j]
  {
  }

  /** Unique functions are the groups and every record left without one when the budget ran out. */
  lemma UniqueMeans(rs: seq<Rec>, budget: nat)
    ensures |rs| - Collapsed(rs, Tracked(rs, budget)) == |Tracked(rs, budget)| + Untracked(rs, budget)
  {
    TrackedDistinct(rs, budget);
    CollapsedIsCount(rs, Tracked(rs, budget));
  }

  /** The distinct bodies past the budget. */
  function Rest(rs: seq<Rec>, budget: nat): seq<Key> { Firsts(rs)[Min(budget, |Firsts(rs)|)..] }

  lemma {:induction false} CollapsedSplit(rs: seq<Rec>, xs: seq<Key>, ys: seq<Key>)
    ensures Collapsed(rs, xs + ys) == Collapsed(rs, xs) + Collapsed(rs, ys)
    decreases |ys|
  {
    hide Members;
    var n := |ys| - 1;
    if ys == [] {
      assert xs + ys == xs;
    } else {
      CollapsedSplit(rs, xs, ys[..n]);
      assert (xs + ys)[..|xs| + n] == xs + ys[..n];
    }
  }

  /** Unique functions exceed the distinct bodies by the repetitions of those past the budget. */
  lemma UniqueExceeds(rs: seq<Rec>, budget: nat)
    ensures |rs| - Collapsed(rs, Tracked(rs, budget)) == |Firsts(rs)| + Collapsed(rs, Rest(rs, budget))
    ensures |Firsts(rs)| == |set i | 0 <= i < |rs| :: rs[i].key|
  {
    var ks := Firsts(rs);
    assert ks == Tracked(rs, budget) + Rest(rs, budget);
    KeysAreFirsts(rs);
    hide Firsts, Tracked, Rest;
    CollapsedSplit(rs, Tracked(rs, budget), Rest(rs, budget));
    CollapsedIsCount(rs, ks);
    CountAll(rs, SetOf(ks));
    SetOfDistinct(ks);
  }

  lemma {:induction false} NoneRepeated(rs: seq<Rec>, ks: seq<Key>)
    requires forall k :: k in ks ==> Members(rs, k) != []
    ensures Collapsed(rs, ks) >= 0
    ensures Collapsed(rs, ks) == 0 <==> forall k :: k in ks ==> |Members(rs, k)| == 1
  {
    hide Members;
    if ks != [] {
      var n := |ks| - 1;
      NoneRepeated(rs, ks[..n]);
      assert ks == ks[..n] + [ks[n]];
    }
  }

  /** So they are the distinct bodies exactly when none of those past the budget comes up again. */
  lemma UniqueIff(rs: seq<Rec>, budget: nat)
    ensures |rs| - Collapsed(rs, Tracked(rs, budget)) == |Firsts(rs)|
            <==> forall k :: k in Rest(rs, budget) ==> |Members(rs, k)| == 1
  {
    UniqueExceeds(rs, budget);
    forall k | k in Rest(rs, budget)
      ensures Members(rs, k) != []
    {
      MembersIff(rs, k);
    }
    hide Members, Firsts, Tracked, Rest;
    NoneRepeated(rs, Rest(rs, budget));
  }

  lemma KeysAreFirsts(rs: seq<Rec>)
    ensures SetOf(Firsts(rs)) == set i | 0 <= i < |rs| :: rs[i].key
    ensures var ks := Firsts(rs); forall i, j :: 0 <= i < j < |ks| ==> ks[i] != ks[j]
  {
    hide Firsts;
  }

  lemma {:induction false} SetOfDistinct(ks: seq<Key>)
    requires forall i, j :: 0 <= i < j < |ks| ==> ks[i] != ks[j]
    ensures |SetOf(ks)| == |ks|
  {
    if ks == [] {
      assert SetOf(ks) == {};
    } else {
      var n := |ks| - 1;
      SetOfDistinct(ks[..n]);
      SetSnoc(ks);
    }
  }

  /** In particular while the budget is not exceeded. */
  lemma WithinBudget(rs: seq<Rec>, budget: nat)
    requires |Firsts(rs)| <= budget
    ensures |rs| - Collapsed(rs, Tracked(rs, budget)) == |Firsts(rs)| == |set i | 0 <= i < |rs| :: rs[i].key|
  {
    UniqueExceeds(rs, budget);
  }

  /** As many different bodies as the budget allows, then a new one twice. */
  function Overfull(budget: Key, a: Member): seq<Rec>
  {
    seq(budget + 2, i requires 0 <= i < budget + 2 => Rec(if i < budget then i else budget, a))
  }

  lemma {:induction false} OverfullFirsts(budget: Key, a: Member, n: nat)
    requires n <= budget + 1
    ensures |Firsts(Overfull(budget, a)[..n])| == n
    ensures forall i :: 0 <= i < n ==> Firsts(Overfull(budget, a)[..n])[i] == i
  {
    var rs := Overfull(budget, a);
    if n > 0 {
      OverfullFirsts(budget, a, n - 1);
      assert rs[..n] == rs[..n - 1] + [rs[n - 1]];
      OneMore(rs[..n - 1], rs[n - 1], n - 1);
    }
  }

  /** Whatever the budget, one body more than it allows is counted twice if it comes up twice. */
  lemma PastBudgetOvercounts(budget: Key, a: Member)
    ensures var rs := Overfull(budget, a);
            |rs| - Collapsed(rs, Tracked(rs, budget)) == budget + 2 && |Firsts(rs)| == budget + 1
  {
    hide Members, Firsts;
    var rs := Overfull(budget, a);
    var b, c := rs[..budget], rs[..budget + 1];
    OverfullFirsts(budget, a, budget);
    OverfullFirsts(budget, a, budget + 1);
    MembersIff(b, budget);
    assert c == b + [rs[budget]] && rs == c + [rs[budget + 1]];
    OneMore(b, rs[budget], budget);
    OneMore(c, rs[budget + 1], budget);
    assert Firsts(c)[budget] == budget;
    assert Rest(rs, budget) == [budget];
    assert Members(rs, budget) == [a, a];
    UniqueExceeds(rs, budget);
    assert [budget as Key][..0] == [];
  }
}
