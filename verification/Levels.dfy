/**
  The levels of the tree: every level partitions the key space along its sibling chain, and the
  fill of internal pages bounds the height (src/Tree.cpp:21-22, 610, 779-793, 818).
*/
module Levels {
  import opened Layout
  import opened InternalPages
  import opened BLink
  import opened Steps

  /** Descent from a valid position to the page of `level` that covers the key. */
  function DescendTo(s: State, a: GlobalAddress, k: Key, level: nat): (b: GlobalAddress)
    requires PagesOk(s) && Linked(s) && Parented(s) && At(s, a, k) && k < KEY_MAX && level <= s.pages[a].level
    ensures b in s.pages && s.pages[b].level == level && Covers(s.pages[b], k)
    decreases s.pages[a].level, KEY_MAX - s.pages[a].lowest
  {
    assert PageOk(s.pages[a]);
    if s.pages[a].highest <= k then
      TurnRight(s, a, k);
      DescendTo(s, s.pages[a].sibling, k, level)
    else if s.pages[a].level == level then a
    else
      RouteDown(s, a, k);
      DescendTo(s, Route(s.pages[a], k), k, level)
  }

  /** The pages met from `a` on by following sibling pointers. */
  function Chain(s: State, a: GlobalAddress): (c: seq<GlobalAddress>)
    requires PagesOk(s) && Linked(s) && a in s.pages
    ensures 0 < |c| && c[0] == a
    ensures forall i :: 0 <= i < |c| ==> c[i] in s.pages && s.pages[c[i]].level == s.pages[a].level
    ensures s.pages[c[|c| - 1]].highest == KEY_MAX
    decreases KEY_MAX - s.pages[a].lowest
  {
    assert PageOk(s.pages[a]) && LinkOk(s.pages, s.pages[a]);
    if s.pages[a].sibling == NULL then [a]
    else [a] + Chain(s, s.pages[a].sibling)
  }

  lemma ChainHead(s: State, a: GlobalAddress)
    requires PagesOk(s) && Linked(s) && a in s.pages
    ensures var p := s.pages[a];
            && p.lowest < p.highest <= KEY_MAX
            && (p.highest < KEY_MAX ==> p.sibling in s.pages && p.sibling != NULL && s.pages[p.sibling].lowest == p.highest)
            && (p.highest == KEY_MAX ==> p.sibling == NULL)
            && Chain(s, a) == if p.sibling == NULL then [a] else [a] + Chain(s, p.sibling)
  {
  }

  /** Along the chain each page ends where the next one starts. */
  lemma {:induction false} ChainContiguous(s: State, a: GlobalAddress)
    requires PagesOk(s) && Linked(s) && a in s.pages
    ensures forall i :: 0 <= i < |Chain(s, a)| - 1 ==>
              s.pages[Chain(s, a)[i]].highest == s.pages[Chain(s, a)[i + 1]].lowest
    decreases KEY_MAX - s.pages[a].lowest
  {
    hide PagesOk, Linked;
    ChainHead(s, a);
    if s.pages[a].sibling != NULL {
      ChainContiguous(s, s.pages[a].sibling);
    }
  }

  /** Every key from the start of the chain on is covered by a page of the chain. */
  lemma {:induction false} ChainCovers(s: State, a: GlobalAddress, k: Key)
    requires PagesOk(s) && Linked(s) && a in s.pages && s.pages[a].lowest <= k < KEY_MAX
    ensures exists i :: 0 <= i < |Chain(s, a)| && Covers(s.pages[Chain(s, a)[i]], k)
    decreases KEY_MAX - s.pages[a].lowest
  {
    hide PagesOk, Linked;
    ChainHead(s, a);
    if s.pages[a].highest <= k {
      var b := s.pages[a].sibling;
      ChainCovers(s, b, k);
      var i :| 0 <= i < |Chain(s, b)| && Covers(s.pages[Chain(s, b)[i]], k);
      assert Chain(s, a)[i + 1] == Chain(s, b)[i];
    } else {
      assert Covers(s.pages[Chain(s, a)[0]], k);
    }
  }

  /**
    Every level up to the root's is one sibling chain whose ranges partition the key space: it starts
    at the least key, is contiguous, ends at the greatest, and holds every page of the level.
  */
  lemma LevelIsPartition(s: State, level: nat)
    requires Inv(s) && level <= s.pages[s.root].level
    ensures exists head :: head in s.pages && PartitionedFrom(s, level, head)
  {
    var head := DescendTo(s, s.root, KEY_MIN, level);
    var c := Chain(s, head);
    assert PageOk(s.pages[head]);
    ChainContiguous(s, head);
    forall b | b in s.pages && s.pages[b].level == level ensures b in c {
      assert PageOk(s.pages[b]);
      var k := s.pages[b].lowest;
      ChainCovers(s, head, k);
      var i :| 0 <= i < |c| && Covers(s.pages[c[i]], k);
      CoverUnique(s, b, c[i], k);
    }
    assert PartitionedFrom(s, level, head);
  }

  ghost predicate PartitionedFrom(s: State, level: nat, head: GlobalAddress)
    requires PagesOk(s) && Linked(s) && head in s.pages
  {
    var c := Chain(s, head);
    && s.pages[head].lowest == KEY_MIN && s.pages[c[|c| - 1]].highest == KEY_MAX
    && (forall i :: 0 <= i < |c| - 1 ==> s.pages[c[i]].highest == s.pages[c[i + 1]].lowest)
    && (forall b :: b in s.pages && s.pages[b].level == level <==> b in c)
  }

  /**
    A separator on its way up has a page to go to, with room for it, exactly when its level exists. Whether
    the client that carries it gets there is another matter, see ClimberRuns.
  */
  lemma ParentIff(s: State, x: Separator)
    requires Inv(s) && x in s.pending
    ensures (exists a :: ParentFor(s, a, x)) <==> x.level <= s.pages[s.root].level
    ensures forall a :: ParentFor(s, a, x) ==> |s.pages[a].records| < INTERNAL_CARDINALITY
  {
    assert SepOk(s.pages, x) && PageOk(s.pages[x.child]);
    if x.level <= s.pages[s.root].level {
      var a := DescendTo(s, s.root, x.key, x.level);
      assert PageOk(s.pages[a]);
      assert ParentFor(s, a, x);
    }
    forall a | ParentFor(s, a, x) ensures |s.pages[a].records| < INTERNAL_CARDINALITY {
      assert PageOk(s.pages[a]) && !PageFull(s.pages[a]);
    }
  }

  // ---------------------------------------------------------------- counting pages

  /** A half-full internal page has INTERNAL_MIDDLE records and one child more. */
  const MIN_CHILDREN: nat := 31

  ghost function OnLevel(s: State, level: nat): set<GlobalAddress> {
    set a | a in s.pages && s.pages[a].level == level
  }

  ghost function Kids(p: Page, n: nat): set<GlobalAddress>
    requires p.InternalPage? && n <= |p.records| + 1
  {
    set i: nat | i < n :: Child(p, i)
  }

  lemma KidsDistinct(pages: map<GlobalAddress, Page>, p: Page, i: nat, j: nat)
    requires p.InternalPage? && ChildrenOk(pages, p) && RecordsOk(p.records, p.lowest, p.highest)
    requires i < j <= |p.records|
    ensures Child(p, i) != Child(p, j)
  {
    assert ChildOk(pages, p, i) && ChildOk(pages, p, j);
    assert SepKey(p, i) < SepKey(p, j);
  }

  lemma {:induction false} KidsCount(pages: map<GlobalAddress, Page>, p: Page, n: nat)
    requires p.InternalPage? && ChildrenOk(pages, p) && RecordsOk(p.records, p.lowest, p.highest)
    requires n <= |p.records| + 1
    ensures |Kids(p, n)| == n
  {
    if n == 0 {
      assert Kids(p, n) == {};
    } else {
      KidsCount(pages, p, n - 1);
      forall i: nat | i < n - 1 ensures Child(p, i) != Child(p, n - 1) {
        KidsDistinct(pages, p, i, n - 1);
      }
      assert Kids(p, n) == Kids(p, n - 1) + {Child(p, n - 1)};
    }
  }

  ghost function AllKids(s: State, parents: set<GlobalAddress>): set<GlobalAddress>
    requires forall a :: a in parents ==> a in s.pages && s.pages[a].InternalPage?
  {
    set a, i: nat | a in parents && i <= |s.pages[a].records| :: Child(s.pages[a], i)
  }

  lemma DisjointKids(s: State, a: GlobalAddress, b: GlobalAddress, i: nat, j: nat)
    requires PagesOk(s) && Apart(s) && Parented(s)
    requires a in s.pages && b in s.pages && a != b && s.pages[a].level == s.pages[b].level
    requires s.pages[a].InternalPage? && s.pages[b].InternalPage?
    requires i <= |s.pages[a].records| && j <= |s.pages[b].records|
    ensures Child(s.pages[a], i) != Child(s.pages[b], j)
  {
    var p, q := s.pages[a], s.pages[b];
    assert PageOk(p) && PageOk(q) && Disjoint(p, q);
    assert ChildrenOk(s.pages, p) && ChildOk(s.pages, p, i);
    assert ChildrenOk(s.pages, q) && ChildOk(s.pages, q, j);
    assert Covers(p, SepKey(p, i)) && Covers(q, SepKey(q, j));
  }

  lemma TimesNext(f: nat, n: nat)
    ensures f * (n + 1) == f * n + f
  {
  }

  /** Pages of one level, each with at least `fill` children, have that many times as many children. */
  lemma {:induction false} KidsOfMany(s: State, parents: set<GlobalAddress>, level: nat, fill: nat)
    requires PagesOk(s) && Apart(s) && Parented(s)
    requires forall a :: a in parents ==> a in s.pages && s.pages[a].level == level && s.pages[a].InternalPage?
    requires forall a :: a in parents ==> fill <= |s.pages[a].records| + 1
    ensures fill * |parents| <= |AllKids(s, parents)|
    decreases |parents|
  {
    if parents == {} {
      assert AllKids(s, parents) == {};
    } else {
      var a :| a in parents;
      KidsOfMany(s, parents - {a}, level, fill);
      KidsAdd(s, parents, a, level);
      TimesNext(fill, |parents - {a}|);
    }
  }

  lemma KidsAdd(s: State, parents: set<GlobalAddress>, a: GlobalAddress, level: nat)
    requires PagesOk(s) && Apart(s) && Parented(s) && a in parents
    requires forall b :: b in parents ==> b in s.pages && s.pages[b].level == level && s.pages[b].InternalPage?
    ensures |parents| == |parents - {a}| + 1
    ensures |AllKids(s, parents)| == |AllKids(s, parents - {a})| + |s.pages[a].records| + 1
  {
    KidsOfOne(s, a);
    KidsUnion(s, parents, a);
    KidsDisjoint(s, parents, a, level);
  }

  lemma KidsOfOne(s: State, a: GlobalAddress)
    requires PagesOk(s) && Parented(s) && a in s.pages && s.pages[a].InternalPage?
    ensures |Kids(s.pages[a], |s.pages[a].records| + 1)| == |s.pages[a].records| + 1
  {
    assert PageOk(s.pages[a]) && ChildrenOk(s.pages, s.pages[a]);
    KidsCount(s.pages, s.pages[a], |s.pages[a].records| + 1);
  }

  lemma KidsUnion(s: State, parents: set<GlobalAddress>, a: GlobalAddress)
    requires a in parents && forall b :: b in parents ==> b in s.pages && s.pages[b].InternalPage?
    ensures AllKids(s, parents) == AllKids(s, parents - {a}) + Kids(s.pages[a], |s.pages[a].records| + 1)
  {
  }

  lemma KidsDisjoint(s: State, parents: set<GlobalAddress>, a: GlobalAddress, level: nat)
    requires PagesOk(s) && Apart(s) && Parented(s) && a in parents
    requires forall b :: b in parents ==> b in s.pages && s.pages[b].level == level && s.pages[b].InternalPage?
    ensures AllKids(s, parents - {a}) !! Kids(s.pages[a], |s.pages[a].records| + 1)
  {
    forall b, i: nat, j: nat | b in parents - {a} && i <= |s.pages[a].records| && j <= |s.pages[b].records|
      ensures Child(s.pages[a], i) != Child(s.pages[b], j)
    {
      DisjointKids(s, a, b, i, j);
    }
  }

  lemma KidsOnLevel(s: State, parents: set<GlobalAddress>, level: nat)
    requires PagesOk(s) && Parented(s)
    requires forall a :: a in parents ==> a in s.pages && s.pages[a].level == level + 1 && s.pages[a].InternalPage?
    ensures AllKids(s, parents) <= OnLevel(s, level)
  {
    forall c | c in AllKids(s, parents) ensures c in OnLevel(s, level) {
      var b, j: nat :| b in parents && j <= |s.pages[b].records| && c == Child(s.pages[b], j);
      assert ChildrenOk(s.pages, s.pages[b]) && ChildOk(s.pages, s.pages[b], j);
    }
  }

  lemma SubsetSize<T>(a: set<T>, b: set<T>)
    requires a <= b
    ensures |a| <= |b|
  {
    if a != {} {
      var x :| x in a;
      SubsetSize(a - {x}, b - {x});
    }
  }

  function Power(n: nat): nat {
    if n == 0 then 1 else MIN_CHILDREN * Power(n - 1)
  }

  lemma LevelGrows(s: State, level: nat)
    requires PagesOk(s) && Apart(s) && Parented(s) && Filled(s) && Rooted(s) && level + 1 < s.pages[s.root].level
    ensures MIN_CHILDREN * |OnLevel(s, level + 1)| <= |OnLevel(s, level)|
  {
    var parents := OnLevel(s, level + 1);
    forall a | a in parents ensures s.pages[a].InternalPage? && MIN_CHILDREN <= |s.pages[a].records| + 1 {
      assert PageOk(s.pages[a]) && HalfFull(s.pages[a]);
    }
    KidsOfMany(s, parents, level + 1, MIN_CHILDREN);
    KidsOnLevel(s, parents, level);
    SubsetSize(AllKids(s, parents), OnLevel(s, level));
  }

  lemma TopGrows(s: State)
    requires PagesOk(s) && Apart(s) && Parented(s) && Rooted(s) && 1 <= s.pages[s.root].level
    ensures 2 <= |OnLevel(s, s.pages[s.root].level - 1)|
  {
    var p := s.pages[s.root];
    assert PageOk(p);
    KidsOfMany(s, {s.root}, p.level, 2);
    KidsOnLevel(s, {s.root}, p.level - 1);
    SubsetSize(AllKids(s, {s.root}), OnLevel(s, p.level - 1));
  }

  /** Sizes that shrink by a factor of at least 31 a level, down to at least 2 just under the root. */
  lemma {:induction false} SizesGrow(sizes: seq<nat>, level: nat)
    requires level < |sizes| && 2 <= sizes[|sizes| - 1]
    requires forall l :: 0 <= l < |sizes| - 1 ==> MIN_CHILDREN * sizes[l + 1] <= sizes[l]
    ensures 2 * Power(|sizes| - 1 - level) <= sizes[level]
    decreases |sizes| - level
  {
    if level + 1 < |sizes| {
      SizesGrow(sizes, level + 1);
    }
  }

  /** A tree whose root is at level L >= 1 has at least 2 * 31^(L-1-l) pages on level l. */
  lemma LevelSize(s: State, level: nat)
    requires PagesOk(s) && Apart(s) && Parented(s) && Filled(s) && Rooted(s) && level < s.pages[s.root].level
    ensures 2 * Power(s.pages[s.root].level - 1 - level) <= |OnLevel(s, level)|
  {
    var sizes := seq(s.pages[s.root].level, l requires 0 <= l => |OnLevel(s, l)|);
    TopGrows(s);
    forall l | 0 <= l < |sizes| - 1 ensures MIN_CHILDREN * sizes[l + 1] <= sizes[l] {
      LevelGrows(s, l);
    }
    SizesGrow(sizes, level);
  }

  /** All pages there is memory for: 8 machines of 8 GB, 1 KB a page. */
  const MAX_PAGES: nat := 8 * 8 * 1024 * 1024

  lemma {:induction false} PowerGrows(m: nat, n: nat)
    requires m <= n
    ensures 1 <= Power(m) <= Power(n)
  {
    if m < n {
      PowerGrows(m, n - 1);
    } else if 0 < m {
      PowerGrows(m - 1, n - 1);
    }
  }

  lemma PowerSix()
    ensures MAX_PAGES < 2 * Power(6)
  {
  }

  /**
    Height bound: as long as the pages fit in memory, the root's level and so every index into the
    path stack stays below kMaxLevelOfTree, in every interleaving.
  */
  lemma HeightBound(s: State)
    requires Inv(s) && |s.pages| <= MAX_PAGES
    ensures s.pages[s.root].level < MAX_LEVEL_OF_TREE
    ensures forall a :: a in s.pages ==> s.pages[a].level < MAX_LEVEL_OF_TREE
  {
    if 7 <= s.pages[s.root].level {
      TooManyLeaves(s);
    }
  }

  lemma TooManyLeaves(s: State)
    requires PagesOk(s) && Apart(s) && Parented(s) && Filled(s) && Rooted(s) && MAX_LEVEL_OF_TREE <= s.pages[s.root].level
    ensures MAX_PAGES < |s.pages|
  {
    LevelSize(s, 0);
    SubsetSize(OnLevel(s, 0), s.pages.Keys);
    PowerGrows(6, s.pages[s.root].level - 1);
    PowerSix();
  }
}
