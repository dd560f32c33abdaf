/**
  The B-link tree as a step system over page images. Every step is one locked page update as it is
  published: a slot stored or cleared, a leaf or internal split, a separator inserted in its parent,
  the root word swapped (src/Tree.cpp:126-149, 699-1057). Any number of clients interleave.
*/
module BLink {
  import opened Layout
  import opened LeafPages
  import opened InternalPages

  /**
    A split has published `child`, whose `lowest` is `key`, to the right of `left`, and its
    separator is still to be inserted at `level`.
  */
  datatype Separator = Separator(key: Key, child: GlobalAddress, level: nat, left: GlobalAddress)

  datatype State = State(pages: map<GlobalAddress, Page>, root: GlobalAddress, pending: set<Separator>)

  const EMPTY_LEAF := LeafPage(0, KEY_MIN, KEY_MAX, NULL, Empties(LEAF_CARDINALITY))

  // ---------------------------------------------------------------- invariant

  ghost predicate PageOk(p: Page) {
    && p.lowest < p.highest <= KEY_MAX
    && match p
       case LeafPage(level, lo, hi, _, es) => level == 0 && LeafOk(es, lo, hi)
       case InternalPage(level, lo, hi, _, _, rs) => 1 <= level && 1 <= |rs| <= INTERNAL_CARDINALITY && RecordsOk(rs, lo, hi)
  }

  ghost predicate PagesOk(s: State) {
    NULL !in s.pages && forall a :: a in s.pages ==> PageOk(s.pages[a])
  }

  ghost predicate Rooted(s: State) {
    && s.root in s.pages
    && s.pages[s.root].lowest == KEY_MIN
    && forall a :: a in s.pages ==> s.pages[a].level <= s.pages[s.root].level
  }

  /** The sibling pointer leads to the page of the same level that starts where this one ends. */
  ghost predicate LinkOk(pages: map<GlobalAddress, Page>, p: Page) {
    if p.highest == KEY_MAX then p.sibling == NULL
    else p.sibling in pages && pages[p.sibling].level == p.level && pages[p.sibling].lowest == p.highest
  }

  ghost predicate Linked(s: State) {
    forall a :: a in s.pages ==> LinkOk(s.pages, s.pages[a])
  }

  predicate Disjoint(p: Page, q: Page) {
    p.highest <= q.lowest || q.highest <= p.lowest
  }

  ghost predicate Apart(s: State) {
    forall a, b :: a in s.pages && b in s.pages && a != b && s.pages[a].level == s.pages[b].level ==>
                     Disjoint(s.pages[a], s.pages[b])
  }

  /** Child `i` is one level down and starts exactly at its separator. */
  ghost predicate ChildOk(pages: map<GlobalAddress, Page>, p: Page, i: nat)
    requires p.InternalPage? && i <= |p.records|
  {
    var c := Child(p, i);
    c in pages && pages[c].level == p.level - 1 && pages[c].lowest == SepKey(p, i)
  }

  ghost predicate ChildrenOk(pages: map<GlobalAddress, Page>, p: Page) {
    p.InternalPage? ==> forall i :: 0 <= i <= |p.records| ==> ChildOk(pages, p, i)
  }

  ghost predicate Parented(s: State) {
    forall a :: a in s.pages ==> ChildrenOk(s.pages, s.pages[a])
  }

  ghost predicate HasSep(p: Page, k: Key) {
    p.InternalPage? && exists i :: 0 <= i <= |p.records| && SepKey(p, i) == k
  }

  ghost predicate Refers(p: Page, a: GlobalAddress) {
    p.InternalPage? && exists i :: 0 <= i <= |p.records| && Child(p, i) == a
  }

  predicate HalfFull(p: Page) {
    p.InternalPage? ==> INTERNAL_MIDDLE <= |p.records|
  }

  ghost predicate SepOk(pages: map<GlobalAddress, Page>, x: Separator) {
    && x.child in pages && x.left in pages
    && x.level == pages[x.child].level + 1 == pages[x.left].level + 1
    && KEY_MIN < x.key == pages[x.child].lowest
    && HalfFull(pages[x.left])
  }

  ghost predicate SepNew(pages: map<GlobalAddress, Page>, x: Separator) {
    forall a :: a in pages && pages[a].level == x.level ==> !HasSep(pages[a], x.key)
  }

  /** A pending separator appears nowhere on its level, and no other one equals it. */
  ghost predicate Pending(s: State) {
    && (forall x :: x in s.pending ==> SepOk(s.pages, x))
    && (forall x :: x in s.pending ==> SepNew(s.pages, x))
    && (forall x, y :: x in s.pending && y in s.pending && x.level == y.level && x.key == y.key ==> x == y)
  }

  ghost predicate PendingChild(s: State, a: GlobalAddress) {
    exists x :: x in s.pending && x.child == a
  }

  ghost predicate Referred(s: State, a: GlobalAddress) {
    exists b :: b in s.pages && Refers(s.pages[b], a)
  }

  /** Every page is the root, has a parent, or is waiting for its separator to reach one. */
  ghost predicate Reached(s: State) {
    forall a :: a in s.pages ==> a == s.root || PendingChild(s, a) || Referred(s, a)
  }

  ghost predicate Filled(s: State) {
    forall a :: a in s.pages && a != s.root ==> HalfFull(s.pages[a])
  }

  ghost predicate Shape(s: State) {
    PagesOk(s) && Rooted(s) && Linked(s) && Apart(s) && Parented(s) && Pending(s) && Reached(s) && Filled(s)
  }

  predicate PageFull(p: Page) {
    match p
    case LeafPage(_, _, _, _, es) => Full(es)
    case InternalPage(_, _, _, _, _, rs) => |rs| == INTERNAL_CARDINALITY
  }

  /** No published page is full, so the next store always finds room. */
  ghost predicate Room(s: State) {
    forall a :: a in s.pages ==> !PageFull(s.pages[a])
  }

  ghost predicate Inv(s: State) {
    Shape(s) && Room(s)
  }

  // ---------------------------------------------------------------- elementary updates

  function StoreIn(s: State, a: GlobalAddress, k: Key, v: Value): State
    requires a in s.pages && s.pages[a].LeafPage?
  {
    s.(pages := s.pages[a := s.pages[a].(entries := Put(s.pages[a].entries, k, v))])
  }

  function ClearIn(s: State, a: GlobalAddress, k: Key): State
    requires a in s.pages && s.pages[a].LeafPage?
  {
    s.(pages := s.pages[a := s.pages[a].(entries := Delete(s.pages[a].entries, k))])
  }

  function InsertIn(s: State, a: GlobalAddress, x: Separator): State
    requires a in s.pages && s.pages[a].InternalPage?
  {
    State(s.pages[a := s.pages[a].(records := InsertRecord(s.pages[a].records, x.key, x.child))],
          s.root, s.pending - {x})
  }

  ghost predicate Splittable(p: Page) {
    PageOk(p) && PageFull(p)
  }

  function SplitKey(p: Page): Key
    requires PageFull(p) && (p.LeafPage? ==> |p.entries| == LEAF_CARDINALITY)
  {
    match p
    case LeafPage(_, _, _, _, es) => LeafSplitKey(es)
    case InternalPage(_, _, _, _, _, rs) => rs[INTERNAL_MIDDLE].key
  }

  /** What stays on the page; `newAddr` becomes its sibling. */
  function LeftPage(p: Page, newAddr: GlobalAddress): Page
    requires PageFull(p) && (p.LeafPage? ==> |p.entries| == LEAF_CARDINALITY)
  {
    match p
    case LeafPage(level, lo, _, _, es) => LeafPage(level, lo, SplitKey(p), newAddr, LeftHalf(es))
    case InternalPage(level, lo, _, _, lm, rs) => InternalPage(level, lo, SplitKey(p), newAddr, lm, rs[..INTERNAL_MIDDLE])
  }

  /** The new sibling; the middle record of an internal page gives its leftmost child. */
  function RightPage(p: Page): Page
    requires PageFull(p) && (p.LeafPage? ==> |p.entries| == LEAF_CARDINALITY)
  {
    match p
    case LeafPage(level, _, hi, sib, es) => LeafPage(level, SplitKey(p), hi, sib, RightHalf(es))
    case InternalPage(level, _, hi, sib, _, rs) =>
      InternalPage(level, SplitKey(p), hi, sib, rs[INTERNAL_MIDDLE].ptr, rs[INTERNAL_MIDDLE + 1..])
  }

  function SplitSeparator(s: State, a: GlobalAddress, newAddr: GlobalAddress): Separator
    requires a in s.pages && PageFull(s.pages[a]) && (s.pages[a].LeafPage? ==> |s.pages[a].entries| == LEAF_CARDINALITY)
  {
    Separator(SplitKey(s.pages[a]), newAddr, s.pages[a].level + 1, a)
  }

  function SplitAt(s: State, a: GlobalAddress, newAddr: GlobalAddress): State
    requires a in s.pages && PageFull(s.pages[a]) && (s.pages[a].LeafPage? ==> |s.pages[a].entries| == LEAF_CARDINALITY)
  {
    State(s.pages[a := LeftPage(s.pages[a], newAddr)][newAddr := RightPage(s.pages[a])],
          s.root, s.pending + {SplitSeparator(s, a, newAddr)})
  }

  function RootPage(x: Separator): Page {
    InternalPage(x.level, KEY_MIN, KEY_MAX, NULL, x.left, [InternalEntry(x.key, x.child)])
  }

  function SwapRoot(s: State, x: Separator, newAddr: GlobalAddress): State {
    State(s.pages[newAddr := RootPage(x)], newAddr, s.pending - {x})
  }

  // ---------------------------------------------------------------- what no update undoes

  /** Pages are never removed, keep their level and `lowest`, and their `highest` only shrinks. */
  ghost predicate Stable(s: State, t: State) {
    forall a :: a in s.pages ==>
      && a in t.pages
      && t.pages[a].level == s.pages[a].level
      && t.pages[a].lowest == s.pages[a].lowest
      && t.pages[a].highest <= s.pages[a].highest
  }

  lemma StableChildren(s: State, t: State, p: Page)
    requires Stable(s, t) && ChildrenOk(s.pages, p)
    ensures ChildrenOk(t.pages, p)
  {
    if p.InternalPage? {
      forall i | 0 <= i <= |p.records| ensures ChildOk(t.pages, p, i) {
        assert ChildOk(s.pages, p, i);
      }
    }
  }

  // ---------------------------------------------------------------- a page rewritten in place

  /** Page `a` is rewritten with the same header; nothing else but the pending set may change. */
  ghost predicate Rewrites(s: State, t: State, a: GlobalAddress, p: Page) {
    && a in s.pages
    && t.pages == s.pages[a := p] && t.root == s.root
    && p.level == s.pages[a].level && p.lowest == s.pages[a].lowest
    && p.highest == s.pages[a].highest && p.sibling == s.pages[a].sibling
  }

  lemma RewritePages(s: State, t: State, a: GlobalAddress, p: Page)
    requires PagesOk(s) && Rooted(s) && Rewrites(s, t, a, p) && PageOk(p)
    ensures PagesOk(t) && Rooted(t) && Stable(s, t)
  {
  }

  lemma RewriteLinked(s: State, t: State, a: GlobalAddress, p: Page)
    requires Linked(s) && Rewrites(s, t, a, p)
    ensures Linked(t)
  {
  }

  lemma RewriteApart(s: State, t: State, a: GlobalAddress, p: Page)
    requires Apart(s) && Rewrites(s, t, a, p)
    ensures Apart(t)
  {
  }

  lemma RewriteParented(s: State, t: State, a: GlobalAddress, p: Page)
    requires Parented(s) && Rewrites(s, t, a, p) && Stable(s, t) && ChildrenOk(t.pages, p)
    ensures Parented(t)
  {
    forall b | b in t.pages ensures ChildrenOk(t.pages, t.pages[b]) {
      if b != a {
        StableChildren(s, t, s.pages[b]);
      }
    }
  }

  lemma RewriteLeafPending(s: State, t: State, a: GlobalAddress, p: Page)
    requires Pending(s) && Rewrites(s, t, a, p) && p.LeafPage? && s.pages[a].LeafPage? && t.pending == s.pending
    ensures Pending(t)
  {
  }

  lemma RewriteLeafReached(s: State, t: State, a: GlobalAddress, p: Page)
    requires Reached(s) && Rewrites(s, t, a, p) && p.LeafPage? && s.pages[a].LeafPage? && t.pending == s.pending
    ensures Reached(t)
  {
    forall b | b in t.pages && b != t.root && !PendingChild(t, b) ensures Referred(t, b) {
      assert PendingChild(s, b) == PendingChild(t, b);
      var c :| c in s.pages && Refers(s.pages[c], b);
      assert Refers(t.pages[c], b);
    }
  }

  /** A leaf rewritten in place keeps the whole shape. */
  lemma RewriteLeaf(s: State, t: State, a: GlobalAddress, p: Page)
    requires Shape(s) && Rewrites(s, t, a, p) && PageOk(p) && p.LeafPage? && s.pages[a].LeafPage? && t.pending == s.pending
    ensures Shape(t) && Stable(s, t)
  {
    RewritePages(s, t, a, p);
    RewriteLinked(s, t, a, p);
    RewriteApart(s, t, a, p);
    RewriteParented(s, t, a, p);
    RewriteLeafPending(s, t, a, p);
    RewriteLeafReached(s, t, a, p);
    assert Filled(t);
  }

  // ---------------------------------------------------------------- a separator inserted

  ghost predicate CanInsert(s: State, a: GlobalAddress, x: Separator) {
    && x in s.pending && a in s.pages && s.pages[a].InternalPage?
    && s.pages[a].level == x.level && Covers(s.pages[a], x.key)
    && |s.pages[a].records| < INTERNAL_CARDINALITY
  }

  function WithRecord(p: Page, x: Separator): Page
    requires p.InternalPage?
  {
    p.(records := InsertRecord(p.records, x.key, x.child))
  }

  /** Child `j` of `q`, with its key, is one of the children of `p`. */
  ghost predicate SameChild(q: Page, j: nat, p: Page)
    requires p.InternalPage? && q.InternalPage? && j <= |q.records|
  {
    exists i :: 0 <= i <= |p.records| && Child(q, j) == Child(p, i) && SepKey(q, j) == SepKey(p, i)
  }

  lemma NoSepKey(p: Page, k: Key)
    requires p.InternalPage? && !HasSep(p, k)
    ensures p.lowest != k && forall i :: 0 <= i < |p.records| ==> p.records[i].key != k
  {
    assert SepKey(p, 0) == p.lowest;
    forall i | 0 <= i < |p.records| ensures p.records[i].key != k {
      assert SepKey(p, i + 1) == p.records[i].key;
    }
  }

  /** A page without separator `x.key` gains exactly that child, between the ones it had. */
  lemma WithRecordSpec(p: Page, x: Separator)
    requires p.InternalPage? && RecordsOk(p.records, p.lowest, p.highest)
    requires Covers(p, x.key) && !HasSep(p, x.key)
    ensures var q := WithRecord(p, x);
            && |q.records| == |p.records| + 1 && RecordsOk(q.records, q.lowest, q.highest)
            && (forall i :: 0 <= i <= |p.records| ==> SameChild(p, i, q))
            && (forall j :: 0 <= j <= |q.records| ==> (Child(q, j) == x.child && SepKey(q, j) == x.key) || SameChild(q, j, p))
            && Refers(q, x.child)
  {
    NoSepKey(p, x.key);
    InsertRecordOk(p.records, x.key, x.child, p.lowest, p.highest);
    InsertRecordAt(p.records, x.key, x.child);
    ShiftedChildren(p, WithRecord(p, x), x, RouteFrom(p.records, x.key, 0));
  }

  lemma ShiftedChildren(p: Page, q: Page, x: Separator, m: nat)
    requires p.InternalPage? && q.InternalPage? && m <= |p.records| && |q.records| == |p.records| + 1
    requires q.leftmost == p.leftmost && q.lowest == p.lowest && q.records[m] == InternalEntry(x.key, x.child)
    requires forall j :: 0 <= j < m ==> q.records[j] == p.records[j]
    requires forall j :: m < j < |q.records| ==> q.records[j] == p.records[j - 1]
    ensures forall i :: 0 <= i <= |p.records| ==> SameChild(p, i, q)
    ensures forall j :: 0 <= j <= |q.records| ==> (Child(q, j) == x.child && SepKey(q, j) == x.key) || SameChild(q, j, p)
    ensures Refers(q, x.child)
  {
    assert Child(q, m + 1) == x.child;
    forall i | 0 <= i <= |p.records| ensures SameChild(p, i, q) {
      var j := if i <= m then i else i + 1;
      assert Child(q, j) == Child(p, i) && SepKey(q, j) == SepKey(p, i);
    }
    forall j | 0 <= j <= |q.records| && j != m + 1 ensures SameChild(q, j, p) {
      var i := if j <= m then j else j - 1;
      assert Child(q, j) == Child(p, i) && SepKey(q, j) == SepKey(p, i);
    }
  }

  lemma InsertParented(s: State, a: GlobalAddress, x: Separator)
    requires PagesOk(s) && Parented(s) && Pending(s) && CanInsert(s, a, x) && Stable(s, InsertIn(s, a, x))
    ensures Parented(InsertIn(s, a, x))
  {
    var t, p := InsertIn(s, a, x), s.pages[a];
    var q := WithRecord(p, x);
    WithRecordSpec(p, x);
    assert SepOk(s.pages, x);
    forall j | 0 <= j <= |q.records| ensures ChildOk(t.pages, q, j) {
      if !(Child(q, j) == x.child && SepKey(q, j) == x.key) {
        assert SameChild(q, j, p);
        var i :| 0 <= i <= |p.records| && Child(q, j) == Child(p, i) && SepKey(q, j) == SepKey(p, i);
        assert ChildOk(s.pages, p, i);
      }
    }
    RewriteParented(s, t, a, q);
  }

  lemma InsertPending(s: State, a: GlobalAddress, x: Separator)
    requires PagesOk(s) && Pending(s) && CanInsert(s, a, x)
    ensures Pending(InsertIn(s, a, x))
  {
    var t, p := InsertIn(s, a, x), s.pages[a];
    var q := WithRecord(p, x);
    WithRecordSpec(p, x);
    forall y | y in t.pending ensures SepOk(t.pages, y) {
      assert SepOk(s.pages, y);
    }
    forall y | y in t.pending ensures SepNew(t.pages, y) {
      assert SepNew(s.pages, y) && SepNew(s.pages, x);
      if y.level == p.level {
        InsertHasSep(p, x, y.key);
      }
    }
  }

  lemma InsertHasSep(p: Page, x: Separator, k: Key)
    requires p.InternalPage? && RecordsOk(p.records, p.lowest, p.highest)
    requires Covers(p, x.key) && !HasSep(p, x.key) && !HasSep(p, k) && k != x.key
    ensures !HasSep(WithRecord(p, x), k)
  {
    var q := WithRecord(p, x);
    WithRecordSpec(p, x);
    forall j | 0 <= j <= |q.records| ensures SepKey(q, j) != k {
      if SameChild(q, j, p) {
        var i :| 0 <= i <= |p.records| && Child(q, j) == Child(p, i) && SepKey(q, j) == SepKey(p, i);
        assert SepKey(p, i) != k;
      }
    }
  }

  lemma InsertReached(s: State, a: GlobalAddress, x: Separator)
    requires PagesOk(s) && Pending(s) && Reached(s) && CanInsert(s, a, x)
    ensures Reached(InsertIn(s, a, x))
  {
    var t, p := InsertIn(s, a, x), s.pages[a];
    var q := WithRecord(p, x);
    WithRecordSpec(p, x);
    forall b | b in t.pages && b != t.root && !PendingChild(t, b) ensures Referred(t, b) {
      if PendingChild(s, b) {
        var y :| y in s.pending && y.child == b;
        assert y == x by { assert y != x ==> y in t.pending; }
        assert Refers(t.pages[a], b);
      } else {
        var c :| c in s.pages && Refers(s.pages[c], b);
        if c == a {
          var i :| 0 <= i <= |p.records| && Child(p, i) == b;
          assert SameChild(p, i, q);
          var j :| 0 <= j <= |q.records| && Child(p, i) == Child(q, j) && SepKey(p, i) == SepKey(q, j);
        }
        assert Refers(t.pages[c], b);
      }
    }
  }

  lemma InsertShape(s: State, a: GlobalAddress, x: Separator)
    requires Shape(s) && CanInsert(s, a, x)
    ensures Shape(InsertIn(s, a, x)) && Stable(s, InsertIn(s, a, x))
    ensures |InsertIn(s, a, x).pages[a].records| == |s.pages[a].records| + 1
  {
    var t, p := InsertIn(s, a, x), s.pages[a];
    var q := WithRecord(p, x);
    WithRecordSpec(p, x);
    RewritePages(s, t, a, q);
    RewriteLinked(s, t, a, q);
    RewriteApart(s, t, a, q);
    InsertParented(s, a, x);
    InsertPending(s, a, x);
    InsertReached(s, a, x);
    InsertFilled(s, a, x);
  }

  lemma InsertFilled(s: State, a: GlobalAddress, x: Separator)
    requires PagesOk(s) && Pending(s) && Filled(s) && CanInsert(s, a, x)
    ensures Filled(InsertIn(s, a, x))
    ensures |InsertIn(s, a, x).pages[a].records| == |s.pages[a].records| + 1
  {
    WithRecordSpec(s.pages[a], x);
  }

  // ---------------------------------------------------------------- a page split

  ghost predicate CanSplit(s: State, a: GlobalAddress, newAddr: GlobalAddress) {
    a in s.pages && Splittable(s.pages[a]) && newAddr !in s.pages && newAddr != NULL
  }

  /** The halves of a full page meet at a key strictly inside its range and both have room. */
  lemma SplitPageSpec(p: Page, newAddr: GlobalAddress)
    requires Splittable(p)
    ensures p.lowest < SplitKey(p) < p.highest
    ensures PageOk(LeftPage(p, newAddr)) && !PageFull(LeftPage(p, newAddr)) && HalfFull(LeftPage(p, newAddr))
    ensures PageOk(RightPage(p)) && !PageFull(RightPage(p)) && HalfFull(RightPage(p))
  {
    match p
    case LeafPage(_, lo, hi, _, es) => LeafSplitSpec(es, lo, hi);
    case InternalPage(_, _, _, _, _, _) =>
  }

  /** The children of a full internal page are those of its halves, in order and with their keys. */
  lemma SplitChildren(p: Page, newAddr: GlobalAddress)
    requires Splittable(p) && p.InternalPage?
    ensures var l, r := LeftPage(p, newAddr), RightPage(p);
            && |l.records| + |r.records| + 1 == |p.records|
            && (forall i :: 0 <= i <= |l.records| ==> Child(l, i) == Child(p, i) && SepKey(l, i) == SepKey(p, i))
            && (forall i :: 0 <= i <= |r.records| ==>
                Child(r, i) == Child(p, |l.records| + 1 + i) && SepKey(r, i) == SepKey(p, |l.records| + 1 + i))
  {
  }

  lemma SplitStable(s: State, a: GlobalAddress, newAddr: GlobalAddress)
    requires CanSplit(s, a, newAddr)
    ensures Stable(s, SplitAt(s, a, newAddr))
  {
    SplitPageSpec(s.pages[a], newAddr);
  }

  lemma SplitPages(s: State, a: GlobalAddress, newAddr: GlobalAddress)
    requires PagesOk(s) && Rooted(s) && CanSplit(s, a, newAddr)
    ensures PagesOk(SplitAt(s, a, newAddr)) && Rooted(SplitAt(s, a, newAddr))
  {
    SplitPageSpec(s.pages[a], newAddr);
  }

  lemma SplitLinked(s: State, a: GlobalAddress, newAddr: GlobalAddress)
    requires Linked(s) && CanSplit(s, a, newAddr)
    ensures Linked(SplitAt(s, a, newAddr))
  {
    var t := SplitAt(s, a, newAddr);
    SplitPageSpec(s.pages[a], newAddr);
    forall b | b in t.pages ensures LinkOk(t.pages, t.pages[b]) {
      assert LinkOk(s.pages, s.pages[if b == newAddr then a else b]);
    }
  }

  lemma SplitApart(s: State, a: GlobalAddress, newAddr: GlobalAddress)
    requires Apart(s) && CanSplit(s, a, newAddr)
    ensures Apart(SplitAt(s, a, newAddr))
  {
    var t := SplitAt(s, a, newAddr);
    SplitPageSpec(s.pages[a], newAddr);
    forall b, c | b in t.pages && c in t.pages && b != c && t.pages[b].level == t.pages[c].level
      ensures Disjoint(t.pages[b], t.pages[c])
    {
      var b', c' := if b == newAddr then a else b, if c == newAddr then a else c;
      assert b' != c' ==> Disjoint(s.pages[b'], s.pages[c']);
    }
  }

  lemma SplitParented(s: State, a: GlobalAddress, newAddr: GlobalAddress)
    requires Parented(s) && CanSplit(s, a, newAddr)
    ensures Parented(SplitAt(s, a, newAddr))
  {
    var t, p := SplitAt(s, a, newAddr), s.pages[a];
    SplitStable(s, a, newAddr);
    StableChildren(s, t, p);
    if p.InternalPage? {
      SplitChildren(p, newAddr);
      var l, r := LeftPage(p, newAddr), RightPage(p);
      forall i | 0 <= i <= |l.records| ensures ChildOk(t.pages, l, i) {
        assert ChildOk(t.pages, p, i);
      }
      forall i | 0 <= i <= |r.records| ensures ChildOk(t.pages, r, i) {
        assert ChildOk(t.pages, p, |l.records| + 1 + i);
      }
    }
    forall b | b in t.pages ensures ChildrenOk(t.pages, t.pages[b]) {
      if b != a && b != newAddr {
        StableChildren(s, t, s.pages[b]);
      }
    }
  }

  /** Inside the range of a page no other page of its level starts. */
  lemma NoStartInside(s: State, a: GlobalAddress, c: GlobalAddress, k: Key)
    requires Apart(s) && PagesOk(s) && a in s.pages && c in s.pages && s.pages[a].level == s.pages[c].level
    requires s.pages[a].lowest < k < s.pages[a].highest
    ensures s.pages[c].lowest != k
  {
  }

  /** The key a page splits at is new: no page above has it, no pending separator equals it. */
  lemma SplitKeyNew(s: State, a: GlobalAddress, k: Key)
    requires PagesOk(s) && Apart(s) && Parented(s) && Pending(s)
    requires a in s.pages && s.pages[a].lowest < k < s.pages[a].highest
    ensures forall x: Separator :: x.key == k && x.level == s.pages[a].level + 1 ==> SepNew(s.pages, x)
    ensures forall x :: x in s.pending && x.level == s.pages[a].level + 1 ==> x.key != k
  {
    forall b | b in s.pages && s.pages[b].level == s.pages[a].level + 1 && s.pages[b].InternalPage?
      ensures !HasSep(s.pages[b], k)
    {
      var q := s.pages[b];
      forall i | 0 <= i <= |q.records| ensures SepKey(q, i) != k {
        assert ChildrenOk(s.pages, q) && ChildOk(s.pages, q, i);
        NoStartInside(s, a, Child(q, i), k);
      }
    }
    forall x | x in s.pending && x.level == s.pages[a].level + 1 ensures x.key != k {
      assert SepOk(s.pages, x);
      NoStartInside(s, a, x.child, k);
    }
  }

  lemma SplitSepOk(s: State, a: GlobalAddress, newAddr: GlobalAddress)
    requires Pending(s) && CanSplit(s, a, newAddr)
    ensures forall x :: x in SplitAt(s, a, newAddr).pending ==> SepOk(SplitAt(s, a, newAddr).pages, x)
  {
    var t, z := SplitAt(s, a, newAddr), SplitSeparator(s, a, newAddr);
    SplitPageSpec(s.pages[a], newAddr);
    forall x | x in t.pending ensures SepOk(t.pages, x) {
      assert x != z ==> SepOk(s.pages, x);
    }
  }

  lemma SplitSepNew(s: State, a: GlobalAddress, newAddr: GlobalAddress, x: Separator)
    requires CanSplit(s, a, newAddr) && SepNew(s.pages, x)
    ensures SepNew(SplitAt(s, a, newAddr).pages, x)
  {
    var t, p := SplitAt(s, a, newAddr), s.pages[a];
    forall b | b in t.pages && t.pages[b].level == x.level ensures !HasSep(t.pages[b], x.key) {
      if b == a || b == newAddr {
        SplitHasSep(p, newAddr, x.key);
      }
    }
  }

  lemma SplitPending(s: State, a: GlobalAddress, newAddr: GlobalAddress)
    requires PagesOk(s) && Apart(s) && Parented(s) && Pending(s) && CanSplit(s, a, newAddr)
    ensures Pending(SplitAt(s, a, newAddr))
  {
    var t, z := SplitAt(s, a, newAddr), SplitSeparator(s, a, newAddr);
    SplitPageSpec(s.pages[a], newAddr);
    SplitKeyNew(s, a, z.key);
    SplitSepOk(s, a, newAddr);
    forall x | x in t.pending ensures SepNew(t.pages, x) {
      SplitSepNew(s, a, newAddr, x);
    }
  }

  lemma SplitHasSep(p: Page, newAddr: GlobalAddress, k: Key)
    requires Splittable(p) && !HasSep(p, k)
    ensures !HasSep(LeftPage(p, newAddr), k) && !HasSep(RightPage(p), k)
  {
    if p.InternalPage? {
      SplitChildren(p, newAddr);
      var l, r := LeftPage(p, newAddr), RightPage(p);
      forall i | 0 <= i <= |l.records| ensures SepKey(l, i) != k {
        assert SepKey(l, i) == SepKey(p, i);
      }
      forall i | 0 <= i <= |r.records| ensures SepKey(r, i) != k {
        assert SepKey(r, i) == SepKey(p, |l.records| + 1 + i);
      }
    }
  }

  lemma SplitRefers(p: Page, newAddr: GlobalAddress, b: GlobalAddress)
    requires Splittable(p) && Refers(p, b)
    ensures Refers(LeftPage(p, newAddr), b) || Refers(RightPage(p), b)
  {
    SplitChildren(p, newAddr);
    var l, r := LeftPage(p, newAddr), RightPage(p);
    var i :| 0 <= i <= |p.records| && Child(p, i) == b;
    if i <= |l.records| {
      assert Child(l, i) == b;
    } else {
      assert Child(r, i - |l.records| - 1) == b;
    }
  }

  lemma SplitReached(s: State, a: GlobalAddress, newAddr: GlobalAddress)
    requires Reached(s) && CanSplit(s, a, newAddr)
    ensures Reached(SplitAt(s, a, newAddr))
  {
    var t, z := SplitAt(s, a, newAddr), SplitSeparator(s, a, newAddr);
    assert z in t.pending && z.child == newAddr;
    forall b | b in t.pages && b != t.root && !PendingChild(t, b) ensures Referred(t, b) {
      assert b != newAddr;
      assert !PendingChild(s, b) by {
        forall x | x in s.pending ensures x.child != b {
          assert x in t.pending;
        }
      }
      var c :| c in s.pages && Refers(s.pages[c], b);
      if c == a {
        SplitRefers(s.pages[a], newAddr, b);
        assert Refers(t.pages[a], b) || Refers(t.pages[newAddr], b);
      } else {
        assert Refers(t.pages[c], b);
      }
    }
  }

  lemma SplitShape(s: State, a: GlobalAddress, newAddr: GlobalAddress)
    requires Shape(s) && CanSplit(s, a, newAddr)
    ensures Shape(SplitAt(s, a, newAddr)) && Stable(s, SplitAt(s, a, newAddr))
  {
    SplitStable(s, a, newAddr);
    SplitPages(s, a, newAddr);
    SplitLinked(s, a, newAddr);
    SplitApart(s, a, newAddr);
    SplitParented(s, a, newAddr);
    SplitPending(s, a, newAddr);
    SplitReached(s, a, newAddr);
    SplitFilled(s, a, newAddr);
  }

  lemma SplitFilled(s: State, a: GlobalAddress, newAddr: GlobalAddress)
    requires Filled(s) && CanSplit(s, a, newAddr)
    ensures Filled(SplitAt(s, a, newAddr))
  {
  }

  // ---------------------------------------------------------------- the root word swapped

  ghost predicate CanSwap(s: State, x: Separator, newAddr: GlobalAddress) {
    x in s.pending && x.left == s.root && newAddr !in s.pages && newAddr != NULL
  }

  lemma SwapPages(s: State, x: Separator, newAddr: GlobalAddress)
    requires PagesOk(s) && Rooted(s) && Pending(s) && CanSwap(s, x, newAddr)
    ensures PagesOk(SwapRoot(s, x, newAddr)) && Rooted(SwapRoot(s, x, newAddr)) && Stable(s, SwapRoot(s, x, newAddr))
  {
  }

  lemma SwapLinked(s: State, x: Separator, newAddr: GlobalAddress)
    requires Linked(s) && CanSwap(s, x, newAddr)
    ensures Linked(SwapRoot(s, x, newAddr))
  {
  }

  lemma SwapParented(s: State, x: Separator, newAddr: GlobalAddress)
    requires Rooted(s) && Parented(s) && Pending(s) && CanSwap(s, x, newAddr) && Stable(s, SwapRoot(s, x, newAddr))
    ensures Parented(SwapRoot(s, x, newAddr))
  {
    var t, r := SwapRoot(s, x, newAddr), RootPage(x);
    assert SepOk(s.pages, x);
    assert ChildOk(t.pages, r, 0) && ChildOk(t.pages, r, 1);
    forall b | b in t.pages ensures ChildrenOk(t.pages, t.pages[b]) {
      if b != newAddr {
        StableChildren(s, t, s.pages[b]);
      }
    }
  }

  lemma SwapPending(s: State, x: Separator, newAddr: GlobalAddress)
    requires Pending(s) && CanSwap(s, x, newAddr)
    ensures Pending(SwapRoot(s, x, newAddr))
  {
  }

  lemma SwapReached(s: State, x: Separator, newAddr: GlobalAddress)
    requires Reached(s) && CanSwap(s, x, newAddr)
    ensures Reached(SwapRoot(s, x, newAddr))
  {
    var t, r := SwapRoot(s, x, newAddr), RootPage(x);
    assert Child(r, 0) == s.root && Child(r, 1) == x.child;
    forall b | b in t.pages && b != t.root && !PendingChild(t, b) ensures Referred(t, b) {
      if b == s.root {
        assert Refers(t.pages[newAddr], b);
      } else if PendingChild(s, b) {
        var y :| y in s.pending && y.child == b;
        assert y == x by { assert y != x ==> y in t.pending; }
        assert Refers(t.pages[newAddr], b);
      } else {
        var c :| c in s.pages && Refers(s.pages[c], b);
        assert Refers(t.pages[c], b);
      }
    }
  }

  lemma SwapShape(s: State, x: Separator, newAddr: GlobalAddress)
    requires Shape(s) && CanSwap(s, x, newAddr)
    ensures Shape(SwapRoot(s, x, newAddr)) && Stable(s, SwapRoot(s, x, newAddr))
  {
    var t := SwapRoot(s, x, newAddr);
    SwapPages(s, x, newAddr);
    SwapLinked(s, x, newAddr);
    SwapParented(s, x, newAddr);
    SwapPending(s, x, newAddr);
    SwapReached(s, x, newAddr);
    SwapApart(s, x, newAddr);
  }

  lemma SwapApart(s: State, x: Separator, newAddr: GlobalAddress)
    requires Rooted(s) && Pending(s) && Filled(s) && Apart(s) && CanSwap(s, x, newAddr)
    ensures Apart(SwapRoot(s, x, newAddr)) && Filled(SwapRoot(s, x, newAddr))
  {
  }
}
