/**
  What one client relies on between and during its operations: the tree stands for a map, cached
  images are usable, and the path stack leads back up (src/Tree.cpp:84-88, 610, 818, 980).
*/
module TreeState {
  import opened Layout
  import opened InternalPages
  import opened BLink
  import opened Steps

  /** An image of a level-1 page, however old, whose child pointers lead to leaves that start right. */
  ghost predicate ImageOk(pages: map<GlobalAddress, Page>, p: Page) {
    p.InternalPage? && p.level == 1 && PageOk(p) && ChildrenOk(pages, p) && EndsOk(pages, p)
  }

  /** Child `i` ends by the end of the range the page has for it. */
  ghost predicate ChildEndsBy(pages: map<GlobalAddress, Page>, p: Page, i: nat)
    requires p.InternalPage? && i <= |p.records|
  {
    Child(p, i) in pages && pages[Child(p, i)].highest <= SepEnd(p, i)
  }

  ghost predicate EndsOk(pages: map<GlobalAddress, Page>, p: Page) {
    p.InternalPage? ==> forall i :: 0 <= i <= |p.records| ==> ChildEndsBy(pages, p, i)
  }

  ghost predicate ImagesOk(pages: map<GlobalAddress, Page>, images: set<Page>) {
    forall p :: p in images ==> ImageOk(pages, p)
  }

  /** The tree keeps its invariant, stands for `m`, and every cached image is usable. */
  ghost predicate Good(s: State, m: map<Key, Value>, images: set<Page>) {
    Inv(s) && Represents(s, m) && ImagesOk(s.pages, images)
  }

  lemma GoodStep(s: State, e: Event, m: map<Key, Value>, images: set<Page>)
    requires Good(s, m, images) && Enabled(s, e)
    ensures Good(Next(s, e), Abstract(e, m), images) && Stable(s, Next(s, e))
  {
    StepInv(s, e);
    StepRefines(s, e, m);
    ImagesKept(s, Next(s, e), images);
  }

  lemma ImagesKept(s: State, t: State, images: set<Page>)
    requires Stable(s, t) && ImagesOk(s.pages, images)
    ensures ImagesOk(t.pages, images)
  {
    forall p | p in images ensures ImageOk(t.pages, p) {
      ImageKept(s, t, p);
    }
  }

  lemma ImageKept(s: State, t: State, p: Page)
    requires Stable(s, t) && ImageOk(s.pages, p)
    ensures ImageOk(t.pages, p)
  {
    StableChildren(s, t, p);
    forall i | 0 <= i <= |p.records| ensures ChildEndsBy(t.pages, p, i) {
      assert ChildEndsBy(s.pages, p, i);
    }
  }

  /** The leaf page `q` refers to as child `i` ends by the end of that child's range. */
  lemma ChildEnds(s: State, b: GlobalAddress, i: nat)
    requires PagesOk(s) && Apart(s) && Parented(s) && Linked(s)
    requires b in s.pages && s.pages[b].InternalPage? && i <= |s.pages[b].records|
    ensures var c := Child(s.pages[b], i);
            c in s.pages && s.pages[c].level == s.pages[b].level - 1 && s.pages[c].lowest == SepKey(s.pages[b], i)
            && s.pages[c].highest <= SepEnd(s.pages[b], i)
  {
    var q := s.pages[b];
    assert PageOk(q) && ChildrenOk(s.pages, q) && ChildOk(s.pages, q, i);
    var c := Child(q, i);
    assert PageOk(s.pages[c]);
    if i < |q.records| {
      assert ChildOk(s.pages, q, i + 1);
      EndsBefore(s, c, Child(q, i + 1));
    } else if q.highest < KEY_MAX {
      assert LinkOk(s.pages, q);
      var r := s.pages[q.sibling];
      assert PageOk(r) && ChildrenOk(s.pages, r) && ChildOk(s.pages, r, 0);
      EndsBefore(s, c, r.leftmost);
    }
  }

  lemma EndsBefore(s: State, c: GlobalAddress, d: GlobalAddress)
    requires PagesOk(s) && Apart(s) && c in s.pages && d in s.pages && s.pages[c].level == s.pages[d].level
    requires s.pages[c].lowest < s.pages[d].lowest
    ensures s.pages[c].highest <= s.pages[d].lowest
  {
  }

  /** A page of level 1 is an image of itself. */
  lemma FreshImage(s: State, a: GlobalAddress)
    requires Inv(s) && a in s.pages && s.pages[a].level == 1
    ensures ImageOk(s.pages, s.pages[a])
  {
    assert PageOk(s.pages[a]) && ChildrenOk(s.pages, s.pages[a]);
    forall i | 0 <= i <= |s.pages[a].records| ensures ChildEndsBy(s.pages, s.pages[a], i) {
      ChildEnds(s, a, i);
    }
  }

  /** A current level-1 page may be cached. */
  lemma GoodImage(s: State, m: map<Key, Value>, images: set<Page>, a: GlobalAddress)
    requires Good(s, m, images) && a in s.pages && s.pages[a].level == 1
    ensures ImageOk(s.pages, s.pages[a]) && Good(s, m, images + {s.pages[a]})
  {
    FreshImage(s, a);
  }

  /** An image routes a key it covers to a leaf that does not start after the key. */
  lemma ImageLeads(s: State, p: Page, k: Key)
    requires PagesOk(s) && ImageOk(s.pages, p) && Covers(p, k)
    ensures At(s, Route(p, k), k) && s.pages[Route(p, k)].LeafPage? && s.pages[Route(p, k)].level == 0 && k < KEY_MAX
  {
    assert ChildOk(s.pages, p, RouteFrom(p.records, k, 0));
    assert PageOk(s.pages[Route(p, k)]);
  }

  /**
    The stack holds a page for every level above `level` up to `top`; each starts at or before the
    one below it, and all start at or before `lo`.
  */
  ghost predicate PathOk(pages: map<GlobalAddress, Page>, path: seq<GlobalAddress>, level: int, top: nat, lo: Key) {
    && top < |path|
    && (forall j :: level < j <= top && 0 <= j ==> path[j] in pages && pages[path[j]].level == j && pages[path[j]].lowest <= lo)
    && (forall i, j :: level < i < j <= top && 0 <= i ==>
        path[i] in pages && path[j] in pages && pages[path[j]].lowest <= pages[path[i]].lowest)
  }

  /** Nothing is noted above level `top`. */
  ghost predicate Blank(path: seq<GlobalAddress>, top: nat) {
    forall j :: top < j < |path| ==> path[j] == NULL
  }

  lemma PathStart(pages: map<GlobalAddress, Page>, path: seq<GlobalAddress>, top: nat, lo: Key)
    requires top < |path| && forall j :: 0 <= j < |path| ==> path[j] == NULL
    ensures PathOk(pages, path, top, top, lo) && Blank(path, top)
  {
  }

  lemma BlankKept(path: seq<GlobalAddress>, level: nat, a: GlobalAddress, top: nat)
    requires Blank(path, top) && level <= top && level < |path|
    ensures Blank(path[level := a], top)
  {
  }

  lemma PathKept(s: State, t: State, path: seq<GlobalAddress>, level: int, top: nat, lo: Key)
    requires Stable(s, t) && PathOk(s.pages, path, level, top, lo)
    ensures PathOk(t.pages, path, level, top, lo)
  {
  }

  /** Recording a page of `level` on the stack. */
  lemma PathPush(pages: map<GlobalAddress, Page>, path: seq<GlobalAddress>, level: nat, top: nat, a: GlobalAddress)
    requires a in pages && pages[a].level == level <= top && PathOk(pages, path, level, top, pages[a].lowest)
    ensures PathOk(pages, path[level := a], level, top, pages[a].lowest)
    ensures PathOk(pages, path[level := a], level - 1, top, pages[a].lowest)
  {
  }

  lemma PathFurther(pages: map<GlobalAddress, Page>, path: seq<GlobalAddress>, level: int, top: nat, lo: Key, lo': Key)
    requires PathOk(pages, path, level, top, lo) && lo <= lo'
    ensures PathOk(pages, path, level, top, lo')
  {
  }

  /** One level up: the page on the stack is a valid start for what lies right of `lo`. */
  lemma PathUp(pages: map<GlobalAddress, Page>, path: seq<GlobalAddress>, level: nat, top: nat, lo: Key)
    requires PathOk(pages, path, level, top, lo) && level < top
    ensures path[level + 1] in pages && pages[path[level + 1]].level == level + 1 && pages[path[level + 1]].lowest <= lo
    ensures PathOk(pages, path, level + 1, top, pages[path[level + 1]].lowest)
  {
  }

  /** While no separator waits above the root, the root is alone on its level. */
  lemma RootAlone(s: State, a: GlobalAddress)
    requires Inv(s) && (forall x :: x in s.pending ==> x.level <= s.pages[s.root].level)
    requires a in s.pages && a != s.root
    ensures s.pages[a].level < s.pages[s.root].level
  {
    if PendingChild(s, a) {
      var x :| x in s.pending && x.child == a;
      assert SepOk(s.pages, x);
    } else {
      assert Referred(s, a);
      var b :| b in s.pages && Refers(s.pages[b], a);
      var i :| 0 <= i <= |s.pages[b].records| && Child(s.pages[b], i) == a;
      assert PageOk(s.pages[b]) && ChildrenOk(s.pages, s.pages[b]) && ChildOk(s.pages, s.pages[b], i);
    }
  }
}
