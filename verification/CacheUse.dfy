/**
  How one client's operations use the index cache: what the lookup at their beginning, the check of the
  leaf it leads to, and the level-1 page read on the way down from a root leave behind
  (src/Tree.cpp:357-372, 405-459, 546-560, 640-646).
*/
module CacheUse {
  import opened Layout
  import opened InternalPages
  import opened BLink
  import opened Steps
  import opened Levels
  import opened TreeState
  import opened CacheOrder
  import opened IndexCaches
  import opened RangeQueries

  // ---------------------------------------------------------------- no right turns

  /** While no separator is on its way, the child that a page routes a key to covers the key. */
  lemma ChildCovers(s: State, a: GlobalAddress, k: Key)
    requires Inv(s) && s.pending == {} && k < KEY_MAX
    requires a in s.pages && s.pages[a].InternalPage? && Covers(s.pages[a], k)
    ensures var c := Route(s.pages[a], k); c in s.pages && s.pages[c].level + 1 == s.pages[a].level && Covers(s.pages[c], k)
  {
    hide Linked, Pending, Filled, Room;
    assert PageOk(s.pages[a]);
    var b := DescendTo(s, s.root, k, s.pages[a].level - 1);
    var q, i := HasParent(s, b, k);
    assert PageOk(s.pages[q]);
    CoverUnique(s, a, q, k);
    RouteSpec(s.pages[a], k);
  }

  // ---------------------------------------------------------------- what an operation leaves in the cache

  /** The level-1 page over the key has been filed. */
  ghost predicate CachedOver(c: CacheState, s: State, k: Key, draws: seq<Key>, d: CacheState) {
    exists a :: a in s.pages && s.pages[a].level == 1 && Covers(s.pages[a], k) && Added(c, s.pages[a], draws, d)
  }

  /** A descent from above level 1 is at `p`: the page over the key is filed once the descent is below it. */
  ghost predicate Passing(c: CacheState, s: State, k: Key, draws: seq<Key>, p: GlobalAddress, d: CacheState) {
    p in s.pages &&
    if s.pages[p].level == 0 then Covers(s.pages[p], k) && CachedOver(c, s, k, draws, d)
    else d == c && (s.pages[p].level == 1 ==> Covers(s.pages[p], k))
  }

  /** What reading a page does to the cache. */
  ghost predicate Noted(c: CacheState, s: State, a: GlobalAddress, on: bool, draws: seq<Key>, d: CacheState)
    requires a in s.pages
  {
    if on && s.pages[a].level == 1 then Added(c, s.pages[a], draws, d) else d == c
  }

  lemma NotedOnly(c: CacheState, s: State, a: GlobalAddress, on: bool, draws: seq<Key>, d: CacheState)
    requires a in s.pages && Noted(c, s, a, on, draws, d)
    ensures !on || s.pages[a].level != 1 ==> d == c
  {
  }

  lemma StartsAbove(c: CacheState, s: State, k: Key, draws: seq<Key>, root: GlobalAddress)
    ensures root in s.pages && 2 <= s.pages[root].level ==> Passing(c, s, k, draws, root, c)
  {
  }

  lemma PassedBy(c: CacheState, s: State, k: Key, draws: seq<Key>, p: GlobalAddress, d: CacheState)
    requires Passing(c, s, k, draws, p, d)
    ensures p in s.pages && (s.pages[p].level == 0 ==> CachedOver(c, s, k, draws, d))
  {
  }

  lemma PassingStep(c: CacheState, s: State, k: Key, draws: seq<Key>, p: GlobalAddress, d: CacheState, e: CacheState)
    requires Inv(s) && s.pending == {} && At(s, p, k) && k < KEY_MAX && 0 < s.pages[p].level
    requires Passing(c, s, k, draws, p, d) && Noted(d, s, p, true, draws, e)
    ensures ReadStep(s, p, k).Move? && Passing(c, s, k, draws, ReadStep(s, p, k).to, e)
  {
    hide Linked, Apart, Parented, Pending, Reached, Filled, Room, Added;
    assert PageOk(s.pages[p]);
    if s.pages[p].highest <= k {
      SiblingLevel(s, p, k);
    } else {
      ChildCovers(s, p, k);
    }
  }

  lemma SiblingLevel(s: State, p: GlobalAddress, k: Key)
    requires Inv(s) && At(s, p, k) && s.pages[p].highest <= k < KEY_MAX
    ensures var b := s.pages[p].sibling; b in s.pages && s.pages[b].level == s.pages[p].level
  {
    TurnRight(s, p, k);
  }

  /** The image a lookup hits. */
  function HitPage(c: CacheState, k: Key): Page
    requires PointersOk(c) && Hits(c, k)
  {
    c.images[c.list[FindKey(c.list, k)].ptr].page
  }

  /** The cache when an operation goes down from a root: looked up, and the entry of a rejected leaf invalidated. */
  function Rejected(c: CacheState, k: Key, free: bool): CacheState
    requires PointersOk(c)
  {
    var d := LookedUp(c, k, free);
    if Hits(c, k) && FindKey(c.list, k) < |d.list| then Drop(d, FindKey(c.list, k)) else d
  }

  /**
    What an operation on `k` leaves behind. With the cache on it is looked up once. If the image that is hit
    leads to the leaf of the key, nothing else happens; otherwise the entry that was hit is invalidated
    and the level-1 page over the key filed.
  */
  ghost predicate Consulted(c: CacheState, s: State, on: bool, k: Key, free: bool, draws: seq<Key>, d: CacheState) {
    if !on then d == c
    else
      && PointersOk(c)
      && if Hits(c, k) && Leads(s, HitPage(c, k), k) then d == LookedUp(c, k, free)
         else CachedOver(Rejected(c, k, free), s, k, draws, d)
  }

  /** A search is at `p`: at the leaf the image that was hit led to, or on its way down from a root. */
  ghost predicate Searching(c: CacheState, s: State, k: Key, free: bool, draws: seq<Key>, p: GlobalAddress, fromCache: bool, d: CacheState) {
    && PointersOk(c)
    && if fromCache then Hits(c, k) && d == LookedUp(c, k, free) && HitPage(c, k).InternalPage? && p == Route(HitPage(c, k), k)
       else !(Hits(c, k) && Leads(s, HitPage(c, k), k)) && Passing(Rejected(c, k, free), s, k, draws, p, d)
  }

  /** The image that is hit leads to the leaf of the key exactly when the leaf it routes the key to ends after the key. */
  lemma HitLeads(c: CacheState, s: State, k: Key, all: nat)
    requires CacheOk(c, all) && Hits(c, k) && Inv(s) && ImagesOk(s.pages, LivePages(c))
    ensures PointersOk(c) && HitPage(c, k).InternalPage? && Route(HitPage(c, k), k) in s.pages
    ensures Leads(s, HitPage(c, k), k) <==> k < s.pages[Route(HitPage(c, k), k)].highest
  {
    hide PagesOk, Linked, Apart, Parented, Pending, Reached, Filled, Room, Leads, LivePages;
    HitImage(c, all, k);
    LeadsIff(s, HitPage(c, k), k);
  }

  lemma SearchingMoves(c: CacheState, s: State, k: Key, free: bool, draws: seq<Key>, p: GlobalAddress, d: CacheState, e: CacheState)
    requires Inv(s) && s.pending == {} && At(s, p, k) && k < KEY_MAX && 0 < s.pages[p].level
    requires Searching(c, s, k, free, draws, p, false, d) && Noted(d, s, p, true, draws, e)
    ensures ReadStep(s, p, k).Move? && Searching(c, s, k, free, draws, ReadStep(s, p, k).to, false, e)
  {
    hide Inv, Leads, Rejected, Noted, Passing, LookedUp;
    PassingStep(Rejected(c, k, free), s, k, draws, p, d, e);
  }

  lemma SearchingEnds(c: CacheState, s: State, k: Key, free: bool, draws: seq<Key>, p: GlobalAddress, fromCache: bool, d: CacheState, all: nat)
    requires CacheOk(c, all) && Inv(s) && ImagesOk(s.pages, LivePages(c))
    requires Searching(c, s, k, free, draws, p, fromCache, d) && p in s.pages && s.pages[p].level == 0
    requires fromCache ==> k < s.pages[p].highest
    ensures k < s.pages[p].highest && Consulted(c, s, true, k, free, draws, d)
  {
    hide Inv, Leads, Rejected, LookedUp, CachedOver;
    if fromCache {
      HitLeads(c, s, k, all);
    }
  }

  /** The leaf is rejected, the entry invalidated, and the search starts again from a root above level 1. */
  lemma SearchingAgain(c: CacheState, s: State, k: Key, free: bool, draws: seq<Key>, p: GlobalAddress, d: CacheState, root: GlobalAddress, all: nat)
    requires CacheOk(c, all) && Inv(s) && ImagesOk(s.pages, LivePages(c))
    requires Searching(c, s, k, free, draws, p, true, d) && p in s.pages && s.pages[p].highest <= k
    requires root in s.pages && 2 <= s.pages[root].level
    ensures FindKey(c.list, k) < |d.list| && Searching(c, s, k, free, draws, root, false, Drop(d, FindKey(c.list, k)))
  {
    hide Inv, Leads;
    HitLeads(c, s, k, all);
  }

  /** A search starts at the leaf the image leads to, or at a root above level 1. */
  lemma SearchingStarts(c: CacheState, s: State, k: Key, free: bool, draws: seq<Key>, p: GlobalAddress, all: nat)
    requires CacheOk(c, all) && p in s.pages
    requires if Hits(c, k) then PointersOk(c) && HitPage(c, k).InternalPage? && p == Route(HitPage(c, k), k) else 2 <= s.pages[p].level
    ensures Searching(c, s, k, free, draws, p, Hits(c, k), LookedUp(c, k, free))
  {
  }

  lemma ConsultedHit(c: CacheState, s: State, k: Key, free: bool, draws: seq<Key>, d: CacheState)
    requires PointersOk(c) && Hits(c, k) && Leads(s, HitPage(c, k), k) && d == LookedUp(c, k, free)
    ensures Consulted(c, s, true, k, free, draws, d)
  {
  }

  /** An operation has gone down from a root after the lookup has missed or led to a rejected leaf. */
  lemma ConsultedDown(c: CacheState, s: State, k: Key, free: bool, draws: seq<Key>, b: CacheState, d: CacheState)
    requires PointersOk(c) && b == Rejected(c, k, free) && CachedOver(b, s, k, draws, d)
    requires !(Hits(c, k) && Leads(s, HitPage(c, k), k))
    ensures Consulted(c, s, true, k, free, draws, d)
  {
  }

  lemma CacheUnused(c: CacheState, s: State, k: Key, free: bool, draws: seq<Key>)
    ensures Consulted(c, s, false, k, free, draws, c)
  {
  }

  lemma RejectedIs(c: CacheState, k: Key, free: bool)
    requires PointersOk(c)
    ensures LookedUp(c, k, free).list == c.list
    ensures Rejected(c, k, free) == if Hits(c, k) then Drop(LookedUp(c, k, free), FindKey(c.list, k)) else LookedUp(c, k, free)
  {
  }

  lemma GoodParts(s: State, m: map<Key, Value>, images: set<Page>)
    requires Good(s, m, images)
    ensures Inv(s) && Represents(s, m) && ImagesOk(s.pages, images)
  {
  }

  // ---------------------------------------------------------------- as a caller sees it

  lemma RejectedSpec(c: CacheState, k: Key, free: bool, all: nat)
    requires CacheOk(c, all)
    ensures var d := Rejected(c, k, free);
            && CacheOk(d, all) && LivePages(d) <= LivePages(c) && d.nextPtr == c.nextPtr && c.freePages <= d.freePages
            && (!Hits(c, k) ==> d.list == c.list && LivePages(d) == LivePages(c))
            && (Hits(c, k) ==> !FromLive(d.list, 0, c.list[FindKey(c.list, k)].ptr))
  {
    hide Seek;
    LookedUpOk(c, k, free, all);
    var d, i := LookedUp(c, k, free), FindKey(c.list, k);
    if Hits(c, k) {
      DropOk(d, i, all);
    }
  }

  lemma LookedUpOk(c: CacheState, k: Key, free: bool, all: nat)
    requires CacheOk(c, all)
    ensures var d := LookedUp(c, k, free);
            && CacheOk(d, all) && d.list == c.list && d.nextPtr == c.nextPtr && c.freePages <= d.freePages && LivePages(d) == LivePages(c)
  {
    hide Seek;
    if free && c.delayFree != [] {
      FreeOldestOk(c, all);
    }
    var d := if free && c.delayFree != [] then FreeOldest(c) else c;
    SameLive(c, d);
    if Hits(c, k) {
      TouchOk(d, FindKey(c.list, k), all);
      SameLive(d, Touch(d, FindKey(c.list, k)));
    }
  }

  lemma SameLive(c: CacheState, d: CacheState)
    requires PointersOk(c) && PointersOk(d) && d.list == c.list
    requires forall p :: p in d.images && p in c.images ==> d.images[p].page == c.images[p].page
    ensures LivePages(d) == LivePages(c)
  {
  }

  /** A rejected image is live no more, whatever was filed since. */
  lemma StaleIsDropped(c: CacheState, s: State, k: Key, free: bool, draws: seq<Key>, d: CacheState, all: nat)
    requires CacheOk(c, all) && Consulted(c, s, true, k, free, draws, d) && Hits(c, k) && !Leads(s, HitPage(c, k), k)
    ensures !FromLive(d.list, 0, c.list[FindKey(c.list, k)].ptr)
  {
    hide Added, LookedUp, Seek, Leads, Covers;
    RejectedSpec(c, k, free, all);
    var b := Rejected(c, k, free);
    var a :| a in s.pages && s.pages[a].level == 1 && Covers(s.pages[a], k) && Added(b, s.pages[a], draws, d);
    AddedBack(b, s.pages[a], draws, d);
  }

  /** With a free page, an image that covers the key is live after an operation on it. */
  lemma OperationCaches(c: CacheState, s: State, k: Key, free: bool, draws: seq<Key>, d: CacheState, all: nat)
    requires CacheOk(c, all) && Consulted(c, s, true, k, free, draws, d) && Inv(s) && 0 < c.freePages
    ensures CacheOk(d, all) && CoveredLive(d, k)
    ensures (Hits(c, k) && Leads(s, HitPage(c, k), k)) || exists a :: CachedAt(c, s, k, a, d)
  {
    hide Added, LookedUp, Seek, Leads, LivePages, Ordered, PointersOk, AllFiled, Conserved, Rejected;
    LookedUpOk(c, k, free, all);
    RejectedSpec(c, k, free, all);
    if Hits(c, k) && Leads(s, HitPage(c, k), k) {
      HitImage(d, all, k);
    } else {
      var b := Rejected(c, k, free);
      var a :| a in s.pages && s.pages[a].level == 1 && Covers(s.pages[a], k) && Added(b, s.pages[a], draws, d);
      assert PageOk(s.pages[a]);
      AddedSpec(b, s.pages[a], draws, d, all);
      LiveCovers(d, all, s.pages[a], k);
      assert LivePages(d) <= LivePages(c) + {s.pages[a]};
      assert CachedAt(c, s, k, a, d);
    }
  }

  /** The live images are old ones or page `a`, a current one; a new one unless one had its interval. */
  ghost predicate CachedAt(c: CacheState, s: State, k: Key, a: GlobalAddress, d: CacheState) {
    && a in s.pages && s.pages[a].level == 1 && Covers(s.pages[a], k) && HasLive(d, s.pages[a])
    && LivePages(d) <= LivePages(c) + {s.pages[a]}
  }

  lemma LiveCovers(d: CacheState, all: nat, page: Page, k: Key)
    requires CacheOk(d, all) && HasLive(d, page) && Covers(page, k)
    ensures CoveredLive(d, k)
  {
    var i :| 0 <= i < |d.list| && Alive(d.list[i]) && d.list[i].from == page.lowest && d.list[i].to + 1 == page.highest;
    var p := LiveImage(d, i);
    assert Covers(p, k);
  }

  /**
    Where all live images are current, they still are after an operation on a key, and then a range query of
    that key alone is exact: it returns the value if the key is bound.
  */
  lemma ReturnedAfter(c: CacheState, s: State, m: map<Key, Value>, k: Key, free: bool, draws: seq<Key>, d: CacheState, all: nat)
    requires CacheOk(c, all) && Consulted(c, s, true, k, free, draws, d) && Inv(s) && s.pending == {} && Represents(s, m)
    requires 0 < c.freePages && k < KEY_MAX && LiveCurrent(c, s)
    ensures CacheOk(d, all) && LiveCurrent(d, s) && Exactly(Queried(d, s, k, k), m, k, k)
  {
    hide Added, LookedUp, Seek, Leads, LivePages, Ordered, PointersOk, AllFiled, Conserved, Rejected, Exactly, Queried,
      CachedOver, UnderLive, CoveredLive, PagesOk, Linked, Apart, Parented, Pending, Reached, Filled, Room, Represents;
    OperationCaches(c, s, k, free, draws, d, all);
    LookedUpOk(c, k, free, all);
    if !(Hits(c, k) && Leads(s, HitPage(c, k), k)) {
      var a :| CachedAt(c, s, k, a, d);
      PageIsCurrent(s, a);
      forall p | p in LivePages(d) ensures IsCurrent(s, p) {
        assert p in LivePages(c) || p == s.pages[a];
      }
    }
    CurrentExactIff(d, all, s, m, k, k);
    UnderLiveIff(d, s, k);
  }

  lemma PageIsCurrent(s: State, a: GlobalAddress)
    requires Inv(s) && a in s.pages && s.pages[a].level == 1
    ensures IsCurrent(s, s.pages[a]) && 1 <= |s.pages[a].records| && s.pages[a].lowest < s.pages[a].highest
  {
    assert PageOk(s.pages[a]);
  }

  lemma SameNest(c: CacheState, d: CacheState, s: State)
    requires d.list == c.list && LiveNest(c, s)
    ensures LiveNest(d, s)
  {
  }

  /**
    And whatever stale images are live, such a query is exact after an operation on a key that none of them
    covered, as long as no current page is cut by the interval of one.
  */
  lemma ReturnedOnce(c: CacheState, s: State, m: map<Key, Value>, k: Key, free: bool, draws: seq<Key>, d: CacheState, all: nat)
    requires CacheOk(c, all) && Consulted(c, s, true, k, free, draws, d) && Inv(s) && s.pending == {} && Represents(s, m)
    requires 0 < c.freePages && k < KEY_MAX && ImagesOk(s.pages, LivePages(c)) && LiveNest(c, s) && !CoveredLive(c, k)
    ensures CacheOk(d, all) && Exactly(Queried(d, s, k, k), m, k, k)
  {
    hide LookedUp, Seek, Leads, Ordered, PointersOk, AllFiled, Conserved, Rejected, Exactly, Queried, Install, LivePages,
      ImageOk, PagesOk, Linked, Apart, Parented, Pending, Reached, Filled, Room, Represents, LiveNest, ServedOnce;
    if Hits(c, k) {
      HitImage(c, all, k);
      CoveredBy(c, HitPage(c, k), k);
    }
    LookedUpOk(c, k, free, all);
    RejectedSpec(c, k, free, all);
    var b := Rejected(c, k, free);
    SameNest(c, b, s);
    var a :| a in s.pages && s.pages[a].level == 1 && Covers(s.pages[a], k) && Added(b, s.pages[a], draws, d);
    if HasLive(b, s.pages[a]) {
      LiveCovers(b, all, s.pages[a], k);
    }
    PageIsCurrent(s, a);
    CurrentImage(s, s.pages[a]);
    AddedSpec(b, s.pages[a], draws, d, all);
    CoversLeads(s, s.pages[a], k);
    OnlyImage(b, s, k, a, d, all);
    QueryExactIff(d, all, s, m, k, k);
  }

  lemma CoveredBy(c: CacheState, p: Page, k: Key)
    requires p in LivePages(c) && Covers(p, k)
    ensures CoveredLive(c, k)
  {
  }

  /** The page just filed alone serves the key. */
  lemma OnlyImage(b: CacheState, s: State, k: Key, a: GlobalAddress, d: CacheState, all: nat)
    requires CacheOk(b, all) && CacheOk(d, all) && LiveNest(b, s) && !CoveredLive(b, k)
    requires a in s.pages && s.pages[a].level == 1 && Leads(s, s.pages[a], k) && s.pages[a].lowest < s.pages[a].highest
    requires !HasLive(b, s.pages[a]) && !Taken(b, s.pages[a]) && d == Install(b, s.pages[a])
    ensures ServedOnce(d, s, k, k)
  {
    hide Seek, WithEntry, Leads, Ordered, Conserved;
    var page := s.pages[a];
    assert Covers(page, k) by { LeadsCovers(s, page, k); }
    InstallGrown(b, page);
    var e := CacheEntry(page.lowest, page.highest - 1, b.nextPtr);
    var i := Seek(b.list, e);
    forall j | 0 <= j < |d.list| && Alive(d.list[j]) && j != i
      ensures !(k < d.list[j].from && d.list[j].to <= d.list[i].to) && !CoversKey(d.list[j], k)
    {
      var x := if |d.list| == |b.list| || j < i then j else j - 1;
      assert d.list[j] == b.list[x];
      var p := LiveImage(b, x);
      if CoversKey(b.list[x], k) {
        CoveredBy(b, p, k);
      }
      assert EntryNests(s, b.list[x]);
    }
    assert Serves(d, s, i, k, k);
    forall j: nat | Serves(d, s, j, k, k) ensures j == i {
      LeadsWithin(d, s, j, k);
    }
  }

  lemma LeadsCovers(s: State, p: Page, k: Key)
    requires Leads(s, p, k)
    ensures Covers(p, k)
  {
  }
}
