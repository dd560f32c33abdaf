/**
  Range queries beside a running tree, through images read at any earlier moments
  (src/Tree.cpp:461-540; include/IndexCache.h:69-259).
*/
module QueryHistory {
  import opened Layout
  import opened LeafPages
  import opened InternalPages
  import opened BLink
  import opened Steps
  import opened Runs
  import opened TreeState
  import opened CacheOrder
  import opened IndexCaches
  import opened RangeQueries
  import opened CacheHistory
  import opened CacheUse
  import opened GrowingRuns

  // ---------------------------------------------------------------- images of any age

  /** Every image is a level-1 page as it was at some moment up to `j`. */
  ghost predicate PastPages(ss: seq<State>, j: nat, images: set<Page>) {
    forall p :: p in images ==> PastPage(ss, j, p)
  }

  ghost predicate PastPage(ss: seq<State>, j: nat, p: Page) {
    exists i :: 0 <= i <= j && i < |ss| && IsCurrent(ss[i], p)
  }

  lemma PastImage(ss: seq<State>, es: seq<Event>, j: nat, p: Page)
    requires Run(ss, es) && j < |ss| && PastPage(ss, j, p)
    ensures ImageOk(ss[j].pages, p)
  {
    hide Run, IsCurrent;
    var i :| 0 <= i <= j && i < |ss| && IsCurrent(ss[i], p);
    RunInv(ss, es, i);
    CurrentImage(ss[i], p);
    RunStable(ss, es, i, j);
    ImageKept(ss[i], ss[j], p);
  }

  lemma MoveImages(ss: seq<State>, es: seq<Event>, j: nat, all: nat, c: CacheState, e: CacheEvent, d: CacheState)
    requires Run(ss, es) && j < |ss| && CacheOk(c, all) && CacheMoves(ss, j, c, e, d) && PastPages(ss, j, LivePages(c))
    ensures PastPages(ss, j, LivePages(d))
  {
    hide CacheOk, Run, PastPage, LivePages;
    match e
    case InstallCopy(at, a) =>
      ImageShape(ss, es, at, a);
      InstallOk(c, ss[at].pages[a], all);
      CopyIsPast(ss, j, at, a);
    case DropEntry(i) => DropOk(c, i, all);
    case FreeImage => FreeOldestOk(c, all);
    case CountHit(i) => TouchOk(c, i, all);
  }

  lemma CopyIsPast(ss: seq<State>, j: nat, i: nat, a: GlobalAddress)
    requires i <= j < |ss| && a in ss[i].pages && ss[i].pages[a].level == 1 && ss[i].pages[a].InternalPage?
    ensures PastPage(ss, j, ss[i].pages[a])
  {
    assert IsCurrent(ss[i], ss[i].pages[a]);
  }

  /** After any cache operations every live image is a former level-1 page and can still be routed through. */
  lemma {:induction false} CacheRunImages(ss: seq<State>, es: seq<Event>, j: nat, all: nat, cs: seq<CacheState>, cvs: seq<CacheEvent>, n: nat)
    requires Run(ss, es) && CacheRun(ss, j, all, cs, cvs) && n < |cs|
    ensures PastPages(ss, j, LivePages(cs[n])) && ImagesOk(ss[j].pages, LivePages(cs[n]))
  {
    hide CacheMoves, Run, CacheOk, Historic, PastPage, ImageOk;
    if 0 < n {
      CacheRunImages(ss, es, j, all, cs, cvs, n - 1);
      CacheRunInv(ss, es, j, all, cs, cvs, n - 1);
      assert CacheMoves(ss, j, cs[n - 1], cvs[n - 1], cs[n - 1 + 1]);
      MoveImages(ss, es, j, all, cs[n - 1], cvs[n - 1], cs[n]);
    }
    forall p | p in LivePages(cs[n]) ensures ImageOk(ss[j].pages, p) {
      PastImage(ss, es, j, p);
    }
  }

  /**
    Beside any run of the tree and after any cache operations, a range query returns the bindings that the
    tree holds in the range, each once, if and only if every bound key of the range is served by exactly
    one live entry.
  */
  lemma RunQueryIff(ss: seq<State>, es: seq<Event>, j: nat, all: nat, cs: seq<CacheState>, cvs: seq<CacheEvent>, n: nat, from: Key, to: Key)
    requires Run(ss, es) && CacheRun(ss, j, all, cs, cvs) && n < |cs|
    ensures PointersOk(cs[n]) && AllFiled(cs[n])
    ensures Exactly(Queried(cs[n], ss[j], from, to), Replay(es[..j]), from, to) <==>
            forall k :: k in Replay(es[..j]) && from <= k <= to ==> ServedOnce(cs[n], ss[j], k, to)
  {
    hide Moves, Initial, CacheMoves, Historic, Inv, Represents, ImagesOk, Exactly, ServedOnce, Replay;
    CacheRunInv(ss, es, j, all, cs, cvs, n);
    CacheRunImages(ss, es, j, all, cs, cvs, n);
    RunInv(ss, es, j);
    RunRefines(ss, es, j);
    QueryExactIff(cs[n], all, ss[j], Replay(es[..j]), from, to);
  }

  /** An image that no longer leads to the leaf of a key it covers never does again. */
  lemma StaleForEver(ss: seq<State>, es: seq<Event>, i: nat, j: nat, p: Page, k: Key)
    requires Run(ss, es) && i <= j < |ss| && PastPage(ss, i, p) && Covers(p, k) && !Leads(ss[i], p, k)
    ensures !Leads(ss[j], p, k)
  {
    hide Run, PastPage;
    PastImage(ss, es, i, p);
    RunInv(ss, es, i);
    ImageLeads(ss[i], p, k);
    RunStable(ss, es, i, j);
  }

  /**
    Beside any run of the tree, after any cache operations, and whatever stale images are live: once an
    operation on a key that no live image covered has been through the cache, a query of that key is exact.
  */
  lemma FoundAfter(ss: seq<State>, es: seq<Event>, j: nat, all: nat, cs: seq<CacheState>, cvs: seq<CacheEvent>, n: nat,
                   k: Key, free: bool, draws: seq<Key>, d: CacheState)
    requires Run(ss, es) && CacheRun(ss, j, all, cs, cvs) && n < |cs| && ss[j].pending == {} && k < KEY_MAX
    requires 0 < cs[n].freePages && !CoveredLive(cs[n], k) && Consulted(cs[n], ss[j], true, k, free, draws, d)
    ensures CacheOk(d, all) && Exactly(Queried(d, ss[j], k, k), Replay(es[..j]), k, k)
  {
    hide Moves, Initial, CacheMoves, Historic, Inv, Represents, ImagesOk, Exactly, Replay, LiveNest, CoveredLive, Consulted;
    CacheRunInv(ss, es, j, all, cs, cvs, n);
    CacheRunImages(ss, es, j, all, cs, cvs, n);
    RunNests(ss, es, j, all, cs, cvs, n);
    RunInv(ss, es, j);
    RunRefines(ss, es, j);
    ReturnedOnce(cs[n], ss[j], Replay(es[..j]), k, free, draws, d, all);
  }

  // ---------------------------------------------------------------- queries that fail

  /** Every query whose range includes `k` returns it `n` times. */
  ghost predicate Returned(c: CacheState, s: State, k: Key, n: nat) {
    && PointersOk(c) && AllFiled(c)
    && forall from: Key, to: Key :: from <= k <= to ==> Occurs(Queried(c, s, from, to), k) == n
  }

  /** A query that returns a bound key of its range other than once is not exact. */
  lemma ExactIsOnce(out: seq<LeafEntry>, m: map<Key, Value>, from: Key, to: Key, k: Key)
    requires Exactly(out, m, from, to) && k in m && from <= k <= to
    ensures Occurs(out, k) == 1
  {
    OccursOnce(out, k);
    assert LeafEntry(k, m[k]) in out;
  }

  /** Beside any run a bound key is returned as often as there are images found that lead to its leaf. */
  lemma RunQueryOccurs(ss: seq<State>, es: seq<Event>, j: nat, all: nat, cs: seq<CacheState>, cvs: seq<CacheEvent>, n: nat,
                       from: Key, to: Key, k: Key)
    requires Run(ss, es) && CacheRun(ss, j, all, cs, cvs) && n < |cs| && k in Replay(es[..j]) && from <= k <= to
    ensures PointersOk(cs[n]) && AllFiled(cs[n])
    ensures forall p :: p in FoundPtrs(cs[n], from, to) ==> p in cs[n].images
    ensures Occurs(Queried(cs[n], ss[j], from, to), k) == Leading(ss[j], Images(cs[n], FoundPtrs(cs[n], from, to)), k)
  {
    hide Moves, Initial, CacheMoves, Historic, Inv, Represents, ImagesOk, Replay, Occurs, Leading, PointersOk, AllFiled;
    CacheRunInv(ss, es, j, all, cs, cvs, n);
    CacheRunImages(ss, es, j, all, cs, cvs, n);
    RunInv(ss, es, j);
    RunRefines(ss, es, j);
    QueryOccurs(cs[n], ss[j], Replay(es[..j]), from, to, k);
  }

  /**
    Whenever the leaf that a level-1 page led to has split since the page was cached, every bound key right
    of the split is missed by every range query, although a live image covers it and a lookup of it hits.
  */
  lemma StaleMiss(ss: seq<State>, es: seq<Event>, j: nat, i: nat, a: GlobalAddress, all: nat, k: Key)
      returns (cs: seq<CacheState>, cvs: seq<CacheEvent>)
    requires Run(ss, es) && i <= j < |ss| && a in ss[i].pages && ss[i].pages[a].level == 1
    requires Covers(ss[i].pages[a], k) && !Leads(ss[j], ss[i].pages[a], k) && k in Replay(es[..j])
    ensures CacheRun(ss, j, all, cs, cvs) && cvs == [InstallCopy(i, a)]
    ensures Hits(cs[1], k) && CoveredLive(cs[1], k) && Returned(cs[1], ss[j], k, 0)
  {
    hide Run, Replay, Leads, Occurs, PointersOk, AllFiled, LivePages;
    var p := ss[i].pages[a];
    OneImage(all, p, k);
    var c := Install(NoEntries(all), p);
    cs, cvs := [NoEntries(all), c], [InstallCopy(i, a)];
    RunQueryOccurs(ss, es, j, all, cs, cvs, 1, k, k, k);
    forall from: Key, to: Key | from <= k <= to ensures Occurs(Queried(c, ss[j], from, to), k) == 0 {
      RunQueryOccurs(ss, es, j, all, cs, cvs, 1, from, to, k);
      FoundOne(c.list, from, to, k);
      LeadingTwo(ss[j], p, p, k);
      assert Images(c, FoundPtrs(c, from, to)) == [p];
    }
  }

  /** The cache that holds one image. */
  lemma OneImage(all: nat, p: Page, k: Key)
    requires Covers(p, k)
    ensures !Taken(NoEntries(all), p)
    ensures var c := Install(NoEntries(all), p);
            && c.list == [CacheEntry(p.lowest, p.highest - 1, 1)] && c.images == map[1 := Image(p, 0)]
            && Hits(c, k) && CoveredLive(c, k)
  {
    var c := Install(NoEntries(all), p);
    var e := CacheEntry(p.lowest, p.highest - 1, 1);
    assert c.list == [e];
    assert FindKey([e], k) == 0;
    assert Alive(c.list[0]) && c.list[0].ptr in c.images;
    assert p in LivePages(c);
  }

  lemma FoundOne(list: seq<CacheEntry>, from: Key, to: Key, k: Key)
    requires |list| == 1 && Alive(list[0]) && CoversKey(list[0], k) && from <= k <= to
    ensures RangeScan(list, FindKey(list, from), to) == [list[0].ptr]
  {
    assert RangeScan(list, 1, to) == [];
  }

  lemma LeadingTwo(s: State, p: Page, q: Page, k: Key)
    ensures Leading(s, [p], k) == if Leads(s, p, k) then 1 else 0
    ensures Leading(s, [p, q], k) == Leading(s, [p], k) + (if Leads(s, q, k) then 1 else 0)
  {
    hide Leads;
    assert [p][..0] == [] && [p, q][..1] == [p];
  }

  /**
    Whenever two images of a page are live, from before and after it gave up a part of its range, and both
    lead to the leaf of a bound key, every range query that includes the key returns it twice.
  */
  lemma DuplicateRead(ss: seq<State>, es: seq<Event>, j: nat, i: nat, n: nat, a: GlobalAddress, all: nat, k: Key)
      returns (cs: seq<CacheState>, cvs: seq<CacheEvent>)
    requires Run(ss, es) && i <= j < |ss| && n <= j && a in ss[i].pages && a in ss[n].pages
    requires ss[i].pages[a].level == ss[n].pages[a].level == 1
    requires ss[i].pages[a].lowest == ss[n].pages[a].lowest < ss[n].pages[a].highest < ss[i].pages[a].highest
    requires Leads(ss[j], ss[i].pages[a], k) && Leads(ss[j], ss[n].pages[a], k) && k in Replay(es[..j])
    ensures CacheRun(ss, j, all, cs, cvs) && cvs == [InstallCopy(i, a), InstallCopy(n, a)]
    ensures Returned(cs[2], ss[j], k, 2)
  {
    hide Run, Replay, Leads, Occurs, Leading, PointersOk, AllFiled, Queried, LivePages, FoundPtrs;
    var p, q := ss[i].pages[a], ss[n].pages[a];
    TwoImages(all, p, q);
    var c := Install(NoEntries(all), p);
    var d := Install(c, q);
    cs, cvs := [NoEntries(all), c, d], [InstallCopy(i, a), InstallCopy(n, a)];
    RunQueryOccurs(ss, es, j, all, cs, cvs, 2, k, k, k);
    forall from: Key, to: Key | from <= k <= to ensures Occurs(Queried(d, ss[j], from, to), k) == 2 {
      RunQueryOccurs(ss, es, j, all, cs, cvs, 2, from, to, k);
      BothFound(d, ss[j], p, q, from, to, k);
    }
  }

  lemma BothFound(d: CacheState, s: State, p: Page, q: Page, from: Key, to: Key, k: Key)
    requires Leads(s, p, k) && Leads(s, q, k) && from <= k <= to
    requires d.list == [CacheEntry(q.lowest, q.highest - 1, 2), CacheEntry(p.lowest, p.highest - 1, 1)]
    requires d.images == map[1 := Image(p, 0), 2 := Image(q, 0)]
    ensures forall x :: x in FoundPtrs(d, from, to) ==> x in d.images
    ensures Leading(s, Images(d, FoundPtrs(d, from, to)), k) == 2
  {
    FoundTwo(d.list, from, to, k);
    LeadingTwo(s, q, p, k);
    assert Images(d, FoundPtrs(d, from, to)) == [q, p];
  }

  lemma TwoImages(all: nat, p: Page, q: Page)
    requires p.lowest == q.lowest < q.highest < p.highest
    ensures !Taken(NoEntries(all), p) && !Taken(Install(NoEntries(all), p), q)
    ensures var d := Install(Install(NoEntries(all), p), q);
            && d.list == [CacheEntry(q.lowest, q.highest - 1, 2), CacheEntry(p.lowest, p.highest - 1, 1)]
            && d.images == map[1 := Image(p, 0), 2 := Image(q, 0)]
  {
    var e, f := CacheEntry(p.lowest, p.highest - 1, 1), CacheEntry(q.lowest, q.highest - 1, 2);
    var c := Install(NoEntries(all), p);
    assert c.list == [e];
    assert Seek(c.list, f) == 0;
    assert Install(c, q).list == [f, e];
  }

  lemma FoundTwo(list: seq<CacheEntry>, from: Key, to: Key, k: Key)
    requires |list| == 2 && Alive(list[0]) && Alive(list[1]) && CoversKey(list[0], k) && CoversKey(list[1], k) && from <= k <= to
    ensures RangeScan(list, FindKey(list, from), to) == [list[0].ptr, list[1].ptr]
  {
    assert RangeScan(list, 2, to) == [];
    assert RangeScan(list, 1, to) == [list[1].ptr];
  }

  /** The image of a page leads to the leaf of its lowest key for ever: no split moves that key away. */
  lemma LowestLeads(s: State, p: Page)
    requires PagesOk(s) && ImageOk(s.pages, p)
    ensures Leads(s, p, p.lowest)
  {
    RouteSpec(p, p.lowest);
    assert ChildOk(s.pages, p, 0) && ChildOk(s.pages, p, RouteFrom(p.records, p.lowest, 0));
    assert PageOk(s.pages[Child(p, RouteFrom(p.records, p.lowest, 0))]);
  }

  /** A key of a leaf can always be stored, with a split when that fills the leaf. */
  lemma StoreAt(ss: seq<State>, es: seq<Event>, a: GlobalAddress, k: Key) returns (tt: seq<State>, fs: seq<Event>)
    requires Run(ss, es) && LeafFor(End(ss), a, k)
    ensures Run(tt, fs) && |tt| == |ss| + 1 && Longer(ss, tt) && k in Replay(fs)
  {
    hide Inv, LeafFor, Initial, Moves, Stable, Put;
    var n := NewAddress(End(ss));
    RunInv(ss, es, |ss| - 1);
    LeafSize(End(ss), a, k);
    var e := if Full(Put(End(ss).pages[a].entries, k, 1)) then StoreSplit(a, k, 1, n) else Store(a, k, 1);
    tt, fs := Extend(ss, es, e);
    StoredNow(fs, e, k);
  }

  lemma StoredNow(fs: seq<Event>, e: Event, k: Key)
    requires fs != [] && fs[|fs| - 1] == e && (e.Store? || e.StoreSplit?) && e.k == k
    ensures k in Replay(fs)
  {
  }

  lemma LeafSize(s: State, a: GlobalAddress, k: Key)
    requires Inv(s) && LeafFor(s, a, k)
    ensures a in s.pages && s.pages[a].LeafPage? && |s.pages[a].entries| == LEAF_CARDINALITY
  {
    assert PageOk(s.pages[a]);
  }

  // ---------------------------------------------------------------- such runs exist

  /** A run to a tree of root level 3 whose last leaf has split since a level-1 page over it was read. */
  lemma StaleRun() returns (ss: seq<State>, es: seq<Event>, i: nat, a: GlobalAddress, k: Key)
    ensures Run(ss, es) && i < |ss| && a in ss[i].pages && ss[i].pages[a].level == 1
    ensures ss[i].root in ss[i].pages && 3 <= ss[i].pages[ss[i].root].level
    ensures Covers(ss[i].pages[a], k) && !Leads(End(ss), ss[i].pages[a], k) && k in Replay(es[..|ss| - 1])
  {
    hide Budget, Ramped, Longer, Moves, Initial, Replay, Leads, SameAbove, Whole,
      Linked, Apart, Parented, Pending, Reached, Filled, Room, PagesOk;
    var tt, fs, z, t := ThreeLevels();
    var s := End(tt);
    i := |tt| - 1;
    BudgetNumbers();
    a := LastExists(s, 1);
    var x;
    ss, es, x := SplitLeaf(tt, fs, z, t, LEAF_MIDDLE);
    k := t + LEAF_MIDDLE;
    EarlierState(tt, ss);
    RampStart(s, z, t);
    SplitBound(ss, es, x.child, k);
    LeftBehind(s, End(ss), a, z, x, k);
  }

  lemma EarlierState(tt: seq<State>, ss: seq<State>)
    requires 0 < |tt| && Longer(tt, ss)
    ensures |tt| <= |ss| && ss[|tt| - 1] == End(tt)
  {
  }

  lemma RampStart(s: State, z: GlobalAddress, t: Key)
    requires Quiet(s, z, t, LEAF_MIDDLE)
    ensures IsLast(s, z, 0) && s.pages[z].LeafPage? && s.pages[z].lowest <= t
  {
  }

  /** The first key of an ascending leaf is bound. */
  lemma SplitBound(ss: seq<State>, es: seq<Event>, z: GlobalAddress, t: Key)
    requires Run(ss, es) && Ramped(End(ss), z, t, LEAF_MIDDLE)
    ensures t in Replay(es[..|ss| - 1]) && IsLast(End(ss), z, 0) && End(ss).pages[z].lowest <= t
  {
    hide Moves, Initial, Replay;
    var s := End(ss);
    RunRefines(ss, es, |ss| - 1);
    assert s.pages[z].entries[0] == LeafEntry(t, 1);
    assert LeafBinds(s.pages[z], t, 1);
    assert Binds(s, t, 1);
  }

  /** The level-1 page over the last leaf routes the keys right of its split to it. */
  lemma LeftBehind(s: State, u: State, a: GlobalAddress, z: GlobalAddress, x: Separator, k: Key)
    requires Inv(s) && s.pending == {} && IsLast(s, a, 1) && IsLast(s, z, 0) && s.pages[z].LeafPage? && s.pages[z].lowest <= k < KEY_MAX
    requires SplitOff(s, u, z, 0, x) && u.pages[x.child].lowest <= k
    ensures Covers(s.pages[a], k) && !Leads(u, s.pages[a], k)
  {
    hide Linked, Parented, Pending, Reached, Filled, Room;
    LastBelow(s, a, z, 0);
    assert PageOk(s.pages[a]);
    CoversLeads(s, s.pages[a], k);
    CoverUnique(s, z, Route(s.pages[a], k), k);
  }

  /** A run to a tree of root level 3 in which a level-1 page has split since it was read, and its lowest key is bound. */
  lemma TwiceRun() returns (ss: seq<State>, es: seq<Event>, i: nat, n: nat, a: GlobalAddress, k: Key)
    ensures Run(ss, es) && i < n < |ss| && a in ss[i].pages && a in ss[n].pages
    ensures ss[i].root in ss[i].pages && 3 <= ss[i].pages[ss[i].root].level
    ensures ss[i].pages[a].level == ss[n].pages[a].level == 1
    ensures ss[i].pages[a].lowest == ss[n].pages[a].lowest == k < ss[n].pages[a].highest < ss[i].pages[a].highest
    ensures Leads(End(ss), ss[i].pages[a], k) && Leads(End(ss), ss[n].pages[a], k) && k in Replay(es[..|ss| - 1])
  {
    hide Moves, Initial, Replay, Leads, Longer;
    var tt, fs, right;
    tt, fs, a, right := LevelOneSplits();
    i, n := |tt| - 2, |tt| - 1;
    k := tt[n].pages[a].lowest;
    var leaf := CopyLeads(tt, fs, n, n, a);
    ss, es := StoreAt(tt, fs, leaf, k);
    LongerKeeps(tt, ss);
    assert es[..|ss| - 1] == es;
    var _ := CopyLeads(ss, es, i, n + 1, a);
    var _ := CopyLeads(ss, es, n, n + 1, a);
  }

  lemma LongerKeeps(tt: seq<State>, ss: seq<State>)
    requires Longer(tt, ss)
    ensures |tt| <= |ss| && forall n :: 0 <= n < |tt| ==> ss[n] == tt[n]
  {
    forall n | 0 <= n < |tt| ensures ss[n] == tt[n] {
      assert ss[..|tt|][n] == tt[n];
    }
  }

  lemma CopyLeads(ss: seq<State>, es: seq<Event>, i: nat, j: nat, a: GlobalAddress) returns (leaf: GlobalAddress)
    requires Run(ss, es) && i <= j < |ss| && a in ss[i].pages && ss[i].pages[a].level == 1
    ensures Leads(ss[j], ss[i].pages[a], ss[i].pages[a].lowest) && LeafFor(ss[j], leaf, ss[i].pages[a].lowest)
  {
    hide Run, PastPage, Leads, LeafFor;
    ImageShape(ss, es, i, a);
    CopyIsPast(ss, j, i, a);
    PastImage(ss, es, j, ss[i].pages[a]);
    RunInv(ss, es, j);
    LowestLeads(ss[j], ss[i].pages[a]);
    leaf := RoutedLeaf(ss[j], ss[i].pages[a], ss[i].pages[a].lowest);
  }

  lemma RoutedLeaf(s: State, p: Page, k: Key) returns (leaf: GlobalAddress)
    requires Leads(s, p, k)
    ensures LeafFor(s, leaf, k)
  {
    leaf := Route(p, k);
  }

  /**
    Both failures happen: there are runs of a tree of root level 3 and of caches beside it after which
    every range query that includes some bound key misses it, or returns it twice.
  */
  lemma QueryCanFail(all: nat)
      returns (ss: seq<State>, es: seq<Event>, cs: seq<CacheState>, cvs: seq<CacheEvent>, k: Key,
               tt: seq<State>, fs: seq<Event>, ds: seq<CacheState>, dvs: seq<CacheEvent>, l: Key)
    ensures Run(ss, es) && CacheRun(ss, |ss| - 1, all, cs, cvs) && CachedLate(ss, cvs) && k in Replay(es[..|ss| - 1])
    ensures |cs| == 2 && Hits(cs[1], k) && CoveredLive(cs[1], k) && Returned(cs[1], End(ss), k, 0)
    ensures Run(tt, fs) && CacheRun(tt, |tt| - 1, all, ds, dvs) && CachedLate(tt, dvs) && l in Replay(fs[..|tt| - 1])
    ensures |ds| == 3 && Returned(ds[2], End(tt), l, 2)
  {
    hide Moves, Initial, Replay, Leads, Returned, Hits, CoveredLive, CacheMoves;
    var i, n, a;
    ss, es, i, a, k := StaleRun();
    cs, cvs := StaleMiss(ss, es, |ss| - 1, i, a, all, k);
    tt, fs, i, n, a, l := TwiceRun();
    FormerRoot(tt, fs, i, n);
    ds, dvs := DuplicateRead(tt, fs, |tt| - 1, i, n, a, all, l);
  }
}
