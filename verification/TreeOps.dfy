/**
  The tree as one client drives it while no other one runs: descent with a path stack, leaf and
  internal stores with splits that climb the stack, root growth, deletion, and lookups through the
  index cache (src/Tree.cpp:84-149, 323-459, 542-1057). Each page write is one step of `Steps`.
*/
module TreeOps {
  import opened Layout
  import opened LeafPages
  import opened InternalPages
  import opened BLink
  import opened Steps
  import opened Levels
  import opened TreeState
  import opened CacheOrder
  import opened IndexCaches
  import opened RangeQueries
  import opened CacheUse
  import RootPublish
  import opened Runs

  /** What one page read tells a descent (SearchResult in include/Tree.h:32-38). */
  datatype SearchResult = SearchResult(isLeaf: bool, level: nat, sibling: GlobalAddress, nextLevel: GlobalAddress, val: Value)

  /** The addresses the allocator has not handed out yet are distinct, unused and not null. */
  ghost predicate SupplyOk(supply: seq<GlobalAddress>, used: nat, pages: map<GlobalAddress, Page>) {
    && |pages| <= used <= |supply| <= MAX_PAGES
    && (forall i :: used <= i < |supply| ==> supply[i] != NULL && supply[i] !in pages)
    && (forall i, j :: 0 <= i < j < |supply| ==> supply[i] != supply[j])
  }

  /** What is left of the work of an insertion below the root never needs more pages than this. */
  const PAGES_PER_INSERT: nat := MAX_LEVEL_OF_TREE + 1

  class Tree {
    /** The addresses DSM::alloc returns, in order. */
    const supply: seq<GlobalAddress>
    const cache: IndexCache
    const pathStack: array<GlobalAddress>
    var used: nat
    var mem: map<GlobalAddress, Page>
    var rootWord: GlobalAddress
    var gRoot: GlobalAddress
    var gLevel: int
    var enableCache: bool
    /** The client is inside a critical section. */
    var locked: bool
    /** The memory has run out, or an assertion does not hold: the program has stopped. */
    var stopped: bool
    /** The announcements of new roots so far; each may reach this node late, more than once, or never. */
    var announced: set<RootPublish.Message>
    ghost var pending: set<Separator>
    ghost var contents: map<Key, Value>

    ghost function St(): State
      reads this
    {
      State(mem, rootWord, pending)
    }

    ghost function Top(): nat
      reads this
    {
      if rootWord in mem then mem[rootWord].level else 0
    }

    /** The node's copy of the root is unset or a root of now or before, as are the roots announced. */
    ghost predicate RootView(s: State)
      reads this`gRoot, this`gLevel, this`enableCache, this`announced
    {
      && (if gRoot == NULL then gLevel == -1 else 1 <= gLevel && RootPublish.RootAt(s, gRoot, gLevel))
      && enableCache == (RootPublish.CACHE_LEVEL <= gLevel)
      && forall m :: m in announced ==> 1 <= m.level && RootPublish.RootAt(s, m.addr, m.level)
    }

    lemma RootViewKept(s: State, t: State)
      requires RootView(s) && Stable(s, t)
      ensures RootView(t)
    {
    }

    /** The node knows a root, and it is not the root any more. */
    predicate StaleView()
      reads this
    {
      gRoot != NULL && gRoot != rootWord
    }

    /** A page an operation may have captured as the root: it starts at the least key. */
    ghost predicate Captured(root: GlobalAddress)
      reads this
    {
      root in mem && mem[root].lowest == KEY_MIN
    }

    ghost function LevelOf(a: GlobalAddress): nat
      reads this
    {
      if a in mem then mem[a].level else 0
    }

    /** The only separator on its way up is one for which the captured root is too low. */
    ghost predicate Stranded(level: nat)
      reads this
    {
      exists z :: pending == {z} && z.level == level + 1
    }

    /** Nothing is cached before the node has heard of a root of level 3. */
    ghost predicate CacheOff()
      reads this, cache
    {
      !enableCache ==> LivePages(cache.Value()) == {}
    }

    /** Holds between the page writes of an operation. */
    ghost predicate Consistent()
      reads this, cache
    {
      && Good(St(), contents, LivePages(cache.Value())) && CacheOff()
      && SupplyOk(supply, used, mem)
      && RootView(St())
      && cache.Valid()
      && pathStack.Length == MAX_LEVEL_OF_TREE
    }

    /** Holds between operations: no lock is held and every separator has reached its parent. */
    ghost predicate Valid()
      reads this, cache
    {
      Consistent() && pending == {} && !locked && !stopped
    }

    /** Every level has its place on the path stack. */
    lemma TopFits()
      requires Consistent()
      ensures rootWord in mem && Top() < MAX_LEVEL_OF_TREE && rootWord != NULL && mem[rootWord].lowest == KEY_MIN && NULL !in mem
      ensures forall a :: a in mem ==> mem[a].level <= Top()
    {
      HeightBound(St());
    }

    /** While nothing waits above the root, any other captured root is lower. */
    lemma CapturedLower(root: GlobalAddress)
      requires Consistent() && Captured(root) && forall x :: x in pending ==> x.level <= Top()
      ensures root == rootWord || LevelOf(root) < Top()
    {
      TopFits();
      if root != rootWord {
        RootAlone(St(), root);
      }
    }

    /** The first client installs an empty leaf as the root. */
    constructor (supply: seq<GlobalAddress>, cachePages: nat)
      requires 0 < |supply| && SupplyOk(supply, 0, map[])
      ensures Valid() && contents == map[] && this.supply == supply && used == 1
      ensures fresh(cache) && fresh(pathStack)
    {
      this.supply := supply;
      cache := new IndexCache(cachePages);
      pathStack := new GlobalAddress[MAX_LEVEL_OF_TREE];
      used, mem, rootWord := 1, map[supply[0] := EMPTY_LEAF], supply[0];
      gRoot, gLevel, enableCache, locked, stopped := NULL, -1, false, false, false;
      pending, contents, announced := {}, map[], {};
      new;
      InitialInv(St());
    }

    // -------------------------------------------------------------- memory and locks

    /** get_root_ptr: the node's copy, or the root word itself before the first broadcast. */
    method GetRootPtr() returns (root: GlobalAddress)
      requires Consistent()
      ensures root == (if gRoot == NULL then rootWord else gRoot) && Captured(root) && (gRoot != NULL ==> LevelOf(root) == gLevel)
    {
      TopFits();
      if gRoot == NULL {
        root := rootWord;
      } else {
        root := gRoot;
      }
    }

    /** before_operation. */
    method BeforeOperation()
      modifies pathStack
      ensures forall j :: 0 <= j < pathStack.Length ==> pathStack[j] == NULL
    {
      var i := 0;
      while i < pathStack.Length
        invariant 0 <= i <= pathStack.Length
        invariant forall j :: 0 <= j < i ==> pathStack[j] == NULL
      {
        pathStack[i] := NULL;
        i := i + 1;
      }
    }

    method LockAndRead(a: GlobalAddress) returns (page: Page)
      requires !locked && a in mem
      modifies this`locked
      ensures locked && page == mem[a]
    {
      locked := true;
      page := mem[a];
    }

    method Unlock()
      requires locked
      modifies this`locked
      ensures !locked
    {
      locked := false;
    }

    method WritePageAndUnlock(a: GlobalAddress, page: Page)
      requires locked
      modifies this`locked, this`mem
      ensures !locked && mem == old(mem)[a := page]
    {
      mem := mem[a := page];
      locked := false;
    }

    method Alloc() returns (a: GlobalAddress)
      requires used < |supply|
      modifies this`used
      ensures used == old(used) + 1 && a == supply[old(used)]
    {
      a := supply[used];
      used := used + 1;
    }

    // -------------------------------------------------------------- one page read

    /** The leaf part of page_search. */
    static method ReadLeaf(page: Page, k: Key) returns (result: SearchResult)
      requires page.LeafPage? && page.lowest <= k
      ensures result.isLeaf && result.level == page.level
      ensures if page.highest <= k then result.sibling == page.sibling && result.val == VALUE_NULL
              else result.sibling == NULL && result.val == Lookup(page.entries, k)
    {
      result := SearchResult(true, page.level, NULL, NULL, VALUE_NULL);
      if page.highest <= k {
        return result.(sibling := page.sibling);
      }
      var records := new LeafEntry[|page.entries|](i requires 0 <= i < |page.entries| => page.entries[i]);
      assert records[..] == page.entries;
      var val := SearchSlots(records, k);
      result := result.(val := val);
    }

    /** The internal part of page_search. */
    static method ReadInternal(page: Page, k: Key) returns (result: SearchResult)
      requires page.InternalPage? && page.lowest <= k && 1 <= |page.records|
      ensures !result.isLeaf && result.level == page.level && result.val == VALUE_NULL
      ensures if page.highest <= k then result.sibling == page.sibling
              else result.sibling == NULL && result.nextLevel == Route(page, k)
    {
      result := SearchResult(false, page.level, NULL, NULL, VALUE_NULL);
      if page.highest <= k {
        return result.(sibling := page.sibling);
      }
      var records := new InternalEntry[|page.records|](i requires 0 <= i < |page.records| => page.records[i]);
      assert records[..|page.records|] == page.records;
      var next := SearchRecords(page.leftmost, records, |page.records|, k);
      result := result.(nextLevel := next);
    }

    /** Level-1 pages read on the way down are copied into the cache. */
    method CachePage(a: GlobalAddress, draws: seq<Key>)
      requires Consistent() && enableCache && a in mem && mem[a].level == 1
      modifies cache
      ensures Consistent() && Added(old(cache.Value()), mem[a], draws, cache.Value())
    {
      ghost var images := LivePages(cache.Value());
      GoodImage(St(), contents, images, a);
      var _, _ := cache.AddToCache(mem[a], draws);
      FewerImages(St(), contents, LivePages(cache.Value()), images + {mem[a]});
    }

    /** search_from_cache: a hit leads to a leaf that does not start after the key. */
    method LookInCache(k: Key, isLeader: bool, aged: bool) returns (hit: bool, entry: nat, addr: GlobalAddress)
      requires Consistent()
      modifies cache
      ensures Consistent() && hit == Hits(old(cache.Value()), k) && PointersOk(old(cache.Value()))
      ensures cache.Value() == LookedUp(old(cache.Value()), k, isLeader && aged)
      ensures hit ==> entry == FindKey(old(cache.list), k) < |cache.list|
      ensures hit ==> At(St(), addr, k) && mem[addr].LeafPage? && mem[addr].level == 0 && k < KEY_MAX
      ensures hit ==> HitPage(old(cache.Value()), k).InternalPage? && addr == Route(HitPage(old(cache.Value()), k), k)
    {
      ghost var images := LivePages(cache.Value());
      PointersKnown(cache.Value(), cache.allPageCnt);
      hit, entry, addr := cache.SearchFromCache(k, isLeader, aged);
      FewerImages(St(), contents, LivePages(cache.Value()), images);
      if hit {
        ImageLeads(St(), cache.images[cache.list[entry].ptr].page, k);
      }
    }

    /** The entry that led to a leaf not covering the key is invalidated. */
    method DropStale(entry: nat) returns (done: bool)
      requires Consistent() && entry < |cache.list|
      modifies cache
      ensures Consistent() && cache.Value() == Drop(old(cache.Value()), entry) && done == Alive(old(cache.list)[entry])
      ensures cache.list == old(cache.list)[entry := old(cache.list)[entry].(ptr := 0)] && cache.images == old(cache.images)
    {
      ghost var images := LivePages(cache.Value());
      done := cache.Invalidate(entry);
      FewerImages(St(), contents, LivePages(cache.Value()), images);
    }

    /**
      page_search: read a page, note it on the path stack, cache it if it is of level 1, and say where
      the search goes. It fails only on a leaf reached through the cache that no longer covers the key.
    */
    method PageSearch(a: GlobalAddress, k: Key, fromCache: bool, draws: seq<Key>) returns (ok: bool, result: SearchResult)
      requires Consistent() && At(St(), a, k) && k < KEY_MAX
      requires fromCache ==> mem[a].LeafPage?
      modifies pathStack, cache
      ensures Consistent() && mem[a].level < pathStack.Length
      ensures pathStack[..] == old(pathStack[..])[mem[a].level := a]
      ensures ok == !(fromCache && mem[a].highest <= k)
      ensures Noted(old(cache.Value()), St(), a, enableCache, draws, cache.Value())
      ensures ok ==> result.isLeaf == mem[a].LeafPage? && result.level == mem[a].level
      ensures ok ==> match ReadStep(St(), a, k)
                     case Done(v) => result.sibling == NULL && result.val == v
                     case Move(to) => result.val == VALUE_NULL && to == (if result.sibling != NULL then result.sibling else result.nextLevel)
      ensures ok ==> (result.sibling != NULL <==> mem[a].highest <= k)
    {
      TopFits();
      hide Good, ReadStep, SupplyOk, LivePages, CacheOk;
      pathStack[mem[a].level] := a;
      ok, result := ReadPage(a, k, fromCache, draws);
    }

    /** The rest of page_search. */
    method ReadPage(a: GlobalAddress, k: Key, fromCache: bool, draws: seq<Key>) returns (ok: bool, result: SearchResult)
      requires Consistent() && At(St(), a, k) && k < KEY_MAX
      requires fromCache ==> mem[a].LeafPage?
      modifies cache
      ensures Consistent() && ok == !(fromCache && mem[a].highest <= k)
      ensures Noted(old(cache.Value()), St(), a, enableCache, draws, cache.Value())
      ensures ok ==> result.isLeaf == mem[a].LeafPage? && result.level == mem[a].level
      ensures ok ==> match ReadStep(St(), a, k)
                     case Done(v) => result.sibling == NULL && result.val == v
                     case Move(to) => result.val == VALUE_NULL && to == (if result.sibling != NULL then result.sibling else result.nextLevel)
      ensures ok ==> (result.sibling != NULL <==> mem[a].highest <= k)
    {
      hide Inv, ReadStep, SupplyOk, LivePages, CacheOk, Represents, ImagesOk, Lookup, Route;
      PageFacts(St(), a, k);
      ReadFacts(St(), a, k);
      hide Good;
      var page := mem[a];
      ok := true;
      if page.LeafPage? {
        assert page.level == 0;
        if fromCache && (k < page.lowest || page.highest <= k) {
          return false, SearchResult(true, 0, NULL, NULL, VALUE_NULL);
        }
        result := ReadLeaf(page, k);
      } else {
        assert page.level != 0;
        if page.level == 1 && enableCache {
          CachePage(a, draws);
        }
        result := ReadInternal(page, k);
      }
    }

    // -------------------------------------------------------------- descent

    /** The position of a descent from `root`: a valid start whose ancestors are on the stack, and nothing above them. */
    ghost predicate Descending(p: GlobalAddress, k: Key, root: GlobalAddress)
      reads this, pathStack
    {
      && At(St(), p, k) && mem[p].level <= LevelOf(root)
      && PathOk(mem, pathStack[..], mem[p].level, LevelOf(root), mem[p].lowest) && Blank(pathStack[..], LevelOf(root))
    }

    /** After reading `p` the next position is closer, and `p` is on the stack above it. */
    lemma NextPosition(p: GlobalAddress, k: Key, path: seq<GlobalAddress>, top: nat)
      requires Consistent() && At(St(), p, k) && k < KEY_MAX && mem[p].level <= top
      requires PathOk(mem, path, mem[p].level, top, mem[p].lowest)
      requires ReadStep(St(), p, k).Move?
      ensures var to := ReadStep(St(), p, k).to;
              && At(St(), to, k) && mem[p].lowest <= mem[to].lowest && mem[to].level <= top
              && PathOk(mem, path[mem[p].level := p], mem[to].level, top, mem[to].lowest)
              && (if mem[p].highest <= k then mem[to].level == mem[p].level && mem[p].lowest < mem[to].lowest
                  else mem[to].level + 1 == mem[p].level)
    {
      hide Good;
      MoveFacts(St(), contents, LivePages(cache.Value()), p, k);
      PathPush(mem, path, mem[p].level, top, p);
      if mem[p].highest <= k {
        PathFurther(mem, path[mem[p].level := p], mem[p].level, top, mem[p].lowest, mem[mem[p].sibling].lowest);
      } else {
        PathFurther(mem, path[mem[p].level := p], mem[p].level - 1, top, mem[p].lowest, mem[Route(mem[p], k)].lowest);
      }
    }

    /**
      The descent loop shared by insert, del and insert_internal: from the captured root down to the page of
      `level` to start from, the ancestors on the path stack. A root that is a leaf is returned as is.
    */
    method FindPage(k: Key, level: nat, root: GlobalAddress, draws: seq<Key>) returns (p: GlobalAddress)
      requires Consistent() && k < KEY_MAX && Captured(root) && PathClear() && (level == 0 || level < LevelOf(root))
      modifies pathStack, cache
      ensures Consistent() && Descending(p, k, root) && mem[p].level == level
      ensures !enableCache || 1 <= level ==> cache.Value() == old(cache.Value())
      ensures enableCache && pending == {} && level == 0 && 2 <= LevelOf(root) ==>
                CachedOver(old(cache.Value()), St(), k, draws, cache.Value())
    {
      hide Inv, Good, SupplyOk, RootView, PathOk, Blank, Passing, Noted, Added, CacheOk, LivePages, CachedOver, ReadStep;
      TopFits();
      GoodParts(St(), contents, LivePages(cache.Value()));
      p := root;
      ghost var c := cache.Value();
      ghost var on := enableCache && pending == {} && level == 0 && 2 <= LevelOf(root);
      StartsAbove(c, St(), k, draws, root);
      PathStart(mem, pathStack[..], LevelOf(root), KEY_MIN);
      while true
        invariant Consistent() && Descending(p, k, root)
        invariant level < mem[p].level || (p == root && mem[p].level == 0)
        invariant !enableCache || 1 <= level ==> cache.Value() == c
        invariant on ==> mem[p].level != 0 && Passing(c, St(), k, draws, p, cache.Value())
        decreases mem[p].level, KEY_MAX - mem[p].lowest
      {
        ghost var path := pathStack[..];
        ghost var d := cache.Value();
        NextOrLeaf(p, k, path, LevelOf(root));
        BlankKept(path, mem[p].level, p, LevelOf(root));
        var ok, result := PageSearch(p, k, false, draws);
        NotedOnly(d, St(), p, enableCache, draws, cache.Value());
        if result.isLeaf {
          return;
        }
        if on {
          PassingStep(c, St(), k, draws, p, d, cache.Value());
          PassedBy(c, St(), k, draws, ReadStep(St(), p, k).to, cache.Value());
        }
        assert result.level != 0;
        if result.sibling != NULL {
          p := result.sibling;
        } else {
          p := result.nextLevel;
          if result.level == level + 1 {
            return;
          }
        }
      }
    }

    lemma NextOrLeaf(p: GlobalAddress, k: Key, path: seq<GlobalAddress>, top: nat)
      requires Consistent() && At(St(), p, k) && k < KEY_MAX && mem[p].level <= top
      requires PathOk(mem, path, mem[p].level, top, mem[p].lowest)
      ensures mem[p].LeafPage? <==> mem[p].level == 0
      ensures mem[p].LeafPage? && mem[p].level == 0 ==> PathOk(mem, path[0 := p], 0, top, mem[p].lowest)
      ensures mem[p].InternalPage? ==> ReadStep(St(), p, k).Move?
      ensures ReadStep(St(), p, k).Move? ==>
                var to := ReadStep(St(), p, k).to;
                && to != NULL && At(St(), to, k) && mem[p].lowest <= mem[to].lowest <= KEY_MAX && mem[to].level <= top
                && PathOk(mem, path[mem[p].level := p], mem[to].level, top, mem[to].lowest)
                && (if mem[p].highest <= k then mem[to].level == mem[p].level && mem[p].lowest < mem[to].lowest
                    else mem[to].level + 1 == mem[p].level)
    {
      PageFacts(St(), p, k);
      PathPush(mem, path, mem[p].level, top, p);
      if ReadStep(St(), p, k).Move? {
        NextPosition(p, k, path, top);
      }
    }

    // -------------------------------------------------------------- search

    /**
      search: through the cache when it is enabled and hits, else from the root. It leaves the cache as
      `Consulted` says: so with the cache on and a free page a live image covers the key afterwards, and
      if the live images were all current, a range query of the key alone is exact.
    */
    method Search(k: Key, isLeader: bool, aged: bool, draws: seq<Key>) returns (found: bool, v: Value)
      requires Valid() && k < KEY_MAX
      modifies pathStack, cache
      ensures Valid()
      ensures found == (k in contents) && (found ==> v == contents[k])
      ensures Consulted(old(cache.Value()), St(), enableCache, k, isLeader && aged, draws, cache.Value())
      ensures enableCache && 0 < old(cache.freePageCnt) ==> CoveredLive(cache.Value(), k)
      ensures enableCache && 0 < old(cache.freePageCnt) && LiveCurrent(old(cache.Value()), St()) ==>
                Exactly(Queried(cache.Value(), St(), k, k), contents, k, k)
    {
      hide Inv, Represents, ImagesOk, SupplyOk, LivePages, Consulted, CoveredLive, LiveCurrent, Exactly, Queried, RootView;
      ghost var c := cache.Value();
      found, v := SearchLoop(k, isLeader, aged, draws);
      if enableCache && 0 < c.freePages {
        OperationCaches(c, St(), k, isLeader && aged, draws, cache.Value(), cache.allPageCnt);
        if LiveCurrent(c, St()) {
          ReturnedAfter(c, St(), contents, k, isLeader && aged, draws, cache.Value(), cache.allPageCnt);
        }
      }
    }

    /** The body of search. */
    method SearchLoop(k: Key, isLeader: bool, aged: bool, draws: seq<Key>) returns (found: bool, v: Value)
      requires Valid() && k < KEY_MAX
      modifies pathStack, cache
      ensures Valid()
      ensures found == (k in contents) && (found ==> v == contents[k])
      ensures Consulted(old(cache.Value()), St(), enableCache, k, isLeader && aged, draws, cache.Value())
    {
      hide Inv, Good, SupplyOk, LivePages, ReadStep, CacheOk, Searching, Noted, Added, Consulted, LookedUp, PointersOk, HitPage, Route, Hits;
      TopFits();
      ghost var c, free := cache.Value(), isLeader && aged;
      GoodParts(St(), contents, LivePages(c));
      var root := GetRootPtr();
      CachingRoot(root);
      var p := root;
      var fromCache := false;
      var entry := 0;
      if enableCache {
        var hit, e, addr := LookInCache(k, isLeader, aged);
        if hit {
          fromCache, p, entry := true, addr, e;
        }
        SearchingStarts(c, St(), k, free, draws, p, cache.allPageCnt);
      }
      while true
        invariant Consistent() && At(St(), p, k) && Captured(root)
        invariant fromCache ==> mem[p].LeafPage? && mem[p].level == 0 && entry < |cache.list| && enableCache && entry == FindKey(c.list, k)
        invariant if enableCache then Searching(c, St(), k, free, draws, p, fromCache, cache.Value()) else cache.Value() == c
        decreases fromCache, mem[p].level, KEY_MAX - mem[p].lowest
      {
        SearchFacts(St(), contents, LivePages(cache.Value()), p, k);
        ghost var d := cache.Value();
        var ok, result := PageSearch(p, k, fromCache, draws);
        NotedOnly(d, St(), p, enableCache, draws, cache.Value());
        if !ok {
          SearchingAgain(c, St(), k, free, draws, p, d, root, cache.allPageCnt);
          var _ := DropStale(entry);
          fromCache, p := false, root;
        } else if result.isLeaf {
          if enableCache {
            SearchingEnds(c, St(), k, free, draws, p, fromCache, d, cache.allPageCnt);
          } else {
            CacheUnused(c, St(), k, free, draws);
          }
          if result.val != VALUE_NULL {
            return true, result.val;
          }
          if result.sibling == NULL {
            return false, VALUE_NULL;
          }
          fromCache, p := false, result.sibling;
        } else {
          if enableCache {
            SearchingMoves(c, St(), k, free, draws, p, d, cache.Value());
          }
          p := if result.sibling != NULL then result.sibling else result.nextLevel;
        }
      }
    }

    /** With the cache on the node knows a root of level 3 or higher. */
    lemma CachingRoot(root: GlobalAddress)
      requires Consistent() && root == (if gRoot == NULL then rootWord else gRoot)
      ensures enableCache ==> root == gRoot && root in mem && 3 <= mem[root].level
    {
    }

    /**
      range_query. It only sees leaves under cached level-1 pages, as they were when they were read. With
      any cache the values returned are of keys in the range, and they are the values of all keys of the
      range, each once, if and only if every one of these keys is served by exactly one live entry: the
      search gets to the entry, and the leaf its image routes the key to has not split past the key. With
      live images that are all current, however few, it is enough that they cover these keys. Until the
      node has heard of a root of level 3 nothing is cached and nothing is returned.
    */
    method RangeQuery(from: Key, to: Key) returns (values: seq<Value>)
      requires Valid()
      ensures values == Values(Queried(cache.Value(), St(), from, to))
      ensures forall k: Key, v: Value :: LeafEntry(k, v) in Queried(cache.Value(), St(), from, to) ==>
                from <= k <= to && k in contents && contents[k] == v
      ensures Exactly(Queried(cache.Value(), St(), from, to), contents, from, to)
              <==> forall k :: k in contents && from <= k <= to ==> ServedOnce(cache.Value(), St(), k, to)
      ensures LiveCurrent(cache.Value(), St()) ==>
                (Exactly(Queried(cache.Value(), St(), from, to), contents, from, to)
                 <==> forall k :: k in contents && from <= k <= to ==> CoveredLive(cache.Value(), k))
      ensures gLevel < RootPublish.CACHE_LEVEL ==> values == []
    {
      hide Inv, Represents, Exactly, ServedOnce, LiveCurrent, CoveredLive, Scan, Leaves, RangeScan, ImagesOk, SupplyOk, PointersOk, AllFiled, LivePages;
      ghost var c := cache.Value();
      QueryFacts(c, cache.allPageCnt, St(), contents, from, to);
      var result := cache.SearchRange(from, to);
      var pages := Images(cache.Value(), result);
      if |result| == 0 {
        return [];
      }
      var leaves := Collect(pages, from, to);
      values := ReadLeaves(mem, leaves, from, to);
    }

    // -------------------------------------------------------------- stores

    /** Separator `z` is the only one on its way to its parent, and no lock is held. */
    ghost predicate Climbing(z: Separator)
      reads this, cache
    {
      Consistent() && !locked && !stopped && pending == {z}
    }

    /** The page writes of step `e` have been made: the tree takes that step. */
    ghost method Took(e: Event, s: State)
      requires Good(s, contents, LivePages(cache.Value())) && Enabled(s, e)
      requires mem == Next(s, e).pages && rootWord == Next(s, e).root
      requires SupplyOk(supply, used, mem) && RootView(s) && CacheOff() && cache.Valid() && pathStack.Length == MAX_LEVEL_OF_TREE
      modifies this`pending, this`contents
      ensures Consistent() && St() == Next(s, e) && contents == Abstract(e, old(contents)) && Stable(s, St())
    {
      hide Good, Next, Enabled, LivePages, SupplyOk, CacheOk, Stable, Abstract;
      GoodStep(s, e, contents, LivePages(cache.Value()));
      RootViewKept(s, Next(s, e));
      pending := Next(s, e).pending;
      contents := Abstract(e, contents);
    }

    /**
      update_new_root: write a page over the two halves of the old root, swap the root word if it still
      holds the old root, and broadcast. A page whose swap failed is lost: no pointer leads to it.
    */
    method UpdateNewRoot(z: Separator, oldRoot: GlobalAddress) returns (done: bool)
      requires Climbing(z) && z.left == oldRoot
      modifies this
      ensures contents == old(contents) && stopped == (old(used) == |supply|)
      ensures stopped ==> Consistent()
      ensures !stopped ==> done == (oldRoot == old(rootWord)) && used == old(used) + 1
      ensures !stopped && done ==> Valid() && announced == old(announced) + {RootPublish.NewRoot(rootWord, z.level)}
      ensures !stopped && !done ==> Climbing(z) && mem == old(mem) && rootWord == old(rootWord)
    {
      hide Good, SupplyOk, RootView, LivePages, CacheOk, Next, Enabled;
      SupplyLength(supply, used, mem);
      if used == |supply| {
        stopped := true;
        return false;
      }
      ghost var s := St();
      var n := Alloc();
      var page := InternalPage(z.level, KEY_MIN, KEY_MAX, NULL, z.left, [InternalEntry(z.key, z.child)]);
      SupplyTaken(supply, old(used), mem, page);
      mem := mem[n := page];
      if rootWord == oldRoot {
        InstallRoot(z, n, s);
        done := true;
      } else {
        SupplyLost(supply, old(used), old(mem));
        mem := mem - {n};
        assert mem == old(mem);
        done := false;
      }
    }

    /** The swap of the root word and the broadcast. */
    method InstallRoot(z: Separator, n: GlobalAddress, ghost s: State)
      requires Good(s, contents, LivePages(cache.Value())) && s == State(s.pages, rootWord, {z}) && pending == {z} && z.left == rootWord
      requires Unused(s, n) && mem == s.pages[n := RootPage(z)] && SupplyOk(supply, used, mem)
      requires RootView(s) && CacheOff() && cache.Valid() && pathStack.Length == MAX_LEVEL_OF_TREE && !locked && !stopped
      modifies this`rootWord, this`announced, this`pending, this`contents
      ensures Valid() && contents == old(contents) && rootWord == n
      ensures announced == old(announced) + {RootPublish.NewRoot(n, z.level)}
    {
      hide Good, SupplyOk, LivePages, CacheOk, Next, Enabled, Stable;
      GrowFacts(s, contents, LivePages(cache.Value()), z, n);
      SeparatorFacts(s, contents, LivePages(cache.Value()), z);
      rootWord := n;
      Took(Grow(z, n), s);
      announced := announced + {RootPublish.NewRoot(n, z.level)};
    }

    ghost function View(): RootPublish.View
      reads this
    {
      RootPublish.View(gRoot, gLevel, enableCache)
    }

    /** The NEW_ROOT case of process_message: the step Receive of the nodes' views, which never go back a level. */
    method NewRootMessage(a: GlobalAddress, level: nat)
      modifies this`gRoot, this`gLevel, this`enableCache
      ensures View() == RootPublish.Process(old(View()), RootPublish.NewRoot(a, level))
      ensures old(gLevel) <= gLevel && level <= gLevel && (gRoot != old(gRoot) ==> old(gLevel) < gLevel)
    {
      if gLevel < level {
        gRoot := a;
        gLevel := level;
        if 3 <= gLevel {
          enableCache := true;
        }
      }
    }

    /** An announcement reaches the node. */
    method ReceiveNewRoot(m: RootPublish.Message)
      requires Valid() && m in announced
      modifies this`gRoot, this`gLevel, this`enableCache
      ensures Valid() && View() == RootPublish.Process(old(View()), m)
    {
      NewRootMessage(m.addr, m.level);
    }

    /** The page buffer after the shift and, when it is full, its two halves. */
    static method SplitRecords(page: Page, buf: array<InternalEntry>, sib: GlobalAddress)
        returns (left: Page, right: Page, splitKey: Key)
      requires page.InternalPage? && buf.Length == INTERNAL_CARDINALITY
      requires RecordsOk(buf[..], page.lowest, page.highest)
      ensures var full := page.(records := buf[..]);
              PageFull(full) && left == LeftPage(full, sib) && right == RightPage(full) && splitKey == SplitKey(full)
    {
      var m := INTERNAL_CARDINALITY / 2;
      splitKey := buf[m].key;
      assert splitKey > page.lowest;
      assert splitKey < page.highest;
      var sibBuf := new InternalEntry[INTERNAL_CARDINALITY](i => InternalEntry(0, NULL));
      MoveUpperRecords(buf, sibBuf);
      right := InternalPage(page.level, splitKey, page.highest, page.sibling, buf[m].ptr, sibBuf[..INTERNAL_CARDINALITY - m - 1]);
      left := InternalPage(page.level, page.lowest, splitKey, sib, page.leftmost, buf[..m]);
    }

    /** The page buffer with the separator shifted in. */
    static method ShiftedBuffer(page: Page, z: Separator) returns (buf: array<InternalEntry>, cnt: nat)
      requires page.InternalPage? && Sorted(page.records) && |page.records| < INTERNAL_CARDINALITY
      ensures fresh(buf) && buf.Length == INTERNAL_CARDINALITY && cnt <= buf.Length
      ensures buf[..cnt] == InsertRecord(page.records, z.key, z.child)
    {
      cnt := |page.records|;
      buf := new InternalEntry[INTERNAL_CARDINALITY](i requires 0 <= i => if i < |page.records| then page.records[i] else InternalEntry(0, NULL));
      assert buf[..cnt] == page.records;
      assert cnt != INTERNAL_CARDINALITY;
      cnt := ShiftInsert(buf, cnt, z.key, z.child);
    }

    /** The new record fits: write the page back under the same lock. */
    method InsertInPlace(a: GlobalAddress, z: Separator, page: Page)
      requires Consistent() && locked && pending == {z} && a in mem && mem[a].InternalPage? && page.InternalPage?
      requires Enabled(St(), Event.Insert(a, z)) && page == mem[a].(records := InsertRecord(mem[a].records, z.key, z.child))
      modifies this
      ensures Consistent() && !locked && pending == {} && Stable(old(St()), St())
      ensures contents == old(contents) && rootWord == old(rootWord) && used == old(used) && stopped == old(stopped)
    {
      hide Good, SupplyOk, InsertRecord, LivePages, CacheOk, Stable;
      ghost var s := St();
      SupplyKept(supply, used, mem, a, page);
      WritePageAndUnlock(a, page);
      Took(Event.Insert(a, z), s);
    }

    /** The page is full with the new record: write the new sibling, then the page that links to it. */
    method InsertAndSplit(a: GlobalAddress, z: Separator, page: Page, buf: array<InternalEntry>) returns (up: Separator)
      requires Consistent() && locked && pending == {z} && used < |supply| && a in mem && page == mem[a] && page.InternalPage?
      requires Enabled(St(), InsertSplit(a, z, supply[used]))
      requires buf.Length == INTERNAL_CARDINALITY && buf[..] == InsertRecord(page.records, z.key, z.child)
      requires RecordsOk(buf[..], page.lowest, page.highest)
      modifies this
      ensures Consistent() && !locked && pending == {up} && Stable(old(St()), St())
      ensures contents == old(contents) && rootWord == old(rootWord) && used == old(used) + 1 && stopped == old(stopped)
      ensures up.level == page.level + 1 && up.left == a && page.lowest < up.key
    {
      hide Good, SupplyOk, RootView, InsertRecord, LivePages, CacheOk, Stable, Next, RecordsOk, PageFull, RightPage, SplitKey, ParentFor, Enabled, Full;
      ghost var s := St();
      var sib := Alloc();
      InsertSplitPages(s, a, z, sib);
      var left, right, splitKey := SplitRecords(page, buf, sib);
      SupplyTaken(supply, old(used), mem, right);
      mem := mem[sib := right];
      SupplyKept(supply, used, mem, a, left);
      WritePageAndUnlock(a, left);
      Took(InsertSplit(a, z, sib), s);
      up := Separator(splitKey, sib, page.level + 1, a);
    }

    /** The locked part of internal_page_store. */
    method InsertLocked(a: GlobalAddress, z: Separator, page: Page) returns (needSplit: bool, up: Separator)
      requires Consistent() && locked && !stopped && pending == {z}
      requires ParentFor(St(), a, z) && page == mem[a]
      modifies this
      ensures Consistent() && contents == old(contents) && (stopped ==> old(used) == |supply|)
      ensures !stopped ==> !locked && Stable(old(St()), St()) && rootWord == old(rootWord)
      ensures !stopped ==> pending == if needSplit then {up} else {}
      ensures !stopped && needSplit ==> up.level == z.level + 1 && up.left == a && page.lowest < up.key
      ensures !stopped ==> used == old(used) + (if needSplit then 1 else 0)
    {
      hide Good, SupplyOk, InsertRecord, LivePages, CacheOk, RecordsOk, PageFull, Next;
      InsertFacts(St(), contents, LivePages(cache.Value()), a, z);
      SupplyLength(supply, used, mem);
      TopFits();
      var buf, cnt := ShiftedBuffer(page, z);
      needSplit := cnt == INTERNAL_CARDINALITY;
      if needSplit {
        if used == |supply| {
          stopped, up := true, z;
          return;
        }
        NextUnused(supply, used, mem);
        assert buf[..cnt] == buf[..];
        up := InsertAndSplit(a, z, page, buf);
      } else {
        InsertInPlace(a, z, page.(records := buf[..cnt]));
        up := z;
      }
    }

    /**
      internal_page_store: insert the separator under the lock of the page that covers it, moving
      right first if needed; a full page splits and its own separator goes on climbing. When it gets
      above a captured root that is not the root any more, no page is noted there and an assertion fails.
    */
    method InternalPageStore(a: GlobalAddress, z: Separator, root: GlobalAddress)
      requires Climbing(z) && Captured(root) && At(St(), a, z.key) && mem[a].level == z.level <= LevelOf(root)
      requires PathOk(mem, pathStack[..], z.level, LevelOf(root), mem[a].lowest) && Blank(pathStack[..], LevelOf(root))
      modifies this
      ensures contents == old(contents)
      ensures !stopped ==> Valid() && used <= old(used) + old(LevelOf(root)) - z.level + 2
      ensures stopped ==> Consistent()
      ensures stopped ==> |supply| < old(used) + old(LevelOf(root)) - z.level + 2
                          || (root != old(rootWord) && Stranded(old(LevelOf(root))))
      decreases LevelOf(root) - z.level, KEY_MAX - mem[a].lowest
    {
      hide Good, PathOk, SupplyOk, RootView, LivePages, CacheOk;
      ghost var s := St();
      InsertFacts(s, contents, LivePages(cache.Value()), a, z);
      TopFits();
      CapturedLower(root);
      var page := LockAndRead(a);
      assert page.level == z.level;
      if page.highest <= z.key {
        Unlock();
        assert page.sibling != NULL;
        PathFurther(mem, pathStack[..], z.level, LevelOf(root), mem[a].lowest, mem[page.sibling].lowest);
        InternalPageStore(page.sibling, z, root);
        return;
      }
      assert z.key >= page.lowest;
      var needSplit, up := InsertLocked(a, z, page);
      if stopped || !needSplit {
        return;
      }
      PathKept(s, St(), pathStack[..], z.level, LevelOf(root), page.lowest);
      ClimbFurther(a, up, page.lowest, root);
    }

    /** The end of internal_page_store: the separator of the split goes to the root word or one level up. */
    method ClimbFurther(a: GlobalAddress, up: Separator, ghost lo: Key, root: GlobalAddress)
      requires Climbing(up) && up.left == a && LevelOf(a) + 1 == up.level <= LevelOf(root) + 1 && lo <= up.key && Captured(root)
      requires a == root == rootWord || up.level < pathStack.Length
      requires root == rootWord ==> a == root || up.level <= LevelOf(root)
      requires PathOk(mem, pathStack[..], up.level - 1, LevelOf(root), lo) && Blank(pathStack[..], LevelOf(root))
      modifies this
      ensures contents == old(contents)
      ensures !stopped ==> Valid() && used <= old(used) + old(LevelOf(root)) - up.level + 2
      ensures stopped ==> Consistent()
      ensures stopped ==> |supply| < old(used) + old(LevelOf(root)) - up.level + 2
                          || (root != old(rootWord) && Stranded(old(LevelOf(root))))
      decreases LevelOf(root) - up.level, KEY_MAX + 1
    {
      hide Good, PathOk, SupplyOk, RootView, LivePages, CacheOk;
      TopFits();
      if root == a {
        var done := UpdateNewRoot(up, root);
        if done || stopped {
          return;
        }
      }
      TopFits();
      if up.level <= LevelOf(root) {
        PathUp(mem, pathStack[..], up.level - 1, LevelOf(root), lo);
      }
      var upLevel := pathStack[up.level];
      if upLevel != NULL {
        InternalPageStore(upLevel, up, root);
      } else {
        stopped := true;
      }
    }

    /** insert_internal: find the parent of a leaf reached through the cache from the root. */
    method InsertInternal(z: Separator, draws: seq<Key>)
      requires Climbing(z) && gRoot != NULL && z.level < gLevel && PathClear()
      modifies this, pathStack, cache
      ensures contents == old(contents) && cache.Value() == old(cache.Value())
      ensures !stopped ==> Valid() && used <= old(used) + old(gLevel) - z.level + 2
      ensures stopped ==> Consistent()
      ensures stopped ==> |supply| < old(used) + old(gLevel) - z.level + 2 || (old(StaleView()) && Stranded(old(gLevel)))
    {
      hide Good, PathOk, SupplyOk, LivePages, CacheOk, RootView;
      SeparatorFacts(St(), contents, LivePages(cache.Value()), z);
      var root := GetRootPtr();
      var p := FindPage(z.key, z.level, root, draws);
      InternalPageStore(p, z, root);
    }

    /** The page buffer of a leaf. */
    static method LeafBuffer(page: Page) returns (buf: array<LeafEntry>)
      requires page.LeafPage?
      ensures fresh(buf) && buf[..] == page.entries
    {
      buf := new LeafEntry[|page.entries|](i requires 0 <= i < |page.entries| => page.entries[i]);
    }

    /** std::sort on the slots. */
    static method SortSlots(buf: array<LeafEntry>)
      modifies buf
      ensures buf[..] == SortByKey(old(buf[..]))
    {
      var sorted := SortByKey(buf[..]);
      var i := 0;
      while i < buf.Length
        invariant 0 <= i <= buf.Length
        invariant forall j :: 0 <= j < i ==> buf[j] == sorted[j]
      {
        buf[i] := sorted[i];
        i := i + 1;
      }
    }

    /** The full page buffer sorted and cut in two. */
    static method SplitSlots(page: Page, buf: array<LeafEntry>, sib: GlobalAddress)
        returns (left: Page, right: Page, splitKey: Key)
      requires page.LeafPage? && LeafOk(buf[..], page.lowest, page.highest) && Full(buf[..])
      modifies buf
      ensures var full := page.(entries := old(buf[..]));
              PageFull(full) && left == LeftPage(full, sib) && right == RightPage(full) && splitKey == SplitKey(full)
    {
      LeafSplitSpec(buf[..], page.lowest, page.highest);
      SortSlots(buf);
      var m := LEAF_CARDINALITY / 2;
      splitKey := buf[m].key;
      assert splitKey > page.lowest;
      assert splitKey < page.highest;
      var sibBuf := new LeafEntry[LEAF_CARDINALITY](i => EMPTY_ENTRY);
      assert sibBuf[..] == Empties(LEAF_CARDINALITY);
      MoveUpperHalf(buf, sibBuf);
      right := LeafPage(page.level, splitKey, page.highest, page.sibling, sibBuf[..]);
      left := LeafPage(page.level, page.lowest, splitKey, sib, buf[..]);
    }

    /** The slot stored on the page is written back under the same lock. */
    method StoreInPlace(a: GlobalAddress, k: Key, v: Value, page: Page)
      requires Consistent() && locked && !stopped && pending == {} && a in mem && mem[a].LeafPage?
      requires Enabled(St(), Store(a, k, v)) && page == mem[a].(entries := Put(mem[a].entries, k, v))
      modifies this
      ensures Valid() && contents == old(contents)[k := v] && used == old(used)
      ensures rootWord == old(rootWord) && Stable(old(St()), St()) && View() == old(View())
    {
      hide Good, SupplyOk, Put, LivePages, CacheOk, Stable;
      ghost var s := St();
      SupplyKept(supply, used, mem, a, page);
      WritePageAndUnlock(a, page);
      Took(Store(a, k, v), s);
    }

    /** The page is full with the new slot: write the new sibling, then the page that links to it. */
    method StoreAndSplit(a: GlobalAddress, k: Key, v: Value, page: Page, buf: array<LeafEntry>) returns (up: Separator)
      requires Consistent() && locked && pending == {} && used < |supply| && a in mem && page == mem[a] && page.LeafPage?
      requires Enabled(St(), StoreSplit(a, k, v, supply[used]))
      requires buf[..] == Put(page.entries, k, v) && LeafOk(buf[..], page.lowest, page.highest)
      modifies this, buf
      ensures Consistent() && !locked && pending == {up} && Stable(old(St()), St())
      ensures contents == old(contents)[k := v] && rootWord == old(rootWord) && used == old(used) + 1 && stopped == old(stopped)
      ensures View() == old(View())
      ensures up.level == page.level + 1 && up.left == a && page.lowest < up.key
    {
      hide Good, SupplyOk, RootView, Put, LivePages, CacheOk, Stable, Next, LeafOk, PageFull;
      ghost var s := St();
      var sib := Alloc();
      StoreSplitPages(s, a, k, v, sib);
      var left, right, splitKey := SplitSlots(page, buf, sib);
      SupplyTaken(supply, old(used), mem, right);
      mem := mem[sib := right];
      SupplyKept(supply, used, mem, a, left);
      WritePageAndUnlock(a, left);
      Took(StoreSplit(a, k, v, sib), s);
      up := Separator(splitKey, sib, page.level + 1, a);
    }

    /** The locked part of leaf_page_store. */
    method StoreLocked(a: GlobalAddress, k: Key, v: Value, page: Page) returns (needSplit: bool, up: Separator)
      requires Consistent() && locked && !stopped && pending == {}
      requires LeafFor(St(), a, k) && page == mem[a] && page.level == 0 && k < KEY_MAX && v != VALUE_NULL
      modifies this
      ensures Consistent() && (stopped ==> old(used) == |supply| && contents == old(contents))
      ensures !stopped ==> !locked && Stable(old(St()), St()) && View() == old(View())
      ensures !stopped ==> contents == old(contents)[k := v] && rootWord == old(rootWord)
      ensures !stopped ==> pending == if needSplit then {up} else {}
      ensures !stopped && needSplit ==> up.level == 1 && up.left == a && page.lowest < up.key
      ensures !stopped ==> used == old(used) + (if needSplit then 1 else 0)
    {
      hide Good, SupplyOk, Put, LivePages, CacheOk, LeafOk, Next, Full;
      LeafFacts(St(), contents, LivePages(cache.Value()), a, k, v);
      SupplyLength(supply, used, mem);
      TopFits();
      var buf := LeafBuffer(page);
      needSplit := StoreSlot(buf, k, v);
      if needSplit {
        if used == |supply| {
          stopped, up := true, Separator(0, NULL, 0, NULL);
          return;
        }
        NextUnused(supply, used, mem);
        up := StoreAndSplit(a, k, v, page, buf);
      } else {
        StoreInPlace(a, k, v, page.(entries := buf[..]));
        up := Separator(0, NULL, 0, NULL);
      }
    }

    /** The path stack as a cached operation starts with it. */
    ghost predicate PathClear()
      reads pathStack
    {
      forall j :: 0 <= j < pathStack.Length ==> pathStack[j] == NULL
    }

    /**
      leaf_page_store: store under the lock of the leaf that covers the key, moving right first if
      needed; a full leaf splits and its separator climbs. Through the cache it gives up, changing
      nothing, when the leaf does not cover the key. An assertion can only fail after the key is stored,
      when the separator gets above a captured root that is not the root any more.
    */
    method LeafPageStore(a: GlobalAddress, k: Key, v: Value, root: GlobalAddress, fromCache: bool, draws: seq<Key>)
        returns (stored: bool)
      requires Valid() && Captured(root) && At(St(), a, k) && mem[a].level == 0 && k < KEY_MAX && v != VALUE_NULL
      requires if fromCache then enableCache && root == gRoot && PathClear()
               else PathOk(mem, pathStack[..], 0, LevelOf(root), mem[a].lowest) && Blank(pathStack[..], LevelOf(root))
      modifies this, pathStack, cache
      ensures !stopped ==> Valid() && used <= old(used) + PAGES_PER_INSERT
      ensures stopped ==> Consistent()
      ensures stopped ==> |supply| < old(used) + PAGES_PER_INSERT
                          || (root != old(rootWord) && Stranded(old(LevelOf(root))) && contents == old(contents)[k := v])
      ensures stored == !(fromCache && old(mem[a].highest) <= k)
      ensures contents == (if stored then old(contents)[k := v] else old(contents)) || (stopped && contents == old(contents))
      ensures !stored ==> !stopped && used == old(used) && View() == old(View()) && mem == old(mem)
                          && rootWord == old(rootWord) && pathStack[..] == old(pathStack[..])
      ensures cache.Value() == old(cache.Value())
      decreases KEY_MAX - mem[a].lowest
    {
      hide Good, PathOk, SupplyOk, LivePages, CacheOk;
      LeafFacts(St(), contents, LivePages(cache.Value()), a, k, v);
      TopFits();
      CapturedLower(root);
      assert fromCache ==> a != root;
      hide RootView;
      ghost var s := St();
      var page := LockAndRead(a);
      assert page.level == 0;
      if fromCache && (k < page.lowest || page.highest <= k) {
        Unlock();
        return false;
      }
      if page.highest <= k {
        Unlock();
        assert page.sibling != NULL;
        PathFurther(mem, pathStack[..], 0, LevelOf(root), mem[a].lowest, mem[page.sibling].lowest);
        var _ := LeafPageStore(page.sibling, k, v, root, false, draws);
        return true;
      }
      assert k >= page.lowest;
      var needSplit, up := StoreLocked(a, k, v, page);
      stored := true;
      if stopped || !needSplit {
        return;
      }
      if !fromCache {
        PathKept(s, St(), pathStack[..], 0, LevelOf(root), page.lowest);
      }
      ClimbFromLeaf(a, up, page.lowest, root, fromCache, draws);
    }

    /** The end of leaf_page_store: the separator of the split goes to the root word or to a parent. */
    method ClimbFromLeaf(a: GlobalAddress, up: Separator, ghost lo: Key, root: GlobalAddress, fromCache: bool, draws: seq<Key>)
      requires Climbing(up) && up.level == 1 && up.left == a && LevelOf(a) == 0 && lo <= up.key && Captured(root)
      requires (root == rootWord ==> a == root || 0 < LevelOf(root)) && (fromCache ==> a != root)
      requires if fromCache then enableCache && root == gRoot && PathClear()
               else PathOk(mem, pathStack[..], 0, LevelOf(root), lo) && Blank(pathStack[..], LevelOf(root))
      modifies this, pathStack, cache
      ensures contents == old(contents) && cache.Value() == old(cache.Value())
      ensures !stopped ==> Valid() && used <= old(used) + old(LevelOf(root)) + 1
      ensures stopped ==> Consistent()
      ensures stopped ==> |supply| < old(used) + old(LevelOf(root)) + 1 || (root != old(rootWord) && Stranded(old(LevelOf(root))))
    {
      hide Good, PathOk, SupplyOk, LivePages, CacheOk, Stable;
      TopFits();
      if root == a {
        var done := UpdateNewRoot(up, root);
        if done || stopped {
          return;
        }
      }
      TopFits();
      if !fromCache && 0 < LevelOf(root) {
        PathUp(mem, pathStack[..], 0, LevelOf(root), lo);
      }
      var upLevel := pathStack[1];
      if upLevel != NULL {
        InternalPageStore(upLevel, up, root);
      } else if fromCache {
        InsertInternal(up, draws);
      } else {
        stopped := true;
      }
    }

    /**
      insert. Where it runs out of memory the program stops, before or after the key was stored. It also
      stops, after the key was stored, when the node's copy of the root is stale and the splits get
      above it: the separator of the last split then never reaches a parent.
    */
    method Insert(k: Key, v: Value, isLeader: bool, aged: bool, draws: seq<Key>)
      requires Valid() && k < KEY_MAX && v != VALUE_NULL
      modifies this, pathStack, cache
      ensures !stopped ==> Valid() && contents == old(contents)[k := v] && used <= old(used) + PAGES_PER_INSERT
      ensures stopped ==> |supply| < old(used) + PAGES_PER_INSERT
                          || (old(StaleView()) && Stranded(old(gLevel)) && contents == old(contents)[k := v])
      ensures stopped ==> Consistent() && (contents == old(contents) || contents == old(contents)[k := v])
      ensures Consulted(old(cache.Value()), old(St()), old(enableCache), k, isLeader && aged, draws, cache.Value())
    {
      hide Inv, Good, PathOk, Blank, SupplyOk, RootView, LivePages, CacheOk, Consulted, CachedOver, PointersOk, LookedUp, Hits, HitPage, Route, Rejected, Leads;
      BeforeOperation();
      ghost var c, free, s := cache.Value(), isLeader && aged, St();
      GoodParts(s, contents, LivePages(c));
      CacheUnused(c, s, k, free, draws);
      if enableCache {
        var hit, entry, addr := LookInCache(k, isLeader, aged);
        RejectedIs(c, k, free);
        if hit {
          HitLeads(c, s, k, cache.allPageCnt);
          var root := GetRootPtr();
          CachingRoot(root);
          var stored := LeafPageStore(addr, k, v, root, true, draws);
          if stored {
            ConsultedHit(c, s, k, free, draws, cache.Value());
            return;
          }
          var _ := DropStale(entry);
        }
      }
      var root := GetRootPtr();
      CachingRoot(root);
      ghost var b := cache.Value();
      var p := FindPage(k, 0, root, draws);
      if enableCache {
        ConsultedDown(c, s, k, free, draws, b, cache.Value());
      }
      var _ := LeafPageStore(p, k, v, root, false, draws);
    }

    // -------------------------------------------------------------- deletion

    /** The cleared slot is written back; nothing is written when the key was not there. */
    method ClearLocked(a: GlobalAddress, k: Key, page: Page)
      requires Consistent() && locked && !stopped && pending == {} && LeafFor(St(), a, k) && page == mem[a]
      modifies this
      ensures Valid() && contents == old(contents) - {k} && used == old(used) && View() == old(View())
    {
      hide Good, SupplyOk, Delete, LivePages, CacheOk, Stable, Represents;
      ghost var s := St();
      var buf := LeafBuffer(page);
      var cleared := ClearSlot(buf, k);
      ClearPages(s, contents, LivePages(cache.Value()), a, k);
      if cleared {
        SupplyKept(supply, used, mem, a, page.(entries := buf[..]));
        WritePageAndUnlock(a, page.(entries := buf[..]));
        Took(Clear(a, k), s);
      } else {
        Unlock();
        assert contents - {k} == contents;
      }
    }

    /** leaf_page_del. */
    method LeafPageDel(a: GlobalAddress, k: Key, fromCache: bool) returns (done: bool)
      requires Valid() && At(St(), a, k) && mem[a].level == 0 && k < KEY_MAX
      modifies this
      ensures Valid() && used == old(used) && View() == old(View()) && done == !(fromCache && old(mem[a].highest) <= k)
      ensures contents == if done then old(contents) - {k} else old(contents)
      ensures !done ==> mem == old(mem) && rootWord == old(rootWord)
      decreases KEY_MAX - mem[a].lowest
    {
      hide Good, SupplyOk, LivePages, CacheOk;
      LeafFacts(St(), contents, LivePages(cache.Value()), a, k, VALUE_NULL);
      var page := LockAndRead(a);
      assert page.level == 0;
      if fromCache && (k < page.lowest || page.highest <= k) {
        Unlock();
        return false;
      }
      if page.highest <= k {
        Unlock();
        assert page.sibling != NULL;
        var _ := LeafPageDel(page.sibling, k, false);
        return true;
      }
      assert k >= page.lowest;
      ClearLocked(a, k, page);
      done := true;
    }

    /** del. */
    method Remove(k: Key, isLeader: bool, aged: bool, draws: seq<Key>)
      requires Valid() && k < KEY_MAX
      modifies this, pathStack, cache
      ensures Valid() && contents == old(contents) - {k} && used == old(used)
      ensures Consulted(old(cache.Value()), old(St()), old(enableCache), k, isLeader && aged, draws, cache.Value())
    {
      hide Inv, Good, PathOk, Blank, SupplyOk, RootView, LivePages, CacheOk, Consulted, CachedOver, PointersOk, LookedUp, Hits, HitPage, Route, Rejected, Leads;
      BeforeOperation();
      ghost var c, free, s := cache.Value(), isLeader && aged, St();
      GoodParts(s, contents, LivePages(c));
      CacheUnused(c, s, k, free, draws);
      if enableCache {
        var hit, entry, addr := LookInCache(k, isLeader, aged);
        RejectedIs(c, k, free);
        if hit {
          HitLeads(c, s, k, cache.allPageCnt);
          var done := LeafPageDel(addr, k, true);
          if done {
            ConsultedHit(c, s, k, free, draws, cache.Value());
            return;
          }
          var _ := DropStale(entry);
        }
      }
      var root := GetRootPtr();
      CachingRoot(root);
      ghost var b := cache.Value();
      var p := FindPage(k, 0, root, draws);
      if enableCache {
        ConsultedDown(c, s, k, free, draws, b, cache.Value());
      }
      var _ := LeafPageDel(p, k, false);
    }
  }

  lemma QueryFacts(c: CacheState, all: nat, s: State, m: map<Key, Value>, from: Key, to: Key)
    requires Good(s, m, LivePages(c)) && CacheOk(c, all) && s.pending == {}
    ensures s.root in s.pages
    ensures forall p :: p in FoundPtrs(c, from, to) ==> p in c.images
    ensures forall x :: 0 <= x < |FoundPtrs(c, from, to)| ==>
              var p := Images(c, FoundPtrs(c, from, to))[x]; p.InternalPage? && 1 <= |p.records|
    ensures Queried(c, s, from, to) == Scan(s.pages, Leaves(Images(c, FoundPtrs(c, from, to)), from, to), from, to)
    ensures FoundPtrs(c, from, to) == [] ==> Queried(c, s, from, to) == []
    ensures forall k: Key, v: Value :: LeafEntry(k, v) in Queried(c, s, from, to) ==> from <= k <= to && k in m && m[k] == v
    ensures Exactly(Queried(c, s, from, to), m, from, to) <==> forall k :: k in m && from <= k <= to ==> ServedOnce(c, s, k, to)
    ensures LiveCurrent(c, s) ==>
              (Exactly(Queried(c, s, from, to), m, from, to)
               <==> forall k :: k in m && from <= k <= to ==> CoveredLive(c, k))
    ensures LivePages(c) == {} ==> FoundPtrs(c, from, to) == []
  {
    hide Exactly, LiveCurrent, RangeScan, PointersOk, AllFiled, ImagesOk, Linked, Apart, Parented, Pending,
      Reached, Filled, Room, UnderLive, CoveredLive, ServedOnce, FoundPtrs, LivePages;
    FoundFiled(c, from, to);
    QuerySound(c, s, m, from, to);
    if LivePages(c) == {} {
      QueryOfNothing(c, s, from, to);
    }
    QueryExactIff(c, all, s, m, from, to);
    if LiveCurrent(c, s) {
      CurrentExactIff(c, all, s, m, from, to);
      forall k | k in m ensures UnderLive(c, s, k) <==> CoveredLive(c, k) {
        assert Binds(s, k, m[k]);
        BoundBelow(s, k, m[k]);
        UnderLiveIff(c, s, k);
      }
    }
  }

  /** Clearing a slot is a step; when the key has no live slot the key is not in the map. */
  lemma ClearPages(s: State, m: map<Key, Value>, images: set<Page>, a: GlobalAddress, k: Key)
    requires Good(s, m, images) && LeafFor(s, a, k)
    ensures Next(s, Clear(a, k)).pages == s.pages[a := s.pages[a].(entries := Delete(s.pages[a].entries, k))]
    ensures (forall v :: !Has(s.pages[a].entries, k, v)) ==> k !in m
  {
    if k in m {
      assert Binds(s, k, m[k]);
      BindsAt(s, a, k, m[k]);
    }
  }

  lemma SeparatorFacts(s: State, m: map<Key, Value>, images: set<Page>, z: Separator)
    requires Good(s, m, images) && s.pending == {z}
    ensures z.key < KEY_MAX && 1 <= z.level
  {
  }

  /** What leaf_page_store and leaf_page_del find on the page they lock. */
  lemma LeafFacts(s: State, m: map<Key, Value>, images: set<Page>, a: GlobalAddress, k: Key, v: Value)
    requires Good(s, m, images) && s.pending == {} && At(s, a, k) && s.pages[a].level == 0 && k < KEY_MAX
    ensures var p := s.pages[a];
            && a != NULL && p.LeafPage? && |p.entries| == LEAF_CARDINALITY && !Full(p.entries)
            && (p.highest <= k ==> p.sibling != NULL && At(s, p.sibling, k)
                                   && s.pages[p.sibling].level == p.level && p.lowest < s.pages[p.sibling].lowest <= KEY_MAX)
            && (k < p.highest ==> LeafFor(s, a, k))
            && (k < p.highest && v != VALUE_NULL ==> LeafOk(Put(p.entries, k, v), p.lowest, p.highest))
            && (s.root in s.pages && (a == s.root || p.level < s.pages[s.root].level))
  {
    PageFacts(s, a, k);
    assert PageOk(s.pages[a]);
    if k < s.pages[a].highest && v != VALUE_NULL {
      PutSpec(s.pages[a].entries, k, v, s.pages[a].lowest, s.pages[a].highest);
    }
    if s.pages[a].highest <= k {
      assert PageOk(s.pages[s.pages[a].sibling]);
    }
    assert s.pages[a].level <= s.pages[s.root].level;
    if a != s.root {
      RootAlone(s, a);
    }
  }

  /** The two page writes of a leaf split, in the order they are made. */
  lemma StoreSplitPages(s: State, a: GlobalAddress, k: Key, v: Value, sib: GlobalAddress)
    requires Enabled(s, StoreSplit(a, k, v, sib)) && s.pending == {}
    requires LeafOk(Put(s.pages[a].entries, k, v), s.pages[a].lowest, s.pages[a].highest)
    ensures var full := s.pages[a].(entries := Put(s.pages[a].entries, k, v));
            var t := Next(s, StoreSplit(a, k, v, sib));
            && PageFull(full) && s.pages[a].lowest < SplitKey(full)
            && t.pages == s.pages[sib := RightPage(full)][a := LeftPage(full, sib)]
            && t.root == s.root && t.pending == {Separator(SplitKey(full), sib, s.pages[a].level + 1, a)}
  {
    LeafSplitSpec(Put(s.pages[a].entries, k, v), s.pages[a].lowest, s.pages[a].highest);
  }

  lemma SupplyTaken(supply: seq<GlobalAddress>, used: nat, pages: map<GlobalAddress, Page>, p: Page)
    requires SupplyOk(supply, used, pages) && used < |supply|
    ensures supply[used] !in pages && supply[used] != NULL
    ensures SupplyOk(supply, used + 1, pages[supply[used] := p])
  {
  }

  /** The two page writes of an internal split, in the order they are made. */
  lemma InsertSplitPages(s: State, a: GlobalAddress, z: Separator, sib: GlobalAddress)
    requires Enabled(s, InsertSplit(a, z, sib)) && s.pending == {z}
    requires RecordsOk(InsertRecord(s.pages[a].records, z.key, z.child), s.pages[a].lowest, s.pages[a].highest)
    ensures var full := s.pages[a].(records := InsertRecord(s.pages[a].records, z.key, z.child));
            var t := Next(s, InsertSplit(a, z, sib));
            && PageFull(full) && s.pages[a].lowest < SplitKey(full)
            && t.pages == s.pages[sib := RightPage(full)][a := LeftPage(full, sib)]
            && t.root == s.root && t.pending == {Separator(SplitKey(full), sib, s.pages[a].level + 1, a)}
  {
  }

  lemma SupplyLost(supply: seq<GlobalAddress>, used: nat, pages: map<GlobalAddress, Page>)
    requires SupplyOk(supply, used, pages) && used < |supply|
    ensures SupplyOk(supply, used + 1, pages)
  {
  }

  lemma SupplyLength(supply: seq<GlobalAddress>, used: nat, pages: map<GlobalAddress, Page>)
    requires SupplyOk(supply, used, pages)
    ensures used <= |supply|
  {
  }

  lemma NextUnused(supply: seq<GlobalAddress>, used: nat, pages: map<GlobalAddress, Page>)
    requires SupplyOk(supply, used, pages) && used < |supply|
    ensures supply[used] !in pages && supply[used] != NULL
  {
  }

  lemma SupplyKept(supply: seq<GlobalAddress>, used: nat, pages: map<GlobalAddress, Page>, a: GlobalAddress, p: Page)
    requires SupplyOk(supply, used, pages) && a in pages
    ensures SupplyOk(supply, used, pages[a := p])
  {
  }

  /** What internal_page_store finds on the page it locks. */
  lemma InsertFacts(s: State, m: map<Key, Value>, images: set<Page>, a: GlobalAddress, z: Separator)
    requires Good(s, m, images) && s.pending == {z} && At(s, a, z.key) && s.pages[a].level == z.level
    ensures var p := s.pages[a];
            && a != NULL && NULL !in s.pages && z.key < KEY_MAX && p.InternalPage? && Sorted(p.records) && 1 <= |p.records| < INTERNAL_CARDINALITY
            && (p.highest <= z.key ==> p.sibling != NULL && At(s, p.sibling, z.key)
                                       && s.pages[p.sibling].level == p.level && p.lowest < s.pages[p.sibling].lowest <= KEY_MAX)
            && (z.key < p.highest ==> ParentFor(s, a, z)
                                      && |InsertRecord(p.records, z.key, z.child)| == |p.records| + 1
                                      && RecordsOk(InsertRecord(p.records, z.key, z.child), p.lowest, p.highest))
            && (s.root in s.pages && (a == s.root || p.level < s.pages[s.root].level))
  {
    assert z in s.pending && SepOk(s.pages, z) && SepNew(s.pages, z);
    assert PageOk(s.pages[z.child]) && PageOk(s.pages[a]);
    PageFacts(s, a, z.key);
    if z.key < s.pages[a].highest {
      WithRecordSpec(s.pages[a], z);
    }
    assert s.pages[a].level <= s.pages[s.root].level;
    if a != s.root {
      RootAlone(s, a);
    }
  }

  lemma MoveFacts(s: State, m: map<Key, Value>, images: set<Page>, p: GlobalAddress, k: Key)
    requires Good(s, m, images) && At(s, p, k) && k < KEY_MAX && ReadStep(s, p, k).Move?
    ensures var to := ReadStep(s, p, k).to;
            && At(s, to, k) && s.pages[p].lowest <= s.pages[to].lowest
            && (if s.pages[p].highest <= k
                then s.pages[to].level == s.pages[p].level && s.pages[p].lowest < s.pages[to].lowest
                else s.pages[to].level + 1 == s.pages[p].level)
  {
    if s.pages[p].highest <= k {
      TurnRight(s, p, k);
    } else {
      RouteDown(s, p, k);
      assert PageOk(s.pages[p]);
    }
  }

  lemma GrowFacts(s: State, m: map<Key, Value>, images: set<Page>, z: Separator, n: GlobalAddress)
    requires Good(s, m, images) && s.pending == {z} && z.left == s.root && Unused(s, n)
    ensures s.root in s.pages && z.level == s.pages[s.root].level + 1 && Enabled(s, Grow(z, n))
    ensures var t := Next(s, Grow(z, n));
            t.pages == s.pages[n := RootPage(z)] && t.root == n && t.pending == {} && Abstract(Grow(z, n), m) == m
  {
    assert z in s.pending && SepOk(s.pages, z);
  }

  lemma SearchFacts(s: State, m: map<Key, Value>, images: set<Page>, p: GlobalAddress, k: Key)
    requires Good(s, m, images) && At(s, p, k) && k < KEY_MAX
    ensures s.pages[p].lowest <= KEY_MAX && (s.pages[p].LeafPage? <==> s.pages[p].level == 0)
    ensures s.pages[p].LeafPage? && k < s.pages[p].highest ==> ReadStep(s, p, k).Done?
    ensures match ReadStep(s, p, k)
            case Done(v) => s.pages[p].LeafPage? && (if k in m then v == m[k] && v != VALUE_NULL else v == VALUE_NULL)
            case Move(to) => && to != NULL && At(s, to, k) && s.pages[to].lowest <= KEY_MAX
                             && (s.pages[to].level < s.pages[p].level
                                 || (s.pages[to].level == s.pages[p].level && s.pages[p].lowest < s.pages[to].lowest))
  {
    PageFacts(s, p, k);
    ReadStepSpec(s, p, k);
    match ReadStep(s, p, k)
    case Move(_) =>
    case Done(v) =>
      AnswerIsMapped(s, m, k, v);
      if k in m {
        assert Binds(s, k, m[k]);
      }
  }

  lemma FewerImages(s: State, m: map<Key, Value>, few: set<Page>, many: set<Page>)
    requires Good(s, m, many) && few <= many
    ensures Good(s, m, few)
  {
  }

  /** What one page read tells, page by page. */
  lemma ReadFacts(s: State, a: GlobalAddress, k: Key)
    requires Inv(s) && At(s, a, k) && k < KEY_MAX
    ensures var p := s.pages[a];
            ReadStep(s, a, k) == (if p.highest <= k then Move(p.sibling)
                                  else if p.LeafPage? then Done(Lookup(p.entries, k)) else Move(Route(p, k)))
  {
    PageFacts(s, a, k);
  }

  /** What a reader may assume about a page at a valid position. */
  lemma PageFacts(s: State, a: GlobalAddress, k: Key)
    requires Inv(s) && At(s, a, k) && k < KEY_MAX
    ensures var p := s.pages[a];
            && p.lowest < p.highest
            && (p.LeafPage? <==> p.level == 0)
            && (p.LeafPage? ==> |p.entries| == LEAF_CARDINALITY && !Full(p.entries))
            && (p.InternalPage? ==> 1 <= |p.records| < INTERNAL_CARDINALITY && Sorted(p.records))
            && (p.highest <= k ==> p.sibling != NULL && At(s, p.sibling, k)
                                   && s.pages[p.sibling].level == p.level && p.lowest < s.pages[p.sibling].lowest)
  {
  }
}
