/**
  The index cache of a compute node: copies of level-1 pages under their key interval, with page
  accounting, delayed freeing and eviction (include/IndexCache.h).
*/
module IndexCaches {
  import opened Layout
  import opened InternalPages
  import opened CacheOrder

  /** A copied page with its access count. */
  datatype Image = Image(page: Page, freq: nat)

  predicate Alive(e: CacheEntry) {
    e.ptr != 0
  }

  function LiveCount(list: seq<CacheEntry>): nat {
    if list == [] then 0 else LiveCount(list[..|list| - 1]) + (if Alive(list[|list| - 1]) then 1 else 0)
  }

  lemma {:induction false} LiveCountSet(list: seq<CacheEntry>, i: nat, e: CacheEntry)
    requires i < |list|
    ensures LiveCount(list[i := e]) == LiveCount(list) - (if Alive(list[i]) then 1 else 0) + (if Alive(e) then 1 else 0)
  {
    var n := |list| - 1;
    if i < n {
      LiveCountSet(list[..n], i, e);
      assert list[i := e][..n] == list[..n][i := e];
    } else {
      assert list[i := e][..n] == list[..n];
    }
  }

  lemma {:induction false} LiveCountInsert(list: seq<CacheEntry>, i: nat, e: CacheEntry)
    requires i <= |list|
    ensures LiveCount(list[..i] + [e] + list[i..]) == LiveCount(list) + (if Alive(e) then 1 else 0)
  {
    var n := |list|;
    var q := list[..i] + [e] + list[i..];
    if i == n {
      assert q[..n] == list;
    } else {
      LiveCountInsert(list[..n - 1], i, e);
      assert q[..n] == list[..n - 1][..i] + [e] + list[..n - 1][i..];
    }
  }

  /** The scan of a range: live entries from position `i` on, up to the first that starts after `to`. */
  function RangeScan(list: seq<CacheEntry>, i: nat, to: Key): seq<nat>
    requires i <= |list|
    decreases |list| - i
  {
    if i == |list| then []
    else if Alive(list[i]) then
      if to < list[i].from then [] else [list[i].ptr] + RangeScan(list, i + 1, to)
    else RangeScan(list, i + 1, to)
  }

  /** No live entry lies strictly inside entry `i`: each contains it or is apart from it. */
  ghost predicate Finest(list: seq<CacheEntry>, i: nat)
    requires i < |list|
  {
    forall j :: 0 <= j < |list| && Alive(list[j]) ==>
      || list[j].to < list[i].from || list[i].to < list[j].from
      || (list[j].from <= list[i].from && list[i].to <= list[j].to)
  }

  /**
    The scan of [from, to] returns every live entry that overlaps it and is finest, as every current
    page is among images of its past: wider stale entries never cut the scan short before it.
  */
  lemma RangeComplete(list: seq<CacheEntry>, from: Key, to: Key, i: nat)
    requires Ordered(list) && from <= to && (forall j :: 0 <= j < |list| ==> list[j].from <= list[j].to)
    requires i < |list| && Alive(list[i]) && list[i].from <= to && from <= list[i].to && Finest(list, i)
    ensures list[i].ptr in RangeScan(list, FindKey(list, from), to)
  {
    var r := FindKey(list, from);
    assert r <= i by {
      assert forall j :: 0 <= j < r ==> Cmp(list[j], CacheEntry(from, from, 0)) < 0;
    }
    forall j | r <= j < i && Alive(list[j]) ensures list[j].from <= to {
      assert Cmp(list[j], list[i]) < 0;
    }
    ScanReaches(list, r, to, i);
  }

  lemma {:induction false} ScanReaches(list: seq<CacheEntry>, r: nat, to: Key, i: nat)
    requires r <= i < |list| && Alive(list[i]) && forall j :: r <= j <= i && Alive(list[j]) ==> list[j].from <= to
    ensures list[i].ptr in RangeScan(list, r, to)
    decreases i - r
  {
    if r < i {
      ScanReaches(list, r + 1, to, i);
    }
  }

  ghost predicate FromLive(list: seq<CacheEntry>, r: nat, p: nat) {
    exists i :: r <= i < |list| && Alive(list[i]) && list[i].ptr == p
  }

  ghost predicate NoRepeats(ps: seq<nat>) {
    forall x, y :: 0 <= x < y < |ps| ==> ps[x] != ps[y]
  }

  /** The scan returns pointers of live entries only, and none twice. */
  lemma {:induction false} ScanSound(list: seq<CacheEntry>, r: nat, to: Key)
    requires r <= |list|
    requires forall i, j :: 0 <= i < j < |list| && Alive(list[i]) && Alive(list[j]) ==> list[i].ptr != list[j].ptr
    ensures forall p :: p in RangeScan(list, r, to) ==> FromLive(list, r, p)
    ensures NoRepeats(RangeScan(list, r, to))
    decreases |list| - r
  {
    if r < |list| {
      ScanSound(list, r + 1, to);
      var rest := RangeScan(list, r + 1, to);
      forall p | p in rest ensures FromLive(list, r, p) && (Alive(list[r]) ==> p != list[r].ptr) {
        var i :| r + 1 <= i < |list| && Alive(list[i]) && list[i].ptr == p;
      }
      if Alive(list[r]) {
        assert FromLive(list, r, list[r].ptr);
        var ps := RangeScan(list, r, to);
        forall x, y | 0 <= x < y < |ps| ensures ps[x] != ps[y] {
          assert ps == [list[r].ptr] + rest && rest[y - 1] in rest;
        }
      }
    }
  }

  // ---------------------------------------------------------------- the cache as a value

  datatype CacheState = CacheState(list: seq<CacheEntry>, images: map<nat, Image>, nextPtr: nat,
                                   delayFree: seq<nat>, freePages: int, nodes: nat)

  /** Live entries and pages waiting to be freed are pairwise distinct images. */
  ghost predicate PointersOk(c: CacheState) {
    && 0 < c.nextPtr
    && (forall p :: p in c.images ==> 0 < p < c.nextPtr)
    && (forall i :: 0 <= i < |c.list| && Alive(c.list[i]) ==> c.list[i].ptr in c.images)
    && (forall i, j :: 0 <= i < j < |c.list| && Alive(c.list[i]) && Alive(c.list[j]) ==> c.list[i].ptr != c.list[j].ptr)
    && (forall d :: 0 <= d < |c.delayFree| ==> c.delayFree[d] in c.images)
    && (forall d, e :: 0 <= d < e < |c.delayFree| ==> c.delayFree[d] != c.delayFree[e])
    && (forall i, d :: 0 <= i < |c.list| && 0 <= d < |c.delayFree| && Alive(c.list[i]) ==> c.list[i].ptr != c.delayFree[d])
  }

  /** A live image can be routed through and lies under the interval it is filed under. */
  ghost predicate Filed(e: CacheEntry, images: map<nat, Image>) {
    Alive(e) && e.ptr in images ==>
      var p := images[e.ptr].page;
      p.InternalPage? && 1 <= |p.records| && p.lowest == e.from && p.highest == e.to + 1
  }

  ghost predicate AllFiled(c: CacheState) {
    forall i :: 0 <= i < |c.list| ==> c.list[i].from <= c.list[i].to && Filed(c.list[i], c.images)
  }

  /** No page is lost: free, live and waiting pages add up to the capacity. */
  ghost predicate Conserved(c: CacheState, all: nat) {
    c.freePages + LiveCount(c.list) + |c.delayFree| == all && c.nodes == |c.list|
  }

  ghost predicate CacheOk(c: CacheState, all: nat) {
    Ordered(c.list) && PointersOk(c) && AllFiled(c) && Conserved(c, all)
  }

  ghost function LivePages(c: CacheState): set<Page> {
    set i | 0 <= i < |c.list| && Alive(c.list[i]) && c.list[i].ptr in c.images :: c.images[c.list[i].ptr].page
  }

  function WithPtr(c: CacheState, i: nat, p: nat): CacheState
    requires i < |c.list|
  {
    c.(list := c.list[i := c.list[i].(ptr := p)])
  }

  /** The entry's pointer becomes null; its image, if any, waits to be freed. */
  function Drop(c: CacheState, i: nat): CacheState
    requires i < |c.list|
  {
    if Alive(c.list[i]) then WithPtr(c, i, 0).(delayFree := c.delayFree + [c.list[i].ptr]) else c
  }

  /** The oldest waiting image is freed. */
  function FreeOldest(c: CacheState): CacheState
    requires c.delayFree != []
  {
    c.(images := c.images - {c.delayFree[0]}, delayFree := c.delayFree[1..], freePages := c.freePages + 1)
  }

  /** One more access to the image of entry `i`. */
  function Touch(c: CacheState, i: nat): CacheState
    requires i < |c.list| && c.list[i].ptr in c.images
  {
    var p := c.list[i].ptr;
    c.(images := c.images[p := Image(c.images[p].page, c.images[p].freq + 1)])
  }

  predicate SameKey(list: seq<CacheEntry>, i: nat, e: CacheEntry) {
    i < |list| && Cmp(list[i], e) == 0
  }

  /** The page would go under an interval whose entry holds a live image already. */
  predicate Taken(c: CacheState, page: Page)
    requires page.lowest < page.highest
  {
    var e := CacheEntry(page.lowest, page.highest - 1, c.nextPtr);
    var i := Seek(c.list, e);
    SameKey(c.list, i, e) && Alive(c.list[i])
  }

  /** The list with entry `e`: replacing the one of the same interval, or at its place in the order. */
  function WithEntry(list: seq<CacheEntry>, e: CacheEntry): seq<CacheEntry> {
    var i := Seek(list, e);
    if SameKey(list, i, e) then list[i := e] else list[..i] + [e] + list[i..]
  }

  /** A copy of the page under its interval: a new entry, or an old one whose pointer is null. */
  function Install(c: CacheState, page: Page): CacheState
    requires page.lowest < page.highest && !Taken(c, page)
  {
    var e := CacheEntry(page.lowest, page.highest - 1, c.nextPtr);
    CacheState(WithEntry(c.list, e), c.images[c.nextPtr := Image(page, 0)], c.nextPtr + 1, c.delayFree,
               c.freePages - 1, c.nodes + (if SameKey(c.list, Seek(c.list, e), e) then 0 else 1))
  }

  lemma DropPointers(c: CacheState, i: nat)
    requires PointersOk(c) && i < |c.list|
    ensures PointersOk(Drop(c, i))
  {
  }

  lemma DropFiled(c: CacheState, i: nat)
    requires Ordered(c.list) && AllFiled(c) && i < |c.list|
    ensures Ordered(Drop(c, i).list) && AllFiled(Drop(c, i)) && LivePages(Drop(c, i)) <= LivePages(c)
  {
  }

  lemma DropOk(c: CacheState, i: nat, all: nat)
    requires CacheOk(c, all) && i < |c.list|
    ensures CacheOk(Drop(c, i), all) && LivePages(Drop(c, i)) <= LivePages(c)
    ensures LiveCount(Drop(c, i).list) == LiveCount(c.list) - (if Alive(c.list[i]) then 1 else 0)
  {
    LiveCountSet(c.list, i, c.list[i].(ptr := 0));
    DropPointers(c, i);
    DropFiled(c, i);
  }

  lemma FreeOldestOk(c: CacheState, all: nat)
    requires CacheOk(c, all) && c.delayFree != []
    ensures CacheOk(FreeOldest(c), all) && LivePages(FreeOldest(c)) <= LivePages(c)
  {
  }

  lemma TouchOk(c: CacheState, i: nat, all: nat)
    requires CacheOk(c, all) && i < |c.list| && c.list[i].ptr in c.images
    ensures CacheOk(Touch(c, i), all) && LivePages(Touch(c, i)) <= LivePages(c)
  {
  }

  /** After installing, position `i` holds the new entry and every other one an old entry. */
  ghost predicate Grown(old_: seq<CacheEntry>, list: seq<CacheEntry>, i: nat, e: CacheEntry) {
    && i < |list| && list[i] == e
    && (|list| == |old_| || |list| == |old_| + 1)
    && (|list| == |old_| ==> forall j :: 0 <= j < |list| && j != i ==> list[j] == old_[j])
    && (|list| == |old_| + 1 ==> (forall j :: 0 <= j < i ==> list[j] == old_[j])
                                 && (forall j :: i < j < |list| ==> list[j] == old_[j - 1]))
  }

  lemma InstallGrown(c: CacheState, page: Page)
    requires page.lowest < page.highest && !Taken(c, page)
    ensures var e := CacheEntry(page.lowest, page.highest - 1, c.nextPtr);
            Grown(c.list, Install(c, page).list, Seek(c.list, e), e)
  {
  }

  lemma InstallOrdered(c: CacheState, page: Page)
    requires Ordered(c.list) && page.lowest < page.highest && !Taken(c, page)
    ensures Ordered(Install(c, page).list)
  {
    var e := CacheEntry(page.lowest, page.highest - 1, c.nextPtr);
    var i, q := Seek(c.list, e), Install(c, page).list;
    InstallGrown(c, page);
    forall x | i <= x < |c.list| ensures 0 <= Cmp(c.list[x], e) {
      AfterSeek(c.list, e, x);
    }
    if |q| == |c.list| {
      forall x, y | 0 <= x < y < |q| ensures Cmp(q[x], q[y]) < 0 {
        assert Cmp(c.list[x], c.list[y]) < 0;
      }
    } else {
      InsertOrdered(c.list, q, i, e);
    }
  }

  lemma InsertOrdered(list: seq<CacheEntry>, q: seq<CacheEntry>, i: nat, e: CacheEntry)
    requires Ordered(list) && Grown(list, q, i, e) && |q| == |list| + 1
    requires forall x :: 0 <= x < i ==> Cmp(list[x], e) < 0
    requires forall x :: i <= x < |list| ==> 0 <= Cmp(list[x], e)
    requires i < |list| ==> Cmp(list[i], e) != 0
    ensures Ordered(q)
  {
  }

  lemma InstallPointers(c: CacheState, page: Page)
    requires PointersOk(c) && page.lowest < page.highest && !Taken(c, page)
    ensures PointersOk(Install(c, page))
  {
    InstallGrown(c, page);
  }

  lemma InstallFiled(c: CacheState, page: Page)
    requires PointersOk(c) && AllFiled(c) && page.lowest < page.highest && !Taken(c, page)
    requires page.InternalPage? && 1 <= |page.records|
    ensures AllFiled(Install(c, page)) && LivePages(Install(c, page)) <= LivePages(c) + {page}
  {
    InstallGrown(c, page);
  }

  /** A live entry of the list stays, with its image, when a page is installed. */
  lemma InstallKeeps(c: CacheState, page: Page)
    requires PointersOk(c) && page.lowest < page.highest && !Taken(c, page)
    ensures LivePages(c) + {page} <= LivePages(Install(c, page))
  {
    hide Seek;
    InstallGrown(c, page);
    var i, d := Seek(c.list, CacheEntry(page.lowest, page.highest - 1, c.nextPtr)), Install(c, page);
    forall p | p in LivePages(c) + {page} ensures p in LivePages(d) {
      if p in LivePages(c) {
        var x :| 0 <= x < |c.list| && Alive(c.list[x]) && c.list[x].ptr in c.images && c.images[c.list[x].ptr].page == p;
        var y := if |d.list| == |c.list| || x < i then x else x + 1;
        assert d.list[y] == c.list[x];
      } else {
        assert Alive(d.list[i]) && d.images[d.list[i].ptr].page == page;
      }
    }
  }

  lemma InstallCount(c: CacheState, page: Page)
    requires 0 < c.nextPtr && page.lowest < page.highest && !Taken(c, page)
    ensures LiveCount(Install(c, page).list) == LiveCount(c.list) + 1
  {
    var e := CacheEntry(page.lowest, page.highest - 1, c.nextPtr);
    var i := Seek(c.list, e);
    if SameKey(c.list, i, e) {
      LiveCountSet(c.list, i, e);
    } else {
      LiveCountInsert(c.list, i, e);
    }
  }

  lemma InstallOk(c: CacheState, page: Page, all: nat)
    requires CacheOk(c, all) && page.InternalPage? && 1 <= |page.records| && page.lowest < page.highest && !Taken(c, page)
    ensures CacheOk(Install(c, page), all) && LivePages(Install(c, page)) == LivePages(c) + {page}
    ensures LiveCount(Install(c, page).list) == LiveCount(c.list) + 1
  {
    InstallKeeps(c, page);
    InstallOrdered(c, page);
    InstallPointers(c, page);
    InstallFiled(c, page);
    InstallCount(c, page);
  }

  // ---------------------------------------------------------------- the cache as an object

  /** The lookup of `k` ends at a live entry that covers it. */
  predicate Hits(c: CacheState, k: Key) {
    var i := FindKey(c.list, k);
    i < |c.list| && Alive(c.list[i]) && CoversKey(c.list[i], k)
  }

  /** Entry `x` is what a lookup of `k` should find: live, not shadowed, and first to end among the covering ones. */
  ghost predicate Finds(list: seq<CacheEntry>, x: nat, k: Key)
    requires x < |list|
  {
    Alive(list[x]) && Unshadowed(list, x, k) && EndsFirst(list, x, k)
  }

  /**
    A lookup hits exactly when the covering interval that ends first is live and no interval that starts
    after the key ends by its end. A live covering interval is missed when a dead one ends before it, and
    when an interval right of the key does.
  */
  lemma HitsIff(c: CacheState, k: Key)
    requires Ordered(c.list) && forall i :: 0 <= i < |c.list| ==> c.list[i].from <= c.list[i].to
    ensures Hits(c, k) <==> exists x :: 0 <= x < |c.list| && Finds(c.list, x, k)
  {
    if Hits(c, k) {
      FindsIff(c.list, k, FindKey(c.list, k));
      assert Finds(c.list, FindKey(c.list, k), k);
    }
    if x :| 0 <= x < |c.list| && Finds(c.list, x, k) {
      FindsIff(c.list, k, x);
    }
  }

  lemma HitImage(c: CacheState, all: nat, k: Key)
    requires CacheOk(c, all) && Hits(c, k)
    ensures var i := FindKey(c.list, k);
            && c.list[i].ptr in c.images
            && var p := c.images[c.list[i].ptr].page;
               p in LivePages(c) && p.InternalPage? && 1 <= |p.records| && Covers(p, k)
  {
  }

  /** What a lookup of `k` leaves behind: one waiting image freed if asked for, one access counted on a hit. */
  function LookedUp(c: CacheState, k: Key, free: bool): CacheState
    requires PointersOk(c)
  {
    var d := if free && c.delayFree != [] then FreeOldest(c) else c;
    if Hits(c, k) then Touch(d, FindKey(c.list, k)) else d
  }

  /** A lookup changes no entry, frees at most the oldest waiting image, and counts one access to the image it hits. */
  lemma LookedUpSpec(c: CacheState, k: Key, free: bool)
    requires PointersOk(c)
    ensures var d := LookedUp(c, k, free);
            && d.list == c.list && d.nextPtr == c.nextPtr && d.nodes == c.nodes
            && (if free && c.delayFree != [] then
                  && d.delayFree == c.delayFree[1..] && d.freePages == c.freePages + 1
                  && d.images.Keys == c.images.Keys - {c.delayFree[0]}
                else d.delayFree == c.delayFree && d.freePages == c.freePages && d.images.Keys == c.images.Keys)
            && (Hits(c, k) ==>
                var p := c.list[FindKey(c.list, k)].ptr;
                p in d.images && p in c.images && d.images[p].freq == c.images[p].freq + 1 && d.images[p].page == c.images[p].page)
            && (forall q :: q in d.images && !(Hits(c, k) && q == c.list[FindKey(c.list, k)].ptr) ==>
                q in c.images && d.images[q] == c.images[q])
  {
  }

  /** The first draw from `start` on that hits, or the number of draws. */
  function DrawnAt(c: CacheState, draws: seq<Key>, start: nat): (d: nat)
    requires start <= |draws|
    ensures start <= d <= |draws| && (d < |draws| ==> Hits(c, draws[d]))
    ensures forall i :: start <= i < d ==> !Hits(c, draws[i])
    decreases |draws| - start
  {
    if start == |draws| || Hits(c, draws[start]) then start else DrawnAt(c, draws, start + 1)
  }

  function FreqOf(c: CacheState, i: nat): nat
    requires PointersOk(c) && i < |c.list| && Alive(c.list[i])
  {
    c.images[c.list[i].ptr].freq
  }

  /** Which draw hits depends on the list only. */
  lemma {:induction false} DrawnSame(c: CacheState, d: CacheState, draws: seq<Key>, start: nat)
    requires c.list == d.list && start <= |draws|
    ensures DrawnAt(c, draws, start) == DrawnAt(d, draws, start)
    decreases |draws| - start
  {
    if start < |draws| {
      DrawnSame(c, d, draws, start + 1);
    }
  }

  lemma PointersKnown(c: CacheState, all: nat)
    requires CacheOk(c, all)
    ensures PointersOk(c)
  {
  }

  predicate CanEvict(c: CacheState, draws: seq<Key>) {
    var d := DrawnAt(c, draws, 0);
    d < |draws| && DrawnAt(c, draws, d + 1) < |draws|
  }

  /** Both keys have been looked up; of the entries they hit the one used less, the second on a tie, is dropped. */
  ghost predicate DropsLessUsed(c: CacheState, k1: Key, k2: Key, e: CacheState) {
    PointersOk(c) && Hits(c, k1) && Hits(c, k2) &&
    var c1 := LookedUp(c, k1, false);
    PointersOk(c1) && c1.list == c.list &&
    var c2 := LookedUp(c1, k2, false);
    PointersOk(c2) && c2.list == c.list &&
    var e1, e2 := FindKey(c.list, k1), FindKey(c.list, k2);
    e == Drop(c2, if FreqOf(c1, e1) < FreqOf(c2, e2) then e1 else e2)
  }

  /** The first two draws that hit decide which entry is dropped. */
  ghost predicate Evicts(c: CacheState, draws: seq<Key>, e: CacheState) {
    CanEvict(c, draws) &&
    var d1 := DrawnAt(c, draws, 0);
    DropsLessUsed(c, draws[d1], draws[DrawnAt(c, draws, d1 + 1)], e)
  }

  // ---------------------------------------------------------------- filing a page

  /** A live image is filed under the interval of the page. */
  ghost predicate HasLive(c: CacheState, page: Page) {
    exists i :: 0 <= i < |c.list| && Alive(c.list[i]) && c.list[i].from == page.lowest && c.list[i].to + 1 == page.highest
  }

  lemma TakenIff(c: CacheState, page: Page)
    requires Ordered(c.list) && page.lowest < page.highest
    ensures Taken(c, page) <==> HasLive(c, page)
  {
    var e := CacheEntry(page.lowest, page.highest - 1, c.nextPtr);
    var r := Seek(c.list, e);
    if j :| 0 <= j < |c.list| && Alive(c.list[j]) && c.list[j].from == page.lowest && c.list[j].to + 1 == page.highest {
      assert Cmp(c.list[j], e) == 0;
      assert r < j ==> Cmp(c.list[r], c.list[j]) < 0;
    }
  }

  /**
    What filing a page comes to: nothing if a live image has its interval; else the copy is installed and,
    when no page was free, one image evicted if two live entries are drawn.
  */
  ghost predicate Added(c: CacheState, page: Page, draws: seq<Key>, d: CacheState) {
    page.lowest < page.highest &&
    if HasLive(c, page) then d == c
    else
      !Taken(c, page) &&
      var e := Install(c, page);
      if 0 < c.freePages then d == e
      else if CanEvict(e, draws) then Evicts(e, draws, d)
      else d.list == e.list && d.nextPtr == e.nextPtr
  }

  /** No pointer comes back to life. */
  ghost predicate NoneBack(c: CacheState, d: CacheState) {
    forall i :: 0 <= i < |d.list| && Alive(d.list[i]) ==> c.nextPtr <= d.list[i].ptr || FromLive(c.list, 0, d.list[i].ptr)
  }

  lemma AddedBack(c: CacheState, page: Page, draws: seq<Key>, d: CacheState)
    requires Added(c, page, draws, d)
    ensures NoneBack(c, d)
  {
    hide Seek, WithEntry;
    if !HasLive(c, page) {
      InstallGrown(c, page);
      var e := Install(c, page);
      forall i | 0 <= i < |e.list| && Alive(e.list[i]) ensures c.nextPtr <= e.list[i].ptr || FromLive(c.list, 0, e.list[i].ptr) {
        assert e.list[i].ptr == c.nextPtr || e.list[i] in c.list;
      }
      if c.freePages <= 0 && CanEvict(e, draws) {
        EvictsList(e, draws, d);
      }
    }
  }

  /** An eviction nulls the pointer of one entry and changes no other. */
  lemma EvictsList(c: CacheState, draws: seq<Key>, d: CacheState)
    requires Evicts(c, draws, d)
    ensures exists x :: 0 <= x < |c.list| && d.list == c.list[x := c.list[x].(ptr := 0)]
  {
    hide Seek, DrawnAt, LookedUp, Hits;
    var d1 := DrawnAt(c, draws, 0);
    DropsOne(c, draws[d1], draws[DrawnAt(c, draws, d1 + 1)], d);
  }

  lemma DropsOne(c: CacheState, k1: Key, k2: Key, d: CacheState)
    requires DropsLessUsed(c, k1, k2, d)
    ensures exists x :: 0 <= x < |c.list| && d.list == c.list[x := c.list[x].(ptr := 0)]
  {
    hide LookedUp, Seek;
    var c1 := LookedUp(c, k1, false);
    var c2 := LookedUp(c1, k2, false);
    var e1, e2 := FindKey(c.list, k1), FindKey(c.list, k2);
    var x := if FreqOf(c1, e1) < FreqOf(c2, e2) then e1 else e2;
    assert d.list == c.list[x := c.list[x].(ptr := 0)];
  }

  /** With a free page, an image of the page's interval is live afterwards, and nothing else has changed. */
  lemma AddedSpec(c: CacheState, page: Page, draws: seq<Key>, d: CacheState, all: nat)
    requires CacheOk(c, all) && page.InternalPage? && 1 <= |page.records| && Added(c, page, draws, d) && 0 < c.freePages
    ensures CacheOk(d, all) && HasLive(d, page)
    ensures LivePages(d) == if HasLive(c, page) then LivePages(c) else LivePages(c) + {page}
  {
    hide Seek, WithEntry;
    if !HasLive(c, page) {
      InstallOk(c, page, all);
      InstallGrown(c, page);
      var e := CacheEntry(page.lowest, page.highest - 1, c.nextPtr);
      assert Alive(d.list[Seek(c.list, e)]);
    }
  }

  class IndexCache {
    const allPageCnt: nat
    var list: seq<CacheEntry>
    var images: map<nat, Image>
    var nextPtr: nat
    var delayFreeList: seq<nat>
    var freePageCnt: int
    var skiplistNodeCnt: nat

    function Value(): CacheState
      reads this
    {
      CacheState(list, images, nextPtr, delayFreeList, freePageCnt, skiplistNodeCnt)
    }

    ghost predicate Valid()
      reads this
    {
      CacheOk(Value(), allPageCnt)
    }

    constructor (pages: nat)
      ensures Valid() && allPageCnt == pages && Value() == CacheState([], map[], 1, [], pages, 0) && LivePages(Value()) == {}
    {
      allPageCnt := pages;
      list, images, nextPtr, delayFreeList := [], map[], 1, [];
      freePageCnt, skiplistNodeCnt := pages, 0;
    }

    /** find_entry: the first entry at or after [from, to) in the skip list's order. */
    method FindEntry(from: Key, to: Key) returns (i: nat)
      requires from < to
      ensures i == Seek(list, CacheEntry(from, to - 1, 0))
    {
      i := 0;
      while i < |list| && Cmp(list[i], CacheEntry(from, to - 1, 0)) < 0
        invariant i <= |list|
        invariant Seek(list, CacheEntry(from, to - 1, 0)) == i + Seek(list[i..], CacheEntry(from, to - 1, 0))
      {
        assert list[i..][1..] == list[i + 1..];
        i := i + 1;
      }
    }

    /** invalidate: the pointer is swapped for null once, and its image waits to be freed. */
    method Invalidate(i: nat) returns (done: bool)
      requires Valid() && i < |list|
      modifies this
      ensures Valid() && Value() == Drop(old(Value()), i) && done == Alive(old(list)[i])
      ensures LivePages(Value()) <= old(LivePages(Value()))
    {
      DropOk(Value(), i, allPageCnt);
      var ptr := list[i].ptr;
      if ptr == 0 {
        return false;
      }
      list := list[i := list[i].(ptr := 0)];
      delayFreeList := delayFreeList + [ptr];
      done := true;
    }

    /** The leader frees one image whose delay has passed, whenever it looks something up. */
    method FreeDelayed()
      requires Valid() && delayFreeList != []
      modifies this
      ensures Valid() && Value() == FreeOldest(old(Value()))
      ensures LivePages(Value()) <= old(LivePages(Value()))
    {
      FreeOldestOk(Value(), allPageCnt);
      PointersKnown(Value(), allPageCnt);
      hide CacheOk, LivePages;
      var p := delayFreeList[0];
      images := images - {p};
      freePageCnt := freePageCnt + 1;
      delayFreeList := delayFreeList[1..];
    }

    /** One more access to the image of entry `i`. */
    method CountAccess(i: nat)
      requires Valid() && i < |list| && list[i].ptr in images
      modifies this`images
      ensures Valid() && Value() == Touch(old(Value()), i)
      ensures LivePages(Value()) <= old(LivePages(Value()))
    {
      hide CacheOk, LivePages;
      TouchOk(Value(), i, allPageCnt);
      var p := list[i].ptr;
      images := images[p := Image(images[p].page, images[p].freq + 1)];
    }

    /**
      search_from_cache: route `k` through the image found, counting the access. `aged` says whether
      the oldest waiting image has waited long enough.
    */
    method SearchFromCache(k: Key, isLeader: bool, aged: bool)
        returns (hit: bool, entry: nat, addr: GlobalAddress)
      requires Valid()
      modifies this
      ensures Valid() && LivePages(Value()) <= old(LivePages(Value()))
      ensures Value() == LookedUp(old(Value()), k, isLeader && aged)
      ensures if isLeader && aged && old(delayFreeList) != [] then
                && delayFreeList == old(delayFreeList)[1..] && freePageCnt == old(freePageCnt) + 1
                && images.Keys == old(images).Keys - {old(delayFreeList)[0]}
              else delayFreeList == old(delayFreeList) && freePageCnt == old(freePageCnt) && images.Keys == old(images).Keys
      ensures list == old(list) && hit == Hits(old(Value()), k)
      ensures hit ==> entry == FindKey(list, k) < |list| && list[entry].ptr in images
      ensures hit ==> list[entry].ptr in old(images) && images[list[entry].ptr].freq == old(images)[list[entry].ptr].freq + 1
                      && images[list[entry].ptr].page == old(images)[list[entry].ptr].page
      ensures forall q :: q in images && !(hit && q == list[entry].ptr) ==> q in old(images) && images[q] == old(images)[q]
      ensures hit ==> var p := images[list[entry].ptr].page;
                      p in LivePages(Value()) && p.InternalPage? && Covers(p, k) && addr == Route(p, k)
    {
      hide CacheOk, LivePages, PointersOk, Seek;
      PointersKnown(Value(), allPageCnt);
      if isLeader && delayFreeList != [] && aged {
        FreeDelayed();
      }
      var i := FindEntry(k, k + 1);
      if !(i < |list| && Alive(list[i]) && list[i].from <= k && k <= list[i].to) {
        return false, 0, NULL;
      }
      HitImage(Value(), allPageCnt, k);
      CountAccess(i);
      HitImage(Value(), allPageCnt, k);
      addr := RouteImage(images[list[i].ptr].page, k);
      hit, entry := true, i;
    }

    /** The routing loop of search_from_cache. */
    static method RouteImage(page: Page, k: Key) returns (addr: GlobalAddress)
      requires page.InternalPage? && 1 <= |page.records|
      ensures addr == Route(page, k)
    {
      var cnt := |page.records|;
      if k < page.records[0].key {
        return page.leftmost;
      }
      var i := 1;
      while i < cnt
        invariant 1 <= i <= cnt
        invariant RouteFrom(page.records, k, 0) == RouteFrom(page.records, k, i)
      {
        if k < page.records[i].key {
          return page.records[i - 1].ptr;
        }
        i := i + 1;
      }
      addr := page.records[cnt - 1].ptr;
    }

    /** Draw keys until one hits; `drawn` is the draw used, `|draws|` when none is left. */
    method RandomEntry(draws: seq<Key>, start: nat) returns (drawn: nat, entry: nat, freq: nat)
      requires Valid() && start <= |draws|
      modifies this
      ensures Valid() && LivePages(Value()) <= old(LivePages(Value()))
      ensures list == old(list) && nextPtr == old(nextPtr) && freePageCnt == old(freePageCnt) && drawn == DrawnAt(old(Value()), draws, start)
      ensures Value() == if drawn < |draws| then LookedUp(old(Value()), draws[drawn], false) else old(Value())
      ensures drawn < |draws| ==> entry == FindKey(list, draws[drawn]) < |list| && Alive(list[entry]) && freq == FreqOf(Value(), entry)
    {
      hide CacheOk, LivePages;
      drawn, entry, freq := start, 0, 0;
      while drawn < |draws|
        invariant Value() == old(Value()) && start <= drawn <= |draws|
        invariant DrawnAt(Value(), draws, start) == DrawnAt(Value(), draws, drawn)
      {
        var hit, e, _ := SearchFromCache(draws[drawn], false, false);
        if hit {
          PointersKnown(Value(), allPageCnt);
          return drawn, e, images[list[e].ptr].freq;
        }
        drawn := drawn + 1;
      }
    }

    /** evict_one: of two drawn live entries drop the one used less. */
    method EvictOne(draws: seq<Key>) returns (evicted: bool)
      requires Valid()
      modifies this
      ensures Valid() && LivePages(Value()) <= old(LivePages(Value()))
      ensures freePageCnt == old(freePageCnt) && evicted == CanEvict(old(Value()), draws)
      ensures evicted ==> Evicts(old(Value()), draws, Value())
      ensures !evicted ==> list == old(list) && nextPtr == old(nextPtr)
      ensures LiveCount(list) == old(LiveCount(list)) - (if evicted then 1 else 0)
    {
      hide CacheOk, LivePages, PointersOk, LookedUp, FindKey, DrawnAt, LiveCount, Hits;
      evicted := false;
      ghost var c := Value();
      PointersKnown(c, allPageCnt);
      var d1, e1, freq1 := RandomEntry(draws, 0);
      if d1 == |draws| {
        return;
      }
      ghost var c1 := Value();
      PointersKnown(c1, allPageCnt);
      DrawnSame(c, c1, draws, d1 + 1);
      var d2, e2, freq2 := RandomEntry(draws, d1 + 1);
      if d2 == |draws| {
        return;
      }
      PointersKnown(Value(), allPageCnt);
      DropOk(Value(), e1, allPageCnt);
      DropOk(Value(), e2, allPageCnt);
      if freq1 < freq2 {
        evicted := Invalidate(e1);
      } else {
        evicted := Invalidate(e2);
      }
    }

    /** add_entry: a new entry for an interval that has none. */
    method AddEntry(from: Key, to: Key, ptr: nat) returns (inserted: bool)
      requires from < to
      modifies this`list
      ensures var e := CacheEntry(from, to - 1, ptr);
              && inserted == !SameKey(old(list), Seek(old(list), e), e)
              && list == if inserted then WithEntry(old(list), e) else old(list)
    {
      var e := CacheEntry(from, to - 1, ptr);
      var i := FindEntry(from, to);
      SeekIgnoresPtr(list, e, e.(ptr := 0));
      inserted := !SameKey(list, i, e);
      if inserted {
        list := list[..i] + [e] + list[i..];
      }
    }

    /** The null pointer of an existing entry for the same interval is swapped for the copy. */
    method Revive(from: Key, to: Key, ptr: nat) returns (revived: bool)
      requires from < to
      modifies this`list
      ensures var e := CacheEntry(from, to - 1, ptr);
              var i := Seek(old(list), e);
              && revived == (SameKey(old(list), i, e) && !Alive(old(list)[i]))
              && list == if revived then WithEntry(old(list), e) else old(list)
    {
      var e := CacheEntry(from, to - 1, ptr);
      var i := FindEntry(from, to);
      SeekIgnoresPtr(list, e, e.(ptr := 0));
      revived := i < |list| && list[i].from == from && list[i].to == to - 1 && list[i].ptr == 0;
      if revived {
        list := list[i := list[i].(ptr := ptr)];
      }
    }

    /** The copy goes in unless a live image is filed under the same interval. */
    method Place(page: Page) returns (placed: bool)
      requires page.lowest < page.highest
      modifies this
      ensures placed == !Taken(old(Value()), page)
      ensures Value() == if placed then Install(old(Value()), page) else old(Value())
    {
      hide Seek, WithEntry, Cmp, SameKey;
      placed := AddEntry(page.lowest, page.highest, nextPtr);
      if placed {
        skiplistNodeCnt := skiplistNodeCnt + 1;
      } else {
        placed := Revive(page.lowest, page.highest, nextPtr);
      }
      if placed {
        images, nextPtr := images[nextPtr := Image(page, 0)], nextPtr + 1;
        freePageCnt := freePageCnt - 1;
      }
    }

    /**
      add_to_cache: install a copy unless a live image has the same interval, and evict when no page
      was free. `settled` is false only when the eviction never found two live entries.
    */
    method AddToCache(page: Page, draws: seq<Key>) returns (added: bool, settled: bool)
      requires Valid()
      requires page.InternalPage? && 1 <= |page.records| && page.lowest < page.highest
      modifies this
      ensures Valid() && LivePages(Value()) <= old(LivePages(Value())) + {page}
      ensures added == !HasLive(old(Value()), page)
      ensures Added(old(Value()), page, draws, Value())
      ensures !added ==> Value() == old(Value()) && settled
      ensures added && 0 < old(freePageCnt) ==> Value() == Install(old(Value()), page) && settled
      ensures added && old(freePageCnt) <= 0 ==> settled == CanEvict(Install(old(Value()), page), draws)
      ensures added && old(freePageCnt) <= 0 && settled ==> Evicts(Install(old(Value()), page), draws, Value())
      ensures settled && old(LiveCount(list)) <= allPageCnt ==> LiveCount(list) <= allPageCnt
    {
      var v := freePageCnt;
      ghost var before := Value();
      TakenIff(before, page);
      if !Taken(before, page) {
        InstallOk(before, page, allPageCnt);
      }
      added := Place(page);
      settled := true;
      if added && v <= 0 {
        settled := EvictOne(draws);
      } else if added {
        LiveWithin(Value(), allPageCnt);
      }
    }

    /** search_range_from_cache: the images of the live entries met from the seek position on. */
    method SearchRange(from: Key, to: Key) returns (result: seq<nat>)
      ensures result == RangeScan(list, FindKey(list, from), to)
    {
      result := [];
      var i := FindEntry(from, from + 1);
      while i < |list|
        invariant i <= |list|
        invariant RangeScan(list, FindKey(list, from), to) == result + RangeScan(list, i, to)
      {
        if Alive(list[i]) {
          if to < list[i].from {
            return;
          }
          result := result + [list[i].ptr];
        }
        i := i + 1;
      }
    }
  }

  /** While the free count is not negative the live images fit the capacity. */
  lemma LiveWithin(c: CacheState, all: nat)
    requires CacheOk(c, all) && 0 <= c.freePages
    ensures LiveCount(c.list) <= all
  {
  }

  lemma SeekIgnoresPtr(list: seq<CacheEntry>, a: CacheEntry, b: CacheEntry)
    requires a.from == b.from && a.to == b.to
    ensures Seek(list, a) == Seek(list, b)
  {
  }
}
