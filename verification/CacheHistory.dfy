/**
  The index cache beside a running tree: any sequence of installations of pages read at any earlier
  moment, invalidations, evictions, frees and lookups (include/IndexCache.h:69-259).
*/
module CacheHistory {
  import opened Layout
  import opened BLink
  import opened Steps
  import opened Runs
  import opened CacheOrder
  import opened IndexCaches
  import opened RangeQueries
  import opened GrowingRuns

  /** `InstallCopy` files a copy of page `a` as it was read at moment `at` of the tree's run. */
  datatype CacheEvent =
    | InstallCopy(at: nat, a: GlobalAddress)
    | DropEntry(i: nat)
    | FreeImage
    | CountHit(i: nat)

  ghost predicate CacheMoves(ss: seq<State>, j: nat, c: CacheState, e: CacheEvent, d: CacheState)
    requires j < |ss|
  {
    match e
    case InstallCopy(at, a) =>
      && at <= j && a in ss[at].pages && ss[at].pages[a].level == 1
      && ss[at].pages[a].lowest < ss[at].pages[a].highest
      && !Taken(c, ss[at].pages[a]) && d == Install(c, ss[at].pages[a])
    case DropEntry(i) => i < |c.list| && Alive(c.list[i]) && d == Drop(c, i)
    case FreeImage => c.delayFree != [] && d == FreeOldest(c)
    case CountHit(i) => i < |c.list| && c.list[i].ptr in c.images && d == Touch(c, i)
  }

  /** What a cache with room for `all` pages goes through up to moment `j` of the run. */
  ghost predicate CacheRun(ss: seq<State>, j: nat, all: nat, cs: seq<CacheState>, es: seq<CacheEvent>) {
    && j < |ss| && |cs| == |es| + 1
    && cs[0] == NoEntries(all)
    && forall n :: 0 <= n < |es| ==> CacheMoves(ss, j, cs[n], es[n], cs[n + 1])
  }

  /** The interval of `e` is the range a level-1 page had at some moment up to `j`. */
  ghost predicate PastRange(ss: seq<State>, j: nat, e: CacheEntry) {
    exists i, a :: 0 <= i <= j && i < |ss| && RangeAt(ss[i], a, e)
  }

  ghost predicate RangeAt(s: State, a: GlobalAddress, e: CacheEntry) {
    a in s.pages && s.pages[a].level == 1 && s.pages[a].lowest == e.from && s.pages[a].highest == e.to + 1
  }

  ghost predicate Historic(ss: seq<State>, j: nat, list: seq<CacheEntry>) {
    forall x :: 0 <= x < |list| ==> PastRange(ss, j, list[x])
  }

  lemma MoveOk(ss: seq<State>, es: seq<Event>, j: nat, all: nat, c: CacheState, e: CacheEvent, d: CacheState)
    requires Run(ss, es) && j < |ss| && CacheOk(c, all) && CacheMoves(ss, j, c, e, d)
    ensures CacheOk(d, all)
  {
    hide CacheOk, Run;
    match e
    case InstallCopy(at, a) =>
      ImageShape(ss, es, at, a);
      InstallOk(c, ss[at].pages[a], all);
    case DropEntry(i) => DropOk(c, i, all);
    case FreeImage => FreeOldestOk(c, all);
    case CountHit(i) => TouchOk(c, i, all);
  }

  lemma ImageShape(ss: seq<State>, es: seq<Event>, i: nat, a: GlobalAddress)
    requires Run(ss, es) && i < |ss| && a in ss[i].pages && ss[i].pages[a].level == 1
    ensures var p := ss[i].pages[a]; p.InternalPage? && 1 <= |p.records| && p.lowest < p.highest
  {
    RunInv(ss, es, i);
    assert PageOk(ss[i].pages[a]);
  }

  lemma MoveHistoric(ss: seq<State>, j: nat, c: CacheState, e: CacheEvent, d: CacheState)
    requires j < |ss| && CacheMoves(ss, j, c, e, d) && Historic(ss, j, c.list)
    ensures Historic(ss, j, d.list)
  {
    match e
    case InstallCopy(at, a) =>
      var p := ss[at].pages[a];
      var n := CacheEntry(p.lowest, p.highest - 1, c.nextPtr);
      InstallGrown(c, p);
      assert RangeAt(ss[at], a, n);
      forall x | 0 <= x < |d.list| ensures PastRange(ss, j, d.list[x]) {
        assert d.list[x] == n || d.list[x] in c.list;
      }
    case DropEntry(i) =>
      forall x | 0 <= x < |d.list| ensures PastRange(ss, j, d.list[x]) {
        SameInterval(ss, j, c.list[x], d.list[x]);
      }
    case FreeImage =>
    case CountHit(i) =>
  }

  lemma SameInterval(ss: seq<State>, j: nat, e: CacheEntry, f: CacheEntry)
    requires PastRange(ss, j, e) && e.from == f.from && e.to == f.to
    ensures PastRange(ss, j, f)
  {
    var i, a :| 0 <= i <= j && i < |ss| && RangeAt(ss[i], a, e);
    assert RangeAt(ss[i], a, f);
  }

  lemma NothingCached(all: nat)
    ensures CacheOk(NoEntries(all), all)
  {
  }

  /** After any sequence of cache operations no page is lost and every interval was a page's range. */
  lemma {:induction false} CacheRunInv(ss: seq<State>, es: seq<Event>, j: nat, all: nat, cs: seq<CacheState>, cvs: seq<CacheEvent>, n: nat)
    requires Run(ss, es) && CacheRun(ss, j, all, cs, cvs) && n < |cs|
    ensures CacheOk(cs[n], all) && Historic(ss, j, cs[n].list)
    ensures cs[n].freePages + LiveCount(cs[n].list) + |cs[n].delayFree| == all
  {
    hide CacheMoves, Run, PointersOk, AllFiled;
    if n == 0 {
      NothingCached(all);
    } else {
      CacheRunInv(ss, es, j, all, cs, cvs, n - 1);
      assert CacheMoves(ss, j, cs[n - 1], cvs[n - 1], cs[n - 1 + 1]);
      MoveOk(ss, es, j, all, cs[n - 1], cvs[n - 1], cs[n]);
      MoveHistoric(ss, j, cs[n - 1], cvs[n - 1], cs[n]);
    }
  }

  // ---------------------------------------------------------------- intervals nest

  lemma RangesLaminar(ss: seq<State>, es: seq<Event>, i: nat, j: nat, a: GlobalAddress, b: GlobalAddress, e: CacheEntry, f: CacheEntry)
    requires Run(ss, es) && i <= j < |ss| && RangeAt(ss[i], a, e) && RangeAt(ss[j], b, f)
    ensures Laminar(e, f)
  {
    RangesNest(ss, es, i, j, a);
    assert Within(ss[j].pages[b], ss[i].pages[a]) || Disjoint(ss[j].pages[b], ss[i].pages[a]);
  }

  lemma HistoricLaminar(ss: seq<State>, es: seq<Event>, j: nat, list: seq<CacheEntry>)
    requires Run(ss, es) && j < |ss| && Historic(ss, j, list)
    ensures LaminarList(list)
  {
    hide Run, Laminar;
    forall x, y | 0 <= x < |list| && 0 <= y < |list| ensures Laminar(list[x], list[y]) {
      assert PastRange(ss, j, list[x]) && PastRange(ss, j, list[y]);
      var i, a :| 0 <= i <= j && i < |ss| && RangeAt(ss[i], a, list[x]);
      var k, b :| 0 <= k <= j && k < |ss| && RangeAt(ss[k], b, list[y]);
      if i <= k {
        RangesLaminar(ss, es, i, k, a, b, list[x], list[y]);
      } else {
        RangesLaminar(ss, es, k, i, b, a, list[y], list[x]);
      }
      LaminarEither(list[x], list[y]);
    }
  }

  lemma LaminarEither(e: CacheEntry, f: CacheEntry)
    ensures Laminar(e, f) <==> Laminar(f, e)
  {
  }

  /**
    Beside any run of the tree, and after any cache operations, a lookup that ends at an interval
    covering the key ends at the narrowest cached interval that does.
  */
  lemma LookupNarrowest(ss: seq<State>, es: seq<Event>, j: nat, all: nat, cs: seq<CacheState>, cvs: seq<CacheEvent>, n: nat, k: Key, i: nat)
    requires Run(ss, es) && CacheRun(ss, j, all, cs, cvs) && n < |cs|
    requires i < |cs[n].list| && CoversKey(cs[n].list[i], k)
    requires FindKey(cs[n].list, k) < |cs[n].list| && CoversKey(cs[n].list[FindKey(cs[n].list, k)], k)
    ensures var r := cs[n].list[FindKey(cs[n].list, k)]; cs[n].list[i].from <= r.from && r.to <= cs[n].list[i].to
  {
    CacheRunInv(ss, es, j, all, cs, cvs, n);
    HistoricLaminar(ss, es, j, cs[n].list);
    FindNarrowest(cs[n].list, k, i);
  }

  ghost predicate Narrowest(list: seq<CacheEntry>, x: nat, k: Key)
    requires x < |list|
  {
    CoversKey(list[x], k)
    && forall i :: 0 <= i < |list| && CoversKey(list[i], k) ==> list[i].from <= list[x].from && list[x].to <= list[i].to
  }

  lemma FindsNarrowest(list: seq<CacheEntry>, x: nat, k: Key)
    requires LaminarList(list) && x < |list| && CoversKey(list[x], k)
    ensures EndsFirst(list, x, k) <==> Narrowest(list, x, k)
  {
    if EndsFirst(list, x, k) {
      forall i | 0 <= i < |list| && CoversKey(list[i], k) ensures list[i].from <= list[x].from && list[x].to <= list[i].to {
        assert Laminar(list[i], list[x]);
      }
    }
  }

  /**
    Beside any run of the tree a lookup hits exactly when the narrowest cached interval that covers the
    key, dead ones included, is live and no cached interval lies between the key and its end.
  */
  lemma LookupHitsIff(ss: seq<State>, es: seq<Event>, j: nat, all: nat, cs: seq<CacheState>, cvs: seq<CacheEvent>, n: nat, k: Key)
    requires Run(ss, es) && CacheRun(ss, j, all, cs, cvs) && n < |cs|
    ensures Hits(cs[n], k) <==>
            exists x :: 0 <= x < |cs[n].list| && Alive(cs[n].list[x]) && Narrowest(cs[n].list, x, k) && Unshadowed(cs[n].list, x, k)
  {
    hide Run, LaminarList, EndsFirst;
    CacheRunInv(ss, es, j, all, cs, cvs, n);
    HistoricLaminar(ss, es, j, cs[n].list);
    var list := cs[n].list;
    HitsIff(cs[n], k);
    if x :| 0 <= x < |list| && Finds(list, x, k) {
      FindsNarrowest(list, x, k);
    }
    if x :| 0 <= x < |list| && Alive(list[x]) && Narrowest(list, x, k) && Unshadowed(list, x, k) {
      FindsNarrowest(list, x, k);
      assert Finds(list, x, k);
    }
  }

  // ---------------------------------------------------------------- lookups that miss

  function NoEntries(all: nat): CacheState {
    CacheState([], map[], 1, [], all, 0)
  }

  /** A live interval covers the key and still the lookup misses. */
  ghost predicate Missed(c: CacheState, k: Key) {
    !Hits(c, k) && exists x :: 0 <= x < |c.list| && Alive(c.list[x]) && CoversKey(c.list[x], k)
  }

  /** A live interval covers the key, no interval lies between the key and its end, and still the lookup misses. */
  ghost predicate MissedUnshadowed(c: CacheState, k: Key) {
    !Hits(c, k) && exists x :: 0 <= x < |c.list| && Alive(c.list[x]) && Unshadowed(c.list, x, k)
  }

  /**
    Whenever a page of level 1 takes over the right part of another one's former range, and both are
    cached, every key of the left part is shadowed: the former image covers it and is not found.
  */
  lemma ShadowedMiss(ss: seq<State>, j: nat, i: nat, a: GlobalAddress, b: GlobalAddress, all: nat, k: Key)
      returns (cs: seq<CacheState>, cvs: seq<CacheEvent>)
    requires i <= j < |ss| && a in ss[i].pages && b in ss[j].pages && ss[i].pages[a].level == ss[j].pages[b].level == 1
    requires ss[i].pages[a].lowest <= k < ss[j].pages[b].lowest < ss[j].pages[b].highest == ss[i].pages[a].highest
    ensures CacheRun(ss, j, all, cs, cvs) && cvs == [InstallCopy(i, a), InstallCopy(j, b)] && Missed(cs[2], k)
  {
    var p, q := ss[i].pages[a], ss[j].pages[b];
    var e, f := CacheEntry(p.lowest, p.highest - 1, 1), CacheEntry(q.lowest, q.highest - 1, 2);
    var c := Install(NoEntries(all), p);
    assert c.list == [e];
    assert Seek(c.list, f) == 0;
    var d := Install(c, q);
    assert d.list == [f, e];
    cs, cvs := [NoEntries(all), c, d], [InstallCopy(i, a), InstallCopy(j, b)];
    assert FindKey(d.list, k) == 0;
    assert Alive(d.list[1]) && CoversKey(d.list[1], k);
  }

  /**
    Whenever a page of level 1 has given up a part of its range, and of its two cached images the one of
    the narrower range is invalidated, every key of that range is missed, although the other image covers it.
  */
  lemma DeadMiss(ss: seq<State>, j: nat, i: nat, a: GlobalAddress, all: nat, k: Key)
      returns (cs: seq<CacheState>, cvs: seq<CacheEvent>)
    requires i <= j < |ss| && a in ss[i].pages && a in ss[j].pages && ss[i].pages[a].level == ss[j].pages[a].level == 1
    requires ss[i].pages[a].lowest == ss[j].pages[a].lowest <= k < ss[j].pages[a].highest < ss[i].pages[a].highest
    ensures CacheRun(ss, j, all, cs, cvs) && cvs == [InstallCopy(i, a), InstallCopy(j, a), DropEntry(0)]
    ensures MissedUnshadowed(cs[3], k)
  {
    var p, q := ss[i].pages[a], ss[j].pages[a];
    var e, f := CacheEntry(p.lowest, p.highest - 1, 1), CacheEntry(q.lowest, q.highest - 1, 2);
    var c := Install(NoEntries(all), p);
    assert c.list == [e];
    assert Seek(c.list, f) == 0;
    var d := Install(c, q);
    assert d.list == [f, e];
    var g := Drop(d, 0);
    assert g.list == [f.(ptr := 0), e];
    cs, cvs := [NoEntries(all), c, d, g], [InstallCopy(i, a), InstallCopy(j, a), DropEntry(0)];
    assert FindKey(g.list, k) == 0;
    assert Alive(g.list[1]) && Unshadowed(g.list, 1, k);
  }

  /** Every copy was read when the root was at level 3 or higher, as nodes cache nothing before. */
  ghost predicate CachedLate(ss: seq<State>, cvs: seq<CacheEvent>) {
    forall n :: 0 <= n < |cvs| && cvs[n].InstallCopy? ==>
      cvs[n].at < |ss| && ss[cvs[n].at].root in ss[cvs[n].at].pages && 3 <= ss[cvs[n].at].pages[ss[cvs[n].at].root].level
  }

  /** Both kinds of misses happen: there are runs of a tree and of caches beside it that end in one. */
  lemma LookupCanMiss(all: nat)
      returns (ss: seq<State>, es: seq<Event>, cs: seq<CacheState>, cvs: seq<CacheEvent>,
               ds: seq<CacheState>, dvs: seq<CacheEvent>, k: Key)
    ensures Run(ss, es) && CachedLate(ss, cvs) && CachedLate(ss, dvs)
    ensures CacheRun(ss, |ss| - 1, all, cs, cvs) && Missed(cs[|cs| - 1], k)
    ensures CacheRun(ss, |ss| - 1, all, ds, dvs) && MissedUnshadowed(ds[|ds| - 1], k)
  {
    hide Missed, MissedUnshadowed, CacheRun, Moves, Initial;
    var q, right;
    ss, es, q, right := LevelOneSplits();
    var i, j := |ss| - 2, |ss| - 1;
    k := ss[i].pages[q].lowest;
    FormerRoot(ss, es, i, j);
    cs, cvs := ShadowedMiss(ss, j, i, q, right, all, k);
    ds, dvs := DeadMiss(ss, j, i, q, all, k);
  }

  // ---------------------------------------------------------------- range searches

  lemma PastNests(ss: seq<State>, es: seq<Event>, i: nat, j: nat, a: GlobalAddress, e: CacheEntry)
    requires Run(ss, es) && i <= j < |ss| && RangeAt(ss[i], a, e)
    ensures EntryNests(ss[j], e)
  {
    RangesNest(ss, es, i, j, a);
    forall b | b in ss[j].pages && ss[j].pages[b].level == 1
      ensures (e.from <= ss[j].pages[b].lowest && ss[j].pages[b].highest <= e.to + 1)
              || ss[j].pages[b].highest <= e.from || e.to + 1 <= ss[j].pages[b].lowest
    {
      assert Within(ss[j].pages[b], ss[i].pages[a]) || Disjoint(ss[j].pages[b], ss[i].pages[a]);
    }
  }

  lemma RunNests(ss: seq<State>, es: seq<Event>, j: nat, all: nat, cs: seq<CacheState>, cvs: seq<CacheEvent>, n: nat)
    requires Run(ss, es) && CacheRun(ss, j, all, cs, cvs) && n < |cs|
    ensures LiveNest(cs[n], ss[j])
  {
    hide Run, EntryNests;
    CacheRunInv(ss, es, j, all, cs, cvs, n);
    forall x | 0 <= x < |cs[n].list| ensures EntryNests(ss[j], cs[n].list[x]) {
      assert PastRange(ss, j, cs[n].list[x]);
      var i, a :| 0 <= i <= j && i < |ss| && RangeAt(ss[i], a, cs[n].list[x]);
      PastNests(ss, es, i, j, a, cs[n].list[x]);
    }
  }

  /**
    Beside any run of the tree, if each level-1 page of the moment has a live image, a range search
    returns all of those that overlap the range, whatever stale images are live as well.
  */
  lemma RangeSearchComplete(ss: seq<State>, es: seq<Event>, j: nat, all: nat, cs: seq<CacheState>, cvs: seq<CacheEvent>, n: nat, from: Key, to: Key)
    requires Run(ss, es) && CacheRun(ss, j, all, cs, cvs) && n < |cs| && from <= to && AllCached(cs[n], ss[j])
    ensures forall p :: p in FoundPtrs(cs[n], from, to) ==> p in cs[n].images
    ensures Spans(ss[j], Images(cs[n], FoundPtrs(cs[n], from, to)), from, to)
  {
    hide Run, LiveNest, AllCached;
    CacheRunInv(ss, es, j, all, cs, cvs, n);
    RunInv(ss, es, j);
    RunNests(ss, es, j, all, cs, cvs, n);
    FoundSpans(cs[n], all, ss[j], from, to);
  }

  // ---------------------------------------------------------------- each image is dropped once

  ghost predicate Drops(c: CacheState, e: CacheEvent, p: nat) {
    e.DropEntry? && e.i < |c.list| && c.list[e.i].ptr == p
  }

  /** No live entry holds `p`, and no new one ever will. */
  ghost predicate Gone(c: CacheState, p: nat) {
    0 < p < c.nextPtr && forall i :: 0 <= i < |c.list| ==> c.list[i].ptr != p
  }

  lemma MoveGone(ss: seq<State>, j: nat, c: CacheState, e: CacheEvent, d: CacheState, p: nat)
    requires j < |ss| && CacheMoves(ss, j, c, e, d) && Gone(c, p)
    ensures Gone(d, p)
  {
  }

  lemma {:induction false} StaysGone(ss: seq<State>, j: nat, all: nat, cs: seq<CacheState>, cvs: seq<CacheEvent>, m: nat, n: nat, p: nat)
    requires CacheRun(ss, j, all, cs, cvs) && m <= n < |cs| && Gone(cs[m], p)
    ensures Gone(cs[n], p)
    decreases n
  {
    if m < n {
      StaysGone(ss, j, all, cs, cvs, m, n - 1, p);
      assert CacheMoves(ss, j, cs[n - 1], cvs[n - 1], cs[n - 1 + 1]);
      MoveGone(ss, j, cs[n - 1], cvs[n - 1], cs[n], p);
    }
  }

  /** An installed image enters the list of pages to free at most once. */
  lemma DroppedOnce(ss: seq<State>, es: seq<Event>, j: nat, all: nat, cs: seq<CacheState>, cvs: seq<CacheEvent>, m: nat, n: nat, p: nat)
    requires Run(ss, es) && CacheRun(ss, j, all, cs, cvs) && m < n < |cvs|
    requires Drops(cs[m], cvs[m], p)
    ensures !Drops(cs[n], cvs[n], p)
  {
    CacheRunInv(ss, es, j, all, cs, cvs, m);
    assert CacheMoves(ss, j, cs[m], cvs[m], cs[m + 1]);
    var c, i := cs[m], cvs[m].i;
    assert c.list[i].ptr in c.images;
    assert Gone(cs[m + 1], p) by {
      forall x | 0 <= x < |c.list| && x != i ensures c.list[x].ptr != p {
        assert Alive(c.list[x]) ==> c.list[x].ptr != c.list[i].ptr;
      }
    }
    StaysGone(ss, j, all, cs, cvs, m + 1, n, p);
  }

  // ---------------------------------------------------------------- how often images are used

  /** The lookup counted hit the image of pointer `p`. */
  ghost predicate UseOf(c: CacheState, e: CacheEvent, p: nat) {
    e.CountHit? && e.i < |c.list| && c.list[e.i].ptr == p
  }

  /** How many lookups have hit the image of pointer `p` in the first `n` operations. */
  ghost function Uses(cs: seq<CacheState>, cvs: seq<CacheEvent>, n: nat, p: nat): nat
    requires n <= |cvs| < |cs|
  {
    if n == 0 then 0 else Uses(cs, cvs, n - 1, p) + (if UseOf(cs[n - 1], cvs[n - 1], p) then 1 else 0)
  }

  /** An image's access count is the number of lookups that hit it since it was installed; before that none did. */
  lemma {:induction false} FreqIsUses(ss: seq<State>, es: seq<Event>, j: nat, all: nat, cs: seq<CacheState>, cvs: seq<CacheEvent>, n: nat, p: nat)
    requires Run(ss, es) && CacheRun(ss, j, all, cs, cvs) && n < |cs|
    ensures p in cs[n].images ==> cs[n].images[p].freq == Uses(cs, cvs, n, p)
    ensures p == 0 || cs[n].nextPtr <= p ==> Uses(cs, cvs, n, p) == 0
  {
    hide CacheMoves, Run, PointersOk, AllFiled, Historic;
    if 0 < n {
      FreqIsUses(ss, es, j, all, cs, cvs, n - 1, p);
      CacheRunInv(ss, es, j, all, cs, cvs, n - 1);
      assert CacheMoves(ss, j, cs[n - 1], cvs[n - 1], cs[n - 1 + 1]);
      MoveUses(ss, j, cs[n - 1], cvs[n - 1], cs[n], p);
    }
  }

  lemma MoveUses(ss: seq<State>, j: nat, c: CacheState, e: CacheEvent, d: CacheState, p: nat)
    requires j < |ss| && CacheMoves(ss, j, c, e, d) && PointersOk(c)
    ensures c.nextPtr <= d.nextPtr
    ensures UseOf(c, e, p) ==> 0 < p < c.nextPtr
    ensures p in d.images && p in c.images ==> d.images[p].freq == c.images[p].freq + if UseOf(c, e, p) then 1 else 0
    ensures p in d.images && p !in c.images ==> c.nextPtr <= p && d.images[p].freq == 0
  {
  }

  /** Of the two live entries drawn, an eviction drops the one whose image fewer lookups have hit, the second on a tie. */
  lemma EvictsLessUsed(ss: seq<State>, es: seq<Event>, j: nat, all: nat, cs: seq<CacheState>, cvs: seq<CacheEvent>, n: nat,
                       draws: seq<Key>, e: CacheState)
    requires Run(ss, es) && CacheRun(ss, j, all, cs, cvs) && n < |cs| && Evicts(cs[n], draws, e)
    ensures var list := cs[n].list;
            var d1 := DrawnAt(cs[n], draws, 0);
            d1 < |draws| &&
            var d2 := DrawnAt(cs[n], draws, d1 + 1);
            d2 < |draws| &&
            var e1, e2 := FindKey(list, draws[d1]), FindKey(list, draws[d2]);
            && e1 < |list| && e2 < |list| && Alive(list[e1]) && Alive(list[e2])
            && var x := if Uses(cs, cvs, n, list[e1].ptr) < Uses(cs, cvs, n, list[e2].ptr) then e1 else e2;
               e.list == list[x := list[x].(ptr := 0)]
  {
    hide Run, CacheRun, CacheMoves, Historic, Seek, DropsLessUsed;
    var c := cs[n];
    DropsFewer(c, draws[DrawnAt(c, draws, 0)], draws[DrawnAt(c, draws, DrawnAt(c, draws, 0) + 1)], e);
    FreqIsUses(ss, es, j, all, cs, cvs, n, c.list[FindKey(c.list, draws[DrawnAt(c, draws, 0)])].ptr);
    FreqIsUses(ss, es, j, all, cs, cvs, n, c.list[FindKey(c.list, draws[DrawnAt(c, draws, DrawnAt(c, draws, 0) + 1)])].ptr);
  }

  /** The same in terms of the counts: the lookups of the eviction itself make no difference. */
  lemma DropsFewer(c: CacheState, k1: Key, k2: Key, e: CacheState)
    requires DropsLessUsed(c, k1, k2, e)
    ensures PointersOk(c)
    ensures var e1, e2 := FindKey(c.list, k1), FindKey(c.list, k2);
            && e1 < |c.list| && e2 < |c.list| && Alive(c.list[e1]) && Alive(c.list[e2])
            && var x := if FreqOf(c, e1) < FreqOf(c, e2) then e1 else e2;
               e.list == c.list[x := c.list[x].(ptr := 0)]
  {
    hide Seek;
    LookedUpSpec(c, k1, false);
    var c1 := LookedUp(c, k1, false);
    LookedUpSpec(c1, k2, false);
    var c2 := LookedUp(c1, k2, false);
    hide LookedUp;
    var e1, e2 := FindKey(c.list, k1), FindKey(c.list, k2);
    DropList(c2, if FreqOf(c1, e1) < FreqOf(c2, e2) then e1 else e2);
  }

  lemma DropList(c: CacheState, x: nat)
    requires x < |c.list| && Alive(c.list[x])
    ensures Drop(c, x).list == c.list[x := c.list[x].(ptr := 0)]
  {
  }

  // ---------------------------------------------------------------- the order of freeing

  /** The pointers dropped in the first `n` operations, in order. */
  ghost function DroppedPtrs(cs: seq<CacheState>, cvs: seq<CacheEvent>, n: nat): seq<nat>
    requires n <= |cvs| < |cs|
  {
    if n == 0 then []
    else
      var c, e := cs[n - 1], cvs[n - 1];
      DroppedPtrs(cs, cvs, n - 1) + (if e.DropEntry? && e.i < |c.list| then [c.list[e.i].ptr] else [])
  }

  function Frees(cvs: seq<CacheEvent>): nat {
    if cvs == [] then 0 else Frees(cvs[..|cvs| - 1]) + (if cvs[|cvs| - 1].FreeImage? then 1 else 0)
  }

  /** Images are freed in the order in which they were dropped: those that wait are the last ones dropped. */
  lemma {:induction false} FreedInOrder(ss: seq<State>, j: nat, all: nat, cs: seq<CacheState>, cvs: seq<CacheEvent>, n: nat)
    requires CacheRun(ss, j, all, cs, cvs) && n < |cs|
    ensures Frees(cvs[..n]) <= |DroppedPtrs(cs, cvs, n)| && cs[n].delayFree == DroppedPtrs(cs, cvs, n)[Frees(cvs[..n])..]
  {
    if 0 < n {
      FreedInOrder(ss, j, all, cs, cvs, n - 1);
      assert CacheMoves(ss, j, cs[n - 1], cvs[n - 1], cs[n - 1 + 1]);
      assert cvs[..n][..n - 1] == cvs[..n - 1];
    }
  }
}
