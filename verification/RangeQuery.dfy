/**
  Range queries (src/Tree.cpp:461-540; include/IndexCache.h:186-207): the leaves are collected from
  the cached level-1 pages, read in batches of 32 and filtered.
*/
module RangeQueries {
  import opened Layout
  import opened LeafPages
  import opened InternalPages
  import opened BLink
  import opened Steps
  import opened Levels
  import opened TreeState
  import opened CacheOrder
  import opened IndexCaches

  const PARA_FETCH: nat := 32

  // ---------------------------------------------------------------- specification

  /** Child `i` may hold keys of [from, to]; its range is taken as closed on both sides. */
  predicate Fetched(p: Page, i: nat, from: Key, to: Key)
    requires p.InternalPage? && i <= |p.records|
  {
    !(SepEnd(p, i) < from || to < SepKey(p, i))
  }

  /** The children of one page to read, from child `i` on. */
  function LeavesFrom(p: Page, i: nat, from: Key, to: Key): seq<GlobalAddress>
    requires p.InternalPage? && i <= |p.records| + 1
    decreases |p.records| + 1 - i
  {
    if i == |p.records| + 1 then []
    else (if Fetched(p, i, from, to) then [Child(p, i)] else []) + LeavesFrom(p, i + 1, from, to)
  }

  function Leaves(ps: seq<Page>, from: Key, to: Key): seq<GlobalAddress>
    requires forall i :: 0 <= i < |ps| ==> ps[i].InternalPage?
  {
    if ps == [] then [] else Leaves(ps[..|ps| - 1], from, to) + LeavesFrom(ps[|ps| - 1], 0, from, to)
  }

  function EntriesAt(pages: map<GlobalAddress, Page>, a: GlobalAddress): seq<LeafEntry> {
    if a in pages && pages[a].LeafPage? then pages[a].entries else []
  }

  predicate Matches(e: LeafEntry, from: Key, to: Key) {
    Live(e) && from <= e.key <= to
  }

  /** Live slots with a key in the range, in slot order. */
  function Filter(es: seq<LeafEntry>, from: Key, to: Key): seq<LeafEntry> {
    if es == [] then []
    else Filter(es[..|es| - 1], from, to) + (if Matches(es[|es| - 1], from, to) then [es[|es| - 1]] else [])
  }

  /** One leaf at a time. */
  function Scan(pages: map<GlobalAddress, Page>, leaves: seq<GlobalAddress>, from: Key, to: Key): seq<LeafEntry> {
    if leaves == [] then []
    else Scan(pages, leaves[..|leaves| - 1], from, to) + Filter(EntriesAt(pages, leaves[|leaves| - 1]), from, to)
  }

  function Values(es: seq<LeafEntry>): (vs: seq<Value>)
    ensures |vs| == |es| && forall i :: 0 <= i < |es| ==> vs[i] == es[i].value
  {
    seq(|es|, i requires 0 <= i < |es| => es[i].value)
  }

  // ---------------------------------------------------------------- the loops

  /** The three cases of the collecting loop for one cached page. */
  method CollectPage(p: Page, from: Key, to: Key) returns (leaves: seq<GlobalAddress>)
    requires p.InternalPage? && 1 <= |p.records|
    ensures leaves == LeavesFrom(p, 0, from, to)
  {
    var cnt := |p.records|;
    leaves := [];
    var noFetch := from > p.records[0].key || to < p.lowest;
    if !noFetch {
      leaves := leaves + [p.leftmost];
    }
    var i := 1;
    while i < cnt
      invariant 1 <= i <= cnt
      invariant LeavesFrom(p, 0, from, to) == leaves + LeavesFrom(p, i, from, to)
    {
      noFetch := from > p.records[i].key || to < p.records[i - 1].key;
      if !noFetch {
        leaves := leaves + [p.records[i - 1].ptr];
      }
      i := i + 1;
    }
    noFetch := from > p.highest || to < p.records[cnt - 1].key;
    if !noFetch {
      leaves := leaves + [p.records[cnt - 1].ptr];
    }
    assert LeavesFrom(p, cnt + 1, from, to) == [];
  }

  predicate Between(p: Page, i: nat, k: Key)
    requires p.InternalPage? && i <= |p.records|
  {
    SepKey(p, i) <= k <= SepEnd(p, i)
  }

  /** Some key of the range lies between the ends of child `i`, both included. */
  ghost predicate Meets(p: Page, i: nat, from: Key, to: Key)
    requires p.InternalPage? && i <= |p.records|
  {
    exists k: Key :: from <= k <= to && Between(p, i, k)
  }

  /** Exactly the children that may hold keys of the range are read, each once and in order. */
  lemma {:induction false} LeavesNeeded(p: Page, n: nat, from: Key, to: Key)
    requires p.InternalPage? && n <= |p.records| + 1 && from <= to
    requires forall i :: n <= i <= |p.records| ==> SepKey(p, i) <= SepEnd(p, i)
    ensures forall i :: n <= i <= |p.records| ==> (Fetched(p, i, from, to) <==> Meets(p, i, from, to))
    ensures forall a :: a in LeavesFrom(p, n, from, to) <==>
                          exists i :: n <= i <= |p.records| && Meets(p, i, from, to) && Child(p, i) == a
    decreases |p.records| + 1 - n
  {
    if n <= |p.records| {
      LeavesNeeded(p, n + 1, from, to);
      FetchedIff(p, n, from, to);
      hide Fetched, Meets;
      forall a ensures a in LeavesFrom(p, n, from, to) <==>
                         exists i :: n <= i <= |p.records| && Meets(p, i, from, to) && Child(p, i) == a
      {
        if i :| n <= i <= |p.records| && Meets(p, i, from, to) && Child(p, i) == a {
          assert i == n || n + 1 <= i;
        }
      }
    }
  }

  lemma FetchedIff(p: Page, i: nat, from: Key, to: Key)
    requires p.InternalPage? && i <= |p.records| && from <= to && SepKey(p, i) <= SepEnd(p, i)
    ensures Fetched(p, i, from, to) <==> Meets(p, i, from, to)
  {
    if Fetched(p, i, from, to) {
      var k := if from < SepKey(p, i) then SepKey(p, i) else from;
      assert from <= k <= to && Between(p, i, k);
    }
  }

  method Collect(ps: seq<Page>, from: Key, to: Key) returns (leaves: seq<GlobalAddress>)
    requires forall i :: 0 <= i < |ps| ==> ps[i].InternalPage? && 1 <= |ps[i].records|
    ensures leaves == Leaves(ps, from, to)
  {
    leaves := [];
    for i := 0 to |ps|
      invariant leaves == Leaves(ps[..i], from, to)
    {
      var more := CollectPage(ps[i], from, to);
      assert ps[..i + 1][..i] == ps[..i];
      leaves := leaves + more;
    }
    assert ps[..|ps|] == ps;
  }

  /** The filter loop over one page of the read buffer. */
  method FilterPage(es: seq<LeafEntry>, from: Key, to: Key) returns (values: seq<Value>)
    ensures values == Values(Filter(es, from, to))
  {
    values := [];
    for i := 0 to |es|
      invariant values == Values(Filter(es[..i], from, to))
    {
      assert es[..i + 1][..i] == es[..i];
      if es[i].value != VALUE_NULL {
        if es[i].key >= from && es[i].key <= to {
          values := values + [es[i].value];
        }
      }
    }
    assert es[..|es|] == es;
  }

  /** Slot `k` of the buffer holds the slots of the leaf read into it. */
  ghost predicate Landed(pages: map<GlobalAddress, Page>, batch: seq<GlobalAddress>, buffer: seq<seq<LeafEntry>>) {
    |batch| <= |buffer| && forall k :: 0 <= k < |batch| ==> buffer[k] == EntriesAt(pages, batch[k])
  }

  lemma {:induction false} ScanAppend(pages: map<GlobalAddress, Page>, a: seq<GlobalAddress>, b: seq<GlobalAddress>, from: Key, to: Key)
    ensures Scan(pages, a + b, from, to) == Scan(pages, a, from, to) + Scan(pages, b, from, to)
  {
    hide EntriesAt, Filter;
    if b == [] {
      assert a + b == a;
    } else {
      var n := |b| - 1;
      var last := Filter(EntriesAt(pages, b[n]), from, to);
      ScanAppend(pages, a, b[..n], from, to);
      assert (a + b)[..|a + b| - 1] == a + b[..n];
      assert Scan(pages, a + b, from, to) == Scan(pages, a + b[..n], from, to) + last;
    }
  }

  /** The pages of a completed batch, slot by slot. */
  method DrainBatch(ghost pages: map<GlobalAddress, Page>, ghost batch: seq<GlobalAddress>, cnt: nat,
                    buffer: array<seq<LeafEntry>>, from: Key, to: Key) returns (values: seq<Value>)
    requires |batch| == cnt && Landed(pages, batch, buffer[..])
    ensures values == Values(Scan(pages, batch, from, to))
  {
    values := [];
    for k := 0 to cnt
      invariant values == Values(Scan(pages, batch[..k], from, to))
    {
      assert buffer[..][k] == buffer[k];
      var more := FilterPage(buffer[k], from, to);
      assert batch[..k + 1][..k] == batch[..k];
      values := values + more;
    }
    assert batch[..cnt] == batch;
  }

  /**
    The reading loop: up to 32 reads are in flight, each into its slot of the range buffer; a full
    batch is drained before its first slot is used again, the rest at the end.
  */
  method ReadLeaves(pages: map<GlobalAddress, Page>, leaves: seq<GlobalAddress>, from: Key, to: Key) returns (values: seq<Value>)
    ensures values == Values(Scan(pages, leaves, from, to))
  {
    hide Scan, EntriesAt, Landed, Values, InBatch;
    values := [];
    var buffer := new seq<LeafEntry>[PARA_FETCH](_ => []);
    var cqCnt := 0;
    FirstBatch();
    assert leaves[..0] == [];
    ScanNone(pages, from, to);
    LandedNone(pages, leaves[0..0], buffer[..]);
    var i := 0;
    while i < |leaves|
      invariant 0 <= cqCnt <= i <= |leaves| && InBatch(i, cqCnt)
      invariant Landed(pages, leaves[i - cqCnt..i], buffer[..])
      invariant values == Values(Scan(pages, leaves[..i - cqCnt], from, to))
    {
      if 0 < i && i % PARA_FETCH == 0 {
        FullBatch(i, cqCnt);
        values := Drained(pages, leaves, i - cqCnt, i, buffer, from, to, values);
        cqCnt := cqCnt - PARA_FETCH;
        LandedNone(pages, leaves[i..i], buffer[..]);
      } else {
        SlotOf(i, cqCnt);
      }
      NextInBatch(i, cqCnt);
      LandedNext(pages, leaves, i - cqCnt, i, buffer[..]);
      buffer[i % PARA_FETCH] := EntriesAt(pages, leaves[i]);
      cqCnt := cqCnt + 1;
      i := i + 1;
    }
    if cqCnt != 0 {
      values := Drained(pages, leaves, i - cqCnt, i, buffer, from, to, values);
    }
    assert leaves[..|leaves|] == leaves;
  }

  lemma LandedNone(pages: map<GlobalAddress, Page>, batch: seq<GlobalAddress>, buffer: seq<seq<LeafEntry>>)
    requires batch == []
    ensures Landed(pages, batch, buffer)
  {
  }

  lemma LandedNext(pages: map<GlobalAddress, Page>, leaves: seq<GlobalAddress>, lo: nat, i: nat, buffer: seq<seq<LeafEntry>>)
    requires lo <= i < |leaves| && i - lo < |buffer| && Landed(pages, leaves[lo..i], buffer)
    ensures Landed(pages, leaves[lo..i + 1], buffer[i - lo := EntriesAt(pages, leaves[i])])
  {
  }

  lemma ScanNone(pages: map<GlobalAddress, Page>, from: Key, to: Key)
    ensures Values(Scan(pages, [], from, to)) == []
  {
  }

  /** `cqCnt` reads are in flight and the batch began at a multiple of 32. */
  predicate InBatch(i: nat, cqCnt: nat) {
    cqCnt <= PARA_FETCH && cqCnt <= i && (i - cqCnt) % PARA_FETCH == 0 && (cqCnt == 0 ==> i == 0)
  }

  lemma FirstBatch()
    ensures InBatch(0, 0)
  {
  }

  lemma FullBatch(i: nat, cqCnt: nat)
    requires InBatch(i, cqCnt) && 0 < i && i % PARA_FETCH == 0
    ensures cqCnt == PARA_FETCH
  {
  }

  lemma SlotOf(i: nat, cqCnt: nat)
    requires InBatch(i, cqCnt) && !(0 < i && i % PARA_FETCH == 0)
    ensures i % PARA_FETCH == cqCnt < PARA_FETCH
  {
  }

  lemma NextInBatch(i: nat, cqCnt: nat)
    requires i % PARA_FETCH == cqCnt <= i
    ensures InBatch(i + 1, cqCnt + 1)
  {
  }

  /** The values so far and those of the batch read into the buffer. */
  method Drained(ghost pages: map<GlobalAddress, Page>, ghost leaves: seq<GlobalAddress>, lo: nat, hi: nat,
                 buffer: array<seq<LeafEntry>>, from: Key, to: Key, before: seq<Value>) returns (values: seq<Value>)
    requires lo <= hi <= |leaves| && Landed(pages, leaves[lo..hi], buffer[..])
    requires before == Values(Scan(pages, leaves[..lo], from, to))
    ensures values == Values(Scan(pages, leaves[..hi], from, to))
  {
    hide Scan, EntriesAt;
    var more := DrainBatch(pages, leaves[lo..hi], hi - lo, buffer, from, to);
    ScanAppend(pages, leaves[..lo], leaves[lo..hi], from, to);
    assert leaves[..hi] == leaves[..lo] + leaves[lo..hi];
    values := before + more;
  }

  // ---------------------------------------------------------------- what the scan returns

  ghost predicate KeysDiffer(es: seq<LeafEntry>) {
    forall i, j :: 0 <= i < j < |es| ==> es[i].key != es[j].key
  }

  lemma {:induction false} FilterSpec(es: seq<LeafEntry>, from: Key, to: Key)
    ensures forall e :: e in Filter(es, from, to) <==> e in es && Matches(e, from, to)
    ensures Distinct(es) ==> KeysDiffer(Filter(es, from, to))
  {
    if es != [] {
      var n := |es| - 1;
      FilterSpec(es[..n], from, to);
      assert es == es[..n] + [es[n]];
      if Distinct(es) && Matches(es[n], from, to) {
        var f := Filter(es[..n], from, to);
        forall x | 0 <= x < |f| ensures f[x].key != es[n].key {
          assert f[x] in es[..n];
          var i :| 0 <= i < n && es[i] == f[x];
        }
      }
    }
  }

  ghost predicate InSome(pages: map<GlobalAddress, Page>, leaves: seq<GlobalAddress>, e: LeafEntry) {
    exists i :: 0 <= i < |leaves| && e in EntriesAt(pages, leaves[i])
  }

  lemma InSomeLast(pages: map<GlobalAddress, Page>, leaves: seq<GlobalAddress>, e: LeafEntry)
    requires leaves != []
    ensures var n := |leaves| - 1;
            InSome(pages, leaves, e) <==> InSome(pages, leaves[..n], e) || e in EntriesAt(pages, leaves[n])
  {
  }

  lemma {:induction false} ScanMembers(pages: map<GlobalAddress, Page>, leaves: seq<GlobalAddress>, from: Key, to: Key, e: LeafEntry)
    ensures e in Scan(pages, leaves, from, to) <==> Matches(e, from, to) && InSome(pages, leaves, e)
  {
    hide InSome, EntriesAt, Matches;
    if leaves != [] {
      var n := |leaves| - 1;
      ScanMembers(pages, leaves[..n], from, to, e);
      FilterSpec(EntriesAt(pages, leaves[n]), from, to);
      InSomeLast(pages, leaves, e);
    } else {
      NoLeaves(pages, e);
    }
  }

  lemma NoLeaves(pages: map<GlobalAddress, Page>, e: LeafEntry)
    ensures !InSome(pages, [], e)
  {
  }

  /** Leaves that have no key of the range in common. */
  ghost predicate LeavesApart(pages: map<GlobalAddress, Page>, leaves: seq<GlobalAddress>, from: Key, to: Key) {
    && (forall i :: 0 <= i < |leaves| ==> Distinct(EntriesAt(pages, leaves[i])))
    && (forall i, j :: 0 <= i < j < |leaves| ==>
        NoCommonKey(EntriesAt(pages, leaves[i]), EntriesAt(pages, leaves[j]), from, to))
  }

  ghost predicate NoCommonKey(es: seq<LeafEntry>, fs: seq<LeafEntry>, from: Key, to: Key) {
    forall e, f :: e in es && f in fs && Matches(e, from, to) && Matches(f, from, to) ==> e.key != f.key
  }

  lemma {:induction false} ScanDiffers(pages: map<GlobalAddress, Page>, leaves: seq<GlobalAddress>, from: Key, to: Key)
    requires LeavesApart(pages, leaves, from, to)
    ensures KeysDiffer(Scan(pages, leaves, from, to))
  {
    hide EntriesAt, Filter, Distinct, NoCommonKey, KeysDiffer;
    NoneDiffer();
    if leaves != [] {
      var n := |leaves| - 1;
      ScanDiffers(pages, leaves[..n], from, to);
      var s, f := Scan(pages, leaves[..n], from, to), Filter(EntriesAt(pages, leaves[n]), from, to);
      FilterSpec(EntriesAt(pages, leaves[n]), from, to);
      forall d, e | d in s && e in f ensures d.key != e.key {
        LastDiffers(pages, leaves, from, to, d, e);
      }
      BothDiffer(s, f);
    }
  }

  lemma NoneDiffer()
    ensures KeysDiffer([])
  {
  }

  lemma BothDiffer(s: seq<LeafEntry>, f: seq<LeafEntry>)
    requires KeysDiffer(s) && KeysDiffer(f) && forall d, e :: d in s && e in f ==> d.key != e.key
    ensures KeysDiffer(s + f)
  {
  }

  lemma LastDiffers(pages: map<GlobalAddress, Page>, leaves: seq<GlobalAddress>, from: Key, to: Key, d: LeafEntry, e: LeafEntry)
    requires LeavesApart(pages, leaves, from, to) && leaves != []
    requires d in Scan(pages, leaves[..|leaves| - 1], from, to) && e in Filter(EntriesAt(pages, leaves[|leaves| - 1]), from, to)
    ensures d.key != e.key
  {
    hide EntriesAt, Scan, Filter, Matches;
    var n := |leaves| - 1;
    ScanMembers(pages, leaves[..n], from, to, d);
    FilterSpec(EntriesAt(pages, leaves[n]), from, to);
    var i :| 0 <= i < n && d in EntriesAt(pages, leaves[..n][i]);
    assert NoCommonKey(EntriesAt(pages, leaves[i]), EntriesAt(pages, leaves[n]), from, to);
  }

  // ---------------------------------------------------------------- exactly the keys of the range

  /** The entries are the bindings of `m` in the range, each once. */
  ghost predicate Exactly(out: seq<LeafEntry>, m: map<Key, Value>, from: Key, to: Key) {
    && KeysDiffer(out)
    && forall k: Key, v: Value :: LeafEntry(k, v) in out <==> from <= k <= to && k in m && m[k] == v
  }

  lemma EntryCovered(s: State, a: GlobalAddress, e: LeafEntry)
    requires PagesOk(s) && e in EntriesAt(s.pages, a) && Live(e)
    ensures a in s.pages && s.pages[a].level == 0 && LeafFor(s, a, e.key) && LeafBinds(s.pages[a], e.key, e.value)
  {
    assert PageOk(s.pages[a]);
    assert e == LeafEntry(e.key, e.value);
  }

  lemma ScannedIsBound(s: State, ls: seq<GlobalAddress>, from: Key, to: Key, k: Key, v: Value)
    requires PagesOk(s) && LeafEntry(k, v) in Scan(s.pages, ls, from, to)
    ensures from <= k <= to && Binds(s, k, v)
    ensures exists y :: 0 <= y < |ls| && LeafFor(s, ls[y], k)
  {
    var e := LeafEntry(k, v);
    ScanMembers(s.pages, ls, from, to, e);
    var i :| 0 <= i < |ls| && e in EntriesAt(s.pages, ls[i]);
    EntryCovered(s, ls[i], e);
  }

  /** The leaf that covers a bound key holds its binding, in a live slot. */
  lemma BoundAt(s: State, a: GlobalAddress, k: Key, v: Value)
    requires PagesOk(s) && Apart(s) && LeafFor(s, a, k) && Binds(s, k, v)
    ensures LeafEntry(k, v) in EntriesAt(s.pages, a) && Live(LeafEntry(k, v))
  {
    BindsAt(s, a, k, v);
  }

  /** Exactly one of the leaves, counting repetitions, covers the key. */
  ghost predicate OnceAmong(s: State, ls: seq<GlobalAddress>, k: Key) {
    && (exists y :: 0 <= y < |ls| && LeafFor(s, ls[y], k))
    && (forall x, y :: 0 <= x < y < |ls| ==> !(LeafFor(s, ls[x], k) && LeafFor(s, ls[y], k)))
  }

  /**
    Whatever leaves are read, the scan returns the bindings of the range, each once, if and only if for
    every bound key of the range exactly one read is of the leaf that covers it.
  */
  lemma ScanExactIff(s: State, m: map<Key, Value>, ls: seq<GlobalAddress>, from: Key, to: Key)
    requires PagesOk(s) && Apart(s) && Represents(s, m)
    ensures Exactly(Scan(s.pages, ls, from, to), m, from, to) <==>
            forall k :: k in m && from <= k <= to ==> OnceAmong(s, ls, k)
  {
    hide PagesOk, Apart, Scan, LeafFor;
    var out := Scan(s.pages, ls, from, to);
    if Exactly(out, m, from, to) {
      forall k | k in m && from <= k <= to ensures OnceAmong(s, ls, k) {
        ExactReads(s, m, ls, from, to, k);
      }
    }
    if forall k :: k in m && from <= k <= to ==> OnceAmong(s, ls, k) {
      ReadOnceDiffers(s, m, ls, from, to);
      forall k: Key, v: Value ensures LeafEntry(k, v) in out <==> from <= k <= to && k in m && m[k] == v {
        assert Binds(s, k, v) <==> k in m && m[k] == v;
        if LeafEntry(k, v) in out {
          ScannedIsBound(s, ls, from, to, k, v);
        }
        if from <= k <= to && k in m && m[k] == v {
          BoundIsScanned(s, ls, from, to, k, v);
        }
      }
    }
  }

  lemma BoundIsScanned(s: State, ls: seq<GlobalAddress>, from: Key, to: Key, k: Key, v: Value)
    requires PagesOk(s) && Apart(s) && Binds(s, k, v) && from <= k <= to
    requires exists y :: 0 <= y < |ls| && LeafFor(s, ls[y], k)
    ensures LeafEntry(k, v) in Scan(s.pages, ls, from, to)
  {
    var y :| 0 <= y < |ls| && LeafFor(s, ls[y], k);
    BoundAt(s, ls[y], k, v);
    ScanMembers(s.pages, ls, from, to, LeafEntry(k, v));
  }

  /** An exact scan reads the leaf of a bound key once: a second read would return the key again. */
  lemma ExactReads(s: State, m: map<Key, Value>, ls: seq<GlobalAddress>, from: Key, to: Key, k: Key)
    requires PagesOk(s) && Apart(s) && Represents(s, m) && Exactly(Scan(s.pages, ls, from, to), m, from, to)
    requires k in m && from <= k <= to
    ensures OnceAmong(s, ls, k)
  {
    hide PagesOk, Apart, Scan, LeafFor;
    assert Binds(s, k, m[k]);
    ScannedIsBound(s, ls, from, to, k, m[k]);
    forall x, y | 0 <= x < y < |ls| ensures !(LeafFor(s, ls[x], k) && LeafFor(s, ls[y], k)) {
      if LeafFor(s, ls[x], k) && LeafFor(s, ls[y], k) {
        ReadTwice(s, ls, from, to, k, m[k], x, y);
      }
    }
  }

  lemma ReadTwice(s: State, ls: seq<GlobalAddress>, from: Key, to: Key, k: Key, v: Value, x: nat, y: nat)
    requires PagesOk(s) && Apart(s) && Binds(s, k, v) && from <= k <= to && x < y < |ls|
    requires LeafFor(s, ls[x], k) && LeafFor(s, ls[y], k)
    ensures !KeysDiffer(Scan(s.pages, ls, from, to))
  {
    hide PagesOk, Apart, Scan, LeafFor;
    var a, b := ls[..y], ls[y..];
    assert LeafFor(s, a[x], k) && LeafFor(s, b[0], k);
    BoundIsScanned(s, a, from, to, k, v);
    BoundIsScanned(s, b, from, to, k, v);
    ScanAppend(s.pages, a, b, from, to);
    assert ls == a + b;
    BothHave(Scan(s.pages, a, from, to), Scan(s.pages, b, from, to), LeafEntry(k, v));
  }

  lemma BothHave(f: seq<LeafEntry>, g: seq<LeafEntry>, e: LeafEntry)
    requires e in f && e in g
    ensures !KeysDiffer(f + g)
  {
    var i :| 0 <= i < |f| && f[i] == e;
    var j :| 0 <= j < |g| && g[j] == e;
    assert (f + g)[i] == (f + g)[|f| + j];
  }

  lemma ReadOnceDiffers(s: State, m: map<Key, Value>, ls: seq<GlobalAddress>, from: Key, to: Key)
    requires PagesOk(s) && Represents(s, m) && forall k :: k in m && from <= k <= to ==> OnceAmong(s, ls, k)
    ensures KeysDiffer(Scan(s.pages, ls, from, to))
  {
    hide PagesOk, Scan;
    forall i, j | 0 <= i < j < |ls| ensures NoCommonKey(EntriesAt(s.pages, ls[i]), EntriesAt(s.pages, ls[j]), from, to) {
      forall e, f | e in EntriesAt(s.pages, ls[i]) && f in EntriesAt(s.pages, ls[j]) && Matches(e, from, to) && Matches(f, from, to)
        ensures e.key != f.key
      {
        EntryCovered(s, ls[i], e);
        EntryCovered(s, ls[j], f);
        EntryBound(s, m, ls[i], e);
        assert OnceAmong(s, ls, e.key);
      }
    }
    forall i | 0 <= i < |ls| ensures Distinct(EntriesAt(s.pages, ls[i])) {
      EntriesDistinct(s, ls[i]);
    }
    ScanDiffers(s.pages, ls, from, to);
  }

  lemma EntryBound(s: State, m: map<Key, Value>, a: GlobalAddress, e: LeafEntry)
    requires PagesOk(s) && Represents(s, m) && e in EntriesAt(s.pages, a) && Live(e)
    ensures e.key in m
  {
    EntryCovered(s, a, e);
    assert Binds(s, e.key, e.value);
  }

  lemma EntriesDistinct(s: State, a: GlobalAddress)
    requires PagesOk(s)
    ensures Distinct(EntriesAt(s.pages, a))
  {
    assert a in s.pages ==> PageOk(s.pages[a]);
  }

  // ---------------------------------------------------------------- the leaves that images lead to

  /** The image covers the key, and the leaf it routes the key to covers it still. */
  predicate Leads(s: State, p: Page, k: Key) {
    p.InternalPage? && Covers(p, k) && LeafFor(s, Route(p, k), k)
  }

  /** An image leads to the leaf of a key exactly when it covers the key and its leaf has not split past it. */
  lemma LeadsIff(s: State, p: Page, k: Key)
    requires PagesOk(s) && ImageOk(s.pages, p)
    ensures Covers(p, k) ==> Route(p, k) in s.pages
    ensures Leads(s, p, k) <==> Covers(p, k) && k < s.pages[Route(p, k)].highest
  {
    if Covers(p, k) {
      ImageLeads(s, p, k);
    }
  }

  /** How many of the leaves cover the key. */
  function Covering(s: State, ls: seq<GlobalAddress>, k: Key): nat {
    if ls == [] then 0 else Covering(s, ls[..|ls| - 1], k) + (if LeafFor(s, ls[|ls| - 1], k) then 1 else 0)
  }

  /** How many of the images lead to the leaf of the key. */
  function Leading(s: State, ps: seq<Page>, k: Key): nat {
    if ps == [] then 0 else Leading(s, ps[..|ps| - 1], k) + (if Leads(s, ps[|ps| - 1], k) then 1 else 0)
  }

  lemma {:induction false} CoveringAppend(s: State, a: seq<GlobalAddress>, b: seq<GlobalAddress>, k: Key)
    ensures Covering(s, a + b, k) == Covering(s, a, k) + Covering(s, b, k)
  {
    hide LeafFor;
    if b == [] {
      assert a + b == a;
    } else {
      var n := |b| - 1;
      CoveringAppend(s, a, b[..n], k);
      assert (a + b)[..|a + b| - 1] == a + b[..n];
    }
  }

  ghost predicate NoneAmong(s: State, ls: seq<GlobalAddress>, k: Key) {
    forall y :: 0 <= y < |ls| ==> !LeafFor(s, ls[y], k)
  }

  lemma {:induction false} CoveringOnce(s: State, ls: seq<GlobalAddress>, k: Key)
    ensures Covering(s, ls, k) == 0 <==> NoneAmong(s, ls, k)
    ensures Covering(s, ls, k) == 1 <==> OnceAmong(s, ls, k)
  {
    hide LeafFor;
    if ls != [] {
      var n := |ls| - 1;
      CoveringOnce(s, ls[..n], k);
      LastAmong(s, ls, k);
    }
  }

  lemma LastAmong(s: State, ls: seq<GlobalAddress>, k: Key)
    requires ls != []
    ensures var n := |ls| - 1;
            && (NoneAmong(s, ls, k) <==> NoneAmong(s, ls[..n], k) && !LeafFor(s, ls[n], k))
            && (OnceAmong(s, ls, k) <==> if LeafFor(s, ls[n], k) then NoneAmong(s, ls[..n], k) else OnceAmong(s, ls[..n], k))
  {
    hide LeafFor;
    var n := |ls| - 1;
    forall y | 0 <= y < n ensures ls[..n][y] == ls[y] {
    }
    if OnceAmong(s, ls[..n], k) {
      var y :| 0 <= y < n && LeafFor(s, ls[..n][y], k);
      assert LeafFor(s, ls[y], k);
    }
    if OnceAmong(s, ls, k) && !LeafFor(s, ls[n], k) {
      var y :| 0 <= y < |ls| && LeafFor(s, ls[y], k);
      assert LeafFor(s, ls[..n][y], k);
    }
  }

  /** Among the children of an image only the routed one can be the leaf of the key. */
  lemma ChildLeads(s: State, p: Page, i: nat, k: Key)
    requires ImageOk(s.pages, p) && i <= |p.records|
    ensures LeafFor(s, Child(p, i), k) <==> Leads(s, p, k) && i == RouteFrom(p.records, k, 0)
    ensures LeafFor(s, Child(p, i), k) ==> SepKey(p, i) <= k < SepEnd(p, i)
  {
    assert ChildOk(s.pages, p, i) && ChildEndsBy(s.pages, p, i);
    if LeafFor(s, Child(p, i), k) {
      assert p.lowest <= SepKey(p, i) && SepEnd(p, i) <= p.highest;
      RouteSpec(p, k);
    }
  }

  lemma {:induction false} LeavesFromCovering(s: State, p: Page, n: nat, from: Key, to: Key, k: Key)
    requires p.InternalPage? && ImageOk(s.pages, p) && n <= |p.records| + 1 && from <= k <= to
    ensures Covering(s, LeavesFrom(p, n, from, to), k) == if Leads(s, p, k) && n <= RouteFrom(p.records, k, 0) then 1 else 0
    decreases |p.records| + 1 - n
  {
    hide ImageOk, Leads, LeafFor;
    if n <= |p.records| {
      LeavesFromCovering(s, p, n + 1, from, to, k);
      ChildLeads(s, p, n, k);
      var head := if Fetched(p, n, from, to) then [Child(p, n)] else [];
      CoveringAppend(s, head, LeavesFrom(p, n + 1, from, to), k);
      OneCovering(s, Child(p, n), k);
    }
  }

  lemma OneCovering(s: State, a: GlobalAddress, k: Key)
    ensures Covering(s, [a], k) == (if LeafFor(s, a, k) then 1 else 0) && Covering(s, [], k) == 0
  {
    assert [a][..0] == [];
  }

  /** The leaf of a key of the range is read as often as there are images that lead to it. */
  lemma {:induction false} LeavesCovering(s: State, ps: seq<Page>, from: Key, to: Key, k: Key)
    requires (forall x :: 0 <= x < |ps| ==> ps[x].InternalPage? && ImageOk(s.pages, ps[x])) && from <= k <= to
    ensures Covering(s, Leaves(ps, from, to), k) == Leading(s, ps, k)
  {
    hide ImageOk, Leads, LeafFor;
    if ps != [] {
      var n := |ps| - 1;
      LeavesCovering(s, ps[..n], from, to, k);
      LeavesFromCovering(s, ps[n], 0, from, to, k);
      CoveringAppend(s, Leaves(ps[..n], from, to), LeavesFrom(ps[n], 0, from, to), k);
    }
  }

  /** Exactly one of the images, counting repetitions, leads to the leaf of the key. */
  ghost predicate OnceLeads(s: State, ps: seq<Page>, k: Key) {
    && (exists x :: 0 <= x < |ps| && Leads(s, ps[x], k))
    && (forall x, y :: 0 <= x < y < |ps| ==> !(Leads(s, ps[x], k) && Leads(s, ps[y], k)))
  }

  ghost predicate NoneLeads(s: State, ps: seq<Page>, k: Key) {
    forall x :: 0 <= x < |ps| ==> !Leads(s, ps[x], k)
  }

  lemma {:induction false} LeadingOnce(s: State, ps: seq<Page>, k: Key)
    ensures Leading(s, ps, k) == 0 <==> NoneLeads(s, ps, k)
    ensures Leading(s, ps, k) == 1 <==> OnceLeads(s, ps, k)
  {
    hide Leads;
    if ps != [] {
      LeadingOnce(s, ps[..|ps| - 1], k);
      LastLeads(s, ps, k);
    }
  }

  lemma LastLeads(s: State, ps: seq<Page>, k: Key)
    requires ps != []
    ensures var n := |ps| - 1;
            && (NoneLeads(s, ps, k) <==> NoneLeads(s, ps[..n], k) && !Leads(s, ps[n], k))
            && (OnceLeads(s, ps, k) <==> if Leads(s, ps[n], k) then NoneLeads(s, ps[..n], k) else OnceLeads(s, ps[..n], k))
  {
    hide Leads;
    var n := |ps| - 1;
    forall x | 0 <= x < n ensures ps[..n][x] == ps[x] {
    }
    if OnceLeads(s, ps[..n], k) {
      var x :| 0 <= x < n && Leads(s, ps[..n][x], k);
      assert Leads(s, ps[x], k);
    }
    if OnceLeads(s, ps, k) && !Leads(s, ps[n], k) {
      var x :| 0 <= x < |ps| && Leads(s, ps[x], k);
      assert Leads(s, ps[..n][x], k);
    }
  }

  /** The scan of the leaves found in images of any age. */
  lemma LeavesExactIff(s: State, m: map<Key, Value>, ps: seq<Page>, from: Key, to: Key)
    requires PagesOk(s) && Apart(s) && Represents(s, m)
    requires forall x :: 0 <= x < |ps| ==> ps[x].InternalPage? && ImageOk(s.pages, ps[x])
    ensures Exactly(Scan(s.pages, Leaves(ps, from, to), from, to), m, from, to) <==>
            forall k :: k in m && from <= k <= to ==> OnceLeads(s, ps, k)
  {
    hide PagesOk, Apart, Represents, Exactly, Leads, ImageOk, OnceLeads, OnceAmong, Scan, Leaves;
    var ls := Leaves(ps, from, to);
    ScanExactIff(s, m, ls, from, to);
    forall k | from <= k <= to ensures OnceAmong(s, ls, k) <==> OnceLeads(s, ps, k) {
      LeavesCovering(s, ps, from, to, k);
      CoveringOnce(s, ls, k);
      LeadingOnce(s, ps, k);
    }
  }

  // ---------------------------------------------------------------- how often a key is returned

  /** How many of the entries are of the key. */
  function Occurs(out: seq<LeafEntry>, k: Key): nat {
    if out == [] then 0 else Occurs(out[..|out| - 1], k) + (if out[|out| - 1].key == k then 1 else 0)
  }

  lemma {:induction false} OccursAppend(a: seq<LeafEntry>, b: seq<LeafEntry>, k: Key)
    ensures Occurs(a + b, k) == Occurs(a, k) + Occurs(b, k)
  {
    if b == [] {
      assert a + b == a;
    } else {
      var n := |b| - 1;
      OccursAppend(a, b[..n], k);
      assert (a + b)[..|a + b| - 1] == a + b[..n];
    }
  }

  /** Among entries of different keys a key occurs once or not at all. */
  lemma {:induction false} OccursOnce(out: seq<LeafEntry>, k: Key)
    requires KeysDiffer(out)
    ensures Occurs(out, k) == if exists e :: e in out && e.key == k then 1 else 0
  {
    if out != [] {
      var n := |out| - 1;
      OccursOnce(out[..n], k);
      assert out == out[..n] + [out[n]];
    }
  }

  lemma LeafOccurs(s: State, a: GlobalAddress, from: Key, to: Key, k: Key, v: Value)
    requires PagesOk(s) && Apart(s) && Binds(s, k, v) && from <= k <= to
    ensures Occurs(Filter(EntriesAt(s.pages, a), from, to), k) == if LeafFor(s, a, k) then 1 else 0
  {
    hide PagesOk, Apart, LeafFor;
    EntriesDistinct(s, a);
    FilterSpec(EntriesAt(s.pages, a), from, to);
    OccursOnce(Filter(EntriesAt(s.pages, a), from, to), k);
    if LeafFor(s, a, k) {
      BoundAt(s, a, k, v);
      assert LeafEntry(k, v) in Filter(EntriesAt(s.pages, a), from, to);
    }
    forall e | e in Filter(EntriesAt(s.pages, a), from, to) && e.key == k ensures LeafFor(s, a, k) {
      EntryCovered(s, a, e);
    }
  }

  lemma {:induction false} ScanOccurs(s: State, ls: seq<GlobalAddress>, from: Key, to: Key, k: Key, v: Value)
    requires PagesOk(s) && Apart(s) && Binds(s, k, v) && from <= k <= to
    ensures Occurs(Scan(s.pages, ls, from, to), k) == Covering(s, ls, k)
  {
    hide PagesOk, Apart, LeafFor, Filter, EntriesAt, Binds, Occurs;
    if ls == [] {
      OccursOnce([], k);
    } else {
      var n := |ls| - 1;
      ScanOccurs(s, ls[..n], from, to, k, v);
      LeafOccurs(s, ls[n], from, to, k, v);
      OccursAppend(Scan(s.pages, ls[..n], from, to), Filter(EntriesAt(s.pages, ls[n]), from, to), k);
    }
  }

  // ---------------------------------------------------------------- current pages

  ghost predicate IsCurrent(s: State, p: Page) {
    p.InternalPage? && exists a :: a in s.pages && s.pages[a].level == 1 && s.pages[a] == p
  }

  /** Once every separator of its level is in place, a page that covers a key is a child of a page that does. */
  lemma HasParent(s: State, a: GlobalAddress, k: Key) returns (b: GlobalAddress, i: nat)
    requires Inv(s) && a in s.pages && Covers(s.pages[a], k) && a != s.root
    requires forall x :: x in s.pending ==> x.level != s.pages[a].level + 1
    ensures b in s.pages && s.pages[b].InternalPage? && s.pages[b].level == s.pages[a].level + 1
    ensures i <= |s.pages[b].records| && Child(s.pages[b], i) == a
    ensures SepKey(s.pages[b], i) <= k < SepEnd(s.pages[b], i)
  {
    forall x | x in s.pending ensures x.child != a {
      assert SepOk(s.pages, x);
    }
    assert !PendingChild(s, a);
    assert Referred(s, a);
    b :| b in s.pages && Refers(s.pages[b], a);
    i :| 0 <= i <= |s.pages[b].records| && Child(s.pages[b], i) == a;
    ChildEnds(s, b, i);
  }

  /** Level-1 pages that include the parent of every leaf overlapping the range. */
  ghost predicate Spans(s: State, ps: seq<Page>, from: Key, to: Key) {
    forall b :: b in s.pages && s.pages[b].level == 1 && s.pages[b].lowest <= to && from < s.pages[b].highest ==>
      s.pages[b] in ps
  }

  // ---------------------------------------------------------------- through the cache

  function Images(c: CacheState, ptrs: seq<nat>): (ps: seq<Page>)
    requires forall p :: p in ptrs ==> p in c.images
    ensures |ps| == |ptrs| && forall x :: 0 <= x < |ps| ==> ps[x] == c.images[ptrs[x]].page
  {
    seq(|ptrs|, x requires 0 <= x < |ptrs| => assert ptrs[x] in ptrs; c.images[ptrs[x]].page)
  }

  /** Every live image is a current level-1 page. */
  ghost predicate LiveCurrent(c: CacheState, s: State) {
    forall p :: p in LivePages(c) ==> IsCurrent(s, p)
  }

  ghost predicate CoveredLive(c: CacheState, k: Key) {
    exists p :: p in LivePages(c) && Covers(p, k)
  }

  /** A live image leads to the leaf of the key. */
  ghost predicate UnderLive(c: CacheState, s: State, k: Key) {
    exists p :: p in LivePages(c) && Leads(s, p, k)
  }

  function FoundPtrs(c: CacheState, from: Key, to: Key): seq<nat> {
    RangeScan(c.list, FindKey(c.list, from), to)
  }

  lemma FoundAreLive(c: CacheState, from: Key, to: Key)
    requires PointersOk(c)
    ensures NoRepeats(FoundPtrs(c, from, to))
    ensures forall p :: p in FoundPtrs(c, from, to) ==> FromLive(c.list, 0, p) && p in c.images
  {
    ScanSound(c.list, FindKey(c.list, from), to);
    forall p | p in FoundPtrs(c, from, to) ensures FromLive(c.list, 0, p) && p in c.images {
      var i :| FindKey(c.list, from) <= i < |c.list| && Alive(c.list[i]) && c.list[i].ptr == p;
    }
  }

  /** No current level-1 page is cut by the interval of a live entry: it lies within it or outside. */
  ghost predicate LiveNest(c: CacheState, s: State) {
    forall i :: 0 <= i < |c.list| && Alive(c.list[i]) ==> EntryNests(s, c.list[i])
  }

  ghost predicate EntryNests(s: State, e: CacheEntry) {
    forall a :: a in s.pages && s.pages[a].level == 1 ==>
      || (e.from <= s.pages[a].lowest && s.pages[a].highest <= e.to + 1)
      || s.pages[a].highest <= e.from || e.to + 1 <= s.pages[a].lowest
  }

  ghost predicate AllCached(c: CacheState, s: State) {
    forall a :: a in s.pages && s.pages[a].level == 1 ==> s.pages[a] in LivePages(c)
  }

  lemma LiveImage(c: CacheState, i: nat) returns (p: Page)
    requires PointersOk(c) && AllFiled(c) && i < |c.list| && Alive(c.list[i])
    ensures c.list[i].ptr in c.images && p == c.images[c.list[i].ptr].page && p in LivePages(c)
    ensures p.lowest == c.list[i].from && p.highest == c.list[i].to + 1
  {
    assert Filed(c.list[i], c.images);
    p := c.images[c.list[i].ptr].page;
  }

  /**
    A current level-1 page with a live image that overlaps the range is returned by the range search,
    however many stale and wider entries are live as well.
  */
  lemma FoundLive(c: CacheState, all: nat, s: State, from: Key, to: Key, p: Page)
    requires CacheOk(c, all) && LiveNest(c, s) && from <= to
    requires p in LivePages(c) && IsCurrent(s, p) && p.lowest <= to && from < p.highest
    ensures forall q :: q in FoundPtrs(c, from, to) ==> q in c.images
    ensures p in Images(c, FoundPtrs(c, from, to))
  {
    hide Finest, Ordered, Conserved;
    FoundAreLive(c, from, to);
    var ptrs := FoundPtrs(c, from, to);
    var b :| b in s.pages && s.pages[b].level == 1 && s.pages[b] == p;
    var i :| 0 <= i < |c.list| && Alive(c.list[i]) && c.list[i].ptr in c.images && c.images[c.list[i].ptr].page == p;
    CurrentFinest(c, s, i, b);
    RangeComplete(c.list, from, to, i);
    var x :| 0 <= x < |ptrs| && ptrs[x] == c.list[i].ptr;
    assert Images(c, ptrs)[x] == p;
  }

  /** So if all current level-1 pages have a live image, those overlapping the range are all returned. */
  lemma FoundSpans(c: CacheState, all: nat, s: State, from: Key, to: Key)
    requires CacheOk(c, all) && PagesOk(s) && AllCached(c, s) && LiveNest(c, s) && from <= to
    ensures forall p :: p in FoundPtrs(c, from, to) ==> p in c.images
    ensures Spans(s, Images(c, FoundPtrs(c, from, to)), from, to)
  {
    hide Finest, Ordered, Conserved, LivePages, LiveNest;
    FoundAreLive(c, from, to);
    forall b | b in s.pages && s.pages[b].level == 1 && s.pages[b].lowest <= to && from < s.pages[b].highest
      ensures s.pages[b] in Images(c, FoundPtrs(c, from, to))
    {
      assert PageOk(s.pages[b]);
      FoundLive(c, all, s, from, to, s.pages[b]);
    }
  }

  lemma CurrentFinest(c: CacheState, s: State, i: nat, b: GlobalAddress)
    requires PointersOk(c) && AllFiled(c) && LiveNest(c, s) && i < |c.list| && Alive(c.list[i])
    requires b in s.pages && s.pages[b].level == 1 && c.list[i].ptr in c.images && c.images[c.list[i].ptr].page == s.pages[b]
    ensures Finest(c.list, i) && s.pages[b].lowest == c.list[i].from <= c.list[i].to && s.pages[b].highest == c.list[i].to + 1
  {
  }

  /** What a range query returns, as entries. */
  ghost function Queried(c: CacheState, s: State, from: Key, to: Key): (out: seq<LeafEntry>)
    requires PointersOk(c) && AllFiled(c)
  {
    FoundAreLive(c, from, to);
    FoundFiled(c, from, to);
    Scan(s.pages, Leaves(Images(c, FoundPtrs(c, from, to)), from, to), from, to)
  }

  lemma FoundFiled(c: CacheState, from: Key, to: Key)
    requires PointersOk(c) && AllFiled(c)
    ensures forall p :: p in FoundPtrs(c, from, to) ==> p in c.images
    ensures forall x :: 0 <= x < |FoundPtrs(c, from, to)| ==>
              var p := Images(c, FoundPtrs(c, from, to))[x]; p.InternalPage? && 1 <= |p.records|
  {
    FoundAreLive(c, from, to);
    var ptrs := FoundPtrs(c, from, to);
    forall x | 0 <= x < |ptrs| ensures var p := Images(c, ptrs)[x]; p.InternalPage? && 1 <= |p.records| {
      assert FromLive(c.list, 0, ptrs[x]);
      var i :| 0 <= i < |c.list| && Alive(c.list[i]) && c.list[i].ptr == ptrs[x];
      assert Filed(c.list[i], c.images);
    }
  }

  /** Whatever is cached, a range query returns only bindings of the map that lie in the range. */
  lemma QuerySound(c: CacheState, s: State, m: map<Key, Value>, from: Key, to: Key)
    requires PointersOk(c) && AllFiled(c) && PagesOk(s) && Represents(s, m)
    ensures forall k: Key, v: Value :: LeafEntry(k, v) in Queried(c, s, from, to) ==> from <= k <= to && k in m && m[k] == v
  {
    hide PointersOk, AllFiled, PagesOk, Scan, Leaves;
    FoundFiled(c, from, to);
    forall k: Key, v: Value | LeafEntry(k, v) in Queried(c, s, from, to) ensures from <= k <= to && k in m && m[k] == v {
      ScannedIsBound(s, Leaves(Images(c, FoundPtrs(c, from, to)), from, to), from, to, k, v);
      assert Binds(s, k, v) <==> k in m && m[k] == v;
    }
  }

  /** With nothing cached the query returns nothing. */
  lemma QueryOfNothing(c: CacheState, s: State, from: Key, to: Key)
    requires PointersOk(c) && AllFiled(c) && LivePages(c) == {}
    ensures FoundPtrs(c, from, to) == [] && Queried(c, s, from, to) == []
  {
    hide RangeScan;
    FoundAreLive(c, from, to);
    var ptrs := FoundPtrs(c, from, to);
    if ptrs != [] {
      assert FromLive(c.list, 0, ptrs[0]);
      var i :| 0 <= i < |c.list| && Alive(c.list[i]) && c.list[i].ptr == ptrs[0];
      var p := LiveImage(c, i);
    }
  }

  lemma FirstEntry(out: seq<LeafEntry>)
    ensures out != [] ==> LeafEntry(out[0].key, out[0].value) in out
  {
  }

  lemma EmptyRange(c: CacheState, s: State, m: map<Key, Value>, from: Key, to: Key)
    requires PointersOk(c) && AllFiled(c) && PagesOk(s) && Represents(s, m) && to < from
    ensures Exactly(Queried(c, s, from, to), m, from, to)
  {
    hide PagesOk, Represents, PointersOk, AllFiled, Scan;
    FirstEntry(Queried(c, s, from, to));
    QuerySound(c, s, m, from, to);
  }

  // ---------------------------------------------------------------- the exact condition

  /** No live interval that starts after `to` ends by the end of entry `i`: the search for [.., to] gets to it. */
  ghost predicate NotCut(list: seq<CacheEntry>, i: nat, to: Key)
    requires i < |list|
  {
    forall j :: 0 <= j < |list| && Alive(list[j]) ==> !(to < list[j].from && list[j].to <= list[i].to)
  }

  /** The scan has nothing from the first live entry on that starts after `to`. */
  lemma {:induction false} ScanStops(list: seq<CacheEntry>, r: nat, to: Key, j: nat)
    requires r <= j < |list| && Alive(list[j]) && to < list[j].from
    ensures forall p :: p in RangeScan(list, r, to) ==> exists i :: r <= i < j && Alive(list[i]) && list[i].ptr == p
    decreases j - r
  {
    if r < j {
      ScanStops(list, r + 1, to, j);
    }
  }

  /** A live entry that overlaps the range is found exactly when it is not cut. */
  lemma FoundIff(c: CacheState, from: Key, to: Key, i: nat)
    requires Ordered(c.list) && PointersOk(c) && AllFiled(c) && i < |c.list| && Alive(c.list[i])
    requires from <= to && c.list[i].from <= to && from <= c.list[i].to
    ensures c.list[i].ptr in FoundPtrs(c, from, to) <==> NotCut(c.list, i, to)
  {
    var list, r := c.list, FindKey(c.list, from);
    assert r <= i by {
      assert forall j :: 0 <= j < r ==> Cmp(list[j], CacheEntry(from, from, 0)) < 0;
    }
    if NotCut(list, i, to) {
      forall j | r <= j < i && Alive(list[j]) ensures list[j].from <= to {
        assert Cmp(list[j], list[i]) < 0;
      }
      ScanReaches(list, r, to, i);
    } else {
      var j :| 0 <= j < |list| && Alive(list[j]) && to < list[j].from && list[j].to <= list[i].to;
      AfterStart(list, from, j);
      EndsBeforeIs(list, j, i);
      ScanStops(list, r, to, j);
    }
  }

  lemma AfterStart(list: seq<CacheEntry>, from: Key, j: nat)
    requires j < |list| && from <= list[j].to && from <= list[j].from <= list[j].to
    ensures FindKey(list, from) <= j
  {
  }

  /** Of two entries the one that ends first, or ends together with the other and starts later, stands first. */
  lemma EndsBeforeIs(list: seq<CacheEntry>, j: nat, i: nat)
    requires Ordered(list) && i < |list| && j < |list| && list[j].to <= list[i].to && list[i].from < list[j].from
    ensures j < i
  {
  }

  /** Live entry `i` serves the key: the search up to `to` gets to it, and its image leads to the leaf of the key. */
  ghost predicate Serves(c: CacheState, s: State, i: nat, k: Key, to: Key) {
    && i < |c.list| && Alive(c.list[i]) && c.list[i].ptr in c.images
    && NotCut(c.list, i, to) && Leads(s, c.images[c.list[i].ptr].page, k)
  }

  /** Exactly one live entry serves the key. */
  ghost predicate ServedOnce(c: CacheState, s: State, k: Key, to: Key) {
    && (exists i: nat :: Serves(c, s, i, k, to))
    && (forall i: nat, j: nat :: Serves(c, s, i, k, to) && Serves(c, s, j, k, to) ==> i == j)
  }

  /** The image at position `x` of the search result is that of a live entry that serves the key. */
  lemma FoundServes(c: CacheState, s: State, from: Key, to: Key, k: Key, x: nat) returns (i: nat)
    requires Ordered(c.list) && PointersOk(c) && AllFiled(c) && from <= k <= to && x < |FoundPtrs(c, from, to)|
    requires FoundPtrs(c, from, to)[x] in c.images && Leads(s, c.images[FoundPtrs(c, from, to)[x]].page, k)
    ensures Serves(c, s, i, k, to) && c.list[i].ptr == FoundPtrs(c, from, to)[x]
  {
    hide Leads, NotCut, Ordered, FoundPtrs;
    FoundAreLive(c, from, to);
    var p := FoundPtrs(c, from, to)[x];
    assert FromLive(c.list, 0, p);
    i :| 0 <= i < |c.list| && Alive(c.list[i]) && c.list[i].ptr == p;
    LeadsWithin(c, s, i, k);
    FoundIff(c, from, to, i);
  }

  lemma LeadsWithin(c: CacheState, s: State, i: nat, k: Key)
    requires AllFiled(c) && i < |c.list| && Alive(c.list[i]) && c.list[i].ptr in c.images && Leads(s, c.images[c.list[i].ptr].page, k)
    ensures CoversKey(c.list[i], k)
  {
    assert Filed(c.list[i], c.images);
  }

  /** The image of a live entry that serves a key of the range is in the search result. */
  lemma ServesFound(c: CacheState, s: State, from: Key, to: Key, k: Key, i: nat) returns (x: nat)
    requires Ordered(c.list) && PointersOk(c) && AllFiled(c) && from <= k <= to && Serves(c, s, i, k, to)
    ensures x < |FoundPtrs(c, from, to)| && FoundPtrs(c, from, to)[x] == c.list[i].ptr
  {
    hide Leads, NotCut, Ordered, FoundPtrs;
    LeadsWithin(c, s, i, k);
    FoundIff(c, from, to, i);
    x :| 0 <= x < |FoundPtrs(c, from, to)| && FoundPtrs(c, from, to)[x] == c.list[i].ptr;
  }

  lemma ServedOnceIff(c: CacheState, s: State, from: Key, to: Key, k: Key)
    requires Ordered(c.list) && PointersOk(c) && AllFiled(c) && from <= k <= to
    ensures forall p :: p in FoundPtrs(c, from, to) ==> p in c.images
    ensures OnceLeads(s, Images(c, FoundPtrs(c, from, to)), k) <==> ServedOnce(c, s, k, to)
  {
    FoundAreLive(c, from, to);
    if OnceLeads(s, Images(c, FoundPtrs(c, from, to)), k) {
      LeadsServed(c, s, from, to, k);
    }
    if ServedOnce(c, s, k, to) {
      ServedLeads(c, s, from, to, k);
    }
  }

  lemma LeadsServed(c: CacheState, s: State, from: Key, to: Key, k: Key)
    requires Ordered(c.list) && PointersOk(c) && AllFiled(c) && from <= k <= to
    requires forall p :: p in FoundPtrs(c, from, to) ==> p in c.images
    requires OnceLeads(s, Images(c, FoundPtrs(c, from, to)), k)
    ensures ServedOnce(c, s, k, to)
  {
    hide Leads, NotCut, Ordered, FoundPtrs;
    var ptrs := FoundPtrs(c, from, to);
    var ps := Images(c, ptrs);
    var x :| 0 <= x < |ps| && Leads(s, ps[x], k);
    var i0 := FoundServes(c, s, from, to, k, x);
    forall i: nat, j: nat | Serves(c, s, i, k, to) && Serves(c, s, j, k, to) ensures i == j {
      var y := ServesFound(c, s, from, to, k, i);
      var z := ServesFound(c, s, from, to, k, j);
      assert Leads(s, ps[y], k) && Leads(s, ps[z], k);
      assert y == z;
    }
  }

  lemma ServedLeads(c: CacheState, s: State, from: Key, to: Key, k: Key)
    requires Ordered(c.list) && PointersOk(c) && AllFiled(c) && from <= k <= to
    requires forall p :: p in FoundPtrs(c, from, to) ==> p in c.images
    requires ServedOnce(c, s, k, to)
    ensures OnceLeads(s, Images(c, FoundPtrs(c, from, to)), k)
  {
    hide Leads, NotCut, Ordered, FoundPtrs;
    FoundAreLive(c, from, to);
    var ptrs := FoundPtrs(c, from, to);
    var ps := Images(c, ptrs);
    var i: nat :| Serves(c, s, i, k, to);
    var x0 := ServesFound(c, s, from, to, k, i);
    assert Leads(s, ps[x0], k);
    forall x, y | 0 <= x < y < |ps| ensures !(Leads(s, ps[x], k) && Leads(s, ps[y], k)) {
      if Leads(s, ps[x], k) && Leads(s, ps[y], k) {
        var _ := FoundServes(c, s, from, to, k, x);
        var _ := FoundServes(c, s, from, to, k, y);
      }
    }
  }

  /** The images found can be routed through. */
  lemma FoundImages(c: CacheState, s: State, from: Key, to: Key)
    requires PointersOk(c) && ImagesOk(s.pages, LivePages(c))
    ensures forall p :: p in FoundPtrs(c, from, to) ==> p in c.images
    ensures var ps := Images(c, FoundPtrs(c, from, to)); forall x :: 0 <= x < |ps| ==> ps[x].InternalPage? && ImageOk(s.pages, ps[x])
  {
    FoundAreLive(c, from, to);
    var ptrs := FoundPtrs(c, from, to);
    forall x | 0 <= x < |ptrs| ensures ImageOk(s.pages, Images(c, ptrs)[x]) {
      assert FromLive(c.list, 0, ptrs[x]);
      var i :| 0 <= i < |c.list| && Alive(c.list[i]) && c.list[i].ptr == ptrs[x];
      assert Images(c, ptrs)[x] in LivePages(c);
    }
  }

  /**
    The exact condition for any cache, with live images of any age: the query returns the bindings of the
    range, each once, if and only if every bound key of the range is served by exactly one live entry. A
    key is missed when the leaf its image leads to has split past it, or no image covers it, or the search
    stops before its entry; it is returned twice when two images lead to its leaf.
  */
  lemma QueryExactIff(c: CacheState, all: nat, s: State, m: map<Key, Value>, from: Key, to: Key)
    requires CacheOk(c, all) && ImagesOk(s.pages, LivePages(c)) && Inv(s) && Represents(s, m)
    ensures Exactly(Queried(c, s, from, to), m, from, to) <==>
            forall k :: k in m && from <= k <= to ==> ServedOnce(c, s, k, to)
  {
    hide Scan, Leaves, FoundPtrs, Ordered, PointersOk, AllFiled, Conserved, PagesOk, ImagesOk, ImageOk,
      Linked, Apart, Parented, Pending, Reached, Filled, Room, Rooted, Represents, ServedOnce, OnceLeads, Exactly;
    if to < from {
      EmptyRange(c, s, m, from, to);
    } else {
      FoundImages(c, s, from, to);
      LeavesExactIff(s, m, Images(c, FoundPtrs(c, from, to)), from, to);
      forall k | from <= k <= to ensures OnceLeads(s, Images(c, FoundPtrs(c, from, to)), k) <==> ServedOnce(c, s, k, to) {
        ServedOnceIff(c, s, from, to, k);
      }
    }
  }

  /** With any cache, a bound key of the range is returned as often as there are images found that lead to its leaf. */
  lemma QueryOccurs(c: CacheState, s: State, m: map<Key, Value>, from: Key, to: Key, k: Key)
    requires PointersOk(c) && AllFiled(c) && ImagesOk(s.pages, LivePages(c)) && Inv(s) && Represents(s, m)
    requires k in m && from <= k <= to
    ensures forall p :: p in FoundPtrs(c, from, to) ==> p in c.images
    ensures Occurs(Queried(c, s, from, to), k) == Leading(s, Images(c, FoundPtrs(c, from, to)), k)
  {
    hide Scan, Leaves, FoundPtrs, PointersOk, AllFiled, PagesOk, ImagesOk, ImageOk,
      Linked, Apart, Parented, Pending, Reached, Filled, Room, Rooted, Occurs, Leading, Covering;
    FoundImages(c, s, from, to);
    var ps := Images(c, FoundPtrs(c, from, to));
    assert Binds(s, k, m[k]);
    ScanOccurs(s, Leaves(ps, from, to), from, to, k, m[k]);
    LeavesCovering(s, ps, from, to, k);
  }

  // ---------------------------------------------------------------- current images only

  lemma CurrentImage(s: State, p: Page)
    requires Inv(s) && IsCurrent(s, p)
    ensures ImageOk(s.pages, p)
  {
    var a :| a in s.pages && s.pages[a].level == 1 && s.pages[a] == p;
    FreshImage(s, a);
  }

  lemma CurrentImages(c: CacheState, s: State)
    requires Inv(s) && LiveCurrent(c, s)
    ensures ImagesOk(s.pages, LivePages(c))
  {
    hide Inv, ImageOk, IsCurrent;
    forall p | p in LivePages(c) ensures ImageOk(s.pages, p) {
      CurrentImage(s, p);
    }
  }

  /** Two live entries with current images are the same or apart. */
  lemma CurrentApart(c: CacheState, s: State, i: nat, j: nat)
    requires Ordered(c.list) && PointersOk(c) && AllFiled(c) && LiveCurrent(c, s) && Apart(s)
    requires i < |c.list| && j < |c.list| && Alive(c.list[i]) && Alive(c.list[j]) && i != j
    ensures c.list[i].to < c.list[j].from || c.list[j].to < c.list[i].from
  {
    var p := LiveImage(c, i);
    var q := LiveImage(c, j);
    var a :| a in s.pages && s.pages[a].level == 1 && s.pages[a] == p;
    var b :| b in s.pages && s.pages[b].level == 1 && s.pages[b] == q;
    assert a != b ==> Disjoint(p, q);
    assert if i < j then Cmp(c.list[i], c.list[j]) < 0 else Cmp(c.list[j], c.list[i]) < 0;
  }

  /** With current images only, no entry is cut and no key is served twice. */
  lemma ServedOnceCurrent(c: CacheState, s: State, k: Key, to: Key)
    requires Ordered(c.list) && PointersOk(c) && AllFiled(c) && LiveCurrent(c, s) && Apart(s) && k <= to
    ensures ServedOnce(c, s, k, to) <==> UnderLive(c, s, k)
  {
    hide Leads, IsCurrent, Ordered, LiveCurrent, Apart, Filed;
    if UnderLive(c, s, k) {
      var p :| p in LivePages(c) && Leads(s, p, k);
      var i :| 0 <= i < |c.list| && Alive(c.list[i]) && c.list[i].ptr in c.images && c.images[c.list[i].ptr].page == p;
      LeadsWithin(c, s, i, k);
      forall j | 0 <= j < |c.list| && Alive(c.list[j]) ensures !(to < c.list[j].from && c.list[j].to <= c.list[i].to) {
        if i != j {
          CurrentApart(c, s, i, j);
        }
      }
      assert Serves(c, s, i, k, to);
      forall x: nat, y: nat | Serves(c, s, x, k, to) && Serves(c, s, y, k, to) ensures x == y {
        LeadsWithin(c, s, x, k);
        LeadsWithin(c, s, y, k);
        if x != y {
          CurrentApart(c, s, x, y);
        }
      }
    }
    if ServedOnce(c, s, k, to) {
      var i: nat :| Serves(c, s, i, k, to);
      assert c.images[c.list[i].ptr].page in LivePages(c);
    }
  }

  /** For current images, however few, the condition is that a live image leads to the leaf of every key of the range. */
  lemma CurrentExactIff(c: CacheState, all: nat, s: State, m: map<Key, Value>, from: Key, to: Key)
    requires CacheOk(c, all) && LiveCurrent(c, s) && Inv(s) && Represents(s, m)
    ensures Exactly(Queried(c, s, from, to), m, from, to) <==>
            forall k :: k in m && from <= k <= to ==> UnderLive(c, s, k)
  {
    hide Exactly, Queried, LiveCurrent, Ordered, PointersOk, AllFiled, Conserved, ServedOnce, UnderLive, Represents,
      PagesOk, Linked, Apart, Parented, Pending, Reached, Filled, Room, LivePages;
    CurrentImages(c, s);
    QueryExactIff(c, all, s, m, from, to);
    forall k | k in m && from <= k <= to ensures ServedOnce(c, s, k, to) <==> UnderLive(c, s, k) {
      ServedOnceCurrent(c, s, k, to);
    }
  }

  /** When no leaf split is half done, a current image that covers a key leads to its leaf. */
  lemma CoversLeads(s: State, p: Page, k: Key)
    requires Inv(s) && IsCurrent(s, p) && Covers(p, k) && k < KEY_MAX && forall x :: x in s.pending ==> x.level != 1
    ensures Leads(s, p, k)
  {
    hide Linked, Apart, Parented, Pending, Reached, Filled, Room;
    CurrentImage(s, p);
    var a :| a in s.pages && s.pages[a].level == 1 && s.pages[a] == p;
    var leaf := Find(s, s.root, k);
    assert PageOk(s.pages[leaf]);
    var b, i := HasParent(s, leaf, k);
    assert PageOk(s.pages[b]);
    CoverUnique(s, a, b, k);
    ChildLeads(s, p, i, k);
  }

  lemma UnderLiveIff(c: CacheState, s: State, k: Key)
    requires Inv(s) && LiveCurrent(c, s) && k < KEY_MAX && forall x :: x in s.pending ==> x.level != 1
    ensures UnderLive(c, s, k) <==> CoveredLive(c, k)
  {
    hide Inv, IsCurrent, LivePages;
    if p :| p in LivePages(c) && Covers(p, k) {
      CoversLeads(s, p, k);
    }
  }

  /**
    When every current level-1 page has a live image, no stale one is live and no leaf split is half done, a
    range query over a tree with more than one leaf returns the value of every key of [from, to] once and
    nothing else.
  */
  lemma RangeExact(c: CacheState, all: nat, s: State, m: map<Key, Value>, from: Key, to: Key)
    requires CacheOk(c, all) && LiveCurrent(c, s) && AllCached(c, s) && Inv(s) && Represents(s, m)
    requires s.pages[s.root].level != 0 && forall x :: x in s.pending ==> x.level != 1
    ensures Exactly(Queried(c, s, from, to), m, from, to)
  {
    hide LiveCurrent, Ordered, PointersOk, AllFiled, Conserved, PagesOk, Exactly, Queried, LivePages,
      Linked, Apart, Parented, Pending, Reached, Filled, Room;
    CurrentExactIff(c, all, s, m, from, to);
    forall k | k in m && from <= k <= to ensures UnderLive(c, s, k) {
      assert Binds(s, k, m[k]);
      BoundBelow(s, k, m[k]);
      var b := DescendTo(s, s.root, k, 1);
      assert s.pages[b] in LivePages(c);
      UnderLiveIff(c, s, k);
    }
  }
}
