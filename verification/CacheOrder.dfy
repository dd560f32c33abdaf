/**
  The order of the index cache's skip list (include/CacheEntry.h:28-44): by `to` ascending and, for
  equal `to`, by `from` descending. The skip list itself is an ordered sequence with a seek.
*/
module CacheOrder {
  import opened Layout

  /** A cached interval, both ends inclusive; pointer 0 is null, any other one a live page image. */
  datatype CacheEntry = CacheEntry(from: Key, to: Key, ptr: nat)

  /** Comparator of the skip list; it ignores the pointer. */
  function Cmp(a: CacheEntry, b: CacheEntry): int {
    if a.to < b.to then -1
    else if a.to > b.to then 1
    else if a.from < b.from then 1
    else if a.from > b.from then -1
    else 0
  }

  predicate CoversKey(e: CacheEntry, k: Key) {
    e.from <= k <= e.to
  }

  ghost predicate Ordered(list: seq<CacheEntry>) {
    forall i, j :: 0 <= i < j < |list| ==> Cmp(list[i], list[j]) < 0
  }

  /** Seek: the first entry not below the probe, or the length of the list. */
  function Seek(list: seq<CacheEntry>, probe: CacheEntry): (r: nat)
    ensures r <= |list|
    ensures r < |list| ==> 0 <= Cmp(list[r], probe)
    ensures forall i :: 0 <= i < r ==> Cmp(list[i], probe) < 0
  {
    if list == [] || 0 <= Cmp(list[0], probe) then 0 else 1 + Seek(list[1..], probe)
  }

  /** Everything from the seek position on is at or after the probe. */
  lemma AfterSeek(list: seq<CacheEntry>, probe: CacheEntry, i: nat)
    requires Ordered(list) && Seek(list, probe) <= i < |list|
    ensures 0 <= Cmp(list[i], probe)
  {
  }

  /** The lookup of `k`: a seek with the probe [k, k]. */
  function FindKey(list: seq<CacheEntry>, k: Key): nat {
    Seek(list, CacheEntry(k, k, 0))
  }

  /** Two intervals are nested or disjoint. */
  predicate Laminar(a: CacheEntry, b: CacheEntry) {
    || a.to < b.from || b.to < a.from
    || (b.from <= a.from && a.to <= b.to)
    || (a.from <= b.from && b.to <= a.to)
  }

  ghost predicate LaminarList(list: seq<CacheEntry>) {
    forall i, j :: 0 <= i < |list| && 0 <= j < |list| ==> Laminar(list[i], list[j])
  }

  /** An entry covering `k` stands at or after the result of the lookup. */
  lemma CoveringIsAfter(list: seq<CacheEntry>, k: Key, i: nat)
    requires Ordered(list) && i < |list| && CoversKey(list[i], k)
    ensures FindKey(list, k) <= i
  {
  }

  /**
    Over nested-or-disjoint intervals the lookup, when its result covers the key at all, returns the
    narrowest interval that does.
  */
  lemma FindNarrowest(list: seq<CacheEntry>, k: Key, i: nat)
    requires Ordered(list) && LaminarList(list) && i < |list| && CoversKey(list[i], k)
    requires FindKey(list, k) < |list| && CoversKey(list[FindKey(list, k)], k)
    ensures var r := list[FindKey(list, k)]; list[i].from <= r.from && r.to <= list[i].to
  {
  }

  /** `c` covers the key and no interval that starts after the key ends by the end of `c`. */
  ghost predicate Unshadowed(list: seq<CacheEntry>, c: nat, k: Key)
    requires c < |list|
  {
    CoversKey(list[c], k) && forall i :: 0 <= i < |list| ==> !(k < list[i].from && list[i].from <= list[i].to <= list[c].to)
  }

  /** `c` ends first among the intervals that cover the key, and starts last among those ending there. */
  ghost predicate EndsFirst(list: seq<CacheEntry>, c: nat, k: Key)
    requires c < |list|
  {
    forall i :: 0 <= i < |list| && CoversKey(list[i], k) ==>
      list[c].to < list[i].to || (list[c].to == list[i].to && list[i].from <= list[c].from)
  }

  /** The lookup ends at the covering interval `c` exactly when `c` ends first and is not shadowed. */
  lemma FindsIff(list: seq<CacheEntry>, k: Key, c: nat)
    requires Ordered(list) && c < |list| && forall i :: 0 <= i < |list| ==> list[i].from <= list[i].to
    ensures FindKey(list, k) == c && CoversKey(list[c], k) <==> Unshadowed(list, c, k) && EndsFirst(list, c, k)
  {
    var r := FindKey(list, k);
    forall i | 0 <= i < |list| && i != r && r < |list|
      ensures if i < r then Cmp(list[i], CacheEntry(k, k, 0)) < 0 else Cmp(list[r], list[i]) < 0
    {
    }
    if CoversKey(list[c], k) {
      CoveringIsAfter(list, k, c);
    }
  }
}
