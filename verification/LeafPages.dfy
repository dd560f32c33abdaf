/**
  Leaf pages: unsorted slots that are reused, an entry being live when its value is not null
  (src/Tree.cpp:687-697, 875-963, 1037-1047).
*/
module LeafPages {
  import opened Layout

  predicate Live(e: LeafEntry) {
    e.value != VALUE_NULL
  }

  /** `k` is bound to `v` by a live slot. */
  predicate Has(es: seq<LeafEntry>, k: Key, v: Value) {
    v != VALUE_NULL && LeafEntry(k, v) in es
  }

  predicate Full(es: seq<LeafEntry>) {
    forall i :: 0 <= i < |es| ==> Live(es[i])
  }

  /** Live keys are pairwise distinct. */
  ghost predicate Distinct(es: seq<LeafEntry>) {
    forall i, j :: 0 <= i < j < |es| && Live(es[i]) && Live(es[j]) ==> es[i].key != es[j].key
  }

  ghost predicate InRange(es: seq<LeafEntry>, lo: Key, hi: Key) {
    forall i :: 0 <= i < |es| && Live(es[i]) ==> lo <= es[i].key < hi
  }

  ghost predicate LeafOk(es: seq<LeafEntry>, lo: Key, hi: Key) {
    |es| == LEAF_CARDINALITY && InRange(es, lo, hi) && Distinct(es)
  }

  // ---------------------------------------------------------------- specification of the scans

  /** First live slot at or after `i` that holds `k`, or the number of slots. */
  function FindFrom(es: seq<LeafEntry>, k: Key, i: nat): (r: nat)
    requires i <= |es|
    ensures i <= r <= |es|
    ensures r < |es| ==> Live(es[r]) && es[r].key == k
    ensures forall j :: i <= j < r ==> !(Live(es[j]) && es[j].key == k)
    decreases |es| - i
  {
    if i == |es| || (Live(es[i]) && es[i].key == k) then i else FindFrom(es, k, i + 1)
  }

  /** First empty slot at or after `i`, or the number of slots. */
  function EmptyFrom(es: seq<LeafEntry>, i: nat): (r: nat)
    requires i <= |es|
    ensures i <= r <= |es|
    ensures r < |es| ==> !Live(es[r])
    ensures forall j :: i <= j < r ==> Live(es[j])
    decreases |es| - i
  {
    if i == |es| || !Live(es[i]) then i else EmptyFrom(es, i + 1)
  }

  /** Slots after storing `k := v`: overwrite the slot holding `k`, else use the first empty one. */
  function Put(es: seq<LeafEntry>, k: Key, v: Value): (r: seq<LeafEntry>)
    ensures |r| == |es|
  {
    var u := FindFrom(es, k, 0);
    if u < |es| then es[u := LeafEntry(k, v)]
    else
      var e := EmptyFrom(es, 0);
      if e < |es| then es[e := LeafEntry(k, v)] else es
  }

  /** Slots after deleting `k`: its value becomes null, its key stays behind. */
  function Delete(es: seq<LeafEntry>, k: Key): (r: seq<LeafEntry>)
    ensures |r| == |es|
  {
    var u := FindFrom(es, k, 0);
    if u < |es| then es[u := LeafEntry(k, VALUE_NULL)] else es
  }

  /** The value bound to `k`, null when there is none. */
  function Lookup(es: seq<LeafEntry>, k: Key): Value {
    var u := FindFrom(es, k, 0);
    if u < |es| then es[u].value else VALUE_NULL
  }

  lemma LookupHas(es: seq<LeafEntry>, k: Key, v: Value)
    requires Distinct(es)
    ensures Has(es, k, v) <==> v != VALUE_NULL && Lookup(es, k) == v
  {
  }

  /** A store binds `k` to `v`, leaves every other binding alone and keeps the page well formed. */
  lemma PutSpec(es: seq<LeafEntry>, k: Key, v: Value, lo: Key, hi: Key)
    requires LeafOk(es, lo, hi) && !Full(es) && lo <= k < hi && v != VALUE_NULL
    ensures LeafOk(Put(es, k, v), lo, hi)
    ensures forall k', v' :: Has(Put(es, k, v), k', v') <==> (if k' == k then v' == v else Has(es, k', v'))
  {
    var r := Put(es, k, v);
    var u := FindFrom(es, k, 0);
    var w := if u < |es| then u else EmptyFrom(es, 0);
    assert w < |es| && r == es[w := LeafEntry(k, v)];
    assert r[w] == LeafEntry(k, v);
    forall k', v'
      ensures Has(r, k', v') <==> (if k' == k then v' == v else Has(es, k', v'))
    {
      if Has(r, k', v') {
        var i :| 0 <= i < |r| && r[i] == LeafEntry(k', v');
        assert i != w ==> es[i] == r[i];
      }
      if k' != k && Has(es, k', v') {
        var i :| 0 <= i < |es| && es[i] == LeafEntry(k', v');
        assert r[i] == es[i];
      }
    }
  }

  lemma DeleteSpec(es: seq<LeafEntry>, k: Key, lo: Key, hi: Key)
    requires LeafOk(es, lo, hi)
    ensures LeafOk(Delete(es, k), lo, hi)
    ensures !Full(es) ==> !Full(Delete(es, k))
    ensures forall k', v' :: Has(Delete(es, k), k', v') <==> k' != k && Has(es, k', v')
  {
  }

  // ---------------------------------------------------------------- sorting and splitting

  ghost predicate StrictlySorted(es: seq<LeafEntry>) {
    forall i, j :: 0 <= i < j < |es| ==> es[i].key < es[j].key
  }

  function InsertByKey(e: LeafEntry, es: seq<LeafEntry>): (r: seq<LeafEntry>)
    ensures |r| == |es| + 1
    ensures forall x :: x in r <==> x == e || x in es
  {
    if es == [] || e.key < es[0].key then [e] + es
    else
      assert es == [es[0]] + es[1..];
      [es[0]] + InsertByKey(e, es[1..])
  }

  lemma {:induction false} InsertStrict(e: LeafEntry, es: seq<LeafEntry>)
    requires StrictlySorted(es) && forall i :: 0 <= i < |es| ==> es[i].key != e.key
    ensures StrictlySorted(InsertByKey(e, es))
  {
    if es != [] && es[0].key < e.key {
      InsertStrict(e, es[1..]);
      var t := InsertByKey(e, es[1..]);
      forall j | 0 <= j < |t| ensures es[0].key < t[j].key {
        assert t[j] in t;
        assert t[j] != e ==> t[j] in es[1..];
      }
    }
  }

  /** The library sort of a page's slots by key. */
  function SortByKey(es: seq<LeafEntry>): (r: seq<LeafEntry>)
    ensures |r| == |es|
    ensures forall x :: x in r <==> x in es
  {
    if es == [] then []
    else
      assert es == [es[0]] + es[1..];
      InsertByKey(es[0], SortByKey(es[1..]))
  }

  lemma {:induction false} SortStrict(es: seq<LeafEntry>)
    requires Full(es) && Distinct(es)
    ensures StrictlySorted(SortByKey(es))
  {
    if es != [] {
      SortStrict(es[1..]);
      var t := SortByKey(es[1..]);
      forall j | 0 <= j < |t| ensures t[j].key != es[0].key {
        assert t[j] in t;
        var i :| 0 <= i < |es[1..]| && es[1..][i] == t[j];
        assert es[i + 1] == t[j];
      }
      InsertStrict(es[0], t);
    }
  }

  function Empties(n: nat): (r: seq<LeafEntry>)
    ensures |r| == n && forall i :: 0 <= i < n ==> r[i] == EMPTY_ENTRY
  {
    seq(n, i => EMPTY_ENTRY)
  }

  const LEAF_MIDDLE: nat := LEAF_CARDINALITY / 2

  /** The two halves and the split key of a full page. */
  function LeftHalf(es: seq<LeafEntry>): (r: seq<LeafEntry>)
    requires |es| == LEAF_CARDINALITY
    ensures |r| == LEAF_CARDINALITY
  {
    SortByKey(es)[..LEAF_MIDDLE] + Empties(LEAF_CARDINALITY - LEAF_MIDDLE)
  }

  function RightHalf(es: seq<LeafEntry>): (r: seq<LeafEntry>)
    requires |es| == LEAF_CARDINALITY
    ensures |r| == LEAF_CARDINALITY
  {
    SortByKey(es)[LEAF_MIDDLE..] + Empties(LEAF_MIDDLE)
  }

  function LeafSplitKey(es: seq<LeafEntry>): Key
    requires |es| == LEAF_CARDINALITY
  {
    SortByKey(es)[LEAF_MIDDLE].key
  }

  /**
    A full page splits at a key strictly inside its range into two well-formed pages with room,
    whose bindings are disjoint and together those of the page.
  */
  lemma LeafSplitSpec(es: seq<LeafEntry>, lo: Key, hi: Key)
    requires LeafOk(es, lo, hi) && Full(es)
    ensures lo < LeafSplitKey(es) < hi
    ensures LeafOk(LeftHalf(es), lo, LeafSplitKey(es)) && !Full(LeftHalf(es))
    ensures LeafOk(RightHalf(es), LeafSplitKey(es), hi) && !Full(RightHalf(es))
    ensures forall k, v :: Has(es, k, v) <==> Has(LeftHalf(es), k, v) || Has(RightHalf(es), k, v)
    ensures forall k, v, w :: !(Has(LeftHalf(es), k, v) && Has(RightHalf(es), k, w))
  {
    SortStrict(es);
    var s := SortByKey(es);
    var l, r := LeftHalf(es), RightHalf(es);
    SortedRange(es, lo, hi);
    assert lo <= s[0].key < s[LEAF_MIDDLE].key;
    assert !Live(l[LEAF_MIDDLE]) && !Live(r[LEAF_CARDINALITY - LEAF_MIDDLE]);
    forall i | 0 <= i < |l| && Live(l[i])
      ensures i < LEAF_MIDDLE && l[i] == s[i] && lo <= l[i].key < LeafSplitKey(es)
    {
    }
    forall i | 0 <= i < |r| && Live(r[i])
      ensures i < LEAF_CARDINALITY - LEAF_MIDDLE && r[i] == s[LEAF_MIDDLE + i] && LeafSplitKey(es) <= r[i].key < hi
    {
    }
    forall k, v
      ensures Has(es, k, v) <==> Has(l, k, v) || Has(r, k, v)
    {
      if v != VALUE_NULL {
        SplitMembership(s, LeafEntry(k, v));
      }
    }
  }

  /** Either half holds 27 of the 54 keys. */
  lemma HalvesEven(es: seq<LeafEntry>, lo: Key, hi: Key)
    requires LeafOk(es, lo, hi) && Full(es)
    ensures forall i :: 0 <= i < 54 ==> (Live(LeftHalf(es)[i]) <==> i < 27) && (Live(RightHalf(es)[i]) <==> i < 27)
  {
    SortedRange(es, lo, hi);
  }

  lemma SortedRange(es: seq<LeafEntry>, lo: Key, hi: Key)
    requires Full(es) && InRange(es, lo, hi)
    ensures forall i :: 0 <= i < |es| ==> lo <= SortByKey(es)[i].key < hi && Live(SortByKey(es)[i])
  {
    forall i | 0 <= i < |es|
      ensures lo <= SortByKey(es)[i].key < hi && Live(SortByKey(es)[i])
    {
      assert SortByKey(es)[i] in SortByKey(es);
      var j :| 0 <= j < |es| && es[j] == SortByKey(es)[i];
    }
  }

  lemma SplitMembership(s: seq<LeafEntry>, x: LeafEntry)
    requires |s| == LEAF_CARDINALITY && Live(x)
    ensures x in s <==>
            x in s[..LEAF_MIDDLE] + Empties(LEAF_CARDINALITY - LEAF_MIDDLE) || x in s[LEAF_MIDDLE..] + Empties(LEAF_MIDDLE)
  {
  }

  // ---------------------------------------------------------------- the loops over a page buffer

  /** leaf_page_search: scan the slots for a live entry with key `k`. */
  method SearchSlots(records: array<LeafEntry>, k: Key) returns (val: Value)
    ensures val == Lookup(records[..], k)
  {
    val := VALUE_NULL;
    var i := 0;
    while i < records.Length
      invariant 0 <= i <= records.Length
      invariant FindFrom(records[..], k, 0) == FindFrom(records[..], k, i)
    {
      if records[i].key == k && Live(records[i]) {
        val := records[i].value;
        break;
      }
      i := i + 1;
    }
  }

  /** Number of live slots among the first `n`. */
  ghost function LiveCount(es: seq<LeafEntry>, n: nat): (c: nat)
    requires n <= |es|
    ensures c <= n
    ensures c == n <==> forall i :: 0 <= i < n ==> Live(es[i])
  {
    if n == 0 then 0 else LiveCount(es, n - 1) + (if Live(es[n - 1]) then 1 else 0)
  }

  lemma {:induction false} LiveCountFill(es: seq<LeafEntry>, w: nat, e: LeafEntry, n: nat)
    requires w < |es| && n <= |es| && !Live(es[w]) && Live(e)
    ensures LiveCount(es[w := e], n) == LiveCount(es, n) + (if w < n then 1 else 0)
  {
    if n != 0 {
      LiveCountFill(es, w, e, n - 1);
    }
  }

  lemma Overwritten(es: seq<LeafEntry>, i: nat, hole: nat, k: Key, v: Value)
    requires |es| == LEAF_CARDINALITY && i < |es| && hole < |es| && Live(es[i]) && es[i].key == k && !Live(es[hole]) && v != VALUE_NULL
    requires FindFrom(es, k, 0) == i
    ensures es[i := LeafEntry(k, v)] == Put(es, k, v) && !Full(Put(es, k, v))
    ensures LiveCount(es, i + 1) < LEAF_CARDINALITY
  {
    assert !Live(es[i := LeafEntry(k, v)][hole]);
    LiveCountBelow(es, hole, i + 1);
  }

  lemma {:induction false} LiveCountBelow(es: seq<LeafEntry>, hole: nat, n: nat)
    requires hole < |es| && n <= |es| && !Live(es[hole])
    ensures LiveCount(es, n) <= n && (hole < n ==> LiveCount(es, n) < n)
  {
    if 0 < n {
      LiveCountBelow(es, hole, n - 1);
    }
  }

  /**
    The store loop of leaf_page_store: one pass finds the slot to overwrite or the first empty one
    and counts the live slots; the count decides whether the page must split.
  */
  method StoreSlot(records: array<LeafEntry>, k: Key, v: Value) returns (needSplit: bool)
    requires records.Length == LEAF_CARDINALITY
    requires !Full(records[..]) && v != VALUE_NULL
    modifies records
    ensures records[..] == Put(old(records[..]), k, v)
    ensures needSplit == Full(records[..])
  {
    var cnt := 0;
    var emptyIndex := -1;
    var updated := false;
    ghost var before := records[..];
    ghost var hole :| 0 <= hole < |before| && !Live(before[hole]);
    var i := 0;
    while i < LEAF_CARDINALITY
      invariant 0 <= i <= LEAF_CARDINALITY
      invariant !updated && records[..] == before
      invariant cnt == LiveCount(before, i)
      invariant FindFrom(before, k, 0) == FindFrom(before, k, i)
      invariant emptyIndex == -1 ==> EmptyFrom(before, 0) == EmptyFrom(before, i)
      invariant emptyIndex == -1 ==> forall j :: 0 <= j < i ==> Live(before[j])
      invariant emptyIndex != -1 ==> 0 <= emptyIndex < i && emptyIndex == EmptyFrom(before, 0)
    {
      if Live(records[i]) {
        cnt := cnt + 1;
        if records[i].key == k {
          records[i] := LeafEntry(k, v);
          updated := true;
          break;
        }
      } else if emptyIndex == -1 {
        emptyIndex := i;
      }
      i := i + 1;
    }
    if updated {
      assert records[..] == before[i := LeafEntry(k, v)];
      Overwritten(before, i, hole, k, v);
    } else {
      assert emptyIndex != -1;
      records[emptyIndex] := LeafEntry(k, v);
      cnt := cnt + 1;
      assert records[..] == before[emptyIndex := LeafEntry(k, v)];
      LiveCountFill(before, emptyIndex, LeafEntry(k, v), LEAF_CARDINALITY);
    }
    needSplit := cnt == LEAF_CARDINALITY;
  }

  /** The move loop of the leaf split, on an already sorted buffer. */
  method MoveUpperHalf(records: array<LeafEntry>, sibling: array<LeafEntry>)
    requires records != sibling
    requires records.Length == sibling.Length == LEAF_CARDINALITY
    requires sibling[..] == Empties(LEAF_CARDINALITY)
    modifies records, sibling
    ensures records[..] == old(records[..])[..LEAF_MIDDLE] + Empties(LEAF_CARDINALITY - LEAF_MIDDLE)
    ensures sibling[..] == old(records[..])[LEAF_MIDDLE..] + Empties(LEAF_MIDDLE)
  {
    var m := LEAF_CARDINALITY / 2;
    ghost var s := records[..];
    for i := m to LEAF_CARDINALITY
      invariant forall j :: 0 <= j < LEAF_CARDINALITY ==> records[j] == if m <= j < i then EMPTY_ENTRY else s[j]
      invariant forall j :: 0 <= j < LEAF_CARDINALITY ==> sibling[j] == if j < i - m then s[m + j] else EMPTY_ENTRY
    {
      sibling[i - m] := LeafEntry(records[i].key, records[i].value);
      records[i] := LeafEntry(0, VALUE_NULL);
    }
  }

  /** The delete loop of leaf_page_del. */
  method ClearSlot(records: array<LeafEntry>, k: Key) returns (cleared: bool)
    modifies records
    ensures records[..] == Delete(old(records[..]), k)
    ensures cleared <==> exists v :: Has(old(records[..]), k, v)
  {
    ghost var before := records[..];
    cleared := false;
    var i := 0;
    while i < records.Length
      invariant 0 <= i <= records.Length
      invariant !cleared && records[..] == before
      invariant FindFrom(before, k, 0) == FindFrom(before, k, i)
    {
      if records[i].key == k && Live(records[i]) {
        assert Has(before, k, before[i].value);
        records[i] := LeafEntry(k, VALUE_NULL);
        cleared := true;
        assert records[..] == before[i := LeafEntry(k, VALUE_NULL)];
        break;
      }
      i := i + 1;
    }
  }
}
