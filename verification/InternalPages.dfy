/**
  Internal pages: sorted separators with a leftmost child, routing, insertion by shifting in place
  and splitting (src/Tree.cpp:665-685, 736-801).
*/
module InternalPages {
  import opened Layout

  /** Separators are strictly increasing and strictly inside the page's range. */
  ghost predicate RecordsOk(rs: seq<InternalEntry>, lo: Key, hi: Key) {
    && (forall i :: 0 <= i < |rs| ==> lo < rs[i].key < hi)
    && Sorted(rs)
  }

  ghost predicate Sorted(rs: seq<InternalEntry>) {
    forall i, j :: 0 <= i < j < |rs| ==> rs[i].key < rs[j].key
  }

  /** First record whose key exceeds `k`, or the number of records. */
  function RouteFrom(rs: seq<InternalEntry>, k: Key, i: nat): (r: nat)
    requires i <= |rs|
    ensures i <= r <= |rs|
    ensures r < |rs| ==> k < rs[r].key
    ensures forall j :: i <= j < r ==> rs[j].key <= k
    decreases |rs| - i
  {
    if i == |rs| || k < rs[i].key then i else RouteFrom(rs, k, i + 1)
  }

  /** The children of an internal page are numbered from 0, the leftmost one. */
  function Child(p: Page, i: nat): GlobalAddress
    requires p.InternalPage? && i <= |p.records|
  {
    if i == 0 then p.leftmost else p.records[i - 1].ptr
  }

  /** The key from which child `i` is responsible. */
  function SepKey(p: Page, i: nat): Key
    requires p.InternalPage? && i <= |p.records|
  {
    if i == 0 then p.lowest else p.records[i - 1].key
  }

  function Route(p: Page, k: Key): GlobalAddress
    requires p.InternalPage?
  {
    Child(p, RouteFrom(p.records, k, 0))
  }

  /** Upper end of the range child `i` is responsible for. */
  function SepEnd(p: Page, i: nat): Key
    requires p.InternalPage? && i <= |p.records|
  {
    if i == |p.records| then p.highest else p.records[i].key
  }

  /** The routed child is the only one whose range in the page contains `k`. */
  lemma RouteSpec(p: Page, k: Key)
    requires p.InternalPage? && RecordsOk(p.records, p.lowest, p.highest) && Covers(p, k)
    ensures forall i :: 0 <= i <= |p.records| ==>
              ((SepKey(p, i) <= k < SepEnd(p, i)) <==> i == RouteFrom(p.records, k, 0))
  {
  }

  /** Records after adding separator `k` with child `v`, or redirecting it when already present. */
  function InsertRecord(rs: seq<InternalEntry>, k: Key, v: GlobalAddress): (r: seq<InternalEntry>) {
    var i := RouteFrom(rs, k, 0);
    if 0 < i && rs[i - 1].key == k then rs[i - 1 := InternalEntry(k, v)]
    else rs[..i] + [InternalEntry(k, v)] + rs[i..]
  }

  lemma InsertRecordAt(rs: seq<InternalEntry>, k: Key, v: GlobalAddress)
    requires Sorted(rs) && forall i :: 0 <= i < |rs| ==> rs[i].key != k
    ensures var q, i := InsertRecord(rs, k, v), RouteFrom(rs, k, 0);
            && |q| == |rs| + 1 && q[i] == InternalEntry(k, v)
            && (forall j :: 0 <= j < i ==> q[j] == rs[j])
            && (forall j :: i < j < |q| ==> q[j] == rs[j - 1])
  {
  }

  lemma SortedAround(rs: seq<InternalEntry>, q: seq<InternalEntry>, e: InternalEntry, i: nat)
    requires i <= |rs| && |q| == |rs| + 1 && q[i] == e && Sorted(rs)
    requires forall j :: 0 <= j < i ==> q[j] == rs[j] && rs[j].key < e.key
    requires forall j :: i < j < |q| ==> q[j] == rs[j - 1] && e.key < rs[j - 1].key
    ensures Sorted(q)
  {
  }

  lemma AboveRoute(rs: seq<InternalEntry>, k: Key)
    requires Sorted(rs)
    ensures forall j :: RouteFrom(rs, k, 0) <= j < |rs| ==> k < rs[j].key
  {
  }

  lemma InsertRecordOk(rs: seq<InternalEntry>, k: Key, v: GlobalAddress, lo: Key, hi: Key)
    requires RecordsOk(rs, lo, hi) && lo < k < hi && forall i :: 0 <= i < |rs| ==> rs[i].key != k
    ensures RecordsOk(InsertRecord(rs, k, v), lo, hi)
  {
    var q, i := InsertRecord(rs, k, v), RouteFrom(rs, k, 0);
    InsertRecordAt(rs, k, v);
    AboveRoute(rs, k);
    SortedAround(rs, q, InternalEntry(k, v), i);
  }

  /** Inserting a new separator: sorted, one record longer, all children in order with `v` added. */
  lemma InsertRecordSpec(p: Page, k: Key, v: GlobalAddress)
    requires p.InternalPage? && RecordsOk(p.records, p.lowest, p.highest)
    requires p.lowest < k < p.highest
    requires forall i :: 0 <= i < |p.records| ==> p.records[i].key != k
    ensures var q := p.(records := InsertRecord(p.records, k, v));
            var i := RouteFrom(p.records, k, 0);
            && |q.records| == |p.records| + 1
            && RecordsOk(q.records, q.lowest, q.highest)
            && Child(q, i + 1) == v && SepKey(q, i + 1) == k
            && (forall j :: 0 <= j <= i ==> Child(q, j) == Child(p, j) && SepKey(q, j) == SepKey(p, j))
            && (forall j :: i + 1 < j <= |q.records| ==> Child(q, j) == Child(p, j - 1) && SepKey(q, j) == SepKey(p, j - 1))
  {
    InsertRecordAt(p.records, k, v);
    InsertRecordOk(p.records, k, v, p.lowest, p.highest);
  }

  const INTERNAL_MIDDLE: nat := INTERNAL_CARDINALITY / 2

  // ---------------------------------------------------------------- the loops over a page buffer

  /** internal_page_search: the first record above `k` decides the child. */
  method SearchRecords(leftmost: GlobalAddress, records: array<InternalEntry>, cnt: nat, k: Key)
      returns (next: GlobalAddress)
    requires 1 <= cnt <= records.Length
    ensures next == var r := RouteFrom(records[..cnt], k, 0); if r == 0 then leftmost else records[r - 1].ptr
  {
    if k < records[0].key {
      return leftmost;
    }
    var i := 1;
    while i < cnt
      invariant 1 <= i <= cnt
      invariant RouteFrom(records[..cnt], k, 0) == RouteFrom(records[..cnt], k, i)
    {
      if k < records[i].key {
        return records[i - 1].ptr;
      }
      i := i + 1;
    }
    next := records[cnt - 1].ptr;
  }

  /** Shift the records from `place` on one slot up and write `e` there. */
  method ShiftUp(records: array<InternalEntry>, cnt: nat, place: nat, e: InternalEntry)
    requires place <= cnt < records.Length
    modifies records
    ensures records[..cnt + 1] == old(records[..place]) + [e] + old(records[place..cnt])
  {
    ghost var rs := records[..cnt];
    var j := cnt;
    while place < j
      invariant place <= j <= cnt
      invariant forall x :: 0 <= x < j ==> records[x] == rs[x]
      invariant forall x :: j < x <= cnt ==> records[x] == rs[x - 1]
    {
      records[j] := records[j - 1];
      j := j - 1;
    }
    records[place] := e;
  }

  /**
    The insertion of internal_page_store: scan from the right for the place, then shift the larger
    records one slot up and write the new one, all in the page buffer.
  */
  method ShiftInsert(records: array<InternalEntry>, cnt: nat, k: Key, v: GlobalAddress) returns (newCnt: nat)
    requires cnt < records.Length
    requires Sorted(records[..cnt])
    modifies records
    ensures newCnt <= records.Length
    ensures records[..newCnt] == InsertRecord(old(records[..cnt]), k, v)
  {
    ghost var rs := records[..cnt];
    var insertIndex := 0;
    var i: int := cnt - 1;
    while 0 <= i
      invariant -1 <= i < cnt
      invariant insertIndex == 0 && records[..cnt] == rs
      invariant forall x :: i < x < cnt ==> k < rs[x].key
    {
      assert records[i] == rs[i];
      if records[i].key == k {
        RoutePlace(rs, k, i + 1);
        records[i] := InternalEntry(k, v);
        assert records[..cnt] == rs[i := InternalEntry(k, v)];
        return cnt;
      }
      if records[i].key < k {
        insertIndex := i + 1;
        break;
      }
      i := i - 1;
    }
    RoutePlace(rs, k, insertIndex);
    assert old(records[..cnt]) == records[..cnt];
    assert records[..insertIndex] == rs[..insertIndex] && records[insertIndex..cnt] == rs[insertIndex..];
    ShiftUp(records, cnt, insertIndex, InternalEntry(k, v));
    newCnt := cnt + 1;
  }

  /** In sorted records the routing position is where smaller keys end and larger ones begin. */
  lemma RoutePlace(rs: seq<InternalEntry>, k: Key, i: nat)
    requires Sorted(rs) && i <= |rs|
    requires 0 < i ==> rs[i - 1].key <= k
    requires forall x :: i <= x < |rs| ==> k < rs[x].key
    ensures RouteFrom(rs, k, 0) == i
  {
    forall x | 0 <= x < i ensures rs[x].key <= k {
      assert x < i - 1 ==> rs[x].key < rs[i - 1].key;
    }
    RouteSkip(rs, k, 0, i);
  }

  lemma RouteSkip(rs: seq<InternalEntry>, k: Key, j: nat, i: nat)
    requires j <= i <= |rs|
    requires forall x :: j <= x < i ==> rs[x].key <= k
    requires i < |rs| ==> k < rs[i].key
    ensures RouteFrom(rs, k, j) == i
    decreases i - j
  {
  }

  /** The move loop of the internal split: the records above the middle go to the sibling. */
  method MoveUpperRecords(records: array<InternalEntry>, sibling: array<InternalEntry>)
    requires records != sibling
    requires records.Length == sibling.Length == INTERNAL_CARDINALITY
    modifies sibling
    ensures sibling[..INTERNAL_CARDINALITY - INTERNAL_MIDDLE - 1] == records[INTERNAL_MIDDLE + 1..]
  {
    var m := INTERNAL_CARDINALITY / 2;
    for i := m + 1 to INTERNAL_CARDINALITY
      invariant forall x :: 0 <= x < i - m - 1 ==> sibling[x] == records[x + m + 1]
    {
      sibling[i - m - 1] := records[i];
    }
  }
}
