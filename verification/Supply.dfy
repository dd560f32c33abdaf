/**
  What the allocator gives the tree: however calls interleave, page-sized ranges are distinct page
  addresses, none of them null, and no more than the machines have room for.
*/
module Supplies {
  import opened Layout
  import opened Levels
  import opened TreeOps
  import opened Allocators

  const MAX_MACHINES: nat := 8
  const REGION: nat := 8 * 1024 * 1024 * 1024
  const PAGES_PER_REGION: nat := 8 * 1024 * 1024

  lemma {:induction false} DistinctBelow(s: seq<nat>, n: nat)
    requires (forall i :: 0 <= i < |s| ==> s[i] < n) && forall i, j :: 0 <= i < j < |s| ==> s[i] != s[j]
    ensures |s| <= n
  {
    var have := set i | 0 <= i < |s| :: s[i];
    SetOfSeq(s);
    SubsetSize(have, Below(n));
  }

  lemma {:induction false} SetOfSeq(s: seq<nat>)
    requires forall i, j :: 0 <= i < j < |s| ==> s[i] != s[j]
    ensures |set i | 0 <= i < |s| :: s[i]| == |s|
  {
    if s != [] {
      var t := s[..|s| - 1];
      SetOfSeq(t);
      assert (set i | 0 <= i < |s| :: s[i]) == (set i | 0 <= i < |t| :: t[i]) + {s[|s| - 1]};
    }
  }

  ghost function Below(n: nat): (s: set<nat>)
    ensures |s| == n && forall x: nat :: x in s <==> x < n
  {
    if n == 0 then {} else Below(n - 1) + {n - 1}
  }

  /** Page number of an address, counting over all machines. */
  function PageNumber(a: GlobalAddress): nat {
    a.nodeID * PAGES_PER_REGION + a.offset / PAGE_SIZE
  }

  lemma PageNumbersDiffer(a: GlobalAddress, b: GlobalAddress)
    requires a.offset < REGION && b.offset < REGION
    requires a.nodeID == b.nodeID ==> a.offset + PAGE_SIZE <= b.offset || b.offset + PAGE_SIZE <= a.offset
    ensures PageNumber(a) != PageNumber(b)
  {
  }

  lemma PageNumberBelow(a: GlobalAddress)
    requires a.offset < REGION && a.nodeID < MAX_MACHINES
    ensures PageNumber(a) < MAX_PAGES
  {
  }

  ghost function Addresses(region: nat, given: seq<Range>): seq<GlobalAddress> {
    seq(|given|, i requires 0 <= i < |given| => AddressOf(region, given[i]))
  }

  /**
    The pages allocated in any run on 8 machines of 8 GB, one directory each, are a supply the tree
    can be built from.
  */
  lemma RunSupplies(ss: seq<State>, es: seq<Event>, n: nat)
    requires Run(REGION, ss, es) && n < |ss|
    requires forall i :: 0 <= i < |ss[n].given| ==>
               ss[n].given[i].size == PAGE_SIZE && ss[n].given[i].chunk.node < MAX_MACHINES && ss[n].given[i].chunk.dir == 0
    ensures SupplyOk(Addresses(REGION, ss[n].given), 0, map[])
  {
    var addrs := Addresses(REGION, ss[n].given);
    forall i | 0 <= i < |addrs| ensures addrs[i] != NULL && addrs[i].offset < REGION && addrs[i].nodeID < MAX_MACHINES {
      RangesSafe(REGION, ss, es, n, i);
    }
    var numbers := seq(|addrs|, i requires 0 <= i < |addrs| => PageNumber(addrs[i]));
    forall i, j | 0 <= i < j < |addrs| ensures numbers[i] != numbers[j] {
      PagesApart(ss, es, n, i, j);
      PageNumbersDiffer(addrs[i], addrs[j]);
    }
    forall i | 0 <= i < |addrs| ensures numbers[i] < MAX_PAGES {
      PageNumberBelow(addrs[i]);
    }
    DistinctBelow(numbers, MAX_PAGES);
    forall i, j | 0 <= i < j < |addrs| ensures addrs[i] != addrs[j] {
      assert numbers[i] != numbers[j];
    }
  }

  lemma PagesApart(ss: seq<State>, es: seq<Event>, n: nat, i: nat, j: nat)
    requires Run(REGION, ss, es) && n < |ss| && i < j < |ss[n].given|
    requires ss[n].given[i].size == ss[n].given[j].size == PAGE_SIZE
    ensures var a, b := AddressOf(REGION, ss[n].given[i]), AddressOf(REGION, ss[n].given[j]);
            a.nodeID == b.nodeID ==> a.offset + PAGE_SIZE <= b.offset || b.offset + PAGE_SIZE <= a.offset
  {
    if ss[n].given[i].chunk.node == ss[n].given[j].chunk.node {
      RangesDisjoint(REGION, ss, es, n, i, j);
    }
  }
}
