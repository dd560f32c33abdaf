/**
  Constants, addresses and page images of the tree (include/Common.h, include/GlobalAddress.h
  and include/Tree.h).
*/
module Layout {

  type Key = nat
  type Value = nat

  const KEY_MIN: Key := 0
  const KEY_MAX: Key := 0xFFFF_FFFF_FFFF_FFFF
  const VALUE_NULL: Value := 0

  const PAGE_SIZE := 1024
  const HEADER_SIZE := 8 + 8 + 1 + 2 + 8 + 8
  const INTERNAL_ENTRY_SIZE := 8 + 8
  const LEAF_ENTRY_SIZE := 1 + 8 + 8 + 1
  const INTERNAL_CARDINALITY: nat := (PAGE_SIZE - HEADER_SIZE - 2 - 8) / INTERNAL_ENTRY_SIZE
  const LEAF_CARDINALITY: nat := (PAGE_SIZE - HEADER_SIZE - 2 - 8) / LEAF_ENTRY_SIZE

  const MAX_LEVEL_OF_TREE: nat := 7

  datatype GlobalAddress = GlobalAddress(nodeID: nat, offset: nat)

  const NULL := GlobalAddress(0, 0)

  datatype InternalEntry = InternalEntry(key: Key, ptr: GlobalAddress)

  datatype LeafEntry = LeafEntry(key: Key, value: Value)

  const EMPTY_ENTRY := LeafEntry(0, VALUE_NULL)

  /**
    A page as one atomic read returns it. A leaf carries all its slots; an internal page carries
    its records up to `last_index`, the only ones the code ever reads.
  */
  datatype Page =
    | LeafPage(level: nat, lowest: Key, highest: Key, sibling: GlobalAddress, entries: seq<LeafEntry>)
    | InternalPage(level: nat, lowest: Key, highest: Key, sibling: GlobalAddress,
                   leftmost: GlobalAddress, records: seq<InternalEntry>)

  /** The page covers `k`: `lowest` is inclusive, `highest` is exclusive. */
  predicate Covers(p: Page, k: Key) {
    p.lowest <= k < p.highest
  }
}
