# Sherman in Dafny

Sherman keeps a B-link tree in disaggregated memory: the pages live on memory nodes, and compute nodes
read, write and compare-and-swap them from afar. This project models the parts of it that have to be
right together and proves what holds of them over every run.

Three models of the tree share one set of page-level definitions (`LeafPages`, `InternalPages`, `BLink`).

- `Steps` and `Runs` are a step system: one step is one page update as it is published (a slot stored or
  cleared, a leaf or internal split, a separator inserted, the root swapped), and any number of clients
  interleave. A split leaves a *pending* separator behind until some step takes it up. The invariant says
  that every level is a chain of pages that partitions the key space, that every child pointer leads to a
  page one level down that starts at its separator, that pages keep their `lowest` for ever, and that
  internal pages stay half full. From it follow searches that overlap with any number of other updates,
  the use of page images of any age, the nesting of page ranges over time, and a bound on the height.
- `Climbers` and `ClimberRuns` put the inserting and deleting clients into that system, each with the root
  it captured and its path stack: the assertions they make at locked pages, and whether the separator of a
  split finds its parent. `ClientOps` says what their operations do to the map, each once and at its leaf.
  `GrowingRuns` builds runs to trees of any height, as witnesses.
- `TreeOps.Tree` is the client as the code writes it, with page buffers, a path stack, a cache and loops
  that descend, shift, sort and split in place, while no other client runs. Its copy of the root may be
  stale: announcements reach it when they do. Each of its page writes is proved to be a step of the first
  model, and each of its operations to be the operation of a finite map.

Around the tree:

- `CacheOrder`, `IndexCaches`, `CacheHistory`: the index cache, its comparator, its accounting, and what
  a lookup finds among images of different ages;
- `CacheUse`: how an operation uses the cache, and what it leaves there for range queries;
- `RangeQueries`, `QueryHistory`: range queries through the cache, in batches of 32 leaves, and what they
  find through images of any age;
- `HierLock`, `LocalLocks`: the two-level lock with hand-over and unlocking writes that arrive late, and the
  atomic page updates made under it;
- `Allocators`, `Supplies`: the two-level allocator and what it guarantees to the tree;
- `RootPublish`: the chain of roots and the announcements that nodes receive of it;
- `Rings`: the receive and send rings of the message connections;
- `CoroMaster`: the coroutine master of a client thread.

What the models assume of their surroundings: a page read or write is atomic; a page write takes effect at the
step that unlocks the page (`SerialUpdates` says what this comes to under the lock); operations posted on one
queue pair are carried out in order, with the payload they had when posted; a lock word gives out fewer than
2^32 tickets (`TicketCarry` says what the next one would do); keys are below kKeyMax (`AnswerableIff` and
`SiblingAssertIff` say what becomes of kKeyMax itself) and stored values are not kValueNull.
Random draws, the age of a waiting image, the allocator's answers and the moments at which the network card
finishes an operation are parameters or steps, so the proofs hold for all of them.

Six places where the code does not do what one would expect are stated as exact conditions. The separator of a
split reaches a parent only if the client captured a root that was high enough, or the root it captured is the
page that split and still the root at the swap; otherwise the client stops at an assertion, and the separator
is on its way for ever (`StopsIff`, `StoppedForEver`, with a run in `SeparatorStranded`). A cache lookup
misses a live interval that covers the key when another interval, live or dead, comes first (`LookupHitsIff`,
with runs in `LookupCanMiss`). A range query reads the leaves that the live images of level-1 pages lead to,
so it returns nothing over trees of fewer than four levels, whose pages are never cached; a bound key is
missed when no image the search gets to covers it, or when the leaf its image leads to has split past it
since, and it is returned twice when two images lead to its leaf (`QueryExactIff`, `QueryOccurs`, `LeadsIff`,
with both failures in `StaleMiss`, `DuplicateRead` and runs in `QueryCanFail`). A search for kKeyMax gets lost
unless it starts at a leaf (`AnswerableIff`). A message buffer is posted again before the last message of its
batch has been looked at (`JustReadSafeIff`). An allocation larger than a chunk returns memory it does not
reserve (`DsmThread.Alloc`).

## Model

| member | source | states |
|---|---|---|
| LeafPages.SearchSlots | src/Tree.cpp:687-697 | the scan of a leaf returns the value of the first live slot that holds the key, null when no live slot does |
| LeafPages.LookupHas | src/Tree.cpp:687-697 | over slots with distinct live keys, the scan finds a value exactly when the page binds the key to it |
| LeafPages.StoreSlot | src/Tree.cpp:875-914 | the storing loop, stopping early at the key, overwrites its slot or fills the first empty one, and asks for a split exactly when no slot is left empty |
| LeafPages.PutSpec | src/Tree.cpp:875-912 | a store binds the key to the value, changes no other binding, and keeps live keys distinct and in range, with slots of deleted keys being reused |
| LeafPages.ClearSlot | src/Tree.cpp:1037-1047 | the deleting loop empties the one live slot of the key, and reports whether there was one |
| LeafPages.DeleteSpec | src/Tree.cpp:1037-1047 | a deletion removes the binding of the key, no other one, and never fills a page up |
| LeafPages.SortStrict | src/Tree.cpp:922-926 | sorting the slots of a full page leaves the keys strictly increasing, so the position of the split key is well defined |
| LeafPages.MoveUpperHalf | src/Tree.cpp:939-951 | the move loop leaves the lower 27 slots, empties the others, and copies the upper 27 to the front of the sibling |
| LeafPages.LeafSplitSpec | src/Tree.cpp:928-963 | a full leaf splits at a key strictly inside its range into two well-formed pages with room, whose bindings are disjoint and together those of the leaf |
| LeafPages.HalvesEven | src/Tree.cpp:928-951 | either half then holds exactly 27 of the 54 keys, in its first slots |
| InternalPages.SearchRecords | src/Tree.cpp:665-685 | the routing loop returns the child left of the first separator above the key |
| InternalPages.RouteSpec | src/Tree.cpp:665-685 | the routed child is the only one whose range contains the key |
| InternalPages.ShiftInsert | src/Tree.cpp:736-764 | scanning from the right and shifting in place gives the sorted insertion of the separator, or redirects the child of an equal one |
| InternalPages.InsertRecordSpec | src/Tree.cpp:736-764 | after an insertion the separators are sorted, all old children are there in order with their keys, and the new child stands at its key |
| InternalPages.MoveUpperRecords | src/Tree.cpp:779-790 | the move loop copies exactly the records above the middle one to the front of the sibling |
| BLink.SplitPageSpec | src/Tree.cpp:766-801 | both halves of a full page are well formed, have room, are half full, and meet at a key strictly inside the page's range |
| BLink.SplitChildren | src/Tree.cpp:766-801 | the 62 children of a full internal page are those of its two halves, in order and with their keys, the middle one becoming the leftmost of the right half |
| BLink.RewriteLeaf | src/Tree.cpp:914-921 | a leaf rewritten in place keeps the shape of the whole tree |
| BLink.InsertShape | src/Tree.cpp:736-764 | inserting a pending separator in the page that covers it keeps the shape of the whole tree and takes the separator off the pending ones |
| BLink.SplitShape | src/Tree.cpp:766-806 | splitting any full page, leaf or internal, keeps the shape of the whole tree with one more separator pending |
| BLink.SwapShape | src/Tree.cpp:126-149 | a new root over the old one and its pending sibling keeps the shape of the whole tree |
| Steps.StepInv | src/Tree.cpp:699-991 | every step of every client keeps the B-link invariant; no page disappears, changes level or `lowest`, or extends to the right; and no page is ever left full |
| Steps.StepRefines | src/Tree.cpp:699-1057 | every step changes the key-value contents by its own map operation only: a split, an insertion in a parent or a new root changes no binding |
| Steps.ReadStepSpec | src/Tree.cpp:593-697 | one page read from a page that does not start after the key answers right, or leads to such a page again that is lower or further right |
| Steps.Find | src/Tree.cpp:405-459 | a search in a fixed state ends, from any page that does not start after the key, at a leaf that covers the key |
| Steps.FindSpec | src/Tree.cpp:102-114 | from whatever such page it starts, a former root held in a stale g_root_ptr included, it ends at the same leaf, and that leaf holds the answer of the map |
| Steps.AnswerableIff | src/Tree.cpp:429-458 | a search, from any page that does not start after its key, ends with the right answer if and only if the key is below kKeyMax or the page is a leaf; otherwise it gets lost at the null address |
| Steps.SiblingAssertIff | src/Tree.cpp:865-872 | the assertion that a page ending before the key has a sibling holds on all pages if and only if the key is below kKeyMax |
| Runs.InitialInv | src/Tree.cpp:46-61 | the tree of the constructor satisfies the invariant and stands for the empty map |
| Runs.RunInv | src/Tree.cpp:699-1057 | the invariant holds at every moment of every interleaving |
| Runs.RunStable | src/Tree.cpp:699-1057 | between any two moments of a run pages keep their level and `lowest`, and `highest` only shrinks |
| Runs.RunRefines | src/Tree.cpp:699-1057 | at every moment of every interleaving the leaves hold exactly the map obtained by replaying the operations in order |
| Runs.ConcurrentSearch | src/Tree.cpp:405-459 | a search whose page reads fall at any moments of a run, starting at any page that does not start after its key, such as a former root or a leaf found through the cache, and starting again from a captured root when that leaf is rejected, answers with what the map holds for its key at its last read |
| Runs.ImageRoutes | include/IndexCache.h:155-175 | an image of a level-1 page, however old, routes every key it covers to a leaf that still starts at or below the key |
| Runs.CachedDescent | src/Tree.cpp:620-623 | the check of a leaf reached through such an image accepts exactly when it is the leaf that descent from the root finds, and a rejection means that the key lies to its right |
| Runs.RangesNest | src/Tree.cpp:790-797 | of any two ranges that pages of one level ever have, the later lies within the earlier or outside it |
| Runs.RootLevel | src/Tree.cpp:126-149 | the root installed by the n-th successful swap has level n |
| Runs.NewRootAlone | src/Tree.cpp:126-149 | a new root is alone on its level and stands at an address that was never a page before |
| Runs.FormerRoot | src/Tree.cpp:102-114 | every former root keeps its level and starts at the least key for ever, and levels of roots never decrease |
| Levels.ChainCovers | src/Tree.cpp:625-629 | following siblings from a page reaches a page for every key to the right of its start |
| Levels.LevelIsPartition | src/Tree.cpp:790-797 | every level up to the root's is one sibling chain, from kKeyMin to kKeyMax without gap or overlap, that holds every page of the level |
| Levels.ParentIff | src/Tree.cpp:716-734 | a pending separator has a page to go to if and only if its level exists, and that page has room |
| Climbers.MoveOk | src/Tree.cpp:323-403 | every move of every inserting or deleting client keeps, beside the tree's invariant, that each client's page does not start after its key, that its path stack leads up to the root it captured, and that no two clients carry the same separator |
| ClimberRuns.TreeRun | src/Tree.cpp:353-403 | whatever inserting and deleting clients do, their moves on the tree are, moment by moment, a run of the step system, so that all that holds of its runs holds beside them |
| ClientOps.ClientsRefine | src/Tree.cpp:875-921 | in every interleaving the leaves hold the map that the clients' own operations make: a client that acts at the leaf of its insertion binds the key to its value, one that acts at the leaf of its deletion unbinds the key, and no other move of any client changes the map |
| ClientOps.OnceEach | src/Tree.cpp:353-403 | from its beginning to its return an insertion or deletion acts on a leaf exactly once, and with the key and value it began with |
| ClientOps.AsManyUpdates | src/Tree.cpp:542-591 | over a whole run a client acts on leaves as often as it has begun operations, but for one that is on its way |
| ClientOps.NeverStuck | src/Tree.cpp:828-991 | a client in the middle of an operation can always move on, unless it has stopped at the assertion; at a leaf it acts exactly if the leaf covers its key, and otherwise turns right, or goes back to a root if it came through the cache |
| ClientOps.SearchAmongClients | src/Tree.cpp:405-459 | a search beside any inserting and deleting clients returns what the operations performed by the moment of its last read make of its key |
| ClimberRuns.LockedLeaf | src/Tree.cpp:854-895 | in every interleaving the page locked to store or delete is a leaf that does not start after the key, has a free slot, and has a sibling if it ends before the key, as asserted |
| ClimberRuns.LockedParent | src/Tree.cpp:719-753 | in every interleaving the page locked to insert a separator has the separator's level and room, does not start after it, and has a sibling if it ends before it, as asserted |
| ClimberRuns.StopsIff | src/Tree.cpp:810-825 | in every run a client with a fresh separator stops at the assertion that there is a parent if and only if the separator is above the level of the root it captured and that root is not both the page that split and still the root (splits through the cache look for the parent from the root again) |
| ClimberRuns.StoppedForEver | src/Tree.cpp:818-825 | the separator of a stopped client never reaches a parent |
| ClimberRuns.ParentMove | src/Tree.cpp:716-764 | a client at its separator's level can always go on, by inserting the separator or by turning to a page further right |
| ClimberRuns.ClimbEnds | src/Tree.cpp:723-733 | each move of such a client takes it further right, so after fewer than kKeyMax of its moves the separator is in its parent, whatever the others do |
| ClimberRuns.SeekingMove | src/Tree.cpp:323-351 | a client that looks for the parent from the root gets closer with every page read, until it is at the parent's level |
| ClimberRuns.SeparatorStranded | src/Tree.cpp:973-988 | a run from the empty tree that ends at the assertion: a leaf that was the captured root splits after another client has split it and installed a new root |
| GrowingRuns.SplitLast | src/Tree.cpp:766-825 | from every quiet state with an ascending last leaf, the last page of any level can be brought to split |
| GrowingRuns.LevelOneSplits | src/Tree.cpp:766-825 | a run to a tree of root level 3 in which a level-1 page gives up a part of its range |
| Levels.LevelSize | src/Tree.cpp:779-793 | below a root of level L, level l has at least 2 * 31^(L-1-l) pages, in every interleaving |
| Levels.HeightBound | src/Tree.cpp:21-22 | while the pages fit in 8 machines of 8 GB every level is below kMaxLevelOfTree, so path stack indices stay inside |
| TreeState.GoodStep | src/Tree.cpp:699-1057 | a step keeps, beside invariant and contents, every cached image usable |
| TreeState.ImageLeads | src/Tree.cpp:358-373 | a cached image leads, for a key it covers, to a leaf that does not start after the key |
| TreeState.PathUp | src/Tree.cpp:980-984 | the page the path stack holds one level up is a valid start for the separator of a split below it |
| TreeState.RootAlone | src/Tree.cpp:810-816 | unless a separator waits above the root, the root is the only page of its level |
| TreeOps.Tree.constructor | src/Tree.cpp:46-61 | a new tree is valid and stands for the empty map |
| TreeOps.Tree.LockAndRead | src/Tree.cpp:300-308 | a page is only locked while the client holds no lock, so two pages sharing a lock word cannot block each other |
| TreeOps.Tree.CachePage | include/IndexCache.h:102-132 | a level-1 page read with the cache on is filed unless a live image has its interval, and one eviction follows when no page was free |
| TreeOps.Tree.LookInCache | include/IndexCache.h:134-184 | the lookup hits exactly if the cache does, counts the access and returns the leaf the image routes the key to |
| TreeOps.Tree.DropStale | include/IndexCache.h:209-225 | the entry of a rejected leaf is not live afterwards, and no other entry and no image changes |
| TreeOps.Tree.BeforeOperation | src/Tree.cpp:84-88 | the path stack is empty when an operation starts |
| TreeOps.Tree.PageSearch | src/Tree.cpp:593-663 | one page read follows the step of the search model, notes the page on the path stack within its bounds, files a level-1 page in the cache when it is on and changes nothing there otherwise, and fails exactly on a leaf from the cache that ends before the key |
| TreeOps.Tree.FindPage | src/Tree.cpp:323-351 | the descent from any captured root, stale or not, ends at a page of the wanted level that starts at or before the key, with its ancestors up to that root on the path stack and nothing above; on the way to a leaf the level-1 page over the key is filed in the cache |
| TreeOps.Tree.Search | src/Tree.cpp:405-459 | a search, through the cache or from the root, returns exactly what the map holds and changes nothing in the tree; with the cache on and a free page, a live image covers the key afterwards, and if the live images were all current, a range query of the key alone is exact |
| TreeOps.Tree.Insert | src/Tree.cpp:353-403 | an insertion is the insertion of the map, through splits on any number of levels and a new root, and leaves no separator pending and no lock held; it takes at most 8 new pages, and where fewer are left and it stops for lack of memory, the map is that before or after it; otherwise it stops only at the failing assertion, with the key stored, when the node's copy of the root is stale and a split gets above it, and the one separator then pending is for the level above that copy; the cache is left as `Consulted` says |
| TreeOps.Tree.Remove | src/Tree.cpp:542-591 | a deletion is the deletion of the map and takes no page; the cache is left as `Consulted` says |
| TreeOps.Tree.LeafPageStore | src/Tree.cpp:828-991 | for any captured root, storing in a leaf, moving right if needed, updates the map; through the cache it gives up, changing nothing, exactly when the leaf ends before the key; its assertions on range, capacity, level and sibling hold, and the last one fails only when a split gets above a captured root that is not the root |
| TreeOps.Tree.InternalPageStore | src/Tree.cpp:699-826 | for any captured root, the separator of a split climbs until it is placed, a root is installed, or it gets above a captured root that is not the root, where the assertion fails and it stays pending; the map does not change, and the other assertions on the way hold |
| TreeOps.Tree.InsertInternal | src/Tree.cpp:323-351 | the separator of a leaf split through the cache finds its parent from the root the node knows, even if that one is stale |
| TreeOps.Tree.LeafPageDel | src/Tree.cpp:993-1057 | deleting from a leaf, moving right if needed, updates the map; through the cache it gives up exactly when the leaf ends before the key |
| TreeOps.Tree.UpdateNewRoot | src/Tree.cpp:116-149 | the swap succeeds exactly if the root word still holds the old root, and then nothing is pending any more and the new root is announced; otherwise the separator still is pending; the map is the same |
| TreeOps.Tree.ReceiveNewRoot | src/Directory.cpp:72-83 | an announcement may arrive between any two operations, late, again or out of order: the tree stays valid, and the view changes by the step of the announcement model |
| TreeOps.Tree.NewRootMessage | src/Directory.cpp:72-83 | the handler makes the step of the announcement model, for which `RootPublish.NetStep` and `RootPublish.ViewsAdvance` hold: the node's level never falls, and its copy of the root changes only for a higher one |
| TreeOps.Tree.SplitRecords | src/Tree.cpp:770-797 | the page buffers after the internal split are the two halves of the split page, its split key inside the page's range as asserted |
| TreeOps.Tree.SplitSlots | src/Tree.cpp:922-959 | the page buffers after the leaf split are the two halves of the split page, its split key inside the page's range as asserted |
| TreeOps.Tree.RangeQuery | src/Tree.cpp:461-540 | with any cache the values returned are of keys in the range, and they are those of all keys of the range, each once, if and only if each of these keys is served by exactly one live entry, one that the search gets to and whose image leads to the leaf of the key; with live images that are all current, if and only if a live image covers each of these keys; until the node hears of a root of level 3 nothing is returned |
| CacheOrder.Seek | include/IndexCache.h:82-96 | the seek position is the first entry at or after the probe |
| CacheOrder.FindNarrowest | include/CacheEntry.h:28-44 | over nested or disjoint intervals, a lookup that ends at an interval covering the key ends at the narrowest one |
| CacheOrder.FindsIff | include/IndexCache.h:82-100 | the seek ends at a covering interval if and only if that interval ends first among the covering ones and no interval lies between the key and its end |
| IndexCaches.HitsIff | include/IndexCache.h:151-155 | a lookup hits if and only if that interval is live: a dead one that ends first, or one between the key and the end, makes it miss a live interval that covers the key |
| IndexCaches.RangeComplete | include/IndexCache.h:186-207 | a range search returns every live entry that overlaps the range and has no live entry inside it |
| IndexCaches.ScanSound | include/IndexCache.h:186-207 | a range search returns images of live entries only, and none twice |
| IndexCaches.HitImage | include/IndexCache.h:151-157 | a hit is on an image that covers the key and can be routed through |
| IndexCaches.LookedUpSpec | include/IndexCache.h:134-184 | a lookup changes no entry, frees at most the oldest waiting image, and adds one to the access count of the image it hits and to no other |
| IndexCaches.TakenIff | include/IndexCache.h:114-130 | a page is turned away exactly if a live image is filed under its interval |
| IndexCaches.AddedSpec | include/IndexCache.h:102-132 | with a free page, an image of the page's interval is live after filing it: the page itself unless one was before |
| IndexCaches.DropOk | include/IndexCache.h:209-225 | invalidating an entry loses no page: free, live and waiting pages add up to the capacity, and no image is both live and waiting |
| IndexCaches.FreeOldestOk | include/IndexCache.h:138-149 | freeing the oldest waiting image keeps the same account, and frees no live image |
| IndexCaches.InstallOk | include/IndexCache.h:102-132 | filing a copy keeps the order of the list and the account, and the live images are then those of before and the copy |
| IndexCaches.IndexCache.Invalidate | include/IndexCache.h:209-225 | the pointer is nulled once; a second call on the entry does nothing |
| IndexCaches.IndexCache.SearchFromCache | include/IndexCache.h:134-184 | a lookup hits exactly when its entry is live and covers the key, then raises the access count of that image by one and of no other and returns the child the image routes the key to; a leader first frees the oldest waiting image that is due |
| IndexCaches.IndexCache.EvictOne | include/IndexCache.h:248-259 | an eviction looks up two drawn entries and drops the image with fewer accesses, the second on a tie; it ends only when two draws hit, and frees no page at once |
| IndexCaches.IndexCache.AddToCache | include/IndexCache.h:102-132 | a page is filed unless a live image has its interval; when no page was free one eviction follows; live images never exceed the capacity as long as evictions end |
| IndexCaches.IndexCache.SearchRange | include/IndexCache.h:186-207 | the iteration returns the images of the live entries from the seek position to the first one that starts after the range |
| CacheHistory.CacheRunInv | include/IndexCache.h:59-259 | after any sequence of installations of pages of any age, invalidations, evictions, frees and lookups, free, live and waiting pages add up to the capacity, and every cached interval was the range of a level-1 page |
| CacheHistory.HistoricLaminar | include/IndexCache.h:69-80 | the cached intervals are always nested or disjoint |
| CacheHistory.LookupNarrowest | include/IndexCache.h:82-100 | beside any run of the tree, a lookup that ends at an interval covering the key ends at the narrowest cached one |
| CacheHistory.LookupHitsIff | include/IndexCache.h:151-155 | beside any run of the tree, a lookup hits if and only if the narrowest cached interval covering the key, dead ones included, is live and no cached interval lies between the key and its end |
| CacheHistory.ShadowedMiss | include/IndexCache.h:134-184 | whenever a level-1 page takes over the right part of another one's former range and both are cached, every key of the left part is missed |
| CacheHistory.DeadMiss | include/IndexCache.h:134-184 | whenever the image of a level-1 page's narrower range is invalidated, every key of that range is missed, although an older image covers it |
| CacheHistory.LookupCanMiss | include/IndexCache.h:134-184 | both happen: a run of a tree of root level 3 and of caches beside it that end in such misses |
| CacheHistory.RangeSearchComplete | include/IndexCache.h:186-207 | beside any run of the tree, if every current level-1 page has a live image, a range search returns all of those overlapping the range, whatever stale images are live too |
| CacheHistory.DroppedOnce | include/IndexCache.h:209-225 | an installed image enters the list of pages to free at most once |
| CacheHistory.FreedInOrder | include/IndexCache.h:134-149 | images are freed in the order in which they were invalidated: those that wait are always the last ones |
| CacheHistory.FreqIsUses | include/IndexCache.h:134-184 | after any sequence of cache operations the access count of an image is the number of lookups that have hit it since it was installed |
| CacheHistory.EvictsLessUsed | include/IndexCache.h:248-259 | an eviction makes one entry dead: of the two drawn, the one whose image fewer lookups have hit, the second on a tie |
| CacheUse.ChildCovers | src/Tree.cpp:640-663 | while no separator is on its way, the child that a page routes a key to covers the key, so a descent turns right at most on the level of a stale root |
| CacheUse.OperationCaches | src/Tree.cpp:640-646 | with the cache on and a free page, a live image covers the key of an operation once the operation has been through the cache |
| CacheUse.StaleIsDropped | src/Tree.cpp:362-372 | an image that led an operation to a leaf not covering its key is live no more afterwards |
| CacheUse.ReturnedAfter | src/Tree.cpp:461-540 | if all live images are current, they still are after such an operation, and a range query of its key alone is exact |
| CacheUse.ReturnedOnce | src/Tree.cpp:461-540 | a range query of the key alone is exact after an operation on a key that no live image covered, whatever stale images are live, as long as none cuts a current page |
| RangeQueries.CollectPage | src/Tree.cpp:474-497 | the three cases of the collecting loop pick exactly the children whose closed range meets the query |
| RangeQueries.LeavesNeeded | src/Tree.cpp:474-497 | a child is read if and only if some key of the query lies between the ends of its range, both included |
| RangeQueries.FilterPage | src/Tree.cpp:508-516 | the filter keeps the values of live slots with a key in the range, in slot order |
| RangeQueries.ReadLeaves | src/Tree.cpp:499-537 | reading in batches of 32 into a reused buffer gives the same values, in the same order, as one leaf at a time |
| TreeState.ChildEnds | src/Tree.cpp:480-496 | a leaf never extends past the range its parent reserves for it |
| RangeQueries.ScanExactIff | src/Tree.cpp:461-540 | whatever leaves are read, the scan returns each binding of the map in the range exactly once if and only if for every bound key of the range exactly one read is of the leaf that covers it |
| RangeQueries.LeavesExactIff | src/Tree.cpp:470-537 | for leaves collected from images of any age, that is the case if and only if for every bound key of the range exactly one image leads to the leaf that covers it |
| RangeQueries.LeadsIff | src/Tree.cpp:470-497 | an image of any age leads to the leaf of a key if and only if it covers the key and the leaf it routes the key to has not split past the key |
| RangeQueries.FoundIff | include/IndexCache.h:186-207 | a live entry that overlaps the range is returned by the range search if and only if no live entry that starts after the range ends by its end |
| RangeQueries.FoundLive | include/IndexCache.h:186-207 | a range search returns every current level-1 page that has a live image and overlaps the range |
| RangeQueries.RangeExact | src/Tree.cpp:461-540 | the same through the cache, when the live images are current and include all level-1 pages |
| RangeQueries.QuerySound | src/Tree.cpp:461-540 | whatever is cached, only bindings of the map in the range are returned |
| RangeQueries.QueryExactIff | src/Tree.cpp:461-540 | with any cache, its live images of any age, the query is exact if and only if every bound key of the range is served by exactly one live entry: the range search gets to the entry, and its image leads to the leaf of the key |
| RangeQueries.QueryOccurs | src/Tree.cpp:461-540 | a bound key of the range is returned exactly as often as there are images found that lead to its leaf |
| RangeQueries.CurrentExactIff | src/Tree.cpp:461-540 | with live images that are all current, however few, that is the case if and only if some live image leads to the leaf of every bound key of the range |
| RangeQueries.UnderLiveIff | src/Tree.cpp:470-497 | with current images and no leaf split half done, a live image leads to the leaf of a key if and only if a live image covers the key |
| QueryHistory.CacheRunImages | src/Tree.cpp:470-497 | beside any run of the tree and after any cache operations, every live image was a level-1 page and its children still start and end where it says they do, or before |
| QueryHistory.RunQueryIff | src/Tree.cpp:461-540 | beside any run of the tree and after any cache operations, a range query returns the bindings of the moment in the range, each once, if and only if every bound key of the range is served by exactly one live entry |
| QueryHistory.RunQueryOccurs | src/Tree.cpp:461-540 | beside any run, a bound key of the range is returned exactly as often as there are images found that lead to its leaf |
| QueryHistory.FoundAfter | src/Tree.cpp:461-540 | beside any run and any cache history, once an operation on a key that no live image covered has been through the cache, a range query of that key is exact |
| QueryHistory.StaleForEver | src/Tree.cpp:470-497 | an image that does not lead to the leaf of a key it covers never does again |
| QueryHistory.StaleMiss | src/Tree.cpp:461-540 | whenever the leaf that a cached level-1 page led to has split since, no range query returns any bound key right of the split, although a live image covers it and a lookup of it hits |
| QueryHistory.DuplicateRead | src/Tree.cpp:461-540 | whenever two images of a level-1 page, from before and after it gave up a part of its range, lead to the leaf of a bound key, every range query that includes the key returns it twice |
| QueryHistory.QueryCanFail | src/Tree.cpp:461-540 | both happen: runs of a tree of root level 3 and of caches beside it that end in such queries |
| HierLock.StepInv | src/Tree.cpp:205-308 | every step of a client and every delivery of a posted operation keeps the lock invariant |
| HierLock.MutualExclusion | src/Tree.cpp:205-242 | in every run, with any nodes, threads, coroutines and writes in flight, at most one client owns a lock word |
| HierLock.FreshRead | src/Tree.cpp:266-308 | the page read after locking holds what was posted last for it by any earlier holder, through hand-over and through the batched write and unlock |
| HierLock.UpdateChain | src/Tree.cpp:266-308 | what a client posts for a page it has read under the lock follows, among all contents ever posted for the page, directly on the content it has read |
| HierLock.FirstUpdate | src/Tree.cpp:266-308 | there are runs with such an update: a first client takes the lock, reads a page and posts new content |
| HierLock.SerialUpdates | src/Tree.cpp:266-308 | so page updates are atomic: when every client computes what it posts from what it has read under the lock, the contents posted, and memory once no write is in flight, are those of the same updates made one at a time |
| HierLock.TokenConservation | src/Tree.cpp:229-264 | while the remote word is not zero exactly one of these accounts for it: a holder, a hand-over with a client whose turn it is, one zero write in flight; while it is zero none does |
| HierLock.InTurn | src/Tree.cpp:1125-1147 | on each node clients go in ticket order: who has a later ticket still waits |
| HierLock.HandOverBound | src/Tree.cpp:1149-1167 | hand_time is at most 8, and one acquisition of the remote word serves at most 8 critical sections |
| HierLock.HandsOverIff | src/Tree.cpp:1149-1167 | a client leaves its critical section with a hand-over if and only if another client of its node holds a later ticket and fewer than 8 critical sections have been entered since the remote word was taken; otherwise it gives the word up |
| HierLock.StreakCounts | src/Tree.cpp:1143-1167 | that number is the count of moments at which a client came to own the word since it was last zero |
| HierLock.FirstHandOver | src/Tree.cpp:1134-1167 | there are runs in which a second client of a node enters its critical section by a hand-over, without a compare-and-swap |
| HierLock.LateUnlock | src/Tree.cpp:244-308 | there are runs in which the local lock has been passed on while the write and the zero of the unlock are still on their way, and the next client contends for the remote word |
| HierLock.PassesAtOnceIff | src/Tree.cpp:244-264 | a client can pass the local lock on right after posting its unlock if and only if it does not wait for the completion |
| HierLock.NeverStuck | src/Tree.cpp:205-264 | in every run, while a client of a node has a ticket, the client of the node whose turn it is can make a step, or an operation its thread has posted can be carried out |
| HierLock.TicketCarry | src/Tree.cpp:1125-1132 | taking a ticket leaves the turn alone if and only if the low half of the word does not overflow |
| HierLock.TurnCarry | src/Tree.cpp:1169-1173 | passing the turn on adds one to the high half only |
| LocalLocks.LocalLockNode.TakeTicket | src/Tree.cpp:1125-1132 | the packed 64-bit word gives out the next ticket of the lock model |
| LocalLocks.LocalLockNode.CanHandOver | src/Tree.cpp:1149-1167 | the decision on the packed word is that of the lock model: to hand over exactly if a later ticket is out and hand_time is below 8 |
| LocalLocks.LocalLockNode.Release | src/Tree.cpp:1169-1173 | the packed word moves on to the next turn of the lock model |
| Allocators.StepInv | include/DSM.h:198-224 | every grant of a chunk and every carving keeps chunks owned by one thread and ranges inside what their thread has used |
| Allocators.RangesDisjoint | include/DSM.h:198-224 | in every run of any threads and directories the ranges returned are pairwise disjoint |
| Allocators.RangesSafe | src/Directory.cpp:15-21 | every range lies inside its region, is not null, and never reaches into the first chunk, where the root pointers are |
| Allocators.GlobalAllocator.AllocChunk | include/GlobalAllocator.h:31-50 | the call makes the step of the allocation system that grants a chunk, and fails exactly when that step is not possible, the region being used up; the branch for a taken tail is never reached |
| Allocators.GrantedOnce | include/GlobalAllocator.h:31-54 | no chunk is granted twice in any run |
| Allocators.GrantIff | include/GlobalAllocator.h:31-50 | a directory refuses a chunk if and only if it has granted all chunks of its region but the first, one after the other |
| Allocators.CarveIff | include/LocalAllocator.h:21-38 | a thread asks for no chunk if and only if the range fits into what the ranges given out of its chunk so far leave of it |
| Allocators.GlobalAllocator.FreeChunk | include/GlobalAllocator.h:52-54 | freeing a chunk leaves the allocator in the same state of the allocation system, so it changes no later grant |
| Allocators.DsmThread.Malloc | include/LocalAllocator.h:21-38 | the call makes the step of the allocation system that carves a range and returns that range's address; it asks for a chunk exactly when that step is not possible |
| Allocators.DsmThread.Alloc | include/DSM.h:198-224 | an allocation makes one or two steps of the allocation system and returns the address of the range carved; it fails exactly when the asked directory's region is used up; a size above a chunk reserves nothing; requests go round over all directories of all machines |
| Supplies.RunSupplies | include/DSM.h:198-224 | the pages allocated in any run on 8 machines of 8 GB are distinct, not null, and few enough for the height bound |
| RootPublish.NetStep | src/Directory.cpp:72-83 | under loss, duplication and reordering of announcements, every node knows no root or the root of the level it says |
| RootPublish.ViewsAreRoots | src/Tree.cpp:102-114 | so every search starts at a past or present root from which its key can be reached, and a node caches only once the tree has reached level 3 |
| RootPublish.ViewsAdvance | src/Directory.cpp:72-83 | a node's root level never decreases, and no address becomes the root twice |
| RootPublish.AllAnnounced | src/Tree.cpp:116-149 | every root but the first one has been announced |
| RootPublish.KnowsHighest | src/Directory.cpp:72-83 | a node knows the root of the highest level that has been announced to it, in whatever order the announcements came |
| Rings.PostedSlot | src/AbstractMessageConnection.cpp:32-54 | the n-th receive posted, over the first posting and all later batches, is for slot n modulo the ring |
| Rings.MessageConnection.InitRecv | src/AbstractMessageConnection.cpp:23-55 | the nested loops post every slot once, in slot order |
| Rings.MessageConnection.GetMessage | src/AbstractMessageConnection.cpp:57-73 | the n-th call returns the slot of the n-th receive posted, where the n-th message lands, and posts the batch it completes again |
| Rings.UnreadSafe | src/AbstractMessageConnection.cpp:57-73 | no message that has arrived and waits to be read is overwritten by a later one |
| Rings.JustReadSafeIff | src/AbstractMessageConnection.cpp:63-70 | the message handed out last is safe from later arrivals if and only if it is not the last of its batch |
| Rings.SlotIsFree | src/RawMessageConnection.cpp:11-23 | at most 63 sends are unfinished at any time, and the next send's buffer belongs to none of them |
| Rings.SendRingIff | src/RawMessageConnection.cpp:14-17 | a send buffer is never refilled before its earlier send is done if and only if the ring has at least 64 slots; the code uses 96 and 128 |
| Rings.MessageConnection.GetSendPool | src/AbstractMessageConnection.cpp:75-81 | the buffer handed out is not in use by an unfinished send |
| Rings.MessageConnection.SendRawMessage | src/RawMessageConnection.cpp:11-23 | every 32 sends one completion is taken before the next send is posted, and the account of unfinished sends is kept |
| CoroMaster.StepInv | src/Tree.cpp:1102-1122 | every step of a worker, the master or the network card keeps pending wake-ups and waiting workers in one-to-one correspondence |
| CoroMaster.OneWakeUpEach | src/Tree.cpp:1102-1122 | whenever the master runs after start-up, every worker has exactly one pending wake-up, of the kind it waits for |
| CoroMaster.RightWakeUp | src/DSM.cpp:111-124 | the worker resumed exists and waits for the very operation, or queue turn, that resumed it |
| CoroMaster.QueuesBounded | src/Tree.cpp:1134-1142 | operations in flight, completions and queued workers together never exceed the number of workers |
| CoroMaster.ResumedInTurn | src/Tree.cpp:1116-1120 | both queues are first in, first out: a worker behind p others in a queue is resumed when it is taken from for the (p + 1)-th time |
| CoroMaster.LooksAlternate | src/Tree.cpp:1107-1121 | between two looks at the completion queue the master looks at the hot-wait queue, and the other way round |
| CoroMaster.TakenBetween | src/Tree.cpp:1107-1121 | between two completions taken a worker is popped from the hot-wait queue if it holds any after the first, and the other way round |
| CoroMaster.ResumedSoon | src/Tree.cpp:1107-1121 | nobody starves: a worker at position p of one queue is resumed before more than p + 1 further ones are taken from the other |

## Left out

- RDMA set-up, memory registration, huge pages, the memcached keeper and node numbering: foreign calls.
- Torn reads and the version fields meant to detect them: page and entry reads are atomic here; the repository itself records that the two-level versions fail in some interleavings (README.md, known bugs).
- The CRC and embedded-lock build options, both switched off, and the write-only field last_index of leaves.
- The inside of the skip list, which is third-party code: it is an ordered sequence with insertion and seek.
- The age of 30000 cycles after which a waiting image is freed: when an image may be freed is a parameter, so nothing is said about readers that still hold it.
- Races inside one cache operation, such as two threads reviving one entry: `CacheHistory` interleaves whole operations.
- CityHash64: the lock model proves its properties for any lock word and any pages behind it.
- The retry limit of the remote lock: a client here retries without bound, so the case of a million failures is not modelled.
- Runs, ClimberRuns and RootPublish take a step when a page write takes effect; that a client's call may return before a posted split write arrives, and so linearizability of whole calls across such writes, is not stated.
- TreeOps.Tree models one client while no other one changes the tree; other clients are the subject of `Climbers`, `ClimberRuns` and `Runs`.
- TreeOps.Tree.PageSearch: the re-read loop and the sleeps for inconsistent pages, which atomic reads never take.
- IndexCaches.IndexCache.AddToCache: an eviction that never draws two live entries loops for ever in the code; here it gives up when the draws end and says so.
- TreeOps.Tree.SortSlots: std::sort is a library call, modelled by what it must do; equal keys do not occur.
- RangeQueries.ReadLeaves: leaves are read from one state, so updates during a range query are not modelled.
- CoroMaster is a step system rather than a loop with queues, because the loop never ends; what the workers do between two suspensions is left to the other models.
- WRLock, timers, statistics, benchmarks, the Zipf generator and print_and_check_tree: unrelated to the properties above.
