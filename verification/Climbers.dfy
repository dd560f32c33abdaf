/**
  Inserting and deleting clients side by side with all they remember: the root each one captured, its
  path stack, and the page it is at (src/Tree.cpp:323-403, 542-591, 699-1057). A client moves by one page
  read, one locked page update or one swap of the root word at a time.
*/
module Climbers {
  import opened Layout
  import opened LeafPages
  import opened InternalPages
  import opened BLink
  import opened Steps

  datatype Op = Upsert(k: Key, v: Value) | Erase(k: Key)

  /** The path stack: the page noted for each level; levels not noted hold the null address. */
  type Path = map<nat, GlobalAddress>

  /**
    Where a client is. `root` is the root it captured. `Separated` has split a page, and its separator `x`
    is on its way up; `Stopped` has run into the assertion that there is a parent.
  */
  datatype Client =
    | Idle
    | Descending(op: Op, root: GlobalAddress, at: GlobalAddress, path: Path)
    | AtLeaf(op: Op, root: GlobalAddress, at: GlobalAddress, path: Path, fromCache: bool)
    | Separated(x: Separator, root: GlobalAddress, path: Path, fromCache: bool)
    | Seeking(x: Separator, root: GlobalAddress, at: GlobalAddress, path: Path)
    | AtParent(x: Separator, root: GlobalAddress, at: GlobalAddress, path: Path)
    | Stopped(x: Separator)

  /** `roots` are the roots so far; a node's copy of the root, however stale, is one of them. */
  datatype World = World(tree: State, roots: set<GlobalAddress>, clients: map<nat, Client>)

  datatype Move =
    | Begin(c: nat, op: Op, root: GlobalAddress)
    | BeginCached(c: nat, op: Op, root: GlobalAddress, leaf: GlobalAddress)
    | Read(c: nat)
    | Turn(c: nat)
    | Reject(c: nat, root: GlobalAddress)
    | Act(c: nat, newAddr: GlobalAddress)
    | Raise(c: nat, newAddr: GlobalAddress, root: GlobalAddress)

  const CACHE_LEVEL: nat := 3

  function ClientOf(w: World, c: nat): Client {
    if c in w.clients then w.clients[c] else Idle
  }

  function Put(w: World, c: nat, cl: Client): World {
    w.(clients := w.clients[c := cl])
  }

  predicate Captured(w: World, root: GlobalAddress) {
    root in w.roots && root in w.tree.pages
  }

  predicate CapturedHigh(w: World, root: GlobalAddress) {
    Captured(w, root) && CACHE_LEVEL <= w.tree.pages[root].level
  }

  predicate OpOk(op: Op) {
    op.k < KEY_MAX && (op.Upsert? ==> op.v != VALUE_NULL)
  }

  /** A key the client looks for at its page. */
  function Target(cl: Client): Key
    requires !cl.Idle?
  {
    if cl.Descending? || cl.AtLeaf? then cl.op.k else cl.x.key
  }

  predicate OnPage(w: World, cl: Client) {
    (cl.Descending? || cl.AtLeaf? || cl.Seeking? || cl.AtParent?) && cl.at in w.tree.pages
  }

  /** The page update made by a client that has locked the page covering its key. */
  function Update(w: World, cl: Client, newAddr: GlobalAddress): Event
    requires OnPage(w, cl) && (cl.AtLeaf? || cl.AtParent?)
    requires if cl.AtLeaf? then w.tree.pages[cl.at].LeafPage? else w.tree.pages[cl.at].InternalPage?
  {
    var p := w.tree.pages[cl.at];
    match cl
    case AtLeaf(Upsert(k, v), _, at, _, _) =>
      if Full(LeafPages.Put(p.entries, k, v)) then StoreSplit(at, k, v, newAddr) else Store(at, k, v)
    case AtLeaf(Erase(k), _, at, _, _) => Clear(at, k)
    case AtParent(x, _, at, _) =>
      if |InsertRecord(p.records, x.key, x.child)| == INTERNAL_CARDINALITY then InsertSplit(at, x, newAddr) else Insert(at, x)
  }

  /** The separator a split sends up. */
  function Raised(s: State, e: Event): Separator
    requires Enabled(s, e) && (e.StoreSplit? || e.InsertSplit?)
  {
    if e.StoreSplit? then SplitSeparator(StoreIn(s, e.a, e.k, e.v), e.a, e.newAddr)
    else SplitSeparator(InsertIn(s, e.a, e.x), e.a, e.newAddr)
  }

  /** The captured root is the page that split and still the root, so the swap of the root word succeeds. */
  predicate Swaps(w: World, cl: Client)
    requires cl.Separated?
  {
    cl.x.left == cl.root == w.tree.root
  }

  predicate Can(w: World, m: Move) {
    var cl := ClientOf(w, m.c);
    match m
    case Begin(_, op, root) => cl.Idle? && OpOk(op) && Captured(w, root)
    case BeginCached(_, op, root, leaf) =>
      && cl.Idle? && OpOk(op) && CapturedHigh(w, root)
      && At(w.tree, leaf, op.k) && w.tree.pages[leaf].LeafPage?
    case Read(_) => (cl.Descending? || cl.Seeking?) && OnPage(w, cl)
    case Turn(_) =>
      && (cl.AtLeaf? || cl.AtParent?) && OnPage(w, cl) && w.tree.pages[cl.at].highest <= Target(cl)
      && !(cl.AtLeaf? && cl.fromCache)
    case Reject(_, root) =>
      && cl.AtLeaf? && cl.fromCache && OnPage(w, cl) && w.tree.pages[cl.at].highest <= Target(cl) && Captured(w, root)
    case Act(_, n) =>
      && (cl.AtLeaf? || cl.AtParent?) && OnPage(w, cl) && Target(cl) < w.tree.pages[cl.at].highest
      && (if cl.AtLeaf? then w.tree.pages[cl.at].LeafPage? else w.tree.pages[cl.at].InternalPage?)
      && Enabled(w.tree, Update(w, cl, n))
    case Raise(_, n, root) =>
      && cl.Separated?
      && (Swaps(w, cl) ==> Enabled(w.tree, Grow(cl.x, n)))
      && (cl.fromCache ==> CapturedHigh(w, root))
  }

  /** The same client at another page. */
  function MovedTo(cl: Client, at: GlobalAddress, path: Path): Client {
    match cl
    case Descending(op, root, _, _) => Descending(op, root, at, path)
    case AtLeaf(op, root, _, _, fromCache) => AtLeaf(op, root, at, path, fromCache)
    case Seeking(x, root, _, _) => Seeking(x, root, at, path)
    case AtParent(x, root, _, _) => AtParent(x, root, at, path)
    case _ => cl
  }

  /** page_search notes the page and goes right or down; the descent stops above the leaf or the parent. */
  function AfterRead(w: World, cl: Client): Client
    requires (cl.Descending? || cl.Seeking?) && OnPage(w, cl)
  {
    var p := w.tree.pages[cl.at];
    var path := cl.path[p.level := cl.at];
    if p.LeafPage? then
      match cl
      case Descending(op, root, at, _) => AtLeaf(op, root, at, path, false)
      case Seeking(x, _, _, _) => Stopped(x)
    else if p.highest <= Target(cl) then MovedTo(cl, p.sibling, path)
    else
      var next := Route(p, Target(cl));
      match cl
      case Descending(op, root, _, _) => if p.level == 1 then AtLeaf(op, root, next, path, false) else MovedTo(cl, next, path)
      case Seeking(x, root, _, _) => if p.level == x.level + 1 then AtParent(x, root, next, path) else MovedTo(cl, next, path)
  }

  function AfterUpdate(s: State, e: Event, cl: Client): Client
    requires Enabled(s, e) && (cl.AtLeaf? || cl.AtParent?)
  {
    if e.StoreSplit? || e.InsertSplit? then Separated(Raised(s, e), cl.root, cl.path, cl.AtLeaf? && cl.fromCache) else Idle
  }

  function Do(w: World, m: Move): World
    requires Can(w, m)
  {
    var cl := ClientOf(w, m.c);
    match m
    case Begin(c, op, root) => Put(w, c, Descending(op, root, root, map[]))
    case BeginCached(c, op, root, leaf) => Put(w, c, AtLeaf(op, root, leaf, map[], true))
    case Read(c) => Put(w, c, AfterRead(w, cl))
    case Turn(c) => Put(w, c, MovedTo(cl, w.tree.pages[cl.at].sibling, cl.path))
    case Reject(c, root) => Put(w, c, Descending(cl.op, root, root, cl.path))
    case Act(c, n) =>
      var e := Update(w, cl, n);
      World(Next(w.tree, e), w.roots, w.clients[c := AfterUpdate(w.tree, e, cl)])
    case Raise(c, n, root) =>
      if Swaps(w, cl) then World(Next(w.tree, Grow(cl.x, n)), w.roots + {n}, w.clients[c := Idle])
      else if cl.x.level in cl.path then Put(w, c, AtParent(cl.x, cl.root, cl.path[cl.x.level], cl.path))
      else if cl.fromCache then Put(w, c, Seeking(cl.x, root, root, cl.path))
      else Put(w, c, Stopped(cl.x))
  }

  // ---------------------------------------------------------------- invariant

  /** The path leads up: a page for each level above `level` to `top`, each starting at or before the one below and `lo`. */
  ghost predicate Leads(pages: map<GlobalAddress, Page>, path: Path, level: nat, top: nat, lo: Key) {
    && (forall j :: level < j <= top ==> j in path && path[j] in pages && pages[path[j]].level == j && pages[path[j]].lowest <= lo)
    && (forall i, j :: level < i < j <= top ==> pages[path[j]].lowest <= pages[path[i]].lowest)
  }

  /** Nothing is noted above the level of the captured root. */
  ghost predicate Topped(path: Path, top: nat) {
    forall j :: j in path ==> j <= top
  }

  ghost predicate RootKnown(w: World, root: GlobalAddress) {
    Captured(w, root) && w.tree.pages[root].lowest == KEY_MIN
  }

  function Level(w: World, a: GlobalAddress): nat {
    if a in w.tree.pages then w.tree.pages[a].level else 0
  }

  ghost predicate DescendingOk(w: World, cl: Client)
    requires cl.Descending?
  {
    && OpOk(cl.op) && RootKnown(w, cl.root) && At(w.tree, cl.at, cl.op.k) && Level(w, cl.at) <= Level(w, cl.root)
    && Leads(w.tree.pages, cl.path, Level(w, cl.at), Level(w, cl.root), w.tree.pages[cl.at].lowest) && Topped(cl.path, Level(w, cl.root))
  }

  ghost predicate AtLeafOk(w: World, cl: Client)
    requires cl.AtLeaf?
  {
    && OpOk(cl.op) && RootKnown(w, cl.root) && At(w.tree, cl.at, cl.op.k) && Level(w, cl.at) == 0
    && (if cl.fromCache then cl.path == map[] && CACHE_LEVEL <= Level(w, cl.root)
        else Leads(w.tree.pages, cl.path, 0, Level(w, cl.root), w.tree.pages[cl.at].lowest) && Topped(cl.path, Level(w, cl.root)))
  }

  ghost predicate SeparatedOk(w: World, cl: Client)
    requires cl.Separated?
  {
    && RootKnown(w, cl.root) && cl.x.key < KEY_MAX && 1 <= cl.x.level <= Level(w, cl.root) + 1
    && (if cl.fromCache then cl.path == map[] && CACHE_LEVEL <= Level(w, cl.root) && cl.x.level == 1
        else Leads(w.tree.pages, cl.path, cl.x.level - 1, Level(w, cl.root), cl.x.key) && Topped(cl.path, Level(w, cl.root)))
  }

  ghost predicate SeekingOk(w: World, cl: Client)
    requires cl.Seeking?
  {
    && RootKnown(w, cl.root) && cl.x.key < KEY_MAX && At(w.tree, cl.at, cl.x.key) && 1 <= cl.x.level < Level(w, cl.at) <= Level(w, cl.root)
    && Leads(w.tree.pages, cl.path, Level(w, cl.at), Level(w, cl.root), w.tree.pages[cl.at].lowest) && Topped(cl.path, Level(w, cl.root))
  }

  ghost predicate AtParentOk(w: World, cl: Client)
    requires cl.AtParent?
  {
    && RootKnown(w, cl.root) && cl.x.key < KEY_MAX && At(w.tree, cl.at, cl.x.key) && Level(w, cl.at) == cl.x.level <= Level(w, cl.root)
    && Leads(w.tree.pages, cl.path, cl.x.level, Level(w, cl.root), w.tree.pages[cl.at].lowest) && Topped(cl.path, Level(w, cl.root))
  }

  ghost predicate ClientOk(w: World, cl: Client) {
    match cl
    case Idle => true
    case Descending(_, _, _, _) => DescendingOk(w, cl)
    case AtLeaf(_, _, _, _, _) => AtLeafOk(w, cl)
    case Separated(_, _, _, _) => SeparatedOk(w, cl)
    case Seeking(_, _, _, _) => SeekingOk(w, cl)
    case AtParent(_, _, _, _) => AtParentOk(w, cl)
    case Stopped(_) => true
  }

  /** The client has a separator to get into its parent. */
  predicate Carries(cl: Client) {
    cl.Separated? || cl.Seeking? || cl.AtParent? || cl.Stopped?
  }

  ghost predicate Roots(w: World) {
    w.tree.root in w.roots && forall r :: r in w.roots ==> RootKnown(w, r)
  }

  /** What clients carry is on its way up, and no two carry the same. */
  ghost predicate Carriers(w: World) {
    && (forall c :: Carries(ClientOf(w, c)) ==> ClientOf(w, c).x in w.tree.pending)
    && (forall c, d :: c != d && Carries(ClientOf(w, c)) && Carries(ClientOf(w, d)) ==> ClientOf(w, c).x != ClientOf(w, d).x)
  }

  ghost predicate Clients(w: World) {
    forall c :: ClientOk(w, ClientOf(w, c))
  }

  ghost predicate WorldOk(w: World) {
    Inv(w.tree) && Roots(w) && Carriers(w) && Clients(w)
  }

  // ---------------------------------------------------------------- what other clients do changes nothing for a client

  /** The tree goes on; pages stay where clients remember them. */
  ghost predicate GoesOn(w: World, u: World) {
    Inv(u.tree) && Stable(w.tree, u.tree) && w.roots <= u.roots
  }

  lemma LeadsKept(w: World, u: World, path: Path, level: nat, top: nat, lo: Key)
    requires Stable(w.tree, u.tree) && Leads(w.tree.pages, path, level, top, lo)
    ensures Leads(u.tree.pages, path, level, top, lo)
  {
  }

  lemma ClientKept(w: World, u: World, cl: Client)
    requires GoesOn(w, u) && ClientOk(w, cl)
    ensures ClientOk(u, cl)
  {
    hide Inv, Leads, Topped;
    match cl
    case Descending(_, root, at, path) => LeadsKept(w, u, path, Level(w, at), Level(w, root), w.tree.pages[at].lowest);
    case AtLeaf(_, root, at, path, fromCache) =>
      if !fromCache {
        LeadsKept(w, u, path, 0, Level(w, root), w.tree.pages[at].lowest);
      }
    case Separated(x, root, path, fromCache) =>
      if !fromCache {
        LeadsKept(w, u, path, x.level - 1, Level(w, root), x.key);
      }
    case Seeking(_, root, at, path) => LeadsKept(w, u, path, Level(w, at), Level(w, root), w.tree.pages[at].lowest);
    case AtParent(x, root, at, path) => LeadsKept(w, u, path, x.level, Level(w, root), w.tree.pages[at].lowest);
    case _ =>
  }

  /** Only client `c` has moved. */
  ghost predicate OnlyMoved(w: World, u: World, c: nat) {
    forall d :: d != c ==> ClientOf(u, d) == ClientOf(w, d)
  }

  lemma ClientsKept(w: World, u: World, c: nat)
    requires Clients(w) && GoesOn(w, u) && OnlyMoved(w, u, c) && ClientOk(u, ClientOf(u, c))
    ensures Clients(u)
  {
    hide ClientOk, GoesOn;
    forall d ensures ClientOk(u, ClientOf(u, d)) {
      if d != c {
        ClientKept(w, u, ClientOf(w, d));
      }
    }
  }

  lemma RootsKept(w: World, u: World)
    requires Roots(w) && GoesOn(w, u) && u.tree.root in u.roots
    requires forall r :: r in u.roots && r !in w.roots ==> RootKnown(u, r)
    ensures Roots(u)
  {
  }

  // ---------------------------------------------------------------- moves that leave the tree alone

  lemma Same(w: World)
    ensures Stable(w.tree, w.tree)
  {
  }

  lemma NoteMoves(w: World, cl: Client)
    requires Inv(w.tree) && (cl.Descending? || cl.Seeking?) && ClientOk(w, cl)
    ensures OnPage(w, cl) && ClientOk(w, AfterRead(w, cl)) && !AfterRead(w, cl).Stopped?
    ensures Carries(AfterRead(w, cl)) == Carries(cl) && (Carries(cl) ==> AfterRead(w, cl).x == cl.x)
  {
    hide Inv, Leads, Topped;
    var p, k := w.tree.pages[cl.at], Target(cl);
    var top, level := Level(w, cl.root), p.level;
    var path := cl.path[level := cl.at];
    KeyBelow(w, cl);
    PageKind(w, cl.at);
    LeadsNoted(w.tree.pages, cl.path, cl.at, top);
    ToppedNoted(cl.path, cl.at, level, top);
    if p.LeafPage? {
    } else if p.highest <= k {
      TurnRightIn(w, cl.at, k);
      LeadsFurther(w.tree.pages, path, level, top, p.lowest, w.tree.pages[p.sibling].lowest);
    } else {
      RouteDownIn(w, cl.at, k);
      LeadsFurther(w.tree.pages, path, level - 1, top, p.lowest, w.tree.pages[Route(p, k)].lowest);
    }
  }

  lemma KeyBelow(w: World, cl: Client)
    requires (cl.Descending? || cl.Seeking?) && ClientOk(w, cl)
    ensures Target(cl) < KEY_MAX
  {
  }

  lemma PageKind(w: World, a: GlobalAddress)
    requires Inv(w.tree) && a in w.tree.pages
    ensures w.tree.pages[a].LeafPage? <==> Level(w, a) == 0
    ensures w.tree.pages[a].InternalPage? <==> 1 <= Level(w, a)
  {
    assert PageOk(w.tree.pages[a]);
  }

  lemma LeadsNoted(pages: map<GlobalAddress, Page>, path: Path, a: GlobalAddress, top: nat)
    requires a in pages && pages[a].level <= top && Leads(pages, path, pages[a].level, top, pages[a].lowest)
    ensures Leads(pages, path[pages[a].level := a], pages[a].level, top, pages[a].lowest)
    ensures 0 < pages[a].level ==> Leads(pages, path[pages[a].level := a], pages[a].level - 1, top, pages[a].lowest)
  {
  }

  lemma ToppedNoted(path: Path, a: GlobalAddress, level: nat, top: nat)
    requires Topped(path, top) && level <= top
    ensures Topped(path[level := a], top)
  {
  }

  lemma LeadsFurther(pages: map<GlobalAddress, Page>, path: Path, level: nat, top: nat, lo: Key, lo': Key)
    requires Leads(pages, path, level, top, lo) && lo <= lo'
    ensures Leads(pages, path, level, top, lo')
  {
  }

  lemma TurnRightIn(w: World, a: GlobalAddress, k: Key)
    requires Inv(w.tree) && At(w.tree, a, k) && w.tree.pages[a].highest <= k < KEY_MAX
    ensures var c := w.tree.pages[a].sibling;
            c != NULL && At(w.tree, c, k) && Level(w, c) == Level(w, a) && w.tree.pages[a].lowest < w.tree.pages[c].lowest
  {
    TurnRight(w.tree, a, k);
  }

  lemma RouteDownIn(w: World, a: GlobalAddress, k: Key)
    requires Inv(w.tree) && At(w.tree, a, k) && w.tree.pages[a].InternalPage? && k < w.tree.pages[a].highest
    ensures var c := Route(w.tree.pages[a], k);
            At(w.tree, c, k) && Level(w, c) + 1 == Level(w, a) && w.tree.pages[a].lowest <= w.tree.pages[c].lowest
  {
    RouteDown(w.tree, a, k);
    assert PageOk(w.tree.pages[a]);
  }

  predicate StillMove(m: Move) {
    m.Begin? || m.BeginCached? || m.Read? || m.Turn? || m.Reject?
  }

  lemma StillClient(w: World, m: Move)
    requires Inv(w.tree) && Roots(w) && ClientOk(w, ClientOf(w, m.c)) && Can(w, m) && StillMove(m)
    ensures var cl, after := ClientOf(w, m.c), ClientOf(Do(w, m), m.c);
            && ClientOk(w, after) && Carries(after) == Carries(cl) && (Carries(cl) ==> after.x == cl.x)
            && !after.Stopped?
  {
    hide Inv, Leads;
    var cl := ClientOf(w, m.c);
    match m
    case Begin(_, op, root) => LeadsNowhere(w.tree.pages, Level(w, root));
    case BeginCached(_, _, _, leaf) => PageKind(w, leaf);
    case Read(_) => NoteMoves(w, cl);
    case Turn(_) => TurnMoves(w, cl);
    case Reject(_, root) => LeadsNowhere(w.tree.pages, Level(w, root));
  }

  lemma LeadsNowhere(pages: map<GlobalAddress, Page>, top: nat)
    ensures forall lo :: Leads(pages, map[], top, top, lo)
  {
  }

  lemma TurnMoves(w: World, cl: Client)
    requires Inv(w.tree) && (cl.AtLeaf? || cl.AtParent?) && ClientOk(w, cl) && OnPage(w, cl)
    requires w.tree.pages[cl.at].highest <= Target(cl) && !(cl.AtLeaf? && cl.fromCache)
    ensures var sib := w.tree.pages[cl.at].sibling;
            && sib != NULL && ClientOk(w, MovedTo(cl, sib, cl.path))
            && w.tree.pages[cl.at].lowest < w.tree.pages[sib].lowest <= Target(cl) < KEY_MAX
  {
    hide Inv, Leads, Topped;
    var p := w.tree.pages[cl.at];
    TurnRightIn(w, cl.at, Target(cl));
    LeadsFurther(w.tree.pages, cl.path, Level(w, cl.at), Level(w, cl.root), p.lowest, w.tree.pages[p.sibling].lowest);
  }

  lemma StillStep(w: World, m: Move)
    requires WorldOk(w) && Can(w, m) && StillMove(m)
    ensures WorldOk(Do(w, m))
  {
    hide Inv, ClientOk, Can, Do, Stable;
    var u := Do(w, m);
    StillTree(w, m);
    Same(w);
    StillClient(w, m);
    SameWorld(w, u, ClientOf(u, m.c));
    ClientsKept(w, u, m.c);
    RootsKept(w, u);
    CarriersKept(w, u, m.c);
  }

  lemma StillTree(w: World, m: Move)
    requires Can(w, m) && StillMove(m)
    ensures Do(w, m).tree == w.tree && Do(w, m).roots == w.roots && OnlyMoved(w, Do(w, m), m.c)
  {
  }

  lemma SameWorld(w: World, u: World, cl: Client)
    requires u.tree == w.tree && u.roots == w.roots && Stable(w.tree, w.tree) && Inv(w.tree) && ClientOk(w, cl)
    ensures ClientOk(u, cl) && GoesOn(w, u)
  {
    ClientKept(w, u, cl);
  }

  lemma CarriersKept(w: World, u: World, c: nat)
    requires Carriers(w) && OnlyMoved(w, u, c) && u.tree == w.tree
    requires Carries(ClientOf(u, c)) == Carries(ClientOf(w, c)) && (Carries(ClientOf(w, c)) ==> ClientOf(u, c).x == ClientOf(w, c).x)
    ensures Carriers(u)
  {
  }

  // ---------------------------------------------------------------- moves that update the tree

  /** The separator sent up by a split: new, of the right level, and inside the range of the page that split. */
  lemma RaisedFacts(s: State, e: Event)
    requires Inv(s) && Enabled(s, e) && (e.StoreSplit? || e.InsertSplit?)
    ensures var x := Raised(s, e);
            && x in Next(s, e).pending && x.child == e.newAddr && e.newAddr !in s.pages && x.left == e.a
            && x.level == s.pages[e.a].level + 1 && s.pages[e.a].lowest < x.key < KEY_MAX
            && Next(s, e).pending == s.pending - (if e.InsertSplit? then {e.x} else {}) + {x}
  {
    hide PagesOk, Rooted, Linked, Apart, Parented, Pending, Reached, Filled, Room, Stable, InsertRecord, LeafPages.Put, PageOk;
    if e.StoreSplit? {
      StoreKeeps(s, e.a, e.k, e.v);
      RaisedRange(StoreIn(s, e.a, e.k, e.v), e.a, e.newAddr);
    } else {
      InsertKeeps(s, e.a, e.x);
      RaisedRange(InsertIn(s, e.a, e.x), e.a, e.newAddr);
    }
  }

  lemma RaisedRange(t: State, a: GlobalAddress, n: GlobalAddress)
    requires Shape(t) && a in t.pages && PageFull(t.pages[a])
    ensures PageOk(t.pages[a]) && t.pages[a].lowest < SplitKey(t.pages[a]) < KEY_MAX
  {
    assert PageOk(t.pages[a]);
    SplitPageSpec(t.pages[a], n);
  }

  lemma PendingKept(s: State, e: Event)
    requires Enabled(s, e) && (e.Store? || e.Clear? || e.Insert? || e.Grow?)
    ensures Next(s, e).pending == s.pending - (if e.Insert? || e.Grow? then {e.x} else {})
  {
  }

  /** After an update of the tree by client `c` all others still carry what they did. */
  lemma CarriersUpdated(w: World, u: World, c: nat, gone: set<Separator>)
    requires Carriers(w) && Inv(w.tree) && OnlyMoved(w, u, c)
    requires forall y :: y in gone ==> Carries(ClientOf(w, c)) && y == ClientOf(w, c).x
    requires w.tree.pending - gone <= u.tree.pending
    requires Carries(ClientOf(u, c)) ==>
               var x := ClientOf(u, c).x; x in u.tree.pending && x.child !in w.tree.pages
    ensures Carriers(u)
  {
    forall d | Carries(ClientOf(w, d)) ensures ClientOf(w, d).x.child in w.tree.pages {
      assert SepOk(w.tree.pages, ClientOf(w, d).x);
    }
  }

  lemma ActClient(w: World, c: nat, n: GlobalAddress)
    requires Inv(w.tree) && ClientOk(w, ClientOf(w, c)) && Can(w, Act(c, n)) && GoesOn(w, Do(w, Act(c, n)))
    ensures var u := Do(w, Act(c, n)); ClientOk(u, ClientOf(u, c)) && !ClientOf(u, c).Stopped?
  {
    hide Inv, Leads, Topped, Next, Enabled, Raised;
    var cl, u := ClientOf(w, c), Do(w, Act(c, n));
    var e := Update(w, cl, n);
    UpdatesPage(w, cl, n);
    if e.StoreSplit? || e.InsertSplit? {
      RaisedFacts(w.tree, e);
      var x := Raised(w.tree, e);
      if !(cl.AtLeaf? && cl.fromCache) {
        LeadsFurther(w.tree.pages, cl.path, Level(w, cl.at), Level(w, cl.root), w.tree.pages[cl.at].lowest, x.key);
        LeadsKept(w, u, cl.path, Level(w, cl.at), Level(w, cl.root), x.key);
      }
    }
  }

  lemma UpdatesPage(w: World, cl: Client, n: GlobalAddress)
    requires OnPage(w, cl) && (cl.AtLeaf? || cl.AtParent?)
    requires if cl.AtLeaf? then w.tree.pages[cl.at].LeafPage? else w.tree.pages[cl.at].InternalPage?
    ensures var e := Update(w, cl, n);
            && !e.Grow? && e.a == cl.at
            && (e.StoreSplit? || e.InsertSplit? ==> e.newAddr == n)
            && (cl.AtLeaf? <==> e.Store? || e.StoreSplit? || e.Clear?)
            && (cl.AtParent? ==> (e.Insert? || e.InsertSplit?) && e.x == cl.x)
  {
  }

  lemma ActTree(w: World, c: nat, n: GlobalAddress)
    requires Inv(w.tree) && Roots(w) && Can(w, Act(c, n))
    ensures var u := Do(w, Act(c, n));
            GoesOn(w, u) && OnlyMoved(w, u, c) && u.roots == w.roots && u.tree.root == w.tree.root
  {
    hide Inv, Enabled, Stable, Roots, Update, Next;
    var e := Update(w, ClientOf(w, c), n);
    UpdatesPage(w, ClientOf(w, c), n);
    StepInv(w.tree, e);
    RootStays(w.tree, e);
  }

  lemma RootStays(s: State, e: Event)
    requires Enabled(s, e) && !e.Grow?
    ensures Next(s, e).root == s.root
  {
  }

  lemma ActCarriers(w: World, c: nat, n: GlobalAddress)
    requires Inv(w.tree) && Carriers(w) && Can(w, Act(c, n)) && OnlyMoved(w, Do(w, Act(c, n)), c)
    ensures Carriers(Do(w, Act(c, n)))
  {
    hide Inv, Next, Enabled, Carriers, Raised;
    var cl, u := ClientOf(w, c), Do(w, Act(c, n));
    var e := Update(w, cl, n);
    UpdatesPage(w, cl, n);
    if e.StoreSplit? || e.InsertSplit? {
      RaisedFacts(w.tree, e);
    } else {
      PendingKept(w.tree, e);
    }
    CarriersUpdated(w, u, c, if e.Insert? || e.InsertSplit? then {cl.x} else {});
  }

  lemma ActStep(w: World, c: nat, n: GlobalAddress)
    requires WorldOk(w) && Can(w, Act(c, n))
    ensures WorldOk(Do(w, Act(c, n)))
  {
    hide Inv, ClientOk, Can, Do;
    ActTree(w, c, n);
    ActClient(w, c, n);
    ActCarriers(w, c, n);
    ClientsKept(w, Do(w, Act(c, n)), c);
    RootsKept(w, Do(w, Act(c, n)));
  }

  lemma SwapStep(w: World, m: Move)
    requires WorldOk(w) && Can(w, m) && m.Raise? && Swaps(w, ClientOf(w, m.c))
    ensures WorldOk(Do(w, m))
  {
    hide Inv, Carriers;
    var u, x := Do(w, m), ClientOf(w, m.c).x;
    StepInv(w.tree, Grow(x, m.newAddr));
    PendingKept(w.tree, Grow(x, m.newAddr));
    CarriersUpdated(w, u, m.c, {x});
    assert ClientOk(u, Idle);
    ClientsKept(w, u, m.c);
    RootsKept(w, u);
  }

  /** The page one level up on the path stack is a start for the separator. */
  lemma UpStep(w: World, m: Move)
    requires WorldOk(w) && Can(w, m) && m.Raise? && !Swaps(w, ClientOf(w, m.c))
    ensures WorldOk(Do(w, m))
  {
    hide Inv, Stable, ClientOk;
    var u := Do(w, m);
    Same(w);
    UpClient(w, m);
    SameWorld(w, u, ClientOf(u, m.c));
    ClientsKept(w, u, m.c);
    RootsKept(w, u);
    CarriersKept(w, u, m.c);
  }

  lemma UpClient(w: World, m: Move)
    requires Roots(w) && ClientOk(w, ClientOf(w, m.c)) && Can(w, m) && m.Raise? && !Swaps(w, ClientOf(w, m.c))
    ensures ClientOk(w, ClientOf(Do(w, m), m.c))
  {
    LeadsNowhere(w.tree.pages, Level(w, m.root));
  }

  /** Every move of every client keeps what clients rely on. */
  lemma MoveOk(w: World, m: Move)
    requires WorldOk(w) && Can(w, m)
    ensures WorldOk(Do(w, m))
  {
    hide WorldOk, Do;
    if StillMove(m) {
      StillStep(w, m);
    } else if m.Act? {
      ActStep(w, m.c, m.newAddr);
    } else if Swaps(w, ClientOf(w, m.c)) {
      SwapStep(w, m);
    } else {
      UpStep(w, m);
    }
  }
}
