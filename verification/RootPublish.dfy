/**
  Publication of new roots (src/Tree.cpp:102-124, 139-148; src/Directory.cpp:72-83). Every successful
  swap of the root word is announced to all nodes; announcements may be lost, duplicated and
  reordered. Each node keeps the root of the highest level it has heard of.
*/
module RootPublish {
  import opened Layout
  import opened BLink
  import opened Steps
  import opened Runs

  /** g_root_ptr, g_root_level and enable_cache of one node. */
  datatype View = View(ptr: GlobalAddress, level: int, enableCache: bool)

  const UNAWARE := View(NULL, -1, false)

  const CACHE_LEVEL := 3

  datatype Message = NewRoot(addr: GlobalAddress, level: nat)

  /** The NEW_ROOT case of process_message. */
  function Process(v: View, m: Message): View {
    if v.level < m.level then View(m.addr, m.level, v.enableCache || CACHE_LEVEL <= m.level) else v
  }

  /** `roots` lists all roots so far, the current one last; `sent` the announcements made. */
  datatype Net = Net(tree: State, roots: seq<GlobalAddress>, sent: set<Message>, views: map<nat, View>)

  function ViewOf(w: Net, n: nat): View {
    if n in w.views then w.views[n] else UNAWARE
  }

  datatype NetEvent = TreeStep(e: Event) | Receive(n: nat, m: Message)

  predicate NetEnabled(w: Net, x: NetEvent) {
    match x
    case TreeStep(e) => Enabled(w.tree, e)
    case Receive(_, m) => m in w.sent
  }

  function NetNext(w: Net, x: NetEvent): Net
    requires NetEnabled(w, x)
  {
    match x
    case TreeStep(e) =>
      var u := w.(tree := Next(w.tree, e));
      if e.Grow? then u.(roots := w.roots + [e.newAddr], sent := w.sent + {NewRoot(e.newAddr, e.x.level)}) else u
    case Receive(n, m) => w.(views := w.views[n := Process(ViewOf(w, n), m)])
  }

  /** The n-th root has level n and still starts at the least key. */
  ghost predicate RootsOk(w: Net) {
    && w.roots != [] && w.roots[|w.roots| - 1] == w.tree.root
    && forall i :: 0 <= i < |w.roots| ==> RootAt(w.tree, w.roots[i], i)
  }

  ghost predicate RootAt(s: State, a: GlobalAddress, level: nat) {
    a in s.pages && a != NULL && s.pages[a].level == level && s.pages[a].lowest == KEY_MIN
  }

  ghost predicate SentOk(w: Net) {
    forall m :: m in w.sent ==> 1 <= m.level < |w.roots| && w.roots[m.level] == m.addr
  }

  /** A node knows no root, or the root of the level it says. */
  predicate ViewOk(roots: seq<GlobalAddress>, v: View) {
    && (v == UNAWARE || (1 <= v.level < |roots| && v.ptr == roots[v.level]))
    && (v.enableCache <==> CACHE_LEVEL <= v.level)
  }

  ghost predicate NetInv(w: Net) {
    Inv(w.tree) && RootsOk(w) && SentOk(w) && forall n :: ViewOk(w.roots, ViewOf(w, n))
  }

  lemma RootStep(s: State, e: Event)
    requires Inv(s) && Enabled(s, e)
    ensures Inv(Next(s, e)) && Stable(s, Next(s, e))
    ensures if e.Grow? then s.root in s.pages && e.x.level == s.pages[s.root].level + 1 && Next(s, e).root == e.newAddr
                            && RootAt(Next(s, e), e.newAddr, e.x.level)
            else Next(s, e).root == s.root
  {
    StepInv(s, e);
    if e.Grow? {
      assert SepOk(s.pages, e.x);
    }
  }

  lemma RootsKept(w: Net, e: Event)
    requires Inv(w.tree) && RootsOk(w) && Enabled(w.tree, e)
    ensures RootsOk(NetNext(w, TreeStep(e)))
    ensures e.Grow? ==> e.x.level == |w.roots|
  {
    hide Inv, Enabled, Next;
    RootStep(w.tree, e);
    var u := NetNext(w, TreeStep(e));
    assert RootAt(w.tree, w.roots[|w.roots| - 1], |w.roots| - 1);
    forall i | 0 <= i < |w.roots| ensures RootAt(u.tree, w.roots[i], i) {
      assert RootAt(w.tree, w.roots[i], i);
    }
  }

  /** Every step and every delivery keeps the announcements and the nodes' views true. */
  lemma NetStep(w: Net, x: NetEvent)
    requires NetInv(w) && NetEnabled(w, x)
    ensures NetInv(NetNext(w, x))
  {
    hide Inv, Enabled, Next, RootsOk;
    var u := NetNext(w, x);
    if x.TreeStep? {
      RootStep(w.tree, x.e);
      RootsKept(w, x.e);
    } else {
      assert u.tree == w.tree;
      SameRoots(w, u);
    }
    assert w.roots <= u.roots;
    forall n ensures ViewOk(u.roots, ViewOf(u, n)) {
      assert ViewOk(w.roots, ViewOf(w, n));
    }
  }

  lemma SameRoots(w: Net, u: Net)
    requires RootsOk(w) && u.tree == w.tree && u.roots == w.roots
    ensures RootsOk(u)
  {
  }

  ghost predicate NetMoves(w: Net, x: NetEvent, u: Net) {
    NetEnabled(w, x) && u == NetNext(w, x)
  }

  ghost predicate NetRun(ws: seq<Net>, xs: seq<NetEvent>) {
    && |ws| == |xs| + 1 && Initial(ws[0].tree) && ws[0] == Net(ws[0].tree, [ws[0].tree.root], {}, map[])
    && forall i :: 0 <= i < |xs| ==> NetMoves(ws[i], xs[i], ws[i + 1])
  }

  lemma {:induction false} NetRunInv(ws: seq<Net>, xs: seq<NetEvent>, i: nat)
    requires NetRun(ws, xs) && i < |ws|
    ensures NetInv(ws[i])
  {
    hide Inv;
    if i == 0 {
      InitialInv(ws[0].tree);
      InitialRoot(ws[0].tree);
    } else {
      NetRunInv(ws, xs, i - 1);
      assert NetMoves(ws[i - 1], xs[i - 1], ws[i]);
      NetStep(ws[i - 1], xs[i - 1]);
    }
  }

  lemma InitialRoot(s: State)
    requires Initial(s)
    ensures RootAt(s, s.root, 0)
  {
  }

  /** get_root_ptr: the node's copy, or the root word while the node has heard of none. */
  function RootPtr(w: Net, n: nat): GlobalAddress {
    if ViewOf(w, n).ptr == NULL then w.tree.root else ViewOf(w, n).ptr
  }

  /**
    Under any loss, duplication and reordering a node starts its searches at a past or present root,
    from which every key can be reached, and enables its cache only once the tree has four levels.
  */
  lemma ViewsAreRoots(ws: seq<Net>, xs: seq<NetEvent>, i: nat, n: nat, k: Key)
    requires NetRun(ws, xs) && i < |ws|
    ensures RootPtr(ws[i], n) in ws[i].roots && At(ws[i].tree, RootPtr(ws[i], n), k)
    ensures ws[i].tree.root in ws[i].tree.pages
    ensures ViewOf(ws[i], n).enableCache ==> CACHE_LEVEL <= ws[i].tree.pages[ws[i].tree.root].level
  {
    NetRunInv(ws, xs, i);
    var w := ws[i];
    assert ViewOk(w.roots, ViewOf(w, n));
    assert RootAt(w.tree, w.roots[|w.roots| - 1], |w.roots| - 1);
    if ViewOf(w, n) != UNAWARE {
      assert RootAt(w.tree, w.roots[ViewOf(w, n).level], ViewOf(w, n).level);
    }
  }

  ghost predicate AllDifferent(s: seq<GlobalAddress>) {
    forall i, j :: 0 <= i < j < |s| ==> s[i] != s[j]
  }

  /** A node's view never goes back to a lower level, and no address becomes root twice. */
  lemma ViewsAdvance(ws: seq<Net>, xs: seq<NetEvent>, i: nat, n: nat)
    requires NetRun(ws, xs) && i < |xs|
    ensures ViewOf(ws[i], n).level <= ViewOf(ws[i + 1], n).level
    ensures AllDifferent(ws[i + 1].roots)
  {
    NetRunInv(ws, xs, i + 1);
    assert NetMoves(ws[i], xs[i], ws[i + 1]);
    var w := ws[i + 1];
    forall a, b | 0 <= a < b < |w.roots| ensures w.roots[a] != w.roots[b] {
      assert RootAt(w.tree, w.roots[a], a) && RootAt(w.tree, w.roots[b], b);
    }
  }

  /** Every root but the first one has been announced. */
  lemma {:induction false} AllAnnounced(ws: seq<Net>, xs: seq<NetEvent>, i: nat)
    requires NetRun(ws, xs) && i < |ws|
    ensures forall n :: 1 <= n < |ws[i].roots| ==> NewRoot(ws[i].roots[n], n) in ws[i].sent
  {
    hide Inv, Enabled, Next;
    if 0 < i {
      AllAnnounced(ws, xs, i - 1);
      NetRunInv(ws, xs, i - 1);
      assert NetMoves(ws[i - 1], xs[i - 1], ws[i]);
      if xs[i - 1].TreeStep? {
        RootsKept(ws[i - 1], xs[i - 1].e);
      }
    }
  }

  /** The highest level announced to a node so far. */
  function Heard(xs: seq<NetEvent>, n: nat): int {
    if xs == [] then -1
    else
      var before, x := Heard(xs[..|xs| - 1], n), xs[|xs| - 1];
      if x.Receive? && x.n == n && before < x.m.level then x.m.level else before
  }

  /** A node knows the root of the highest level it has heard of, whatever the order the announcements came in. */
  lemma {:induction false} KnowsHighest(ws: seq<Net>, xs: seq<NetEvent>, i: nat, n: nat)
    requires NetRun(ws, xs) && i < |ws|
    ensures ViewOf(ws[i], n).level == Heard(xs[..i], n)
    ensures ViewOf(ws[i], n) != UNAWARE ==>
              1 <= Heard(xs[..i], n) < |ws[i].roots| && ViewOf(ws[i], n).ptr == ws[i].roots[Heard(xs[..i], n)]
  {
    hide Inv, Enabled, Next;
    NetRunInv(ws, xs, i);
    assert ViewOk(ws[i].roots, ViewOf(ws[i], n));
    if 0 < i {
      KnowsHighest(ws, xs, i - 1, n);
      assert NetMoves(ws[i - 1], xs[i - 1], ws[i]);
      assert xs[..i][..i - 1] == xs[..i - 1];
    }
  }
}
