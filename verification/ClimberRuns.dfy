/**
  Runs of inserting and deleting clients: the assertions they make at locked pages hold, and their
  separators reach a parent exactly when the root they captured is high enough or still the root
  (src/Tree.cpp:716-734, 810-826, 851-873, 973-988, 1014-1035).
*/
module ClimberRuns {
  import opened Layout
  import opened LeafPages
  import opened BLink
  import opened Steps
  import opened Climbers
  import Runs
  import GrowingRuns

  ghost predicate Starts(w: World) {
    Runs.Initial(w.tree) && w.roots == {w.tree.root} && w.clients == map[]
  }

  ghost predicate Goes(w: World, m: Move, u: World) {
    Can(w, m) && u == Do(w, m)
  }

  /** Any interleaving of any number of clients. */
  ghost predicate Run(ws: seq<World>, ms: seq<Move>) {
    |ws| == |ms| + 1 && Starts(ws[0]) && forall i :: 0 <= i < |ms| ==> Goes(ws[i], ms[i], ws[i + 1])
  }

  lemma StartOk(w: World)
    requires Starts(w)
    ensures WorldOk(w)
  {
    Runs.InitialInv(w.tree);
  }

  lemma {:induction false} RunOk(ws: seq<World>, ms: seq<Move>, i: nat)
    requires Run(ws, ms) && i < |ws|
    ensures WorldOk(ws[i])
  {
    hide Can, Do, WorldOk, Starts;
    if i == 0 {
      StartOk(ws[0]);
    } else {
      RunOk(ws, ms, i - 1);
      assert Goes(ws[i - 1], ms[i - 1], ws[i - 1 + 1]);
      MoveOk(ws[i - 1], ms[i - 1]);
    }
  }

  /** Moment `n` of the clients is moment `at[n]` of the tree. */
  ghost predicate Follows(ws: seq<World>, ss: seq<State>, at: seq<nat>) {
    && |at| <= |ws| && (forall n :: 0 <= n < |at| ==> at[n] < |ss| && ss[at[n]] == ws[n].tree)
    && (forall m, n :: 0 <= m < n < |at| ==> at[m] <= at[n])
  }

  /** What the clients do to the tree, moment by moment, is a run of the tree. */
  lemma {:induction false} TreeRun(ws: seq<World>, ms: seq<Move>, i: nat) returns (ss: seq<State>, es: seq<Event>, at: seq<nat>)
    requires Run(ws, ms) && i < |ws|
    ensures Runs.Run(ss, es) && ss[|ss| - 1] == ws[i].tree
    ensures |at| == i + 1 && at[i] == |ss| - 1 && Follows(ws, ss, at)
  {
    hide Can, Do, Enabled, Next, Follows, Inv, Stable, Runs.Initial, Runs.Moves, GrowingRuns.Longer;
    if i == 0 {
      ss, es, at := [ws[0].tree], [], [0];
      FollowsFirst(ws);
    } else {
      ss, es, at := TreeRun(ws, ms, i - 1);
      assert Goes(ws[i - 1], ms[i - 1], ws[i - 1 + 1]);
      var e := TreeEvent(ws[i - 1], ms[i - 1]);
      var tt := ss;
      SameRun(ss);
      if e != [] {
        tt, es := GrowingRuns.Extend(ss, es, e[0]);
      }
      FollowsOn(ws, ss, tt, at);
      ss, at := tt, at + [|tt| - 1];
    }
  }

  lemma FollowsFirst(ws: seq<World>)
    requires 0 < |ws|
    ensures Follows(ws, [ws[0].tree], [0])
  {
  }

  lemma SameRun(ss: seq<State>)
    ensures GrowingRuns.Longer(ss, ss)
  {
  }

  lemma FollowsOn(ws: seq<World>, ss: seq<State>, tt: seq<State>, at: seq<nat>)
    requires 0 < |ss| && Follows(ws, ss, at) && |at| < |ws| && GrowingRuns.Longer(ss, tt) && tt[|tt| - 1] == ws[|at|].tree
    ensures Follows(ws, tt, at + [|tt| - 1])
  {
    forall n | 0 <= n < |ss| ensures tt[n] == ss[n] {
      assert tt[..|ss|][n] == ss[n];
    }
  }

  /** The step of the tree in a move, if there is one. */
  ghost function TreeEvent(w: World, m: Move): (e: seq<Event>)
    requires Can(w, m)
    ensures |e| <= 1
    ensures e == [] ==> Do(w, m).tree == w.tree
    ensures e != [] ==> Enabled(w.tree, e[0]) && Do(w, m).tree == Next(w.tree, e[0])
  {
    var cl := ClientOf(w, m.c);
    if m.Act? then [Update(w, cl, m.newAddr)]
    else if m.Raise? && Swaps(w, cl) then [Grow(cl.x, m.newAddr)]
    else []
  }

  // ---------------------------------------------------------------- the assertions at a locked page

  /**
    In every interleaving, the page a client locks to store or delete is a leaf that does not start after
    the key, has a free slot, and has a sibling if it ends before the key.
  */
  lemma LockedLeaf(ws: seq<World>, ms: seq<Move>, i: nat, c: nat)
    requires Run(ws, ms) && i < |ws| && ClientOf(ws[i], c).AtLeaf?
    ensures var cl := ClientOf(ws[i], c);
            && cl.at in ws[i].tree.pages
            && var p := ws[i].tree.pages[cl.at];
               && p.LeafPage? && p.level == 0 && p.lowest <= cl.op.k && !Full(p.entries)
               && (p.highest <= cl.op.k ==> p.sibling != NULL)
  {
    RunOk(ws, ms, i);
    var w, cl := ws[i], ClientOf(ws[i], c);
    assert ClientOk(w, cl);
    PageKind(w, cl.at);
    NotFull(w, cl.at);
    if w.tree.pages[cl.at].highest <= cl.op.k {
      TurnRightIn(w, cl.at, cl.op.k);
    }
  }

  lemma NotFull(w: World, a: GlobalAddress)
    requires Inv(w.tree) && a in w.tree.pages
    ensures PageOk(w.tree.pages[a]) && !PageFull(w.tree.pages[a])
  {
  }

  /** The page a client locks to insert a separator is of the separator's level, does not start after it, has room, and has a sibling if it ends before it. */
  lemma LockedParent(ws: seq<World>, ms: seq<Move>, i: nat, c: nat)
    requires Run(ws, ms) && i < |ws| && ClientOf(ws[i], c).AtParent?
    ensures var cl := ClientOf(ws[i], c);
            && cl.at in ws[i].tree.pages
            && var p := ws[i].tree.pages[cl.at];
               && p.InternalPage? && p.level == cl.x.level && p.lowest <= cl.x.key && |p.records| < INTERNAL_CARDINALITY
               && (p.highest <= cl.x.key ==> p.sibling != NULL)
  {
    RunOk(ws, ms, i);
    var w, cl := ws[i], ClientOf(ws[i], c);
    assert ClientOk(w, cl);
    assert cl.x in w.tree.pending && SepOk(w.tree.pages, cl.x);
    PageKind(w, cl.at);
    NotFull(w, cl.at);
    if w.tree.pages[cl.at].highest <= cl.x.key {
      TurnRightIn(w, cl.at, cl.x.key);
    }
  }

  // ---------------------------------------------------------------- the fate of a separator

  /**
    The condition under which a split's separator goes on its way: the tree was high enough when the client
    captured the root, or the page that split is the captured root and is the root at the swap. A split
    reached through the cache looks for its parent from the root again.
  */
  predicate GoesUp(w: World, cl: Client)
    requires cl.Separated?
  {
    cl.fromCache || cl.x.level <= Level(w, cl.root) || (cl.x.left == cl.root && w.tree.root == cl.root)
  }

  /** In every run a client with a fresh separator stops at the assertion that it has a parent exactly when that condition fails. */
  lemma StopsIff(ws: seq<World>, ms: seq<Move>, i: nat, c: nat)
    requires Run(ws, ms) && i < |ms| && ClientOf(ws[i], c).Separated? && ms[i].Raise? && ms[i].c == c
    ensures ClientOf(ws[i + 1], c).Stopped? <==> !GoesUp(ws[i], ClientOf(ws[i], c))
    ensures GoesUp(ws[i], ClientOf(ws[i], c)) ==>
              var x := ClientOf(ws[i], c).x;
              if ClientOf(ws[i + 1], c).Idle? then x !in ws[i + 1].tree.pending
              else (ClientOf(ws[i + 1], c).AtParent? || ClientOf(ws[i + 1], c).Seeking?) && ClientOf(ws[i + 1], c).x == x
  {
    RunOk(ws, ms, i);
    assert Goes(ws[i], ms[i], ws[i + 1]);
    RaiseOutcome(ws[i], ms[i]);
  }

  lemma RaiseOutcome(w: World, m: Move)
    requires WorldOk(w) && Can(w, m) && m.Raise?
    ensures var cl, after := ClientOf(w, m.c), ClientOf(Do(w, m), m.c);
            && (after.Stopped? <==> !GoesUp(w, cl))
            && (if after.Idle? then cl.x !in Do(w, m).tree.pending
                else (after.AtParent? || after.Seeking? || after.Stopped?) && after.x == cl.x)
  {
    hide Inv;
    var cl := ClientOf(w, m.c);
    assert ClientOk(w, cl);
    if Swaps(w, cl) {
      PendingKept(w.tree, Grow(cl.x, m.newAddr));
    }
  }

  /** A stopped client's separator never reaches a parent: it stays on its way for ever. */
  lemma {:induction false} StoppedForEver(ws: seq<World>, ms: seq<Move>, i: nat, j: nat, c: nat)
    requires Run(ws, ms) && i <= j < |ws| && ClientOf(ws[i], c).Stopped?
    ensures ClientOf(ws[j], c) == ClientOf(ws[i], c) && ClientOf(ws[i], c).x in ws[j].tree.pending
    decreases j
  {
    hide Can, Do, ClientOk, Inv;
    RunOk(ws, ms, j);
    if i < j {
      StoppedForEver(ws, ms, i, j - 1, c);
      assert Goes(ws[j - 1], ms[j - 1], ws[j - 1 + 1]);
      StoppedStays(ws[j - 1], ms[j - 1], c);
    }
    assert Carries(ClientOf(ws[j], c));
  }

  lemma StoppedStays(w: World, m: Move, c: nat)
    requires Can(w, m) && ClientOf(w, c).Stopped?
    ensures ClientOf(Do(w, m), c) == ClientOf(w, c)
  {
  }

  /**
    A client at a page of its separator's level can always move on, and does so by inserting the separator
    or by turning to a page further right; so the separator does find its parent.
  */
  lemma ParentMove(ws: seq<World>, ms: seq<Move>, i: nat, c: nat, n: GlobalAddress)
    requires Run(ws, ms) && i < |ws| && ClientOf(ws[i], c).AtParent? && Unused(ws[i].tree, n)
    ensures var w, cl := ws[i], ClientOf(ws[i], c);
            && cl.at in w.tree.pages
            && if w.tree.pages[cl.at].highest <= cl.x.key
               then Can(w, Turn(c)) && w.tree.pages[cl.at].sibling in w.tree.pages
                    && w.tree.pages[cl.at].lowest < w.tree.pages[w.tree.pages[cl.at].sibling].lowest < KEY_MAX
               else Can(w, Act(c, n)) && cl.x !in Do(w, Act(c, n)).tree.pending
  {
    RunOk(ws, ms, i);
    LockedParent(ws, ms, i, c);
    var w, cl := ws[i], ClientOf(ws[i], c);
    assert ClientOk(w, cl);
    if w.tree.pages[cl.at].highest <= cl.x.key {
      TurnRightIn(w, cl.at, cl.x.key);
    } else {
      CanInsert(w, cl, n);
    }
  }

  /**
    A client looking for its parent from the root reads on and on, each time a page further down or further
    right, until it is at the parent's level.
  */
  lemma SeekingMove(ws: seq<World>, ms: seq<Move>, i: nat, c: nat)
    requires Run(ws, ms) && i < |ms| && ClientOf(ws[i], c).Seeking? && ms[i].c == c
    ensures ms[i].Read? && ClientOf(ws[i], c).at in ws[i].tree.pages
    ensures var cl, after := ClientOf(ws[i], c), ClientOf(ws[i + 1], c);
            && after.x == cl.x
            && (after.AtParent? || (after.Seeking? && after.at in ws[i].tree.pages && Closer(ws[i], cl.at, after.at)))
  {
    RunOk(ws, ms, i);
    assert Goes(ws[i], ms[i], ws[i + 1]);
    SeekStep(ws[i], ms[i]);
  }

  /** `b` is on a lower level than `a`, or further right on the same. */
  predicate Closer(w: World, a: GlobalAddress, b: GlobalAddress)
    requires a in w.tree.pages && b in w.tree.pages
  {
    Level(w, b) < Level(w, a) || (Level(w, b) == Level(w, a) && w.tree.pages[a].lowest < w.tree.pages[b].lowest)
  }

  lemma SeekStep(w: World, m: Move)
    requires WorldOk(w) && Can(w, m) && ClientOf(w, m.c).Seeking?
    ensures m.Read? && ClientOf(w, m.c).at in w.tree.pages
    ensures var cl, after := ClientOf(w, m.c), ClientOf(Do(w, m), m.c);
            (after.AtParent? || after.Seeking?) && after.x == cl.x
            && (after.Seeking? ==> after.at in w.tree.pages && Closer(w, cl.at, after.at))
  {
    hide Inv, Leads, Topped;
    var cl := ClientOf(w, m.c);
    assert ClientOk(w, cl);
    NoteMoves(w, cl);
    PageKind(w, cl.at);
    if w.tree.pages[cl.at].highest <= cl.x.key {
      TurnRightIn(w, cl.at, cl.x.key);
    } else {
      RouteDownIn(w, cl.at, cl.x.key);
    }
  }

  lemma CanInsert(w: World, cl: Client, n: GlobalAddress)
    requires Inv(w.tree) && cl.AtParent? && OnPage(w, cl) && cl.x in w.tree.pending && Unused(w.tree, n)
    requires At(w.tree, cl.at, cl.x.key) && cl.x.key < w.tree.pages[cl.at].highest
    requires w.tree.pages[cl.at].InternalPage? && Level(w, cl.at) == cl.x.level
    ensures Enabled(w.tree, Update(w, cl, n)) && cl.x !in Next(w.tree, Update(w, cl, n)).pending
  {
    GrowingRuns.InsertedOne(w.tree, cl.at, cl.x);
    NotFull(w, cl.at);
    var e := Update(w, cl, n);
    if e.InsertSplit? {
      RaisedFacts(w.tree, e);
      assert SepOk(w.tree.pages, cl.x);
    } else {
      PendingKept(w.tree, e);
    }
  }

  /** How often client `c` moves. */
  function MovesOf(ms: seq<Move>, c: nat): nat {
    if ms == [] then 0 else MovesOf(ms[..|ms| - 1], c) + (if ms[|ms| - 1].c == c then 1 else 0)
  }

  /** While a client is at its separator's level each of its moves takes it further right: after fewer than kKeyMax of them the separator is in. */
  lemma {:induction false} ClimbEnds(ws: seq<World>, ms: seq<Move>, i: nat, j: nat, c: nat)
    requires Run(ws, ms) && i <= j < |ws| && forall n :: i <= n <= j ==> ClientOf(ws[n], c).AtParent?
    ensures ClientOf(ws[j], c).at in ws[j].tree.pages && ws[j].tree.pages[ClientOf(ws[j], c).at].lowest < KEY_MAX
    ensures MovesOf(ms[i..j], c) <= ws[j].tree.pages[ClientOf(ws[j], c).at].lowest
    decreases j
  {
    hide Inv, ClientOk, Can, Do;
    PlaceOf(ws, ms, j, c);
    if i == j {
      assert ms[i..j] == [];
    } else {
      assert ms[i..j][..j - 1 - i] == ms[i..j - 1];
      ClimbEnds(ws, ms, i, j - 1, c);
      assert Goes(ws[j - 1], ms[j - 1], ws[j - 1 + 1]);
      RunOk(ws, ms, j - 1);
      ClimbStep(ws[j - 1], ms[j - 1], c);
    }
  }

  lemma PlaceOf(ws: seq<World>, ms: seq<Move>, j: nat, c: nat)
    requires Run(ws, ms) && j < |ws| && ClientOf(ws[j], c).AtParent?
    ensures var cl := ClientOf(ws[j], c); cl.at in ws[j].tree.pages && ws[j].tree.pages[cl.at].lowest < KEY_MAX
  {
    RunOk(ws, ms, j);
    assert ClientOk(ws[j], ClientOf(ws[j], c));
  }

  lemma ClimbStep(w: World, m: Move, c: nat)
    requires WorldOk(w) && Can(w, m) && ClientOf(w, c).AtParent? && ClientOf(Do(w, m), c).AtParent?
    ensures var a, b := ClientOf(w, c).at, ClientOf(Do(w, m), c).at;
            && a in w.tree.pages && b in Do(w, m).tree.pages
            && w.tree.pages[a].lowest + (if m.c == c then 1 else 0) <= Do(w, m).tree.pages[b].lowest
  {
    hide Inv;
    var cl := ClientOf(w, c);
    assert ClientOk(w, cl);
    if m.c == c {
      TurnMoves(w, cl);
    } else {
      TreeStable(w, m);
    }
  }

  lemma TreeStable(w: World, m: Move)
    requires WorldOk(w) && Can(w, m)
    ensures Stable(w.tree, Do(w, m).tree)
  {
    var e := TreeEvent(w, m);
    if e == [] {
      Same(w);
    } else {
      StepInv(w.tree, e[0]);
    }
  }

  // ---------------------------------------------------------------- a separator that finds no parent

  function End(ws: seq<World>): World
    requires 0 < |ws|
  {
    ws[|ws| - 1]
  }

  lemma Go(ws: seq<World>, ms: seq<Move>, m: Move) returns (vs: seq<World>, ns: seq<Move>)
    requires Run(ws, ms) && Can(End(ws), m)
    ensures Run(vs, ns) && End(vs) == Do(End(ws), m) && Inv(End(vs).tree) && Inv(End(ws).tree)
  {
    hide Can, Do, Starts, Inv;
    vs, ns := ws + [Do(End(ws), m)], ms + [m];
    forall i | 0 <= i < |ns| ensures Goes(vs[i], ns[i], vs[i + 1]) {
      assert i < |ms| ==> Goes(ws[i], ms[i], ws[i + 1]);
    }
    RunOk(ws, ms, |ws| - 1);
    RunOk(vs, ns, |vs| - 1);
  }

  /** A leaf filled in ascending order: 27 keys from 0 on, then keys from `gap + 27` on, `n` keys in all. */
  function Slots(gap: nat, n: nat): (es: seq<LeafEntry>)
    requires n <= LEAF_CARDINALITY
    ensures |es| == LEAF_CARDINALITY
    ensures forall i :: 0 <= i < LEAF_CARDINALITY ==> es[i] == if i < n then LeafEntry(SlotKey(gap, i), 1) else EMPTY_ENTRY
  {
    seq(LEAF_CARDINALITY, i requires 0 <= i => if i < n then LeafEntry(SlotKey(gap, i), 1) else EMPTY_ENTRY)
  }

  function SlotKey(gap: nat, i: nat): Key {
    if i < LEAF_MIDDLE then i else gap + i
  }

  lemma SlotStore(gap: nat, n: nat)
    requires n < LEAF_CARDINALITY
    ensures LeafPages.Put(Slots(gap, n), SlotKey(gap, n), 1) == Slots(gap, n + 1)
    ensures Full(Slots(gap, n + 1)) <==> n + 1 == LEAF_CARDINALITY
  {
    var es := Slots(gap, n);
    assert !Live(es[n]);
    assert FindFrom(es, SlotKey(gap, n), 0) == LEAF_CARDINALITY;
    assert EmptyFrom(es, 0) == n;
    if n + 1 < LEAF_CARDINALITY {
      assert !Live(Slots(gap, n + 1)[n + 1]);
    }
  }

  lemma SlotSplit(gap: nat)
    ensures LeafSplitKey(Slots(gap, LEAF_CARDINALITY)) == gap + LEAF_MIDDLE
    ensures LeftHalf(Slots(gap, LEAF_CARDINALITY)) == Slots(0, LEAF_MIDDLE)
  {
    GrowingRuns.SortedIsFixed(Slots(gap, LEAF_CARDINALITY));
  }

  /** Leaf `r`, a former or present root, holds `n` keys; client 0 is idle. */
  ghost predicate Holds(w: World, r: GlobalAddress, gap: nat, n: nat) {
    && Captured(w, r) && w.tree.pages[r].LeafPage? && w.tree.pages[r].lowest == KEY_MIN && ClientOf(w, 0).Idle?
    && n < LEAF_CARDINALITY && w.tree.pages[r].entries == Slots(gap, n) && gap + LEAF_CARDINALITY < w.tree.pages[r].highest
  }

  /** Client 0 brings an insertion of the next key, starting at `r`, to the locked leaf. */
  lemma Approach(ws: seq<World>, ms: seq<Move>, c: nat, k: Key, r: GlobalAddress) returns (vs: seq<World>, ns: seq<Move>)
    requires Run(ws, ms) && Captured(End(ws), r) && End(ws).tree.pages[r].LeafPage? && ClientOf(End(ws), c).Idle? && k < KEY_MAX
    ensures Run(vs, ns) && End(vs).tree == End(ws).tree && End(vs).roots == End(ws).roots && Inv(End(ws).tree)
    ensures ClientOf(End(vs), c) == AtLeaf(Upsert(k, 1), r, r, map[End(ws).tree.pages[r].level := r], false)
    ensures OnlyMoved(End(ws), End(vs), c)
  {
    hide Starts, Goes, Inv;
    vs, ns := Go(ws, ms, Begin(c, Upsert(k, 1), r));
    vs, ns := Go(vs, ns, Read(c));
    assert map[][End(ws).tree.pages[r].level := r] == map[End(ws).tree.pages[r].level := r];
  }

  /** Client 0 inserts keys at leaf `r` until one slot is left; everything else stays. */
  lemma {:induction false} FillUp(ws: seq<World>, ms: seq<Move>, r: GlobalAddress, gap: nat, n: nat) returns (vs: seq<World>, ns: seq<Move>)
    requires Run(ws, ms) && Holds(End(ws), r, gap, n)
    ensures Run(vs, ns) && Holds(End(vs), r, gap, LEAF_CARDINALITY - 1) && Alike(End(ws), End(vs), r)
    decreases LEAF_CARDINALITY - n
  {
    if n == LEAF_CARDINALITY - 1 {
      vs, ns := ws, ms;
    } else {
      hide Starts, Goes, Inv, Can, Do, Holds, Alike;
      var us, ls := StoreOne(ws, ms, r, gap, n);
      vs, ns := FillUp(us, ls, r, gap, n + 1);
      AlikeTrans(End(ws), End(us), End(vs), r);
    }
  }

  /** The same tree but for the slots of leaf `r`, the same roots, and the same clients but client 0. */
  ghost predicate Alike(w: World, u: World, r: GlobalAddress) {
    && r in w.tree.pages && r in u.tree.pages && u.tree.root == w.tree.root && u.roots == w.roots
    && u.tree.pages.Keys == w.tree.pages.Keys && u.tree.pages[r].level == w.tree.pages[r].level
    && u.tree.pages[r].highest == w.tree.pages[r].highest
    && (forall a :: a in w.tree.pages && a != r ==> u.tree.pages[a] == w.tree.pages[a])
    && OnlyMoved(w, u, 0)
  }

  lemma AlikeTrans(w: World, u: World, v: World, r: GlobalAddress)
    requires Alike(w, u, r) && Alike(u, v, r)
    ensures Alike(w, v, r)
  {
  }

  lemma StoreOne(ws: seq<World>, ms: seq<Move>, r: GlobalAddress, gap: nat, n: nat) returns (vs: seq<World>, ns: seq<Move>)
    requires Run(ws, ms) && Holds(End(ws), r, gap, n) && n + 1 < LEAF_CARDINALITY
    ensures Run(vs, ns) && Holds(End(vs), r, gap, n + 1) && Alike(End(ws), End(vs), r)
  {
    hide Starts, Goes, Inv;
    KeyFits(ws, ms, r, gap, n);
    SlotStore(gap, n);
    vs, ns := Approach(ws, ms, 0, SlotKey(gap, n), r);
    vs, ns := Go(vs, ns, Act(0, NULL));
  }

  lemma KeyFits(ws: seq<World>, ms: seq<Move>, r: GlobalAddress, gap: nat, n: nat)
    requires Run(ws, ms) && Holds(End(ws), r, gap, n)
    ensures SlotKey(gap, n) < End(ws).tree.pages[r].highest <= KEY_MAX && End(ws).tree.pages[r].level == 0
  {
    RunOk(ws, ms, |ws| - 1);
    NotFull(End(ws), r);
  }

  /** Client `c` stores the last key that fits leaf `r`: the leaf splits, and its separator is with the client. */
  lemma SplitOne(ws: seq<World>, ms: seq<Move>, c: nat, r: GlobalAddress, gap: nat, path: Path) returns (vs: seq<World>, ns: seq<Move>)
    requires Run(ws, ms) && 0 < |ws| && Captured(End(ws), r) && End(ws).tree.pages[r].LeafPage? && End(ws).tree.pages[r].lowest == KEY_MIN
    requires End(ws).tree.pages[r].entries == Slots(gap, LEAF_CARDINALITY - 1) && gap + LEAF_CARDINALITY < End(ws).tree.pages[r].highest <= KEY_MAX
    requires End(ws).tree.pages[r].level == 0
    requires ClientOf(End(ws), c) == AtLeaf(Upsert(SlotKey(gap, LEAF_CARDINALITY - 1), 1), r, r, path, false)
    ensures Run(vs, ns) && 0 < |vs| && End(vs).roots == End(ws).roots && End(vs).tree.root == End(ws).tree.root && OnlyMoved(End(ws), End(vs), c)
    ensures r in End(vs).tree.pages && End(vs).tree.pages[r] == LeafPage(0, KEY_MIN, gap + LEAF_MIDDLE, End(vs).tree.pages[r].sibling, Slots(0, LEAF_MIDDLE))
    ensures var cl := ClientOf(End(vs), c);
            cl.Separated? && cl.root == r && cl.path == path && !cl.fromCache && cl.x.left == r && cl.x.level == 1 && cl.x in End(vs).tree.pending
  {
    hide Starts, Goes, Inv, Raised;
    var n := GrowingRuns.NewAddress(End(ws).tree);
    SlotStore(gap, LEAF_CARDINALITY - 1);
    SlotSplit(gap);
    SplitFacts(ws, ms, c, r, gap, path, n);
    vs, ns := Go(ws, ms, Act(c, n));
  }

  lemma SplitFacts(ws: seq<World>, ms: seq<Move>, c: nat, r: GlobalAddress, gap: nat, path: Path, n: GlobalAddress)
    requires Run(ws, ms) && 0 < |ws| && Captured(End(ws), r) && End(ws).tree.pages[r].LeafPage? && Unused(End(ws).tree, n)
    requires End(ws).tree.pages[r].lowest == KEY_MIN && End(ws).tree.pages[r].level == 0
    requires LeafPages.Put(End(ws).tree.pages[r].entries, SlotKey(gap, LEAF_CARDINALITY - 1), 1) == Slots(gap, LEAF_CARDINALITY)
    requires Full(Slots(gap, LEAF_CARDINALITY)) && gap + LEAF_CARDINALITY < End(ws).tree.pages[r].highest <= KEY_MAX
    requires ClientOf(End(ws), c) == AtLeaf(Upsert(SlotKey(gap, LEAF_CARDINALITY - 1), 1), r, r, path, false)
    ensures var e := StoreSplit(r, SlotKey(gap, LEAF_CARDINALITY - 1), 1, n);
            && Can(End(ws), Act(c, n)) && Update(End(ws), ClientOf(End(ws), c), n) == e && Enabled(End(ws).tree, e)
            && Raised(End(ws).tree, e) in Next(End(ws).tree, e).pending
            && Raised(End(ws).tree, e).left == r && Raised(End(ws).tree, e).level == 1
  {
    hide Slots, Inv, Raised, Next, Goes, Starts, LeafPages.Put, Leads, Topped;
    RunOk(ws, ms, |ws| - 1);
    NotFull(End(ws), r);
    RaisedFacts(End(ws).tree, StoreSplit(r, SlotKey(gap, LEAF_CARDINALITY - 1), 1, n));
  }

  /** Client 0 swaps the root over the leaf that it split. */
  lemma SwapOne(ws: seq<World>, ms: seq<Move>, r: GlobalAddress) returns (vs: seq<World>, ns: seq<Move>)
    requires Run(ws, ms) && 0 < |ws| && r == End(ws).tree.root && r in End(ws).tree.pages
    requires ClientOf(End(ws), 0).Separated? && !ClientOf(End(ws), 0).fromCache && ClientOf(End(ws), 0).x.left == ClientOf(End(ws), 0).root == r
    requires ClientOf(End(ws), 0).x in End(ws).tree.pending
    ensures Run(vs, ns) && 0 < |vs| && End(vs).tree.root != r && ClientOf(End(vs), 0).Idle? && OnlyMoved(End(ws), End(vs), 0)
    ensures End(ws).roots <= End(vs).roots && r in End(vs).tree.pages && End(vs).tree.pages[r] == End(ws).tree.pages[r]
  {
    hide Starts, Goes, Inv;
    var n := GrowingRuns.NewAddress(End(ws).tree);
    vs, ns := Go(ws, ms, Raise(0, n, n));
  }

  /**
    A run that ends at the assertion. Client 1 captures the root while it is a leaf; client 0 fills that leaf,
    splits it and installs a new root, and fills the leaf again, its copy of the root being stale; then client 1
    splits it. The captured root is no longer the root and nothing is noted above it: the separator is stranded,
    although the tree has a page for it.
  */
  lemma SeparatorStranded() returns (ws: seq<World>, ms: seq<Move>)
    ensures Run(ws, ms) && 0 < |ws| && ClientOf(End(ws), 1).Stopped?
    ensures var x := ClientOf(End(ws), 1).x;
            x in End(ws).tree.pending && x.level <= Level(End(ws), End(ws).tree.root)
  {
    hide Starts, Goes, Inv, Slots, Holds, Can, Do;
    var r := GlobalAddress(0, PAGE_SIZE);
    ws, ms := FirstMoves(r);
    var vs, ns := FillUp(ws, ms, r, 100, 0);
    vs, ns := SplitRoot(ws, vs, ns, r);
    var us, ls := FillUp(vs, ns, r, 0, LEAF_MIDDLE);
    ws, ms := Strand(vs, us, ls, r);
  }

  const LATE: Client := Descending(Upsert(LEAF_CARDINALITY - 1, 1), GlobalAddress(0, PAGE_SIZE), GlobalAddress(0, PAGE_SIZE), map[])

  lemma FirstMoves(r: GlobalAddress) returns (ws: seq<World>, ms: seq<Move>)
    requires r == GlobalAddress(0, PAGE_SIZE)
    ensures Run(ws, ms) && Holds(End(ws), r, 100, 0) && End(ws).tree.root == r && ClientOf(End(ws), 1) == LATE
  {
    hide Inv;
    var w := World(State(map[r := EMPTY_LEAF], r, {}), {r}, map[]);
    assert EMPTY_LEAF.entries == Slots(100, 0);
    ws, ms := Go([w], [], Begin(1, Upsert(LEAF_CARDINALITY - 1, 1), r));
  }

  /** Client 0 splits the root leaf and installs a new root above. */
  lemma SplitRoot(us: seq<World>, ws: seq<World>, ms: seq<Move>, r: GlobalAddress) returns (vs: seq<World>, ns: seq<Move>)
    requires Run(ws, ms) && 0 < |us| && Holds(End(ws), r, 100, LEAF_CARDINALITY - 1) && Alike(End(us), End(ws), r)
    requires End(us).tree.root == r && ClientOf(End(us), 1) == LATE
    ensures Run(vs, ns) && Holds(End(vs), r, 0, LEAF_MIDDLE) && End(vs).tree.root != r && ClientOf(End(vs), 1) == LATE
  {
    hide Starts, Goes, Inv, Slots, Can, Do;
    KeyFits(ws, ms, r, 100, LEAF_CARDINALITY - 1);
    var xs, bs := Approach(ws, ms, 0, SlotKey(100, LEAF_CARDINALITY - 1), r);
    var cs, ds := SplitOne(xs, bs, 0, r, 100, map[0 := r]);
    vs, ns := SwapOne(cs, ds, r);
  }

  /** Client 1, which still has the old root, splits the leaf again. */
  lemma Strand(us: seq<World>, ws: seq<World>, ms: seq<Move>, r: GlobalAddress) returns (vs: seq<World>, ns: seq<Move>)
    requires Run(ws, ms) && 0 < |us| && Holds(End(ws), r, 0, LEAF_CARDINALITY - 1) && Alike(End(us), End(ws), r)
    requires End(us).tree.root != r && ClientOf(End(us), 1) == LATE && r == LATE.root
    ensures Run(vs, ns) && 0 < |vs| && ClientOf(End(vs), 1).Stopped?
    ensures var x := ClientOf(End(vs), 1).x; x in End(vs).tree.pending && x.level <= Level(End(vs), End(vs).tree.root)
  {
    hide Starts, Goes, Inv, Slots;
    KeyFits(ws, ms, r, 0, LEAF_CARDINALITY - 1);
    vs, ns := Go(ws, ms, Read(1));
    assert LATE.path[0 := r] == map[0 := r];
    vs, ns := SplitOne(vs, ns, 1, r, 0, map[0 := r]);
    RootAbove(vs, ns, r);
    vs, ns := Go(vs, ns, Raise(1, NULL, NULL));
  }

  /** A root other than the first leaf is above it. */
  lemma RootAbove(ws: seq<World>, ms: seq<Move>, r: GlobalAddress)
    requires Run(ws, ms) && 0 < |ws| && Captured(End(ws), r) && End(ws).tree.root != r
    ensures 1 <= Level(End(ws), End(ws).tree.root)
  {
    RunOk(ws, ms, |ws| - 1);
    var w := End(ws);
    assert RootKnown(w, r);
    NotFull(w, r);
    NotFull(w, w.tree.root);
    if Level(w, w.tree.root) == 0 {
      CoverUnique(w.tree, r, w.tree.root, KEY_MIN);
    }
  }
}
