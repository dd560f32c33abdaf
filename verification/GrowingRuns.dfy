/**
  Runs that build trees of any height: keys stored in ascending order fill the last leaf, whose splits
  fill the last page one level up, and so on (src/Tree.cpp:766-825, 914-988).
*/
module GrowingRuns {
  import opened Layout
  import opened LeafPages
  import opened InternalPages
  import opened BLink
  import opened Steps
  import opened Runs
  import opened Levels
  import opened TreeState

  // ---------------------------------------------------------------- runs one event longer

  function End(ss: seq<State>): State
    requires 0 < |ss|
  {
    ss[|ss| - 1]
  }

  /** `tt` goes on where `ss` ends. */
  ghost predicate Longer(ss: seq<State>, tt: seq<State>) {
    |ss| <= |tt| && tt[..|ss|] == ss
  }

  lemma LongerTrans(ss: seq<State>, tt: seq<State>, uu: seq<State>)
    requires Longer(ss, tt) && Longer(tt, uu)
    ensures Longer(ss, uu)
  {
  }

  lemma Extend(ss: seq<State>, es: seq<Event>, e: Event) returns (tt: seq<State>, fs: seq<Event>)
    requires Run(ss, es) && Enabled(End(ss), e)
    ensures Run(tt, fs) && fs == es + [e] && |tt| == |ss| + 1 && Longer(ss, tt) && End(tt) == Next(End(ss), e) && tt[|tt| - 2] == End(ss)
    ensures Inv(End(ss)) && Inv(End(tt)) && Stable(End(ss), End(tt))
  {
    hide Inv, Enabled, Next, Stable, Initial;
    tt, fs := ss + [Next(End(ss), e)], es + [e];
    forall i | 0 <= i < |fs| ensures Moves(tt[i], fs[i], tt[i + 1]) {
      assert i < |es| ==> Moves(ss[i], es[i], ss[i + 1]);
    }
    RunInv(ss, es, |ss| - 1);
    StepInv(End(ss), e);
  }

  ghost function AboveAll(used: set<GlobalAddress>): (offset: nat)
    ensures forall a :: a in used ==> a.offset < offset
  {
    if used == {} then 1
    else
      var a :| a in used;
      var rest := AboveAll(used - {a});
      if a.offset < rest then rest else a.offset + 1
  }

  lemma NewAddress(s: State) returns (a: GlobalAddress)
    ensures Unused(s, a)
  {
    a := GlobalAddress(0, AboveAll(s.pages.Keys) + 1);
  }

  // ---------------------------------------------------------------- ascending leaves

  /** A leaf filled in ascending order: `n` keys from `t` on, then empty slots. */
  function Ramp(t: Key, n: nat): (es: seq<LeafEntry>)
    requires n <= LEAF_CARDINALITY
    ensures |es| == LEAF_CARDINALITY
    ensures forall i :: 0 <= i < LEAF_CARDINALITY ==> es[i] == if i < n then LeafEntry(t + i, 1) else EMPTY_ENTRY
  {
    seq(LEAF_CARDINALITY, i requires 0 <= i => if i < n then LeafEntry(t + i, 1) else EMPTY_ENTRY)
  }

  lemma RampStore(t: Key, n: nat)
    requires n < LEAF_CARDINALITY
    ensures Put(Ramp(t, n), t + n, 1) == Ramp(t, n + 1)
    ensures Full(Ramp(t, n + 1)) <==> n + 1 == LEAF_CARDINALITY
  {
    var es := Ramp(t, n);
    assert !Live(es[n]);
    assert FindFrom(es, t + n, 0) == LEAF_CARDINALITY;
    assert EmptyFrom(es, 0) == n;
    if n + 1 < LEAF_CARDINALITY {
      assert !Live(Ramp(t, n + 1)[n + 1]);
    }
  }

  lemma {:induction false} SortedIsFixed(es: seq<LeafEntry>)
    requires StrictlySorted(es)
    ensures SortByKey(es) == es
  {
    if es != [] {
      SortedIsFixed(es[1..]);
      assert es == [es[0]] + es[1..];
    }
  }

  lemma RampSplit(t: Key)
    ensures LeafSplitKey(Ramp(t, LEAF_CARDINALITY)) == t + LEAF_MIDDLE
    ensures RightHalf(Ramp(t, LEAF_CARDINALITY)) == Ramp(t + LEAF_MIDDLE, LEAF_MIDDLE)
    ensures LeftHalf(Ramp(t, LEAF_CARDINALITY)) == Ramp(t, LEAF_MIDDLE)
  {
    hide SortByKey;
    SortedIsFixed(Ramp(t, LEAF_CARDINALITY));
  }

  // ---------------------------------------------------------------- the last page of a level

  ghost predicate IsLast(s: State, a: GlobalAddress, level: nat) {
    a in s.pages && s.pages[a].level == level && s.pages[a].highest == KEY_MAX
  }

  lemma LastExists(s: State, level: nat) returns (a: GlobalAddress)
    requires Inv(s) && level <= s.pages[s.root].level
    ensures IsLast(s, a, level)
  {
    a := DescendTo(s, s.root, KEY_MAX - 1, level);
    assert PageOk(s.pages[a]);
  }

  /** The last page of a level does not start before the last page one level up. */
  lemma LastBelow(s: State, q: GlobalAddress, a: GlobalAddress, level: nat)
    requires Inv(s) && IsLast(s, q, level + 1) && IsLast(s, a, level)
    ensures s.pages[q].lowest <= s.pages[a].lowest
  {
    assert PageOk(s.pages[q]) && PageOk(s.pages[a]);
    RouteDown(s, q, KEY_MAX - 1);
    var c := Route(s.pages[q], KEY_MAX - 1);
    assert c != a ==> Disjoint(s.pages[c], s.pages[a]);
  }

  /** The last leaf is an ascending one. */
  ghost predicate Ramped(s: State, z: GlobalAddress, t: Key, n: nat) {
    && IsLast(s, z, 0) && s.pages[z].LeafPage? && s.pages[z].lowest <= t
    && n <= LEAF_CARDINALITY && s.pages[z].entries == Ramp(t, n)
  }

  /** Nothing is on its way up, and the next key goes to the ascending last leaf. */
  ghost predicate Quiet(s: State, z: GlobalAddress, t: Key, n: nat) {
    Inv(s) && s.pending == {} && Ramped(s, z, t, n) && n < LEAF_CARDINALITY
  }

  /** Only pages of levels up to `level` differ. */
  ghost predicate SameAbove(s: State, u: State, level: nat) {
    && u.root == s.root
    && (forall a :: a in s.pages && level < s.pages[a].level ==> a in u.pages && u.pages[a] == s.pages[a])
    && (forall a :: a in u.pages && level < u.pages[a].level ==> a in s.pages && s.pages[a].level == u.pages[a].level)
  }

  lemma SameAboveTrans(s: State, u: State, v: State, level: nat)
    requires SameAbove(s, u, level) && SameAbove(u, v, level)
    ensures SameAbove(s, v, level)
  {
  }

  lemma Unchanged(s: State, ss: seq<State>, level: nat)
    ensures SameAbove(s, s, level) && Longer(ss, ss)
  {
  }

  lemma FillStep(s: State, z: GlobalAddress, t: Key, n: nat)
    requires Quiet(s, z, t, n) && n + 1 < LEAF_CARDINALITY && t + LEAF_CARDINALITY < KEY_MAX
    ensures Enabled(s, Store(z, t + n, 1))
    ensures var u := Next(s, Store(z, t + n, 1));
            u.pending == {} && Ramped(u, z, t, n + 1) && SameAbove(s, u, 0) && u.pages[z].lowest == s.pages[z].lowest
  {
    hide Inv;
    RampStore(t, n);
    LastLeaf(s, z, t, n);
  }

  lemma LastLeaf(s: State, z: GlobalAddress, t: Key, n: nat)
    requires Quiet(s, z, t, n) && t + LEAF_CARDINALITY < KEY_MAX
    ensures s.pages[z].lowest < KEY_MAX && LeafFor(s, z, t + n)
  {
    assert PageOk(s.pages[z]);
  }

  lemma {:induction false} FillLeaf(ss: seq<State>, es: seq<Event>, z: GlobalAddress, t: Key, n: nat)
      returns (tt: seq<State>, fs: seq<Event>)
    requires Run(ss, es) && Quiet(End(ss), z, t, n) && t + LEAF_CARDINALITY < KEY_MAX
    ensures Run(tt, fs) && Longer(ss, tt) && Quiet(End(tt), z, t, LEAF_CARDINALITY - 1)
    ensures SameAbove(End(ss), End(tt), 0) && End(tt).pages[z].lowest == End(ss).pages[z].lowest
    decreases LEAF_CARDINALITY - n
  {
    if n == LEAF_CARDINALITY - 1 {
      Unchanged(End(ss), ss, 0);
      tt, fs := ss, es;
    } else {
      hide Inv, Enabled, Next, Ramped, Stable, Longer, SameAbove, Moves, Initial;
      FillStep(End(ss), z, t, n);
      var uu, gs := Extend(ss, es, Store(z, t + n, 1));
      tt, fs := FillLeaf(uu, gs, z, t, n + 1);
      LongerTrans(ss, uu, tt);
      SameAboveTrans(End(ss), End(uu), End(tt), 0);
    }
  }

  /** Page `q`, the last of its level, has split: its separator is the only one on its way up. */
  ghost predicate SplitOff(s: State, u: State, q: GlobalAddress, level: nat, x: Separator)
    requires q in s.pages
  {
    && Inv(u) && SameAbove(s, u, level) && u.pending == {x} && x.level == level + 1 && x.left == q
    && q in u.pages && u.pages[q].level == level && s.pages[q].lowest == u.pages[q].lowest < x.key == u.pages[q].highest
    && IsLast(u, x.child, level) && u.pages[x.child].lowest == x.key
  }

  /** Page `q` just before it split. */
  ghost predicate Whole(s: State, q: GlobalAddress, level: nat, lowest: Key, root: GlobalAddress) {
    IsLast(s, q, level) && s.pages[q].lowest == lowest && s.root == root
  }

  lemma SplitLeaf(ss: seq<State>, es: seq<Event>, z: GlobalAddress, t: Key, n: nat)
      returns (tt: seq<State>, fs: seq<Event>, x: Separator)
    requires Run(ss, es) && Quiet(End(ss), z, t, n) && t + LEAF_CARDINALITY < KEY_MAX
    ensures Run(tt, fs) && Longer(ss, tt) && |ss| < |tt|
    ensures SplitOff(End(ss), End(tt), z, 0, x) && Ramped(End(tt), x.child, t + LEAF_MIDDLE, LEAF_MIDDLE)
    ensures Whole(tt[|tt| - 2], z, 0, End(ss).pages[z].lowest, End(ss).root)
  {
    hide Inv, Enabled, Next, Ramped, Stable, LeafSplitKey, Longer;
    var uu, gs := FillLeaf(ss, es, z, t, n);
    var s := End(uu);
    var a := NewAddress(s);
    SplitStep(s, z, t, a);
    tt, fs := Extend(uu, gs, StoreSplit(z, t + LEAF_CARDINALITY - 1, 1, a));
    LongerTrans(ss, uu, tt);
    x := Separator(t + LEAF_MIDDLE, a, 1, z);
    RampedIsLast(s, z, t, LEAF_CARDINALITY - 1);
  }

  lemma RampedIsLast(s: State, z: GlobalAddress, t: Key, n: nat)
    requires Ramped(s, z, t, n)
    ensures IsLast(s, z, 0)
  {
  }

  /** The last free slot of the ascending leaf is filled: it splits in the middle. */
  lemma SplitStep(s: State, z: GlobalAddress, t: Key, a: GlobalAddress)
    requires Quiet(s, z, t, LEAF_CARDINALITY - 1) && t + LEAF_CARDINALITY < KEY_MAX && Unused(s, a)
    ensures Enabled(s, StoreSplit(z, t + LEAF_CARDINALITY - 1, 1, a))
    ensures var u := Next(s, StoreSplit(z, t + LEAF_CARDINALITY - 1, 1, a));
            Inv(u) ==> SplitOff(s, u, z, 0, Separator(t + LEAF_MIDDLE, a, 1, z)) && Ramped(u, a, t + LEAF_MIDDLE, LEAF_MIDDLE)
  {
    hide Inv, LeafSplitKey, LeftHalf, RightHalf, Ramp, Put;
    LastLeaf(s, z, t, LEAF_CARDINALITY - 1);
    RampStore(t, LEAF_CARDINALITY - 1);
    RampSplit(t);
  }

  // ---------------------------------------------------------------- splits on any level

  /** A bound on the keys it takes to split the last page of a level with `records` records. */
  function Budget(level: nat, records: nat): nat
    requires records <= INTERNAL_CARDINALITY
    decreases level
  {
    if level == 0 then LEAF_CARDINALITY else (INTERNAL_CARDINALITY - records) * Budget(level - 1, 0)
  }

  lemma BudgetStep(level: nat, records: nat)
    requires records < INTERNAL_CARDINALITY && 0 < level
    ensures Budget(level, records) == Budget(level - 1, 0) + Budget(level, records + 1)
  {
  }

  function RecordsOf(p: Page): nat {
    if p.InternalPage? then |p.records| else 0
  }

  lemma BudgetLess(level: nat, records: nat)
    requires records <= INTERNAL_CARDINALITY
    ensures Budget(level, records) <= Budget(level, 0)
  {
    if 0 < level {
      var c := Budget(level - 1, 0);
      assert (INTERNAL_CARDINALITY - records) * c + records * c == INTERNAL_CARDINALITY * c;
    }
  }

  lemma LastIsOne(s: State, a: GlobalAddress, b: GlobalAddress, level: nat)
    requires Inv(s) && IsLast(s, a, level) && IsLast(s, b, level)
    ensures a == b
  {
    assert PageOk(s.pages[a]) && PageOk(s.pages[b]);
    CoverUnique(s, a, b, KEY_MAX - 1);
  }

  lemma LastChild(s: State, q: GlobalAddress, level: nat) returns (a: GlobalAddress)
    requires Inv(s) && 0 < level && IsLast(s, q, level)
    ensures IsLast(s, a, level - 1) && RecordsOf(s.pages[a]) < INTERNAL_CARDINALITY
  {
    a := LastExists(s, level - 1);
    assert PageOk(s.pages[a]) && !PageFull(s.pages[a]);
  }

  /** The separator of the split below is inserted in the last page, which splits when that fills it. */
  lemma Raise(s: State, u: State, q: GlobalAddress, a: GlobalAddress, y: Separator, level: nat) returns (e: Event)
    requires Inv(s) && 0 < level && IsLast(s, q, level) && a in s.pages && s.pages[q].lowest <= s.pages[a].lowest
    requires SplitOff(s, u, a, level - 1, y)
    ensures Enabled(u, e) && s.pages[q].InternalPage?
    ensures if RecordsOf(s.pages[q]) + 1 < INTERNAL_CARDINALITY then e == Insert(q, y)
            else e.InsertSplit? && e.a == q && e.x == y
  {
    var n := NewAddress(u);
    assert y in u.pending && SepNew(u.pages, y) && u.pages[q] == s.pages[q];
    assert PageOk(u.pages[q]) && PageOk(u.pages[y.child]) && !PageFull(u.pages[q]);
    WithRecordSpec(u.pages[q], y);
    assert ParentFor(u, q, y);
    e := if RecordsOf(s.pages[q]) + 1 < INTERNAL_CARDINALITY then Insert(q, y) else InsertSplit(q, y, n);
  }

  lemma RaisedQuiet(s: State, u: State, q: GlobalAddress, a: GlobalAddress, y: Separator, level: nat, z: GlobalAddress, t: Key)
    requires Inv(s) && 0 < level && IsLast(s, q, level) && a in s.pages && SplitOff(s, u, a, level - 1, y)
    requires Enabled(u, Insert(q, y)) && Ramped(u, z, t, LEAF_MIDDLE) && Inv(Next(u, Insert(q, y)))
    ensures var v := Next(u, Insert(q, y));
            && Quiet(v, z, t, LEAF_MIDDLE) && IsLast(v, q, level) && SameAbove(s, v, level)
            && v.root == s.root && v.pages[q].lowest == s.pages[q].lowest && RecordsOf(v.pages[q]) == RecordsOf(s.pages[q]) + 1
  {
    hide Inv, Ramp;
    InsertedOne(u, q, y);
  }

  lemma InsertedOne(u: State, q: GlobalAddress, y: Separator)
    requires Inv(u) && ParentFor(u, q, y)
    ensures |InsertRecord(u.pages[q].records, y.key, y.child)| == |u.pages[q].records| + 1
  {
    assert SepNew(u.pages, y) && PageOk(u.pages[q]);
    WithRecordSpec(u.pages[q], y);
  }

  lemma RaisedSplit(s: State, u: State, q: GlobalAddress, a: GlobalAddress, y: Separator, n: GlobalAddress, level: nat,
                    z: GlobalAddress, t: Key) returns (x: Separator)
    requires Inv(s) && 0 < level && IsLast(s, q, level) && a in s.pages && SplitOff(s, u, a, level - 1, y)
    requires Enabled(u, InsertSplit(q, y, n)) && Ramped(u, z, t, LEAF_MIDDLE) && Inv(Next(u, InsertSplit(q, y, n)))
    ensures var v := Next(u, InsertSplit(q, y, n));
            SplitOff(s, v, q, level, x) && Ramped(v, z, t, LEAF_MIDDLE)
  {
    hide Ramp, InsertRecord, Ramped, Inv, SameAbove;
    SplitFits(u, q, y, n);
    var w := InsertIn(u, q, y);
    x := Separator(SplitKey(w.pages[q]), n, level + 1, q);
    RaisedPages(s, u, w, q, a, y, n, level, z, t);
  }

  lemma SplitFits(u: State, q: GlobalAddress, y: Separator, n: GlobalAddress)
    requires Inv(u) && Enabled(u, InsertSplit(q, y, n))
    ensures var w := InsertIn(u, q, y);
            PageFull(w.pages[q]) && w.pages[q].lowest < SplitKey(w.pages[q]) && Next(u, InsertSplit(q, y, n)) == SplitAt(w, q, n)
  {
    hide InsertRecord;
    var w := InsertIn(u, q, y);
    InsertKeeps(u, q, y);
    assert PageOk(w.pages[q]);
    SplitPageSpec(w.pages[q], n);
  }

  lemma RaisedPages(s: State, u: State, w: State, q: GlobalAddress, a: GlobalAddress, y: Separator, n: GlobalAddress, level: nat,
                    z: GlobalAddress, t: Key)
    requires 0 < level && IsLast(s, q, level) && a in s.pages && SplitOff(s, u, a, level - 1, y) && Ramped(u, z, t, LEAF_MIDDLE)
    requires u.pages[q].InternalPage? && w == InsertIn(u, q, y) && PageFull(w.pages[q]) && n !in u.pages
    requires Inv(SplitAt(w, q, n)) && w.pages[q].lowest < SplitKey(w.pages[q])
    ensures SplitOff(s, SplitAt(w, q, n), q, level, Separator(SplitKey(w.pages[q]), n, level + 1, q))
    ensures Ramped(SplitAt(w, q, n), z, t, LEAF_MIDDLE)
  {
    hide Inv, Ramp, InsertRecord;
  }

  lemma ZeroLevel(s: State, q: GlobalAddress, z: GlobalAddress, t: Key, n: nat)
    requires Quiet(s, z, t, n) && IsLast(s, q, 0)
    ensures q == z && forall records :: 0 <= records <= INTERNAL_CARDINALITY ==> Budget(0, records) == LEAF_CARDINALITY
  {
    LastIsOne(s, q, z, 0);
  }

  lemma SplitOffTrans(s: State, v: State, u: State, q: GlobalAddress, level: nat, x: Separator)
    requires q in s.pages && q in v.pages && v.pages[q].lowest == s.pages[q].lowest && SameAbove(s, v, level)
    requires SplitOff(v, u, q, level, x)
    ensures SplitOff(s, u, q, level, x)
  {
    SameAboveTrans(s, v, u, level);
  }

  lemma WholeKept(s: State, u: State, q: GlobalAddress, a: GlobalAddress, y: Separator, level: nat)
    requires 0 < level && IsLast(s, q, level) && a in s.pages && SplitOff(s, u, a, level - 1, y)
    ensures Whole(u, q, level, s.pages[q].lowest, s.root)
  {
  }

  /** From a quiet state the last page of any level can be brought to split. */
  lemma {:induction false} SplitLast(ss: seq<State>, es: seq<Event>, level: nat, q: GlobalAddress, z: GlobalAddress, t: Key, n: nat)
      returns (tt: seq<State>, fs: seq<Event>, x: Separator, z': GlobalAddress, t': Key)
    requires Run(ss, es) && Quiet(End(ss), z, t, n) && IsLast(End(ss), q, level)
    requires RecordsOf(End(ss).pages[q]) < INTERNAL_CARDINALITY
    requires t + Budget(level, RecordsOf(End(ss).pages[q])) + LEAF_CARDINALITY < KEY_MAX
    ensures Run(tt, fs) && Longer(ss, tt) && |ss| < |tt|
    ensures SplitOff(End(ss), End(tt), q, level, x)
    ensures Ramped(End(tt), z', t', LEAF_MIDDLE) && t' <= t + Budget(level, RecordsOf(End(ss).pages[q]))
    ensures Whole(tt[|tt| - 2], q, level, End(ss).pages[q].lowest, End(ss).root)
    decreases level, INTERNAL_CARDINALITY - RecordsOf(End(ss).pages[q])
  {
    hide Inv, Enabled, Next, Ramped, Stable, Longer, SameAbove, Whole, Budget, Moves, Initial;
    var s := End(ss);
    if level == 0 {
      hide SplitOff, Quiet;
      ZeroLevel(s, q, z, t, n);
      tt, fs, x := SplitLeaf(ss, es, z, t, n);
      z', t' := x.child, t + LEAF_MIDDLE;
    } else {
      var a := LastChild(s, q, level);
      BudgetLess(level - 1, RecordsOf(s.pages[a]));
      BudgetStep(level, RecordsOf(s.pages[q]));
      var uu, gs, y;
      uu, gs, y, z', t' := SplitLast(ss, es, level - 1, a, z, t, n);
      var u := End(uu);
      LastBelow(s, q, a, level - 1);
      var e := Raise(s, u, q, a, y, level);
      var vv, hs := Extend(uu, gs, e);
      LongerTrans(ss, uu, vv);
      if e.Insert? {
        RaisedQuiet(s, u, q, a, y, level, z', t');
        tt, fs, x, z', t' := SplitLast(vv, hs, level, q, z', t', LEAF_MIDDLE);
        LongerTrans(ss, vv, tt);
        SplitOffTrans(s, End(vv), End(tt), q, level, x);
      } else {
        x := RaisedSplit(s, u, q, a, y, e.newAddr, level, z', t');
        WholeKept(s, u, q, a, y, level);
        tt, fs := vv, hs;
      }
    }
  }

  // ---------------------------------------------------------------- trees of any height

  /** From a quiet state a new root can be brought about. */
  lemma GrowOnce(ss: seq<State>, es: seq<Event>, z: GlobalAddress, t: Key, n: nat)
      returns (tt: seq<State>, fs: seq<Event>, z': GlobalAddress, t': Key)
    requires Run(ss, es) && Quiet(End(ss), z, t, n)
    requires t + Budget(End(ss).pages[End(ss).root].level, 0) + LEAF_CARDINALITY < KEY_MAX
    ensures Run(tt, fs) && Longer(ss, tt) && Quiet(End(tt), z', t', LEAF_MIDDLE)
    ensures End(tt).pages[End(tt).root].level == End(ss).pages[End(ss).root].level + 1
    ensures t' <= t + Budget(End(ss).pages[End(ss).root].level, 0)
  {
    hide Inv, Enabled, Next, Ramped, Stable, Longer, SameAbove, Whole, Budget, Moves, Initial;
    var s := End(ss);
    var level := RootIsLast(s, z, t, n);
    BudgetLess(level, RecordsOf(s.pages[s.root]));
    var uu, gs, x;
    uu, gs, x, z', t' := SplitLast(ss, es, level, s.root, z, t, n);
    var a := NewAddress(End(uu));
    CanGrow(s, End(uu), level, x, a, z', t');
    tt, fs := Extend(uu, gs, Grow(x, a));
    LongerTrans(ss, uu, tt);
  }

  lemma RootIsLast(s: State, z: GlobalAddress, t: Key, n: nat) returns (level: nat)
    requires Quiet(s, z, t, n)
    ensures s.root in s.pages && level == s.pages[s.root].level && IsLast(s, s.root, level)
    ensures RecordsOf(s.pages[s.root]) < INTERNAL_CARDINALITY
  {
    level := s.pages[s.root].level;
    var a := LastExists(s, level);
    if a != s.root {
      RootAlone(s, a);
    }
    assert PageOk(s.pages[s.root]) && !PageFull(s.pages[s.root]);
  }

  lemma CanGrow(s: State, u: State, level: nat, x: Separator, a: GlobalAddress, z: GlobalAddress, t: Key)
    requires s.root in s.pages && s.pages[s.root].level == level && SplitOff(s, u, s.root, level, x) && Unused(u, a)
    requires Ramped(u, z, t, LEAF_MIDDLE)
    ensures Enabled(u, Grow(x, a))
    ensures var v := Next(u, Grow(x, a));
            && v.pending == {} && Ramped(v, z, t, LEAF_MIDDLE)
            && v.root in v.pages && v.pages[v.root].level == level + 1
  {
    hide Inv, Ramp;
  }

  lemma BudgetNumbers()
    ensures Budget(0, 0) == 54 && Budget(1, 0) == 61 * 54 && Budget(2, 0) == 61 * 61 * 54
  {
  }

  /** There is a run to a tree whose root is at level 3, from where nodes cache level-1 pages. */
  lemma ThreeLevels() returns (ss: seq<State>, es: seq<Event>, z: GlobalAddress, t: Key)
    ensures Run(ss, es) && Quiet(End(ss), z, t, LEAF_MIDDLE) && End(ss).pages[End(ss).root].level == 3
    ensures t <= Budget(0, 0) + Budget(1, 0) + Budget(2, 0)
  {
    hide Budget, Inv, Ramped;
    var first := GlobalAddress(0, PAGE_SIZE);
    var s := State(map[first := EMPTY_LEAF], first, {});
    BudgetNumbers();
    FirstQuiet(s);
    ss, es, z, t := GrowOnce([s], [], first, 0, 0);
    ss, es, z, t := GrowOnce(ss, es, z, t, LEAF_MIDDLE);
    ss, es, z, t := GrowOnce(ss, es, z, t, LEAF_MIDDLE);
  }

  lemma FirstQuiet(s: State)
    requires Initial(s)
    ensures Quiet(s, s.root, 0, 0) && s.pages[s.root].level == 0
  {
    InitialInv(s);
    assert EMPTY_LEAF.entries == Ramp(0, 0);
  }

  /**
    There is a run to a tree of root level 3 in which, at its last step, a level-1 page splits: it had the
    range up to kKeyMax, and its right half takes a part of it away.
  */
  lemma LevelOneSplits() returns (ss: seq<State>, es: seq<Event>, q: GlobalAddress, right: GlobalAddress)
    ensures Run(ss, es) && 2 <= |ss|
    ensures var s, u := ss[|ss| - 2], End(ss);
            && s.root in s.pages && s.pages[s.root].level == 3 && IsLast(s, q, 1)
            && q in u.pages && u.pages[q].level == 1 && IsLast(u, right, 1)
            && s.pages[q].lowest == u.pages[q].lowest < u.pages[q].highest == u.pages[right].lowest < KEY_MAX
  {
    hide Budget, Ramped, SameAbove, Longer, Ramp, Moves, Initial, PagesOk, Linked, Apart, Parented, Pending, Reached, Filled, Room;
    var tt, fs, z, t := ThreeLevels();
    var s := End(tt);
    q := LevelOne(s, z, t);
    BudgetNumbers();
    BudgetLess(1, RecordsOf(s.pages[q]));
    var x, z', t';
    ss, es, x, z', t' := SplitLast(tt, fs, 1, q, z, t, LEAF_MIDDLE);
    right := x.child;
    SplitRange(tt, ss, es, q, right, x);
  }

  lemma LevelOne(s: State, z: GlobalAddress, t: Key) returns (q: GlobalAddress)
    requires Quiet(s, z, t, LEAF_MIDDLE) && s.pages[s.root].level == 3
    ensures IsLast(s, q, 1) && RecordsOf(s.pages[q]) < INTERNAL_CARDINALITY
  {
    q := LastExists(s, 1);
    assert !PageFull(s.pages[q]);
  }

  lemma SplitRange(tt: seq<State>, ss: seq<State>, es: seq<Event>, q: GlobalAddress, right: GlobalAddress, x: Separator)
    requires Run(ss, es) && 0 < |tt| < |ss| && Longer(tt, ss) && q in End(tt).pages && SplitOff(End(tt), End(ss), q, 1, x) && right == x.child
    requires Whole(ss[|ss| - 2], q, 1, End(tt).pages[q].lowest, End(tt).root)
    requires End(tt).root in End(tt).pages && End(tt).pages[End(tt).root].level == 3
    ensures var s, u := ss[|ss| - 2], End(ss);
            && s.root in s.pages && s.pages[s.root].level == 3
            && u.pages[q].highest == u.pages[right].lowest < KEY_MAX
  {
    hide Inv, Ramped, SameAbove, Moves, Initial;
    assert End(tt) == ss[|tt| - 1];
    RunStable(ss, es, |tt| - 1, |ss| - 2);
    LastRange(End(ss), right, 1);
  }

  lemma LastRange(s: State, a: GlobalAddress, level: nat)
    requires Inv(s) && IsLast(s, a, level)
    ensures s.pages[a].lowest < KEY_MAX
  {
    assert PageOk(s.pages[a]);
  }
}
