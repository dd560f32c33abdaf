/**
  Atomic steps of the tree, their effect on the key-value contents, and searches that read one page
  at a time while other clients keep changing the tree (src/Tree.cpp:405-459, 593-697).
*/
module Steps {
  import opened Layout
  import opened LeafPages
  import opened InternalPages
  import opened BLink

  /** One published page update. The split steps also publish the new sibling at `newAddr`. */
  datatype Event =
    | Store(a: GlobalAddress, k: Key, v: Value)
    | StoreSplit(a: GlobalAddress, k: Key, v: Value, newAddr: GlobalAddress)
    | Clear(a: GlobalAddress, k: Key)
    | Insert(a: GlobalAddress, x: Separator)
    | InsertSplit(a: GlobalAddress, x: Separator, newAddr: GlobalAddress)
    | Grow(x: Separator, newAddr: GlobalAddress)

  predicate LeafFor(s: State, a: GlobalAddress, k: Key) {
    a in s.pages && s.pages[a].LeafPage? && Covers(s.pages[a], k)
  }

  predicate ParentFor(s: State, a: GlobalAddress, x: Separator) {
    && x in s.pending && a in s.pages && s.pages[a].InternalPage?
    && s.pages[a].level == x.level && Covers(s.pages[a], x.key)
  }

  predicate Unused(s: State, a: GlobalAddress) {
    a !in s.pages && a != NULL
  }

  /** The lock holder has read the page, found that it covers the key, and counted its records. */
  predicate Enabled(s: State, e: Event) {
    match e
    case Store(a, k, v) =>
      LeafFor(s, a, k) && v != VALUE_NULL && !Full(Put(s.pages[a].entries, k, v))
    case StoreSplit(a, k, v, n) =>
      && LeafFor(s, a, k) && v != VALUE_NULL && Unused(s, n)
      && |s.pages[a].entries| == LEAF_CARDINALITY && Full(Put(s.pages[a].entries, k, v))
    case Clear(a, k) =>
      LeafFor(s, a, k)
    case Insert(a, x) =>
      ParentFor(s, a, x) && |InsertRecord(s.pages[a].records, x.key, x.child)| < INTERNAL_CARDINALITY
    case InsertSplit(a, x, n) =>
      ParentFor(s, a, x) && Unused(s, n) && |InsertRecord(s.pages[a].records, x.key, x.child)| == INTERNAL_CARDINALITY
    case Grow(x, n) =>
      x in s.pending && x.left == s.root && Unused(s, n)
  }

  function Next(s: State, e: Event): State
    requires Enabled(s, e)
  {
    match e
    case Store(a, k, v) => StoreIn(s, a, k, v)
    case StoreSplit(a, k, v, n) => SplitAt(StoreIn(s, a, k, v), a, n)
    case Clear(a, k) => ClearIn(s, a, k)
    case Insert(a, x) => InsertIn(s, a, x)
    case InsertSplit(a, x, n) => SplitAt(InsertIn(s, a, x), a, n)
    case Grow(x, n) => SwapRoot(s, x, n)
  }

  /** What a step does to the map the tree stands for. */
  function Abstract(e: Event, m: map<Key, Value>): map<Key, Value> {
    match e
    case Store(_, k, v) => m[k := v]
    case StoreSplit(_, k, v, _) => m[k := v]
    case Clear(_, k) => m - {k}
    case Insert(_, _) => m
    case InsertSplit(_, _, _) => m
    case Grow(_, _) => m
  }

  // ---------------------------------------------------------------- every step keeps the invariant

  lemma StoreKeeps(s: State, a: GlobalAddress, k: Key, v: Value)
    requires Inv(s) && LeafFor(s, a, k) && v != VALUE_NULL
    ensures Shape(StoreIn(s, a, k, v)) && Stable(s, StoreIn(s, a, k, v))
  {
    var p := s.pages[a];
    assert PageOk(p) && !PageFull(p);
    PutSpec(p.entries, k, v, p.lowest, p.highest);
    RewriteLeaf(s, StoreIn(s, a, k, v), a, p.(entries := Put(p.entries, k, v)));
  }

  lemma ClearKeeps(s: State, a: GlobalAddress, k: Key)
    requires Inv(s) && LeafFor(s, a, k)
    ensures Inv(ClearIn(s, a, k)) && Stable(s, ClearIn(s, a, k))
  {
    var p := s.pages[a];
    assert PageOk(p) && !PageFull(p);
    DeleteSpec(p.entries, k, p.lowest, p.highest);
    RewriteLeaf(s, ClearIn(s, a, k), a, p.(entries := Delete(p.entries, k)));
  }

  /** Only page `a` differs, and splitting it leaves room everywhere. */
  lemma SplitRoom(s: State, t: State, a: GlobalAddress, n: GlobalAddress)
    requires Room(s) && CanSplit(t, a, n)
    requires t.pages.Keys == s.pages.Keys && forall b :: b in s.pages && b != a ==> t.pages[b] == s.pages[b]
    ensures Room(SplitAt(t, a, n))
  {
    SplitPageSpec(t.pages[a], n);
  }

  lemma InsertKeeps(s: State, a: GlobalAddress, x: Separator)
    requires Inv(s) && ParentFor(s, a, x)
    ensures Shape(InsertIn(s, a, x)) && Stable(s, InsertIn(s, a, x))
  {
    assert !PageFull(s.pages[a]);
    assert PageOk(s.pages[a]);
    InsertShape(s, a, x);
  }

  lemma StoreSplitStep(s: State, a: GlobalAddress, k: Key, v: Value, n: GlobalAddress)
    requires Inv(s) && Enabled(s, StoreSplit(a, k, v, n))
    ensures Inv(Next(s, StoreSplit(a, k, v, n))) && Stable(s, Next(s, StoreSplit(a, k, v, n)))
  {
    var t := StoreIn(s, a, k, v);
    StoreKeeps(s, a, k, v);
    SplitNow(s, t, a, n);
    StableTrans(s, t, SplitAt(t, a, n));
  }

  lemma InsertSplitStep(s: State, a: GlobalAddress, x: Separator, n: GlobalAddress)
    requires Inv(s) && Enabled(s, InsertSplit(a, x, n))
    ensures Inv(Next(s, InsertSplit(a, x, n))) && Stable(s, Next(s, InsertSplit(a, x, n)))
  {
    hide PagesOk, Rooted, Linked, Apart, Parented, Pending, Reached, Filled, Room, Stable, SplitAt, InsertRecord;
    var t := InsertIn(s, a, x);
    InsertKeeps(s, a, x);
    SplitNow(s, t, a, n);
    StableTrans(s, t, SplitAt(t, a, n));
  }

  lemma SplitNow(s: State, t: State, a: GlobalAddress, n: GlobalAddress)
    requires Room(s) && Shape(t) && a in t.pages && PageFull(t.pages[a]) && Unused(t, n)
    requires t.pages.Keys == s.pages.Keys && forall b :: b in s.pages && b != a ==> t.pages[b] == s.pages[b]
    ensures Splittable(t.pages[a]) && Inv(SplitAt(t, a, n)) && Stable(t, SplitAt(t, a, n))
  {
    assert PageOk(t.pages[a]);
    SplitRoom(s, t, a, n);
    SplitShape(t, a, n);
  }

  lemma StableTrans(s: State, t: State, u: State)
    requires Stable(s, t) && Stable(t, u)
    ensures Stable(s, u)
  {
  }

  lemma GrowStep(s: State, x: Separator, n: GlobalAddress)
    requires Inv(s) && Enabled(s, Grow(x, n))
    ensures Inv(Next(s, Grow(x, n))) && Stable(s, Next(s, Grow(x, n)))
  {
    SwapShape(s, x, n);
    GrowRoom(s, x, n);
  }

  lemma GrowRoom(s: State, x: Separator, n: GlobalAddress)
    requires Room(s)
    ensures Room(SwapRoot(s, x, n))
  {
  }

  lemma StoreStep(s: State, a: GlobalAddress, k: Key, v: Value)
    requires Inv(s) && Enabled(s, Store(a, k, v))
    ensures Inv(Next(s, Store(a, k, v))) && Stable(s, Next(s, Store(a, k, v)))
  {
    StoreRoom(s, a, k, v);
    StoreKeeps(s, a, k, v);
  }

  lemma StoreRoom(s: State, a: GlobalAddress, k: Key, v: Value)
    requires Room(s) && Enabled(s, Store(a, k, v))
    ensures Room(StoreIn(s, a, k, v))
  {
  }

  lemma InsertStep(s: State, a: GlobalAddress, x: Separator)
    requires Inv(s) && Enabled(s, Insert(a, x))
    ensures Inv(Next(s, Insert(a, x))) && Stable(s, Next(s, Insert(a, x)))
  {
    InsertRoom(s, a, x);
    InsertKeeps(s, a, x);
  }

  lemma InsertRoom(s: State, a: GlobalAddress, x: Separator)
    requires Room(s) && Enabled(s, Insert(a, x))
    ensures Room(InsertIn(s, a, x))
  {
  }

  /** Every step of every client keeps the B-link invariant and undoes nothing stable. */
  lemma StepInv(s: State, e: Event)
    requires Inv(s) && Enabled(s, e)
    ensures Inv(Next(s, e)) && Stable(s, Next(s, e))
  {
    match e
    case Store(a, k, v) => StoreStep(s, a, k, v);
    case StoreSplit(a, k, v, n) => StoreSplitStep(s, a, k, v, n);
    case Clear(a, k) => ClearKeeps(s, a, k);
    case Insert(a, x) => InsertStep(s, a, x);
    case InsertSplit(a, x, n) => InsertSplitStep(s, a, x, n);
    case Grow(x, n) => GrowStep(s, x, n);
  }

  // ---------------------------------------------------------------- contents

  predicate LeafBinds(p: Page, k: Key, v: Value) {
    p.LeafPage? && Has(p.entries, k, v)
  }

  ghost predicate Binds(s: State, k: Key, v: Value) {
    exists a :: a in s.pages && LeafBinds(s.pages[a], k, v)
  }

  /** `m` is exactly the set of live bindings of the leaves. */
  ghost predicate Represents(s: State, m: map<Key, Value>) {
    forall k, v :: Binds(s, k, v) <==> k in m && m[k] == v
  }

  lemma BindsCovered(s: State, a: GlobalAddress, k: Key, v: Value)
    requires PagesOk(s) && a in s.pages && LeafBinds(s.pages[a], k, v)
    ensures Covers(s.pages[a], k)
  {
  }

  /** Pages of one level that cover a common key are the same page. */
  lemma CoverUnique(s: State, a: GlobalAddress, b: GlobalAddress, k: Key)
    requires Apart(s) && a in s.pages && b in s.pages && s.pages[a].level == s.pages[b].level
    requires Covers(s.pages[a], k) && Covers(s.pages[b], k)
    ensures a == b
  {
  }

  /** A key is bound exactly as the one leaf that covers it binds it. */
  lemma BindsAt(s: State, a: GlobalAddress, k: Key, v: Value)
    requires PagesOk(s) && Apart(s) && LeafFor(s, a, k)
    ensures Binds(s, k, v) <==> LeafBinds(s.pages[a], k, v)
  {
  }

  /** A leaf rewritten with the bindings `k := w` (or without `k`) changes only the binding of `k`. */
  lemma RewriteBinds(s: State, t: State, a: GlobalAddress, k: Key, k': Key, v': Value)
    requires PagesOk(s) && Apart(s) && PagesOk(t) && Apart(t) && LeafFor(s, a, k) && LeafFor(t, a, k)
    requires t.pages.Keys == s.pages.Keys && forall b :: b in s.pages && b != a ==> t.pages[b] == s.pages[b]
    requires k' != k ==> (LeafBinds(t.pages[a], k', v') <==> LeafBinds(s.pages[a], k', v'))
    ensures k' != k ==> (Binds(t, k', v') <==> Binds(s, k', v'))
    ensures k' == k ==> (Binds(t, k', v') <==> LeafBinds(t.pages[a], k', v'))
  {
    if k' == k {
      BindsAt(t, a, k, v');
    } else {
      if Binds(s, k', v') {
        var b :| b in s.pages && LeafBinds(s.pages[b], k', v');
        assert LeafBinds(t.pages[b], k', v');
      }
      if Binds(t, k', v') {
        var b :| b in t.pages && LeafBinds(t.pages[b], k', v');
        assert LeafBinds(s.pages[b], k', v');
      }
    }
  }

  lemma StoreBinds(s: State, a: GlobalAddress, k: Key, v: Value, m: map<Key, Value>)
    requires Inv(s) && LeafFor(s, a, k) && v != VALUE_NULL && Represents(s, m)
    ensures Represents(StoreIn(s, a, k, v), m[k := v])
  {
    var t, p := StoreIn(s, a, k, v), s.pages[a];
    assert PageOk(p) && !PageFull(p);
    PutSpec(p.entries, k, v, p.lowest, p.highest);
    StoreKeeps(s, a, k, v);
    forall k', v' ensures Binds(t, k', v') <==> k' in m[k := v] && m[k := v][k'] == v' {
      RewriteBinds(s, t, a, k, k', v');
      assert Binds(s, k', v') <==> k' in m && m[k'] == v';
    }
  }

  lemma ClearBinds(s: State, a: GlobalAddress, k: Key, m: map<Key, Value>)
    requires Inv(s) && LeafFor(s, a, k) && Represents(s, m)
    ensures Represents(ClearIn(s, a, k), m - {k})
  {
    var t, p := ClearIn(s, a, k), s.pages[a];
    assert PageOk(p);
    DeleteSpec(p.entries, k, p.lowest, p.highest);
    ClearKeeps(s, a, k);
    forall k', v' ensures Binds(t, k', v') <==> k' in m - {k} && (m - {k})[k'] == v' {
      RewriteBinds(s, t, a, k, k', v');
      assert Binds(s, k', v') <==> k' in m && m[k'] == v';
    }
  }

  /** A split moves bindings between two pages and changes none. */
  lemma SplitBinds(s: State, a: GlobalAddress, n: GlobalAddress, k: Key, v: Value)
    requires CanSplit(s, a, n)
    ensures Binds(SplitAt(s, a, n), k, v) <==> Binds(s, k, v)
  {
    var t, p := SplitAt(s, a, n), s.pages[a];
    if p.LeafPage? {
      LeafSplitSpec(p.entries, p.lowest, p.highest);
    }
    assert LeafBinds(p, k, v) <==> LeafBinds(t.pages[a], k, v) || LeafBinds(t.pages[n], k, v);
    if Binds(s, k, v) {
      var b :| b in s.pages && LeafBinds(s.pages[b], k, v);
      assert LeafBinds(t.pages[b], k, v) || LeafBinds(t.pages[n], k, v);
    }
    if Binds(t, k, v) {
      var b :| b in t.pages && LeafBinds(t.pages[b], k, v);
      assert LeafBinds(s.pages[if b == n then a else b], k, v);
    }
  }

  lemma SplitRepresents(s: State, a: GlobalAddress, n: GlobalAddress, m: map<Key, Value>)
    requires CanSplit(s, a, n) && Represents(s, m)
    ensures Represents(SplitAt(s, a, n), m)
  {
    forall k, v ensures Binds(SplitAt(s, a, n), k, v) <==> k in m && m[k] == v {
      SplitBinds(s, a, n, k, v);
    }
  }

  lemma InsertRepresents(s: State, a: GlobalAddress, x: Separator, m: map<Key, Value>)
    requires a in s.pages && s.pages[a].InternalPage? && Represents(s, m)
    ensures Represents(InsertIn(s, a, x), m)
  {
    var t := InsertIn(s, a, x);
    forall k, v ensures Binds(t, k, v) <==> Binds(s, k, v) {
      if Binds(s, k, v) {
        var b :| b in s.pages && LeafBinds(s.pages[b], k, v);
        assert LeafBinds(t.pages[b], k, v);
      }
      if Binds(t, k, v) {
        var b :| b in t.pages && LeafBinds(t.pages[b], k, v);
        assert LeafBinds(s.pages[b], k, v);
      }
    }
  }

  lemma GrowRepresents(s: State, x: Separator, n: GlobalAddress, m: map<Key, Value>)
    requires Unused(s, n) && Represents(s, m)
    ensures Represents(SwapRoot(s, x, n), m)
  {
    var t := SwapRoot(s, x, n);
    forall k, v ensures Binds(t, k, v) <==> Binds(s, k, v) {
      if Binds(s, k, v) {
        var b :| b in s.pages && LeafBinds(s.pages[b], k, v);
        assert LeafBinds(t.pages[b], k, v);
      }
      if Binds(t, k, v) {
        var b :| b in t.pages && LeafBinds(t.pages[b], k, v);
        assert LeafBinds(s.pages[b], k, v);
      }
    }
  }

  /** Every step refines its map operation: only the key being stored or deleted changes. */
  lemma StepRefines(s: State, e: Event, m: map<Key, Value>)
    requires Inv(s) && Enabled(s, e) && Represents(s, m)
    ensures Represents(Next(s, e), Abstract(e, m))
  {
    match e
    case Store(a, k, v) => StoreBinds(s, a, k, v, m);
    case StoreSplit(a, k, v, n) =>
      StoreBinds(s, a, k, v, m);
      StoreKeeps(s, a, k, v);
      assert PageOk(StoreIn(s, a, k, v).pages[a]);
      SplitRepresents(StoreIn(s, a, k, v), a, n, m[k := v]);
    case Clear(a, k) => ClearBinds(s, a, k, m);
    case Insert(a, x) => InsertRepresents(s, a, x, m);
    case InsertSplit(a, x, n) =>
      InsertRepresents(s, a, x, m);
      InsertKeeps(s, a, x);
      assert PageOk(InsertIn(s, a, x).pages[a]);
      SplitRepresents(InsertIn(s, a, x), a, n, m);
    case Grow(x, n) => GrowRepresents(s, x, n, m);
  }

  // ---------------------------------------------------------------- searching

  /** A position from which the search for `k` can go on. */
  predicate At(s: State, a: GlobalAddress, k: Key) {
    a in s.pages && s.pages[a].lowest <= k
  }

  datatype ReadResult = Move(to: GlobalAddress) | Done(value: Value)

  /**
    One page read of a search: turn right, go down, or answer. A leaf that ends before the key answers
    too when it has no sibling: the key is not there.
  */
  function ReadStep(s: State, a: GlobalAddress, k: Key): ReadResult
    requires a in s.pages
  {
    var p := s.pages[a];
    if p.highest <= k then
      if p.LeafPage? && p.sibling == NULL then Done(VALUE_NULL) else Move(p.sibling)
    else match p
         case LeafPage(_, _, _, _, es) => Done(Lookup(es, k))
         case InternalPage(_, _, _, _, _, _) => Move(Route(p, k))
  }

  /** `v` answers a lookup of `k`: its value, or null when it is unbound. */
  ghost predicate Answers(s: State, k: Key, v: Value) {
    if v == VALUE_NULL then forall w :: !Binds(s, k, w) else Binds(s, k, v)
  }

  /** Going down lands on a page one level below that starts between the page and the key. */
  lemma RouteDown(s: State, a: GlobalAddress, k: Key)
    requires PagesOk(s) && Parented(s) && a in s.pages && s.pages[a].InternalPage? && Covers(s.pages[a], k)
    ensures var c := Route(s.pages[a], k);
            && At(s, c, k) && s.pages[c].level == s.pages[a].level - 1 && s.pages[a].lowest <= s.pages[c].lowest
  {
    var p := s.pages[a];
    assert PageOk(p) && ChildrenOk(s.pages, p);
    assert ChildOk(s.pages, p, RouteFrom(p.records, k, 0));
  }

  lemma TurnRight(s: State, a: GlobalAddress, k: Key)
    requires PagesOk(s) && Linked(s) && a in s.pages && s.pages[a].highest <= k < KEY_MAX
    ensures var c := s.pages[a].sibling;
            && c != NULL && At(s, c, k) && s.pages[c].level == s.pages[a].level && s.pages[a].lowest < s.pages[c].lowest
  {
  }

  /**
    A read from a valid position either answers correctly for the state it read, or moves to a valid
    position that is strictly closer: lower, or further right on the same level.
  */
  lemma ReadStepSpec(s: State, a: GlobalAddress, k: Key)
    requires PagesOk(s) && Linked(s) && Apart(s) && Parented(s) && At(s, a, k) && k < KEY_MAX
    ensures match ReadStep(s, a, k)
            case Done(v) => LeafFor(s, a, k) && Answers(s, k, v)
            case Move(b) => At(s, b, k) && (s.pages[b].level < s.pages[a].level
                                            || (s.pages[b].level == s.pages[a].level && s.pages[a].lowest < s.pages[b].lowest))
  {
    var p := s.pages[a];
    if p.highest <= k {
      TurnRight(s, a, k);
    } else if p.InternalPage? {
      RouteDown(s, a, k);
      assert PageOk(p);
    } else {
      AnswerAt(s, a, k);
    }
  }

  lemma AnswerAt(s: State, a: GlobalAddress, k: Key)
    requires PagesOk(s) && Apart(s) && LeafFor(s, a, k)
    ensures Answers(s, k, Lookup(s.pages[a].entries, k))
  {
  }

  /**
    Search in a fixed state from any valid start, such as a page that used to be the root: it
    terminates, lowering (level, distance of `lowest` from the end of the key space).
  */
  function Find(s: State, a: GlobalAddress, k: Key): (leaf: GlobalAddress)
    requires PagesOk(s) && Linked(s) && Apart(s) && Parented(s) && At(s, a, k) && k < KEY_MAX
    ensures LeafFor(s, leaf, k)
    decreases s.pages[a].level, KEY_MAX - s.pages[a].lowest
  {
    ReadStepSpec(s, a, k);
    match ReadStep(s, a, k)
    case Done(_) => a
    case Move(b) => Find(s, b, k)
  }

  /** Every start leads to the same leaf, the only one covering the key, and to the map's answer. */
  lemma FindSpec(s: State, a: GlobalAddress, b: GlobalAddress, k: Key, m: map<Key, Value>)
    requires Inv(s) && At(s, a, k) && At(s, b, k) && k < KEY_MAX && Represents(s, m)
    ensures Find(s, a, k) == Find(s, b, k)
    ensures Lookup(s.pages[Find(s, a, k)].entries, k) == if k in m then m[k] else VALUE_NULL
  {
    var c, d := Find(s, a, k), Find(s, b, k);
    assert PageOk(s.pages[c]) && PageOk(s.pages[d]);
    CoverUnique(s, c, d, k);
    AnswerAt(s, c, k);
    var v := Lookup(s.pages[c].entries, k);
    if k in m {
      assert Binds(s, k, m[k]);
    }
  }

  // ---------------------------------------------------------------- the greatest key

  /** A read that does not answer leads to a page that is strictly closer, or to no page at all. */
  lemma MoveCloser(s: State, a: GlobalAddress, k: Key)
    requires Inv(s) && At(s, a, k)
    ensures s.pages[a].lowest < KEY_MAX
    ensures ReadStep(s, a, k).Move? && ReadStep(s, a, k).to in s.pages ==>
              var b := ReadStep(s, a, k).to;
              At(s, b, k) && (s.pages[b].level < s.pages[a].level
                              || (s.pages[b].level == s.pages[a].level && s.pages[a].lowest < s.pages[b].lowest))
  {
    assert PageOk(s.pages[a]) && LinkOk(s.pages, s.pages[a]);
    if k < KEY_MAX {
      ReadStepSpec(s, a, k);
    }
  }

  /** What a search for any key comes to in a fixed state: its answer, or the address it gets lost at. */
  function Outcome(s: State, a: GlobalAddress, k: Key): ReadResult
    requires Inv(s) && At(s, a, k)
    decreases s.pages[a].level, KEY_MAX - s.pages[a].lowest
  {
    MoveCloser(s, a, k);
    match ReadStep(s, a, k)
    case Done(v) => Done(v)
    case Move(b) => if b in s.pages then MoveCloser(s, b, k); Outcome(s, b, k) else Move(b)
  }

  lemma BoundBelow(s: State, k: Key, v: Value)
    requires PagesOk(s) && Binds(s, k, v)
    ensures k < KEY_MAX
  {
    var b :| b in s.pages && LeafBinds(s.pages[b], k, v);
    BindsCovered(s, b, k, v);
    assert PageOk(s.pages[b]);
  }

  /** The rightmost page of a level sends keys from kKeyMax on to the null address, unless it is a leaf. */
  lemma PastTheEnd(s: State, a: GlobalAddress, k: Key)
    requires Inv(s) && a in s.pages && KEY_MAX <= k
    ensures s.pages[a].sibling == NULL && s.pages[a].LeafPage? ==> ReadStep(s, a, k) == Done(VALUE_NULL) && Answers(s, k, VALUE_NULL)
    ensures s.pages[a].sibling == NULL && s.pages[a].InternalPage? ==> ReadStep(s, a, k) == Move(NULL)
    ensures s.pages[a].sibling != NULL ==>
              var b := s.pages[a].sibling;
              ReadStep(s, a, k) == Move(b) && b in s.pages && s.pages[b].level == s.pages[a].level
    ensures s.pages[a].LeafPage? <==> s.pages[a].level == 0
  {
    assert PageOk(s.pages[a]) && LinkOk(s.pages, s.pages[a]);
    forall w ensures !Binds(s, k, w) {
      if Binds(s, k, w) {
        BoundBelow(s, k, w);
      }
    }
  }

  /**
    A search ends with the right answer exactly when its key is below kKeyMax or it starts at a leaf.
    Otherwise, `highest` being exclusive, it walks its level to the end and gets lost at the null address.
  */
  lemma {:induction false} AnswerableIff(s: State, a: GlobalAddress, k: Key)
    requires Inv(s) && At(s, a, k)
    ensures Outcome(s, a, k).Done? <==> k < KEY_MAX || s.pages[a].level == 0
    ensures match Outcome(s, a, k) case Done(v) => Answers(s, k, v) case Move(b) => b == NULL
    decreases s.pages[a].level, KEY_MAX - s.pages[a].lowest
  {
    hide Inv, ReadStep, Answers;
    MoveCloser(s, a, k);
    if k < KEY_MAX {
      ReadBelow(s, a, k);
    } else {
      PastTheEnd(s, a, k);
    }
    NoNullPage(s);
    match ReadStep(s, a, k)
    case Done(_) =>
    case Move(b) =>
      if b in s.pages {
        AnswerableIff(s, b, k);
      }
  }

  lemma NoNullPage(s: State)
    requires Inv(s)
    ensures NULL !in s.pages
  {
  }

  lemma ReadBelow(s: State, a: GlobalAddress, k: Key)
    requires Inv(s) && At(s, a, k) && k < KEY_MAX
    ensures match ReadStep(s, a, k) case Done(v) => Answers(s, k, v) case Move(b) => b in s.pages
  {
    ReadStepSpec(s, a, k);
  }

  /**
    The assertion that a page ending before the key has a sibling, made by insertions and deletions at
    a locked page, holds on every page exactly for the keys below kKeyMax.
  */
  lemma SiblingAssertIff(s: State, k: Key)
    requires Inv(s)
    ensures k < KEY_MAX <==> forall a :: a in s.pages && s.pages[a].highest <= k ==> s.pages[a].sibling != NULL
  {
    forall a | a in s.pages ensures s.pages[a].sibling != NULL <==> s.pages[a].highest < KEY_MAX {
      assert PageOk(s.pages[a]) && LinkOk(s.pages, s.pages[a]);
    }
    if KEY_MAX <= k {
      var leaf := Find(s, s.root, KEY_MAX - 1);
      assert PageOk(s.pages[leaf]);
    }
  }
}
