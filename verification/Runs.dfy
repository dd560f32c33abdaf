/**
  Whole runs of the tree: what holds at every moment, what a page image read long ago is still good
  for, how the ranges of pages nest over time, and how roots follow one another.
*/
module Runs {
  import opened Layout
  import opened LeafPages
  import opened InternalPages
  import opened BLink
  import opened Steps

  /** The tree as the constructor leaves it: one empty leaf, installed as the root. */
  ghost predicate Initial(s: State) {
    s.root != NULL && s == State(map[s.root := EMPTY_LEAF], s.root, {})
  }

  ghost predicate Moves(s: State, e: Event, t: State) {
    Enabled(s, e) && t == Next(s, e)
  }

  /** Any interleaving of the steps of any number of clients. */
  ghost predicate Run(ss: seq<State>, es: seq<Event>) {
    |ss| == |es| + 1 && Initial(ss[0]) && forall i :: 0 <= i < |es| ==> Moves(ss[i], es[i], ss[i + 1])
  }

  lemma InitialInv(s: State)
    requires Initial(s)
    ensures Inv(s) && Represents(s, map[])
  {
    assert !Live(EMPTY_LEAF.entries[0]);
    assert forall e :: e in EMPTY_LEAF.entries ==> e == EMPTY_ENTRY;
  }

  lemma {:induction false} RunInv(ss: seq<State>, es: seq<Event>, i: nat)
    requires Run(ss, es) && i < |ss|
    ensures Inv(ss[i])
  {
    if i == 0 {
      InitialInv(ss[0]);
    } else {
      RunInv(ss, es, i - 1);
      assert Moves(ss[i - 1], es[i - 1], ss[i]);
      StepInv(ss[i - 1], es[i - 1]);
    }
  }

  lemma RunStep(ss: seq<State>, es: seq<Event>, i: nat)
    requires Run(ss, es) && i < |es|
    ensures Stable(ss[i], ss[i + 1])
  {
    RunInv(ss, es, i);
    assert Moves(ss[i], es[i], ss[i + 1]);
    StepInv(ss[i], es[i]);
  }

  lemma RunStable(ss: seq<State>, es: seq<Event>, i: nat, j: nat)
    requires Run(ss, es) && i <= j < |ss|
    ensures Stable(ss[i], ss[j])
  {
    forall n | 0 <= n < |ss| - 1 ensures Stable(ss[n], ss[n + 1]) {
      RunStep(ss, es, n);
    }
    StableSpan(ss, i, j);
  }

  lemma {:induction false} StableSpan(ss: seq<State>, i: nat, j: nat)
    requires i <= j < |ss| && forall n :: 0 <= n < |ss| - 1 ==> Stable(ss[n], ss[n + 1])
    ensures Stable(ss[i], ss[j])
    decreases j
  {
    if i < j {
      StableSpan(ss, i, j - 1);
      assert Stable(ss[j - 1], ss[j - 1 + 1]);
      StableTrans(ss[i], ss[j - 1], ss[j]);
    }
  }

  /** The map obtained by applying the map operation of every step in order. */
  function Replay(es: seq<Event>): map<Key, Value> {
    if es == [] then map[] else Abstract(es[|es| - 1], Replay(es[..|es| - 1]))
  }

  /** At every moment of every run the leaves hold exactly the replayed map. */
  lemma {:induction false} RunRefines(ss: seq<State>, es: seq<Event>, i: nat)
    requires Run(ss, es) && i < |ss|
    ensures Represents(ss[i], Replay(es[..i]))
  {
    if i == 0 {
      InitialInv(ss[0]);
    } else {
      RunRefines(ss, es, i - 1);
      RunInv(ss, es, i - 1);
      assert Moves(ss[i - 1], es[i - 1], ss[i]);
      assert es[..i][..i - 1] == es[..i - 1];
      StepRefines(ss[i - 1], es[i - 1], Replay(es[..i - 1]));
    }
  }

  // ---------------------------------------------------------------- searches during a run

  /** `a` was the root at some moment up to `i`. */
  ghost predicate WasRoot(ss: seq<State>, i: nat, a: GlobalAddress) {
    exists r :: 0 <= r <= i && r < |ss| && ss[r].root == a
  }

  /** The next position of a search: where its read leads, or a root captured earlier to start again from. */
  ghost predicate GoesOn(ss: seq<State>, i: nat, k: Key, a: GlobalAddress, b: GlobalAddress)
    requires i < |ss|
  {
    (a in ss[i].pages && ReadStep(ss[i], a, k) == Move(b)) || WasRoot(ss, i, b)
  }

  /**
    A search made of page reads at the moments `when`, each on the page the previous read led to,
    while the tree keeps changing in between. It may start at any page that does not start after the
    key, such as a former root or a leaf found through a cached image, and after the rejection of that
    leaf goes on from a root.
  */
  ghost predicate SearchTrace(ss: seq<State>, k: Key, start: nat, when: seq<nat>, pos: seq<GlobalAddress>) {
    && 0 < |when| == |pos| && start < |ss|
    && (forall i :: 0 <= i < |when| ==> start <= when[i] < |ss|)
    && (forall i, j :: 0 <= i < j < |when| ==> when[i] <= when[j])
    && At(ss[start], pos[0], k)
    && (forall i :: 0 <= i < |when| - 1 ==> GoesOn(ss, when[i], k, pos[i], pos[i + 1]))
  }

  lemma {:induction false} SearchStays(ss: seq<State>, es: seq<Event>, k: Key, start: nat, when: seq<nat>, pos: seq<GlobalAddress>, i: nat)
    requires Run(ss, es) && k < KEY_MAX && SearchTrace(ss, k, start, when, pos) && i < |when|
    ensures At(ss[when[i]], pos[i], k)
  {
    if i == 0 {
      RunStable(ss, es, start, when[0]);
    } else {
      SearchStays(ss, es, k, start, when, pos, i - 1);
      assert GoesOn(ss, when[i - 1], k, pos[i - 1], pos[i - 1 + 1]);
      NextStays(ss, es, when[i - 1], k, pos[i - 1], pos[i]);
      RunStable(ss, es, when[i - 1], when[i]);
    }
  }

  lemma NextStays(ss: seq<State>, es: seq<Event>, i: nat, k: Key, a: GlobalAddress, b: GlobalAddress)
    requires Run(ss, es) && i < |ss| && k < KEY_MAX && At(ss[i], a, k) && GoesOn(ss, i, k, a, b)
    ensures At(ss[i], b, k)
  {
    hide Run;
    if WasRoot(ss, i, b) {
      var r :| 0 <= r <= i && r < |ss| && ss[r].root == b;
      RootIsStart(ss, es, r, k);
      RunStable(ss, es, r, i);
    } else {
      ReadDuringRun(ss, es, i, a, k);
    }
  }

  lemma RootIsStart(ss: seq<State>, es: seq<Event>, i: nat, k: Key)
    requires Run(ss, es) && i < |ss|
    ensures At(ss[i], ss[i].root, k)
  {
    RunInv(ss, es, i);
  }

  /** A read made during a run leads on, or answers with the binding of that very moment. */
  lemma ReadDuringRun(ss: seq<State>, es: seq<Event>, i: nat, a: GlobalAddress, k: Key)
    requires Run(ss, es) && i < |ss| && At(ss[i], a, k) && k < KEY_MAX
    ensures match ReadStep(ss[i], a, k)
            case Move(b) => At(ss[i], b, k)
            case Done(v) => v == var m := Replay(es[..i]); if k in m then m[k] else VALUE_NULL
  {
    RunInv(ss, es, i);
    ReadStepSpec(ss[i], a, k);
    RunRefines(ss, es, i);
    match ReadStep(ss[i], a, k)
    case Move(_) =>
    case Done(v) => AnswerIsMapped(ss[i], Replay(es[..i]), k, v);
  }

  lemma AnswerIsMapped(s: State, m: map<Key, Value>, k: Key, v: Value)
    requires Represents(s, m) && Answers(s, k, v)
    ensures v == if k in m then m[k] else VALUE_NULL
  {
    if k in m {
      assert Binds(s, k, m[k]);
    } else {
      assert !Binds(s, k, v);
    }
  }

  /**
    However many splits, insertions and root changes happen between its reads, a search that ends
    returns what the map holds for its key at the moment of its last read.
  */
  lemma ConcurrentSearch(ss: seq<State>, es: seq<Event>, k: Key, start: nat, when: seq<nat>, pos: seq<GlobalAddress>, v: Value)
    requires Run(ss, es) && k < KEY_MAX && SearchTrace(ss, k, start, when, pos)
    requires var n := |when| - 1;
             pos[n] in ss[when[n]].pages && ReadStep(ss[when[n]], pos[n], k) == Done(v)
    ensures var m := Replay(es[..when[|when| - 1]]);
            v == if k in m then m[k] else VALUE_NULL
  {
    var n := |when| - 1;
    SearchStays(ss, es, k, start, when, pos, n);
    ReadDuringRun(ss, es, when[n], pos[n], k);
  }

  // ---------------------------------------------------------------- page images read long ago

  /**
    An image of a level-1 page taken at moment `i` routes every key it covers to a leaf that, at any
    later moment, still starts at or below the key.
  */
  lemma ImageRoutes(ss: seq<State>, es: seq<Event>, i: nat, j: nat, a: GlobalAddress, k: Key)
    requires Run(ss, es) && i <= j < |ss|
    requires a in ss[i].pages && ss[i].pages[a].level == 1 && Covers(ss[i].pages[a], k)
    ensures ss[i].pages[a].InternalPage?
    ensures var c := Route(ss[i].pages[a], k);
            At(ss[j], c, k) && ss[j].pages[c].LeafPage?
  {
    RunInv(ss, es, i);
    RunInv(ss, es, j);
    assert PageOk(ss[i].pages[a]);
    RouteDown(ss[i], a, k);
    RunStable(ss, es, i, j);
    assert PageOk(ss[j].pages[Route(ss[i].pages[a], k)]);
  }

  /**
    The check made on a leaf reached through a cached image accepts exactly when that leaf is the one
    descent from the root finds; then both read the same binding. A rejection always means that the
    key lies to the right of the leaf, never to the left.
  */
  lemma CachedDescent(ss: seq<State>, es: seq<Event>, i: nat, j: nat, a: GlobalAddress, k: Key)
    requires Run(ss, es) && i <= j < |ss|
    requires a in ss[i].pages && ss[i].pages[a].level == 1 && Covers(ss[i].pages[a], k)
    ensures ss[i].pages[a].InternalPage?
    ensures Inv(ss[j]) && At(ss[j], ss[j].root, k) && k < KEY_MAX
    ensures var c, s := Route(ss[i].pages[a], k), ss[j];
            && c in s.pages
            && (Covers(s.pages[c], k) <==> c == Find(s, s.root, k))
            && (!Covers(s.pages[c], k) ==> s.pages[c].highest <= k)
  {
    ImageRoutes(ss, es, i, j, a, k);
    RunInv(ss, es, i);
    RunInv(ss, es, j);
    assert PageOk(ss[i].pages[a]);
    var c, s := Route(ss[i].pages[a], k), ss[j];
    var leaf := Find(s, s.root, k);
    assert PageOk(s.pages[c]) && PageOk(s.pages[leaf]);
    if Covers(s.pages[c], k) {
      CoverUnique(s, c, leaf, k);
    }
  }

  // ---------------------------------------------------------------- ranges over time

  predicate Within(q: Page, p: Page) {
    p.lowest <= q.lowest && q.highest <= p.highest
  }

  /** Every page of `s` on the level of `p` lies within the range of `p` or outside it. */
  ghost predicate Nests(s: State, p: Page) {
    forall b :: b in s.pages && s.pages[b].level == p.level ==> Within(s.pages[b], p) || Disjoint(s.pages[b], p)
  }

  /** The range of page `b` of `t` lies within a page of `s` on its level, or the level is new. */
  ghost predicate From(s: State, t: State, b: GlobalAddress)
    requires b in t.pages
  {
    || (exists a :: a in s.pages && s.pages[a].level == t.pages[b].level && Within(t.pages[b], s.pages[a]))
    || (s.root in s.pages && s.pages[s.root].level < t.pages[b].level)
  }

  ghost predicate Refined(s: State, t: State) {
    forall b :: b in t.pages ==> From(s, t, b)
  }

  lemma SplitHalfWithin(s: State, e: Event)
    requires Inv(s) && Enabled(s, e) && (e.StoreSplit? || e.InsertSplit?)
    ensures Within(Next(s, e).pages[e.newAddr], s.pages[e.a])
    ensures Next(s, e).pages[e.newAddr].level == s.pages[e.a].level
  {
    if e.StoreSplit? {
      StoreKeeps(s, e.a, e.k, e.v);
      var t := StoreIn(s, e.a, e.k, e.v);
      assert PageOk(t.pages[e.a]);
      SplitPageSpec(t.pages[e.a], e.newAddr);
    } else {
      InsertKeeps(s, e.a, e.x);
      var t := InsertIn(s, e.a, e.x);
      assert PageOk(t.pages[e.a]);
      SplitPageSpec(t.pages[e.a], e.newAddr);
    }
  }

  lemma GrowAbove(s: State, e: Event)
    requires Inv(s) && Enabled(s, e) && e.Grow?
    ensures s.root in s.pages && s.pages[s.root].level < Next(s, e).pages[e.newAddr].level
  {
  }

  lemma NewPageFrom(s: State, e: Event)
    requires Inv(s) && Enabled(s, e)
    ensures forall b :: b in Next(s, e).pages && b !in s.pages ==> From(s, Next(s, e), b)
  {
    NewPages(s, e);
    hide Inv, Enabled, Next, Within;
    if e.StoreSplit? || e.InsertSplit? {
      SplitHalfWithin(s, e);
    } else if e.Grow? {
      GrowAbove(s, e);
    }
  }

  lemma NewPages(s: State, e: Event)
    requires Enabled(s, e)
    ensures e.StoreSplit? || e.InsertSplit? ==> e.a in s.pages && e.newAddr in Next(s, e).pages
    ensures e.Grow? ==> e.newAddr in Next(s, e).pages
    ensures forall b :: b in Next(s, e).pages && b !in s.pages ==> (e.StoreSplit? || e.InsertSplit? || e.Grow?) && b == e.newAddr
  {
  }

  lemma RefinedIntro(s: State, t: State)
    requires Stable(s, t) && forall b :: b in t.pages && b !in s.pages ==> From(s, t, b)
    ensures Refined(s, t)
  {
  }

  lemma StepNests(ss: seq<State>, es: seq<Event>, i: nat, p: Page)
    requires Run(ss, es) && i < |es| && Nests(ss[i], p)
    requires ss[i].root in ss[i].pages && p.level <= ss[i].pages[ss[i].root].level
    ensures Nests(ss[i + 1], p)
  {
    RunRefined(ss, es, i);
    RunRanges(ss, es, i + 1);
    var s, t := ss[i], ss[i + 1];
    forall b | b in t.pages && t.pages[b].level == p.level
      ensures Within(t.pages[b], p) || Disjoint(t.pages[b], p)
    {
      var a :| a in s.pages && s.pages[a].level == t.pages[b].level && Within(t.pages[b], s.pages[a]);
    }
  }

  lemma RunRefined(ss: seq<State>, es: seq<Event>, i: nat)
    requires Run(ss, es) && i < |es|
    ensures Refined(ss[i], ss[i + 1])
  {
    RunNewPages(ss, es, i);
    RunStep(ss, es, i);
    RefinedIntro(ss[i], ss[i + 1]);
  }

  lemma RunNewPages(ss: seq<State>, es: seq<Event>, i: nat)
    requires Run(ss, es) && i < |es|
    ensures forall b :: b in ss[i + 1].pages && b !in ss[i].pages ==> From(ss[i], ss[i + 1], b)
  {
    RunInv(ss, es, i);
    assert Moves(ss[i], es[i], ss[i + 1]);
    NewPageFrom(ss[i], es[i]);
  }

  lemma RunRanges(ss: seq<State>, es: seq<Event>, i: nat)
    requires Run(ss, es) && i < |ss|
    ensures forall b :: b in ss[i].pages ==>
                      ss[i].pages[b].lowest < ss[i].pages[b].highest <= KEY_MAX && ss[i].root in ss[i].pages
                      && ss[i].pages[b].level <= ss[i].pages[ss[i].root].level
    ensures forall a :: a in ss[i].pages ==> Nests(ss[i], ss[i].pages[a])
  {
    RunInv(ss, es, i);
    forall b | b in ss[i].pages ensures ss[i].pages[b].lowest < ss[i].pages[b].highest <= KEY_MAX {
      assert PageOk(ss[i].pages[b]);
    }
    forall a, b | a in ss[i].pages && b in ss[i].pages && ss[i].pages[b].level == ss[i].pages[a].level
      ensures Within(ss[i].pages[b], ss[i].pages[a]) || Disjoint(ss[i].pages[b], ss[i].pages[a])
    {
      assert a != b ==> Disjoint(ss[i].pages[b], ss[i].pages[a]);
    }
  }

  /**
    Ranges that pages of one level take at two moments of a run are nested or disjoint: the later one
    lies within the earlier one or outside it.
  */
  lemma {:induction false} RangesNest(ss: seq<State>, es: seq<Event>, i: nat, j: nat, a: GlobalAddress)
    requires Run(ss, es) && i <= j < |ss| && a in ss[i].pages
    ensures Nests(ss[j], ss[i].pages[a])
    decreases j
  {
    RunRanges(ss, es, i);
    if i < j {
      RangesNest(ss, es, i, j - 1, a);
      RunStable(ss, es, i, j - 1);
      RunRanges(ss, es, j - 1);
      StepNests(ss, es, j - 1, ss[i].pages[a]);
    }
  }

  // ---------------------------------------------------------------- the chain of roots

  function Grows(es: seq<Event>): nat {
    if es == [] then 0 else Grows(es[..|es| - 1]) + (if es[|es| - 1].Grow? then 1 else 0)
  }

  lemma RootStep(ss: seq<State>, es: seq<Event>, i: nat)
    requires Run(ss, es) && i < |es|
    ensures ss[i].root in ss[i].pages && ss[i + 1].root in ss[i + 1].pages
    ensures ss[i + 1].pages[ss[i + 1].root].level == ss[i].pages[ss[i].root].level + (if es[i].Grow? then 1 else 0)
    ensures !es[i].Grow? ==> ss[i + 1].root == ss[i].root
  {
    hide Inv, Initial, Stable, Enabled, Next;
    RunInv(ss, es, i);
    assert Moves(ss[i], es[i], ss[i + 1]);
    RootMove(ss[i], es[i]);
  }

  lemma RootMove(s: State, e: Event)
    requires Inv(s) && Enabled(s, e)
    ensures s.root in s.pages && Next(s, e).root in Next(s, e).pages
    ensures Next(s, e).pages[Next(s, e).root].level == s.pages[s.root].level + (if e.Grow? then 1 else 0)
    ensures !e.Grow? ==> Next(s, e).root == s.root
  {
    if e.Grow? {
      assert SepOk(s.pages, e.x);
    } else {
      StepInv(s, e);
    }
  }

  /** The root installed by the n-th successful swap has level n. */
  lemma {:induction false} RootLevel(ss: seq<State>, es: seq<Event>, i: nat)
    requires Run(ss, es) && i < |ss|
    ensures ss[i].root in ss[i].pages && ss[i].pages[ss[i].root].level == Grows(es[..i])
  {
    if 0 < i {
      RootLevel(ss, es, i - 1);
      RootStep(ss, es, i - 1);
      assert es[..i][..i - 1] == es[..i - 1];
    }
  }

  ghost predicate AloneOnLevel(s: State, a: GlobalAddress)
    requires a in s.pages
  {
    forall b :: b in s.pages && b != a ==> s.pages[b].level != s.pages[a].level
  }

  /** A new root is alone on its level and at an address that was never a page before. */
  lemma NewRootAlone(ss: seq<State>, es: seq<Event>, i: nat)
    requires Run(ss, es) && i < |es| && es[i].Grow?
    ensures ss[i + 1].root in ss[i + 1].pages
    ensures AloneOnLevel(ss[i + 1], ss[i + 1].root)
    ensures forall j :: 0 <= j <= i ==> ss[i + 1].root !in ss[j].pages
  {
    RunInv(ss, es, i);
    var s, e := ss[i], es[i];
    assert Moves(s, e, ss[i + 1]);
    assert SepOk(s.pages, e.x);
    forall j | 0 <= j <= i ensures ss[i + 1].root !in ss[j].pages {
      RunStable(ss, es, j, i);
    }
  }

  /** Former roots stay usable starts for ever: they begin at the least key. */
  lemma FormerRoot(ss: seq<State>, es: seq<Event>, i: nat, j: nat)
    requires Run(ss, es) && i <= j < |ss|
    ensures ss[i].root in ss[j].pages && ss[j].pages[ss[i].root].lowest == KEY_MIN
    ensures ss[i].root in ss[i].pages && ss[j].pages[ss[i].root].level == ss[i].pages[ss[i].root].level
    ensures ss[j].root in ss[j].pages && ss[i].pages[ss[i].root].level <= ss[j].pages[ss[j].root].level
  {
    RunInv(ss, es, i);
    RunInv(ss, es, j);
    RunStable(ss, es, i, j);
  }
}
