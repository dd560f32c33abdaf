/**
  What inserting and deleting clients do to the map the tree stands for: each operation takes effect
  once, at the leaf, and searches see the operations performed so far (src/Tree.cpp:353-459, 542-591,
  828-1057).
*/
module ClientOps {
  import opened Layout
  import opened BLink
  import opened Steps
  import opened Climbers
  import opened ClimberRuns

  // ---------------------------------------------------------------- the map of the operations

  /** The client updates the leaf it has locked. */
  predicate ActsOnLeaf(w: World, m: Move) {
    m.Act? && ClientOf(w, m.c).AtLeaf?
  }

  /** An operation changes the map when its client updates a leaf; no other move changes it. */
  function Effect(w: World, m: Move, d: map<Key, Value>): map<Key, Value> {
    if ActsOnLeaf(w, m) then
      match ClientOf(w, m.c).op
      case Upsert(k, v) => d[k := v]
      case Erase(k) => d - {k}
    else d
  }

  /** The map after the clients' moves, from the empty one. */
  function Performed(ws: seq<World>, ms: seq<Move>): map<Key, Value>
    requires |ms| <= |ws|
  {
    if ms == [] then map[]
    else
      var n := |ms| - 1;
      Effect(ws[n], ms[n], Performed(ws, ms[..n]))
  }

  lemma MoveRefines(w: World, m: Move, d: map<Key, Value>)
    requires WorldOk(w) && Can(w, m) && Represents(w.tree, d)
    ensures Represents(Do(w, m).tree, Effect(w, m, d))
  {
    hide Inv, Represents, Enabled, Next;
    var e := TreeEvent(w, m);
    if e != [] {
      StepRefines(w.tree, e[0], d);
      EventEffect(w, m, d);
    }
  }

  lemma EventEffect(w: World, m: Move, d: map<Key, Value>)
    requires Can(w, m) && TreeEvent(w, m) != []
    ensures Abstract(TreeEvent(w, m)[0], d) == Effect(w, m, d)
  {
  }

  /** In every interleaving the leaves hold exactly the map that the clients' operations make, each at its leaf. */
  lemma {:induction false} ClientsRefine(ws: seq<World>, ms: seq<Move>, i: nat)
    requires Run(ws, ms) && i < |ws|
    ensures Represents(ws[i].tree, Performed(ws, ms[..i]))
  {
    hide Can, Do, WorldOk, Represents, Effect;
    if i == 0 {
      Runs.InitialInv(ws[0].tree);
    } else {
      ClientsRefine(ws, ms, i - 1);
      RunOk(ws, ms, i - 1);
      assert Goes(ws[i - 1], ms[i - 1], ws[i - 1 + 1]);
      assert ms[..i][..i - 1] == ms[..i - 1];
      MoveRefines(ws[i - 1], ms[i - 1], Performed(ws, ms[..i - 1]));
    }
  }

  // ---------------------------------------------------------------- each operation once

  predicate Begins(m: Move, c: nat) {
    (m.Begin? || m.BeginCached?) && m.c == c
  }

  /** The client is on its way to the leaf of its operation. */
  predicate BeforeLeaf(cl: Client) {
    cl.Descending? || cl.AtLeaf?
  }

  /** How often client `c` has updated a leaf from moment `i` on, before moment `j`. */
  function LeafUpdates(ws: seq<World>, ms: seq<Move>, c: nat, i: nat, j: nat): nat
    requires i <= j <= |ms| <= |ws|
  {
    if i == j then 0
    else LeafUpdates(ws, ms, c, i, j - 1) + (if ms[j - 1].c == c && ActsOnLeaf(ws[j - 1], ms[j - 1]) then 1 else 0)
  }

  /** How an own move of a client relates to the leaf of its operation. */
  lemma OwnMove(w: World, m: Move)
    requires Can(w, m)
    ensures var cl, after := ClientOf(w, m.c), ClientOf(Do(w, m), m.c);
            && (ActsOnLeaf(w, m) ==> BeforeLeaf(cl) && !BeforeLeaf(after))
            && (Begins(m, m.c) ==> BeforeLeaf(after) && after.op == m.op && !BeforeLeaf(cl))
            && (!ActsOnLeaf(w, m) && !Begins(m, m.c) ==>
                BeforeLeaf(after) == BeforeLeaf(cl) && (BeforeLeaf(cl) ==> after.op == cl.op))
  {
    hide Enabled, Next, Update, Raised;
  }

  lemma OthersStay(w: World, m: Move, c: nat)
    requires Can(w, m) && m.c != c
    ensures ClientOf(Do(w, m), c) == ClientOf(w, c)
  {
    hide Enabled, Next, Update, Raised;
  }

  /**
    From its beginning on, while the client does not begin another operation, an operation has updated a leaf
    exactly once if the client is past its leaf, as it is when it returns, and not at all before; and
    what the client does at the leaf is what it began.
  */
  lemma {:induction false} OnceEach(ws: seq<World>, ms: seq<Move>, c: nat, i: nat, j: nat)
    requires Run(ws, ms) && i < j <= |ms| && Begins(ms[i], c) && forall n :: i < n < j ==> !Begins(ms[n], c)
    ensures LeafUpdates(ws, ms, c, i, j) == if BeforeLeaf(ClientOf(ws[j], c)) then 0 else 1
    ensures BeforeLeaf(ClientOf(ws[j], c)) ==> ClientOf(ws[j], c).op == ms[i].op
    ensures forall n :: i <= n < j && ms[n].c == c && ActsOnLeaf(ws[n], ms[n]) ==> ClientOf(ws[n], c).op == ms[i].op
    decreases j
  {
    hide Can, Do, ActsOnLeaf, Begins;
    assert Goes(ws[j - 1], ms[j - 1], ws[j - 1 + 1]);
    if i < j - 1 {
      OnceEach(ws, ms, c, i, j - 1);
    } else {
      assert LeafUpdates(ws, ms, c, i, i) == 0;
    }
    if ms[j - 1].c == c {
      OwnMove(ws[j - 1], ms[j - 1]);
    } else {
      OthersStay(ws[j - 1], ms[j - 1], c);
      OtherBegins(ms[j - 1], c);
    }
  }

  lemma OtherBegins(m: Move, c: nat)
    requires m.c != c
    ensures !Begins(m, c)
  {
  }

  /** Without an operation begun, no leaf is updated: there are as many updates as operations, but for one on its way. */
  lemma {:induction false} AsManyUpdates(ws: seq<World>, ms: seq<Move>, c: nat, j: nat)
    requires Run(ws, ms) && j <= |ms|
    ensures LeafUpdates(ws, ms, c, 0, j) + (if BeforeLeaf(ClientOf(ws[j], c)) then 1 else 0) == Beginnings(ms[..j], c)
  {
    hide Can, Do, ActsOnLeaf, Begins;
    if 0 < j {
      AsManyUpdates(ws, ms, c, j - 1);
      assert Goes(ws[j - 1], ms[j - 1], ws[j - 1 + 1]);
      assert ms[..j][..j - 1] == ms[..j - 1];
      if ms[j - 1].c == c {
        OwnMove(ws[j - 1], ms[j - 1]);
      } else {
        OthersStay(ws[j - 1], ms[j - 1], c);
        OtherBegins(ms[j - 1], c);
      }
    }
  }

  /** How many operations client `c` has begun. */
  function Beginnings(ms: seq<Move>, c: nat): nat {
    if ms == [] then 0 else Beginnings(ms[..|ms| - 1], c) + (if Begins(ms[|ms| - 1], c) then 1 else 0)
  }

  // ---------------------------------------------------------------- nobody is stuck

  /**
    A client in the middle of an operation can always move, unless it has stopped at the assertion. At a leaf
    that covers its key it performs its operation; it turns right, or goes back to a root if it came
    through the cache, exactly when the leaf ends before the key.
  */
  lemma NeverStuck(ws: seq<World>, ms: seq<Move>, i: nat, c: nat, n: GlobalAddress) returns (m: Move)
    requires Run(ws, ms) && i < |ws| && !ClientOf(ws[i], c).Idle? && !ClientOf(ws[i], c).Stopped? && Unused(ws[i].tree, n)
    ensures m.c == c && Can(ws[i], m) && !Begins(m, c)
    ensures ClientOf(ws[i], c).AtLeaf? ==>
              var cl := ClientOf(ws[i], c);
              && cl.at in ws[i].tree.pages
              && (ActsOnLeaf(ws[i], m) <==> cl.op.k < ws[i].tree.pages[cl.at].highest)
              && (!ActsOnLeaf(ws[i], m) ==> if cl.fromCache then m.Reject? else m.Turn?)
  {
    hide Can;
    RunOk(ws, ms, i);
    var w, cl := ws[i], ClientOf(ws[i], c);
    assert ClientOk(w, cl);
    match cl
    case AtLeaf(_, _, _, _, _) => m := LeafMove(w, c, n);
    case AtParent(_, _, _, _) =>
      ParentMove(ws, ms, i, c, n);
      m := if w.tree.pages[cl.at].highest <= cl.x.key then Turn(c) else Act(c, n);
    case Separated(_, _, _, _) => m := UpMove(w, c, n);
    case _ => m := ReadMove(w, c);
  }

  lemma LeafMove(w: World, c: nat, n: GlobalAddress) returns (m: Move)
    requires Inv(w.tree) && ClientOf(w, c).AtLeaf? && ClientOk(w, ClientOf(w, c)) && Unused(w.tree, n)
    ensures m.c == c && Can(w, m) && !Begins(m, c)
    ensures var cl := ClientOf(w, c);
            && cl.at in w.tree.pages
            && (ActsOnLeaf(w, m) <==> cl.op.k < w.tree.pages[cl.at].highest)
            && (!ActsOnLeaf(w, m) ==> if cl.fromCache then m.Reject? else m.Turn?)
  {
    var cl := ClientOf(w, c);
    PageKind(w, cl.at);
    NotFull(w, cl.at);
    m := if cl.op.k < w.tree.pages[cl.at].highest then Act(c, n) else if cl.fromCache then Reject(c, cl.root) else Turn(c);
  }

  lemma UpMove(w: World, c: nat, n: GlobalAddress) returns (m: Move)
    requires Carriers(w) && ClientOf(w, c).Separated? && ClientOk(w, ClientOf(w, c)) && Unused(w.tree, n)
    ensures m.Raise? && m.c == c && Can(w, m)
  {
    m := Raise(c, n, ClientOf(w, c).root);
  }

  lemma ReadMove(w: World, c: nat) returns (m: Move)
    requires (ClientOf(w, c).Descending? || ClientOf(w, c).Seeking?) && ClientOk(w, ClientOf(w, c))
    ensures m.Read? && m.c == c && Can(w, m)
  {
    m := Read(c);
  }

  // ---------------------------------------------------------------- searches beside the clients

  function Trees(ws: seq<World>): (ss: seq<State>)
    ensures |ss| == |ws| && forall i :: 0 <= i < |ws| ==> ss[i] == ws[i].tree
  {
    seq(|ws|, i requires 0 <= i < |ws| => ws[i].tree)
  }

  function Moments(at: seq<nat>, when: seq<nat>): (t: seq<nat>)
    requires forall i :: 0 <= i < |when| ==> when[i] < |at|
    ensures |t| == |when| && forall i :: 0 <= i < |when| ==> t[i] == at[when[i]]
  {
    seq(|when|, i requires 0 <= i < |when| => at[when[i]])
  }

  lemma TraceFollows(ws: seq<World>, ss: seq<State>, at: seq<nat>, k: Key, start: nat, when: seq<nat>, pos: seq<GlobalAddress>)
    requires Follows(ws, ss, at) && |at| == |ws| && Runs.SearchTrace(Trees(ws), k, start, when, pos)
    ensures Runs.SearchTrace(ss, k, at[start], Moments(at, when), pos)
  {
    var trees, t := Trees(ws), Moments(at, when);
    forall i, j | 0 <= i < j < |t| ensures t[i] <= t[j] {
      assert when[i] <= when[j];
    }
    forall i | 0 <= i < |t| - 1 ensures Runs.GoesOn(ss, t[i], k, pos[i], pos[i + 1]) {
      assert Runs.GoesOn(trees, when[i], k, pos[i], pos[i + 1]);
      if Runs.WasRoot(trees, when[i], pos[i + 1]) {
        var r :| 0 <= r <= when[i] && r < |trees| && trees[r].root == pos[i + 1];
        assert ss[at[r]].root == pos[i + 1];
      }
    }
  }

  /**
    However many clients insert and delete meanwhile, a search that ends returns what the operations
    performed by the moment of its last read make of its key.
  */
  lemma SearchAmongClients(ws: seq<World>, ms: seq<Move>, k: Key, start: nat, when: seq<nat>, pos: seq<GlobalAddress>, v: Value)
    requires Run(ws, ms) && k < KEY_MAX && Runs.SearchTrace(Trees(ws), k, start, when, pos)
    requires var n := |when| - 1;
             pos[n] in ws[when[n]].tree.pages && ReadStep(ws[when[n]].tree, pos[n], k) == Done(v)
    ensures var d := Performed(ws, ms[..when[|when| - 1]]);
            v == if k in d then d[k] else VALUE_NULL
  {
    hide Goes, Starts, Inv, Runs.Run, Performed, ReadStep, Represents, Runs.GoesOn;
    var n := |when| - 1;
    var ss, es, at := WholeRun(ws, ms);
    TraceFollows(ws, ss, at, k, start, when, pos);
    Runs.SearchStays(ss, es, k, at[start], Moments(at, when), pos, n);
    RunOk(ws, ms, when[n]);
    ClientsRefine(ws, ms, when[n]);
    LastRead(ws[when[n]].tree, Performed(ws, ms[..when[n]]), pos[n], k, v);
  }

  lemma WholeRun(ws: seq<World>, ms: seq<Move>) returns (ss: seq<State>, es: seq<Event>, at: seq<nat>)
    requires Run(ws, ms)
    ensures Runs.Run(ss, es) && |at| == |ws| && Follows(ws, ss, at)
  {
    hide Goes, Starts, Runs.Run;
    ss, es, at := TreeRun(ws, ms, |ws| - 1);
  }

  lemma LastRead(s: State, d: map<Key, Value>, a: GlobalAddress, k: Key, v: Value)
    requires Inv(s) && Represents(s, d) && At(s, a, k) && k < KEY_MAX && ReadStep(s, a, k) == Done(v)
    ensures v == if k in d then d[k] else VALUE_NULL
  {
    hide PagesOk, Linked, Apart, Parented, Pending, Reached, Filled, Room, Rooted, Represents, ReadStep, Answers;
    ReadStepSpec(s, a, k);
    Runs.AnswerIsMapped(s, d, k, v);
  }
}
