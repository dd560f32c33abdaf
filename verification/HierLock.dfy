/**
  The hierarchical lock of one lock word and the pages it guards (src/Tree.cpp:205-308, 1125-1173):
  a ticket lock per compute node, above it a remote word taken by compare-and-swap, hand-over of the
  remote word inside a node, and unlocking writes that may still be in flight after the local lock
  has been passed on. Every thread has one queue pair to the memory node; its operations are carried
  out there in the order posted, at any later time. Coroutines of a thread share its queue.
*/
module HierLock {

  datatype Client = Client(node: nat, thread: nat, coro: nat)

  datatype Queue = Queue(node: nat, thread: nat)

  function QueueOf(c: Client): Queue {
    Queue(c.node, c.thread)
  }

  const MAX_HAND_OVER_TIME := 8

  /** Posted operations. `sync` says that the client waits for the completion. */
  datatype Op =
    | Cas(c: Client)
    | Read(c: Client, page: nat)
    | Write(c: Client, page: nat, data: nat, sync: bool)
    | Zero(c: Client, sync: bool)

  /** Where a client is in lock, critical section and unlock. */
  datatype Stage =
    | Idle
    | Spin         // waits for its local ticket
    | Contend      // has the local lock, will post the compare-and-swap
    | CasWait
    | Critical     // has the lock
    | ReadWait
    | WriteWait
    | HandOver     // has decided to hand over; may still write its page
    | HandWait
    | Drop         // has decided to zero the remote word
    | ZeroWait
    | Release      // will pass the local ticket on

  datatype Pc = Pc(stage: Stage, ticket: nat)

  /** LocalLockNode: the two halves of the ticket word, and the hand-over state. */
  datatype Local = Local(next: nat, current: nat, handOver: bool, handTime: nat)

  /**
    `word` is the remote word, None being 0. `posted` is the last content posted for each page, in
    program order of the critical sections; `streak` counts the critical sections entered since the
    word was last taken by compare-and-swap.
  */
  datatype State = State(pcs: map<Client, Pc>, locals: map<nat, Local>, queues: map<Queue, seq<Op>>, word: Option<Queue>,
                         mem: map<nat, nat>, posted: map<nat, nat>, streak: nat)

  datatype Option<T> = None | Some(value: T)

  const START := State(map[], map[], map[], None, map[], map[], 0)

  function At(s: State, c: Client): Pc {
    if c in s.pcs then s.pcs[c] else Pc(Idle, 0)
  }

  function Stg(s: State, c: Client): Stage {
    At(s, c).stage
  }

  function Node(s: State, n: nat): Local {
    if n in s.locals then s.locals[n] else Local(0, 0, false, 0)
  }

  function Ops(s: State, q: Queue): seq<Op> {
    if q in s.queues then s.queues[q] else []
  }

  function Get(m: map<nat, nat>, p: nat): nat {
    if p in m then m[p] else 0
  }

  /** Stages in which the remote word is the client's own. */
  predicate Owns(g: Stage) {
    g == Critical || g == ReadWait || g == WriteWait || g == HandOver || g == HandWait || g == Drop
  }

  // ---------------------------------------------------------------- steps

  datatype Event =
    | TakeTicket(c: Client)
    | Enter(c: Client)
    | PostCas(c: Client)
    | PostRead(c: Client, page: nat)
    | PostWrite(c: Client, page: nat, data: nat)
    | Decide(c: Client)
    | PostUnlock(c: Client, async: bool)
    | PostWriteUnlock(c: Client, page: nat, data: nat, async: bool)
    | Pass(c: Client)
    | Deliver(q: Queue)

  predicate Enabled(s: State, e: Event) {
    match e
    case TakeTicket(c) => Stg(s, c) == Idle
    case Enter(c) => Stg(s, c) == Spin && At(s, c).ticket == Node(s, c.node).current
    case PostCas(c) => Stg(s, c) == Contend
    case PostRead(c, _) => Stg(s, c) == Critical
    case PostWrite(c, _, _) => Stg(s, c) == Critical || Stg(s, c) == HandOver
    case Decide(c) => Stg(s, c) == Critical
    case PostUnlock(c, _) => Stg(s, c) == Drop
    case PostWriteUnlock(c, _, _, _) => Stg(s, c) == Drop
    case Pass(c) => Stg(s, c) == HandOver || Stg(s, c) == Release
    case Deliver(q) => Ops(s, q) != []
  }

  function SetStage(s: State, c: Client, g: Stage): State {
    s.(pcs := s.pcs[c := At(s, c).(stage := g)])
  }

  function Post(s: State, c: Client, ops: seq<Op>): State {
    s.(queues := s.queues[QueueOf(c) := Ops(s, QueueOf(c)) + ops])
  }

  /** can_hand_over: whether to hand over, with the node's state updated. */
  function Decided(l: Local): Local {
    var h := l.current + 1 < l.next && l.handTime < MAX_HAND_OVER_TIME;
    l.(handOver := h, handTime := if h then l.handTime else 0)
  }

  /** The memory node carries out the oldest operation of a queue. */
  function Carry(s: State, q: Queue): State
    requires Ops(s, q) != []
  {
    var op := Ops(s, q)[0];
    var t := s.(queues := s.queues[q := Ops(s, q)[1..]]);
    match op
    case Cas(c) =>
      if s.word == None then SetStage(t, c, Critical).(word := Some(q), streak := 1)
      else SetStage(t, c, Contend)
    case Read(c, _) => SetStage(t, c, Critical)
    case Write(c, p, v, sync) =>
      var u := t.(mem := t.mem[p := v]);
      if !sync then u else SetStage(u, c, if Stg(s, c) == HandWait then HandOver else Critical)
    case Zero(c, sync) =>
      var u := t.(word := None);
      if sync then SetStage(u, c, Release) else u
  }

  function Next(s: State, e: Event): State
    requires Enabled(s, e)
  {
    match e
    case TakeTicket(c) =>
      var l := Node(s, c.node);
      s.(pcs := s.pcs[c := Pc(Spin, l.next)], locals := s.locals[c.node := l.(next := l.next + 1)])
    case Enter(c) =>
      var l := Node(s, c.node);
      var t := s.(locals := s.locals[c.node := l.(handTime := l.handTime + 1)]);
      if l.handOver then SetStage(t, c, Critical).(streak := s.streak + 1) else SetStage(t, c, Contend)
    case PostCas(c) => Post(SetStage(s, c, CasWait), c, [Cas(c)])
    case PostRead(c, p) => Post(SetStage(s, c, ReadWait), c, [Read(c, p)])
    case PostWrite(c, p, v) =>
      Post(SetStage(s, c, if Stg(s, c) == HandOver then HandWait else WriteWait), c, [Write(c, p, v, true)])
        .(posted := s.posted[p := v])
    case Decide(c) =>
      var l := Decided(Node(s, c.node));
      SetStage(s.(locals := s.locals[c.node := l]), c, if l.handOver then HandOver else Drop)
    case PostUnlock(c, async) =>
      Post(SetStage(s, c, if async then Release else ZeroWait), c, [Zero(c, !async)])
    case PostWriteUnlock(c, p, v, async) =>
      Post(SetStage(s, c, if async then Release else ZeroWait), c, [Write(c, p, v, false), Zero(c, !async)])
        .(posted := s.posted[p := v])
    case Pass(c) =>
      var l := Node(s, c.node);
      SetStage(s.(locals := s.locals[c.node := l.(current := l.current + 1)]), c, Idle)
    case Deliver(q) => Carry(s, q)
  }

  // ---------------------------------------------------------------- invariant

  /** Who answers for a remote word that is not zero. */
  datatype Token = Free | Held(c: Client) | Handed(n: nat) | Zeroing(q: Queue)

  predicate Busy(s: State, c: Client) {
    Stg(s, c) != Idle
  }

  /** What a stage says about its node's hand-over flag. */
  predicate StageFlag(g: Stage, l: Local) {
    && (g == HandOver || g == HandWait ==> l.handOver && l.current + 1 < l.next)
    && (g == Contend || g == CasWait || g == Drop || g == ZeroWait || g == Release ==> !l.handOver)
  }

  /** hand_time counts the critical sections the node has entered on one acquisition of the word. */
  predicate StageCount(p: Pc, l: Local, streak: nat) {
    match p.stage
    case Idle => true
    case Spin => p.ticket == l.current && !l.handOver ==> l.handTime == 0
    case Contend => l.handTime == 1
    case CasWait => l.handTime == 1
    case Critical => 1 <= l.handTime == streak
    case ReadWait => 1 <= l.handTime == streak
    case WriteWait => 1 <= l.handTime == streak
    case HandOver => 1 <= l.handTime == streak < MAX_HAND_OVER_TIME
    case HandWait => 1 <= l.handTime == streak < MAX_HAND_OVER_TIME
    case Drop => l.handTime == 0 && streak <= MAX_HAND_OVER_TIME
    case ZeroWait => l.handTime == 0
    case Release => l.handTime == 0
  }

  /** A client in stage and with ticket `p` on a node with lock `l`. */
  predicate ClientOk(p: Pc, l: Local, streak: nat, k: Token, c: Client) {
    && (Owns(p.stage) <==> k == Held(c))
    && (p.stage != Idle ==> l.current <= p.ticket < l.next)
    && (p.stage != Idle && p.stage != Spin ==> p.ticket == l.current && k != Handed(c.node))
    && (p.stage == Spin && p.ticket == l.current && l.handOver ==> k == Handed(c.node))
    && StageFlag(p.stage, l) && StageCount(p, l, streak)
  }

  predicate NodeOk(l: Local, streak: nat, k: Token, n: nat) {
    && l.current <= l.next && l.handTime <= MAX_HAND_OVER_TIME
    && (l.current == l.next ==> !l.handOver && l.handTime == 0)
    && (k == Handed(n) ==> l.handOver && l.current < l.next && 1 <= l.handTime == streak < MAX_HAND_OVER_TIME)
  }

  ghost predicate Clients(s: State, k: Token) {
    forall c :: ClientOk(At(s, c), Node(s, c.node), s.streak, k, c)
  }

  ghost predicate Nodes(s: State, k: Token) {
    forall n :: NodeOk(Node(s, n), s.streak, k, n)
  }

  /** Clients of one node hold different tickets. */
  ghost predicate Distinct(s: State) {
    forall c, d :: Busy(s, c) && Busy(s, d) && c.node == d.node && c != d ==> At(s, c).ticket != At(s, d).ticket
  }

  ghost predicate Waiter(s: State, n: nat, t: nat) {
    exists c :: Busy(s, c) && c.node == n && At(s, c).ticket == t
  }

  /** Every ticket that is out is some client's. */
  ghost predicate Taken(s: State) {
    forall n, t :: Node(s, n).current <= t < Node(s, n).next ==> Waiter(s, n, t)
  }

  /** A posted operation a client waits for matches the client's stage. */
  predicate OpOk(s: State, q: Queue, op: Op) {
    && QueueOf(op.c) == q
    && match op
       case Cas(c) => Stg(s, c) == CasWait
       case Read(c, _) => Stg(s, c) == ReadWait
       case Write(c, _, _, sync) => sync ==> Stg(s, c) == WriteWait || Stg(s, c) == HandWait
       case Zero(c, sync) => sync ==> Stg(s, c) == ZeroWait
  }

  predicate Awaited(op: Op) {
    op.Cas? || op.Read? || op.sync
  }

  ghost predicate QueueOk(s: State, q: Queue) {
    && (forall i :: 0 <= i < |Ops(s, q)| ==> OpOk(s, q, Ops(s, q)[i]))
    && (forall i, j :: 0 <= i < j < |Ops(s, q)| && Awaited(Ops(s, q)[i]) && Awaited(Ops(s, q)[j]) ==> Ops(s, q)[i].c != Ops(s, q)[j].c)
  }

  /** The writes and zeros among posted operations. */
  function Effects(ops: seq<Op>): seq<Op> {
    if ops == [] then []
    else (if ops[0].Write? || ops[0].Zero? then [ops[0]] else []) + Effects(ops[1..])
  }

  /** Memory after the writes among `ops`. */
  function Applied(m: map<nat, nat>, ops: seq<Op>): map<nat, nat>
    decreases ops
  {
    if ops == [] then m
    else Applied(if ops[0].Write? then m[ops[0].page := ops[0].data] else m, ops[1..])
  }

  /** The queue that may hold effects: that of the holder, or the one with the zero in flight. */
  predicate Effective(k: Token, q: Queue) {
    (k.Held? && q == QueueOf(k.c)) || (k.Zeroing? && q == k.q)
  }

  /** What the effective queue holds. */
  predicate EffectsOk(s: State, k: Token) {
    match k
    case Free => true
    case Handed(_) => true
    case Held(c) =>
      var es := Effects(Ops(s, QueueOf(c)));
      if Stg(s, c) == WriteWait || Stg(s, c) == HandWait then |es| == 1 && es[0].Write? && es[0].c == c && es[0].sync
      else es == []
    case Zeroing(q) =>
      var es := Effects(Ops(s, q));
      (|es| == 1 && es[0].Zero?) || (|es| == 2 && es[0].Write? && !es[0].sync && es[1].Zero?)
  }

  /** Once the effective queue is empty, memory holds what was posted last for every page. */
  ghost predicate Settles(s: State, k: Token) {
    var m := if k.Held? then Applied(s.mem, Effects(Ops(s, QueueOf(k.c))))
             else if k.Zeroing? then Applied(s.mem, Effects(Ops(s, k.q)))
             else s.mem;
    forall p :: Get(m, p) == Get(s.posted, p)
  }

  ghost predicate MemoryOk(s: State, k: Token) {
    && (forall q :: !Effective(k, q) ==> Effects(Ops(s, q)) == [])
    && EffectsOk(s, k)
    && Settles(s, k)
  }

  ghost predicate Queues(s: State) {
    forall q :: QueueOk(s, q)
  }

  ghost predicate Inv(s: State, k: Token) {
    && (s.word == None <==> k == Free)
    && Clients(s, k) && Nodes(s, k) && Distinct(s) && Taken(s) && Queues(s) && MemoryOk(s, k)
  }

  lemma StartInv()
    ensures Inv(START, Free)
  {
  }

  // ---------------------------------------------------------------- the token of the next state

  function NextToken(s: State, k: Token, e: Event): Token
    requires Enabled(s, e)
  {
    match e
    case Enter(c) => if Node(s, c.node).handOver then Held(c) else k
    case PostUnlock(c, _) => Zeroing(QueueOf(c))
    case PostWriteUnlock(c, _, _, _) => Zeroing(QueueOf(c))
    case Pass(c) => if Stg(s, c) == HandOver then Handed(c.node) else k
    case Deliver(q) =>
      if Ops(s, q)[0].Cas? && s.word == None then Held(Ops(s, q)[0].c)
      else if Ops(s, q)[0].Zero? then Free
      else k
    case _ => k
  }

  // ---------------------------------------------------------------- what a step changes

  /** The client a step concerns. */
  function Actor(s: State, e: Event): Client
    requires Enabled(s, e)
  {
    if e.Deliver? then Ops(s, e.q)[0].c else e.c
  }

  /** Nothing changes for other clients, other nodes and other queues. */
  ghost predicate Framed(s: State, t: State, a: Client) {
    && (forall c :: c != a ==> At(t, c) == At(s, c))
    && (forall n :: n != a.node ==> Node(t, n) == Node(s, n))
    && (forall q :: q != QueueOf(a) ==> Ops(t, q) == Ops(s, q))
  }

  lemma StepFramed(s: State, e: Event)
    requires Enabled(s, e) && Queues(s)
    ensures Framed(s, Next(s, e), Actor(s, e))
  {
    if e.Deliver? {
      hide Carry;
      CarryFramed(s, e.q);
    } else {
      hide Queues;
      PostFramed(s, e);
    }
  }

  lemma PostFramed(s: State, e: Event)
    requires Enabled(s, e) && !e.Deliver?
    ensures Framed(s, Next(s, e), e.c)
  {
    PostEffects(s, e);
  }

  lemma CarryFramed(s: State, q: Queue)
    requires Queues(s) && Ops(s, q) != []
    ensures Framed(s, Carry(s, q), Ops(s, q)[0].c) && QueueOf(Ops(s, q)[0].c) == q
  {
    hide Carry;
    assert QueueOk(s, q) && OpOk(s, q, Ops(s, q)[0]);
    CarryBasics(s, q);
  }

  /** The token before and after a step of `a` concerns nobody but `a` and its node. */
  predicate TokenMoves(k: Token, k': Token, a: Client) {
    k' == k || (Near(k, a) && Near(k', a))
  }

  predicate Near(k: Token, a: Client) {
    k == Free || k == Held(a) || k == Handed(a.node) || k.Zeroing?
  }

  /** Away from the actor and its node the invariant carries over. */
  lemma OtherNodes(s: State, t: State, a: Client, k: Token, k': Token)
    requires Framed(s, t, a) && Clients(s, k) && Nodes(s, k) && TokenMoves(k, k', a)
    requires t.streak == s.streak || Near(k, a)
    ensures forall c: Client :: c.node != a.node ==> ClientOk(At(t, c), Node(t, c.node), t.streak, k', c)
    ensures forall n :: n != a.node ==> NodeOk(Node(t, n), t.streak, k', n)
  {
    forall c: Client | c.node != a.node ensures ClientOk(At(t, c), Node(t, c.node), t.streak, k', c) {
      assert ClientOk(At(s, c), Node(s, c.node), s.streak, k, c);
    }
    forall n | n != a.node ensures NodeOk(Node(t, n), t.streak, k', n) {
      assert NodeOk(Node(s, n), s.streak, k, n);
    }
  }

  /** Peers on the actor's node while the node's lock does not change. */
  lemma PeersSame(s: State, t: State, a: Client, k: Token, k': Token)
    requires Framed(s, t, a) && Clients(s, k) && TokenMoves(k, k', a) && Node(t, a.node) == Node(s, a.node)
    requires k == Handed(a.node) <==> k' == Handed(a.node)
    requires t.streak == s.streak || Near(k, a)
    ensures forall c: Client :: c.node == a.node && c != a ==> ClientOk(At(t, c), Node(t, c.node), t.streak, k', c)
  {
  }

  /** Peers of the client whose turn it is, when it changes the node's lock or passes its turn on. */
  lemma PeersBehind(s: State, t: State, a: Client, k: Token, k': Token)
    requires Framed(s, t, a) && Clients(s, k) && Distinct(s) && TokenMoves(k, k', a)
    requires Busy(s, a) && At(s, a).ticket == Node(s, a.node).current
    requires Node(t, a.node).next == Node(s, a.node).next
    requires Node(s, a.node).current <= Node(t, a.node).current <= Node(s, a.node).current + 1
    requires Node(t, a.node).current == Node(s, a.node).current + 1 ==>
               if Node(t, a.node).handOver then k' == Handed(a.node) else Node(t, a.node).handTime == 0
    ensures forall c: Client :: c.node == a.node && c != a ==> ClientOk(At(t, c), Node(t, c.node), t.streak, k', c)
  {
  }

  /** The three groups together. */
  lemma Gather(t: State, a: Client, k': Token)
    requires forall c: Client :: c.node != a.node ==> ClientOk(At(t, c), Node(t, c.node), t.streak, k', c)
    requires forall c: Client :: c.node == a.node && c != a ==> ClientOk(At(t, c), Node(t, c.node), t.streak, k', c)
    requires ClientOk(At(t, a), Node(t, a.node), t.streak, k', a)
    requires forall n :: n != a.node ==> NodeOk(Node(t, n), t.streak, k', n)
    requires NodeOk(Node(t, a.node), t.streak, k', a.node)
    ensures Clients(t, k') && Nodes(t, k')
  {
  }

  // ---------------------------------------------------------------- clients and nodes

  /** One more ticket out: nobody else notices, and the taker waits for its turn. */
  lemma TicketOut(p: Pc, l: Local, streak: nat, k: Token, c: Client)
    requires ClientOk(p, l, streak, k, c) && NodeOk(l, streak, k, c.node)
    ensures ClientOk(p, l.(next := l.next + 1), streak, k, c)
    ensures NodeOk(l.(next := l.next + 1), streak, k, c.node)
    ensures p.stage == Idle ==> ClientOk(Pc(Spin, l.next), l.(next := l.next + 1), streak, k, c)
  {
  }

  lemma KeepTakeTicket(s: State, k: Token, c: Client)
    requires Enabled(s, TakeTicket(c)) && Inv(s, k)
    ensures Clients(Next(s, TakeTicket(c)), k) && Nodes(Next(s, TakeTicket(c)), k)
  {
    hide ClientOk, NodeOk, MemoryOk, Queues, Taken, Distinct;
    var t := Next(s, TakeTicket(c));
    assert NodeOk(Node(s, c.node), s.streak, k, c.node);
    forall d: Client ensures ClientOk(At(t, d), Node(t, d.node), t.streak, k, d) {
      assert ClientOk(At(s, d), Node(s, d.node), s.streak, k, d);
      if d.node == c.node {
        TicketOut(At(s, d), Node(s, d.node), s.streak, k, d);
      }
    }
    TicketOut(At(s, c), Node(s, c.node), s.streak, k, c);
    forall n ensures NodeOk(Node(t, n), t.streak, k, n) {
      assert NodeOk(Node(s, n), s.streak, k, n);
    }
  }

  /** Steps that leave the node's lock alone: only the actor's stage, the word or the queues change. */
  lemma KeepStaying(s: State, k: Token, e: Event)
    requires Enabled(s, e) && Inv(s, k)
    requires !e.TakeTicket? && !e.Enter? && !e.Decide? && !e.Pass?
    ensures Clients(Next(s, e), NextToken(s, k, e)) && Nodes(Next(s, e), NextToken(s, k, e))
  {
    var t, k', a := Next(s, e), NextToken(s, k, e), Actor(s, e);
    StepFramed(s, e);
    ActorStays(s, k, e);
    OtherNodes(s, t, a, k, k');
    PeersSame(s, t, a, k, k');
    Gather(t, a, k');
  }

  /** What the actor of such a step ends up with. */
  ghost predicate Stays(s: State, t: State, a: Client, k: Token, k': Token) {
    && TokenMoves(k, k', a) && Node(t, a.node) == Node(s, a.node)
    && (k == Handed(a.node) <==> k' == Handed(a.node))
    && (t.streak == s.streak || Near(k, a))
    && ClientOk(At(t, a), Node(t, a.node), t.streak, k', a)
    && NodeOk(Node(t, a.node), t.streak, k', a.node)
  }

  lemma ActorStays(s: State, k: Token, e: Event)
    requires Enabled(s, e) && Inv(s, k)
    requires !e.TakeTicket? && !e.Enter? && !e.Decide? && !e.Pass?
    ensures Stays(s, Next(s, e), Actor(s, e), k, NextToken(s, k, e))
  {
    hide MemoryOk, Distinct, Taken;
    var a := Actor(s, e);
    assert ClientOk(At(s, a), Node(s, a.node), s.streak, k, a);
    assert NodeOk(Node(s, a.node), s.streak, k, a.node);
    if e.Deliver? {
      HeadOk(s, e.q);
      if Ops(s, e.q)[0].Zero? {
        ZeroIsToken(s, k, e.q);
      }
      CarryStays(s, k, e.q);
    } else {
      PostStays(s, k, e);
    }
  }

  lemma PostStays(s: State, k: Token, e: Event)
    requires Enabled(s, e) && !e.TakeTicket? && !e.Enter? && !e.Decide? && !e.Pass? && !e.Deliver?
    requires ClientOk(At(s, e.c), Node(s, e.c.node), s.streak, k, e.c) && NodeOk(Node(s, e.c.node), s.streak, k, e.c.node)
    ensures Stays(s, Next(s, e), e.c, k, NextToken(s, k, e))
  {
  }

  /** The oldest operation of the queue can be carried out: its client is as the invariant says. */
  ghost predicate Due(s: State, k: Token, q: Queue) {
    && Ops(s, q) != [] && OpOk(s, q, Ops(s, q)[0])
    && (s.word == None <==> k == Free)
    && (Ops(s, q)[0].Zero? ==> k == Zeroing(q))
    && var a := Ops(s, q)[0].c;
       ClientOk(At(s, a), Node(s, a.node), s.streak, k, a) && NodeOk(Node(s, a.node), s.streak, k, a.node)
  }

  lemma CarryStays(s: State, k: Token, q: Queue)
    requires Due(s, k, q)
    ensures Stays(s, Carry(s, q), Ops(s, q)[0].c, k, NextToken(s, k, Deliver(q)))
  {
  }

  /** Steps of the client whose turn it is that change the node's lock. */
  lemma KeepTurning(s: State, k: Token, e: Event)
    requires Enabled(s, e) && Inv(s, k) && (e.Enter? || e.Decide? || e.Pass?)
    ensures Clients(Next(s, e), NextToken(s, k, e)) && Nodes(Next(s, e), NextToken(s, k, e))
  {
    hide MemoryOk, Taken, Queues;
    var t, k', a := Next(s, e), NextToken(s, k, e), e.c;
    assert ClientOk(At(s, a), Node(s, a.node), s.streak, k, a);
    assert NodeOk(Node(s, a.node), s.streak, k, a.node);
    StepFramed(s, e);
    Turns(s, k, e);
    TurnPeers(s, t, a, k, k');
  }

  /** What a step of the client whose turn it is does to the client, its node and the token. */
  ghost predicate Turned(s: State, t: State, a: Client, k: Token, k': Token) {
    && TokenMoves(k, k', a) && (t.streak == s.streak || Near(k, a))
    && Busy(s, a) && At(s, a).ticket == Node(s, a.node).current
    && Node(t, a.node).next == Node(s, a.node).next
    && Node(s, a.node).current <= Node(t, a.node).current <= Node(s, a.node).current + 1
    && (Node(t, a.node).current == Node(s, a.node).current + 1 ==>
        if Node(t, a.node).handOver then k' == Handed(a.node) else Node(t, a.node).handTime == 0)
    && ClientOk(At(t, a), Node(t, a.node), t.streak, k', a)
    && NodeOk(Node(t, a.node), t.streak, k', a.node)
  }

  lemma TurnsEntering(s: State, k: Token, c: Client)
    requires Enabled(s, Enter(c))
    requires ClientOk(At(s, c), Node(s, c.node), s.streak, k, c) && NodeOk(Node(s, c.node), s.streak, k, c.node)
    ensures Turned(s, Next(s, Enter(c)), c, k, NextToken(s, k, Enter(c)))
  {
  }

  lemma TurnsDeciding(s: State, k: Token, c: Client)
    requires Enabled(s, Decide(c))
    requires ClientOk(At(s, c), Node(s, c.node), s.streak, k, c) && NodeOk(Node(s, c.node), s.streak, k, c.node)
    ensures Turned(s, Next(s, Decide(c)), c, k, NextToken(s, k, Decide(c)))
  {
  }

  lemma TurnsPassing(s: State, k: Token, c: Client)
    requires Enabled(s, Pass(c))
    requires ClientOk(At(s, c), Node(s, c.node), s.streak, k, c) && NodeOk(Node(s, c.node), s.streak, k, c.node)
    ensures Turned(s, Next(s, Pass(c)), c, k, NextToken(s, k, Pass(c)))
  {
  }

  lemma Turns(s: State, k: Token, e: Event)
    requires Enabled(s, e) && (e.Enter? || e.Decide? || e.Pass?)
    requires ClientOk(At(s, e.c), Node(s, e.c.node), s.streak, k, e.c) && NodeOk(Node(s, e.c.node), s.streak, k, e.c.node)
    ensures Turned(s, Next(s, e), e.c, k, NextToken(s, k, e))
  {
    hide Enabled, Next, NextToken, Turned, ClientOk, NodeOk;
    match e
    case Enter(c) => TurnsEntering(s, k, c);
    case Decide(c) => TurnsDeciding(s, k, c);
    case Pass(c) => TurnsPassing(s, k, c);
    case _ =>
  }

  lemma TurnPeers(s: State, t: State, a: Client, k: Token, k': Token)
    requires Framed(s, t, a) && Clients(s, k) && Nodes(s, k) && Distinct(s) && Turned(s, t, a, k, k')
    ensures Clients(t, k') && Nodes(t, k')
  {
    OtherNodes(s, t, a, k, k');
    PeersBehind(s, t, a, k, k');
    Gather(t, a, k');
  }

  /** The operation a delivery completes belongs to a client in the matching stage. */
  lemma HeadOk(s: State, q: Queue)
    requires Queues(s) && Ops(s, q) != []
    ensures OpOk(s, q, Ops(s, q)[0])
  {
    assert QueueOk(s, q);
  }

  /** A zero at the head of a queue is the one the token speaks of. */
  lemma ZeroIsToken(s: State, k: Token, q: Queue)
    requires MemoryOk(s, k) && Ops(s, q) != [] && Ops(s, q)[0].Zero?
    ensures k == Zeroing(q)
  {
  }

  // ---------------------------------------------------------------- tickets

  lemma KeepDistinct(s: State, k: Token, e: Event)
    requires Enabled(s, e) && Distinct(s) && Clients(s, k) && Queues(s)
    ensures Distinct(Next(s, e))
  {
    var t := Next(s, e);
    SameTickets(s, e);
    forall c, d | Busy(t, c) && Busy(t, d) && c.node == d.node && c != d ensures At(t, c).ticket != At(t, d).ticket {
      assert ClientOk(At(s, c), Node(s, c.node), s.streak, k, c);
      assert ClientOk(At(s, d), Node(s, d.node), s.streak, k, d);
    }
  }

  /** Only taking a ticket changes one, and only passing the turn on gives one up. */
  lemma SameTickets(s: State, e: Event)
    requires Enabled(s, e) && Queues(s)
    ensures forall c :: c != Actor(s, e) || (!e.TakeTicket? && !e.Pass?) ==>
                          At(Next(s, e), c).ticket == At(s, c).ticket && (Busy(Next(s, e), c) <==> Busy(s, c))
    ensures e.Pass? ==> !Busy(Next(s, e), e.c)
    ensures e.TakeTicket? ==> At(Next(s, e), e.c) == Pc(Spin, Node(s, e.c.node).next)
    ensures forall n :: n != Actor(s, e).node || (!e.TakeTicket? && !e.Pass?) ==>
                          Node(Next(s, e), n).current == Node(s, n).current && Node(Next(s, e), n).next == Node(s, n).next
  {
    if e.Deliver? {
      hide Carry, OpOk, Queues;
      HeadOk(s, e.q);
      CarryTickets(s, e.q);
    } else {
      hide Queues;
      PostTickets(s, e);
    }
  }

  lemma PostTickets(s: State, e: Event)
    requires Enabled(s, e) && !e.Deliver?
    ensures forall c :: c != e.c || (!e.TakeTicket? && !e.Pass?) ==>
                          At(Next(s, e), c).ticket == At(s, c).ticket && (Busy(Next(s, e), c) <==> Busy(s, c))
    ensures e.Pass? ==> !Busy(Next(s, e), e.c)
    ensures e.TakeTicket? ==> At(Next(s, e), e.c) == Pc(Spin, Node(s, e.c.node).next)
    ensures forall n :: n != e.c.node || (!e.TakeTicket? && !e.Pass?) ==>
                          Node(Next(s, e), n).current == Node(s, n).current && Node(Next(s, e), n).next == Node(s, n).next
  {
    hide Enabled, Next;
    PostEffects(s, e);
    PostPlaces(s, e);
  }

  /** What such a step does to its client's ticket and to its node's. */
  lemma PostPlaces(s: State, e: Event)
    requires Enabled(s, e) && !e.Deliver?
    ensures !e.TakeTicket? ==> At(Next(s, e), e.c).ticket == At(s, e.c).ticket
    ensures !e.Pass? && !e.TakeTicket? ==> Stg(s, e.c) != Idle && Stg(Next(s, e), e.c) != Idle
    ensures e.Pass? ==> Stg(Next(s, e), e.c) == Idle
    ensures e.TakeTicket? ==> At(Next(s, e), e.c) == Pc(Spin, Node(s, e.c.node).next)
    ensures forall n :: n != e.c.node || (!e.TakeTicket? && !e.Pass?) ==>
                          Node(Next(s, e), n).current == Node(s, n).current && Node(Next(s, e), n).next == Node(s, n).next
  {
  }

  lemma CarryTickets(s: State, q: Queue)
    requires Ops(s, q) != [] && OpOk(s, q, Ops(s, q)[0])
    ensures forall c :: At(Carry(s, q), c).ticket == At(s, c).ticket && (Busy(Carry(s, q), c) <==> Busy(s, c))
    ensures Carry(s, q).locals == s.locals
  {
  }

  lemma KeepTaken(s: State, k: Token, e: Event)
    requires Enabled(s, e) && Taken(s) && Clients(s, k) && Queues(s)
    ensures Taken(Next(s, e))
  {
    var t := Next(s, e);
    SameTickets(s, e);
    forall n, i | Node(t, n).current <= i < Node(t, n).next ensures Waiter(t, n, i) {
      if e.TakeTicket? && n == e.c.node && i == Node(s, n).next {
        assert Busy(t, e.c) && e.c.node == n && At(t, e.c).ticket == i;
      } else {
        assert Waiter(s, n, i);
        var c :| Busy(s, c) && c.node == n && At(s, c).ticket == i;
        assert ClientOk(At(s, c), Node(s, c.node), s.streak, k, c);
        assert Busy(t, c) && c.node == n && At(t, c).ticket == i;
      }
    }
  }

  // ---------------------------------------------------------------- queues

  lemma PostOk(s: State, q: Queue, t: State, a: Client, ops: seq<Op>)
    requires QueueOk(s, q) && q == QueueOf(a) && Ops(t, q) == Ops(s, q) + ops
    requires forall c :: c != a ==> At(t, c) == At(s, c)
    requires Stg(s, a) != CasWait && Stg(s, a) != ReadWait && Stg(s, a) != WriteWait && Stg(s, a) != HandWait && Stg(s, a) != ZeroWait
    requires forall i :: 0 <= i < |ops| ==> ops[i].c == a && OpOk(t, q, ops[i])
    requires forall i, j :: 0 <= i < j < |ops| ==> !(Awaited(ops[i]) && Awaited(ops[j]))
    ensures QueueOk(t, q)
  {
  }

  lemma OtherQueue(s: State, t: State, q: Queue, a: Client)
    requires QueueOk(s, q) && q != QueueOf(a) && Ops(t, q) == Ops(s, q) && forall c :: c != a ==> At(t, c) == At(s, c)
    ensures QueueOk(t, q)
  {
  }

  lemma CarryQueue(s: State, q: Queue)
    requires QueueOk(s, q) && Ops(s, q) != []
    ensures QueueOk(Carry(s, q), q)
  {
    var t, ops := Carry(s, q), Ops(s, q);
    assert OpOk(s, q, ops[0]);
    forall i | 0 <= i < |ops[1..]| ensures OpOk(t, q, ops[1..][i]) {
      assert OpOk(s, q, ops[i + 1]);
      assert Awaited(ops[0]) && Awaited(ops[i + 1]) ==> ops[0].c != ops[i + 1].c;
    }
    forall i, j | 0 <= i < j < |ops[1..]| && Awaited(ops[1..][i]) && Awaited(ops[1..][j])
      ensures ops[1..][i].c != ops[1..][j].c
    {
      assert ops[i + 1].c != ops[j + 1].c;
    }
  }

  function PostedOps(e: Event): seq<Op> {
    match e
    case PostCas(c) => [Cas(c)]
    case PostRead(c, p) => [Read(c, p)]
    case PostWrite(c, p, v) => [Write(c, p, v, true)]
    case PostUnlock(c, async) => [Zero(c, !async)]
    case PostWriteUnlock(c, p, v, async) => [Write(c, p, v, false), Zero(c, !async)]
    case _ => []
  }

  /** What a step that is not a delivery does to queues and memory. */
  lemma PostEffects(s: State, e: Event)
    requires Enabled(s, e) && !e.Deliver?
    ensures Ops(Next(s, e), QueueOf(e.c)) == Ops(s, QueueOf(e.c)) + PostedOps(e)
    ensures forall q :: q != QueueOf(e.c) ==> Ops(Next(s, e), q) == Ops(s, q)
    ensures Next(s, e).mem == s.mem && Next(s, e).word == s.word
    ensures Next(s, e).posted == if e.PostWrite? || e.PostWriteUnlock? then s.posted[e.page := e.data] else s.posted
    ensures forall c :: c != e.c ==> At(Next(s, e), c) == At(s, c)
  {
    hide Next, Enabled;
    PostQueues(s, e);
    PostOthers(s, e);
  }

  lemma PostQueues(s: State, e: Event)
    requires Enabled(s, e) && !e.Deliver?
    ensures Ops(Next(s, e), QueueOf(e.c)) == Ops(s, QueueOf(e.c)) + PostedOps(e)
    ensures forall q :: q != QueueOf(e.c) ==> Ops(Next(s, e), q) == Ops(s, q)
  {
    hide At, Node, Decided;
  }

  lemma PostOthers(s: State, e: Event)
    requires Enabled(s, e) && !e.Deliver?
    ensures Next(s, e).mem == s.mem && Next(s, e).word == s.word
    ensures Next(s, e).posted == if e.PostWrite? || e.PostWriteUnlock? then s.posted[e.page := e.data] else s.posted
    ensures forall c :: c != e.c ==> At(Next(s, e), c) == At(s, c)
  {
    hide Ops, Node, Decided;
  }

  lemma PostedOk(s: State, e: Event)
    requires Enabled(s, e) && !e.Deliver?
    ensures forall i :: 0 <= i < |PostedOps(e)| ==> PostedOps(e)[i].c == e.c && OpOk(Next(s, e), QueueOf(e.c), PostedOps(e)[i])
  {
  }

  lemma KeepQueues(s: State, e: Event)
    requires Enabled(s, e) && Queues(s)
    ensures Queues(Next(s, e))
  {
    var t, a := Next(s, e), Actor(s, e);
    StepFramed(s, e);
    forall q ensures QueueOk(t, q) {
      assert QueueOk(s, q);
      if q != QueueOf(a) {
        OtherQueue(s, t, q, a);
      } else if e.Deliver? {
        CarryFramed(s, e.q);
        CarryQueue(s, q);
      } else {
        PostEffects(s, e);
        PostedOk(s, e);
        PostOk(s, q, t, a, PostedOps(e));
      }
    }
  }

  // ---------------------------------------------------------------- memory

  lemma NoEffects()
    ensures Effects([]) == []
  {
  }

  lemma EffectsCons(op: Op, ops: seq<Op>)
    ensures Effects([op] + ops) == (if op.Write? || op.Zero? then [op] else []) + Effects(ops)
  {
    assert ([op] + ops)[1..] == ops;
  }

  lemma {:induction false} EffectsAppend(ops: seq<Op>, more: seq<Op>)
    ensures Effects(ops + more) == Effects(ops) + Effects(more)
  {
    hide Effects;
    if ops == [] {
      NoEffects();
      assert ops + more == more;
    } else {
      EffectsAppend(ops[1..], more);
      EffectsCons(ops[0], ops[1..] + more);
      EffectsCons(ops[0], ops[1..]);
      assert ops == [ops[0]] + ops[1..];
      assert ops + more == [ops[0]] + (ops[1..] + more);
    }
  }

  /** Effects, writes and zeros of one and of two operations. */
  lemma OneOp(x: Op, m: map<nat, nat>)
    ensures Effects([x]) == if x.Write? || x.Zero? then [x] else []
    ensures Applied(m, [x]) == if x.Write? then m[x.page := x.data] else m
    ensures ZeroCount([x]) == if x.Zero? then 1 else 0
  {
  }

  lemma TwoOps(x: Op, y: Op, m: map<nat, nat>)
    requires x.Write? && y.Zero?
    ensures Effects([x, y]) == [x, y]
    ensures Applied(m, [x, y]) == m[x.page := x.data]
    ensures ZeroCount([x, y]) == 1
  {
    assert [x, y][1..] == [y];
    OneOp(y, m[x.page := x.data]);
  }

  lemma PostedEffects(e: Event, m: map<nat, nat>)
    ensures Effects(PostedOps(e)) == if e.PostWrite? || e.PostUnlock? || e.PostWriteUnlock? then PostedOps(e) else []
    ensures e.PostWrite? || e.PostWriteUnlock? ==> Applied(m, PostedOps(e)) == m[e.page := e.data]
    ensures e.PostUnlock? ==> Applied(m, PostedOps(e)) == m
  {
    if e.PostWriteUnlock? {
      TwoOps(PostedOps(e)[0], PostedOps(e)[1], m);
    } else if PostedOps(e) != [] {
      OneOp(PostedOps(e)[0], m);
    }
  }

  /** The memory clauses for a step that posts. */
  lemma KeepMemoryPosting(s: State, k: Token, e: Event)
    requires Enabled(s, e) && !e.Deliver?
    requires MemoryOk(s, k) && (forall c :: Owns(Stg(s, c)) <==> k == Held(c))
    requires TokenMoves(k, NextToken(s, k, e), e.c)
    requires e.Enter? && Node(s, e.c.node).handOver ==> k == Handed(e.c.node)
    ensures MemoryOk(Next(s, e), NextToken(s, k, e))
  {
    hide Next, Enabled;
    var t, q := Next(s, e), QueueOf(e.c);
    PostEffects(s, e);
    EffectsAppend(Ops(s, q), PostedOps(e));
    PostedEffects(e, s.mem);
    assert Effects(Ops(t, q)) == Effects(Ops(s, q)) + Effects(PostedOps(e));
    PostStage(s, e);
    if e.PostWrite? || e.PostUnlock? || e.PostWriteUnlock? {
      assert k == Held(e.c) && Effects(Ops(s, q)) == [];
      assert Effects(Ops(t, q)) == PostedOps(e);
      PostSettles(s, k, e);
    } else {
      assert Effects(Ops(t, q)) == Effects(Ops(s, q));
      SameEffects(s, t, k, NextToken(s, k, e), e.c);
    }
  }

  /** A step with no effect on queues and memory may move the token between its client and its node. */
  lemma SameEffects(s: State, t: State, k: Token, k': Token, a: Client)
    requires MemoryOk(s, k) && t.mem == s.mem && t.posted == s.posted
    requires forall q :: Effects(Ops(t, q)) == Effects(Ops(s, q))
    requires forall c :: c != a ==> At(t, c) == At(s, c)
    requires Stg(s, a) != WriteWait && Stg(s, a) != HandWait && Stg(t, a) != WriteWait && Stg(t, a) != HandWait
    requires k' == k || (k == Handed(a.node) && k' == Held(a)) || (k == Held(a) && k' == Handed(a.node))
    ensures MemoryOk(t, k')
  {
  }

  lemma PostStage(s: State, e: Event)
    requires Enabled(s, e) && !e.Deliver?
    ensures (Stg(Next(s, e), e.c) == WriteWait || Stg(Next(s, e), e.c) == HandWait) <==> e.PostWrite?
    ensures Stg(s, e.c) != WriteWait && Stg(s, e.c) != HandWait
    ensures e.Decide? || e.PostRead? || e.PostWrite? || e.PostUnlock? || e.PostWriteUnlock? ==> Owns(Stg(s, e.c))
    ensures e.Pass? && Stg(s, e.c) != HandOver ==> !Owns(Stg(s, e.c))
    ensures e.Pass? && Stg(s, e.c) == HandOver ==> Owns(Stg(s, e.c))
    ensures e.TakeTicket? || e.Enter? || e.PostCas? ==> !Owns(Stg(s, e.c))
  {
  }

  lemma PostSettles(s: State, k: Token, e: Event)
    requires Enabled(s, e) && (e.PostWrite? || e.PostUnlock? || e.PostWriteUnlock?)
    requires k == Held(e.c) && Settles(s, k) && Effects(Ops(s, QueueOf(e.c))) == []
    requires Effects(Ops(Next(s, e), QueueOf(e.c))) == PostedOps(e)
    ensures Settles(Next(s, e), NextToken(s, k, e))
  {
    var t := Next(s, e);
    PostEffects(s, e);
    PostedEffects(e, s.mem);
    forall p ensures Get(Applied(t.mem, PostedOps(e)), p) == Get(t.posted, p) {
      assert Get(Applied(s.mem, []), p) == Get(s.posted, p);
    }
  }

  /** The memory clauses for a delivery. */
  lemma KeepMemoryDelivery(s: State, k: Token, q: Queue)
    requires Ops(s, q) != [] && OpOk(s, q, Ops(s, q)[0])
    requires MemoryOk(s, k) && (forall c :: Owns(Stg(s, c)) <==> k == Held(c)) && (s.word == None <==> k == Free)
    ensures MemoryOk(Carry(s, q), NextToken(s, k, Deliver(q)))
  {
    var t, k', op := Carry(s, q), NextToken(s, k, Deliver(q)), Ops(s, q)[0];
    CarryBasics(s, q);
    CarryEffects(s, q);
    if op.Zero? {
      ZeroIsToken(s, k, q);
    } else if op.Write? {
      assert Effects(Ops(s, q))[0] == op && Effective(k, q);
    }
  }

  lemma EffectsHead(ops: seq<Op>, m: map<nat, nat>)
    requires ops != []
    ensures Effects(ops) == if ops[0].Write? || ops[0].Zero? then [ops[0]] + Effects(ops[1..]) else Effects(ops[1..])
    ensures Applied(m, Effects(ops)) == Applied(if ops[0].Write? then m[ops[0].page := ops[0].data] else m, Effects(ops[1..]))
  {
  }

  /** What carrying out the oldest operation of the queue does to queues, memory and clients. */
  ghost predicate Carried(s: State, t: State, q: Queue)
    requires Ops(s, q) != []
  {
    var op := Ops(s, q)[0];
    && Ops(t, q) == Ops(s, q)[1..] && (forall p :: p != q ==> Ops(t, p) == Ops(s, p))
    && t.locals == s.locals && t.posted == s.posted
    && t.mem == (if op.Write? then s.mem[op.page := op.data] else s.mem)
    && (forall c :: c != op.c ==> At(t, c) == At(s, c))
    && (if Awaited(op) then Stg(t, op.c) != WriteWait && Stg(t, op.c) != HandWait else At(t, op.c) == At(s, op.c))
  }

  lemma CarryBasics(s: State, q: Queue)
    requires Ops(s, q) != [] && OpOk(s, q, Ops(s, q)[0])
    ensures Carried(s, Carry(s, q), q)
  {
    CarryQueues(s, q);
    CarryMemory(s, q);
    CarryClients(s, q);
    hide Carry;
  }

  lemma CarryQueues(s: State, q: Queue)
    requires Ops(s, q) != []
    ensures Ops(Carry(s, q), q) == Ops(s, q)[1..] && forall p :: p != q ==> Ops(Carry(s, q), p) == Ops(s, p)
  {
  }

  lemma CarryMemory(s: State, q: Queue)
    requires Ops(s, q) != []
    ensures var t, op := Carry(s, q), Ops(s, q)[0];
            t.locals == s.locals && t.posted == s.posted && t.mem == if op.Write? then s.mem[op.page := op.data] else s.mem
  {
    hide Stg, At, Ops;
    match Ops(s, q)[0]
    case Cas(_) =>
    case Read(_, _) =>
    case Write(_, _, _, _) =>
    case Zero(_, _) =>
  }

  lemma CarryClients(s: State, q: Queue)
    requires Ops(s, q) != [] && OpOk(s, q, Ops(s, q)[0])
    ensures var t, op := Carry(s, q), Ops(s, q)[0];
            && (forall c :: c != op.c ==> At(t, c) == At(s, c))
            && (if Awaited(op) then Stg(t, op.c) != WriteWait && Stg(t, op.c) != HandWait else At(t, op.c) == At(s, op.c))
  {
  }

  lemma CarryEffects(s: State, q: Queue)
    requires Ops(s, q) != [] && OpOk(s, q, Ops(s, q)[0])
    ensures var t, op := Carry(s, q), Ops(s, q)[0];
            && Effects(Ops(s, q)) == (if op.Write? || op.Zero? then [op] + Effects(Ops(t, q)) else Effects(Ops(t, q)))
            && Applied(s.mem, Effects(Ops(s, q))) == Applied(t.mem, Effects(Ops(t, q)))
  {
    hide Carry, Applied;
    CarryBasics(s, q);
    EffectsHead(Ops(s, q), s.mem);
  }

  lemma KeepClients(s: State, k: Token, e: Event)
    requires Enabled(s, e) && Inv(s, k)
    ensures Clients(Next(s, e), NextToken(s, k, e)) && Nodes(Next(s, e), NextToken(s, k, e))
  {
    hide Clients, Nodes, Distinct, Taken, Queues, MemoryOk;
    if e.TakeTicket? {
      KeepTakeTicket(s, k, e.c);
    } else if e.Enter? || e.Decide? || e.Pass? {
      KeepTurning(s, k, e);
    } else {
      KeepStaying(s, k, e);
    }
  }

  lemma Owners(s: State, k: Token)
    requires Clients(s, k)
    ensures forall c :: Owns(Stg(s, c)) <==> k == Held(c)
  {
  }

  lemma KeepMemory(s: State, k: Token, e: Event)
    requires Enabled(s, e) && Inv(s, k)
    ensures MemoryOk(Next(s, e), NextToken(s, k, e))
  {
    hide Nodes, Distinct, Taken, Queues, MemoryOk;
    Owners(s, k);
    if e.Deliver? {
      HeadOk(s, e.q);
      KeepMemoryDelivery(s, k, e.q);
    } else {
      assert ClientOk(At(s, e.c), Node(s, e.c.node), s.streak, k, e.c);
      KeepMemoryPosting(s, k, e);
    }
  }

  lemma KeepWord(s: State, k: Token, e: Event)
    requires Enabled(s, e) && Inv(s, k)
    ensures Next(s, e).word == None <==> NextToken(s, k, e) == Free
  {
    hide Nodes, Distinct, Taken;
    if e.Deliver? {
      HeadOk(s, e.q);
      if Ops(s, e.q)[0].Zero? {
        ZeroIsToken(s, k, e.q);
      }
    } else {
      assert ClientOk(At(s, e.c), Node(s, e.c.node), s.streak, k, e.c);
    }
  }

  // ---------------------------------------------------------------- runs

  /** Every step of every client and every delivery keeps the invariant, and names the next token. */
  lemma StepInv(s: State, k: Token, e: Event)
    requires Enabled(s, e) && Inv(s, k)
    ensures Inv(Next(s, e), NextToken(s, k, e))
  {
    hide Clients, Nodes, Distinct, Taken, Queues, MemoryOk;
    KeepClients(s, k, e);
    KeepDistinct(s, k, e);
    KeepTaken(s, k, e);
    KeepQueues(s, e);
    KeepMemory(s, k, e);
    KeepWord(s, k, e);
  }

  /** Any interleaving of clients' steps and deliveries. */
  ghost predicate Run(ss: seq<State>, es: seq<Event>) {
    |ss| == |es| + 1 && ss[0] == START && forall i :: 0 <= i < |es| ==> Moves(ss[i], es[i], ss[i + 1])
  }

  ghost predicate Moves(s: State, e: Event, t: State) {
    Enabled(s, e) && t == Next(s, e)
  }

  lemma {:induction false} RunInv(ss: seq<State>, es: seq<Event>, i: nat) returns (k: Token)
    requires Run(ss, es) && i < |ss|
    ensures Inv(ss[i], k)
  {
    hide Inv, Next, Enabled;
    if i == 0 {
      StartInv();
      k := Free;
    } else {
      var j := RunInv(ss, es, i - 1);
      assert Moves(ss[i - 1], es[i - 1], ss[i]);
      StepInv(ss[i - 1], j, es[i - 1]);
      k := NextToken(ss[i - 1], j, es[i - 1]);
    }
  }

  // ---------------------------------------------------------------- what the lock guarantees

  /** At any moment of any run at most one client owns the lock. */
  lemma MutualExclusion(ss: seq<State>, es: seq<Event>, i: nat, c: Client, d: Client)
    requires Run(ss, es) && i < |ss| && Owns(Stg(ss[i], c)) && Owns(Stg(ss[i], d))
    ensures c == d
  {
    var k := RunInv(ss, es, i);
    Owners(ss[i], k);
  }

  /**
    When the memory node carries out a read made in a critical section, the page already holds what
    was posted last for it, by whichever holder, node and path to the unlock.
  */
  lemma FreshRead(ss: seq<State>, es: seq<Event>, i: nat, q: Queue)
    requires Run(ss, es) && i < |ss| && Ops(ss[i], q) != [] && Ops(ss[i], q)[0].Read?
    ensures var r := Ops(ss[i], q)[0];
            Owns(Stg(ss[i], r.c)) && Get(ss[i].mem, r.page) == Get(ss[i].posted, r.page)
  {
    var k := RunInv(ss, es, i);
    var s := ss[i];
    HeadOk(s, q);
    Owners(s, k);
    assert Effects(Ops(s, q)) == [];
  }

  function ZeroCount(ops: seq<Op>): nat {
    if ops == [] then 0 else (if ops[0].Zero? then 1 else 0) + ZeroCount(ops[1..])
  }

  lemma {:induction false} ZeroesAreEffects(ops: seq<Op>)
    ensures ZeroCount(ops) == ZeroCount(Effects(ops))
  {
    if ops != [] {
      ZeroesAreEffects(ops[1..]);
      assert [] + Effects(ops[1..]) == Effects(ops[1..]);
      if ops[0].Write? || ops[0].Zero? {
        assert ([ops[0]] + Effects(ops[1..]))[1..] == Effects(ops[1..]);
      }
    }
  }

  /** The word was handed to a client of the node that waits for its turn, and it is its turn. */
  ghost predicate HandedTo(s: State, n: nat, c: Client) {
    c.node == n && Stg(s, c) == Spin && At(s, c).ticket == Node(s, n).current && Node(s, n).handOver
  }

  /** `t` answers for the word in state `s`. */
  ghost predicate Accounts(s: State, t: Token) {
    match t
    case Free => false
    case Held(c) => Owns(Stg(s, c))
    case Handed(n) => exists c :: HandedTo(s, n, c)
    case Zeroing(q) => 0 < ZeroCount(Ops(s, q))
  }

  /**
    Token conservation: while the remote word is not zero exactly one of these accounts for it, a
    holder, a hand-over with a client whose turn it is, or one zero write in flight; while it is zero
    none does. So a hand-over never strands the word and a late zero write hits nobody else's lock.
  */
  lemma TokenConservation(ss: seq<State>, es: seq<Event>, i: nat) returns (k: Token)
    requires Run(ss, es) && i < |ss|
    ensures ss[i].word == None <==> k == Free
    ensures forall t :: Accounts(ss[i], t) <==> t == k && t != Free
    ensures forall q :: ZeroCount(Ops(ss[i], q)) <= 1
  {
    k := RunInv(ss, es, i);
    var s := ss[i];
    forall q ensures ZeroCount(Ops(s, q)) == if k == Zeroing(q) then 1 else 0 {
      ZeroesPerQueue(s, k, q);
    }
    forall t: Token ensures Accounts(s, t) <==> t == k && t != Free {
      match t
      case Free =>
      case Held(c) => Owners(s, k);
      case Handed(n) => HandedExactly(s, k, n);
      case Zeroing(q) =>
    }
  }

  lemma ZeroesPerQueue(s: State, k: Token, q: Queue)
    requires Inv(s, k)
    ensures ZeroCount(Ops(s, q)) == if k == Zeroing(q) then 1 else 0
  {
    hide Clients, Nodes, Distinct, Taken, Queues;
    ZeroesAreEffects(Ops(s, q));
    var es := Effects(Ops(s, q));
    if es != [] {
      assert Effective(k, q);
      if |es| == 1 {
        OneOp(es[0], s.mem);
        assert es == [es[0]];
      } else {
        TwoOps(es[0], es[1], s.mem);
        assert es == [es[0], es[1]];
      }
    }
  }

  lemma HandedExactly(s: State, k: Token, n: nat)
    requires Inv(s, k)
    ensures (exists c :: HandedTo(s, n, c)) <==> k == Handed(n)
  {
    hide Queues, MemoryOk, Distinct;
    if k == Handed(n) {
      assert NodeOk(Node(s, n), s.streak, k, n);
      assert Waiter(s, n, Node(s, n).current);
      var c :| Busy(s, c) && c.node == n && At(s, c).ticket == Node(s, n).current;
      assert ClientOk(At(s, c), Node(s, c.node), s.streak, k, c);
      assert HandedTo(s, n, c);
    }
    forall c | HandedTo(s, n, c) ensures k == Handed(n) {
      assert ClientOk(At(s, c), Node(s, c.node), s.streak, k, c);
    }
  }

  /** Clients of a node go in the order of their tickets: who has a later one still waits. */
  lemma InTurn(ss: seq<State>, es: seq<Event>, i: nat, c: Client, d: Client)
    requires Run(ss, es) && i < |ss| && c.node == d.node && Busy(ss[i], c) && Busy(ss[i], d)
    requires At(ss[i], c).ticket < At(ss[i], d).ticket
    ensures Stg(ss[i], d) == Spin
  {
    var k := RunInv(ss, es, i);
    var s := ss[i];
    assert ClientOk(At(s, c), Node(s, c.node), s.streak, k, c);
    assert ClientOk(At(s, d), Node(s, d.node), s.streak, k, d);
  }

  /** hand_time never exceeds its bound, and one acquisition of the word serves at most 8 sections. */
  lemma HandOverBound(ss: seq<State>, es: seq<Event>, i: nat, n: nat)
    requires Run(ss, es) && i < |ss|
    ensures Node(ss[i], n).handTime <= MAX_HAND_OVER_TIME
    ensures forall c :: Owns(Stg(ss[i], c)) ==> ss[i].streak <= MAX_HAND_OVER_TIME
  {
    var k := RunInv(ss, es, i);
    var s := ss[i];
    assert NodeOk(Node(s, n), s.streak, k, n);
    forall c | Owns(Stg(s, c)) ensures s.streak <= MAX_HAND_OVER_TIME {
      assert ClientOk(At(s, c), Node(s, c.node), s.streak, k, c);
      assert NodeOk(Node(s, c.node), s.streak, k, c.node);
    }
  }

  // ---------------------------------------------------------------- hand-over

  /** A client of the same node has taken a later ticket. */
  ghost predicate Waited(s: State, c: Client) {
    exists d: Client :: d.node == c.node && Busy(s, d) && At(s, c).ticket < At(s, d).ticket
  }

  /**
    A client leaves its critical section with a hand-over exactly when another client of its node waits
    behind it and fewer than 8 critical sections have been entered since the word was taken; otherwise
    the remote word is given up.
  */
  lemma HandsOverIff(ss: seq<State>, es: seq<Event>, i: nat, c: Client)
    requires Run(ss, es) && i < |es| && es[i] == Decide(c)
    ensures Stg(ss[i + 1], c) == HandOver <==> Waited(ss[i], c) && ss[i].streak < 8
    ensures Stg(ss[i + 1], c) != HandOver ==> Stg(ss[i + 1], c) == Drop
  {
    var k := RunInv(ss, es, i);
    assert Moves(ss[i], es[i], ss[i + 1]);
    var s := ss[i];
    var l := Node(s, c.node);
    assert ClientOk(At(s, c), l, s.streak, k, c);
    if l.current + 1 < l.next {
      assert Waiter(s, c.node, l.current + 1);
    }
    forall d: Client | d.node == c.node && Busy(s, d) && At(s, c).ticket < At(s, d).ticket ensures l.current + 1 < l.next {
      assert ClientOk(At(s, d), Node(s, d.node), s.streak, k, d);
    }
  }

  /** The critical sections entered, by whichever client, since the word was last zero. */
  ghost function Sections(ss: seq<State>, i: nat): nat
    requires i < |ss|
  {
    if i == 0 || ss[i].word == None then 0
    else Sections(ss, i - 1) + (if Entered(ss[i - 1], ss[i]) then 1 else 0)
  }

  ghost predicate Entered(s: State, t: State) {
    exists c :: Enters(s, t, c)
  }

  ghost predicate Enters(s: State, t: State, c: Client) {
    !Owns(Stg(s, c)) && Owns(Stg(t, c))
  }

  /** The count of critical sections is what the name says. */
  lemma {:induction false} StreakCounts(ss: seq<State>, es: seq<Event>, i: nat)
    requires Run(ss, es) && i < |ss| && ss[i].word != None
    ensures ss[i].streak == Sections(ss, i)
  {
    hide Owns, Inv, Next, Enabled;
    assert i != 0;
    var k := RunInv(ss, es, i - 1);
    assert Moves(ss[i - 1], es[i - 1], ss[i]);
    if ss[i - 1].word != None {
      StreakCounts(ss, es, i - 1);
    }
    EntryCounts(ss[i - 1], k, es[i - 1]);
  }

  lemma EntryCounts(s: State, k: Token, e: Event)
    requires Enabled(s, e) && Inv(s, k) && Next(s, e).word != None
    ensures Next(s, e).streak ==
            (if s.word == None then 0 else s.streak) + (if Entered(s, Next(s, e)) then 1 else 0)
  {
    var t, k' := Next(s, e), NextToken(s, k, e);
    StepInv(s, k, e);
    Owners(s, k);
    Owners(t, k');
    EntryStep(s, k, e);
    hide Next, Inv, NextToken, Owns, Enabled;
    if k'.Held? && k != k' {
      assert Enters(s, t, k'.c);
    } else {
      forall c ensures !Enters(s, t, c) {
      }
    }
  }

  /** A step that leaves the word taken counts one more section exactly when the word gets a new holder. */
  lemma EntryStep(s: State, k: Token, e: Event)
    requires Enabled(s, e) && Inv(s, k) && Next(s, e).word != None
    ensures var k' := NextToken(s, k, e);
            Next(s, e).streak == (if s.word == None then 0 else s.streak) + (if k'.Held? && k != k' then 1 else 0)
  {
    hide Nodes, Distinct, Taken;
    if e.Deliver? {
      HeadOk(s, e.q);
    } else {
      assert ClientOk(At(s, e.c), Node(s, e.c.node), s.streak, k, e.c);
    }
  }

  /**
    A second client of a node gets the lock by a hand-over: it enters its critical section right after
    its turn has come, without any compare-and-swap of its own.
  */
  lemma FirstHandOver(c: Client, d: Client) returns (ss: seq<State>, es: seq<Event>)
    requires c.node == d.node && c != d
    ensures Run(ss, es) && |es| == 8 && Stg(ss[8], d) == Critical && es[7] == Enter(d) && PostCas(d) !in es
  {
    hide Next, Enabled;
    var tt, fs := FirstLock(c);
    var s4 := tt[4];
    HandOverSteps(s4, c, d);
    var s5 := Next(s4, TakeTicket(d));
    var s6 := Next(s5, Decide(c));
    var s7 := Next(s6, Pass(c));
    ss, es := tt + [s5, s6, s7, Next(s7, Enter(d))], fs + [TakeTicket(d), Decide(c), Pass(c), Enter(d)];
    forall i | 0 <= i < |es| ensures Moves(ss[i], es[i], ss[i + 1]) {
      assert i < 4 ==> Moves(tt[i], fs[i], tt[i + 1]);
    }
  }

  lemma HandOverSteps(s: State, c: Client, d: Client)
    requires c.node == d.node && c != d && Stg(s, c) == Critical && At(s, d) == Pc(Idle, 0) && Node(s, c.node) == Local(1, 0, false, 1)
    ensures Enabled(s, TakeTicket(d))
    ensures var s5 := Next(s, TakeTicket(d));
            Enabled(s5, Decide(c)) &&
            var s6 := Next(s5, Decide(c));
            Enabled(s6, Pass(c)) &&
            var s7 := Next(s6, Pass(c));
            Enabled(s7, Enter(d)) && Stg(Next(s7, Enter(d)), d) == Critical
  {
    var s5 := Next(s, TakeTicket(d));
    assert Stg(s5, c) == Critical && Stg(s5, d) == Spin && At(s5, d).ticket == 1 && Node(s5, c.node) == Local(2, 0, false, 1);
    var s6 := Next(s5, Decide(c));
    assert Stg(s6, c) == HandOver && At(s6, d) == At(s5, d) && Node(s6, c.node) == Local(2, 0, true, 1);
    var s7 := Next(s6, Pass(c));
    assert At(s7, d) == At(s5, d) && Node(s7, c.node) == Local(2, 1, true, 1);
  }

  /** After posting the unlock a client can pass the local lock on at once exactly when it does not wait for the completion. */
  lemma PassesAtOnceIff(ss: seq<State>, es: seq<Event>, i: nat)
    requires Run(ss, es) && i < |es| && (es[i].PostUnlock? || es[i].PostWriteUnlock?)
    ensures Enabled(ss[i + 1], Pass(es[i].c)) <==> es[i].async
  {
    assert Moves(ss[i], es[i], ss[i + 1]);
  }

  /**
    The local lock can be passed on while the write and the zero of the unlock are still on their way: the next
    client of the node already contends for the remote word, and memory is behind what was posted. It is
    then that `FreshRead` and `TokenConservation` are about late effects.
  */
  lemma LateUnlock(c: Client, d: Client, p: nat, v: nat) returns (ss: seq<State>, es: seq<Event>)
    requires c.node == d.node && c != d && v != 0
    ensures Run(ss, es) && |es| == 9 && Stg(ss[9], d) == Contend && Stg(ss[9], c) == Idle
    ensures Ops(ss[9], QueueOf(c)) == [Write(c, p, v, false), Zero(c, false)]
    ensures ss[9].word != None && Get(ss[9].mem, p) != Get(ss[9].posted, p)
  {
    hide Next, Enabled;
    var tt, fs := FirstLock(c);
    var s4 := tt[4];
    var e7 := PostWriteUnlock(c, p, v, true);
    LateSteps(s4, c, d, p, v);
    var s5 := Next(s4, Decide(c));
    var s6 := Next(s5, e7);
    var s7 := Next(s6, Pass(c));
    var s8 := Next(s7, TakeTicket(d));
    ss := tt + [s5, s6, s7, s8, Next(s8, Enter(d))];
    es := fs + [Decide(c), e7, Pass(c), TakeTicket(d), Enter(d)];
    forall i | 0 <= i < |es| ensures Moves(ss[i], es[i], ss[i + 1]) {
      assert i < 4 ==> Moves(tt[i], fs[i], tt[i + 1]);
    }
  }

  lemma LateSteps(s: State, c: Client, d: Client, p: nat, v: nat)
    requires c.node == d.node && c != d && v != 0
    requires Stg(s, c) == Critical && At(s, d) == Pc(Idle, 0) && Node(s, c.node) == Local(1, 0, false, 1)
    requires Ops(s, QueueOf(c)) == [] && s.word != None && Get(s.mem, p) == 0
    ensures Enabled(s, Decide(c))
    ensures var s5 := Next(s, Decide(c));
            var e := PostWriteUnlock(c, p, v, true);
            Enabled(s5, e) &&
            var s6 := Next(s5, e);
            Enabled(s6, Pass(c)) &&
            var s7 := Next(s6, Pass(c));
            Enabled(s7, TakeTicket(d)) &&
            var s8 := Next(s7, TakeTicket(d));
            Enabled(s8, Enter(d)) &&
            var s9 := Next(s8, Enter(d));
            && Stg(s9, d) == Contend && Stg(s9, c) == Idle && Ops(s9, QueueOf(c)) == [Write(c, p, v, false), Zero(c, false)]
            && s9.word != None && Get(s9.mem, p) == 0 && Get(s9.posted, p) == v
  {
    var s5 := Next(s, Decide(c));
    assert Stg(s5, c) == Drop && At(s5, d) == Pc(Idle, 0) && Node(s5, c.node) == Local(1, 0, false, 0);
    var s6 := Next(s5, PostWriteUnlock(c, p, v, true));
    assert Stg(s6, c) == Release && At(s6, d) == Pc(Idle, 0) && Node(s6, c.node) == Local(1, 0, false, 0);
    assert Ops(s6, QueueOf(c)) == [Write(c, p, v, false), Zero(c, false)] && Get(s6.posted, p) == v && Get(s6.mem, p) == 0;
    hide Next, Enabled;
    NextTurn(s6, c, d);
  }

  /** A client passes the turn on, and another one of the node takes a ticket and its turn. */
  lemma NextTurn(s: State, c: Client, d: Client)
    requires c.node == d.node && c != d
    requires Stg(s, c) == Release && At(s, d) == Pc(Idle, 0) && Node(s, c.node) == Local(1, 0, false, 0)
    ensures Enabled(s, Pass(c))
    ensures var t := Next(s, Pass(c));
            Enabled(t, TakeTicket(d)) &&
            var u := Next(t, TakeTicket(d));
            Enabled(u, Enter(d)) &&
            var w := Next(u, Enter(d));
            && Stg(w, d) == Contend && Stg(w, c) == Idle
            && w.queues == s.queues && w.word == s.word && w.mem == s.mem && w.posted == s.posted
  {
    var t := Next(s, Pass(c));
    assert Stg(t, c) == Idle && At(t, d) == Pc(Idle, 0) && Node(t, c.node) == Local(1, 1, false, 0);
    var u := Next(t, TakeTicket(d));
    assert Stg(u, c) == Idle && At(u, d) == Pc(Spin, 1) && Node(u, c.node) == Local(2, 1, false, 0);
  }

  // ---------------------------------------------------------------- nobody is stuck

  predicate Waits(g: Stage) {
    g == CasWait || g == ReadWait || g == WriteWait || g == HandWait || g == ZeroWait
  }

  /** The operation the client waits for is on its way. */
  ghost predicate Underway(s: State, c: Client) {
    exists i :: 0 <= i < |Ops(s, QueueOf(c))| && Ops(s, QueueOf(c))[i].c == c && Awaited(Ops(s, QueueOf(c))[i])
  }

  ghost predicate AllUnderway(s: State) {
    forall c :: Waits(Stg(s, c)) ==> Underway(s, c)
  }

  lemma DeliveryUnderway(s: State, q: Queue)
    requires Ops(s, q) != [] && Queues(s) && AllUnderway(s)
    ensures AllUnderway(Carry(s, q))
  {
    hide Carry;
    HeadOk(s, q);
    CarryBasics(s, q);
    DeliveredStage(s, q);
    var t, a := Carry(s, q), Ops(s, q)[0].c;
    forall c | Waits(Stg(t, c)) ensures Underway(t, c) {
      assert Waits(Stg(s, c));
      var i :| 0 <= i < |Ops(s, QueueOf(c))| && Ops(s, QueueOf(c))[i].c == c && Awaited(Ops(s, QueueOf(c))[i]);
      if QueueOf(c) == q {
        assert Ops(t, q)[i - 1] == Ops(s, q)[i];
      }
    }
  }

  /** A client whose awaited operation is carried out waits no more. */
  lemma DeliveredStage(s: State, q: Queue)
    requires Ops(s, q) != [] && OpOk(s, q, Ops(s, q)[0])
    ensures Awaited(Ops(s, q)[0]) ==> !Waits(Stg(Carry(s, q), Ops(s, q)[0].c))
  {
  }

  lemma PostUnderway(s: State, e: Event)
    requires Enabled(s, e) && !e.Deliver? && AllUnderway(s)
    ensures AllUnderway(Next(s, e))
  {
    hide Next, Enabled, Waits, Ops, Stg;
    PostEffects(s, e);
    var t := Next(s, e);
    forall c | Waits(Stg(t, c)) ensures Underway(t, c) {
      if c == e.c {
        WaitStage(s, e);
        var n := |Ops(t, QueueOf(c))| - 1;
        assert Ops(t, QueueOf(c))[n] == PostedOps(e)[|PostedOps(e)| - 1];
      } else {
        OtherStage(s, t, c);
        var i :| 0 <= i < |Ops(s, QueueOf(c))| && Ops(s, QueueOf(c))[i].c == c && Awaited(Ops(s, QueueOf(c))[i]);
        assert Ops(t, QueueOf(c))[i] == Ops(s, QueueOf(c))[i];
      }
    }
  }

  lemma OtherStage(s: State, t: State, c: Client)
    requires At(t, c) == At(s, c)
    ensures Stg(t, c) == Stg(s, c)
  {
  }

  /** Such a step makes its client wait only for the last operation it has posted. */
  lemma WaitStage(s: State, e: Event)
    requires Enabled(s, e) && !e.Deliver? && Waits(Stg(Next(s, e), e.c))
    ensures PostedOps(e) != []
    ensures var op := PostedOps(e)[|PostedOps(e)| - 1]; op.c == e.c && Awaited(op)
  {
  }

  lemma {:induction false} RunUnderway(ss: seq<State>, es: seq<Event>, i: nat)
    requires Run(ss, es) && i < |ss|
    ensures AllUnderway(ss[i])
  {
    hide Clients, Nodes, Distinct, Taken, Queues, MemoryOk, AllUnderway;
    if i == 0 {
      StartUnderway();
    } else {
      RunUnderway(ss, es, i - 1);
      var _ := RunInv(ss, es, i - 1);
      assert Moves(ss[i - 1], es[i - 1], ss[i]);
      if es[i - 1].Deliver? {
        DeliveryUnderway(ss[i - 1], es[i - 1].q);
      } else {
        PostUnderway(ss[i - 1], es[i - 1]);
      }
    }
  }

  lemma StartUnderway()
    ensures AllUnderway(START)
  {
  }

  /** The step is one of the client's own, or carries out what its thread has posted. */
  predicate Concerns(e: Event, d: Client) {
    if e.Deliver? then e.q == QueueOf(d) else e.c == d
  }

  /**
    The lock never gets stuck: while a client of a node has a ticket, the client of the node whose turn it
    is can make a step other than taking a ticket, or an operation its thread has posted can be carried out.
  */
  lemma NeverStuck(ss: seq<State>, es: seq<Event>, i: nat, c: Client) returns (d: Client, e: Event)
    requires Run(ss, es) && i < |ss| && Busy(ss[i], c)
    ensures d.node == c.node && Busy(ss[i], d) && At(ss[i], d).ticket == Node(ss[i], c.node).current <= At(ss[i], c).ticket
    ensures Enabled(ss[i], e) && !e.TakeTicket? && Concerns(e, d)
  {
    hide Nodes, Distinct, Queues, MemoryOk;
    var k := RunInv(ss, es, i);
    var s := ss[i];
    RunUnderway(ss, es, i);
    assert ClientOk(At(s, c), Node(s, c.node), s.streak, k, c);
    assert Waiter(s, c.node, Node(s, c.node).current);
    d :| Busy(s, d) && d.node == c.node && At(s, d).ticket == Node(s, c.node).current;
    e := OwnStep(s, d);
  }

  lemma OwnStep(s: State, d: Client) returns (e: Event)
    requires Busy(s, d) && At(s, d).ticket == Node(s, d.node).current && AllUnderway(s)
    ensures Enabled(s, e) && !e.TakeTicket? && Concerns(e, d)
  {
    e := match Stg(s, d)
         case Spin => Enter(d)
         case Contend => PostCas(d)
         case Critical => Decide(d)
         case HandOver => Pass(d)
         case Drop => PostUnlock(d, false)
         case Release => Pass(d)
         case _ => Deliver(QueueOf(d));
    if Waits(Stg(s, d)) {
      assert Underway(s, d);
    }
  }

  // ---------------------------------------------------------------- updates under the lock

  predicate Posts(e: Event, p: nat) {
    (e.PostWrite? || e.PostWriteUnlock?) && e.page == p
  }

  /** The contents posted for a page, in order. */
  function Writes(es: seq<Event>, p: nat): seq<nat> {
    if es == [] then []
    else Writes(es[..|es| - 1], p) + (if Posts(es[|es| - 1], p) then [es[|es| - 1].data] else [])
  }

  /** The content a page has once these are written. */
  function Latest(contents: seq<nat>): nat {
    if contents == [] then 0 else contents[|contents| - 1]
  }

  lemma PostedStep(ss: seq<State>, es: seq<Event>, n: nat, p: nat)
    requires Run(ss, es) && n < |es|
    ensures Get(ss[n + 1].posted, p) == if Posts(es[n], p) then es[n].data else Get(ss[n].posted, p)
  {
    hide Clients, Nodes, Distinct, Taken, Queues, MemoryOk, Enabled, Next;
    var _ := RunInv(ss, es, n);
    assert Moves(ss[n], es[n], ss[n + 1]);
    if es[n].Deliver? {
      DeliveryPosts(ss[n], es[n].q);
    } else {
      PostEffects(ss[n], es[n]);
    }
  }

  lemma DeliveryPosts(s: State, q: Queue)
    requires Queues(s) && Enabled(s, Deliver(q))
    ensures Next(s, Deliver(q)).posted == s.posted
  {
    HeadOk(s, q);
    CarryBasics(s, q);
  }

  lemma {:induction false} PostedIsLatest(ss: seq<State>, es: seq<Event>, n: nat, p: nat)
    requires Run(ss, es) && n < |ss|
    ensures Get(ss[n].posted, p) == Latest(Writes(es[..n], p))
  {
    hide Moves, Posts;
    if 0 < n {
      PostedIsLatest(ss, es, n - 1, p);
      PostedStep(ss, es, n - 1, p);
      assert es[..n][..n - 1] == es[..n - 1];
    }
  }

  /** While a client owns the lock nobody else posts a write. */
  lemma OnlyOwnerPosts(ss: seq<State>, es: seq<Event>, n: nat, c: Client, p: nat)
    requires Run(ss, es) && n < |es| && Owns(Stg(ss[n], c)) && Posts(es[n], p)
    ensures es[n].c == c
  {
    assert Moves(ss[n], es[n], ss[n + 1]);
    PostStage(ss[n], es[n]);
    MutualExclusion(ss, es, n, c, es[n].c);
  }

  /**
    At step `i` client `c` gets the content of page `p` that it asked for, at step `j` it posts a new one. In
    between it keeps the lock and posts nothing else for the page.
  */
  ghost predicate Update(ss: seq<State>, es: seq<Event>, i: nat, j: nat, c: Client, p: nat) {
    && i < j < |es| < |ss| && (forall n :: i <= n <= j ==> Owns(Stg(ss[n], c)))
    && es[i].Deliver? && Ops(ss[i], es[i].q) != [] && Ops(ss[i], es[i].q)[0] == Read(c, p)
    && Posts(es[j], p) && es[j].c == c
    && (forall n :: i < n < j && Posts(es[n], p) ==> es[n].c != c)
  }

  lemma {:induction false} NothingPosted(ss: seq<State>, es: seq<Event>, i: nat, j: nat, c: Client, p: nat)
    requires Run(ss, es) && i <= j <= |es| && forall n :: i <= n < j ==> Owns(Stg(ss[n], c))
    requires forall n :: i <= n < j && Posts(es[n], p) ==> es[n].c != c
    ensures Writes(es[..j], p) == Writes(es[..i], p)
    decreases j
  {
    hide Moves;
    if i < j {
      NothingPosted(ss, es, i, j - 1, c, p);
      if Posts(es[j - 1], p) {
        OnlyOwnerPosts(ss, es, j - 1, c, p);
      }
      assert es[..j][..j - 1] == es[..j - 1];
    }
  }

  /**
    What an update posts follows directly, among all contents ever posted for the page, on the content the
    update has read: no other write comes between them, from whichever node, and none is overlooked
    that is still in flight.
  */
  lemma UpdateChain(ss: seq<State>, es: seq<Event>, i: nat, j: nat, c: Client, p: nat)
    requires Run(ss, es) && Update(ss, es, i, j, c, p)
    ensures Get(ss[i].mem, p) == Latest(Writes(es[..j], p))
    ensures Writes(es[..j + 1], p) == Writes(es[..i], p) + [es[j].data]
  {
    hide Moves, Owns;
    FreshRead(ss, es, i, es[i].q);
    PostedIsLatest(ss, es, i, p);
    NothingPosted(ss, es, i, j, c, p);
    assert es[..j + 1][..j] == es[..j];
  }

  /** A first client gets the lock. */
  lemma FirstLock(c: Client) returns (ss: seq<State>, es: seq<Event>)
    ensures Run(ss, es) && |es| == 4 && Stg(ss[4], c) == Critical && Ops(ss[4], QueueOf(c)) == []
    ensures es == [TakeTicket(c), Enter(c), PostCas(c), Deliver(QueueOf(c))]
    ensures Node(ss[4], c.node) == Local(1, 0, false, 1) && forall d :: d != c ==> At(ss[4], d) == Pc(Idle, 0)
    ensures ss[4].word != None && ss[4].mem == map[] && ss[4].posted == map[]
  {
    var q := QueueOf(c);
    es := [TakeTicket(c), Enter(c), PostCas(c), Deliver(q)];
    var s2 := FirstTurn(c);
    FirstCas(s2, c);
    hide Next, Enabled;
    ss := [START, Next(START, es[0]), s2, Next(s2, es[2]), Next(Next(s2, es[2]), es[3])];
  }

  lemma FirstTurn(c: Client) returns (s: State)
    ensures Enabled(START, TakeTicket(c)) && Enabled(Next(START, TakeTicket(c)), Enter(c))
    ensures s == Next(Next(START, TakeTicket(c)), Enter(c))
    ensures Stg(s, c) == Contend && Ops(s, QueueOf(c)) == [] && s.word == None && Node(s, c.node) == Local(1, 0, false, 1)
    ensures s.mem == map[] && s.posted == map[] && forall d :: d != c ==> At(s, d) == Pc(Idle, 0)
  {
    var t := Next(START, TakeTicket(c));
    assert Stg(t, c) == Spin && Node(t, c.node) == Local(1, 0, false, 0) && At(t, c).ticket == 0;
    s := Next(t, Enter(c));
  }

  lemma FirstCas(s: State, c: Client)
    requires Stg(s, c) == Contend && Ops(s, QueueOf(c)) == [] && s.word == None
    ensures Enabled(s, PostCas(c)) && Enabled(Next(s, PostCas(c)), Deliver(QueueOf(c)))
    ensures var t := Next(Next(s, PostCas(c)), Deliver(QueueOf(c)));
            && Stg(t, c) == Critical && Ops(t, QueueOf(c)) == [] && Node(t, c.node) == Node(s, c.node)
            && t.word != None && t.mem == s.mem && t.posted == s.posted
            && forall d :: d != c ==> At(t, d) == At(s, d)
  {
    var t := Next(s, PostCas(c));
    assert Stg(t, c) == CasWait && Ops(t, QueueOf(c)) == [Cas(c)];
  }

  /** Then it reads a page and posts content for it. */
  lemma FirstUpdate(c: Client, p: nat, v: nat) returns (ss: seq<State>, es: seq<Event>)
    ensures Run(ss, es) && Update(ss, es, 5, 6, c, p) && es[6] == PostWrite(c, p, v)
  {
    assert Owns(ReadWait) && Owns(Critical);
    hide Owns, Next, Enabled;
    var q := QueueOf(c);
    var tt, fs := FirstLock(c);
    var s4 := tt[4];
    CriticalSteps(s4, c, p, v);
    var s5 := Next(s4, PostRead(c, p));
    var s6 := Next(s5, Deliver(q));
    ss, es := tt + [s5, s6, Next(s6, PostWrite(c, p, v))], fs + [PostRead(c, p), Deliver(q), PostWrite(c, p, v)];
    forall i | 0 <= i < |es| ensures Moves(ss[i], es[i], ss[i + 1]) {
      assert i < 4 ==> Moves(tt[i], fs[i], tt[i + 1]);
    }
  }

  lemma CriticalSteps(s: State, c: Client, p: nat, v: nat)
    requires Stg(s, c) == Critical && Ops(s, QueueOf(c)) == []
    ensures Enabled(s, PostRead(c, p))
    ensures var t := Next(s, PostRead(c, p));
            && Stg(t, c) == ReadWait && Ops(t, QueueOf(c)) == [Read(c, p)] && Enabled(t, Deliver(QueueOf(c)))
            && Stg(Next(t, Deliver(QueueOf(c))), c) == Critical
            && Enabled(Next(t, Deliver(QueueOf(c))), PostWrite(c, p, v))
  {
  }

  /** The page after the updates of a run one at a time, step `n` turning content `d` into `f(n, d)`. */
  function Serial(es: seq<Event>, f: (nat, nat) -> nat, p: nat): nat {
    if es == [] then 0
    else
      var before := Serial(es[..|es| - 1], f, p);
      if Posts(es[|es| - 1], p) then f(|es| - 1, before) else before
  }

  /** Every content posted for the page is computed from what its client has read under the lock. */
  ghost predicate Updates(ss: seq<State>, es: seq<Event>, f: (nat, nat) -> nat, p: nat) {
    forall j :: 0 <= j < |es| && Posts(es[j], p) ==> Computed(ss, es, j, f, p)
  }

  ghost predicate Computed(ss: seq<State>, es: seq<Event>, j: nat, f: (nat, nat) -> nat, p: nat)
    requires j < |es| && Posts(es[j], p)
  {
    exists i: nat :: Update(ss, es, i, j, es[j].c, p) && es[j].data == f(j, Get(ss[i].mem, p))
  }

  /**
    Page updates are atomic: whatever clients of whatever nodes do, the contents posted are those of the
    same updates made one at a time, and so is memory once no write to the page is in flight.
  */
  lemma {:induction false} SerialUpdates(ss: seq<State>, es: seq<Event>, n: nat, f: (nat, nat) -> nat, p: nat)
    requires Run(ss, es) && n < |ss| && Updates(ss, es, f, p)
    ensures Get(ss[n].posted, p) == Serial(es[..n], f, p)
    ensures (forall q :: Effects(Ops(ss[n], q)) == []) ==> Get(ss[n].mem, p) == Serial(es[..n], f, p)
  {
    hide Moves, Computed;
    if 0 < n {
      SerialUpdates(ss, es, n - 1, f, p);
      PostedStep(ss, es, n - 1, p);
      assert es[..n][..n - 1] == es[..n - 1];
      if Posts(es[n - 1], p) {
        ComputedFromLast(ss, es, n - 1, f, p);
      }
    }
    var k := RunInv(ss, es, n);
    Settled(ss[n], k, p);
  }

  lemma ComputedFromLast(ss: seq<State>, es: seq<Event>, j: nat, f: (nat, nat) -> nat, p: nat)
    requires Run(ss, es) && j < |es| && Posts(es[j], p) && Computed(ss, es, j, f, p)
    ensures es[j].data == f(j, Get(ss[j].posted, p))
  {
    var i: nat :| Update(ss, es, i, j, es[j].c, p) && es[j].data == f(j, Get(ss[i].mem, p));
    UpdateChain(ss, es, i, j, es[j].c, p);
    PostedIsLatest(ss, es, j, p);
  }

  lemma Settled(s: State, k: Token, p: nat)
    requires MemoryOk(s, k)
    ensures (forall q :: Effects(Ops(s, q)) == []) ==> Get(s.mem, p) == Get(s.posted, p)
  {
  }

  // ---------------------------------------------------------------- the packed ticket word

  const HALF: nat := 0x1_0000_0000

  /** ticket_lock holds `current` in the high and `next` in the low half. */
  function Packed(current: nat, next: nat): nat {
    current * HALF + next
  }

  function LowHalf(w: nat): nat {
    w % HALF
  }

  function HighHalf(w: nat): nat {
    w / HALF
  }

  /** fetch_add on the 64-bit word. */
  function FetchAdd(w: nat, d: nat): nat {
    (w + d) % (HALF * HALF)
  }

  /**
    Taking a ticket by adding 1 to the packed word leaves the turn alone exactly while the low half
    does not overflow: the 2^32-th ticket of a lock word would advance `current` instead.
  */
  lemma TicketCarry(current: nat, next: nat)
    requires current < HALF - 1 && next < HALF
    ensures (LowHalf(FetchAdd(Packed(current, next), 1)) == next + 1 && HighHalf(FetchAdd(Packed(current, next), 1)) == current)
            <==> next + 1 < HALF
    ensures next + 1 == HALF ==> HighHalf(FetchAdd(Packed(current, next), 1)) == current + 1
  {
  }

  /** Passing the turn on adds one to the high half only. */
  lemma TurnCarry(current: nat, next: nat)
    requires current < HALF - 1 && next < HALF
    ensures LowHalf(FetchAdd(Packed(current, next), HALF)) == next
    ensures HighHalf(FetchAdd(Packed(current, next), HALF)) == current + 1
  {
  }
}

/**
  The local half of the lock as one object per lock word on a compute node: a packed 64-bit ticket
  word and the hand-over state (include/Tree.h:12-16, src/Tree.cpp:1125-1173).
*/
module LocalLocks {
  import opened HierLock

  class LocalLockNode {
    var ticketLock: nat
    var handOver: bool
    var handTime: nat

    /** The node's lock as the step system sees it. */
    function Value(): Local
      reads this
    {
      Local(LowHalf(ticketLock), HighHalf(ticketLock), handOver, handTime)
    }

    predicate Valid()
      reads this
    {
      ticketLock < HALF * HALF && HighHalf(ticketLock) < HALF - 1 && handTime <= MAX_HAND_OVER_TIME
    }

    constructor ()
      ensures Valid() && Value() == Local(0, 0, false, 0)
    {
      ticketLock, handOver, handTime := 0, false, 0;
    }

    lemma Repack()
      requires Valid()
      ensures ticketLock == Packed(HighHalf(ticketLock), LowHalf(ticketLock)) && LowHalf(ticketLock) < HALF
    {
    }

    /** fetch_add(1): the step TakeTicket, as long as fewer than 2^32 tickets were taken. */
    method TakeTicket() returns (ticket: nat)
      requires Valid() && LowHalf(ticketLock) + 1 < HALF
      modifies this`ticketLock
      ensures Valid() && ticket == old(Value()).next
      ensures Value() == old(Value()).(next := ticket + 1)
    {
      Repack();
      TicketCarry(HighHalf(ticketLock), LowHalf(ticketLock));
      ticket := LowHalf(ticketLock);
      ticketLock := FetchAdd(ticketLock, 1);
    }

    /** The turn has come: the step Enter. */
    method Enter() returns (handedOver: bool)
      requires Valid() && handTime < MAX_HAND_OVER_TIME
      modifies this`handTime
      ensures Valid() && handedOver == old(handOver)
      ensures Value() == old(Value()).(handTime := old(handTime) + 1)
    {
      handTime := handTime + 1;
      handedOver := handOver;
    }

    /** can_hand_over: the step Decide. */
    method CanHandOver() returns (h: bool)
      requires Valid()
      modifies this`handOver, this`handTime
      ensures Valid() && Value() == Decided(old(Value())) && h == Value().handOver
      ensures h <==> old(Value()).current + 1 < old(Value()).next && old(handTime) < 8
    {
      var ticket, current := LowHalf(ticketLock), HighHalf(ticketLock);
      if ticket <= current + 1 {
        handOver := false;
      } else {
        handOver := handTime < MAX_HAND_OVER_TIME;
      }
      if !handOver {
        handTime := 0;
      }
      h := handOver;
    }

    /** releases_local_lock: the step Pass. */
    method Release()
      requires Valid() && HighHalf(ticketLock) + 1 < HALF - 1
      modifies this`ticketLock
      ensures Valid() && Value() == old(Value()).(current := old(Value()).current + 1)
    {
      Repack();
      TurnCarry(HighHalf(ticketLock), LowHalf(ticketLock));
      ticketLock := FetchAdd(ticketLock, HALF);
    }
  }
}
