/**
  One client thread's coroutines: workers that suspend on a signalled operation or on a held local
  lock, and the master that resumes them from the completion queue and the hot-wait queue
  (src/Tree.cpp:1060-1142; src/DSM.cpp:111-124, 433-449, 516-523).
*/
module CoroMaster {

  /**
    A reason to resume a worker. A completion carries the worker's number as its work-request id; the
    serial number, which the code does not have, tells apart the operations one worker posts.
  */
  datatype Wake = Completion(coro: nat, serial: nat) | Queued(coro: nat)

  datatype Turn = Poll | Hot

  datatype Active = Master | Worker(coro: nat)

  /** `suspended` maps each suspended worker to what it waits for. */
  datatype Thread = Thread(started: nat, active: Active, turn: Turn, suspended: map<nat, Wake>, posts: nat,
                           inFlight: multiset<Wake>, cq: seq<Wake>, hotWaitQueue: seq<Wake>)

  datatype Step =
    | Start
    | PostAndYield
    | QueueAndYield
    | Complete(w: Wake)
    | PollHit
    | PollMiss
    | PopHot
    | HotEmpty

  predicate Enabled(t: Thread, n: nat, e: Step) {
    match e
    case Start => t.active.Master? && t.started < n
    case PostAndYield => t.active.Worker?
    case QueueAndYield => t.active.Worker?
    case Complete(w) => w in t.inFlight
    case PollHit => t.active.Master? && t.started == n && t.turn.Poll? && t.cq != []
    case PollMiss => t.active.Master? && t.started == n && t.turn.Poll? && t.cq == []
    case PopHot => t.active.Master? && t.started == n && t.turn.Hot? && t.hotWaitQueue != []
    case HotEmpty => t.active.Master? && t.started == n && t.turn.Hot? && t.hotWaitQueue == []
  }

  function Next(t: Thread, n: nat, e: Step): Thread
    requires Enabled(t, n, e)
  {
    match e
    case Start => t.(active := Worker(t.started), started := t.started + 1)
    case PostAndYield =>
      var w := Completion(t.active.coro, t.posts);
      t.(active := Master, suspended := t.suspended[t.active.coro := w], posts := t.posts + 1, inFlight := t.inFlight + multiset{w})
    case QueueAndYield =>
      var w := Queued(t.active.coro);
      t.(active := Master, suspended := t.suspended[t.active.coro := w], hotWaitQueue := t.hotWaitQueue + [w])
    case Complete(w) => t.(inFlight := t.inFlight - multiset{w}, cq := t.cq + [w])
    case PollHit => Resume(t, t.cq[0].coro).(cq := t.cq[1..], turn := Hot)
    case PollMiss => t.(turn := Hot)
    case PopHot => Resume(t, t.hotWaitQueue[0].coro).(hotWaitQueue := t.hotWaitQueue[1..], turn := Poll)
    case HotEmpty => t.(turn := Poll)
  }

  /** Whatever worker `i` waits for, it runs on. */
  function Resume(t: Thread, i: nat): Thread {
    t.(active := Worker(i), suspended := t.suspended - {i})
  }

  const START := Thread(0, Master, Poll, map[], 0, multiset{}, [], [])

  /** Any interleaving of the workers, the master and the network card. */
  ghost predicate Run(ts: seq<Thread>, n: nat, es: seq<Step>) {
    |ts| == |es| + 1 && ts[0] == START && forall i :: 0 <= i < |es| ==> Moves(ts[i], n, es[i], ts[i + 1])
  }

  ghost predicate Moves(t: Thread, n: nat, e: Step, u: Thread) {
    Enabled(t, n, e) && u == Next(t, n, e)
  }

  /** Every wake-up on its way to the master. */
  function PendingWakes(t: Thread): multiset<Wake> {
    t.inFlight + multiset(t.cq) + multiset(t.hotWaitQueue)
  }

  ghost predicate Suspended(t: Thread, n: nat) {
    && t.started <= n
    && (t.active.Worker? ==> t.active.coro < t.started)
    && (forall i: nat :: i in t.suspended <==> i < t.started && t.active != Worker(i))
    && (forall i :: i in t.suspended ==> t.suspended[i].coro == i)
    && (forall i :: i in t.suspended && t.suspended[i].Completion? ==> t.suspended[i].serial < t.posts)
  }

  ghost predicate Kinds(t: Thread) {
    && (forall w :: w in t.inFlight ==> w.Completion?)
    && (forall w :: w in t.cq ==> w.Completion?)
    && (forall w :: w in t.hotWaitQueue ==> w.Queued?)
  }

  /** The pending wake-ups are exactly those the suspended workers wait for, each once. */
  ghost predicate Matched(t: Thread) {
    PendingWakes(t) == multiset(t.suspended.Values)
  }

  ghost predicate Inv(t: Thread, n: nat) {
    Suspended(t, n) && Kinds(t) && Matched(t)
  }

  lemma SuspendValues(m: map<nat, Wake>, i: nat, w: Wake)
    requires i !in m && w.coro == i && forall j :: j in m ==> m[j].coro == j
    ensures multiset(m[i := w].Values) == multiset(m.Values) + multiset{w}
  {
    var q := m[i := w];
    assert w !in m.Values;
    assert q.Values == m.Values + {w} by {
      forall x | x in m.Values + {w} ensures x in q.Values {
        if x == w {
          assert q[i] == w;
        } else {
          var j :| j in m && m[j] == x;
          assert q[j] == x;
        }
      }
    }
  }

  lemma ResumeValues(m: map<nat, Wake>, i: nat)
    requires i in m && forall j :: j in m ==> m[j].coro == j
    ensures multiset(m.Values) == multiset((m - {i}).Values) + multiset{m[i]}
  {
    assert m == (m - {i})[i := m[i]];
    SuspendValues(m - {i}, i, m[i]);
  }

  lemma HeadAndTail(ws: seq<Wake>)
    requires ws != []
    ensures multiset(ws) == multiset{ws[0]} + multiset(ws[1..])
  {
    assert ws == [ws[0]] + ws[1..];
  }

  lemma Cancel(a: multiset<Wake>, b: multiset<Wake>, w: Wake)
    requires a + multiset{w} == b + multiset{w}
    ensures a == b
  {
    assert a == a + multiset{w} - multiset{w};
    assert b == b + multiset{w} - multiset{w};
  }

  /** The head of a queue is what the worker it names waits for. */
  lemma HeadIsAwaited(t: Thread, n: nat, w: Wake)
    requires Inv(t, n) && (w in t.cq || w in t.hotWaitQueue || w in t.inFlight)
    ensures w.coro in t.suspended && t.suspended[w.coro] == w
  {
    assert w in PendingWakes(t);
    assert w in t.suspended.Values;
    var i :| i in t.suspended && t.suspended[i] == w;
  }

  lemma StepSuspended(t: Thread, n: nat, e: Step)
    requires Inv(t, n) && Enabled(t, n, e)
    ensures Suspended(Next(t, n, e), n)
  {
    hide Kinds, Matched, Suspended;
    if e.PollHit? {
      HeadIsAwaited(t, n, t.cq[0]);
      ResumeSuspended(t, n, t.cq[0].coro);
      SameSuspended(Resume(t, t.cq[0].coro), Next(t, n, e), n);
    } else if e.PopHot? {
      HeadIsAwaited(t, n, t.hotWaitQueue[0]);
      ResumeSuspended(t, n, t.hotWaitQueue[0].coro);
      SameSuspended(Resume(t, t.hotWaitQueue[0].coro), Next(t, n, e), n);
    } else if e.PostAndYield? || e.QueueAndYield? || e.Start? {
      YieldSuspended(t, n, e);
    } else {
      SameSuspended(t, Next(t, n, e), n);
    }
  }

  lemma SameSuspended(t: Thread, u: Thread, n: nat)
    requires Suspended(t, n)
    requires u.started == t.started && u.active == t.active && u.suspended == t.suspended && u.posts == t.posts
    ensures Suspended(u, n)
  {
  }

  lemma ResumeSuspended(t: Thread, n: nat, i: nat)
    requires Suspended(t, n) && t.active.Master? && i in t.suspended
    ensures Suspended(Resume(t, i), n)
  {
  }

  lemma YieldSuspended(t: Thread, n: nat, e: Step)
    requires Suspended(t, n) && Enabled(t, n, e) && (e.PostAndYield? || e.QueueAndYield? || e.Start?)
    ensures Suspended(Next(t, n, e), n)
  {
  }

  lemma StepKinds(t: Thread, n: nat, e: Step)
    requires Kinds(t) && Enabled(t, n, e)
    ensures Kinds(Next(t, n, e))
  {
  }

  lemma PostMatched(t: Thread, n: nat)
    requires Inv(t, n) && t.active.Worker?
    ensures Matched(Next(t, n, PostAndYield))
  {
    SuspendValues(t.suspended, t.active.coro, Completion(t.active.coro, t.posts));
  }

  lemma QueueMatched(t: Thread, n: nat)
    requires Inv(t, n) && t.active.Worker?
    ensures Matched(Next(t, n, QueueAndYield))
  {
    SuspendValues(t.suspended, t.active.coro, Queued(t.active.coro));
  }

  lemma CompleteMatched(t: Thread, n: nat, w: Wake)
    requires Matched(t) && w in t.inFlight
    ensures Matched(Next(t, n, Complete(w)))
  {
  }

  lemma PollMatched(t: Thread, n: nat)
    requires Inv(t, n) && Enabled(t, n, PollHit)
    ensures Matched(Next(t, n, PollHit))
  {
    HeadIsAwaited(t, n, t.cq[0]);
    HeadAndTail(t.cq);
    ResumeValues(t.suspended, t.cq[0].coro);
    var u := Next(t, n, PollHit);
    Cancel(PendingWakes(u), multiset(u.suspended.Values), t.cq[0]);
  }

  lemma PopMatched(t: Thread, n: nat)
    requires Inv(t, n) && Enabled(t, n, PopHot)
    ensures Matched(Next(t, n, PopHot))
  {
    HeadIsAwaited(t, n, t.hotWaitQueue[0]);
    HeadAndTail(t.hotWaitQueue);
    ResumeValues(t.suspended, t.hotWaitQueue[0].coro);
    var u := Next(t, n, PopHot);
    Cancel(PendingWakes(u), multiset(u.suspended.Values), t.hotWaitQueue[0]);
  }

  lemma QueuesKept(t: Thread, n: nat, e: Step)
    requires Enabled(t, n, e) && (e.Start? || e.PollMiss? || e.HotEmpty?)
    ensures PendingWakes(Next(t, n, e)) == PendingWakes(t)
  {
  }

  /** Every step of a worker, the master or the network card keeps wake-ups and waits in step. */
  lemma StepInv(t: Thread, n: nat, e: Step)
    requires Inv(t, n) && Enabled(t, n, e)
    ensures Inv(Next(t, n, e), n)
  {
    hide Suspended, Kinds, PendingWakes;
    StepSuspended(t, n, e);
    StepKinds(t, n, e);
    match e
    case Start => QueuesKept(t, n, e);
    case PostAndYield => PostMatched(t, n);
    case QueueAndYield => QueueMatched(t, n);
    case Complete(w) => CompleteMatched(t, n, w);
    case PollHit => PollMatched(t, n);
    case PollMiss => QueuesKept(t, n, e);
    case PopHot => PopMatched(t, n);
    case HotEmpty => QueuesKept(t, n, e);
  }

  lemma {:induction false} RunInv(ts: seq<Thread>, n: nat, es: seq<Step>, i: nat)
    requires Run(ts, n, es) && i < |ts|
    ensures Inv(ts[i], n)
  {
    if i == 0 {
      assert START.suspended.Values == {};
    } else {
      RunInv(ts, n, es, i - 1);
      assert Moves(ts[i - 1], n, es[i - 1], ts[i - 1 + 1]);
      StepInv(ts[i - 1], n, es[i - 1]);
    }
  }

  /**
    Whenever the master runs after start-up, every worker has exactly one pending wake-up: one
    completion of the operation it waits for, or one occurrence in the hot-wait queue.
  */
  lemma OneWakeUpEach(ts: seq<Thread>, n: nat, es: seq<Step>, i: nat, coro: nat)
    requires Run(ts, n, es) && i < |ts| && ts[i].active.Master? && ts[i].started == n && coro < n
    ensures coro in ts[i].suspended
    ensures var w := ts[i].suspended[coro];
            && PendingWakes(ts[i])[w] == 1
            && (forall x :: x in PendingWakes(ts[i]) && x.coro == coro ==> x == w)
            && (if w.Completion? then w in ts[i].inFlight + multiset(ts[i].cq) else w in multiset(ts[i].hotWaitQueue))
  {
    RunInv(ts, n, es, i);
    var t := ts[i];
    var w := t.suspended[coro];
    assert w in t.suspended.Values && w in PendingWakes(t);
    assert w in t.inFlight || w in t.cq || w in t.hotWaitQueue;
    forall x | x in PendingWakes(t) && x.coro == coro ensures x == w {
      HeadIsAwaited(t, n, x);
    }
  }

  /** The worker the master resumes exists and waits for the very wake-up that resumed it. */
  lemma RightWakeUp(ts: seq<Thread>, n: nat, es: seq<Step>, i: nat)
    requires Run(ts, n, es) && i < |es| && (es[i].PollHit? || es[i].PopHot?)
    ensures ts[i + 1].active.Worker? && ts[i + 1].active.coro < n
    ensures var c := ts[i + 1].active.coro;
            && c in ts[i].suspended
            && (if es[i].PollHit? then ts[i].cq != [] && ts[i].suspended[c] == ts[i].cq[0]
                else ts[i].hotWaitQueue != [] && ts[i].suspended[c] == ts[i].hotWaitQueue[0])
  {
    RunInv(ts, n, es, i);
    assert Moves(ts[i], n, es[i], ts[i + 1]);
    HeadIsAwaited(ts[i], n, if es[i].PollHit? then ts[i].cq[0] else ts[i].hotWaitQueue[0]);
  }

  /** The queues never hold more than one element a worker, so the thread is never starved of room. */
  lemma {:induction false} QueuesBounded(ts: seq<Thread>, n: nat, es: seq<Step>, i: nat)
    requires Run(ts, n, es) && i < |ts|
    ensures |ts[i].inFlight| + |ts[i].cq| + |ts[i].hotWaitQueue| <= n
  {
    RunInv(ts, n, es, i);
    var t := ts[i];
    ValuesSize(t.suspended, n);
    assert |PendingWakes(t)| == |t.inFlight| + |t.cq| + |t.hotWaitQueue|;
  }

  lemma {:induction false} ValuesSize(m: map<nat, Wake>, n: nat)
    requires forall i :: i in m ==> i < n && m[i].coro == i
    ensures |multiset(m.Values)| <= n
  {
    if n == 0 {
      assert m.Values == {};
    } else if n - 1 in m {
      ValuesSize(m - {n - 1}, n - 1);
      ResumeValues(m, n - 1);
    } else {
      ValuesSize(m, n - 1);
    }
  }

  // ---------------------------------------------------------------- nobody waits forever in a queue

  /** The queue the master looks at in turn `r`: the completion queue or the hot-wait queue. */
  function Queue(t: Thread, r: Turn): seq<Wake> {
    if r.Poll? then t.cq else t.hotWaitQueue
  }

  /** The master looks at the queue of turn `r`, finding something or not. */
  predicate Looks(e: Step, r: Turn) {
    Takes(e, r) || (if r.Poll? then e.PollMiss? else e.HotEmpty?)
  }

  /** The master resumes the first worker of the queue of turn `r`. */
  predicate Takes(e: Step, r: Turn) {
    if r.Poll? then e.PollHit? else e.PopHot?
  }

  function Other(r: Turn): Turn {
    if r.Poll? then Hot else Poll
  }

  /** How many workers the master has resumed from the queue of turn `r`. */
  function Taken(es: seq<Step>, r: Turn): nat {
    if es == [] then 0 else Taken(es[..|es| - 1], r) + (if Takes(es[|es| - 1], r) then 1 else 0)
  }

  /** Once all workers have started, the master always looks at the queue of its turn, and takes from it if it can. */
  lemma MasterSteps(t: Thread, n: nat, e: Step)
    requires t.active.Master? && t.started == n && !e.Complete?
    ensures Enabled(t, n, e) <==> Looks(e, t.turn) && (Takes(e, t.turn) <==> Queue(t, t.turn) != [])
  {
  }

  lemma TurnStep(t: Thread, n: nat, e: Step, r: Turn)
    requires Enabled(t, n, e)
    ensures Looks(e, r) ==> t.turn == r && Next(t, n, e).turn == Other(r)
    ensures !Looks(e, Poll) && !Looks(e, Hot) ==> Next(t, n, e).turn == t.turn
    ensures Looks(e, r) && !Takes(e, r) ==> Queue(t, r) == []
  {
  }

  lemma {:induction false} TurnKept(ts: seq<Thread>, n: nat, es: seq<Step>, i: nat, j: nat, r: Turn)
    requires Run(ts, n, es) && i <= j < |ts| && ts[i].turn == r && forall m :: i <= m < j ==> !Looks(es[m], r)
    ensures ts[j].turn == r
    decreases j
  {
    hide Next, Enabled, Looks;
    if i < j {
      TurnKept(ts, n, es, i, j - 1, r);
      assert Moves(ts[j - 1], n, es[j - 1], ts[j - 1 + 1]);
      TurnStep(ts[j - 1], n, es[j - 1], Poll);
      TurnStep(ts[j - 1], n, es[j - 1], Hot);
    }
  }

  /**
    The master never looks at the same queue twice in a row: between two looks at the completion queue it
    looks at the hot-wait queue, and the other way round.
  */
  lemma LooksAlternate(ts: seq<Thread>, n: nat, es: seq<Step>, i: nat, j: nat, r: Turn)
    requires Run(ts, n, es) && i < j < |es| && Looks(es[i], r) && Looks(es[j], r)
    ensures exists m :: i < m < j && Looks(es[m], Other(r))
  {
    hide Next, Enabled, Looks;
    assert Moves(ts[i], n, es[i], ts[i + 1]) && Moves(ts[j], n, es[j], ts[j + 1]);
    TurnStep(ts[i], n, es[i], r);
    TurnStep(ts[j], n, es[j], r);
    if forall m :: i < m < j ==> !Looks(es[m], Other(r)) {
      TurnKept(ts, n, es, i + 1, j, Other(r));
    }
  }

  lemma QueueStep(t: Thread, n: nat, e: Step, q: nat, r: Turn)
    requires Enabled(t, n, e) && q < |Queue(t, r)| && (Takes(e, r) ==> 0 < q)
    ensures var k := if Takes(e, r) then q - 1 else q;
            k < |Queue(Next(t, n, e), r)| && Queue(Next(t, n, e), r)[k] == Queue(t, r)[q]
  {
  }

  /** First in, first out: a wake-up at position `p` of a queue moves up with every one taken from it. */
  lemma {:induction false} MovesUp(ts: seq<Thread>, n: nat, es: seq<Step>, i: nat, j: nat, p: nat, r: Turn)
    requires Run(ts, n, es) && i <= j < |ts| && p < |Queue(ts[i], r)| && Taken(es[i..j], r) <= p
    ensures var q := p - Taken(es[i..j], r); q < |Queue(ts[j], r)| && Queue(ts[j], r)[q] == Queue(ts[i], r)[p]
    decreases j
  {
    hide Next, Enabled, Takes, Queue;
    if i == j {
      assert es[i..j] == [];
    } else {
      assert es[i..j][..j - 1 - i] == es[i..j - 1];
      MovesUp(ts, n, es, i, j - 1, p, r);
      assert Moves(ts[j - 1], n, es[j - 1], ts[j - 1 + 1]);
      QueueStep(ts[j - 1], n, es[j - 1], p - Taken(es[i..j - 1], r), r);
    }
  }

  /** So its worker is resumed when `p` others have been. */
  lemma ResumedInTurn(ts: seq<Thread>, n: nat, es: seq<Step>, i: nat, j: nat, p: nat, r: Turn)
    requires Run(ts, n, es) && i <= j < |es| && p < |Queue(ts[i], r)| && Taken(es[i..j], r) == p && Takes(es[j], r)
    ensures ts[j + 1].active == Worker(Queue(ts[i], r)[p].coro)
  {
    MovesUp(ts, n, es, i, j, p, r);
    assert Moves(ts[j], n, es[j], ts[j + 1]);
  }

  /** While a wake-up waits in one queue, the other one gets at most one turn more. */
  lemma {:induction false} FairTurns(ts: seq<Thread>, n: nat, es: seq<Step>, i: nat, j: nat, p: nat, r: Turn)
    requires Run(ts, n, es) && i <= j < |ts| && p < |Queue(ts[i], r)| && Taken(es[i..j], r) <= p
    ensures Taken(es[i..j], Other(r)) + (if ts[j].turn == r then 0 else 1) <= Taken(es[i..j], r) + (if ts[i].turn == r then 0 else 1)
    decreases j
  {
    hide Next, Enabled, Takes, Looks, Queue;
    if i == j {
      assert es[i..j] == [];
    } else {
      assert es[i..j][..j - 1 - i] == es[i..j - 1];
      FairTurns(ts, n, es, i, j - 1, p, r);
      MovesUp(ts, n, es, i, j - 1, p, r);
      assert Moves(ts[j - 1], n, es[j - 1], ts[j - 1 + 1]);
      TurnStep(ts[j - 1], n, es[j - 1], r);
      TurnStep(ts[j - 1], n, es[j - 1], Other(r));
      TakesLooks(es[j - 1]);
    }
  }

  lemma TakesLooks(e: Step)
    ensures forall r :: Takes(e, r) ==> Looks(e, r) && !Takes(e, Other(r))
  {
  }

  lemma {:induction false} TakenAt(es: seq<Step>, i: nat, j: nat, p: nat, r: Turn) returns (m: nat)
    requires i <= j <= |es| && p < Taken(es[i..j], r)
    ensures i <= m < j && Takes(es[m], r) && Taken(es[i..m], r) == p
    decreases j
  {
    hide Takes;
    assert i < j;
    assert es[i..j][..j - 1 - i] == es[i..j - 1];
    if p < Taken(es[i..j - 1], r) {
      m := TakenAt(es, i, j - 1, p, r);
    } else {
      m := j - 1;
    }
  }

  /** Between two workers taken from one queue, one is taken from the other queue if that holds any after the first. */
  lemma TakenBetween(ts: seq<Thread>, n: nat, es: seq<Step>, i: nat, j: nat, r: Turn) returns (m: nat)
    requires Run(ts, n, es) && i < j < |es| && Takes(es[i], Other(r)) && Takes(es[j], Other(r)) && Queue(ts[i + 1], r) != []
    ensures i < m < j && Takes(es[m], r)
  {
    hide Next, Enabled, Takes, Looks, Queue;
    assert Moves(ts[i], n, es[i], ts[i + 1]);
    TakesLooks(es[i]);
    TakesLooks(es[j]);
    TurnStep(ts[i], n, es[i], Other(r));
    assert es[i + 1..j + 1][..j - i - 1] == es[i + 1..j];
    if Taken(es[i + 1..j + 1], r) == 0 {
      FairTurns(ts, n, es, i + 1, j + 1, 0, r);
    }
    m := TakenAt(es, i + 1, j + 1, 0, r);
  }

  /**
    Nobody starves: a worker at position `p` of the hot-wait queue is resumed before more than `p + 1`
    further completions are taken, and one whose completion is at position `p` of the completion queue
    before more than `p + 1` further workers are taken from the hot-wait queue.
  */
  lemma ResumedSoon(ts: seq<Thread>, n: nat, es: seq<Step>, i: nat, j: nat, p: nat, r: Turn) returns (m: nat)
    requires Run(ts, n, es) && i <= j < |ts| && p < |Queue(ts[i], r)| && p + 1 < Taken(es[i..j], Other(r))
    ensures i <= m < j && Takes(es[m], r) && ts[m + 1].active == Worker(Queue(ts[i], r)[p].coro)
  {
    hide Takes, Queue;
    if Taken(es[i..j], r) <= p {
      FairTurns(ts, n, es, i, j, p, r);
    }
    m := TakenAt(es, i, j, p, r);
    ResumedInTurn(ts, n, es, i, m, p, r);
  }
}
