/**
  Message rings (src/AbstractMessageConnection.cpp, src/RawMessageConnection.cpp): the receive ring
  whose slots are posted again in batches, and the send ring whose slots are reused on the strength
  of one signalled send in 32.
*/
module Rings {

  const BATCH_COUNT: nat := 4
  const SIGNAL_PERIOD: nat := 32
  const APP_MESSAGE_NR: nat := 96
  const DIR_MESSAGE_NR: nat := 128

  // ---------------------------------------------------------------- arithmetic of rings

  lemma TimesGrows(a: nat, b: nat, m: nat)
    requires a <= b
    ensures a * m <= b * m
  {
  }

  lemma DivUnique(x: nat, m: nat, d: nat, r: nat)
    requires r < m && x == d * m + r
    ensures x / m == d && x % m == r
  {
    var e, s := x / m, x % m;
    assert x == e * m + s;
    if d < e {
      TimesGrows(d + 1, e, m);
    } else if e < d {
      TimesGrows(e + 1, d, m);
    }
  }

  /** Position `i` of the `b`-th block of a ring of four blocks. */
  lemma RingPlace(b: nat, sub: nat, i: nat)
    requires i < sub
    ensures (b * sub + i) % (BATCH_COUNT * sub) == (b % BATCH_COUNT) * sub + i
  {
    var q, r := b / BATCH_COUNT, b % BATCH_COUNT;
    assert b * sub == q * (BATCH_COUNT * sub) + r * sub by {
      assert b == q * BATCH_COUNT + r;
    }
    TimesGrows(r, BATCH_COUNT - 1, sub);
    DivUnique(b * sub + i, BATCH_COUNT * sub, q, r * sub + i);
  }

  /** What moving on from position `t` of the endless sequence of receives, to ring index `c`, does to the batch. */
  ghost predicate NextPlace(t: nat, sub: nat, c: nat)
    requires 0 < sub
  {
    && (c % sub == 0 ==> (t + 1) / sub == t / sub + 1 && (c / sub - 1 + BATCH_COUNT) % BATCH_COUNT == (t / sub) % BATCH_COUNT)
    && (c % sub != 0 ==> (t + 1) / sub == t / sub)
  }

  lemma InsideBatch(t: nat, sub: nat, c: nat, b: nat, i: nat)
    requires i + 1 < sub && t == b * sub + i && c == (b % BATCH_COUNT) * sub + (i + 1)
    ensures NextPlace(t, sub, c)
  {
    DivUnique(t, sub, b, i);
    DivUnique(t + 1, sub, b, i + 1);
    DivUnique(c, sub, b % BATCH_COUNT, i + 1);
  }

  lemma EndOfBatch(t: nat, sub: nat, c: nat, b: nat)
    requires 0 < sub && t == b * sub + (sub - 1) && t + 1 == (b + 1) * sub && c == ((b + 1) % BATCH_COUNT) * sub
    ensures NextPlace(t, sub, c)
  {
    DivUnique(t, sub, b, sub - 1);
    DivUnique(t + 1, sub, b + 1, 0);
    DivUnique(c, sub, (b + 1) % BATCH_COUNT, 0);
  }

  lemma RingNext(t: nat, sub: nat)
    requires 0 < sub
    ensures NextPlace(t, sub, (t + 1) % (BATCH_COUNT * sub))
  {
    hide NextPlace;
    var b, i, c := t / sub, t % sub, (t + 1) % (BATCH_COUNT * sub);
    assert t == b * sub + i;
    if i + 1 < sub {
      RingPlace(b, sub, i + 1);
      InsideBatch(t, sub, c, b, i);
    } else {
      assert t + 1 == (b + 1) * sub;
      RingPlace(b + 1, sub, 0);
      EndOfBatch(t, sub, c, b);
    }
  }

  // ---------------------------------------------------------------- receives

  ghost function Batch(sub: nat, k: nat): seq<nat> {
    seq(sub, i requires 0 <= i => k * sub + i)
  }

  /** The slots of the first `b` batches of receives, in the order they are posted. */
  ghost function Posted(sub: nat, b: nat): seq<nat> {
    if b == 0 then [] else Posted(sub, b - 1) + Batch(sub, (b - 1) % BATCH_COUNT)
  }

  lemma {:induction false} PostedLength(sub: nat, b: nat)
    ensures |Posted(sub, b)| == b * sub
  {
    if 0 < b {
      PostedLength(sub, b - 1);
      assert b * sub == (b - 1) * sub + sub;
    }
  }

  /** The n-th receive posted is for slot n modulo the size of the ring. */
  lemma {:induction false} PostedSlot(sub: nat, b: nat, n: nat)
    requires n < b * sub
    ensures n < |Posted(sub, b)| && Posted(sub, b)[n] == n % (BATCH_COUNT * sub)
  {
    PostedLength(sub, b);
    PostedLength(sub, b - 1);
    if (b - 1) * sub <= n {
      var i := n - (b - 1) * sub;
      RingPlace(b - 1, sub, i);
    } else {
      PostedSlot(sub, b - 1, n);
    }
  }

  /** Receives posted once `taken` messages have been handed out. */
  ghost function PostedCount(sub: nat, taken: nat): nat
    requires 0 < sub
  {
    (BATCH_COUNT + taken / sub) * sub
  }

  lemma PostedBound(sub: nat, taken: nat)
    requires 0 < sub
    ensures taken + BATCH_COUNT * sub - (sub - 1) <= PostedCount(sub, taken) <= taken + BATCH_COUNT * sub
    ensures PostedCount(sub, taken) == taken + BATCH_COUNT * sub <==> taken % sub == 0
  {
  }

  lemma SameSlotApart(m: nat, a: nat, nr: nat)
    requires m < a < m + nr
    ensures m % nr != a % nr
  {
    var d, e := m / nr, a / nr;
    assert m == d * nr + m % nr && a == e * nr + a % nr;
    if d < e {
      TimesGrows(d + 1, e, nr);
    } else {
      TimesGrows(e, d, nr);
    }
  }

  /** No message that has arrived and is still to be read is overwritten by a later arrival. */
  lemma UnreadSafe(sub: nat, taken: nat, m: nat, a: nat)
    requires 0 < sub && taken <= m < a < PostedCount(sub, taken)
    ensures m % (BATCH_COUNT * sub) != a % (BATCH_COUNT * sub)
  {
    PostedBound(sub, taken);
    SameSlotApart(m, a, BATCH_COUNT * sub);
  }

  /**
    The message handed out last is safe from later arrivals exactly while it is not the last of its
    batch: the slots of a batch are posted again before its last message has been looked at.
  */
  lemma JustReadSafeIff(sub: nat, taken: nat)
    requires 0 < sub && 0 < taken
    ensures (forall a :: taken <= a < PostedCount(sub, taken) ==> a % (BATCH_COUNT * sub) != (taken - 1) % (BATCH_COUNT * sub))
            <==> taken % sub != 0
  {
    PostedBound(sub, taken);
    var nr, m := BATCH_COUNT * sub, taken - 1;
    if taken % sub == 0 {
      var a := m + nr;
      assert a == (m / nr + 1) * nr + m % nr by {
        assert m == (m / nr) * nr + m % nr;
      }
      DivUnique(a, nr, m / nr + 1, m % nr);
      assert taken <= a < PostedCount(sub, taken) && a % nr == m % nr;
    } else {
      forall a | taken <= a < PostedCount(sub, taken) ensures a % nr != m % nr {
        SameSlotApart(m, a, nr);
      }
    }
  }

  // ---------------------------------------------------------------- sends

  /** Sends posted, sends the network card is done with, and completions polled. */
  datatype SendQueue = SendQueue(sent: nat, done: nat, polled: nat)

  const NO_SENDS := SendQueue(0, 0, 0)

  /** The card is done with one more send; sends finish in the order they were posted. */
  predicate Finishes(q: SendQueue, r: SendQueue) {
    q.done < q.sent && r == q.(done := q.done + 1)
  }

  predicate MustPoll(q: SendQueue) {
    0 < q.sent && q.sent % SIGNAL_PERIOD == 0 && q.polled < q.sent / SIGNAL_PERIOD
  }

  /** The poll returns once the next signalled send, one in 32, is done. */
  predicate Polls(q: SendQueue, r: SendQueue) {
    MustPoll(q) && q.polled * SIGNAL_PERIOD < q.done && r == q.(polled := q.polled + 1)
  }

  predicate Posts(q: SendQueue, r: SendQueue) {
    !MustPoll(q) && r == q.(sent := q.sent + 1)
  }

  ghost predicate SendRun(qs: seq<SendQueue>) {
    && 0 < |qs| && qs[0] == NO_SENDS
    && forall i :: 0 <= i < |qs| - 1 ==> SendMoves(qs[i], qs[i + 1])
  }

  predicate SendMoves(q: SendQueue, r: SendQueue) {
    Finishes(q, r) || Polls(q, r) || Posts(q, r)
  }

  /** Every signalled send that was polled is done, and at most one poll is outstanding. */
  predicate SendOk(q: SendQueue) {
    && q.done <= q.sent
    && q.polled <= q.sent / SIGNAL_PERIOD && q.sent <= SIGNAL_PERIOD * (q.polled + 1)
    && (0 < q.polled ==> SIGNAL_PERIOD * (q.polled - 1) < q.done)
  }

  lemma SendStep(q: SendQueue, r: SendQueue)
    requires SendOk(q) && SendMoves(q, r)
    ensures SendOk(r)
  {
  }

  lemma {:induction false} SendRunOk(qs: seq<SendQueue>, i: nat)
    requires SendRun(qs) && i < |qs|
    ensures SendOk(qs[i])
  {
    if 0 < i {
      SendRunOk(qs, i - 1);
      assert SendMoves(qs[i - 1], qs[i - 1 + 1]);
      SendStep(qs[i - 1], qs[i]);
    }
  }

  /** The card is done with every earlier send whose buffer is the slot the next send gets. */
  ghost predicate SlotFree(q: SendQueue, nr: nat)
    requires 0 < nr
  {
    forall m :: 0 <= m < q.sent && m % nr == q.sent % nr ==> m < q.done
  }

  /** At most 63 sends are unfinished at any time, so 64 slots are enough. */
  lemma SlotIsFree(q: SendQueue, nr: nat)
    requires SendOk(q) && 2 * SIGNAL_PERIOD <= nr
    ensures q.sent - q.done < 2 * SIGNAL_PERIOD && SlotFree(q, nr)
  {
    forall m | 0 <= m < q.sent && m % nr == q.sent % nr ensures m < q.done {
      if q.sent < m + nr {
        SameSlotApart(m, q.sent, nr);
      }
    }
  }

  ghost predicate NeverOverwrites(nr: nat)
    requires 0 < nr
  {
    forall qs, i :: SendRun(qs) && 0 <= i < |qs| ==> SlotFree(qs[i], nr)
  }

  /** 32 sends, the first completion polled, and 32 more sends that stay unfinished. */
  ghost function WorstRun(): (qs: seq<SendQueue>)
    ensures |qs| == 67 && qs[66] == SendQueue(64, 1, 1) && SendRun(qs)
  {
    seq(67, i requires 0 <= i => if i <= 32 then SendQueue(i, 0, 0) else if i == 33 then SendQueue(32, 1, 0) else SendQueue(i - 2, 1, 1))
  }

  /** A send buffer is never refilled before its earlier send is done exactly when the ring has 64 slots or more. */
  lemma SendRingIff(nr: nat)
    requires 0 < nr
    ensures NeverOverwrites(nr) <==> 64 <= nr
  {
    if 64 <= nr {
      forall qs, i | SendRun(qs) && 0 <= i < |qs| ensures SlotFree(qs[i], nr) {
        SendRunOk(qs, i);
        SlotIsFree(qs[i], nr);
      }
    } else {
      var qs := WorstRun();
      var m := 64 - nr;
      assert 64 == (m / nr + 1) * nr + m % nr by {
        assert m == (m / nr) * nr + m % nr;
      }
      DivUnique(64, nr, m / nr + 1, m % nr);
      assert !SlotFree(qs[66], nr);
    }
  }

  // ---------------------------------------------------------------- the connection object

  /** The next message is in the slot of the next receive. */
  lemma TakenSlot(sub: nat, taken: nat)
    requires 0 < sub
    ensures var p := Posted(sub, BATCH_COUNT + taken / sub); taken < |p| && p[taken] == taken % (BATCH_COUNT * sub)
  {
    PostedBound(sub, taken);
    PostedSlot(sub, BATCH_COUNT + taken / sub, taken);
  }

  /** Which batch is posted again after it, if any; `c` is the next ring index. */
  lemma TakenNext(sub: nat, taken: nat, c: nat)
    requires 0 < sub && c == (taken + 1) % (BATCH_COUNT * sub)
    ensures 0 <= (c / sub - 1 + BATCH_COUNT) % BATCH_COUNT
    ensures Posted(sub, BATCH_COUNT + (taken + 1) / sub) ==
            Posted(sub, BATCH_COUNT + taken / sub) + (if c % sub == 0 then Batch(sub, (c / sub - 1 + BATCH_COUNT) % BATCH_COUNT) else [])
  {
    hide Posted, Batch, NextPlace;
    RingNext(taken, sub);
    PostedMore(sub, taken / sub);
    Repost(sub, taken, taken / sub, (taken + 1) / sub, c);
  }

  lemma Repost(sub: nat, t: nat, b: nat, next: nat, c: nat)
    requires 0 < sub && NextPlace(t, sub, c) && b == t / sub && next == (t + 1) / sub
    requires Posted(sub, BATCH_COUNT + b + 1) == Posted(sub, BATCH_COUNT + b) + Batch(sub, b % BATCH_COUNT)
    ensures Posted(sub, BATCH_COUNT + next) ==
            Posted(sub, BATCH_COUNT + b) + (if c % sub == 0 then Batch(sub, (c / sub - 1 + BATCH_COUNT) % BATCH_COUNT) else [])
  {
    hide Posted, Batch;
  }

  lemma PostedMore(sub: nat, b: nat)
    ensures Posted(sub, BATCH_COUNT + b + 1) == Posted(sub, BATCH_COUNT + b) + Batch(sub, b % BATCH_COUNT)
  {
  }

  class MessageConnection {
    const messageNR: nat
    const subNR: nat
    /** Slot of receive request `i` of batch `k`. */
    const recvs: array2<nat>
    var curMessage: nat
    var curSend: nat
    var sendCounter: nat
    /** Slots of the receives posted so far, messages handed out, send buffers handed out, and the send queue. */
    ghost var posted: seq<nat>
    ghost var taken: nat
    ghost var buffers: nat
    ghost var queue: SendQueue

    ghost predicate Sized()
      reads this
    {
      0 < subNR && messageNR == BATCH_COUNT * subNR && recvs.Length0 == BATCH_COUNT && recvs.Length1 == subNR
    }

    ghost predicate RequestsOk(n: nat)
      reads this, recvs
    {
      Sized() && forall k, i :: 0 <= k < n && k < BATCH_COUNT && 0 <= i < subNR ==> recvs[k, i] == k * subNR + i
    }

    ghost predicate Receiving()
      reads this, recvs
    {
      RequestsOk(BATCH_COUNT) && curMessage == taken % messageNR && posted == Posted(subNR, BATCH_COUNT + taken / subNR)
    }

    ghost predicate Sending()
      reads this
    {
      && 0 < messageNR && SendOk(queue) && queue.sent == sendCounter
      && (0 < sendCounter && sendCounter % SIGNAL_PERIOD == 0 ==> MustPoll(queue))
      && sendCounter <= buffers <= sendCounter + 1 && curSend == buffers % messageNR
    }

    /** The ring has a whole number of batches; the code checks it. */
    constructor (messageNR: nat)
      requires 0 < messageNR && messageNR % BATCH_COUNT == 0
      ensures Sized() && Sending() && this.messageNR == messageNR && buffers == 0 && posted == [] && taken == 0 && curMessage == 0
      ensures fresh(recvs)
    {
      this.messageNR := messageNR;
      subNR := messageNR / BATCH_COUNT;
      recvs := new nat[BATCH_COUNT, messageNR / BATCH_COUNT];
      curMessage, curSend, sendCounter := 0, 0, 0;
      posted, taken, buffers, queue := [], 0, 0, NO_SENDS;
    }

    /** ibv_post_recv of a batch: its requests are linked in slot order. */
    method PostBatch(k: nat)
      requires RequestsOk(k + 1) && k < BATCH_COUNT
      modifies this`posted
      ensures posted == old(posted) + Batch(subNR, k)
    {
      ghost var slots: seq<nat> := [];
      for i := 0 to subNR
        invariant slots == Batch(subNR, k)[..i]
      {
        slots := slots + [recvs[k, i]];
      }
      posted := posted + slots;
    }

    /** The requests of all batches: request `i` of batch `k` is for slot `k * subNR + i`. */
    method FillRequests()
      requires Sized()
      modifies recvs
      ensures RequestsOk(BATCH_COUNT)
    {
      for k := 0 to BATCH_COUNT
        invariant RequestsOk(k)
      {
        for i := 0 to subNR
          invariant RequestsOk(k)
          invariant forall j :: 0 <= j < i ==> recvs[k, j] == k * subNR + j
        {
          recvs[k, i] := k * subNR + i;
        }
      }
    }

    method InitRecv()
      requires Sized() && posted == [] && taken == 0 && curMessage == 0
      modifies recvs, this`posted
      ensures Receiving()
    {
      FillRequests();
      assert Posted(subNR, 0) == [];
      for k := 0 to BATCH_COUNT
        invariant RequestsOk(BATCH_COUNT) && posted == Posted(subNR, k)
      {
        PostBatch(k);
      }
      DivUnique(0, subNR, 0, 0);
      DivUnique(0, messageNR, 0, 0);
    }

    /** getMessage: the n-th call returns the slot of the n-th receive posted, where the n-th message arrives. */
    method GetMessage() returns (slot: nat)
      requires Receiving()
      modifies this`curMessage, this`posted, this`taken
      ensures Receiving() && taken == old(taken) + 1
      ensures old(taken) < |old(posted)| && slot == old(posted)[old(taken)]
      ensures old(posted) <= posted
    {
      hide Posted, Batch, NextPlace;
      TakenSlot(subNR, taken);
      TakenNext(subNR, taken, (taken + 1) % messageNR);
      NextSlot(taken, messageNR);
      slot := curMessage;
      curMessage := (curMessage + 1) % messageNR;
      if curMessage % subNR == 0 {
        PostBatch((curMessage / subNR - 1 + BATCH_COUNT) % BATCH_COUNT);
      }
      taken := taken + 1;
    }

    /** getSendPool: the buffer returned is free to be filled. */
    method GetSendPool() returns (slot: nat)
      requires Sending() && buffers == sendCounter && 2 * SIGNAL_PERIOD <= messageNR
      modifies this`curSend, this`buffers
      ensures Sending() && buffers == sendCounter + 1
      ensures slot == sendCounter % messageNR
      ensures forall m :: 0 <= m < sendCounter && m % messageNR == slot ==> m < queue.done
    {
      SlotIsFree(queue, messageNR);
      NextSlot(buffers, messageNR);
      slot := curSend;
      curSend := (curSend + 1) % messageNR;
      buffers := buffers + 1;
    }

    /**
      sendRawMessage: every 32 sends it first takes one completion, then it posts. `done` is how many
      sends the card is done with by then; the poll only returns once the send it reports is.
    */
    method SendRawMessage(ghost done: nat)
      requires Sending() && buffers == sendCounter + 1
      requires queue.done <= done <= queue.sent
      requires MustPoll(queue) ==> queue.polled * SIGNAL_PERIOD < done
      modifies this`sendCounter, this`queue
      ensures Sending() && buffers == sendCounter
      ensures sendCounter == old(sendCounter) + 1
      ensures queue == SendQueue(old(queue).sent + 1, done, old(queue).polled + (if MustPoll(old(queue)) then 1 else 0))
    {
      queue := queue.(done := done);
      if sendCounter % SIGNAL_PERIOD == 0 && sendCounter > 0 {
        queue := queue.(polled := queue.polled + 1);
      }
      queue := queue.(sent := queue.sent + 1);
      sendCounter := sendCounter + 1;
    }
  }

  lemma NextSlot(n: nat, nr: nat)
    requires 0 < nr
    ensures (n % nr + 1) % nr == (n + 1) % nr
  {
    var d, r := n / nr, n % nr;
    assert n == d * nr + r;
    if r + 1 < nr {
      DivUnique(n + 1, nr, d, r + 1);
      DivUnique(r + 1, nr, 0, r + 1);
    } else {
      assert n + 1 == (d + 1) * nr + 0;
      DivUnique(n + 1, nr, d + 1, 0);
      DivUnique(nr, nr, 1, 0);
    }
  }
}
