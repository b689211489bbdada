// The bounds of the stream, in the numbers the daemon names: what a batch may hold, when a queue
// collapses and what is left, when a socket is closed, and how far an attach goes back.

module StreamBounds {
  import opened Common
  import opened SessionEvents
  import opened EventLog
  import opened StreamConnections
  import opened StreamOrders

  // ---- a batch ----

  function Wire(items: seq<Item>): nat
    requires forall i :: 0 <= i < |items| ==> items[i].Queued?
  {
    if items == [] then 0 else items[0].wire + Wire(items[1..])
  }

  // The bytes of a frame of some events: the text around them, and a comma between each two.
  function FrameBytes(items: seq<Item>): nat
    requires items != [] && forall i :: 0 <= i < |items| ==> items[i].Queued?
  {
    29 + Wire(items) + (|items| - 1)
  }

  lemma TheFrameAround()
    ensures EVENTS_FRAME_BYTES == 29
  {}

  lemma {:induction false} BatchLengthIs(queue: seq<Item>, taken: nat, bytes: nat)
    requires taken > 0
    ensures var n := BatchLength(queue, taken, bytes);
            && (n == 0 || (taken + n <= 200 && bytes + Wire(queue[..n]) + n <= 524_288))
            && (n < |queue| && taken + n < 200 && queue[n].Queued? ==>
                  bytes + Wire(queue[..n]) + queue[n].wire + n + 1 > 524_288)
    decreases |queue|
  {
    if queue != [] && taken < 200 && queue[0].Queued? && bytes + queue[0].wire + 1 <= 524_288 {
      var n := BatchLength(queue, taken, bytes);
      BatchLengthIs(queue[1..], taken + 1, bytes + queue[0].wire + 1);
      assert queue[..n][1..] == queue[1..][..n - 1];
    }
  }

  // A batch is the longest run of events at the head of the queue that has at most two hundred of them
  // and, past the first, at most 512 KiB of frame.
  lemma ABatchIsExactly(queue: seq<Item>)
    ensures var n := BatchLength(queue, 0, EVENTS_FRAME_BYTES);
            && (n == 0 <==> queue == [] || !queue[0].Queued?)
            && n <= 200 && (n > 1 ==> FrameBytes(queue[..n]) <= 524_288)
            && (0 < n < |queue| && n < 200 && queue[n].Queued? ==>
                  FrameBytes(queue[..n]) + 1 + queue[n].wire > 524_288)
  {
    if queue != [] && queue[0].Queued? { ABatchOfSome(queue, queue[1..]); }
  }

  lemma ABatchOfSome(queue: seq<Item>, rest: seq<Item>)
    requires queue != [] && queue[0].Queued? && rest == queue[1..]
    ensures var n := BatchLength(queue, 0, EVENTS_FRAME_BYTES);
            && 0 < n <= 200 && (n > 1 ==> FrameBytes(queue[..n]) <= 524_288)
            && (n < |queue| && n < 200 && queue[n].Queued? ==> FrameBytes(queue[..n]) + 1 + queue[n].wire > 524_288)
  {
    var m := BatchLength(rest, 1, 29 + queue[0].wire);
    FirstOfABatch(queue);
    BatchLengthIs(rest, 1, 29 + queue[0].wire);
    FrameOfABatch(queue, 1 + m);
    assert 1 + m < |queue| ==> rest[m] == queue[1 + m];
    assert 1 + m - 1 == m;
  }

  lemma FirstOfABatch(queue: seq<Item>)
    requires queue != [] && queue[0].Queued?
    ensures BatchLength(queue, 0, EVENTS_FRAME_BYTES) == 1 + BatchLength(queue[1..], 1, 29 + queue[0].wire)
  {
    TheFrameAround();
  }

  lemma FrameOfABatch(queue: seq<Item>, n: nat)
    requires 0 < n <= |queue| && forall i :: 0 <= i < n ==> queue[i].Queued?
    ensures FrameBytes(queue[..n]) == 29 + queue[0].wire + Wire(queue[1..][..n - 1]) + (n - 1)
  {
    assert queue[..n][1..] == queue[1..][..n - 1];
  }

  // ---- a flush ----

  // Nothing goes out while the socket is closed, busy or full; otherwise the head of the queue does, a
  // control frame alone or a batch, and its charge with it.
  lemma AFlushIsExactly(c: Conn, ready: bool)
    ensures var d := Flushed(c, ready);
            if c.closed || c.sending || !ready || c.queue == [] then d == c
            else if c.queue[0].Held? then
              d == c.(queue := c.queue[1..], queuedBytes := c.queuedBytes - c.queue[0].held, sending := true,
                      sent := c.sent + [Say(c.queue[0].control)])
            else
              exists n :: 0 < n <= |c.queue| && Batched(c, d, n)
  {
    if !(c.closed || c.sending || !ready || c.queue == []) && c.queue[0].Queued? {
      var n := BatchLength(c.queue, 0, EVENTS_FRAME_BYTES);
      ABatchIsExactly(c.queue);
      BatchedOff(c, n);
    }
  }

  lemma BatchedOff(c: Conn, n: nat)
    requires n == BatchLength(c.queue, 0, EVENTS_FRAME_BYTES) && n > 0
    requires !c.closed && !c.sending && c.queue != [] && c.queue[0].Queued?
    ensures Batched(c, Flushed(c, true), n)
  {}

  ghost predicate Batched(c: Conn, d: Conn, n: nat)
    requires 0 < n <= |c.queue|
  {
    && (forall i :: 0 <= i < n ==> c.queue[i].Queued?)
    && d.queue == c.queue[n..] && d.queuedBytes == c.queuedBytes - TotalHeld(c.queue[..n])
    && d.sending && d.lastSentSeq == c.queue[n - 1].stored.num
    && |d.sent| == |c.sent| + 1 && d.sent[..|c.sent|] == c.sent
    && d.sent[|c.sent|].Batch? && |d.sent[|c.sent|].events| == n
    && (forall i :: 0 <= i < n ==> d.sent[|c.sent|].events[i] == c.queue[i].stored)
    && d.closed == c.closed && d.cursor == c.cursor && d.collapses == c.collapses
  }

  // ---- a collapse ----

  // A queue collapses when it comes to hold more than eight thousand items or more than 16 MiB.
  lemma ACollapseComesExactly(c: Conn, item: Item, head: nat, replaying: bool, w: World)
    ensures var e := Pushed(c, item);
            Enqueued(c, item, head, replaying, w)
            == if |c.queue| + 1 > 8000 || c.queuedBytes + item.held > 16_777_216
               then Collapsed(e, head, if replaying then Backlog else SlowConsumer, w) else Flushed(e, w.ready)
  {}

  // It leaves word of everything after the last event sent, and a snapshot; and closes the socket when
  // it is a slow reader's second within thirty seconds.
  lemma ACollapseIsExactly(c: Conn, head: nat, reason: Reason, w: World)
    requires !c.closed
    ensures var d := Collapsed(c, head, reason, w);
            && d.cursor == head && d.lastSentSeq == head && d.sent == c.sent && d.sending == c.sending
            && (d.closed
                <==> reason == SlowConsumer && exists i :: 0 <= i < |c.collapses| && w.now - c.collapses[i] < 30_000)
            && (d.closed ==> d.queue == [] && d.queuedBytes == 0)
            && (!d.closed ==>
                  && d.queue == (if head > c.lastSentSeq
                                 then [Held(Lagged(c.lastSentSeq + 1, head, reason), w.sizes.lagged)] else [])
                                + [Held(Snapshot, w.sizes.snapshot)]
                  && d.queuedBytes == (if head > c.lastSentSeq then w.sizes.lagged as nat else 0) + w.sizes.snapshot)
  {
    RecentAre(c.collapses, w.now);
    RecoveryWeighs(c, head, reason, w.sizes);
  }

  lemma RecoveryWeighs(c: Conn, head: nat, reason: Reason, sizes: Sizes)
    ensures TotalHeld(Recovery(c, head, reason, sizes))
            == (if head > c.lastSentSeq then sizes.lagged as nat else 0) + sizes.snapshot
  {
    var q := Recovery(c, head, reason, sizes);
    assert [Held(Snapshot, sizes.snapshot)][1..] == [];
    if head > c.lastSentSeq {
      assert q == [Held(Lagged(c.lastSentSeq + 1, head, reason), sizes.lagged), Held(Snapshot, sizes.snapshot)];
      assert q[1..] == [Held(Snapshot, sizes.snapshot)];
      assert TotalHeld(q) == Weight(q[0]) + TotalHeld(q[1..]);
    } else {
      assert q == [Held(Snapshot, sizes.snapshot)];
    }
  }

  lemma {:induction false} RecentAre(collapses: seq<int>, now: int)
    ensures Recent(collapses, now) == [] <==> forall i :: 0 <= i < |collapses| ==> now - collapses[i] >= 30_000
    ensures forall at :: at in Recent(collapses, now) <==> at in collapses && now - at < 30_000
  {
    if collapses != [] {
      RecentAre(collapses[1..], now);
      assert forall at :: at in collapses <==> at == collapses[0] || at in collapses[1..];
      assert forall i :: 0 < i < |collapses| ==> collapses[i] == collapses[1..][i - 1];
    }
  }

  // ---- an attach ----

  // It goes back as far as it is asked to, but no further than two thousand events.
  lemma AnAttachGoesBackExactly(log: Log, asked: nat)
    requires asked <= log.Last()
    ensures Since(log, asked) == if log.Last() - asked <= 2000 then asked else log.Last() - 2000
  {}

  // What it says first: where it starts; then what is gone, if the log begins after the cursor asked for;
  // then what it will not replay.
  lemma AnAttachOpensExactly(log: Log, asked: nat)
    requires log.Valid() && asked <= log.Last()
    ensures var start, frames := Since(log, asked), Opening(log, asked);
            && frames[0] == Hello(start)
            && (asked + 1 < log.oldest <==> exists f :: f in frames && f.Lagged? && f.reason == Evicted)
            && (start > asked && start >= log.oldest <==> exists f :: f in frames && f.Lagged? && f.reason == Backlog)
            && (forall f :: f in frames && f.Lagged? ==>
                  f == if f.reason == Evicted then Lagged(asked + 1, log.oldest - 1, Evicted)
                       else Lagged(Max(asked, log.oldest - 1) + 1, start, Backlog))
  {
    var frames := Opening(log, asked);
    var evicted := Lagged(asked + 1, log.oldest - 1, Evicted);
    var backlog := Lagged(Max(asked, log.oldest - 1) + 1, Since(log, asked), Backlog);
    if asked < log.oldest - 1 { assert frames[1] == evicted; }
    if Since(log, asked) >= Max(asked, log.oldest - 1) + 1 { assert frames[|frames| - 1] == backlog; }
  }

  // ---- a page of the log ----

  function HeldOf(log: Log, from: nat, n: nat): nat
    requires 1 <= from && from + n <= log.Last() + 1
    decreases n
  {
    if n == 0 then 0 else log.entries[from - 1].held + HeldOf(log, from + 1, n - 1)
  }

  lemma {:induction false} PageLengthIs(log: Log, from: nat, limit: nat, maxBytes: nat, taken: nat, bytes: nat)
    requires 1 <= from <= log.Last() + 1 && taken > 0
    ensures var n := PageLength(log, from, limit, maxBytes, taken, bytes);
            && from + n <= log.Last() + 1 && (n == 0 || taken + n <= limit)
            && (n > 0 ==> bytes + HeldOf(log, from, n) <= maxBytes)
            && (from + n <= log.Last() && taken + n < limit ==>
                  bytes + HeldOf(log, from, n) + log.entries[from + n - 1].held > maxBytes)
    decreases log.Last() + 1 - from
  {
    if from <= log.Last() && taken < limit && bytes + log.entries[from - 1].held <= maxBytes {
      PageLengthIs(log, from + 1, limit, maxBytes, taken + 1, bytes + log.entries[from - 1].held);
    }
  }

  // A page takes as many of the retained events after the cursor as its limit and its bytes allow, and
  // one in any case.
  lemma APageIsExactly(log: Log, since: nat, limit: nat, maxBytes: nat)
    requires log.Valid() && limit > 0
    ensures var from, n := Max(since + 1, log.oldest), |Page(log, since, limit, maxBytes)|;
            if from > log.Last() then n == 0
            else
              && 0 < n <= limit && from + n <= log.Last() + 1
              && (n > 1 ==> HeldOf(log, from, n) <= maxBytes)
              && (from + n <= log.Last() && n < limit ==>
                    HeldOf(log, from, n) + log.entries[from + n - 1].held > maxBytes)
  {
    var from := Max(since + 1, log.oldest);
    if from <= log.Last() { PageLengthIs(log, from + 1, limit, maxBytes, 1, log.entries[from - 1].held); }
  }
}
