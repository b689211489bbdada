// What holds of one connection's queue and of what it sent, whoever is listening: how its frames
// are ordered and how its numbers relate.

module StreamOrders {
  import opened Common
  import opened SessionEvents
  import opened EventLog
  import opened StreamConnections

  predicate IsHello(item: Item) { item.Held? && item.control.Hello? }

  predicate IsLagged(item: Item) { item.Held? && item.control.Lagged? }

  predicate IsGreeting(frame: Frame) { frame.Say? && frame.control.Hello? }

  predicate IsNotice(frame: Frame) { frame.Say? && frame.control.Lagged? }

  // A greeting that moves the client's cursor away from the one it asked with.
  predicate Jumps(c: Conn, frame: Frame) { IsGreeting(frame) && frame.control.since != c.asked }

  // The greeting comes first and once, and one that moves the cursor has its announcement right
  // behind it.
  predicate Ordered(c: Conn) {
    && (forall i :: 0 < i < |c.sent| ==> !IsGreeting(c.sent[i]))
    && (forall i :: 0 <= i < |c.queue| && IsHello(c.queue[i]) ==> i == 0 && c.sent == [])
    && SentJumpIsAnnounced(c) && QueuedJumpIsAnnounced(c)
  }

  predicate SentJumpIsAnnounced(c: Conn) {
    c.sent != [] && Jumps(c, c.sent[0]) ==>
      if |c.sent| > 1 then IsNotice(c.sent[1])
      else c.closed || (c.lastSentSeq == c.sent[0].control.since && c.queue != [] && IsLagged(c.queue[0]))
  }

  predicate QueuedJumpIsAnnounced(c: Conn) {
    c.queue != [] && IsHello(c.queue[0]) && c.queue[0].control.since != c.asked ==>
      c.lastSentSeq == c.queue[0].control.since && |c.queue| > 1 && IsLagged(c.queue[1])
  }

  // Queued events climb, past the last one sent and up to the cursor; nothing was sent past what
  // the daemon counts as sent, except in an announcement.
  predicate Numbered(c: Conn) {
    && c.asked <= c.lastSentSeq <= c.cursor
    && (forall i :: 0 <= i < |c.queue| && c.queue[i].Queued? ==> c.lastSentSeq < c.queue[i].stored.num <= c.cursor)
    && (forall i, j :: 0 <= i < j < |c.queue| && c.queue[i].Queued? && c.queue[j].Queued? ==>
          c.queue[i].stored.num < c.queue[j].stored.num)
    && BatchesCounted(c.sent, c.lastSentSeq)
  }

  predicate BatchesCounted(sent: seq<Frame>, last: nat) {
    forall i :: 0 <= i < |sent| && sent[i].Batch? && sent[i].events != [] ==>
      sent[i].events[|sent[i].events| - 1].num <= last
  }

  // A connection as it is at every moment, for a log that ends at `head`.
  predicate Shaped(c: Conn, head: nat) {
    Numbered(c) && c.cursor <= head && (c.tidy ==> Ordered(c))
  }

  // ---- flushing ----

  lemma SendControlKeeps(c: Conn)
    requires c.queue != [] && c.queue[0].Held? && !c.closed && !c.sending
    ensures Numbered(c) ==> Numbered(Flushed(c, true))
    ensures Ordered(c) ==> Ordered(Flushed(c, true))
  {
    var d := Flushed(c, true);
    assert forall i :: 0 <= i < |d.queue| ==> d.queue[i] == c.queue[i + 1];
    assert d.sent == c.sent + [Say(c.queue[0].control)];
    if Ordered(c) {
      assert SentJumpIsAnnounced(d);
      assert QueuedJumpIsAnnounced(d);
    }
  }

  lemma SendBatchNumbered(c: Conn)
    requires c.queue != [] && c.queue[0].Queued? && !c.closed && !c.sending && Numbered(c)
    ensures Numbered(Flushed(c, true))
  {
    var d := Flushed(c, true);
    var n := BatchLength(c.queue, 0, EVENTS_FRAME_BYTES);
    var last := c.queue[n - 1].stored.num;
    assert d.queue == c.queue[n..] && d.lastSentSeq == last;
    RestNumbered(c, n);
    CountsBatch(c.sent, d.sent[|c.sent|], c.lastSentSeq, last);
  }

  lemma RestNumbered(c: Conn, n: nat)
    requires Numbered(c) && 0 < n <= |c.queue| && c.queue[n - 1].Queued?
    ensures Numbered(c.(queue := c.queue[n..], lastSentSeq := c.queue[n - 1].stored.num))
  {
    var rest := c.queue[n..];
    assert forall i :: 0 <= i < |rest| ==> rest[i] == c.queue[n + i];
  }

  lemma CountsBatch(sent: seq<Frame>, frame: Frame, before: nat, last: nat)
    requires BatchesCounted(sent, before) && before <= last
    requires frame.Batch? && frame.events != [] && frame.events[|frame.events| - 1].num == last
    ensures BatchesCounted(sent + [frame], last)
  {}

  lemma SendBatchOrdered(c: Conn)
    requires c.queue != [] && c.queue[0].Queued? && !c.closed && !c.sending && Ordered(c)
    ensures Ordered(Flushed(c, true))
  {
    var d := Flushed(c, true);
    var n := BatchLength(c.queue, 0, EVENTS_FRAME_BYTES);
    assert forall i :: 0 <= i < |d.queue| ==> d.queue[i] == c.queue[n + i];
    assert d.sent[..|c.sent|] == c.sent && d.sent[|c.sent|].Batch?;
    if d.queue != [] { assert !IsHello(d.queue[0]); }
  }

  lemma FlushShaped(c: Conn, ready: bool, head: nat)
    requires Shaped(c, head)
    ensures Shaped(Flushed(c, ready), head)
  {
    if !(c.closed || c.sending || !ready || c.queue == []) {
      assert Flushed(c, ready) == Flushed(c, true);
      if c.queue[0].Held? {
        SendControlKeeps(c);
      } else {
        SendBatchNumbered(c);
        if c.tidy { SendBatchOrdered(c); }
      }
    }
  }

  // ---- pushing, collapsing, closing ----

  function Pushed(c: Conn, item: Item): Conn {
    c.(queue := c.queue + [item], queuedBytes := c.queuedBytes + Weight(item))
  }

  lemma PushShaped(c: Conn, item: Item, head: nat)
    requires Shaped(c, head) && !IsHello(item)
    requires item.Queued? ==> c.lastSentSeq < item.stored.num <= c.cursor
    requires item.Queued? ==>
               forall i :: 0 <= i < |c.queue| && c.queue[i].Queued? ==> c.queue[i].stored.num < item.stored.num
    ensures Shaped(Pushed(c, item), head)
  {
    if c.tidy { PushOrdered(c, item); }
  }

  lemma PushOrdered(c: Conn, item: Item)
    requires Ordered(c) && !IsHello(item)
    ensures Ordered(Pushed(c, item))
  {
    assert (c.queue + [item])[..|c.queue|] == c.queue;
  }

  lemma JumpIsUnsettled(c: Conn)
    requires Ordered(c) && |c.sent| == 1 && Jumps(c, c.sent[0]) && !c.closed
    ensures !Settled(c)
  {
    assert c.sent[1..] == [];
    assert SentFront(c.asked + 1, c.sent) == SentFront(c.asked + 1, c.sent[1..]) == c.asked + 1;
  }

  // Only a settled collapse is tidy, and a jump that waits for its announcement is not settled.
  lemma CollapseShaped(c: Conn, head: nat, reason: Reason, w: World)
    requires Shaped(c, head) && !c.closed
    ensures Shaped(Collapsed(c, head, reason, w), head)
  {
    var d := Collapsed(c, head, reason, w);
    assert d.sent == c.sent && d.asked == c.asked && d.lastSentSeq == head == d.cursor;
    if |c.sent| == 1 && Jumps(c, c.sent[0]) && c.tidy { JumpIsUnsettled(c); }
  }

  lemma CloseShaped(c: Conn, head: nat)
    requires Shaped(c, head)
    ensures Shaped(Closed(c), head)
  {}

  lemma EnqueueShaped(c: Conn, item: Item, head: nat, replaying: bool, w: World)
    requires Shaped(Pushed(c, item), head) && !c.closed
    ensures Shaped(Enqueued(c, item, head, replaying, w), head)
  {
    var e := Pushed(c, item);
    var d := Enqueued(c, item, head, replaying, w);
    if |e.queue| > MAX_QUEUE_EVENTS || e.queuedBytes > MAX_QUEUE_BYTES {
      var reason := if replaying then Backlog else SlowConsumer;
      assert d == Collapsed(e, head, reason, w);
      CollapseShaped(e, head, reason, w);
    } else {
      assert d == Flushed(e, w.ready);
      FlushShaped(e, w.ready, head);
    }
  }

  lemma TellShaped(c: Conn, control: Control, log: Log, w: World)
    requires Shaped(c, log.Last()) && !control.Hello?
    ensures Shaped(Told(c, control, log, w), log.Last())
  {
    if !c.closed {
      var item := Held(control, Weigh(control, w.sizes));
      PushShaped(c, item, log.Last());
      EnqueueShaped(c, item, log.Last(), false, w);
    }
  }

  lemma EmitShaped(c: Conn, log: Log, num: nat, replaying: bool, w: World)
    requires 1 <= num <= log.Last() && Shaped(c, log.Last())
    ensures Shaped(Emitted(c, log, num, replaying, w), log.Last())
  {
    if !c.closed && num > c.cursor {
      var e := c.(cursor := num);
      PushShaped(e, ItemFor(log, num), log.Last());
      EnqueueShaped(e, ItemFor(log, num), log.Last(), replaying, w);
    }
  }

  lemma AcknowledgeShaped(c: Conn, ready: bool, head: nat)
    requires Shaped(c, head)
    ensures Shaped(Acknowledged(c, ready), head)
  {
    FlushShaped(c.(sending := false), ready, head);
  }

  // ---- attaching ----

  lemma OpeningRest(log: Log, asked: nat)
    requires log.Valid() && asked <= log.Last()
    ensures var frames := Opening(log, asked);
            && frames != [] && frames[0] == Hello(Since(log, asked))
            && (forall i :: 0 < i < |frames| ==> frames[i].Lagged?)
            && (|frames| == 1 ==> Since(log, asked) == asked)
  {}

  // The greeting is in the socket or at the head of the queue.
  lemma GreetingTold(since: nat, asked: nat, log: Log, w: World)
    ensures var c := Told(Fresh(since, asked), Hello(since), log, w);
            c == if w.ready
                 then Fresh(since, asked).(sent := [Say(Hello(since))], sending := true)
                 else Fresh(since, asked).(queue := [Held(Hello(since), w.sizes.hello)], queuedBytes := w.sizes.hello)
  {
    var e := Pushed(Fresh(since, asked), Held(Hello(since), w.sizes.hello));
    assert e.queue == [Held(Hello(since), w.sizes.hello)] && e.queue[1..] == [];
    assert Told(Fresh(since, asked), Hello(since), log, w) == Flushed(e, w.ready);
  }

  lemma GreetingShaped(since: nat, asked: nat, log: Log, w: World)
    requires asked == since <= log.Last()
    ensures Shaped(Told(Fresh(since, asked), Hello(since), log, w), log.Last())
  {
    GreetingTold(since, asked, log, w);
  }

  lemma JumpShaped(since: nat, asked: nat, notice: Control, log: Log, w: World)
    requires asked <= since <= log.Last() && notice.Lagged?
    ensures Shaped(Told(Told(Fresh(since, asked), Hello(since), log, w), notice, log, w), log.Last())
  {
    GreetingTold(since, asked, log, w);
    var c := Told(Fresh(since, asked), Hello(since), log, w);
    var e := Pushed(c, Held(notice, w.sizes.lagged));
    assert Told(c, notice, log, w) == Flushed(e, w.ready) == e;
  }

  lemma {:induction false} TellAllShaped(c: Conn, controls: seq<Control>, log: Log, w: World)
    requires Shaped(c, log.Last()) && forall i :: 0 <= i < |controls| ==> !controls[i].Hello?
    ensures Shaped(ToldAll(c, controls, log, w), log.Last())
    decreases |controls|
  {
    if controls != [] {
      TellShaped(c, controls[0], log, w);
      TellAllShaped(Told(c, controls[0], log, w), controls[1..], log, w);
    }
  }

  lemma OpeningShaped(log: Log, asked: nat, w: World)
    requires log.Valid() && asked <= log.Last()
    ensures Shaped(Greeted(log, asked, w), log.Last())
  {
    OpeningRest(log, asked);
    FramesShaped(Since(log, asked), asked, Opening(log, asked), log, w);
  }

  lemma FramesShaped(since: nat, asked: nat, frames: seq<Control>, log: Log, w: World)
    requires asked <= since <= log.Last() && frames != [] && frames[0] == Hello(since)
    requires (forall i :: 0 < i < |frames| ==> frames[i].Lagged?) && (|frames| == 1 ==> since == asked)
    ensures Shaped(ToldAll(Fresh(since, asked), frames, log, w), log.Last())
  {
    var c, rest := Told(Fresh(since, asked), frames[0], log, w), frames[1..];
    assert ToldAll(Fresh(since, asked), frames, log, w) == ToldAll(c, rest, log, w);
    if rest == [] {
      GreetingShaped(since, asked, log, w);
    } else {
      JumpShaped(since, asked, rest[0], log, w);
      assert forall i :: 0 <= i < |rest[1..]| ==> rest[1..][i] == frames[i + 2];
      TellAllShaped(Told(c, rest[0], log, w), rest[1..], log, w);
    }
  }

  lemma {:induction false} ReplayShaped(c: Conn, log: Log, from: nat, w: World)
    requires 1 <= from && Shaped(c, log.Last())
    ensures Shaped(Replayed(c, log, from, w), log.Last())
    decreases log.Last() + 1 - from
  {
    if from <= log.Last() {
      EmitShaped(c, log, from, true, w);
      ReplayShaped(Emitted(c, log, from, true, w), log, from + 1, w);
    }
  }

  lemma AttachShaped(log: Log, since: nat, w: World)
    requires log.Valid()
    ensures Shaped(Attached(log, since, w), log.Last())
  {
    var asked := Asked(log, since);
    OpeningShaped(log, asked, w);
    CatchUpShaped(Greeted(log, asked, w), log, w);
  }

  lemma CatchUpShaped(c: Conn, log: Log, w: World)
    requires log.Valid() && Shaped(c, log.Last())
    ensures Shaped(CaughtUpFrom(c, log, w), log.Last())
  {
    var from := Max(c.cursor + 1, log.oldest);
    var d := Replayed(c, log, from, w);
    ReplayShaped(c, log, from, w);
    TellShaped(d, CaughtUp(d.cursor), log, w);
  }

  // ---- what is sent only grows ----

  predicate Grows(c: Conn, d: Conn) { c.sent <= d.sent && d.asked == c.asked }

  lemma EnqueueGrows(c: Conn, item: Item, head: nat, replaying: bool, w: World)
    ensures Grows(c, Enqueued(c, item, head, replaying, w))
    ensures Enqueued(c, item, head, replaying, w).closed && !c.closed ==>
              Enqueued(c, item, head, replaying, w).sent == c.sent
  {}
}
