// The daemon's connection and the attach client together, over whole runs: appends, batches,
// collapses, slow-consumer and expiry closes, lost sockets, daemon restarts and reconnects.

module StreamRuns {
  import opened Common
  import opened SessionEvents
  import opened EventLog
  import opened StreamConnections
  import opened StreamOrders
  import opened AttachClients

  // `got` counts the frames of `link.sent` the client has received. A daemon restart is a
  // `Drop`: the log and its numbering are on disk, the connection is not.
  datatype Sys = Sys(log: Log, link: Option<Conn>, got: nat, client: Client)

  datatype Step =
    | Append(entry: Entry, w: World)
    | Touch(w: World)
    | Acknowledge(ready: bool)
    | Deliver
    | Expire
    | Drop
    | Reattach(w: World)

  function AppendTo(log: Log, entry: Entry): Log { log.(entries := log.entries + [entry]) }

  function Next(s: Sys, step: Step): Sys
    requires s.log.Valid()
  {
    match step
    case Append(entry, w) =>
      var log := AppendTo(s.log, entry);
      s.(log := log, link := if s.link.None? then None else Some(Emitted(s.link.value, log, log.Last(), false, w)))
    case Touch(w) => if s.link.None? then s else s.(link := Some(Told(s.link.value, Snapshot, s.log, w)))
    case Acknowledge(ready) => if s.link.None? then s else s.(link := Some(Acknowledged(s.link.value, ready)))
    case Deliver =>
      if s.link.None? || s.got >= |s.link.value.sent| || s.client.failed then s
      else s.(got := s.got + 1, client := Received(s.client, s.link.value.sent[s.got]))
    case Expire => if s.link.None? then s else s.(link := Some(Closed(s.link.value)))
    case Drop => s.(link := None, got := 0)
    case Reattach(w) =>
      if s.link.Some? || s.client.failed then s
      else s.(link := Some(Attached(s.log, s.client.last, w)), got := 0)
  }

  // What a client has heard reaches exactly up to its cursor, and its cursor is in the log.
  predicate CaughtBreath(start: nat, s: Sys) {
    Front(start, s.client.heard) == s.client.last + 1 <= s.log.Last() + 1
  }

  // The last frame received is a greeting that moved the cursor, and nothing has come since.
  predicate JustGreeted(c: Conn, got: nat) { got == 1 && c.sent != [] && Jumps(c, c.sent[0]) }

  // The socket does not die just after a greeting that moves the cursor, and every collapse finds
  // the daemon's account of what it sent true.
  predicate TidyStep(s: Sys, step: Step)
    requires s.log.Valid()
  {
    && (step.Drop? && s.link.Some? ==> !JustGreeted(s.link.value, s.got))
    && (Next(s, step).link.Some? ==> Next(s, step).link.value.tidy)
  }

  predicate TidyRun(s: Sys, steps: seq<Step>)
    requires s.log.Valid()
    decreases |steps|
  {
    steps == [] || (TidyStep(s, steps[0]) && TidyRun(Next(s, steps[0]), steps[1..]))
  }

  function After(s: Sys, steps: seq<Step>): (t: Sys)
    requires s.log.Valid()
    ensures t.log.Valid()
    decreases |steps|
  {
    if steps == [] then s else After(Next(s, steps[0]), steps[1..])
  }

  // ---- the invariant ----

  function FrameOf(item: Item): Frame {
    match item
    case Held(control, _) => Say(control)
    case Queued(stored, _, _) => Batch([stored])
  }

  function Frames(queue: seq<Item>): seq<Frame> {
    if queue == [] then [] else [FrameOf(queue[0])] + Frames(queue[1..])
  }

  // The client once the socket's frames have arrived, and once the queue has followed them.
  function Wired(k: Client, got: nat, c: Conn): Client
    requires got <= |c.sent|
  {
    ReceivedAll(k, c.sent[got..])
  }

  function Drained(k: Client, got: nat, c: Conn): Client
    requires got <= |c.sent|
  {
    ReceivedAll(Wired(k, got, c), Frames(c.queue))
  }

  predicate At(start: nat, k: Client, last: nat, front: nat) {
    !k.failed && Tiles(start, k.heard) && k.last == last && Front(start, k.heard) == front
  }

  predicate WireGood(start: nat, k: Client, got: nat, c: Conn) {
    got <= |c.sent| && c.tidy
    && var wired := Wired(k, got, c);
       && !wired.failed && Tiles(start, wired.heard) && Front(start, wired.heard) == SentFront(c.asked + 1, c.sent)
       && (Settled(c) ==> wired.last == c.lastSentSeq)
       && (forall i :: 0 <= i < |c.queue| && IsHello(c.queue[i]) ==>
             i == 0 && c.queue[i].control.since == c.lastSentSeq)
       && NoticesPassed(c)
  }

  // No announcement that was sent reaches past what all that was sent accounts for.
  predicate NoticesPassed(c: Conn) {
    forall i :: 0 <= i < |c.sent| && IsNotice(c.sent[i]) ==> c.sent[i].control.to < SentFront(c.asked + 1, c.sent)
  }

  predicate Good(start: nat, k: Client, got: nat, c: Conn, last: nat, front: nat) {
    WireGood(start, k, got, c) && (!c.closed ==> At(start, Drained(k, got, c), last, front))
  }

  // Where the client stands now: what it heard reaches its cursor, unless it was just greeted.
  predicate Placed(start: nat, k: Client, got: nat, c: Conn) {
    && (Front(start, k.heard) == k.last + 1 <==> !JustGreeted(c, got))
    && (got == 0 ==> k.last == c.asked)
    && (JustGreeted(c, got) ==> Front(start, k.heard) == c.asked + 1)
  }

  // Connections at the head of the log, from which every event has been or will be heard.
  predicate Live(start: nat, k: Client, got: nat, c: Conn, head: nat) {
    && c.lastSentSeq <= head && c.cursor <= head && Good(start, k, got, c, head, head + 1)
    && SentFront(c.asked + 1, c.sent) <= head + 1
  }

  predicate Inv(start: nat, s: Sys) {
    && s.log.Valid() && !s.client.failed && Tiles(start, s.client.heard)
    && match s.link
       case None => CaughtBreath(start, s)
       case Some(c) =>
         Live(start, s.client, s.got, c, s.log.Last()) && Shaped(c, s.log.Last()) && Placed(start, s.client, s.got, c)
  }

  // ---- frames and queues ----

  lemma {:induction false} FramesSplit(a: seq<Item>, b: seq<Item>)
    ensures Frames(a + b) == Frames(a) + Frames(b)
  {
    if a == [] {
      assert a + b == b;
    } else {
      assert (a + b)[1..] == a[1..] + b;
      FramesSplit(a[1..], b);
    }
  }

  // A batch is received as its events one by one.
  lemma {:induction false} BatchIsItsEvents(k: Client, items: seq<Item>)
    requires forall i :: 0 <= i < |items| ==> items[i].Queued?
    ensures ReceivedAll(k, Frames(items)) == Received(k, Batch(StoredOf(items)))
    decreases |items|
  {
    if items != [] {
      var events := StoredOf(items);
      assert [events[0]] + StoredOf(items[1..]) == events;
      TookSplit(k, [events[0]], StoredOf(items[1..]));
      var k' := Received(k, Batch([events[0]]));
      assert Frames(items)[1..] == Frames(items[1..]);
      BatchIsItsEvents(k', items[1..]);
    }
  }

  lemma {:induction false} SentFrontSnoc(front: nat, sent: seq<Frame>, frame: Frame)
    ensures SentFront(front, sent + [frame]) == Passed(SentFront(front, sent), frame)
    decreases |sent|
  {
    if sent == [] {
      assert (sent + [frame])[1..] == [];
    } else {
      assert (sent + [frame])[1..] == sent[1..] + [frame];
      SentFrontSnoc(Passed(front, sent[0]), sent[1..], frame);
    }
  }

  lemma ReceivedOne(k: Client, frame: Frame)
    ensures ReceivedAll(k, [frame]) == Received(k, frame)
  {
    assert [frame][1..] == [];
  }

  // The client's front moves as the daemon's account of the sent frames says.
  lemma FrontPasses(start: nat, k: Client, frame: Frame)
    requires var k' := Received(k, frame); !k'.failed && Tiles(start, k'.heard)
    ensures Front(start, Received(k, frame).heard) == Passed(Front(start, k.heard), frame)
    ensures frame.Batch? && frame.events != [] ==> Received(k, frame).last == frame.events[|frame.events| - 1].num
  {
    if frame.Batch? {
      TookKeeps(k, frame.events);
      PrintsOnlyTheNext(k, frame.events);
      RunEnd(k.last, |frame.events|);
    }
  }

  lemma {:induction false} RunEnd(last: nat, n: nat)
    ensures |Run(last, n)| == n && (n > 0 ==> Run(last, n)[n - 1].to == last + n)
    decreases n
  {
    if n > 0 { RunEnd(last + 1, n - 1); }
  }

  // ---- single operations ----

  lemma SendKeepsDrained(start: nat, k: Client, got: nat, c: Conn, n: nat, frame: Frame, d: Conn)
    requires got <= |c.sent| && n <= |c.queue|
    requires forall j: Client :: Received(j, frame) == ReceivedAll(j, Frames(c.queue[..n]))
    requires d.sent == c.sent + [frame] && d.queue == c.queue[n..]
    ensures Drained(k, got, d) == Drained(k, got, c)
    ensures Wired(k, got, d) == Received(Wired(k, got, c), frame)
  {
    assert d.sent[got..] == c.sent[got..] + [frame];
    ReceivedSplit(k, c.sent[got..], [frame]);
    ReceivedOne(Wired(k, got, c), frame);
    assert c.queue[..n] + c.queue[n..] == c.queue;
    FramesSplit(c.queue[..n], c.queue[n..]);
    ReceivedSplit(Wired(k, got, c), Frames(c.queue[..n]), Frames(c.queue[n..]));
  }

  // What a flush hands to the socket, and what is left.
  predicate Hands(c: Conn, d: Conn, n: nat, frame: Frame) {
    && 0 < n <= |c.queue| && d.queue == c.queue[n..] && d.sent == c.sent + [frame]
    && d.asked == c.asked && d.tidy == c.tidy && d.closed == c.closed
    && (if frame.Batch? then frame.events != [] && d.lastSentSeq == frame.events[|frame.events| - 1].num
        else d.lastSentSeq == c.lastSentSeq && c.queue[0].Held? && frame == Say(c.queue[0].control))
  }

  lemma FlushSends(c: Conn) returns (n: nat, frame: Frame)
    requires !c.closed && !c.sending && c.queue != []
    ensures Hands(c, Flushed(c, true), n, frame)
    ensures forall j: Client :: Received(j, frame) == ReceivedAll(j, Frames(c.queue[..n]))
  {
    var d := Flushed(c, true);
    frame := d.sent[|c.sent|];
    if c.queue[0].Held? {
      n := 1;
      assert c.queue[..1][1..] == [];
      forall j: Client ensures Received(j, frame) == ReceivedAll(j, Frames(c.queue[..n])) { ReceivedOne(j, frame); }
    } else {
      n := BatchLength(c.queue, 0, EVENTS_FRAME_BYTES);
      forall j: Client ensures Received(j, frame) == ReceivedAll(j, Frames(c.queue[..n])) {
        BatchIsItsEvents(j, c.queue[..n]);
      }
    }
  }

  // The client, once it has the frame too, is where the daemon believes it to be, if it was.
  lemma SendSettles(start: nat, w: Client, c: Conn, d: Conn, n: nat, frame: Frame)
    requires Hands(c, d, n, frame) && !Received(w, frame).failed && Tiles(start, Received(w, frame).heard)
    requires SentFront(d.asked + 1, d.sent) == Passed(SentFront(c.asked + 1, c.sent), frame)
    requires Settled(c) ==> w.last == c.lastSentSeq
    requires IsHello(c.queue[0]) ==> c.queue[0].control.since == c.lastSentSeq
    ensures Settled(d) ==> Received(w, frame).last == d.lastSentSeq
  {
    if frame.Batch? { FrontPasses(start, w, frame); }
  }

  lemma SendWired(start: nat, k: Client, got: nat, c: Conn, d: Conn, n: nat, frame: Frame)
    requires WireGood(start, k, got, c) && Hands(c, d, n, frame)
             && Wired(k, got, d) == Received(Wired(k, got, c), frame)
    requires !Wired(k, got, d).failed && Tiles(start, Wired(k, got, d).heard)
    ensures WireGood(start, k, got, d)
  {
    var w := Wired(k, got, c);
    FrontPasses(start, w, frame);
    SentFrontSnoc(c.asked + 1, c.sent, frame);
    SendSettles(start, w, c, d, n, frame);
    assert forall i :: 0 <= i < |d.queue| ==> d.queue[i] == c.queue[n + i];
    FrontGrows(start, w, frame);
    SendPasses(start, k, got, c, d, frame);
  }

  lemma FlushGood(start: nat, k: Client, got: nat, c: Conn, ready: bool, last: nat, front: nat)
    requires Good(start, k, got, c, last, front)
    ensures Good(start, k, got, Flushed(c, ready), last, front)
    ensures Flushed(c, ready).lastSentSeq <= Max(c.lastSentSeq, front - 1)
  {
    if !(c.closed || c.sending || !ready || c.queue == []) {
      var d := Flushed(c, ready);
      var n, frame := FlushSends(c);
      SendKeepsDrained(start, k, got, c, n, frame, d);
      SendStaysBehind(start, k, got, d, last, front);
      SendWired(start, k, got, c, d, n, frame);
      SendCounts(start, k, got, c, d, n, frame, front);
    }
  }

  lemma SendStaysBehind(start: nat, k: Client, got: nat, d: Conn, last: nat, front: nat)
    requires got <= |d.sent| && At(start, Drained(k, got, d), last, front)
    ensures !Wired(k, got, d).failed && Tiles(start, Wired(k, got, d).heard)
            && Front(start, Wired(k, got, d).heard) <= front
  {
    ReceivedKeeps(Wired(k, got, d), Frames(d.queue));
    TilesPrefix(start, Wired(k, got, d).heard, Drained(k, got, d).heard);
  }

  lemma SendCounts(start: nat, k: Client, got: nat, c: Conn, d: Conn, n: nat, frame: Frame, front: nat)
    requires WireGood(start, k, got, d) && Hands(c, d, n, frame) && Front(start, Wired(k, got, d).heard) <= front
    ensures d.lastSentSeq <= Max(c.lastSentSeq, front - 1)
  {
    if frame.Batch? { SentFrontSnoc(c.asked + 1, c.sent, frame); }
  }

  lemma FrontGrows(start: nat, k: Client, frame: Frame)
    requires !Received(k, frame).failed && Tiles(start, Received(k, frame).heard)
    ensures Front(start, k.heard) <= Front(start, Received(k, frame).heard)
  {
    ReceivedKeeps(k, [frame]);
    ReceivedOne(k, frame);
    TilesPrefix(start, k.heard, Received(k, frame).heard);
  }

  lemma SendPasses(start: nat, k: Client, got: nat, c: Conn, d: Conn, frame: Frame)
    requires NoticesPassed(c) && got <= |c.sent| && d.sent == c.sent + [frame] && d.asked == c.asked
    requires SentFront(d.asked + 1, d.sent) == Passed(SentFront(c.asked + 1, c.sent), frame)
    requires SentFront(c.asked + 1, c.sent) <= SentFront(d.asked + 1, d.sent)
    ensures NoticesPassed(d)
  {
    forall i | 0 <= i < |d.sent| && IsNotice(d.sent[i]) ensures d.sent[i].control.to < SentFront(d.asked + 1, d.sent) {
      if i < |c.sent| { assert d.sent[i] == c.sent[i]; }
    }
  }

  // What a client makes of a skip from the last event sent to the head.
  function Skipped(k: Client, sent: nat, head: nat): Client {
    if head >= sent + 1 then k.(last := head, heard := k.heard + [Piece(sent + 1, head, false)]) else k
  }

  lemma SkipExact(start: nat, k: Client, sent: nat, head: nat)
    requires !k.failed && Tiles(start, k.heard) && Front(start, k.heard) <= head + 1 && sent <= head
    requires sent + 1 == Front(start, k.heard) ==> k.last == sent
    ensures At(start, Skipped(k, sent, head), head, head + 1) <==> sent + 1 == Front(start, k.heard)
  {
    if head >= sent + 1 {
      var piece := Piece(sent + 1, head, false);
      assert (k.heard + [piece])[..|k.heard|] == k.heard;
    }
  }

  lemma WiredIsBehind(start: nat, k: Client, got: nat, c: Conn, last: nat, front: nat)
    requires Good(start, k, got, c, last, front) && !c.closed
    ensures Front(start, Wired(k, got, c).heard) <= front
  {
    ReceivedKeeps(Wired(k, got, c), Frames(c.queue));
    TilesPrefix(start, Wired(k, got, c).heard, Drained(k, got, c).heard);
  }

  lemma CollapseDrains(k: Client, got: nat, c: Conn, head: nat, reason: Reason, w: World)
    requires got <= |c.sent| && !Wired(k, got, c).failed
    ensures var d := Collapsed(c, head, reason, w);
            && d.sent == c.sent && Wired(k, got, d) == Wired(k, got, c)
            && (!d.closed ==> Drained(k, got, d) == Skipped(Wired(k, got, c), c.lastSentSeq, head))
  {
    RecoveryReceived(Wired(k, got, c), c, head, reason, w.sizes);
  }

  // A collapse of an open connection keeps the client's place exactly when it was settled.
  lemma CollapseExact(start: nat, k: Client, got: nat, c: Conn, head: nat, reason: Reason, w: World, last: nat,
                      front: nat)
    requires Good(start, k, got, c, last, front) && !c.closed && front <= head + 1 && c.lastSentSeq <= head
    ensures var d := Collapsed(c, head, reason, w);
            !d.closed ==> (At(start, Drained(k, got, d), head, head + 1) <==> Settled(c))
    ensures Settled(c) ==> Good(start, k, got, Collapsed(c, head, reason, w), head, head + 1)
  {
    WiredIsBehind(start, k, got, c, last, front);
    CollapseDrains(k, got, c, head, reason, w);
    SkipExact(start, Wired(k, got, c), c.lastSentSeq, head);
    if Settled(c) { CollapseGood(start, k, got, c, head, reason, w); }
  }

  lemma CollapseGood(start: nat, k: Client, got: nat, c: Conn, head: nat, reason: Reason, w: World)
    requires WireGood(start, k, got, c) && Settled(c) && !c.closed && c.lastSentSeq <= head
    ensures WireGood(start, k, got, Collapsed(c, head, reason, w))
  {
    var d := Collapsed(c, head, reason, w);
    assert d.sent == c.sent && d.asked == c.asked;
    assert Wired(k, got, d) == Wired(k, got, c);
  }

  lemma RecoveryReceived(k: Client, c: Conn, head: nat, reason: Reason, sizes: Sizes)
    requires !k.failed
    ensures var k' := ReceivedAll(k, Frames(Recovery(c, head, reason, sizes)));
            k' == if head >= c.lastSentSeq + 1
                  then k.(last := head, heard := k.heard + [Piece(c.lastSentSeq + 1, head, false)]) else k
  {
    var from := c.lastSentSeq + 1;
    var snapshot := Say(Snapshot);
    ReceivedOne(k, snapshot);
    if head >= from {
      var lagged := Say(Lagged(from, head, reason));
      var q := Recovery(c, head, reason, sizes);
      assert q[1..] == [Held(Snapshot, sizes.snapshot)] && q[1..][1..] == [];
      assert Frames(q) == [lagged] + [snapshot];
      ReceivedSplit(k, [lagged], [snapshot]);
      ReceivedOne(k, lagged);
      ReceivedOne(Received(k, lagged), snapshot);
    } else {
      assert [Held(Snapshot, sizes.snapshot)][1..] == [];
      assert Frames([Held(Snapshot, sizes.snapshot)]) == [snapshot];
    }
  }

  lemma PushGood(start: nat, k: Client, got: nat, c: Conn, item: Item, last: nat, front: nat, last': nat, front': nat)
    requires Good(start, k, got, c, last, front) && !c.closed
    requires At(start, Received(Drained(k, got, c), FrameOf(item)), last', front')
    requires IsHello(item) ==> c.queue == [] && item.control.since == c.lastSentSeq
    ensures Good(start, k, got, Pushed(c, item), last', front')
  {
    var frame := FrameOf(item);
    FramesSplit(c.queue, [item]);
    assert [item][1..] == [] && Frames([item]) == [frame];
    ReceivedSplit(Wired(k, got, c), Frames(c.queue), [frame]);
    ReceivedOne(Drained(k, got, c), frame);
  }

  // What enqueuing does to the client that will have received everything.
  lemma EnqueueGood(start: nat, k: Client, got: nat, c: Conn, item: Item, head: nat, replaying: bool, w: World,
                    last: nat, front: nat, last': nat, front': nat)
    requires Good(start, k, got, c, last, front) && !c.closed && c.lastSentSeq <= head
    requires At(start, Received(Drained(k, got, c), FrameOf(item)), last', front') && front' <= head + 1
    requires !IsHello(item)
    ensures var d := Enqueued(c, item, head, replaying, w);
            d.lastSentSeq <= head && (replaying ==> !d.closed)
            && (d.tidy ==>
                  || (d.cursor == c.cursor && Good(start, k, got, d, last', front'))
                  || (d.cursor == head && Good(start, k, got, d, head, head + 1)))
  {
    var e := Pushed(c, item);
    PushGood(start, k, got, c, item, last, front, last', front');
    if |e.queue| > MAX_QUEUE_EVENTS || e.queuedBytes > MAX_QUEUE_BYTES {
      if Settled(e) {
        CollapseExact(start, k, got, e, head, if replaying then Backlog else SlowConsumer, w, last', front');
      }
    } else {
      FlushGood(start, k, got, e, w.ready, last', front');
    }
  }

  // ---- attaching ----

  const BIG: nat := CONTROL_MAX_BYTES + 64

  // An open connection that queues a few control frames and nothing else.
  predicate Small(c: Conn, told: nat) {
    !c.closed && |c.queue| <= told && c.queuedBytes <= told * BIG && forall i :: 0 <= i < |c.queue| ==> c.queue[i].Held?
  }

  // The opening frames are few and small, so telling them never collapses.
  lemma TellSmall(start: nat, k: Client, c: Conn, control: Control, log: Log, w: World,
                  last: nat, front: nat, last': nat, front': nat, told: nat)
    requires Good(start, k, 0, c, last, front) && Small(c, told) && told <= 2
    requires c.lastSentSeq <= log.Last() && front' <= log.Last() + 1
    requires At(start, Received(Drained(k, 0, c), Say(control)), last', front')
    requires control.Hello? ==> c.queue == [] && control.since == c.lastSentSeq
    ensures var d := Told(c, control, log, w);
            Good(start, k, 0, d, last', front') && Small(d, told + 1) && d.lastSentSeq == c.lastSentSeq
            && d.cursor == c.cursor
  {
    var item := Held(control, Weigh(control, w.sizes));
    SmallIsFlushed(c, control, log, w, told);
    PushGood(start, k, 0, c, item, last, front, last', front');
    FlushGood(start, k, 0, Pushed(c, item), w.ready, last', front');
  }

  lemma SmallIsFlushed(c: Conn, control: Control, log: Log, w: World, told: nat)
    requires Small(c, told) && told <= 2
    ensures var e := Pushed(c, Held(control, Weigh(control, w.sizes)));
            var d := Told(c, control, log, w);
            d == Flushed(e, w.ready) && Small(d, told + 1) && d.lastSentSeq == c.lastSentSeq && d.cursor == c.cursor
  {
    var e := Pushed(c, Held(control, Weigh(control, w.sizes)));
    assert e.queuedBytes <= (told + 1) * BIG <= 3 * BIG <= MAX_QUEUE_BYTES;
    assert forall i :: 0 <= i < |e.queue| ==> e.queue[i].Held?;
  }

  lemma HearSkip(start: nat, k: Client, last: nat, from: nat, to: nat, reason: Reason)
    requires At(start, k, last, from) && from <= to
    ensures At(start, Received(k, Say(Lagged(from, to, reason))), to, to + 1)
  {
    var piece := Piece(from, to, false);
    assert (k.heard + [piece])[..|k.heard|] == k.heard;
  }

  lemma HearEvent(start: nat, k: Client, stored: Stored)
    requires stored.num > 0 && At(start, k, stored.num - 1, stored.num)
    ensures At(start, Received(k, Batch([stored])), stored.num, stored.num + 1)
  {
    var piece := Piece(stored.num, stored.num, true);
    assert (k.heard + [piece])[..|k.heard|] == k.heard;
    assert [stored][1..] == [];
    assert Took(k, [stored]) == Took(k.(last := stored.num, heard := k.heard + [piece]), []);
  }

  // Announcements that follow one another from `front` on, and the front after them.
  predicate Chain(front: nat, controls: seq<Control>, head: nat)
    decreases |controls|
  {
    controls == [] ||
    (controls[0].Lagged? && controls[0].from == front <= controls[0].to <= head
     && Chain(controls[0].to + 1, controls[1..], head))
  }

  function ChainEnd(front: nat, controls: seq<Control>): nat
    decreases |controls|
  {
    if controls == [] || !controls[0].Lagged? then front else ChainEnd(controls[0].to + 1, controls[1..])
  }

  lemma {:induction false} TellChain(start: nat, k: Client, c: Conn, controls: seq<Control>, log: Log, w: World,
                                     last: nat, front: nat, told: nat)
    requires Good(start, k, 0, c, last, front) && Small(c, told) && c.lastSentSeq <= log.Last()
             && told + |controls| <= 3
    requires Chain(front, controls, log.Last()) && (controls == [] ==> front == last + 1)
    ensures var d := ToldAll(c, controls, log, w);
            var end := ChainEnd(front, controls);
            end > 0 && Good(start, k, 0, d, end - 1, end) && !d.closed && d.cursor == c.cursor
            && d.lastSentSeq == c.lastSentSeq
    decreases |controls|
  {
    if controls != [] {
      var to := controls[0].to;
      HearSkip(start, Drained(k, 0, c), last, front, to, controls[0].reason);
      TellSmall(start, k, c, controls[0], log, w, last, front, to, to + 1, told);
      TellChain(start, k, Told(c, controls[0], log, w), controls[1..], log, w, to, to + 1, told + 1);
    }
  }

  lemma OpeningIsChain(log: Log, asked: nat)
    requires log.Valid() && asked <= log.Last()
    ensures var since := Since(log, asked);
            var frames := Opening(log, asked);
            1 <= |frames| <= 3 && frames[0] == Hello(since) && Chain(asked + 1, frames[1..], log.Last())
            && ChainEnd(asked + 1, frames[1..]) == Max(since, log.oldest - 1) + 1
            && (frames[1..] == [] ==> since == asked)
  {
    var since := Since(log, asked);
    var skippedFrom := Max(asked, log.oldest - 1) + 1;
    var evicted := if asked < log.oldest - 1 then [Lagged(asked + 1, log.oldest - 1, Evicted)] else [];
    var backlog := if since >= skippedFrom then [Lagged(skippedFrom, since, Backlog)] else [];
    var rest := Opening(log, asked)[1..];
    assert rest == evicted + backlog;
    if evicted == [] {
      assert rest == backlog;
      if backlog != [] { assert rest[1..] == []; }
    } else {
      assert rest[1..] == backlog;
      if backlog != [] {
        assert backlog[1..] == [];
        assert ChainEnd(log.oldest, backlog) == ChainEnd(since + 1, []);
      }
    }
  }

  lemma OpeningGood(start: nat, k: Client, log: Log, w: World)
    requires log.Valid() && k.last <= log.Last() && At(start, k, k.last, k.last + 1)
    ensures var asked := Asked(log, k.last);
            var since := Since(log, asked);
            var d := Greeted(log, asked, w);
            var p := Max(since, log.oldest - 1);
            Good(start, k, 0, d, p, p + 1) && !d.closed && d.cursor == since == d.lastSentSeq
  {
    var asked := Asked(log, k.last);
    var since := Since(log, asked);
    var c := Fresh(since, asked);
    var frames := Opening(log, asked);
    OpeningIsChain(log, asked);
    assert Good(start, k, 0, c, asked, asked + 1);
    TellSmall(start, k, c, Hello(since), log, w, asked, asked + 1, since, asked + 1, 0);
    TellChain(start, k, Told(c, Hello(since), log, w), frames[1..], log, w, since, asked + 1, 1);
  }

  lemma {:induction false} ReplayTidy(c: Conn, log: Log, from: nat, w: World)
    requires 1 <= from
    ensures Replayed(c, log, from, w).tidy ==> c.tidy
    decreases log.Last() + 1 - from
  {
    if from <= log.Last() { ReplayTidy(Emitted(c, log, from, true, w), log, from + 1, w); }
  }

  // Where a replay stands when `from` is the next seq to emit.
  predicate Midway(start: nat, k: Client, c: Conn, log: Log, from: nat)
    requires 1 <= from
  {
    !c.closed && (c.tidy ==> c.lastSentSeq <= log.Last() && Standing(start, k, c, log, from))
  }

  predicate Standing(start: nat, k: Client, c: Conn, log: Log, from: nat)
    requires 1 <= from
  {
    || (c.cursor < from && Good(start, k, 0, c, from - 1, from))
    || (c.cursor == log.Last() && Good(start, k, 0, c, log.Last(), log.Last() + 1))
  }

  lemma {:induction false} ReplayGood(start: nat, k: Client, c: Conn, log: Log, from: nat, w: World)
    requires 1 <= from <= log.Last() + 1 && Midway(start, k, c, log, from)
    ensures Midway(start, k, Replayed(c, log, from, w), log, log.Last() + 1)
    decreases log.Last() + 1 - from
  {
    if from <= log.Last() {
      var d := Emitted(c, log, from, true, w);
      EmitMidway(start, k, c, log, from, w);
      ReplayGood(start, k, d, log, from + 1, w);
    }
  }

  lemma EmitMidway(start: nat, k: Client, c: Conn, log: Log, from: nat, w: World)
    requires 1 <= from <= log.Last() && Midway(start, k, c, log, from)
    ensures Midway(start, k, Emitted(c, log, from, true, w), log, from + 1)
  {
    if from > c.cursor {
      var e := c.(cursor := from);
      var item := ItemFor(log, from);
      if c.tidy {
        HearEvent(start, Drained(k, 0, e), item.stored);
        EnqueueGood(start, k, 0, e, item, log.Last(), true, w, from - 1, from, from, from + 1);
      }
    }
  }

  // An open connection has sent no more than there is; one that a collapse closed sent nothing in it.
  lemma FrontIsBounded(start: nat, k: Client, got: nat, c: Conn, d: Conn, head: nat)
    requires SentFront(c.asked + 1, c.sent) <= head + 1 && d.asked == c.asked
    requires d.closed ==> d.sent == c.sent
    requires Good(start, k, got, d, head, head + 1)
    ensures SentFront(d.asked + 1, d.sent) <= head + 1
  {
    if !d.closed { WiredIsBehind(start, k, got, d, head, head + 1); }
  }

  lemma StaysLive(start: nat, k: Client, got: nat, c: Conn, d: Conn, head: nat)
    requires SentFront(c.asked + 1, c.sent) <= head + 1 && d.asked == c.asked && (d.closed ==> d.sent == c.sent)
    requires Good(start, k, got, d, head, head + 1) && d.lastSentSeq <= head && d.cursor <= head
    ensures Live(start, k, got, d, head)
  {
    FrontIsBounded(start, k, got, c, d, head);
  }

  lemma EmittedIsEnqueued(c: Conn, log: Log, num: nat, replaying: bool, w: World)
    requires 1 <= num <= log.Last() && !c.closed && num > c.cursor
    ensures Emitted(c, log, num, replaying, w)
            == Enqueued(c.(cursor := num), ItemFor(log, num), log.Last(), replaying, w)
  {}

  lemma TellLive(start: nat, k: Client, got: nat, c: Conn, control: Control, log: Log, w: World)
    requires Live(start, k, got, c, log.Last()) && (control.Snapshot? || control.CaughtUp?)
    requires Told(c, control, log, w).tidy
    ensures Live(start, k, got, Told(c, control, log, w), log.Last())
  {
    if !c.closed {
      var head, item := log.Last(), Held(control, Weigh(control, w.sizes));
      EnqueueGood(start, k, got, c, item, head, false, w, head, head + 1, head, head + 1);
      EnqueueGrows(c, item, head, false, w);
      StaysLive(start, k, got, c, Told(c, control, log, w), head);
    }
  }

  lemma EmitLive(start: nat, k: Client, got: nat, c: Conn, log: Log, w: World)
    requires log.Last() > 0 && Live(start, k, got, c, log.Last() - 1)
    requires Emitted(c, log, log.Last(), false, w).tidy
    ensures Live(start, k, got, Emitted(c, log, log.Last(), false, w), log.Last())
  {
    if !c.closed {
      EmittedIsEnqueued(c, log, log.Last(), false, w);
      EnqueueLive(start, k, got, c.(cursor := log.Last()), log, w);
    }
  }

  lemma EnqueueLive(start: nat, k: Client, got: nat, e: Conn, log: Log, w: World)
    requires log.Last() > 0 && e.cursor == log.Last() && !e.closed && e.lastSentSeq <= log.Last()
    requires Good(start, k, got, e, log.Last() - 1, log.Last()) && SentFront(e.asked + 1, e.sent) <= log.Last() + 1
    requires Enqueued(e, ItemFor(log, log.Last()), log.Last(), false, w).tidy
    ensures Live(start, k, got, Enqueued(e, ItemFor(log, log.Last()), log.Last(), false, w), log.Last())
  {
    var head := log.Last();
    EmitNewest(start, k, got, e, log, w);
    EnqueueGrows(e, ItemFor(log, head), head, false, w);
    StaysLive(start, k, got, e, Enqueued(e, ItemFor(log, head), head, false, w), head);
  }

  lemma EmitNewest(start: nat, k: Client, got: nat, e: Conn, log: Log, w: World)
    requires log.Last() > 0 && e.cursor == log.Last() && !e.closed && e.lastSentSeq <= log.Last()
    requires Good(start, k, got, e, log.Last() - 1, log.Last())
    ensures var d := Enqueued(e, ItemFor(log, log.Last()), log.Last(), false, w);
            d.tidy ==>
              Good(start, k, got, d, log.Last(), log.Last() + 1) && d.lastSentSeq <= log.Last()
              && d.cursor == log.Last()
  {
    var head := log.Last();
    HearEvent(start, Drained(k, got, e), ItemFor(log, head).stored);
    EnqueueGood(start, k, got, e, ItemFor(log, head), head, false, w, head - 1, head, head, head + 1);
  }

  lemma AttachLive(start: nat, k: Client, log: Log, w: World)
    requires log.Valid() && k.last <= log.Last() && At(start, k, k.last, k.last + 1)
    requires Attached(log, k.last, w).tidy
    ensures Live(start, k, 0, Attached(log, k.last, w), log.Last())
  {
    var since := Since(log, Asked(log, k.last));
    OpeningGood(start, k, log, w);
    CatchUpLive(start, k, Greeted(log, Asked(log, k.last), w), log, w, Max(since, log.oldest - 1));
  }

  lemma CatchUpLive(start: nat, k: Client, c: Conn, log: Log, w: World, p: nat)
    requires log.Valid() && Good(start, k, 0, c, p, p + 1) && !c.closed && c.lastSentSeq == c.cursor <= log.Last()
    requires p == Max(c.cursor, log.oldest - 1) && CaughtUpFrom(c, log, w).tidy
    ensures Live(start, k, 0, CaughtUpFrom(c, log, w), log.Last())
  {
    var d := Replayed(c, log, p + 1, w);
    assert CaughtUpFrom(c, log, w) == Told(d, CaughtUp(d.cursor), log, w);
    TellTidy(d, CaughtUp(d.cursor), log, w);
    ReplayFrom(start, k, c, log, w, p);
    TellLive(start, k, 0, d, CaughtUp(d.cursor), log, w);
  }

  lemma TellTidy(c: Conn, control: Control, log: Log, w: World)
    ensures Told(c, control, log, w).tidy ==> c.tidy
  {}

  lemma ReplayFrom(start: nat, k: Client, c: Conn, log: Log, w: World, p: nat)
    requires log.Valid() && Good(start, k, 0, c, p, p + 1) && !c.closed && c.lastSentSeq == c.cursor <= log.Last()
    requires p == Max(c.cursor, log.oldest - 1)
    ensures Replayed(c, log, p + 1, w).tidy ==> Live(start, k, 0, Replayed(c, log, p + 1, w), log.Last())
  {
    assert Standing(start, k, c, log, p + 1);
    ReplayLive(start, k, c, log, p + 1, w);
  }

  lemma ReplayLive(start: nat, k: Client, c: Conn, log: Log, from: nat, w: World)
    requires 1 <= from <= log.Last() + 1 && Midway(start, k, c, log, from) && c.cursor <= log.Last()
    ensures var d := Replayed(c, log, from, w); d.tidy ==> Live(start, k, 0, d, log.Last())
  {
    ReplayGood(start, k, c, log, from, w);
    ReplayedIsLive(start, k, Replayed(c, log, from, w), log);
  }

  lemma ReplayedIsLive(start: nat, k: Client, d: Conn, log: Log)
    requires Midway(start, k, d, log, log.Last() + 1)
    ensures d.tidy ==> Live(start, k, 0, d, log.Last())
  {
    if d.tidy { WiredIsBehind(start, k, 0, d, log.Last(), log.Last() + 1); }
  }

  lemma AcknowledgeLive(start: nat, k: Client, got: nat, c: Conn, ready: bool, head: nat)
    requires Live(start, k, got, c, head)
    ensures Live(start, k, got, Acknowledged(c, ready), head)
  {
    var d := c.(sending := false);
    assert Live(start, k, got, d, head);
    FlushGood(start, k, got, d, ready, head, head + 1);
    StaysLive(start, k, got, d, Flushed(d, ready), head);
  }

  lemma DeliverGood(start: nat, k: Client, got: nat, c: Conn, head: nat)
    requires Live(start, k, got, c, head) && got < |c.sent| && !k.failed && Tiles(start, k.heard)
    ensures var k' := Received(k, c.sent[got]);
            Live(start, k', got + 1, c, head) && !k'.failed && Tiles(start, k'.heard)
  {
    var k' := Received(k, c.sent[got]);
    var rest := c.sent[got..];
    assert rest[0] == c.sent[got] && rest[1..] == c.sent[got + 1..];
    assert Wired(k', got + 1, c) == Wired(k, got, c);
    ReceivedKeeps(k', rest[1..]);
    TilesPrefix(start, k'.heard, Wired(k, got, c).heard);
  }

  // ---- where the client stands ----

  lemma GrowingKeepsPlace(start: nat, k: Client, got: nat, c: Conn, d: Conn)
    requires Placed(start, k, got, c) && got <= |c.sent| && Grows(c, d)
    ensures Placed(start, k, got, d)
  {
    if c.sent != [] { assert d.sent[0] == c.sent[0]; }
  }

  // Every frame but a greeting leaves the client where what it heard ends, or where it stood; and
  // a greeting that moves the cursor is followed at once by its announcement.
  lemma DeliveryKeepsPlace(start: nat, k: Client, got: nat, c: Conn)
    requires Placed(start, k, got, c) && got < |c.sent| && Ordered(c) && !k.failed
    requires !Received(k, c.sent[got]).failed && Tiles(start, Received(k, c.sent[got]).heard)
    ensures Placed(start, Received(k, c.sent[got]), got + 1, c)
  {
    var frame := c.sent[got];
    FrontPasses(start, k, frame);
    if IsGreeting(frame) {
      assert got == 0;
    } else if frame.Batch? && frame.events != [] {
    } else if JustGreeted(c, got) {
      assert IsNotice(c.sent[1]);
    }
  }

  // A client that loses its socket stands where what it heard ends, and in the log, exactly when it
  // was not just greeted.
  lemma ADroppedClientKeepsItsPlace(start: nat, s: Sys)
    requires Inv(start, s) && s.link.Some?
    ensures CaughtBreath(start, Next(s, Drop)) <==> !JustGreeted(s.link.value, s.got)
  {
    var k, got, c := s.client, s.got, s.link.value;
    ReceivedKeeps(k, c.sent[got..]);
    TilesPrefix(start, k.heard, Wired(k, got, c).heard);
  }

  // ---- one step ----

  lemma StepKeeps(start: nat, s: Sys, step: Step)
    requires Inv(start, s)
    ensures TidyStep(s, step) ==> Inv(start, Next(s, step))
  {
    if !TidyStep(s, step) {
    } else if step.Drop? {
      if s.link.Some? { ADroppedClientKeepsItsPlace(start, s); }
    } else if step.Reattach? {
      if s.link.None? { ReattachKeeps(start, s, step.w); }
    } else if s.link.Some? {
      LinkedStepKeeps(start, s, step);
    }
  }

  lemma ReattachKeeps(start: nat, s: Sys, w: World)
    requires Inv(start, s) && s.link.None? && Attached(s.log, s.client.last, w).tidy
    ensures Inv(start, Next(s, Reattach(w)))
  {
    AttachLive(start, s.client, s.log, w);
    AttachShaped(s.log, s.client.last, w);
    AttachAsks(s.log, s.client.last, w);
  }

  lemma {:induction false} ToldAllAsks(c: Conn, controls: seq<Control>, log: Log, w: World)
    ensures ToldAll(c, controls, log, w).asked == c.asked
    decreases |controls|
  {
    if controls != [] { ToldAllAsks(Told(c, controls[0], log, w), controls[1..], log, w); }
  }

  lemma {:induction false} ReplayAsks(c: Conn, log: Log, from: nat, w: World)
    requires 1 <= from
    ensures Replayed(c, log, from, w).asked == c.asked
    decreases log.Last() + 1 - from
  {
    if from <= log.Last() { ReplayAsks(Emitted(c, log, from, true, w), log, from + 1, w); }
  }

  lemma AttachAsks(log: Log, since: nat, w: World)
    requires log.Valid()
    ensures Attached(log, since, w).asked == Asked(log, since)
  {
    var asked := Asked(log, since);
    ToldAllAsks(Fresh(Since(log, asked), asked), Opening(log, asked), log, w);
    CatchUpAsks(Greeted(log, asked, w), log, w);
  }

  lemma CatchUpAsks(c: Conn, log: Log, w: World)
    requires log.Valid()
    ensures CaughtUpFrom(c, log, w).asked == c.asked
  {
    ReplayAsks(c, log, Max(c.cursor + 1, log.oldest), w);
  }

  lemma LinkedStepKeeps(start: nat, s: Sys, step: Step)
    requires Inv(start, s) && s.link.Some? && !step.Reattach? && !step.Drop?
    requires Next(s, step).link.value.tidy
    ensures Inv(start, Next(s, step))
  {
    match step
    case Append(entry, w) => AppendKeeps(start, s, entry, w);
    case Touch(w) => TouchKeeps(start, s, w);
    case Acknowledge(ready) => AcknowledgeKeeps(start, s, ready);
    case Deliver => if s.got < |s.link.value.sent| { DeliverKeeps(start, s); }
    case Expire => ExpireKeeps(start, s);
  }

  lemma ExpireKeeps(start: nat, s: Sys)
    requires Inv(start, s) && s.link.Some?
    ensures Inv(start, Next(s, Expire))
  {
    CloseShaped(s.link.value, s.log.Last());
  }

  lemma TouchKeeps(start: nat, s: Sys, w: World)
    requires Inv(start, s) && s.link.Some? && Told(s.link.value, Snapshot, s.log, w).tidy
    ensures Inv(start, Next(s, Touch(w)))
  {
    var k, got, c := s.client, s.got, s.link.value;
    TellLive(start, k, got, c, Snapshot, s.log, w);
    TellShaped(c, Snapshot, s.log, w);
    EnqueueGrows(c, Held(Snapshot, w.sizes.snapshot), s.log.Last(), false, w);
    GrowingKeepsPlace(start, k, got, c, Told(c, Snapshot, s.log, w));
  }

  lemma AcknowledgeKeeps(start: nat, s: Sys, ready: bool)
    requires Inv(start, s) && s.link.Some?
    ensures Inv(start, Next(s, Acknowledge(ready)))
  {
    var k, got, c := s.client, s.got, s.link.value;
    AcknowledgeLive(start, k, got, c, ready, s.log.Last());
    AcknowledgeShaped(c, ready, s.log.Last());
    GrowingKeepsPlace(start, k, got, c, Acknowledged(c, ready));
  }

  lemma DeliverKeeps(start: nat, s: Sys)
    requires Inv(start, s) && s.link.Some? && s.got < |s.link.value.sent|
    ensures Inv(start, Next(s, Deliver))
  {
    DeliverGood(start, s.client, s.got, s.link.value, s.log.Last());
    DeliveryKeepsPlace(start, s.client, s.got, s.link.value);
  }

  lemma AppendKeeps(start: nat, s: Sys, entry: Entry, w: World)
    requires Inv(start, s) && s.link.Some? && Next(s, Append(entry, w)).link.value.tidy
    ensures Inv(start, Next(s, Append(entry, w)))
  {
    var k, got, c, log := s.client, s.got, s.link.value, AppendTo(s.log, entry);
    EmitLive(start, k, got, c, log, w);
    EmitShaped(c, log, log.Last(), false, w);
    EnqueueGrows(c.(cursor := log.Last()), ItemFor(log, log.Last()), log.Last(), false, w);
    GrowingKeepsPlace(start, k, got, c, Emitted(c, log, log.Last(), false, w));
  }

  // ---- whole runs ----

  predicate Begins(start: nat, s: Sys) {
    s.log.Valid() && s.link.None? && s.client == Client(start, false, [])
  }

  // Nothing is queued, in the socket or on its way.
  predicate Quiet(s: Sys) {
    s.link.Some? && !s.link.value.closed && s.link.value.queue == [] && s.got == |s.link.value.sent|
  }

  lemma {:induction false} TidyRunKeeps(start: nat, s: Sys, steps: seq<Step>)
    requires Inv(start, s) && TidyRun(s, steps)
    ensures Inv(start, After(s, steps))
    decreases |steps|
  {
    if steps != [] {
      StepKeeps(start, s, steps[0]);
      TidyRunKeeps(start, Next(s, steps[0]), steps[1..]);
    }
  }

  // Over every tidy run the client never meets a gap, and what it printed and what was announced
  // as skipped tile the seqs after `start`: no hole, no overlap, in order. Whenever the stream is
  // quiet, or the client is without a socket, the tiling reaches its cursor, and when it is quiet
  // its cursor is the head of the log.
  lemma TidyRunTiles(start: nat, s: Sys, steps: seq<Step>)
    requires Begins(start, s) && start <= s.log.Last() && TidyRun(s, steps)
    ensures var t := After(s, steps);
            && !t.client.failed && Tiles(start, t.client.heard)
            && (t.link.None? ==> CaughtBreath(start, t))
            && (Quiet(t) ==> t.client.last == t.log.Last() && Front(start, t.client.heard) == t.log.Last() + 1)
  {
    TidyRunKeeps(start, s, steps);
    var t := After(s, steps);
    if Quiet(t) { assert t.link.value.sent[t.got..] == []; }
  }
}
