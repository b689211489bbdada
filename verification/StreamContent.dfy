// Which event travels under a seq: the log's own, in the queue, in the socket and on the terminal.

module StreamContents {
  import opened Common
  import opened SessionEvents
  import opened EventLog
  import opened StreamConnections
  import opened StreamOrders
  import opened AttachClients
  import opened StreamRuns

  // The event is the one the log keeps under that seq.
  predicate IsLogged(log: Log, stored: Stored) {
    1 <= stored.num <= |log.entries| && stored.event == log.entries[stored.num - 1].event
  }

  // And it weighs what that entry does, with 64 for the frame around it.
  predicate IsCharged(log: Log, item: Item) {
    item.Queued? ==>
      && IsLogged(log, item.stored)
      && item.held == log.entries[item.stored.num - 1].held + 64
      && item.wire == log.entries[item.stored.num - 1].wire
  }

  predicate QueueIsTrue(log: Log, queue: seq<Item>) { forall i :: 0 <= i < |queue| ==> IsCharged(log, queue[i]) }

  predicate EventsAreTrue(log: Log, events: seq<Stored>) { forall i :: 0 <= i < |events| ==> IsLogged(log, events[i]) }

  predicate FrameIsTrue(log: Log, frame: Frame) { frame.Batch? ==> EventsAreTrue(log, frame.events) }

  predicate SentIsTrue(log: Log, sent: seq<Frame>) { forall i :: 0 <= i < |sent| ==> FrameIsTrue(log, sent[i]) }

  predicate IsTrue(log: Log, c: Conn) { QueueIsTrue(log, c.queue) && SentIsTrue(log, c.sent) }

  // ---- one connection ----

  lemma FlushIsTrue(log: Log, c: Conn, ready: bool)
    requires IsTrue(log, c)
    ensures IsTrue(log, Flushed(c, ready))
  {
    if !(c.closed || c.sending || !ready || c.queue == []) {
      var d := Flushed(c, ready);
      if c.queue[0].Queued? {
        var n := BatchLength(c.queue, 0, EVENTS_FRAME_BYTES);
        BatchIsTrue(log, c.queue[..n]);
        assert d.sent == c.sent + [Batch(StoredOf(c.queue[..n]))];
      }
    }
  }

  lemma BatchIsTrue(log: Log, batch: seq<Item>)
    requires QueueIsTrue(log, batch) && forall i :: 0 <= i < |batch| ==> batch[i].Queued?
    ensures EventsAreTrue(log, StoredOf(batch))
  {
    forall i | 0 <= i < |batch| ensures IsLogged(log, StoredOf(batch)[i]) { assert IsCharged(log, batch[i]); }
  }

  lemma EnqueueIsTrue(log: Log, c: Conn, item: Item, head: nat, replaying: bool, w: World)
    requires IsTrue(log, c) && IsCharged(log, item)
    ensures IsTrue(log, Enqueued(c, item, head, replaying, w))
  {
    var d := Pushed(c, item);
    PushIsTrue(log, c.queue, item);
    if |d.queue| > MAX_QUEUE_EVENTS || d.queuedBytes > MAX_QUEUE_BYTES {
      CollapseIsTrue(log, d, head, if replaying then Backlog else SlowConsumer, w);
    } else {
      FlushIsTrue(log, d, w.ready);
    }
  }

  lemma PushIsTrue(log: Log, queue: seq<Item>, item: Item)
    requires QueueIsTrue(log, queue) && IsCharged(log, item)
    ensures QueueIsTrue(log, queue + [item])
  {}

  lemma CollapseIsTrue(log: Log, c: Conn, head: nat, reason: Reason, w: World)
    requires IsTrue(log, c)
    ensures IsTrue(log, Collapsed(c, head, reason, w))
  {
    assert QueueIsTrue(log, Recovery(c, head, reason, w.sizes));
  }

  lemma TellIsTrue(log: Log, c: Conn, control: Control, w: World)
    requires IsTrue(log, c)
    ensures IsTrue(log, Told(c, control, log, w))
  {
    if !c.closed { EnqueueIsTrue(log, c, Held(control, Weigh(control, w.sizes)), log.Last(), false, w); }
  }

  // The event put in the queue under a seq is the log's.
  lemma EmitIsTrue(log: Log, c: Conn, num: nat, replaying: bool, w: World)
    requires 1 <= num <= log.Last() && IsTrue(log, c)
    ensures IsTrue(log, Emitted(c, log, num, replaying, w))
  {
    if !c.closed && num > c.cursor {
      EnqueueIsTrue(log, c.(cursor := num), ItemFor(log, num), log.Last(), replaying, w);
    }
  }

  lemma {:induction false} TellAllIsTrue(log: Log, c: Conn, controls: seq<Control>, w: World)
    requires IsTrue(log, c)
    ensures IsTrue(log, ToldAll(c, controls, log, w))
    decreases |controls|
  {
    if controls != [] {
      TellIsTrue(log, c, controls[0], w);
      TellAllIsTrue(log, Told(c, controls[0], log, w), controls[1..], w);
    }
  }

  lemma {:induction false} ReplayIsTrue(log: Log, c: Conn, from: nat, w: World)
    requires 1 <= from && IsTrue(log, c)
    ensures IsTrue(log, Replayed(c, log, from, w))
    decreases log.Last() + 1 - from
  {
    if from <= log.Last() {
      EmitIsTrue(log, c, from, true, w);
      ReplayIsTrue(log, Emitted(c, log, from, true, w), from + 1, w);
    }
  }

  lemma CatchUpIsTrue(log: Log, c: Conn, w: World)
    requires log.Valid() && IsTrue(log, c)
    ensures IsTrue(log, CaughtUpFrom(c, log, w))
  {
    var from := Max(c.cursor + 1, log.oldest);
    var d := Replayed(c, log, from, w);
    ReplayIsTrue(log, c, from, w);
    TellIsTrue(log, d, CaughtUp(d.cursor), w);
  }

  lemma AttachIsTrue(log: Log, since: nat, w: World)
    requires log.Valid()
    ensures IsTrue(log, Attached(log, since, w))
  {
    var asked := Asked(log, since);
    TellAllIsTrue(log, Fresh(Since(log, asked), asked), Opening(log, asked), w);
    CatchUpIsTrue(log, Greeted(log, asked, w), w);
  }

  lemma AppendStaysTrue(log: Log, entry: Entry, c: Conn)
    requires IsTrue(log, c)
    ensures IsTrue(AppendTo(log, entry), c)
  {
    var more := AppendTo(log, entry);
    forall i | 0 <= i < |c.queue| ensures IsCharged(more, c.queue[i]) { assert IsCharged(log, c.queue[i]); }
    forall i | 0 <= i < |c.sent| ensures FrameIsTrue(more, c.sent[i]) {
      assert FrameIsTrue(log, c.sent[i]);
      if c.sent[i].Batch? { MoreStaysTrue(log, entry, c.sent[i].events); }
    }
  }

  lemma MoreStaysTrue(log: Log, entry: Entry, events: seq<Stored>)
    requires EventsAreTrue(log, events)
    ensures EventsAreTrue(AppendTo(log, entry), events)
  {
    forall i | 0 <= i < |events| ensures IsLogged(AppendTo(log, entry), events[i]) { assert IsLogged(log, events[i]); }
  }

  // ---- whole runs ----

  // The events one step prints or writes.
  function PrintedBy(s: Sys, step: Step): seq<Stored> {
    if step.Deliver? && s.link.Some? && s.got < |s.link.value.sent| && !s.client.failed
    then Taken(s.client.last, s.link.value.sent[s.got]) else []
  }

  function PrintedOver(s: Sys, steps: seq<Step>): seq<Stored>
    requires s.log.Valid()
    decreases |steps|
  {
    if steps == [] then [] else PrintedBy(s, steps[0]) + PrintedOver(Next(s, steps[0]), steps[1..])
  }

  // What the daemon holds and has sent, and what the client has printed so far.
  ghost predicate Truthful(s: Sys, printed: seq<Stored>) {
    && s.log.Valid() && EventsAreTrue(s.log, printed)
    && (s.link.Some? ==> IsTrue(s.log, s.link.value))
  }

  lemma StepIsTruthful(s: Sys, step: Step, printed: seq<Stored>)
    requires Truthful(s, printed)
    ensures Truthful(Next(s, step), printed + PrintedBy(s, step))
  {
    match step
    case Append(entry, w) =>
      MoreStaysTrue(s.log, entry, printed);
      if s.link.Some? {
        var log := AppendTo(s.log, entry);
        AppendStaysTrue(s.log, entry, s.link.value);
        EmitIsTrue(log, s.link.value, log.Last(), false, w);
      }
    case Touch(w) => if s.link.Some? { TellIsTrue(s.log, s.link.value, Snapshot, w); }
    case Acknowledge(ready) =>
      if s.link.Some? { FlushIsTrue(s.log, s.link.value.(sending := false), ready); }
    case Deliver => DeliveryIsTrue(s, printed);
    case Expire =>
    case Drop =>
    case Reattach(w) => if s.link.None? && !s.client.failed { AttachIsTrue(s.log, s.client.last, w); }
  }

  lemma DeliveryIsTrue(s: Sys, printed: seq<Stored>)
    requires Truthful(s, printed)
    ensures EventsAreTrue(s.log, printed + PrintedBy(s, Deliver))
  {
    if PrintedBy(s, Deliver) != [] {
      var frame := s.link.value.sent[s.got];
      assert FrameIsTrue(s.log, frame);
      assert PrintedBy(s, Deliver) == frame.events[..Unbroken(s.client.last, frame.events)];
    }
  }

  lemma Regroup(a: seq<Stored>, b: seq<Stored>, c: seq<Stored>)
    ensures a + b + c == a + (b + c)
  {}

  // In every state of every run, tidy or not, each event that waits in the queue, is in the socket or
  // was printed is the one the log keeps under its seq, and what waits is charged as that one.
  lemma {:induction false} EverySeqCarriesItsOwnEvent(s: Sys, printed: seq<Stored>, steps: seq<Step>)
    requires Truthful(s, printed)
    ensures Truthful(After(s, steps), printed + PrintedOver(s, steps))
    decreases |steps|
  {
    if steps == [] {
      assert printed + PrintedOver(s, steps) == printed;
    } else {
      var now := PrintedBy(s, steps[0]);
      StepIsTruthful(s, steps[0], printed);
      EverySeqCarriesItsOwnEvent(Next(s, steps[0]), printed + now, steps[1..]);
      Regroup(printed, now, PrintedOver(Next(s, steps[0]), steps[1..]));
    }
  }

  // ---- what was printed is what was heard ----

  // The printed pieces of a history, as seqs.
  function PrintedSeqs(heard: seq<Piece>): seq<nat> {
    if heard == [] then [] else (if heard[0].printed then [heard[0].from] else []) + PrintedSeqs(heard[1..])
  }

  function SeqsOf(events: seq<Stored>): seq<nat> {
    if events == [] then [] else [events[0].num] + SeqsOf(events[1..])
  }

  lemma {:induction false} PrintedSplits(a: seq<Piece>, b: seq<Piece>)
    ensures PrintedSeqs(a + b) == PrintedSeqs(a) + PrintedSeqs(b)
  {
    if a == [] {
      assert a + b == b;
    } else {
      assert (a + b)[1..] == a[1..] + b;
      PrintedSplits(a[1..], b);
    }
  }

  lemma {:induction false} SeqsSplit(a: seq<Stored>, b: seq<Stored>)
    ensures SeqsOf(a + b) == SeqsOf(a) + SeqsOf(b)
  {
    if a == [] {
      assert a + b == b;
    } else {
      assert (a + b)[1..] == a[1..] + b;
      SeqsSplit(a[1..], b);
    }
  }

  lemma {:induction false} RunIsPrinted(last: nat, events: seq<Stored>)
    ensures PrintedSeqs(Run(last, Unbroken(last, events))) == SeqsOf(events[..Unbroken(last, events)])
    decreases |events|
  {
    var n := Unbroken(last, events);
    if n > 0 {
      RunIsPrinted(last + 1, events[1..]);
      assert events[..n][1..] == events[1..][..n - 1];
      assert Run(last, n)[1..] == Run(last + 1, n - 1);
    }
  }

  lemma ReceivingPrints(k: Client, frame: Frame)
    requires !k.failed
    ensures PrintedSeqs(Received(k, frame).heard) == PrintedSeqs(k.heard) + SeqsOf(Taken(k.last, frame))
  {
    match frame
    case Batch(events) =>
      PrintsOnlyTheNext(k, events);
      PrintedSplits(k.heard, Run(k.last, Unbroken(k.last, events)));
      RunIsPrinted(k.last, events);
    case Say(control) =>
      if control.Lagged? { SkippingPrintsNothing(k.heard, Piece(control.from, control.to, false)); }
  }

  lemma SkippingPrintsNothing(heard: seq<Piece>, piece: Piece)
    requires !piece.printed
    ensures PrintedSeqs(heard + [piece]) == PrintedSeqs(heard)
  {
    PrintedSplits(heard, [piece]);
    assert [piece][1..] == [];
  }

  lemma {:induction false} PrintedIsHeard(s: Sys, steps: seq<Step>)
    requires s.log.Valid()
    ensures PrintedSeqs(After(s, steps).client.heard) == PrintedSeqs(s.client.heard) + SeqsOf(PrintedOver(s, steps))
    decreases |steps|
  {
    if steps != [] {
      var step, now := steps[0], PrintedBy(s, steps[0]);
      StepPrints(s, step);
      PrintedIsHeard(Next(s, step), steps[1..]);
      SeqsSplit(now, PrintedOver(Next(s, step), steps[1..]));
    }
  }

  lemma StepPrints(s: Sys, step: Step)
    requires s.log.Valid()
    ensures PrintedSeqs(Next(s, step).client.heard) == PrintedSeqs(s.client.heard) + SeqsOf(PrintedBy(s, step))
  {
    if step.Deliver? && s.link.Some? && s.got < |s.link.value.sent| && !s.client.failed {
      ReceivingPrints(s.client, s.link.value.sent[s.got]);
    }
  }

  // The log's own events under some seqs.
  function FromTheLog(log: Log, seqs: seq<nat>): seq<Stored>
    requires forall i :: 0 <= i < |seqs| ==> 1 <= seqs[i] <= |log.entries|
  {
    seq(|seqs|, i requires 0 <= i < |seqs| => Stored(seqs[i], log.entries[seqs[i] - 1].event))
  }

  lemma {:induction false} SeqsAt(events: seq<Stored>, i: nat)
    requires i < |events|
    ensures |SeqsOf(events)| == |events| && SeqsOf(events)[i] == events[i].num
  {
    if i > 0 {
      SeqsAt(events[1..], i - 1);
    } else if |events| > 1 {
      SeqsAt(events[1..], 0);
    }
  }

  lemma TrueEventsAreTheLogs(log: Log, events: seq<Stored>)
    requires EventsAreTrue(log, events)
    ensures var seqs := SeqsOf(events);
            && (forall i :: 0 <= i < |seqs| ==> 1 <= seqs[i] <= |log.entries|)
            && events == FromTheLog(log, seqs)
  {
    var seqs := SeqsOf(events);
    assert |seqs| == |events| by { if events != [] { SeqsAt(events, 0); } }
    forall i | 0 <= i < |events|
      ensures 1 <= seqs[i] <= |log.entries| && events[i] == Stored(seqs[i], log.entries[seqs[i] - 1].event)
    {
      SeqsAt(events, i);
      assert IsLogged(log, events[i]);
    }
  }

  // So over every tidy run the terminal shows the log's own events, in order, each once, at exactly the
  // seqs of the tiling that were not announced as skipped.
  lemma TheTerminalShowsTheLog(start: nat, s: Sys, steps: seq<Step>)
    requires Begins(start, s) && start <= s.log.Last() && TidyRun(s, steps)
    ensures var t, printed := After(s, steps), PrintedOver(s, steps);
            var seqs := PrintedSeqs(t.client.heard);
            && (forall i :: 0 <= i < |seqs| ==> 1 <= seqs[i] <= |t.log.entries|)
            && printed == FromTheLog(t.log, seqs) && Tiles(start, t.client.heard) && !t.client.failed
  {
    EverySeqCarriesItsOwnEvent(s, [], steps);
    assert [] + PrintedOver(s, steps) == PrintedOver(s, steps);
    PrintedIsHeard(s, steps);
    assert PrintedSeqs([]) + SeqsOf(PrintedOver(s, steps)) == SeqsOf(PrintedOver(s, steps));
    TrueEventsAreTheLogs(After(s, steps).log, PrintedOver(s, steps));
    TidyRunTiles(start, s, steps);
  }
}
