// One attached client, as the daemon sees it: a bounded outbound queue over one socket.
//
// Every method of the class is proved equal to a function on `Conn` values; the functions
// are what the whole-run theorems in StreamRuns.dfy are about.

module EventLog {
  import opened Common
  import opened SessionEvents

  // The least an event is charged, and the least it is on the wire.
  type Heap = n: nat | 64 <= n witness 64
  type Encoded = n: nat | |"{\"seq\":1,\"ts\":0,\"event\":{}}"| <= n witness 100

  // `held` is the heap an event is charged for, `wire` its encoded size.
  datatype Entry = Entry(event: Event, held: Heap, wire: Encoded)

  // Entry i carries seq i + 1. A prefix may be gone; `oldest` is the lowest seq still served.
  datatype Log = Log(entries: seq<Entry>, oldest: nat) {
    predicate Valid() { 1 <= oldest <= |entries| + 1 }

    function Last(): nat { |entries| }
  }

  // How many entries one read returns: at least one if there is one to return.
  function PageLength(log: Log, from: nat, limit: nat, maxBytes: nat, taken: nat, bytes: nat): (n: nat)
    requires 1 <= from
    ensures from + n <= log.Last() + 1 || n == 0
    ensures taken == 0 && limit > 0 && from <= log.Last() ==> n > 0
    decreases log.Last() + 1 - from
  {
    if from > log.Last() || taken >= limit then 0
    else
      var size := log.entries[from - 1].held;
      if taken > 0 && bytes + size > maxBytes then 0
      else 1 + PageLength(log, from + 1, limit, maxBytes, taken + 1, bytes + size)
  }

  // The seqs after `since`, as many as one page carries.
  function Page(log: Log, since: nat, limit: nat, maxBytes: nat): (page: seq<nat>)
    requires log.Valid()
    ensures forall i :: 0 <= i < |page| ==> page[i] == Max(since + 1, log.oldest) + i && 1 <= page[i] <= log.Last()
    ensures limit > 0 && Max(since + 1, log.oldest) <= log.Last() ==> page != []
  {
    var from := Max(since + 1, log.oldest);
    var n := PageLength(log, from, limit, maxBytes, 0, 0);
    seq(n, i requires 0 <= i < n => from + i)
  }
}

module StreamConnections {
  import opened Common
  import opened SessionEvents
  import opened EventLog

  const MAX_QUEUE_EVENTS: nat := 8_000
  const MAX_QUEUE_BYTES: nat := 16 * 1024 * 1024
  const ATTACH_REPLAY_MAX: nat := 2_000
  const BATCH_MAX_EVENTS: nat := 200
  const BATCH_MAX_BYTES: nat := 512 * 1024
  const EVENTS_FRAME_BYTES: nat := |"{\"type\":\"events\",\"events\":["| + |"]}"|
  const COLLAPSE_WINDOW_MS: nat := 30_000

  datatype Reason = Evicted | Backlog | SlowConsumer

  datatype Control =
    | Hello(since: nat)
    | Lagged(from: nat, to: nat, reason: Reason)
    | Snapshot
    | CaughtUp(at: nat)

  datatype Frame = Say(control: Control) | Batch(events: seq<Stored>)

  datatype Item =
    | Held(control: Control, held: nat)
    | Queued(stored: Stored, held: nat, wire: nat)

  // What each control frame weighs in the queue: its text, fitted to the control bound, + 64.
  const CONTROL_MAX_BYTES: nat := 512 * 1024
  const CONTROL_MIN_BYTES: nat := 28
  type Size = n: nat | CONTROL_MIN_BYTES + 64 <= n <= CONTROL_MAX_BYTES + 64 witness 92
  datatype Sizes = Sizes(hello: Size, lagged: Size, snapshot: Size, caughtUp: Size)

  // What the outside contributes to one synchronous block: whether the socket is open and
  // below its high-water mark, the clock, and the sizes of the frames built in it.
  datatype World = World(ready: bool, now: int, sizes: Sizes)

  // `asked` and `tidy` are history: the cursor the client attached with, and whether every
  // collapse so far found the client where the daemon believed it to be (`Settled`).
  datatype Conn = Conn(
    queue: seq<Item>, queuedBytes: int, cursor: nat, lastSentSeq: nat, sending: bool,
    closed: bool, collapses: seq<int>, sent: seq<Frame>, asked: nat, tidy: bool)

  function Weight(item: Item): nat { item.held }

  function ItemFor(log: Log, num: nat): Item
    requires 1 <= num <= log.Last()
  {
    var e := log.entries[num - 1];
    Queued(Stored(num, e.event), e.held + 64, e.wire)
  }

  // The seq after the last one that the frames handed to the socket account for.
  function SentFront(front: nat, sent: seq<Frame>): nat
    decreases |sent|
  {
    if sent == [] then front else SentFront(Passed(front, sent[0]), sent[1..])
  }

  function Passed(front: nat, frame: Frame): nat {
    match frame
    case Say(Lagged(_, to, _)) => to + 1
    case Batch(events) => if events == [] then front else events[|events| - 1].num + 1
    case _ => front
  }

  predicate Settled(c: Conn) { c.lastSentSeq + 1 == SentFront(c.asked + 1, c.sent) }

  // ---- flush ----

  // How many queued events the next batch takes, after `taken` of `bytes` encoded bytes.
  function BatchLength(queue: seq<Item>, taken: nat, bytes: nat): (n: nat)
    ensures n <= |queue|
    ensures forall i :: 0 <= i < n ==> queue[i].Queued?
    ensures taken == 0 && queue != [] && queue[0].Queued? ==> n > 0
    ensures taken + n <= BATCH_MAX_EVENTS || n == 0
  {
    if queue == [] || taken >= BATCH_MAX_EVENTS || !queue[0].Queued? then 0
    else
      var size := queue[0].wire + (if taken > 0 then 1 else 0);
      if taken > 0 && bytes + size > BATCH_MAX_BYTES then 0
      else 1 + BatchLength(queue[1..], taken + 1, bytes + size)
  }

  function TotalHeld(items: seq<Item>): nat {
    if items == [] then 0 else Weight(items[0]) + TotalHeld(items[1..])
  }

  function StoredOf(items: seq<Item>): (events: seq<Stored>)
    requires forall i :: 0 <= i < |items| ==> items[i].Queued?
    ensures |events| == |items|
    ensures forall i :: 0 <= i < |items| ==> events[i] == items[i].stored
  {
    seq(|items|, i requires 0 <= i < |items| => items[i].stored)
  }

  function Flushed(c: Conn, ready: bool): Conn {
    if c.closed || c.sending || !ready || c.queue == [] then c
    else match c.queue[0]
      case Held(control, held) =>
        c.(queue := c.queue[1..], queuedBytes := c.queuedBytes - held, sending := true,
           sent := c.sent + [Say(control)])
      case Queued(_, _, _) =>
        var n := BatchLength(c.queue, 0, EVENTS_FRAME_BYTES);
        var batch := c.queue[..n];
        c.(queue := c.queue[n..], queuedBytes := c.queuedBytes - TotalHeld(batch), sending := true,
           lastSentSeq := batch[n - 1].stored.num, sent := c.sent + [Batch(StoredOf(batch))])
  }

  // ---- collapse, enqueue, emit ----

  function Closed(c: Conn): Conn {
    if c.closed then c else c.(queue := [], queuedBytes := 0, closed := true)
  }

  function Recent(collapses: seq<int>, now: int): seq<int> {
    if collapses == [] then []
    else (if now - collapses[0] < COLLAPSE_WINDOW_MS then [collapses[0]] else []) + Recent(collapses[1..], now)
  }

  lemma RecentFrom(collapses: seq<int>, i: nat, now: int)
    requires i < |collapses|
    ensures var rest := Recent(collapses[i + 1..], now);
            Recent(collapses[i..], now)
            == if now - collapses[i] < COLLAPSE_WINDOW_MS then [collapses[i]] + rest else rest
  {
    assert collapses[i..][1..] == collapses[i + 1..];
  }

  function Recovery(c: Conn, head: nat, reason: Reason, sizes: Sizes): seq<Item> {
    var from := c.lastSentSeq + 1;
    (if head >= from then [Held(Lagged(from, head, reason), sizes.lagged)] else []) + [Held(Snapshot, sizes.snapshot)]
  }

  function Collapsed(c: Conn, head: nat, reason: Reason, w: World): Conn {
    var q := Recovery(c, head, reason, w.sizes);
    var d := c.(queue := q, queuedBytes := TotalHeld(q), cursor := head, lastSentSeq := head,
                tidy := c.tidy && Settled(c));
    if reason != SlowConsumer then d
    else
      var e := d.(collapses := Recent(c.collapses, w.now) + [w.now]);
      if |e.collapses| >= 2 then Closed(e) else e
  }

  function Enqueued(c: Conn, item: Item, head: nat, replaying: bool, w: World): Conn {
    var d := c.(queue := c.queue + [item], queuedBytes := c.queuedBytes + Weight(item));
    if |d.queue| > MAX_QUEUE_EVENTS || d.queuedBytes > MAX_QUEUE_BYTES
    then Collapsed(d, head, if replaying then Backlog else SlowConsumer, w)
    else Flushed(d, w.ready)
  }

  function Emitted(c: Conn, log: Log, num: nat, replaying: bool, w: World): Conn
    requires 1 <= num <= log.Last()
  {
    if c.closed || num <= c.cursor then c
    else Enqueued(c.(cursor := num), ItemFor(log, num), log.Last(), replaying, w)
  }

  function Weigh(control: Control, sizes: Sizes): nat {
    match control
    case Hello(_) => sizes.hello
    case Lagged(_, _, _) => sizes.lagged
    case Snapshot => sizes.snapshot
    case CaughtUp(_) => sizes.caughtUp
  }

  function Told(c: Conn, control: Control, log: Log, w: World): Conn {
    if c.closed then c else Enqueued(c, Held(control, Weigh(control, w.sizes)), log.Last(), false, w)
  }

  // The send callback of a socket that took the last frame.
  function Acknowledged(c: Conn, ready: bool): Conn {
    var d := c.(sending := false);
    if d.queue != [] then Flushed(d, ready) else d
  }

  // ---- attach ----

  function Asked(log: Log, since: nat): nat { Min(since, log.Last()) }

  function Since(log: Log, asked: nat): (since: nat)
    requires asked <= log.Last()
    ensures asked <= since <= log.Last()
  {
    var floor := Max(asked, log.Last() - ATTACH_REPLAY_MAX);
    Max(asked, Min(floor, log.Last()))
  }

  function Fresh(since: nat, asked: nat): Conn {
    Conn([], 0, since, since, false, false, [], [], asked, true)
  }

  // The frames that open a connection: the greeting, what is gone, what is not replayed.
  function Opening(log: Log, asked: nat): seq<Control>
    requires log.Valid() && asked <= log.Last()
  {
    var since := Since(log, asked);
    var skippedFrom := Max(asked, log.oldest - 1) + 1;
    [Hello(since)]
    + (if asked < log.oldest - 1 then [Lagged(asked + 1, log.oldest - 1, Evicted)] else [])
    + (if since >= skippedFrom then [Lagged(skippedFrom, since, Backlog)] else [])
  }

  function ToldAll(c: Conn, controls: seq<Control>, log: Log, w: World): Conn
    decreases |controls|
  {
    if controls == [] then c else ToldAll(Told(c, controls[0], log, w), controls[1..], log, w)
  }

  // Every retained event from `from` on, emitted in order.
  function Replayed(c: Conn, log: Log, from: nat, w: World): Conn
    requires 1 <= from
    decreases log.Last() + 1 - from
  {
    if from > log.Last() then c else Replayed(Emitted(c, log, from, true, w), log, from + 1, w)
  }

  function Greeted(log: Log, asked: nat, w: World): Conn
    requires log.Valid() && asked <= log.Last()
  {
    ToldAll(Fresh(Since(log, asked), asked), Opening(log, asked), log, w)
  }

  function CaughtUpFrom(c: Conn, log: Log, w: World): Conn
    requires log.Valid()
  {
    var d := Replayed(c, log, Max(c.cursor + 1, log.oldest), w);
    Told(d, CaughtUp(d.cursor), log, w)
  }

  function Attached(log: Log, since: nat, w: World): Conn
    requires log.Valid()
  {
    CaughtUpFrom(Greeted(log, Asked(log, since), w), log, w)
  }

  // A replay changes nothing once the cursor is at the head of the log.
  lemma {:induction false} ReplayPastCursor(c: Conn, log: Log, from: nat, w: World)
    requires 1 <= from && (c.closed || log.Last() <= c.cursor)
    ensures Replayed(c, log, from, w) == c
    decreases log.Last() + 1 - from
  {
    if from <= log.Last() { ReplayPastCursor(c, log, from + 1, w); }
  }

  // So it may go on from any later seq.
  lemma PastCursorAlike(c: Conn, log: Log, from: nat, w: World)
    requires log.Valid() && log.oldest <= from && (c.cursor + 1 == from || c.cursor == log.Last())
    ensures Replayed(c, log, from, w) == Replayed(c, log, Max(c.cursor + 1, log.oldest), w)
  {
    if c.cursor == log.Last() {
      ReplayPastCursor(c, log, from, w);
      ReplayPastCursor(c, log, Max(c.cursor + 1, log.oldest), w);
    }
  }

  // Inside one synchronous block the cursor is where it was put last, or at the head of the
  // log because of a collapse; only a collapse closes a connection.
  ghost predicate Bounded(c: Conn, log: Log) {
    c.cursor <= log.Last() && (c.closed ==> c.cursor == log.Last())
  }

  lemma EmitBounded(c: Conn, log: Log, num: nat, w: World)
    requires 1 <= num <= log.Last() && Bounded(c, log)
    ensures var d := Emitted(c, log, num, true, w);
            Bounded(d, log) && (d.cursor == log.Last() || d.cursor == Max(c.cursor, num))
  {}

  // A replay that has come to `from` and will end at `goal`.
  ghost predicate Along(c: Conn, log: Log, from: nat, goal: Conn, w: World)
    requires 1 <= from
  {
    Bounded(c, log) && Replayed(c, log, from, w) == goal
  }

  lemma EmitAlong(c: Conn, log: Log, from: nat, goal: Conn, w: World)
    requires 1 <= from <= log.Last() && Along(c, log, from, goal, w)
    ensures var d := Emitted(c, log, from, true, w);
            Along(d, log, from + 1, goal, w) && (d.cursor == log.Last() || d.cursor == Max(c.cursor, from))
  {
    EmitBounded(c, log, from, w);
  }

  lemma PastCursorAlong(c: Conn, log: Log, from: nat, goal: Conn, w: World)
    requires log.Valid() && log.oldest <= from && (c.cursor + 1 == from || c.cursor == log.Last())
    requires Along(c, log, from, goal, w)
    ensures Along(c, log, Max(c.cursor + 1, log.oldest), goal, w)
  {
    PastCursorAlike(c, log, from, w);
  }

  lemma TellBounded(c: Conn, control: Control, log: Log, w: World)
    requires Bounded(c, log)
    ensures Bounded(Told(c, control, log, w), log)
  {}

  lemma {:induction false} TellAllBounded(c: Conn, controls: seq<Control>, log: Log, w: World)
    requires Bounded(c, log)
    ensures Bounded(ToldAll(c, controls, log, w), log)
    decreases |controls|
  {
    if controls != [] {
      TellBounded(c, controls[0], log, w);
      TellAllBounded(Told(c, controls[0], log, w), controls[1..], log, w);
    }
  }

  lemma {:induction false} TellAllSplit(c: Conn, a: seq<Control>, b: seq<Control>, log: Log, w: World)
    ensures ToldAll(c, a + b, log, w) == ToldAll(ToldAll(c, a, log, w), b, log, w)
    decreases |a|
  {
    if a == [] {
      assert a + b == b;
    } else {
      assert (a + b)[1..] == a[1..] + b;
      TellAllSplit(Told(c, a[0], log, w), a[1..], b, log, w);
    }
  }

  // ---- the class ----

  class StreamConnection {
    var queue: seq<Item>
    var queuedBytes: int
    var cursor: nat
    var lastSentSeq: nat
    var sending: bool
    var closed: bool
    var collapses: seq<int>
    var sent: seq<Frame>
    ghost var asked: nat
    ghost var tidy: bool

    ghost function View(): Conn
      reads this
    {
      Conn(queue, queuedBytes, cursor, lastSentSeq, sending, closed, collapses, sent, asked, tidy)
    }

    constructor ()
      ensures View() == Fresh(0, 0)
    {
      queue, queuedBytes, cursor, lastSentSeq := [], 0, 0, 0;
      sending, closed, collapses, sent := false, false, [], [];
      asked, tidy := 0, true;
    }

    method Close()
      modifies this
      ensures View() == Closed(old(View()))
    {
      if closed { return; }
      closed := true;
      queue := [];
      queuedBytes := 0;
    }

    // Takes the next batch of events off the queue.
    method TakeBatch() returns (events: seq<Stored>)
      modifies this`queue, this`queuedBytes
      ensures var n := BatchLength(old(queue), 0, EVENTS_FRAME_BYTES);
              && events == StoredOf(old(queue)[..n]) && queue == old(queue)[n..]
              && queuedBytes == old(queuedBytes) - TotalHeld(old(queue)[..n])
    {
      ghost var before := queue;
      ghost var n := BatchLength(before, 0, EVENTS_FRAME_BYTES);
      events := [];
      var bytes: nat := EVENTS_FRAME_BYTES;
      assert before[0..] == before;
      while |queue| > 0 && |events| < BATCH_MAX_EVENTS && queue[0].Queued?
        invariant |events| <= n && queue == before[|events|..]
        invariant events == StoredOf(before[..|events|])
        invariant |events| + BatchLength(queue, |events|, bytes) == n
        invariant queuedBytes == old(queuedBytes) - TotalHeld(before[..|events|])
      {
        var next := queue[0];
        var size := next.wire + (if |events| > 0 then 1 else 0);
        if |events| > 0 && bytes + size > BATCH_MAX_BYTES { break; }
        TotalHeldSnoc(before[..|events|], next);
        assert before[..|events| + 1] == before[..|events|] + [next];
        queue := queue[1..];
        queuedBytes := queuedBytes - next.held;
        events := events + [next.stored];
        bytes := bytes + size;
      }
    }

    method Flush(ready: bool)
      modifies this
      ensures View() == Flushed(old(View()), ready)
    {
      if closed || sending || !ready || |queue| == 0 { return; }
      if queue[0].Held? {
        var head := queue[0];
        queue := queue[1..];
        queuedBytes := queuedBytes - head.held;
        sent := sent + [Say(head.control)];
      } else {
        var events := TakeBatch();
        lastSentSeq := events[|events| - 1].num;
        sent := sent + [Batch(events)];
      }
      sending := true;
    }

    method Acknowledge(ready: bool)
      modifies this
      ensures View() == Acknowledged(old(View()), ready)
    {
      sending := false;
      if |queue| > 0 { Flush(ready); }
    }

    method Push(item: Item)
      modifies this`queue, this`queuedBytes
      ensures queue == old(queue) + [item] && queuedBytes == old(queuedBytes) + Weight(item)
    {
      queue := queue + [item];
      queuedBytes := queuedBytes + item.held;
    }

    // Replaces the queue by the report of what was dropped and a fresh snapshot.
    method Restart(head: nat, reason: Reason, sizes: Sizes)
      modifies this`queue, this`queuedBytes, this`cursor, this`lastSentSeq
      ensures queue == Recovery(old(View()), head, reason, sizes) && queuedBytes == TotalHeld(queue)
      ensures cursor == lastSentSeq == head
    {
      var from := lastSentSeq + 1;
      queue, queuedBytes := [], 0;
      if head >= from {
        Push(Held(Lagged(from, head, reason), sizes.lagged));
      }
      cursor := head;
      lastSentSeq := head;
      TotalHeldSnoc(queue, Held(Snapshot, sizes.snapshot));
      Push(Held(Snapshot, sizes.snapshot));
    }

    method Collapse(head: nat, reason: Reason, w: World)
      modifies this
      ensures View() == Collapsed(old(View()), head, reason, w)
    {
      ghost var settled := Settled(View());
      Restart(head, reason, w.sizes);
      tidy := tidy && settled;
      if reason == SlowConsumer {
        Remember(w.now);
        if |collapses| >= 2 { Close(); }
      }
    }

    method Remember(now: int)
      modifies this`collapses
      ensures collapses == Recent(old(collapses), now) + [now]
    {
      var kept := StillRecent(collapses, now);
      collapses := kept + [now];
    }

    method StillRecent(times: seq<int>, now: int) returns (kept: seq<int>)
      ensures kept == Recent(times, now)
    {
      kept := [];
      for i := 0 to |times|
        invariant kept + Recent(times[i..], now) == Recent(times, now)
      {
        RecentFrom(times, i, now);
        if now - times[i] < COLLAPSE_WINDOW_MS { kept := kept + [times[i]]; }
      }
      assert times[|times|..] == [] && kept + [] == kept;
    }

    method Enqueue(item: Item, head: nat, replaying: bool, w: World)
      modifies this
      ensures View() == Enqueued(old(View()), item, head, replaying, w)
    {
      Push(item);
      if |queue| > MAX_QUEUE_EVENTS || queuedBytes > MAX_QUEUE_BYTES {
        Collapse(head, if replaying then Backlog else SlowConsumer, w);
        return;
      }
      Flush(w.ready);
    }

    method Emit(log: Log, num: nat, replaying: bool, w: World)
      requires 1 <= num <= log.Last()
      modifies this
      ensures View() == Emitted(old(View()), log, num, replaying, w)
    {
      if closed || num <= cursor { return; }
      cursor := num;
      Enqueue(ItemFor(log, num), log.Last(), replaying, w);
    }

    method Tell(control: Control, log: Log, w: World)
      modifies this
      ensures View() == Told(old(View()), control, log, w)
    {
      if closed { return; }
      Enqueue(Held(control, Weigh(control, w.sizes)), log.Last(), false, w);
    }

    method Attach(log: Log, since: nat, w: World)
      requires log.Valid() && View() == Fresh(0, 0)
      modifies this
      ensures View() == Attached(log, since, w)
    {
      var ask: nat := Min(since, log.Last());
      var floor := Max(ask, log.Last() - ATTACH_REPLAY_MAX);
      cursor := Max(ask, Min(floor, log.Last()));
      lastSentSeq := cursor;
      asked := ask;
      TellAllBounded(View(), Opening(log, ask), log, w);
      Greet(log, ask, cursor, w);
      Replay(log, w);
      Tell(CaughtUp(cursor), log, w);
    }

    method Greet(log: Log, ask: nat, start: nat, w: World)
      requires log.Valid() && ask <= log.Last() && start == Since(log, ask)
      modifies this
      ensures View() == ToldAll(old(View()), Opening(log, ask), log, w)
    {
      ghost var c, told := View(), [Hello(start)];
      Tell(Hello(start), log, w);
      assert View() == ToldAll(c, told, log, w);
      if ask < log.oldest - 1 {
        var evicted := Lagged(ask + 1, log.oldest - 1, Evicted);
        Tell(evicted, log, w);
        TellAllSplit(c, told, [evicted], log, w);
        told := told + [evicted];
      }
      var skippedFrom := Max(ask, log.oldest - 1) + 1;
      if start >= skippedFrom {
        var backlog := Lagged(skippedFrom, start, Backlog);
        Tell(backlog, log, w);
        TellAllSplit(c, told, [backlog], log, w);
        told := told + [backlog];
      }
      assert told == Opening(log, ask);
    }

    method Replay(log: Log, w: World)
      requires log.Valid() && Bounded(View(), log)
      modifies this
      ensures View() == Replayed(old(View()), log, Max(old(cursor) + 1, log.oldest), w)
    {
      ghost var goal := Replayed(View(), log, Max(cursor + 1, log.oldest), w);
      while true
        invariant Along(View(), log, Max(cursor + 1, log.oldest), goal, w)
        decreases log.Last() - cursor
      {
        var slice := Page(log, cursor, BATCH_MAX_EVENTS, BATCH_MAX_BYTES);
        if |slice| == 0 { break; }
        ReplaySlice(log, slice, goal, w);
      }
    }

    method ReplaySlice(log: Log, slice: seq<nat>, ghost goal: Conn, w: World)
      requires log.Valid() && Along(View(), log, Max(cursor + 1, log.oldest), goal, w) && slice != []
      requires forall i :: 0 <= i < |slice| ==>
                 slice[i] == Max(cursor + 1, log.oldest) + i && 1 <= slice[i] <= log.Last()
      modifies this
      ensures Along(View(), log, Max(cursor + 1, log.oldest), goal, w) && cursor > old(cursor)
    {
      var next := slice[0];
      for i := 0 to |slice|
        invariant Along(View(), log, next + i, goal, w)
        invariant i == 0 ==> cursor == old(cursor)
        invariant i > 0 ==> cursor == next + i - 1 || cursor == log.Last()
      {
        assert slice[i] == next + i;
        EmitAlong(View(), log, next + i, goal, w);
        Emit(log, slice[i], true, w);
      }
      PastCursorAlong(View(), log, next + |slice|, goal, w);
    }
  }

  lemma {:induction false} TotalHeldSnoc(items: seq<Item>, item: Item)
    ensures TotalHeld(items + [item]) == TotalHeld(items) + Weight(item)
  {
    if items != [] {
      assert (items + [item])[1..] == items[1..] + [item];
      TotalHeldSnoc(items[1..], item);
    }
  }
}
