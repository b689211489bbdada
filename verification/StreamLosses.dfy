// What happens when a collapse or a lost socket is not tidy: concrete runs in which the client
// misses events without being told, or exits on a gap although the daemon lost nothing.

module StreamLosses {
  import opened Common
  import opened SessionEvents
  import opened EventLog
  import opened StreamConnections
  import opened StreamOrders
  import opened AttachClients
  import opened StreamRuns
  import opened StreamAccounts

  // Once everything is delivered to a client that is not where the daemon believes it is, the
  // next event appended and delivered makes the client exit.
  lemma MisplacedClientExits(s: Sys, entry: Entry, w: World)
    requires s.log.Valid() && Quiet(s) && !s.link.value.sending && w.ready && !s.client.failed
    requires s.link.value.cursor <= s.log.Last() && s.link.value.queuedBytes + entry.held + 64 <= MAX_QUEUE_BYTES
    ensures After(s, [Append(entry, w), Deliver]).client.failed <==> s.client.last != s.log.Last()
  {
    var t := Next(s, Append(entry, w));
    var stored := Stored(s.log.Last() + 1, entry.event);
    AppendIdle(s, entry, w);
    assert [Append(entry, w), Deliver][1..] == [Deliver] && [Deliver][1..] == [];
    assert After(s, [Append(entry, w), Deliver]) == After(t, [Deliver]) == After(Next(t, Deliver), []);
    assert [stored][1..] == [];
    if stored.num == s.client.last + 1 {
      var heard := s.client.heard + [Piece(stored.num, stored.num, true)];
      assert Took(s.client, [stored]) == Took(s.client.(last := stored.num, heard := heard), []);
    }
    assert Received(s.client, Batch([stored])).failed <==> stored.num != s.client.last + 1;
    assert t.link.value.sent[t.got] == Batch([stored]);
  }

  lemma AppendIdle(s: Sys, entry: Entry, w: World)
    requires s.log.Valid() && Quiet(s) && !s.link.value.sending && w.ready
    requires s.link.value.cursor <= s.log.Last() && s.link.value.queuedBytes + entry.held + 64 <= MAX_QUEUE_BYTES
    ensures var t := Next(s, Append(entry, w));
            t.link.Some? && t.client == s.client && t.got == s.got
            && t.link.value.sent == s.link.value.sent + [Batch([Stored(s.log.Last() + 1, entry.event)])]
  {
    var log := AppendTo(s.log, entry);
    var c := s.link.value.(cursor := log.Last());
    var item := ItemFor(log, log.Last());
    var e := Pushed(c, item);
    assert e.queue == [item];
    assert Enqueued(c, item, log.Last(), false, w) == Flushed(e, true);
    BatchOfOne(item);
    assert e.queue[..1] == [item];
    assert StoredOf(e.queue[..1]) == [item.stored];
  }

  lemma BatchOfOne(item: Item)
    requires item.Queued?
    ensures BatchLength([item], 0, EVENTS_FRAME_BYTES) == 1
  {
    assert [item][1..] == [];
  }

  lemma {:induction false} AfterSplit(s: Sys, a: seq<Step>, b: seq<Step>)
    requires s.log.Valid()
    ensures After(s, a + b) == After(After(s, a), b)
    decreases |a|
  {
    if a == [] {
      assert a + b == b;
    } else {
      assert (a + b)[1..] == a[1..] + b;
      AfterSplit(Next(s, a[0]), a[1..], b);
    }
  }

  function Touches(n: nat, w: World): seq<Step> {
    if n == 0 then [] else [Touch(w)] + Touches(n - 1, w)
  }

  function Snapshots(n: nat, size: nat): seq<Item> {
    if n == 0 then [] else [Held(Snapshot, size)] + Snapshots(n - 1, size)
  }

  predicate Stuck(s: Sys) {
    s.log.Valid() && s.link.Some? && s.link.value.sending && !s.link.value.closed
  }

  function Piled(s: Sys, n: nat, size: nat): Sys
    requires s.link.Some?
  {
    var c := s.link.value;
    s.(link := Some(c.(queue := c.queue + Snapshots(n, size), queuedBytes := c.queuedBytes + n * size)))
  }

  lemma TouchStuck(s: Sys, w: World)
    requires Stuck(s) && |s.link.value.queue| < MAX_QUEUE_EVENTS
    requires s.link.value.queuedBytes + w.sizes.snapshot <= MAX_QUEUE_BYTES
    ensures Next(s, Touch(w)) == s.(link := Some(Pushed(s.link.value, Held(Snapshot, w.sizes.snapshot))))
  {}

  lemma PileOne(s: Sys, n: nat, size: nat)
    requires s.link.Some? && n > 0
    ensures Piled(s.(link := Some(Pushed(s.link.value, Held(Snapshot, size)))), n - 1, size) == Piled(s, n, size)
  {
    var c := s.link.value;
    assert c.queue + [Held(Snapshot, size)] + Snapshots(n - 1, size)
           == c.queue + ([Held(Snapshot, size)] + Snapshots(n - 1, size));
    OneOf(n, size);
  }

  lemma OneOf(n: nat, size: nat)
    requires n > 0
    ensures n * size == size + (n - 1) * size && size <= n * size
  {}

  lemma AfterTouch(s: Sys, n: nat, w: World)
    requires Stuck(s) && n > 0
    ensures After(s, Touches(n, w)) == After(Next(s, Touch(w)), Touches(n - 1, w))
  {
    assert Touches(n, w)[1..] == Touches(n - 1, w);
  }

  // While one send is outstanding, snapshots pile up.
  lemma {:induction false} PileUp(s: Sys, n: nat, w: World)
    requires Stuck(s) && |s.link.value.queue| + n <= MAX_QUEUE_EVENTS
    requires s.link.value.queuedBytes + n * w.sizes.snapshot <= MAX_QUEUE_BYTES
    ensures After(s, Touches(n, w)) == Piled(s, n, w.sizes.snapshot)
    decreases n
  {
    var c := s.link.value;
    var size: nat := w.sizes.snapshot;
    if n == 0 {
      assert c.queue + [] == c.queue && 0 * size == 0;
    } else {
      OneOf(n, size);
      TouchStuck(s, w);
      AfterTouch(s, n, w);
      PileUp(s.(link := Some(Pushed(c, Held(Snapshot, size)))), n - 1, w);
      PileOne(s, n, size);
    }
  }

  // What the frames of these runs weigh: the session fills a greeting and a snapshot, and the others
  // are their text and 64.
  const SLOW: nat := 70 + 64
  const GONE: nat := 64 + 64
  const ARRIVED: nat := 28 + 64
  const FULL: Sizes := Sizes(BIG, SLOW, BIG, ARRIVED)
  const FIRST: Sizes := Sizes(BIG, GONE, BIG, ARRIVED)

  // An event that says `a`.
  const LETTER: Event := Text("a", false)
  const WEIGHT: nat := 64 + 1
  const ON_THE_WIRE: nat := 111

  lemma TheyWeighTheirText()
    ensures SLOW == |"{\"type\":\"lagged\",\"from\":1,\"to\":1,\"dropped\":1,\"reason\":\"slow_consumer\"}"| + 64
    ensures GONE == |"{\"type\":\"lagged\",\"from\":1,\"to\":1,\"dropped\":1,\"reason\":\"evicted\"}"| + 64
    ensures ARRIVED == |"{\"type\":\"caught_up\",\"seq\":1}"| + 64 && WEIGHT == 64 + |LETTER.text|
    ensures ON_THE_WIRE == |"{\"seq\":1,\"ts\":1786000000000,\"event\":{\"type\":\"text\",\"role\":\"agent\","|
                           + |"\"thought\":false,\"text\":\"a\",\"messageId\":null}}"|
  {}

  const GREETED: Conn :=
    Conn([Queued(Stored(1, LETTER), WEIGHT + 64, ON_THE_WIRE), Held(CaughtUp(1), ARRIVED)], WEIGHT + 64 + ARRIVED, 1, 0,
         true, false, [], [Say(Hello(0))], 0, true)

  function OneEvent(): Sys {
    Sys(Log([Entry(LETTER, WEIGHT, ON_THE_WIRE)], 1), None, 0, Client(0, false, []))
  }

  // A fresh attach whose greeting the socket has not acknowledged yet.
  lemma FirstAttach()
    ensures Next(OneEvent(), Reattach(World(true, 0, FULL))) == OneEvent().(link := Some(GREETED))
  {
    var s := OneEvent();
    var w := World(true, 0, FULL);
    var fresh0 := Fresh(0, 0);
    assert Opening(s.log, 0) == [Hello(0)] && [Hello(0)][1..] == [];
    var c := Told(fresh0, Hello(0), s.log, w);
    assert [Held(Hello(0), BIG)][1..] == [];
    assert c == Conn([], 0, 0, 0, true, false, [], [Say(Hello(0))], 0, true);
    assert ToldAll(fresh0, [Hello(0)], s.log, w) == ToldAll(c, [], s.log, w) == c;
    FirstReplay(s.log, w, c);
  }

  lemma FirstReplay(log: Log, w: World, c: Conn)
    requires log == OneEvent().log && w == World(true, 0, FULL)
    requires c == Conn([], 0, 0, 0, true, false, [], [Say(Hello(0))], 0, true)
    ensures Told(Replayed(c, log, 1, w), CaughtUp(1), log, w) == GREETED && Replayed(c, log, 1, w).cursor == 1
  {
    var d := Emitted(c, log, 1, true, w);
    assert d.queue == [Queued(Stored(1, LETTER), WEIGHT + 64, ON_THE_WIRE)]
           && d == Pushed(c.(cursor := 1), ItemFor(log, 1));
    assert Replayed(c, log, 1, w) == Replayed(d, log, 2, w) == d;
    assert Told(d, CaughtUp(1), log, w).queue == GREETED.queue;
  }

  // The touch that overflows the queue.
  lemma TouchOverflows(s: Sys, w: World)
    requires Stuck(s) && s.link.value.queuedBytes + w.sizes.snapshot > MAX_QUEUE_BYTES
    ensures Next(s, Touch(w)) ==
            s.(link := Some(Collapsed(Pushed(s.link.value, Held(Snapshot, w.sizes.snapshot)), s.log.Last(),
                                      SlowConsumer, w)))
  {}

  // One event in the log and a socket that stays busy for thirty seconds while the session's
  // state changes: the second overflow finds nothing new in the log, so it announces nothing,
  // and it has thrown away the announcement the first one queued.
  lemma BusySocketLosesItsPlace() returns (steps: seq<Step>)
    ensures var c := After(OneEvent(), steps).link;
            c.Some? && After(OneEvent(), steps) == OneEvent().(link := c) && !c.value.tidy && !c.value.closed
            && c.value == Conn([Held(Snapshot, BIG)], BIG, 1, 1, true, false, [30_000], [Say(Hello(0))], 0, false)
  {
    var w0, w1 := World(true, 0, FULL), World(true, 30_000, FULL);
    var s0 := OneEvent();
    FirstAttach();
    var s1 := Next(s0, Reattach(w0));
    PileUp(s1, 31, w0);
    var s2 := Piled(s1, 31, BIG);
    TouchOverflows(s2, w0);
    var s3 := Next(s2, Touch(w0));
    FirstCollapse(s2.link.value, w0);
    PileUp(s3, 30, w1);
    var s4 := Piled(s3, 30, BIG);
    TouchOverflows(s4, w1);
    var s5 := Next(s4, Touch(w1));
    SecondCollapse(s4.link.value, w1);
    var first, second := [Reattach(w0)] + Touches(31, w0), [Touch(w0)] + Touches(30, w1);
    steps := first + second + [Touch(w1)];
    assert first[1..] == Touches(31, w0) && second[1..] == Touches(30, w1) && [Touch(w1)][1..] == [];
    AfterSplit(s0, first + second, [Touch(w1)]);
    AfterSplit(s0, first, second);
    assert After(s4, [Touch(w1)]) == After(s5, []) == s5;
  }

  lemma FirstCollapse(c: Conn, w: World)
    requires c == GREETED.(queue := c.queue, queuedBytes := c.queuedBytes) && w == World(true, 0, FULL)
    ensures Collapsed(Pushed(c, Held(Snapshot, BIG)), 1, SlowConsumer, w)
            == Conn([Held(Lagged(1, 1, SlowConsumer), SLOW), Held(Snapshot, BIG)], SLOW + BIG, 1, 1, true, false, [0],
                    [Say(Hello(0))], 0, true)
  {
    assert SentFront(1, [Say(Hello(0))]) == SentFront(1, [Say(Hello(0))][1..]) == 1;
    var q := Recovery(c, 1, SlowConsumer, FULL);
    assert q == [Held(Lagged(1, 1, SlowConsumer), SLOW), Held(Snapshot, BIG)];
    assert q[1..] == [Held(Snapshot, BIG)] && q[1..][1..] == [];
    assert TotalHeld(q) == SLOW + TotalHeld(q[1..]) && TotalHeld(q[1..]) == BIG + TotalHeld([]);
    var p := Pushed(c, Held(Snapshot, BIG));
    assert Recovery(p, 1, SlowConsumer, FULL) == q && Settled(p);
    assert [] + [0] == [0];
  }

  lemma SecondCollapse(c: Conn, w: World)
    requires c == Conn(c.queue, c.queuedBytes, 1, 1, true, false, [0], [Say(Hello(0))], 0, true)
             && w == World(true, 30_000, FULL)
    ensures Collapsed(Pushed(c, Held(Snapshot, BIG)), 1, SlowConsumer, w)
            == Conn([Held(Snapshot, BIG)], BIG, 1, 1, true, false, [30_000], [Say(Hello(0))], 0, false)
  {
    assert SentFront(1, [Say(Hello(0))]) == SentFront(1, [Say(Hello(0))][1..]) == 1;
    var q := Recovery(c, 1, SlowConsumer, FULL);
    assert q == [Held(Snapshot, BIG)] && q[1..] == [];
    assert TotalHeld(q) == BIG + TotalHeld([]);
    var p := Pushed(c, Held(Snapshot, BIG));
    assert Recovery(p, 1, SlowConsumer, FULL) == q && !Settled(p);
    assert Recent([0], 30_000) == Recent([0][1..], 30_000) == [];
    assert [] + [30_000] == [30_000];
  }

  // The same run, let go on until everything is delivered and one more event arrives: the client
  // exits reporting a gap.
  lemma GapExitIsReachable() returns (steps: seq<Step>)
    ensures Begins(0, OneEvent()) && After(OneEvent(), steps).client.failed
  {
    var before := BusySocketLosesItsPlace();
    var s := After(OneEvent(), before);
    var rest := [Acknowledge(true), Acknowledge(true), Deliver, Deliver];
    var t := Next(s, Acknowledge(true));
    assert [Held(Snapshot, BIG)][1..] == [];
    var sent := [Say(Hello(0)), Say(Snapshot)];
    assert t.link.value.sent == sent && t.link.value.queue == [];
    var u := Next(t, Acknowledge(true));
    var v := Next(Next(u, Deliver), Deliver);
    assert v.client == Client(0, false, []) && Quiet(v);
    assert rest[1..] == [Acknowledge(true), Deliver, Deliver] && rest[1..][1..] == [Deliver, Deliver]
           && rest[1..][1..][1..] == [Deliver] && rest[1..][1..][1..][1..] == [];
    assert After(s, rest) == After(t, rest[1..]) == After(u, rest[1..][1..]) == After(Next(u, Deliver), [Deliver])
           == After(v, []);
    var entry, w := Entry(LETTER, WEIGHT, ON_THE_WIRE), World(true, 0, FULL);
    MisplacedClientExits(v, entry, w);
    steps := before + rest + [Append(entry, w), Deliver];
    AfterSplit(OneEvent(), before + rest, [Append(entry, w), Deliver]);
    AfterSplit(OneEvent(), before, rest);
  }

  // ---- a socket that dies right after the greeting ----

  lemma {:induction false} ToldAllKeepsSent(c: Conn, controls: seq<Control>, log: Log, w: World)
    ensures c.sent <= ToldAll(c, controls, log, w).sent
    decreases |controls|
  {
    if controls != [] { ToldAllKeepsSent(Told(c, controls[0], log, w), controls[1..], log, w); }
  }

  lemma {:induction false} ReplayKeepsSent(c: Conn, log: Log, from: nat, w: World)
    requires 1 <= from
    ensures c.sent <= Replayed(c, log, from, w).sent
    decreases log.Last() + 1 - from
  {
    if from <= log.Last() { ReplayKeepsSent(Emitted(c, log, from, true, w), log, from + 1, w); }
  }

  lemma TellKeepsSent(c: Conn, control: Control, log: Log, w: World)
    ensures c.sent <= Told(c, control, log, w).sent
  {}

  lemma GreetingGoesOut(start: nat, asked: nat, log: Log, w: World)
    requires w.ready
    ensures Told(Fresh(start, asked), Hello(start), log, w).sent == [Say(Hello(start))]
  {
    var e := Pushed(Fresh(start, asked), Held(Hello(start), w.sizes.hello));
    assert Told(Fresh(start, asked), Hello(start), log, w) == Flushed(e, true);
  }

  lemma GreetingFirst(log: Log, since: nat, w: World)
    requires log.Valid() && w.ready
    ensures var sent := Attached(log, since, w).sent;
            sent != [] && sent[0] == Say(Hello(Since(log, Asked(log, since))))
  {
    var asked := Asked(log, since);
    var start := Since(log, asked);
    var frames := Opening(log, asked);
    GreetingGoesOut(start, asked, log, w);
    assert frames[0] == Hello(start);
    ToldAllKeepsSent(Told(Fresh(start, asked), Hello(start), log, w), frames[1..], log, w);
    CatchUpKeepsSent(Greeted(log, asked, w), log, w);
  }

  lemma CatchUpKeepsSent(c: Conn, log: Log, w: World)
    requires log.Valid()
    ensures c.sent <= CaughtUpFrom(c, log, w).sent
  {
    var from := Max(c.cursor + 1, log.oldest);
    var d := Replayed(c, log, from, w);
    ReplayKeepsSent(c, log, from, w);
    TellKeepsSent(d, CaughtUp(d.cursor), log, w);
  }

  // A greeting moves the cursor over everything the attach will not replay. If the socket dies
  // before the announcement that follows it, that range is never reported; at whichever attach it
  // happens, this loses nothing exactly when the whole rest of the log fits in one replay.
  lemma GreetingAloneSkipsSilently(start: nat, s: Sys, w: World)
    requires Inv(start, s) && s.link.None? && w.ready
    ensures var t := After(s, [Reattach(w), Deliver, Drop]);
            && t.client.heard == s.client.heard && t.client.last == Max(s.client.last, s.log.Last() - ATTACH_REPLAY_MAX)
            && (CaughtBreath(start, t) <==> s.log.Last() - s.client.last <= ATTACH_REPLAY_MAX)
  {
    GreetedOnly(s, w);
    AfterThree(s, Reattach(w), Deliver, Drop);
  }

  lemma GreetedOnly(s: Sys, w: World)
    requires s.log.Valid() && s.link.None? && w.ready && !s.client.failed
    ensures Next(Next(Next(s, Reattach(w)), Deliver), Drop)
            == s.(got := 0, client := s.client.(last := Since(s.log, Asked(s.log, s.client.last))))
  {
    GreetingFirst(s.log, s.client.last, w);
  }

  lemma AfterThree(s: Sys, a: Step, b: Step, c: Step)
    requires s.log.Valid()
    ensures After(s, [a, b, c]) == Next(Next(Next(s, a), b), c)
  {
    assert [a, b, c][1..] == [b, c] && [b, c][1..] == [c];
    AfterOne(Next(Next(s, a), b), c);
  }

  // ---- an announcement made twice ----

  const EVICTED: Conn :=
    Conn([Held(Lagged(1, 1, Evicted), GONE), Queued(Stored(2, LETTER), WEIGHT + 64, ON_THE_WIRE),
          Held(CaughtUp(2), ARRIVED)], GONE + WEIGHT + 64 + ARRIVED, 2, 0, true, false, [], [Say(Hello(0))], 0, true)

  // A log whose first event is gone.
  function Shortened(): Sys {
    Sys(Log([Entry(LETTER, WEIGHT, ON_THE_WIRE), Entry(LETTER, WEIGHT, ON_THE_WIRE)], 2), None, 0, Client(0, false, []))
  }

  lemma ShortenedAttach()
    ensures Next(Shortened(), Reattach(World(true, 0, FIRST))) == Shortened().(link := Some(EVICTED))
  {
    var s, w := Shortened(), World(true, 0, FIRST);
    var frames := Opening(s.log, 0);
    assert frames == [Hello(0), Lagged(1, 1, Evicted)] && frames[1..] == [Lagged(1, 1, Evicted)]
           && frames[1..][1..] == [];
    var f := Fresh(0, 0);
    GreetingTold(0, 0, s.log, w);
    var c := Told(f, Hello(0), s.log, w);
    var d := Told(c, Lagged(1, 1, Evicted), s.log, w);
    assert ToldAll(f, frames, s.log, w) == ToldAll(c, frames[1..], s.log, w) == ToldAll(d, [], s.log, w) == d;
    assert d == c.(queue := [Held(Lagged(1, 1, Evicted), GONE)], queuedBytes := GONE);
    ShortenedReplay(s.log, w, d);
  }

  lemma ShortenedReplay(log: Log, w: World, d: Conn)
    requires log == Shortened().log && w == World(true, 0, FIRST)
    requires d == Conn([Held(Lagged(1, 1, Evicted), GONE)], GONE, 0, 0, true, false, [], [Say(Hello(0))], 0, true)
    ensures Told(Replayed(d, log, 2, w), CaughtUp(2), log, w) == EVICTED
  {
    var e := Emitted(d, log, 2, true, w);
    assert e.queue == [Held(Lagged(1, 1, Evicted), GONE), Queued(Stored(2, LETTER), WEIGHT + 64, ON_THE_WIRE)];
    assert Replayed(d, log, 2, w) == Replayed(e, log, 3, w) == e;
    assert Told(e, CaughtUp(2), log, w).queue == EVICTED.queue;
  }

  // The socket has taken the announcement of what is gone and is busy with it when the queue
  // overflows: nothing counts as sent yet, so the collapse announces the same event again.
  lemma AnEvictionIsAnnouncedTwice()
    ensures var w := World(true, 0, FULL);
            var s := Next(Next(Shortened(), Reattach(World(true, 0, FIRST))), Acknowledge(true));
            var t := Next(After(s, Touches(31, w)), Touch(w));
            var u := Next(Next(Next(Next(t, Acknowledge(true)), Deliver), Deliver), Deliver);
            && Begins(0, Shortened()) && NoticeRanAhead(s.link.value)
            && u.client.heard == [Piece(1, 1, false), Piece(1, 2, false)] && !Tiles(0, u.client.heard)
  {
    var w := World(true, 0, FULL);
    ShortenedAttach();
    var s := Next(Next(Shortened(), Reattach(World(true, 0, FIRST))), Acknowledge(true));
    var sent := [Say(Hello(0)), Say(Lagged(1, 1, Evicted))];
    var c := s.link.value;
    assert c == EVICTED.(queue := EVICTED.queue[1..], queuedBytes := WEIGHT + 64 + ARRIVED, sent := sent);
    assert IsNotice(c.sent[1]);
    PileUp(s, 31, w);
    var p := Piled(s, 31, BIG);
    TouchOverflows(p, w);
    var t := Next(p, Touch(w));
    EvictionCollapse(p.link.value, w);
    TwiceHeard(t);
  }

  lemma EvictionCollapse(c: Conn, w: World)
    requires c.lastSentSeq == 0 && !c.closed && c.collapses == [] && w == World(true, 0, FULL)
    ensures var d := Collapsed(Pushed(c, Held(Snapshot, BIG)), 2, SlowConsumer, w);
            && d.queue == [Held(Lagged(1, 2, SlowConsumer), SLOW), Held(Snapshot, BIG)] && !d.closed
            && d.sent == c.sent && d.sending == c.sending
  {
    assert Recent([], 0) + [0] == [0];
  }

  lemma TwiceHeard(t: Sys)
    requires t.log.Valid() && t.link.Some? && !t.link.value.closed && t.got == 0 && t.client == Client(0, false, [])
    requires t.link.value.queue == [Held(Lagged(1, 2, SlowConsumer), SLOW), Held(Snapshot, BIG)]
    requires t.link.value.sent == [Say(Hello(0)), Say(Lagged(1, 1, Evicted))]
    ensures var u := Next(Next(Next(Next(t, Acknowledge(true)), Deliver), Deliver), Deliver);
            u.client.heard == [Piece(1, 1, false), Piece(1, 2, false)] && !Tiles(0, u.client.heard)
  {
    var a := Next(t, Acknowledge(true));
    assert a.link.value.sent == [Say(Hello(0)), Say(Lagged(1, 1, Evicted)), Say(Lagged(1, 2, SlowConsumer))];
    var heard := [Piece(1, 1, false), Piece(1, 2, false)];
    assert [] + [heard[0]] == [heard[0]] && [heard[0]] + [heard[1]] == heard;
    assert heard[..1] == [heard[0]];
  }

  // ---- a first cursor past the end of the log ----

  // Two clients with different cursors come to the same from one frame exactly when it is one that
  // sets the cursor.
  lemma ACursorIsSetExactly(a: nat, b: nat, heard: seq<Piece>, frame: Frame)
    requires a != b
    ensures Received(Client(a, false, heard), frame) == Received(Client(b, false, heard), frame)
            <==> IsGreeting(frame) || IsNotice(frame)
  {
    if frame.Batch? {
      PrintsOnlyTheNext(Client(a, false, heard), frame.events);
      PrintsOnlyTheNext(Client(b, false, heard), frame.events);
      var n, m := Unbroken(a, frame.events), Unbroken(b, frame.events);
      RunEnd(a, n);
      RunEnd(b, m);
      assert |heard + Run(a, n)| == |heard| + n && |heard + Run(b, m)| == |heard| + m;
    }
  }

  predicate Unheard(step: Step) { step.Append? || step.Touch? || step.Acknowledge? || step.Expire? }

  // Until something is delivered, what the daemon does does not depend on the client.
  lemma {:induction false} UnheardIsAlike(s: Sys, k: Client, steps: seq<Step>)
    requires s.log.Valid() && s.link.Some? && forall i :: 0 <= i < |steps| ==> Unheard(steps[i])
    ensures After(s.(client := k), steps) == After(s, steps).(client := k)
    ensures After(s, steps).client == s.client && After(s, steps).got == s.got && After(s, steps).link.Some?
    decreases |steps|
  {
    if steps != [] { UnheardIsAlike(Next(s, steps[0]), k, steps[1..]); }
  }

  lemma AttachesAlike(start: nat, s: Sys, w: World)
    requires Begins(start, s) && start > s.log.Last()
    ensures var k := Client(s.log.Last(), false, []);
            Next(s.(client := k), Reattach(w)) == Next(s, Reattach(w)).(client := k)
  {
    assert Asked(s.log, start) == s.log.Last() == Asked(s.log, s.log.Last());
  }

  // The first frame that the socket has is one that sets the cursor.
  predicate OpensWithACursor(s: Sys) {
    s.link.Some? && s.link.value.sent != [] && (IsGreeting(s.link.value.sent[0]) || IsNotice(s.link.value.sent[0]))
  }

  lemma DeliveredAlike(p: Sys, k: Client)
    requires p.log.Valid() && p.link.Some? && p.link.value.sent != [] && p.got == 0
    requires !p.client.failed && k == Client(k.last, false, p.client.heard) && k.last != p.client.last
    ensures Next(p, Deliver) == Next(p.(client := k), Deliver) <==> OpensWithACursor(p)
  {
    ACursorIsSetExactly(p.client.last, k.last, k.heard, p.link.value.sent[0]);
  }

  // A client whose first cursor lies past the log is served like one that asked for the head, and
  // becomes one with the first frame exactly when that is a greeting or an announcement.
  lemma ACursorPastTheLogIsTheHead(start: nat, s: Sys, w: World, steps: seq<Step>)
    requires Begins(start, s) && start > s.log.Last() && forall i :: 0 <= i < |steps| ==> Unheard(steps[i])
    ensures var k := Client(s.log.Last(), false, []);
            var (p, q) := (After(Next(s, Reattach(w)), steps), After(Next(s.(client := k), Reattach(w)), steps));
            && p.link.Some? && q == p.(client := k)
            && (p.link.value.sent != [] ==> (Next(p, Deliver) == Next(q, Deliver) <==> OpensWithACursor(p)))
  {
    var k := Client(s.log.Last(), false, []);
    AttachesAlike(start, s, w);
    UnheardIsAlike(Next(s, Reattach(w)), k, steps);
    var p := After(Next(s, Reattach(w)), steps);
    if p.link.value.sent != [] { DeliveredAlike(p, k); }
  }

  // From then on its runs tile from the head it was attached at.
  lemma ACursorPastTheLogTiles(start: nat, s: Sys, w: World, before: seq<Step>, rest: seq<Step>)
    requires Begins(start, s) && start > s.log.Last() && forall i :: 0 <= i < |before| ==> Unheard(before[i])
    requires OpensWithACursor(After(Next(s, Reattach(w)), before))
    requires TidyRun(s.(client := Client(s.log.Last(), false, [])), [Reattach(w)] + before + [Deliver] + rest)
    ensures var t := After(Next(After(Next(s, Reattach(w)), before), Deliver), rest);
            && !t.client.failed && Tiles(s.log.Last(), t.client.heard)
            && (Quiet(t) ==> t.client.last == t.log.Last() && Front(s.log.Last(), t.client.heard) == t.log.Last() + 1)
  {
    var head := s.(client := Client(s.log.Last(), false, []));
    ACursorPastTheLogIsTheHead(start, s, w, before);
    var q := After(Next(head, Reattach(w)), before);
    TidyRunTiles(s.log.Last(), head, [Reattach(w)] + before + [Deliver] + rest);
    AfterSplit(head, [Reattach(w)] + before + [Deliver], rest);
    AfterSplit(head, [Reattach(w)] + before, [Deliver]);
    AfterSplit(head, [Reattach(w)], before);
    AfterOne(head, Reattach(w));
    AfterOne(q, Deliver);
  }

  lemma AfterOne(s: Sys, step: Step)
    requires s.log.Valid()
    ensures After(s, [step]) == Next(s, step)
  {
    assert [step][1..] == [];
  }
}
