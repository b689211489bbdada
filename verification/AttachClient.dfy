// The terminal client's side of a stream: one cursor, checked against every event.

module AttachClients {
  import opened SessionEvents
  import opened TextRuns
  import opened StreamConnections

  // What a client was told about a range of seqs: the event itself, or that it was skipped.
  datatype Piece = Piece(from: nat, to: nat, printed: bool)

  // `heard` is the history of what was printed and announced; `failed` is the exit on a gap.
  datatype Client = Client(last: nat, failed: bool, heard: seq<Piece>)

  function Took(k: Client, events: seq<Stored>): Client
    decreases |events|
  {
    if k.failed || events == [] then k
    else if events[0].num != k.last + 1 then k.(failed := true)
    else Took(k.(last := events[0].num, heard := k.heard + [Piece(events[0].num, events[0].num, true)]), events[1..])
  }

  lemma TookFrom(k: Client, events: seq<Stored>, i: nat)
    requires !k.failed && i < |events|
    ensures var e := events[i];
            Took(k, events[i..])
            == if e.num != k.last + 1 then k.(failed := true)
               else Took(k.(last := e.num, heard := k.heard + [Piece(e.num, e.num, true)]), events[i + 1..])
  {
    assert events[i..][1..] == events[i + 1..];
  }

  function Received(k: Client, frame: Frame): Client {
    if k.failed then k
    else match frame
      case Say(Hello(since)) => k.(last := since)
      case Say(Lagged(from, to, _)) => k.(last := to, heard := k.heard + [Piece(from, to, false)])
      case Say(_) => k
      case Batch(events) => Took(k, events)
  }

  function ReceivedAll(k: Client, frames: seq<Frame>): Client
    decreases |frames|
  {
    if frames == [] then k else ReceivedAll(Received(k, frames[0]), frames[1..])
  }

  // How many events of a batch continue the cursor without a hole.
  function Unbroken(last: nat, events: seq<Stored>): (n: nat)
    ensures n <= |events|
    ensures forall i :: 0 <= i < n ==> events[i].num == last + 1 + i
    ensures n < |events| ==> events[n].num != last + 1 + n
    decreases |events|
  {
    if events == [] || events[0].num != last + 1 then 0 else 1 + Unbroken(last + 1, events[1..])
  }

  // With `--json` events are written as they are, otherwise they are shown.
  function Written(json: bool, events: seq<Stored>): seq<Stored> { if json then events else [] }

  function Display(json: bool, run: State, events: seq<Stored>): State {
    if json then run else ShownAll(run, events)
  }

  lemma OneMore(json: bool, run: State, events: seq<Stored>, i: nat)
    requires i < |events|
    ensures Written(json, events[..i + 1]) == Written(json, events[..i]) + Written(json, [events[i]])
    ensures Display(json, run, events[..i + 1])
            == if json then run else Shown(Display(json, run, events[..i]), events[i])
  {
    assert events[..i + 1] == events[..i] + [events[i]];
    if !json { OneMoreShown(run, events[..i], events[i]); }
  }

  lemma UnbrokenReaches(last: nat, events: seq<Stored>, i: nat)
    requires i < |events| && i <= Unbroken(last, events)
    ensures if events[i].num == last + 1 + i then i < Unbroken(last, events) else i == Unbroken(last, events)
  {}

  // The events of a frame that are shown.
  function Taken(last: nat, frame: Frame): seq<Stored> {
    match frame
    case Batch(events) => events[..Unbroken(last, events)]
    case Say(_) => []
  }

  class AttachClient {
    const json: bool
    const run: TextRun
    var lastSeq: nat
    var failed: bool
    var out: seq<Stored>
    ghost var heard: seq<Piece>

    ghost function View(): Client
      reads this
    {
      Client(lastSeq, failed, heard)
    }

    constructor (since: nat, json: bool)
      ensures View() == Client(since, false, []) && this.json == json && out == []
      ensures fresh(run) && run.View() == State("", 0, false, [])
    {
      this.json := json;
      run := new TextRun();
      lastSeq, failed, out, heard := since, false, [], [];
    }

    // The loop over an `events` frame. It stops at the first seq that is not the next one,
    // and has by then shown, or written as JSON, exactly the events before it.
    method OnEvents(events: seq<Stored>)
      requires !failed
      modifies this, run
      ensures View() == Took(old(View()), events)
      ensures var good := events[..Unbroken(old(lastSeq), events)];
              && out == old(out) + (if json then good else [])
              && var shown := Display(json, old(run.View()), good);
                 run.View() == if failed then TextRuns.Flushed(shown) else shown
    {
      ghost var k, before, wrote := View(), run.View(), out;
      assert events[0..] == events;
      for i := 0 to |events|
        invariant !failed && i <= Unbroken(k.last, events) && lastSeq == k.last + i
        invariant Took(View(), events[i..]) == Took(k, events)
        invariant out == wrote + Written(json, events[..i]) && run.View() == Display(json, before, events[..i])
      {
        var stored := events[i];
        TookFrom(View(), events, i);
        UnbrokenReaches(k.last, events, i);
        if stored.num != lastSeq + 1 {
          GiveUp();
          return;
        }
        OneMore(json, before, events, i);
        Accept(stored);
      }
      assert events[..|events|] == events && events[|events|..] == [];
    }

    // An event that is not the next one ends the client.
    method GiveUp()
      modifies this`failed, run
      ensures failed && run.View() == TextRuns.Flushed(old(run.View()))
    {
      run.Flush();
      failed := true;
    }

    // An event that is the next one.
    method Accept(stored: Stored)
      requires !failed && stored.num == lastSeq + 1
      modifies this, run
      ensures View() == Client(stored.num, false, old(heard) + [Piece(stored.num, stored.num, true)])
      ensures out == old(out) + Written(json, [stored])
      ensures run.View() == if json then old(run.View()) else Shown(old(run.View()), stored)
    {
      lastSeq := stored.num;
      heard := heard + [Piece(stored.num, stored.num, true)];
      if json {
        out := out + [stored];
      } else {
        run.Show(stored);
      }
    }

    // A range that was skipped, and the end of a replay, print the group before them.
    method OnFrame(frame: Frame)
      requires !failed
      modifies this, run
      ensures View() == Received(old(View()), frame)
      ensures out == old(out) + (if json then Taken(old(lastSeq), frame) else [])
      ensures frame.Batch? ==>
                var shown := Display(json, old(run.View()), Taken(old(lastSeq), frame));
                run.View() == if failed then TextRuns.Flushed(shown) else shown
      ensures frame.Say? ==>
                run.View() == if frame.control.Lagged? || frame.control.CaughtUp? then TextRuns.Flushed(old(run.View()))
                              else old(run.View())
    {
      match frame
      case Batch(events) =>
        PrintsOnlyTheNext(View(), events);
        OnEvents(events);
      case Say(Hello(since)) => lastSeq := since;
      case Say(Lagged(from, to, _)) =>
        run.Flush();
        lastSeq := to;
        heard := heard + [Piece(from, to, false)];
      case Say(CaughtUp(_)) => run.Flush();
      case Say(Snapshot) =>
    }
  }

  // ---- what the client guarantees whatever the daemon sends ----

  function Run(last: nat, n: nat): seq<Piece>
    decreases n
  {
    if n == 0 then [] else [Piece(last + 1, last + 1, true)] + Run(last + 1, n - 1)
  }

  // A batch prints exactly the seqs that follow the cursor, and anything else ends the client.
  lemma {:induction false} PrintsOnlyTheNext(k: Client, events: seq<Stored>)
    requires !k.failed
    ensures var n := Unbroken(k.last, events);
            Took(k, events) == Client(k.last + n, n < |events|, k.heard + Run(k.last, n))
    decreases |events|
  {
    if events == [] || events[0].num != k.last + 1 {
      assert k.heard + [] == k.heard;
    } else {
      var piece := Piece(events[0].num, events[0].num, true);
      PrintsOnlyTheNext(k.(last := events[0].num, heard := k.heard + [piece]), events[1..]);
      var n := Unbroken(k.last + 1, events[1..]);
      assert k.heard + [piece] + Run(k.last + 1, n) == k.heard + ([piece] + Run(k.last + 1, n));
    }
  }

  lemma {:induction false} TookSplit(k: Client, a: seq<Stored>, b: seq<Stored>)
    ensures Took(k, a + b) == Took(Took(k, a), b)
    decreases |a|
  {
    if a == [] {
      assert a + b == b;
    } else if !k.failed && a[0].num == k.last + 1 {
      assert (a + b)[1..] == a[1..] + b;
      TookSplit(k.(last := a[0].num, heard := k.heard + [Piece(a[0].num, a[0].num, true)]), a[1..], b);
    }
  }

  lemma {:induction false} ReceivedSplit(k: Client, a: seq<Frame>, b: seq<Frame>)
    ensures ReceivedAll(k, a + b) == ReceivedAll(ReceivedAll(k, a), b)
    decreases |a|
  {
    if a == [] {
      assert a + b == b;
    } else {
      assert (a + b)[1..] == a[1..] + b;
      ReceivedSplit(Received(k, a[0]), a[1..], b);
    }
  }

  lemma {:induction false} TookKeeps(k: Client, events: seq<Stored>)
    ensures k.heard <= Took(k, events).heard && (k.failed ==> Took(k, events).failed)
    decreases |events|
  {
    if !k.failed && events != [] && events[0].num == k.last + 1 {
      TookKeeps(k.(last := events[0].num, heard := k.heard + [Piece(events[0].num, events[0].num, true)]), events[1..]);
    }
  }

  // Nothing heard is ever taken back, and a client that exited stays exited.
  lemma {:induction false} ReceivedKeeps(k: Client, frames: seq<Frame>)
    ensures k.heard <= ReceivedAll(k, frames).heard && (k.failed ==> ReceivedAll(k, frames).failed)
    decreases |frames|
  {
    if frames != [] {
      if frames[0].Batch? { TookKeeps(k, frames[0].events); }
      ReceivedKeeps(Received(k, frames[0]), frames[1..]);
    }
  }

  // ---- tilings ----

  // The first seq after `start` that nothing has been said about.
  function Front(start: nat, heard: seq<Piece>): nat {
    if heard == [] then start + 1 else heard[|heard| - 1].to + 1
  }

  // The pieces follow one another from start + 1 on, with no hole and no overlap.
  predicate Tiles(start: nat, heard: seq<Piece>) {
    heard == [] ||
    var n := |heard| - 1;
    Tiles(start, heard[..n]) && Front(start, heard[..n]) == heard[n].from <= heard[n].to
  }

  lemma {:induction false} TilesPrefix(start: nat, a: seq<Piece>, b: seq<Piece>)
    requires Tiles(start, b) && a <= b
    ensures Tiles(start, a) && Front(start, a) <= Front(start, b)
    decreases |b|
  {
    if a != b {
      assert a <= b[..|b| - 1];
      TilesPrefix(start, a, b[..|b| - 1]);
    }
  }

  // Exactly once: every seq below the front lies in one piece and no other.
  lemma {:induction false} HeardExactlyOnce(start: nat, heard: seq<Piece>, num: nat) returns (i: nat)
    requires Tiles(start, heard) && start < num < Front(start, heard)
    ensures i < |heard| && heard[i].from <= num <= heard[i].to
    ensures forall j :: 0 <= j < |heard| && heard[j].from <= num <= heard[j].to ==> j == i
  {
    var n := |heard| - 1;
    var init := heard[..n];
    forall j | 0 <= j < n ensures heard[j].to < heard[n].from {
      TilesPrefix(start, heard[..j + 1], init);
      assert heard[..j + 1][j] == heard[j];
    }
    if num >= heard[n].from {
      i := n;
    } else {
      i := HeardExactlyOnce(start, init, num);
      assert forall j :: 0 <= j < n ==> heard[j] == init[j];
    }
  }
}
