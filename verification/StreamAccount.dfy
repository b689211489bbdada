// What the daemon counts as sent against what it handed to the socket, and what a collapse makes
// of the difference.

module StreamAccounts {
  import opened Common
  import opened SessionEvents
  import opened EventLog
  import opened StreamConnections
  import opened StreamOrders
  import opened AttachClients
  import opened StreamRuns

  // An announcement that reaches back to what is counted as sent is still waiting.
  predicate NoticeWaits(c: Conn) {
    exists i :: 0 <= i < |c.queue| && IsLagged(c.queue[i]) && c.queue[i].control.from <= c.lastSentSeq
  }

  // An announcement went out that reaches past what is counted as sent.
  predicate NoticeRanAhead(c: Conn) {
    exists i :: 0 <= i < |c.sent| && IsNotice(c.sent[i]) && c.sent[i].control.to > c.lastSentSeq
  }

  // ---- what waits in the queue ----

  // One more frame that a client took well: what it heard goes on from where it was.
  lemma HearsOn(start: nat, k: Client, item: Item)
    requires !Received(k, FrameOf(item)).failed && Tiles(start, Received(k, FrameOf(item)).heard)
    ensures IsLagged(item) ==> item.control.from == Front(start, k.heard)
    ensures item.Queued? ==> item.stored.num == Front(start, k.heard)
    ensures !IsLagged(item) && !item.Queued? ==> Received(k, FrameOf(item)).heard == k.heard
    ensures Front(start, k.heard) <= Front(start, Received(k, FrameOf(item)).heard)
  {
    var t := Received(k, FrameOf(item));
    FrontGrows(start, k, FrameOf(item));
    if item.Queued? {
      assert [item.stored][1..] == [];
      var num := item.stored.num;
      assert t == Took(k.(last := num, heard := k.heard + [Piece(num, num, true)]), []);
    }
    if t.heard != k.heard { assert t.heard[..|k.heard|] == k.heard; }
  }

  lemma QueueStep(start: nat, k: Client, queue: seq<Item>)
    requires queue != []
    requires !ReceivedAll(k, Frames(queue)).failed && Tiles(start, ReceivedAll(k, Frames(queue)).heard)
    ensures var t := Received(k, FrameOf(queue[0]));
            && ReceivedAll(k, Frames(queue)) == ReceivedAll(t, Frames(queue[1..]))
            && !t.failed && Tiles(start, t.heard)
  {
    var t := Received(k, FrameOf(queue[0]));
    assert Frames(queue)[1..] == Frames(queue[1..]);
    ReceivedKeeps(t, Frames(queue[1..]));
    TilesPrefix(start, t.heard, ReceivedAll(t, Frames(queue[1..])).heard);
  }

  // Nothing queued reaches back before what the client will have heard of by then.
  lemma {:induction false} QueueGoesOn(start: nat, k: Client, queue: seq<Item>, i: nat)
    requires !ReceivedAll(k, Frames(queue)).failed && Tiles(start, ReceivedAll(k, Frames(queue)).heard)
    requires i < |queue| && IsLagged(queue[i])
    ensures queue[i].control.from >= Front(start, k.heard)
    decreases |queue|
  {
    QueueStep(start, k, queue);
    HearsOn(start, k, queue[0]);
    if i > 0 { QueueGoesOn(start, Received(k, FrameOf(queue[0])), queue[1..], i - 1); }
  }

  // If the queue will take the client further, its first piece starts where the client is.
  lemma {:induction false} QueueStartsAt(start: nat, k: Client, queue: seq<Item>) returns (i: nat)
    requires !ReceivedAll(k, Frames(queue)).failed && Tiles(start, ReceivedAll(k, Frames(queue)).heard)
    requires Front(start, k.heard) < Front(start, ReceivedAll(k, Frames(queue)).heard)
    ensures i < |queue|
    ensures (IsLagged(queue[i]) && queue[i].control.from == Front(start, k.heard))
            || (queue[i].Queued? && queue[i].stored.num == Front(start, k.heard))
    decreases |queue|
  {
    QueueStep(start, k, queue);
    HearsOn(start, k, queue[0]);
    if IsLagged(queue[0]) || queue[0].Queued? {
      i := 0;
    } else {
      var j := QueueStartsAt(start, Received(k, FrameOf(queue[0])), queue[1..]);
      i := j + 1;
    }
  }

  // ---- what was sent ----

  predicate EndsAt(frame: Frame, front: nat) {
    (IsNotice(frame) && frame.control.to + 1 == front)
    || (frame.Batch? && frame.events != [] && frame.events[|frame.events| - 1].num + 1 == front)
  }

  lemma {:induction false} SentFrontComesFrom(front: nat, sent: seq<Frame>)
    ensures SentFront(front, sent) == front || exists i :: 0 <= i < |sent| && EndsAt(sent[i], SentFront(front, sent))
    decreases |sent|
  {
    if sent != [] {
      var next, rest := Passed(front, sent[0]), sent[1..];
      SentFrontComesFrom(next, rest);
      if SentFront(next, rest) == next {
        if next != front { assert EndsAt(sent[0], next); }
      } else {
        var i :| 0 <= i < |rest| && EndsAt(rest[i], SentFront(next, rest));
        assert sent[i + 1] == rest[i];
      }
    }
  }

  lemma AheadExactly(start: nat, k: Client, got: nat, c: Conn)
    requires WireGood(start, k, got, c) && Numbered(c)
    ensures NoticeRanAhead(c) <==> c.lastSentSeq + 1 < SentFront(c.asked + 1, c.sent)
  {
    var front := SentFront(c.asked + 1, c.sent);
    if c.lastSentSeq + 1 < front {
      SentFrontComesFrom(c.asked + 1, c.sent);
      var i :| 0 <= i < |c.sent| && EndsAt(c.sent[i], front);
      assert IsNotice(c.sent[i]);
    }
  }

  lemma WaitingExactly(start: nat, k: Client, got: nat, c: Conn, head: nat)
    requires Live(start, k, got, c, head) && Numbered(c) && !c.closed
    ensures NoticeWaits(c) <==> SentFront(c.asked + 1, c.sent) < c.lastSentSeq + 1
  {
    var w := Wired(k, got, c);
    if NoticeWaits(c) {
      var i :| 0 <= i < |c.queue| && IsLagged(c.queue[i]) && c.queue[i].control.from <= c.lastSentSeq;
      QueueGoesOn(start, w, c.queue, i);
    }
    if Front(start, w.heard) < c.lastSentSeq + 1 {
      var i := QueueStartsAt(start, w, c.queue);
      assert IsLagged(c.queue[i]);
    }
  }

  // So the daemon's account is true exactly when no announcement of its own waits behind it, and
  // none went out ahead of it: what it holds is enough to tell.
  lemma TheAccountIsTrueExactly(start: nat, s: Sys)
    requires Inv(start, s) && s.link.Some? && !s.link.value.closed
    ensures Settled(s.link.value) <==> !NoticeWaits(s.link.value) && !NoticeRanAhead(s.link.value)
  {
    var c := s.link.value;
    AheadExactly(start, s.client, s.got, c);
    WaitingExactly(start, s.client, s.got, c, s.log.Last());
  }

  // ---- the two ways a collapse goes wrong ----

  // With an announcement still waiting, a collapse leaves a hole that is never reported; with one
  // that ran ahead, it announces again what was announced. `front` is the first seq the client will
  // not have been told about when everything handed to the socket has reached it.
  lemma ACollapseGoesWrongInTwoWays(start: nat, s: Sys, reason: Reason, w: World)
    requires Inv(start, s) && s.link.Some? && !s.link.value.closed
    ensures var c, head := s.link.value, s.log.Last();
            var wired, d := Wired(s.client, s.got, c), Collapsed(c, head, reason, w);
            var front := Front(start, wired.heard);
            && (NoticeWaits(c) <==> front <= c.lastSentSeq)
            && (NoticeRanAhead(c) <==> c.lastSentSeq + 1 < front)
            && (!d.closed ==> Drained(s.client, s.got, d) == Skipped(wired, c.lastSentSeq, head))
            && (NoticeRanAhead(c) && !d.closed ==>
                  Drained(s.client, s.got, d).heard == wired.heard + [Piece(c.lastSentSeq + 1, head, false)]
                  && c.lastSentSeq + 1 < front <= head + 1)
  {
    var c := s.link.value;
    AheadExactly(start, s.client, s.got, c);
    WaitingExactly(start, s.client, s.got, c, s.log.Last());
    CollapseDrains(s.client, s.got, c, s.log.Last(), reason, w);
  }
}
