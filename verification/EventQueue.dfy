// The queue of a session's events: one reader at a time, and the reader may change.

module EventQueues {
  import opened Common

  const MAX_BUFFERED_EVENTS: nat := 2000

  // What an agent says, by what the queue makes of it.
  datatype Said = Words(id: nat) | Log(id: nat) | Other(id: nat) | Trouble(id: nat)

  // `Overflow` is the error that stands for a lost event; `Closed` is what a closed queue answers.
  datatype Event = Agent(said: Said) | Ending(epoch: nat) | Overflow | Closed

  predicate Droppable(e: Event) { e.Agent? && (e.said.Log? || e.said.Other?) }

  datatype Answer = Displaced | Got(event: Event)

  // A promise that has been resolved and whose reader has not yet run.
  datatype Wake = Wake(claim: nat, answer: Answer)

  function FirstDroppable(events: seq<Event>): (i: nat)
    ensures i <= |events|
    ensures i < |events| ==> Droppable(events[i])
  {
    if events == [] || Droppable(events[0]) then 0 else 1 + FirstDroppable(events[1..])
  }

  // `wakes` is the order in which resolved promises run; `evicted` and `lost` remember what an
  // overflow took out.
  datatype Queue = Queue(buffered: seq<Event>, waiting: Option<nat>, closed: bool, reader: nat, turnHolds: bool,
                         wakes: seq<Wake>, evicted: seq<Event>, lost: seq<Event>)
  {
    function Resolving(claim: nat, answer: Answer): Queue { this.(wakes := wakes + [Wake(claim, answer)]) }

    function HandedOver(): Queue {
      var next := this.(reader := reader + 1, waiting := None);
      if waiting == None then next else next.Resolving(waiting.value, Displaced)
    }

    function ClaimedForTurn(): Queue { HandedOver().(turnHolds := true) }

    function Released(claim: nat): Queue {
      if claim != reader then this else this.(turnHolds := false)
    }

    function Pushed(e: Event): Queue {
      if closed then this
      else if waiting.Some? then this.(waiting := None).Resolving(waiting.value, Got(e))
      else this.(buffered := buffered + [e]).Fitted()
    }

    function Fitted(): Queue {
      if |buffered| <= MAX_BUFFERED_EVENTS then this
      else
        var i := FirstDroppable(buffered);
        if i < |buffered| then this.(buffered := buffered[..i] + buffered[i + 1..], evicted := evicted + [buffered[i]])
        else this.(buffered := buffered[1..] + [Overflow], lost := lost + [buffered[0]])
    }

    function Asked(claim: nat): Queue {
      if claim != reader then Resolving(claim, Displaced)
      else if buffered != [] then this.(buffered := buffered[1..]).Resolving(claim, Got(buffered[0]))
      else if closed then Resolving(claim, Got(Closed))
      else this.(waiting := Some(claim))
    }

    function Shut(): Queue {
      var next := this.(closed := true, waiting := None);
      if waiting == None then next else next.Resolving(waiting.value, Got(Closed))
    }
  }

  const EMPTY: Queue := Queue([], None, false, 0, false, [], [], [])

  class EventQueue {
    var buffered: seq<Event>
    var waiting: Option<nat>
    var closed: bool
    var reader: nat
    var turnHolds: bool
    var wakes: seq<Wake>
    ghost var evicted: seq<Event>
    ghost var lost: seq<Event>

    ghost function State(): Queue
      reads this
    {
      Queue(buffered, waiting, closed, reader, turnHolds, wakes, evicted, lost)
    }

    constructor ()
      ensures State() == EMPTY
    {
      buffered, waiting, closed, reader, turnHolds, wakes, evicted, lost := [], None, false, 0, false, [], [], [];
    }

    method Handover() returns (claim: nat)
      modifies this
      ensures State() == old(State()).HandedOver() && claim == reader
    {
      reader := reader + 1;
      var displaced := waiting;
      waiting := None;
      if displaced.Some? { wakes := wakes + [Wake(displaced.value, Displaced)]; }
      claim := reader;
    }

    // `refused` is the exception: a turn already holds the queue.
    method ClaimForTurn() returns (refused: bool, claim: nat)
      modifies this
      ensures refused == old(turnHolds)
      ensures State() == if refused then old(State()) else old(State()).ClaimedForTurn()
      ensures !refused ==> claim == reader
    {
      if turnHolds { return true, 0; }
      turnHolds := true;
      claim := Handover();
      refused := false;
    }

    method ClaimForIdle() returns (claim: Option<nat>)
      modifies this
      ensures State() == if old(turnHolds) then old(State()) else old(State()).HandedOver()
      ensures claim == if old(turnHolds) then None else Some(reader)
    {
      if turnHolds { return None; }
      var taken := Handover();
      claim := Some(taken);
    }

    method Release(claim: nat)
      modifies this
      ensures State() == old(State()).Released(claim)
    {
      if claim != reader { return; }
      turnHolds := false;
    }

    method Push(e: Event)
      modifies this
      ensures State() == old(State()).Pushed(e)
    {
      if closed { return; }
      if waiting.Some? {
        wakes := wakes + [Wake(waiting.value, Got(e))];
        waiting := None;
        return;
      }
      buffered := buffered + [e];
      if |buffered| <= MAX_BUFFERED_EVENTS { return; }
      var droppable := FirstDroppable(buffered);
      if droppable < |buffered| {
        evicted := evicted + [buffered[droppable]];
        buffered := buffered[..droppable] + buffered[droppable + 1..];
        return;
      }
      lost := lost + [buffered[0]];
      buffered := buffered[1..];
      buffered := buffered + [Overflow];
    }

    method Next(claim: nat)
      modifies this
      ensures State() == old(State()).Asked(claim)
    {
      if claim != reader {
        wakes := wakes + [Wake(claim, Displaced)];
      } else if |buffered| > 0 {
        var first := buffered[0];
        buffered := buffered[1..];
        wakes := wakes + [Wake(claim, Got(first))];
      } else if closed {
        wakes := wakes + [Wake(claim, Got(Closed))];
      } else {
        waiting := Some(claim);
      }
    }

    method Close()
      modifies this
      ensures State() == old(State()).Shut()
    {
      closed := true;
      var resolve := waiting;
      waiting := None;
      if resolve.Some? { wakes := wakes + [Wake(resolve.value, Got(Closed))]; }
    }
  }

  // ---- what a push makes of the buffer ----

  // Events a reader can do without: what the agent logged, and what it said that is neither words nor
  // trouble.
  predicate IsMachinery(e: Event) {
    match e
    case Agent(said) => said.Log? || said.Other?
    case Ending(_) => false
    case Overflow => false
    case Closed => false
  }

  // With nobody waiting an event joins the buffer. Past two thousand of them the first piece of machinery
  // goes, the new event included; and where there is none, the oldest event goes and a mark comes last.
  lemma APushIsExactly(q: Queue, e: Event)
    requires !q.closed && q.waiting == None
    ensures var p, all := q.Pushed(e), q.buffered + [e];
            && (|all| <= 2000 ==> p == q.(buffered := all))
            && (|all| > 2000 && HasMachinery(all) ==>
                  exists i :: IsFirstMachinery(all, i)
                    && p == q.(buffered := all[..i] + all[i + 1..], evicted := q.evicted + [all[i]]))
            && (|all| > 2000 && !HasMachinery(all) ==>
                  p == q.(buffered := all[1..] + [Overflow], lost := q.lost + [all[0]]))
  {
    var all := q.buffered + [e];
    var i := FirstDroppable(all);
    FirstIsFirst(all);
    assert i < |all| ==> IsFirstMachinery(all, i);
  }

  predicate HasMachinery(events: seq<Event>) { exists i :: 0 <= i < |events| && IsMachinery(events[i]) }

  // So the bound holds only while there is machinery to take: a push past it that finds none takes one
  // event and puts a mark in its place, beside the new one.
  lemma TheBoundHoldsExactly(q: Queue, e: Event)
    requires !q.closed && q.waiting == None && |q.buffered| >= 2000
    ensures |q.Pushed(e).buffered| == |q.buffered| + if HasMachinery(q.buffered + [e]) then 0 else 1
  {
    APushIsExactly(q, e);
  }

  // What an agent leaves with nobody to read it.
  function Unread(words: nat): Queue {
    if words == 0 then EMPTY else Unread(words - 1).Pushed(Agent(Words(words)))
  }

  // However many words that is, the buffer holds as many events: it has no bound.
  lemma {:induction false} WordsAloneHaveNoBound(words: nat)
    ensures var q := Unread(words);
            |q.buffered| == words && !HasMachinery(q.buffered) && !q.closed && q.waiting == None
  {
    if words > 0 {
      WordsAloneHaveNoBound(words - 1);
      OneMoreWord(Unread(words - 1), Agent(Words(words)));
    }
  }

  lemma OneMoreWord(q: Queue, e: Event)
    requires !q.closed && q.waiting == None && !HasMachinery(q.buffered) && !IsMachinery(e)
    ensures var p := q.Pushed(e);
            |p.buffered| == |q.buffered| + 1 && !HasMachinery(p.buffered) && !p.closed && p.waiting == None
  {
    assert !HasMachinery(q.buffered + [e]);
    APushIsExactly(q, e);
  }

  predicate IsFirstMachinery(events: seq<Event>, i: int) {
    0 <= i < |events| && IsMachinery(events[i]) && forall j :: 0 <= j < i ==> !IsMachinery(events[j])
  }

  lemma {:induction false} FirstIsFirst(events: seq<Event>)
    ensures var i := FirstDroppable(events);
            if i < |events| then IsFirstMachinery(events, i) else !HasMachinery(events)
  {
    if events != [] && !Droppable(events[0]) {
      FirstIsFirst(events[1..]);
      forall j | 0 <= j < FirstDroppable(events) ensures !IsMachinery(events[j]) {
        if j > 0 { assert events[j] == events[1..][j - 1]; }
      }
    }
  }

  // To a waiting reader it goes at once, and nowhere from a closed queue.
  lemma APushToAReader(q: Queue, e: Event)
    ensures q.closed ==> q.Pushed(e) == q
    ensures !q.closed && q.waiting.Some? ==>
              q.Pushed(e) == q.(waiting := None, wakes := q.wakes + [Wake(q.waiting.value, Got(e))])
  {}

  // ---- what is on its way ----

  function EventOf(answer: Answer): seq<Event> {
    if answer.Got? && answer.event != Closed then [answer.event] else []
  }

  function Waking(wakes: seq<Wake>): seq<Event> {
    if wakes == [] then [] else EventOf(wakes[0].answer) + Waking(wakes[1..])
  }

  lemma {:induction false} WakingSnoc(wakes: seq<Wake>, w: Wake)
    ensures Waking(wakes + [w]) == Waking(wakes) + EventOf(w.answer)
  {
    if wakes == [] {
      assert wakes + [w] == [w] && [w][1..] == [];
    } else {
      assert (wakes + [w])[1..] == wakes[1..] + [w];
      WakingSnoc(wakes[1..], w);
    }
  }

  function InFlight(q: Queue): seq<Event> { Waking(q.wakes) + q.buffered }

  // No promise is parked while there is something to read.
  ghost predicate Calm(q: Queue) {
    && (q.waiting.Some? ==> q.buffered == [] && !q.closed && q.waiting.value == q.reader)
    && (forall i :: 0 <= i < |q.buffered| ==> q.buffered[i] != Closed)
  }

  lemma HandoverMovesNothing(q: Queue)
    requires Calm(q)
    ensures InFlight(q.HandedOver()) == InFlight(q) && Calm(q.HandedOver())
  {
    if q.waiting.Some? { WakingSnoc(q.wakes, Wake(q.waiting.value, Displaced)); }
  }

  lemma AskingMovesNothing(q: Queue, claim: nat)
    requires Calm(q)
    ensures InFlight(q.Asked(claim)) == InFlight(q) && Calm(q.Asked(claim))
  {
    if claim != q.reader {
      WakingSnoc(q.wakes, Wake(claim, Displaced));
    } else if q.buffered != [] {
      WakingSnoc(q.wakes, Wake(claim, Got(q.buffered[0])));
    } else if q.closed {
      WakingSnoc(q.wakes, Wake(claim, Got(Closed)));
    }
  }

  lemma ClosingMovesNothing(q: Queue)
    requires Calm(q)
    ensures InFlight(q.Shut()) == InFlight(q) && Calm(q.Shut())
  {
    if q.waiting.Some? { WakingSnoc(q.wakes, Wake(q.waiting.value, Got(Closed))); }
  }

  // ---- what an overflow may take ----

  function Conversation(events: seq<Event>): seq<Event> {
    if events == [] then [] else (if IsMachinery(events[0]) then [] else [events[0]]) + Conversation(events[1..])
  }

  function Real(events: seq<Event>): seq<Event> {
    if events == [] then [] else (if events[0] == Overflow then [] else [events[0]]) + Real(events[1..])
  }

  lemma {:induction false} ConversationSplits(a: seq<Event>, b: seq<Event>)
    ensures Conversation(a + b) == Conversation(a) + Conversation(b)
  {
    if a == [] {
      assert a + b == b;
    } else {
      assert (a + b)[1..] == a[1..] + b;
      ConversationSplits(a[1..], b);
    }
  }

  lemma {:induction false} RealSplits(a: seq<Event>, b: seq<Event>)
    ensures Real(a + b) == Real(a) + Real(b)
  {
    if a == [] {
      assert a + b == b;
    } else {
      assert (a + b)[1..] == a[1..] + b;
      RealSplits(a[1..], b);
    }
  }

  lemma Splits(a: seq<Event>, b: seq<Event>)
    ensures Conversation(a + b) == Conversation(a) + Conversation(b) && Real(a + b) == Real(a) + Real(b)
  {
    ConversationSplits(a, b);
    RealSplits(a, b);
  }

  lemma Single(e: Event)
    ensures Conversation([e]) == (if IsMachinery(e) then [] else [e])
            && Real([e]) == (if e == Overflow then [] else [e])
  {
    assert [e][1..] == [];
  }

  // Everything said is accounted for: nothing but what an overflow took is missing, and what it
  // took of the conversation left a mark.
  ghost predicate Accounted(all: seq<Event>, evicted: seq<Event>, lost: seq<Event>, said: seq<Event>) {
    && (lost == [] && evicted == [] ==> all == said)
    && (lost == [] ==> Conversation(all) == Conversation(said))
    && (lost != [] ==> Overflow in all)
    && multiset(Real(all)) + multiset(Real(lost)) + multiset(evicted) == multiset(said)
    && (forall i :: 0 <= i < |evicted| ==> IsMachinery(evicted[i]))
  }

  lemma SayingMore(all: seq<Event>, evicted: seq<Event>, lost: seq<Event>, said: seq<Event>, e: Event)
    requires Accounted(all, evicted, lost, said) && e != Overflow
    ensures Accounted(all + [e], evicted, lost, said + [e])
  {
    Splits(all, [e]);
    Splits(said, [e]);
    Single(e);
  }

  lemma TalkWithout(a: seq<Event>, b: seq<Event>, c: seq<Event>)
    requires Conversation(b) == []
    ensures Conversation(a + b + c) == Conversation(a + c)
  {
    Splits(a + b, c);
    Splits(a, b);
    Splits(a, c);
    assert Conversation(a) + [] == Conversation(a);
  }

  lemma RealWithout(a: seq<Event>, b: seq<Event>, c: seq<Event>)
    ensures multiset(Real(a + b + c)) == multiset(Real(a + c)) + multiset(Real(b))
  {
    Splits(a + b, c);
    Splits(a, b);
    Splits(a, c);
  }

  lemma StillMarked(before: seq<Event>, e: Event, after: seq<Event>)
    requires Overflow in before + [e] + after && e != Overflow
    ensures Overflow in before + after
  {
    assert Overflow in before || Overflow in after;
  }

  lemma EvictedCounts(all: multiset<Event>, left: multiset<Event>, lost: multiset<Event>, evicted: seq<Event>, e: Event)
    requires all == left + multiset([e])
    ensures left + lost + multiset(evicted + [e]) == all + lost + multiset(evicted)
  {
    assert multiset(evicted + [e]) == multiset(evicted) + multiset([e]);
  }

  lemma AllMachinery(evicted: seq<Event>, e: Event)
    requires (forall i :: 0 <= i < |evicted| ==> IsMachinery(evicted[i])) && IsMachinery(e)
    ensures forall i :: 0 <= i < |evicted + [e]| ==> IsMachinery((evicted + [e])[i])
  {}

  lemma Evicting(before: seq<Event>, e: Event, after: seq<Event>, evicted: seq<Event>, lost: seq<Event>,
                 said: seq<Event>)
    requires Accounted(before + [e] + after, evicted, lost, said) && IsMachinery(e)
    ensures Accounted(before + after, evicted + [e], lost, said)
  {
    Single(e);
    TalkWithout(before, [e], after);
    RealWithout(before, [e], after);
    EvictedCounts(multiset(Real(before + [e] + after)), multiset(Real(before + after)), multiset(Real(lost)), evicted,
                  e);
    AllMachinery(evicted, e);
    if lost != [] { StillMarked(before, e, after); }
    assert |evicted + [e]| > 0;
  }

  lemma MarkIsNotReal(all: seq<Event>)
    ensures Real(all + [Overflow]) == Real(all)
  {
    Splits(all, [Overflow]);
    Single(Overflow);
  }

  lemma LostCounts(all: multiset<Event>, left: multiset<Event>, lost: seq<Event>, e: seq<Event>,
                   evicted: multiset<Event>)
    requires all == left + multiset(e)
    ensures left + multiset(lost + e) + evicted == all + multiset(lost) + evicted
  {
    assert multiset(lost + e) == multiset(lost) + multiset(e);
  }

  lemma Losing(before: seq<Event>, e: Event, after: seq<Event>, evicted: seq<Event>, lost: seq<Event>,
               said: seq<Event>)
    requires Accounted(before + [e] + after, evicted, lost, said)
    ensures Accounted(before + after + [Overflow], evicted, lost + [e], said)
  {
    RealWithout(before, [e], after);
    MarkIsNotReal(before + after);
    Splits(lost, [e]);
    LostCounts(multiset(Real(before + [e] + after)), multiset(Real(before + after)), Real(lost), Real([e]),
               multiset(evicted));
    assert (before + after + [Overflow])[|before + after|] == Overflow && |lost + [e]| > 0;
  }

  lemma TakingOut(before: seq<Event>, b: seq<Event>, i: nat)
    requires i < |b|
    ensures before + b == (before + b[..i]) + [b[i]] + b[i + 1..]
    ensures before + (b[..i] + b[i + 1..]) == (before + b[..i]) + b[i + 1..]
  {}

  lemma MarkingLoss(before: seq<Event>, b: seq<Event>)
    requires b != []
    ensures before + b == before + [b[0]] + b[1..]
    ensures before + (b[1..] + [Overflow]) == before + b[1..] + [Overflow]
  {}

  lemma FittingAccounts(q: Queue, before: seq<Event>, said: seq<Event>)
    requires Accounted(before + q.buffered, q.evicted, q.lost, said)
    ensures Accounted(before + q.Fitted().buffered, q.Fitted().evicted, q.Fitted().lost, said)
  {
    var b := q.buffered;
    if |b| > MAX_BUFFERED_EVENTS {
      var i := FirstDroppable(b);
      if i < |b| {
        TakingOut(before, b, i);
        Evicting(before + b[..i], b[i], b[i + 1..], q.evicted, q.lost, said);
      } else {
        MarkingLoss(before, b);
        Losing(before, b[0], b[1..], q.evicted, q.lost, said);
      }
    }
  }

  lemma PushingWakes(q: Queue, taken: seq<Event>, e: Event)
    requires Calm(q) && !q.closed && q.waiting.Some? && e != Closed
    ensures Calm(q.Pushed(e)) && taken + InFlight(q.Pushed(e)) == taken + InFlight(q) + [e]
  {
    WakingSnoc(q.wakes, Wake(q.waiting.value, Got(e)));
  }

  lemma PushingBuffers(q: Queue, taken: seq<Event>, e: Event)
    requires Calm(q) && !q.closed && q.waiting == None && e != Closed
    ensures Calm(q.Pushed(e))
    ensures taken + InFlight(q) + [e] == (taken + Waking(q.wakes)) + (q.buffered + [e])
    ensures taken + InFlight(q.Pushed(e)) == (taken + Waking(q.wakes)) + q.Pushed(e).buffered
  {
    var fitted, wakes := q.Pushed(e), Waking(q.wakes);
    assert fitted.wakes == q.wakes;
    Regroup(taken, wakes, q.buffered + [e]);
    Regroup(taken, wakes, fitted.buffered);
    assert wakes + q.buffered + [e] == wakes + (q.buffered + [e]);
    FittingIsCalm(q.buffered + [e], q);
  }

  lemma Regroup(a: seq<Event>, b: seq<Event>, c: seq<Event>)
    ensures a + (b + c) == (a + b) + c
  {}

  lemma FittingIsCalm(events: seq<Event>, q: Queue)
    requires forall i :: 0 <= i < |events| ==> events[i] != Closed
    ensures var left := q.(buffered := events).Fitted().buffered;
            forall i :: 0 <= i < |left| ==> left[i] != Closed
  {}

  lemma PushingAccounts(q: Queue, taken: seq<Event>, said: seq<Event>, e: Event)
    requires Calm(q) && !q.closed && e != Overflow && e != Closed
    requires Accounted(taken + InFlight(q), q.evicted, q.lost, said)
    ensures var p := q.Pushed(e);
            Calm(p) && Accounted(taken + InFlight(p), p.evicted, p.lost, said + [e])
  {
    SayingMore(taken + InFlight(q), q.evicted, q.lost, said, e);
    if q.waiting.Some? {
      PushingWakes(q, taken, e);
    } else {
      PushingBuffers(q, taken, e);
      FittingAccounts(q.(buffered := q.buffered + [e]), taken + Waking(q.wakes), said + [e]);
    }
  }
}
