// Turns and idle drains sharing a session's event queue, in every order the event loop allows.

module SessionTurns {
  import opened Common
  import opened EventQueues

  // A reader waits for its promise, holds an event its consumer has not come back from, or is gone.
  datatype State = Waiting | Holding(event: Event) | Gone
  datatype Reader = Reader(turn: bool, state: State)

  // An event handed to a reader, and whether that reader was a turn.
  datatype Taken = Taken(event: Event, byTurn: bool)

  // Reader number `c` is at `c - 1`. `pending` are the prompts whose answer has not come.
  datatype Session = Session(queue: Queue, readers: seq<Reader>, taken: seq<Taken>, pushed: seq<Event>,
                             active: bool, epoch: nat, pending: set<nat>)
  {
    predicate Names(c: nat) { 1 <= c <= |readers| }

    function ReaderOf(c: nat): Reader
      requires Names(c)
    {
      readers[c - 1]
    }

    function Put(c: nat, state: State): Session
      requires Names(c)
    {
      this.(readers := readers[c - 1 := readers[c - 1].(state := state)])
    }

    predicate IsTurn(c: nat) { Names(c) && ReaderOf(c).turn && ReaderOf(c).state != Gone }
  }

  const FRESH: Session := Session(EMPTY, [], [], [], false, 0, {})

  datatype Step =
    | Says(said: Said)
    | Prompt
    | Answered(epoch: nat)
    | Abandon
    | Drain
    | Deliver
    | Resume(claim: nat)
    | Break(claim: nat)
    | Close

  predicate EndsTurn(e: Event) { e.Ending? || e == Overflow || e == Closed || (e.Agent? && e.said.Trouble?) }

  function Pushing(s: Session, e: Event): Session {
    s.(queue := s.queue.Pushed(e), pushed := if s.queue.closed then s.pushed else s.pushed + [e])
  }

  // A new reader's claim, followed at once by its first question.
  function Claiming(s: Session, turn: bool): Session {
    var claimed := if turn then s.queue.ClaimedForTurn() else s.queue.HandedOver();
    s.(queue := claimed.Asked(claimed.reader), readers := s.readers + [Reader(turn, Waiting)])
  }

  // A turn's generator finishing: its release runs on the way out.
  function Leaving(s: Session, c: nat): Session
    requires s.Names(c)
  {
    s.Put(c, Gone).(queue := s.queue.Released(c))
  }

  function Asking(s: Session, c: nat): Session
    requires s.Names(c)
  {
    s.Put(c, Waiting).(queue := s.queue.Asked(c))
  }

  // A reader running with what its promise was resolved with.
  function Running(s: Session, c: nat, answer: Answer): Session
    requires s.Names(c)
  {
    var turn := s.ReaderOf(c).turn;
    if answer == Displaced then if turn then Leaving(s, c) else s.Put(c, Gone)
    else
      var kept := if answer.event == Closed then s else s.(taken := s.taken + [Taken(answer.event, turn)]);
      if turn then kept.Put(c, Holding(answer.event))
      else if answer.event == Closed then kept.Put(c, Gone)
      else Asking(kept, c)
  }

  function Delivered(s: Session): Session {
    if s.queue.wakes == [] then s
    else
      var w := s.queue.wakes[0];
      var rest := s.(queue := s.queue.(wakes := s.queue.wakes[1..]));
      if !s.Names(w.claim) then rest else Running(rest, w.claim, w.answer)
  }

  function Next(s: Session, step: Step): Session {
    match step
    case Says(said) => Pushing(s, Agent(said))
    case Prompt =>
      if s.active then s
      else if s.queue.turnHolds then s.(active := true)
      else Claiming(s.(active := true, epoch := s.epoch + 1, pending := s.pending + {s.epoch + 1}), true)
    case Answered(epoch) =>
      if epoch !in s.pending then s
      else
        var heard := s.(pending := s.pending - {epoch});
        if s.epoch != epoch then heard else Pushing(heard.(active := false), Ending(epoch))
    case Abandon =>
      if !s.active then s
      else Pushing(s.(epoch := s.epoch + 1, active := false), Ending(s.epoch))
    case Drain => if s.queue.turnHolds then s else Claiming(s, false)
    case Deliver => Delivered(s)
    case Resume(c) =>
      if !s.IsTurn(c) || !s.ReaderOf(c).state.Holding? then s
      else if EndsTurn(s.ReaderOf(c).state.event) then Leaving(s, c)
      else Asking(s, c)
    case Break(c) => if !s.IsTurn(c) || !s.ReaderOf(c).state.Holding? then s else Leaving(s, c)
    case Close => s.(queue := s.queue.Shut())
  }

  function After(s: Session, steps: seq<Step>): Session
    decreases |steps|
  {
    if steps == [] then s else After(Next(s, steps[0]), steps[1..])
  }

  function Events(taken: seq<Taken>): seq<Event> {
    if taken == [] then [] else [taken[0].event] + Events(taken[1..])
  }

  // What reaches the log: everything a turn reads, and the conversation out of turn.
  function Recorded(taken: seq<Taken>): seq<Event> {
    if taken == [] then []
    else (if taken[0].byTurn || !Droppable(taken[0].event) then [taken[0].event] else []) + Recorded(taken[1..])
  }

  lemma {:induction false} EventsSnoc(taken: seq<Taken>, t: Taken)
    ensures Events(taken + [t]) == Events(taken) + [t.event]
  {
    if taken == [] {
      assert taken + [t] == [t] && [t][1..] == [];
    } else {
      assert (taken + [t])[1..] == taken[1..] + [t];
      EventsSnoc(taken[1..], t);
    }
  }

  // ---- every event is accounted for ----

  ghost predicate Flows(q: Queue, taken: seq<Taken>, pushed: seq<Event>) {
    Calm(q) && Accounted(Events(taken) + InFlight(q), q.evicted, q.lost, pushed)
  }

  lemma PushFlows(q: Queue, taken: seq<Taken>, pushed: seq<Event>, e: Event)
    requires Flows(q, taken, pushed) && e != Overflow && e != Closed
    ensures Flows(q.Pushed(e), taken, if q.closed then pushed else pushed + [e])
  {
    if !q.closed { PushingAccounts(q, Events(taken), pushed, e); }
  }

  lemma AskFlows(q: Queue, taken: seq<Taken>, pushed: seq<Event>, c: nat)
    requires Flows(q, taken, pushed)
    ensures Flows(q.Asked(c), taken, pushed)
  {
    AskingMovesNothing(q, c);
  }

  lemma ClaimFlows(q: Queue, taken: seq<Taken>, pushed: seq<Event>, turn: bool)
    requires Flows(q, taken, pushed)
    ensures var claimed := if turn then q.ClaimedForTurn() else q.HandedOver();
            Flows(claimed.Asked(claimed.reader), taken, pushed)
  {
    HandoverMovesNothing(q);
    var claimed := if turn then q.ClaimedForTurn() else q.HandedOver();
    assert InFlight(claimed) == InFlight(q);
    AskFlows(claimed, taken, pushed, claimed.reader);
  }

  lemma ReleaseFlows(q: Queue, taken: seq<Taken>, pushed: seq<Event>, c: nat)
    requires Flows(q, taken, pushed)
    ensures Flows(q.Released(c), taken, pushed)
  {
    assert InFlight(q.Released(c)) == InFlight(q);
  }

  lemma ShutFlows(q: Queue, taken: seq<Taken>, pushed: seq<Event>)
    requires Flows(q, taken, pushed)
    ensures Flows(q.Shut(), taken, pushed)
  {
    ClosingMovesNothing(q);
  }

  lemma TakeMoves(q: Queue, taken: seq<Taken>, w: Wake, turn: bool)
    requires q.wakes != [] && w == q.wakes[0] && w.answer.Got? && w.answer.event != Closed
    ensures Events(taken + [Taken(w.answer.event, turn)]) + InFlight(q.(wakes := q.wakes[1..]))
            == Events(taken) + InFlight(q)
  {
    EventsSnoc(taken, Taken(w.answer.event, turn));
    assert InFlight(q) == [w.answer.event] + InFlight(q.(wakes := q.wakes[1..]));
  }

  lemma TakeFlows(q: Queue, taken: seq<Taken>, pushed: seq<Event>, turn: bool)
    requires Flows(q, taken, pushed) && q.wakes != []
    requires q.wakes[0].answer.Got? && q.wakes[0].answer.event != Closed
    ensures Flows(q.(wakes := q.wakes[1..]), taken + [Taken(q.wakes[0].answer.event, turn)], pushed)
  {
    TakeMoves(q, taken, q.wakes[0], turn);
  }

  lemma SkipMoves(q: Queue)
    requires q.wakes != [] && EventOf(q.wakes[0].answer) == []
    ensures InFlight(q.(wakes := q.wakes[1..])) == InFlight(q)
  {
    var later := Waking(q.wakes[1..]);
    assert Waking(q.wakes) == [] + later == later;
  }

  lemma SkipFlows(q: Queue, taken: seq<Taken>, pushed: seq<Event>)
    requires Flows(q, taken, pushed) && q.wakes != [] && EventOf(q.wakes[0].answer) == []
    ensures Flows(q.(wakes := q.wakes[1..]), taken, pushed)
  {
    SkipMoves(q);
  }

  // ---- whose promise it is ----

  function Count(wakes: seq<Wake>, c: nat): nat {
    if wakes == [] then 0 else (if wakes[0].claim == c then 1 else 0) + Count(wakes[1..], c)
  }

  // How many promises made to reader `c` are unresolved, or resolved and not yet delivered.
  function Promises(q: Queue, c: nat): nat {
    Count(q.wakes, c) + (if q.waiting == Some(c) then 1 else 0)
  }

  lemma {:induction false} CountSnoc(wakes: seq<Wake>, w: Wake, c: nat)
    ensures Count(wakes + [w], c) == Count(wakes, c) + (if w.claim == c then 1 else 0)
  {
    if wakes == [] {
      assert wakes + [w] == [w] && [w][1..] == [];
    } else {
      assert (wakes + [w])[1..] == wakes[1..] + [w];
      CountSnoc(wakes[1..], w, c);
    }
  }

  lemma PushPromises(q: Queue, e: Event, c: nat)
    ensures Promises(q.Pushed(e), c) == Promises(q, c)
  {
    if q.waiting.Some? { CountSnoc(q.wakes, Wake(q.waiting.value, Got(e)), c); }
  }

  lemma HandoverPromises(q: Queue, c: nat)
    ensures Promises(q.HandedOver(), c) == Promises(q, c)
  {
    if q.waiting.Some? { CountSnoc(q.wakes, Wake(q.waiting.value, Displaced), c); }
  }

  lemma ShutPromises(q: Queue, c: nat)
    ensures Promises(q.Shut(), c) == Promises(q, c)
  {
    if q.waiting.Some? { CountSnoc(q.wakes, Wake(q.waiting.value, Got(Closed)), c); }
  }

  lemma AskPromises(q: Queue, claim: nat, c: nat)
    requires Calm(q) && Promises(q, claim) == 0
    ensures Promises(q.Asked(claim), c) == Promises(q, c) + (if c == claim then 1 else 0)
  {
    if claim != q.reader {
      CountSnoc(q.wakes, Wake(claim, Displaced), c);
    } else if q.buffered != [] {
      CountSnoc(q.wakes, Wake(claim, Got(q.buffered[0])), c);
    } else if q.closed {
      CountSnoc(q.wakes, Wake(claim, Got(Closed)), c);
    }
  }

  predicate Waits(readers: seq<Reader>, c: nat) { 1 <= c <= |readers| && readers[c - 1].state == Waiting }

  // Every waiting reader has exactly one promise, so none is left hanging; nobody else has any.
  ghost predicate OnePromiseEach(q: Queue, readers: seq<Reader>) {
    forall c: nat :: Promises(q, c) == if Waits(readers, c) then 1 else 0
  }

  lemma PushOwns(q: Queue, e: Event, readers: seq<Reader>)
    requires OnePromiseEach(q, readers)
    ensures OnePromiseEach(q.Pushed(e), readers)
  {
    forall c: nat ensures Promises(q.Pushed(e), c) == Promises(q, c) { PushPromises(q, e, c); }
  }

  lemma ShutOwns(q: Queue, readers: seq<Reader>)
    requires OnePromiseEach(q, readers)
    ensures OnePromiseEach(q.Shut(), readers)
  {
    forall c: nat ensures Promises(q.Shut(), c) == Promises(q, c) { ShutPromises(q, c); }
  }

  // A reader that had no promise asks for one, and waits for it.
  lemma AskOwns(q: Queue, readers: seq<Reader>, claim: nat, next: seq<Reader>)
    requires Calm(q) && OnePromiseEach(q, readers) && !Waits(readers, claim) && Waits(next, claim)
    requires forall c: nat :: c != claim ==> (Waits(next, c) <==> Waits(readers, c))
    ensures OnePromiseEach(q.Asked(claim), next)
  {
    assert Promises(q, claim) == 0;
    forall c: nat ensures Promises(q.Asked(claim), c) == if Waits(next, c) then 1 else 0 {
      AskPromises(q, claim, c);
    }
  }

  lemma ClaimOwns(q: Queue, readers: seq<Reader>, turn: bool)
    requires Calm(q) && OnePromiseEach(q, readers) && q.reader == |readers|
    ensures var claimed := if turn then q.ClaimedForTurn() else q.HandedOver();
            OnePromiseEach(claimed.Asked(claimed.reader), readers + [Reader(turn, Waiting)])
  {
    var claimed := if turn then q.ClaimedForTurn() else q.HandedOver();
    HandoverMovesNothing(q);
    forall c: nat ensures Promises(claimed, c) == Promises(q, c) {
      HandoverPromises(q, c);
      assert claimed.wakes == q.HandedOver().wakes && claimed.waiting == q.HandedOver().waiting;
    }
    AskOwns(claimed, readers, claimed.reader, readers + [Reader(turn, Waiting)]);
  }

  // Delivering a promise takes it from its reader, who no longer waits.
  lemma DeliveryOwns(q: Queue, readers: seq<Reader>, state: State)
    requires OnePromiseEach(q, readers) && q.wakes != [] && state != Waiting
    ensures var c := q.wakes[0].claim;
            Waits(readers, c)
            && OnePromiseEach(q.(wakes := q.wakes[1..]), readers[c - 1 := readers[c - 1].(state := state)])
  {
    var claim := q.wakes[0].claim;
    assert Promises(q, claim) > 0;
    var rest, next := q.(wakes := q.wakes[1..]), readers[claim - 1 := readers[claim - 1].(state := state)];
    forall c: nat ensures Promises(rest, c) == if Waits(next, c) then 1 else 0 {
      assert Promises(rest, c) == Promises(q, c) - (if c == claim then 1 else 0);
    }
  }

  lemma LeaveOwns(q: Queue, readers: seq<Reader>, c: nat)
    requires OnePromiseEach(q, readers) && 1 <= c <= |readers| && readers[c - 1].state != Waiting
    ensures OnePromiseEach(q.Released(c), readers[c - 1 := readers[c - 1].(state := Gone)])
  {
    var next := readers[c - 1 := readers[c - 1].(state := Gone)];
    forall d: nat ensures Promises(q.Released(c), d) == if Waits(next, d) then 1 else 0 {
      assert Promises(q.Released(c), d) == Promises(q, d);
    }
  }

  // ---- who holds the queue ----

  predicate TurnAt(readers: seq<Reader>, c: nat) {
    1 <= c <= |readers| && readers[c - 1].turn && readers[c - 1].state != Gone
  }

  // A live turn is the current reader, the queue is held exactly while there is one, and no turn
  // is ever told that it has been displaced.
  ghost predicate OneTurn(q: Queue, readers: seq<Reader>) {
    && q.reader == |readers|
    && (forall c: nat :: TurnAt(readers, c) ==> c == q.reader && q.turnHolds)
    && (q.turnHolds ==> TurnAt(readers, q.reader))
    && NoTurnDisplaced(q.wakes, readers)
  }

  ghost predicate NoTurnDisplaced(wakes: seq<Wake>, readers: seq<Reader>) {
    forall i :: 0 <= i < |wakes| && wakes[i].answer == Displaced ==>
      wakes[i].claim <= |readers| && !TurnAt(readers, wakes[i].claim)
  }

  ghost predicate Inv(s: Session) {
    && Flows(s.queue, s.taken, s.pushed)
    && OnePromiseEach(s.queue, s.readers)
    && OneTurn(s.queue, s.readers)
  }

  lemma PushTurns(q: Queue, e: Event, readers: seq<Reader>)
    requires OneTurn(q, readers)
    ensures OneTurn(q.Pushed(e), readers)
  {
    var p := q.Pushed(e);
    assert p.reader == q.reader && p.turnHolds == q.turnHolds;
    assert NoTurnDisplaced(p.wakes, readers);
  }

  lemma PushKeeps(s: Session, e: Event)
    requires Inv(s) && e != Overflow && e != Closed
    ensures Inv(Pushing(s, e))
  {
    PushFlows(s.queue, s.taken, s.pushed, e);
    PushOwns(s.queue, e, s.readers);
    PushTurns(s.queue, e, s.readers);
  }

  lemma ShutKeeps(s: Session)
    requires Inv(s)
    ensures Inv(s.(queue := s.queue.Shut()))
  {
    ShutFlows(s.queue, s.taken, s.pushed);
    ShutOwns(s.queue, s.readers);
    ShutTurns(s.queue, s.readers);
  }

  lemma ShutTurns(q: Queue, readers: seq<Reader>)
    requires OneTurn(q, readers)
    ensures OneTurn(q.Shut(), readers)
  {
    assert NoTurnDisplaced(q.Shut().wakes, readers);
  }

  lemma ClaimTurns(q: Queue, readers: seq<Reader>, turn: bool)
    requires OneTurn(q, readers) && Calm(q) && !q.turnHolds
    ensures var claimed := if turn then q.ClaimedForTurn() else q.HandedOver();
            OneTurn(claimed.Asked(claimed.reader), readers + [Reader(turn, Waiting)])
  {
    var next := readers + [Reader(turn, Waiting)];
    forall c: nat | TurnAt(next, c) ensures c == |next| && turn {
      assert c <= |readers| ==> TurnAt(readers, c);
    }
    assert !TurnAt(readers, |readers|);
    forall c: nat | c <= |readers| && !TurnAt(readers, c) ensures !TurnAt(next, c) {}
  }

  lemma ClaimKeeps(s: Session, turn: bool)
    requires Inv(s) && !s.queue.turnHolds
    ensures Inv(Claiming(s, turn))
  {
    ClaimFlows(s.queue, s.taken, s.pushed, turn);
    ClaimOwns(s.queue, s.readers, turn);
    ClaimTurns(s.queue, s.readers, turn);
  }

  // A turn that leaves lets go of the queue, and one that is not there changes nothing.
  lemma LeaveTurns(q: Queue, readers: seq<Reader>, c: nat)
    requires OneTurn(q, readers) && 1 <= c <= |readers|
    requires TurnAt(readers, c) || !q.turnHolds || c != q.reader
    ensures OneTurn(q.Released(c), readers[c - 1 := readers[c - 1].(state := Gone)])
  {
    var next := readers[c - 1 := readers[c - 1].(state := Gone)];
    forall d: nat ensures TurnAt(next, d) <==> TurnAt(readers, d) && d != c {}
  }

  lemma LeaveKeeps(s: Session, c: nat)
    requires Inv(s) && TurnAt(s.readers, c) && s.ReaderOf(c).state != Waiting
    ensures Inv(Leaving(s, c))
  {
    ReleaseFlows(s.queue, s.taken, s.pushed, c);
    LeaveOwns(s.queue, s.readers, c);
    LeaveTurns(s.queue, s.readers, c);
  }

  lemma AskTurns(q: Queue, readers: seq<Reader>, c: nat)
    requires OneTurn(q, readers) && 1 <= c <= |readers| && readers[c - 1].state.Holding?
    ensures OneTurn(q.Asked(c), readers[c - 1 := readers[c - 1].(state := Waiting)])
  {
    var next := readers[c - 1 := readers[c - 1].(state := Waiting)];
    forall d: nat ensures TurnAt(next, d) <==> TurnAt(readers, d) {}
  }

  lemma AskKeeps(s: Session, c: nat)
    requires Inv(s) && s.Names(c) && s.ReaderOf(c).state.Holding?
    ensures Inv(Asking(s, c))
  {
    AskFlows(s.queue, s.taken, s.pushed, c);
    AskOwns(s.queue, s.readers, c, Asking(s, c).readers);
    AskTurns(s.queue, s.readers, c);
  }

  // Taking the first promise off the list, its reader being left in `state`.
  function Delivering(s: Session, state: State): Session
    requires s.queue.wakes != [] && s.Names(s.queue.wakes[0].claim)
  {
    s.Put(s.queue.wakes[0].claim, state).(queue := s.queue.(wakes := s.queue.wakes[1..]))
  }

  lemma DeliverTurns(q: Queue, readers: seq<Reader>, state: State)
    requires OneTurn(q, readers) && q.wakes != [] && 1 <= q.wakes[0].claim <= |readers|
    requires var r := readers[q.wakes[0].claim - 1]; r.state == Waiting && (!r.turn || state != Gone)
    ensures var c := q.wakes[0].claim;
            OneTurn(q.(wakes := q.wakes[1..]), readers[c - 1 := readers[c - 1].(state := state)])
  {
    var c := q.wakes[0].claim;
    var next := readers[c - 1 := readers[c - 1].(state := state)];
    forall d: nat ensures TurnAt(next, d) <==> TurnAt(readers, d) {}
  }

  // A delivery finds its reader waiting, and never brings a turn word that it has been displaced.
  lemma DeliveryFindsItsReader(s: Session)
    requires Inv(s) && s.queue.wakes != []
    ensures s.Names(s.queue.wakes[0].claim) && s.ReaderOf(s.queue.wakes[0].claim).state == Waiting
    ensures s.ReaderOf(s.queue.wakes[0].claim).turn ==> s.queue.wakes[0].answer != Displaced
  {
    var w := s.queue.wakes[0];
    DeliveryOwns(s.queue, s.readers, Gone);
    assert Waits(s.readers, w.claim);
    if s.ReaderOf(w.claim).turn { assert TurnAt(s.readers, w.claim); }
  }

  // What a delivery hands its reader: an event, or word that there will be none.
  function Handed(s: Session, state: State): Session
    requires s.queue.wakes != [] && s.Names(s.queue.wakes[0].claim)
  {
    var (w, t) := (s.queue.wakes[0], Delivering(s, state));
    if EventOf(w.answer) == [] then t
    else t.(taken := s.taken + [Taken(w.answer.event, s.ReaderOf(w.claim).turn)])
  }

  lemma HandedFlows(s: Session, state: State)
    requires Flows(s.queue, s.taken, s.pushed) && s.queue.wakes != [] && s.Names(s.queue.wakes[0].claim)
    ensures var t := Handed(s, state); Flows(t.queue, t.taken, t.pushed)
  {
    if EventOf(s.queue.wakes[0].answer) == [] {
      SkipFlows(s.queue, s.taken, s.pushed);
    } else {
      TakeFlows(s.queue, s.taken, s.pushed, s.ReaderOf(s.queue.wakes[0].claim).turn);
    }
  }

  lemma HandedOwns(s: Session, state: State)
    requires OnePromiseEach(s.queue, s.readers) && s.queue.wakes != [] && state != Waiting
    requires s.Names(s.queue.wakes[0].claim)
    ensures OnePromiseEach(Handed(s, state).queue, Handed(s, state).readers)
  {
    DeliveryOwns(s.queue, s.readers, state);
  }

  lemma HandedTurns(s: Session, state: State)
    requires OneTurn(s.queue, s.readers) && s.queue.wakes != [] && s.Names(s.queue.wakes[0].claim)
    requires var r := s.ReaderOf(s.queue.wakes[0].claim); r.state == Waiting && (!r.turn || state != Gone)
    ensures OneTurn(Handed(s, state).queue, Handed(s, state).readers)
  {
    DeliverTurns(s.queue, s.readers, state);
  }

  lemma DeliveringKeeps(s: Session, state: State)
    requires Inv(s) && s.queue.wakes != [] && state != Waiting && s.Names(s.queue.wakes[0].claim)
    requires var r := s.ReaderOf(s.queue.wakes[0].claim); r.state == Waiting && (!r.turn || state != Gone)
    ensures Inv(Handed(s, state))
  {
    HandedFlows(s, state);
    HandedOwns(s, state);
    HandedTurns(s, state);
  }

  // A turn holds what it was handed; a drain goes on to its next question, or ends.
  lemma TurnIsHanded(s: Session, w: Wake)
    requires s.queue.wakes != [] && w == s.queue.wakes[0] && w.answer.Got?
    requires s.Names(w.claim) && s.ReaderOf(w.claim).turn
    ensures Delivered(s) == Handed(s, Holding(w.answer.event))
  {}

  lemma DrainIsHanded(s: Session, w: Wake)
    requires s.queue.wakes != [] && w == s.queue.wakes[0] && s.Names(w.claim) && !s.ReaderOf(w.claim).turn
    ensures EventOf(w.answer) == [] ==> Delivered(s) == Handed(s, Gone)
    ensures EventOf(w.answer) != [] ==> Delivered(s) == Asking(Handed(s, Holding(w.answer.event)), w.claim)
  {
    if EventOf(w.answer) != [] {
      var t := Handed(s, Holding(w.answer.event));
      assert Asking(t, w.claim).readers == Delivered(s).readers;
    }
  }

  lemma DrainTakes(s: Session, w: Wake)
    requires Inv(s) && s.queue.wakes != [] && w == s.queue.wakes[0] && EventOf(w.answer) != []
    requires s.Names(w.claim) && !s.ReaderOf(w.claim).turn
    ensures Inv(Delivered(s))
  {
    DeliveryFindsItsReader(s);
    DrainIsHanded(s, w);
    DeliveringKeeps(s, Holding(w.answer.event));
    AskKeeps(Handed(s, Holding(w.answer.event)), w.claim);
  }

  lemma TurnTakes(s: Session, w: Wake)
    requires Inv(s) && s.queue.wakes != [] && w == s.queue.wakes[0] && w.answer.Got?
    requires s.Names(w.claim) && s.ReaderOf(w.claim).turn
    ensures Inv(Delivered(s))
  {
    DeliveryFindsItsReader(s);
    TurnIsHanded(s, w);
    DeliveringKeeps(s, Holding(w.answer.event));
  }

  lemma DrainEnds(s: Session, w: Wake)
    requires Inv(s) && s.queue.wakes != [] && w == s.queue.wakes[0] && EventOf(w.answer) == []
    requires s.Names(w.claim) && !s.ReaderOf(w.claim).turn
    ensures Inv(Delivered(s))
  {
    DeliveryFindsItsReader(s);
    DrainIsHanded(s, w);
    DeliveringKeeps(s, Gone);
  }

  lemma DeliverKeeps(s: Session)
    requires Inv(s) && s.queue.wakes != []
    ensures Inv(Delivered(s))
  {
    var w := s.queue.wakes[0];
    DeliveryFindsItsReader(s);
    if s.ReaderOf(w.claim).turn {
      TurnTakes(s, w);
    } else if EventOf(w.answer) == [] {
      DrainEnds(s, w);
    } else {
      DrainTakes(s, w);
    }
  }

  // What is said of the queue, its readers and its events says nothing of the flag and the epochs.
  predicate SameFlow(s: Session, t: Session) {
    s.queue == t.queue && s.readers == t.readers && s.taken == t.taken && s.pushed == t.pushed
  }

  lemma PromptKeeps(s: Session)
    requires Inv(s)
    ensures Inv(Next(s, Prompt))
  {
    if s.active || s.queue.turnHolds {
      assert SameFlow(s, Next(s, Prompt));
    } else {
      var t := s.(active := true, epoch := s.epoch + 1, pending := s.pending + {s.epoch + 1});
      assert SameFlow(s, t) && Next(s, Prompt) == Claiming(t, true);
      ClaimKeeps(t, true);
    }
  }

  lemma AnsweredKeeps(s: Session, epoch: nat)
    requires Inv(s)
    ensures Inv(Next(s, Answered(epoch)))
  {
    if epoch !in s.pending || s.epoch != epoch {
      assert SameFlow(s, Next(s, Answered(epoch)));
    } else {
      var t := s.(pending := s.pending - {epoch}, active := false);
      assert SameFlow(s, t) && Next(s, Answered(epoch)) == Pushing(t, Ending(epoch));
      PushKeeps(t, Ending(epoch));
    }
  }

  lemma AbandonKeeps(s: Session)
    requires Inv(s)
    ensures Inv(Next(s, Abandon))
  {
    if s.active {
      var t := s.(epoch := s.epoch + 1, active := false);
      assert SameFlow(s, t) && Next(s, Abandon) == Pushing(t, Ending(s.epoch));
      PushKeeps(t, Ending(s.epoch));
    }
  }

  lemma ResumeKeeps(s: Session, c: nat)
    requires Inv(s)
    ensures Inv(Next(s, Resume(c))) && Inv(Next(s, Break(c)))
  {
    if s.IsTurn(c) && s.ReaderOf(c).state.Holding? {
      LeaveKeeps(s, c);
      AskKeeps(s, c);
    }
  }

  lemma StepKeeps(s: Session, step: Step)
    requires Inv(s)
    ensures Inv(Next(s, step))
  {
    match step
    case Says(said) => PushKeeps(s, Agent(said));
    case Prompt => PromptKeeps(s);
    case Answered(epoch) => AnsweredKeeps(s, epoch);
    case Abandon => AbandonKeeps(s);
    case Drain => if !s.queue.turnHolds { ClaimKeeps(s, false); }
    case Deliver => if s.queue.wakes != [] { DeliverKeeps(s); }
    case Resume(c) => ResumeKeeps(s, c);
    case Break(c) => ResumeKeeps(s, c);
    case Close => ShutKeeps(s);
  }

  lemma {:induction false} RunKeeps(s: Session, steps: seq<Step>)
    requires Inv(s)
    ensures Inv(After(s, steps))
    decreases |steps|
  {
    if steps != [] {
      StepKeeps(s, steps[0]);
      RunKeeps(Next(s, steps[0]), steps[1..]);
    }
  }

  // ---- over every run ----

  lemma {:induction false} RecordedConversation(taken: seq<Taken>)
    ensures Conversation(Recorded(taken)) == Conversation(Events(taken))
  {
    if taken != [] {
      var e, later := taken[0].event, taken[1..];
      RecordedConversation(later);
      Splits([e], Recorded(later));
      Splits([e], Events(later));
      Single(e);
      if !taken[0].byTurn && Droppable(e) { assert [] + Recorded(later) == Recorded(later); }
    }
  }

  lemma {:induction false} OverflowIsRecorded(taken: seq<Taken>)
    requires Overflow in Events(taken)
    ensures Overflow in Recorded(taken)
  {
    if taken[0].event != Overflow {
      assert Overflow in Events(taken[1..]);
      OverflowIsRecorded(taken[1..]);
    }
  }

  lemma FreshHolds()
    ensures Inv(FRESH)
  {
    forall c: nat ensures Promises(EMPTY, c) == 0 {}
  }

  lemma ConversationIsKept(taken: seq<Taken>, left: seq<Event>)
    ensures Conversation(Recorded(taken) + left) == Conversation(Events(taken) + left)
  {
    RecordedConversation(taken);
    Splits(Recorded(taken), left);
    Splits(Events(taken), left);
  }

  // However turns, drains, answers and deliveries interleave: unless the queue overflowed, what has
  // been taken and what is in flight are exactly what was pushed, in order. An overflow takes
  // machinery first, without touching the conversation; and when it had to take conversation, the
  // transcript says so.
  lemma EveryEventIsAccountedFor(steps: seq<Step>)
    ensures var s := After(FRESH, steps);
            var left := InFlight(s.queue);
            && (s.queue.lost == [] && s.queue.evicted == [] ==> Events(s.taken) + left == s.pushed)
            && (s.queue.lost == [] ==> Conversation(Recorded(s.taken) + left) == Conversation(s.pushed))
            && (s.queue.lost != [] ==> Overflow in Recorded(s.taken) + left)
            && multiset(Real(Events(s.taken) + left)) + multiset(Real(s.queue.lost)) + multiset(s.queue.evicted)
               == multiset(s.pushed)
  {
    FreshHolds();
    RunKeeps(FRESH, steps);
    var s := After(FRESH, steps);
    ConversationIsKept(s.taken, InFlight(s.queue));
    if s.queue.lost != [] && Overflow in Events(s.taken) { OverflowIsRecorded(s.taken); }
  }

  // Two turns never both read, none is ever displaced, a live turn always holds the queue, and
  // every reader that waits has exactly one promise coming.
  lemma TurnsNeverShareTheQueue(steps: seq<Step>)
    ensures var s := After(FRESH, steps);
            && (forall c, d: nat :: s.IsTurn(c) && s.IsTurn(d) ==> c == d)
            && (forall c: nat :: s.IsTurn(c) ==> s.queue.turnHolds && s.queue.reader == c)
            && (s.queue.turnHolds ==> s.IsTurn(s.queue.reader))
            && (forall i :: 0 <= i < |s.queue.wakes| && s.queue.wakes[i].answer == Displaced ==>
                  !s.IsTurn(s.queue.wakes[i].claim))
            && (forall c: nat :: s.Names(c) && s.ReaderOf(c).state == Waiting ==> Promises(s.queue, c) == 1)
  {
    FreshHolds();
    RunKeeps(FRESH, steps);
    var s := After(FRESH, steps);
    forall c: nat | s.IsTurn(c) ensures TurnAt(s.readers, c) {}
    forall i | 0 <= i < |s.queue.wakes| && s.queue.wakes[i].answer == Displaced
      ensures !s.IsTurn(s.queue.wakes[i].claim)
    {
      assert !TurnAt(s.readers, s.queue.wakes[i].claim);
    }
    forall c: nat | s.Names(c) && s.ReaderOf(c).state == Waiting ensures Promises(s.queue, c) == 1 {
      assert Waits(s.readers, c);
    }
  }

  // ---- when a turn ends ----

  // A turn that comes back from its own ending, from an error, from the mark of a loss or from a closed
  // queue is gone and has let go of the queue; from anything else it reads on and keeps it.
  lemma ATurnEndsExactly(s: Session, c: nat)
    requires Inv(s) && s.IsTurn(c) && s.ReaderOf(c).state.Holding?
    ensures var t := Next(s, Resume(c));
            match s.ReaderOf(c).state.event
            case Ending(_) => LetGo(t, c)
            case Overflow => LetGo(t, c)
            case Closed => LetGo(t, c)
            case Agent(Trouble(_)) => LetGo(t, c)
            case Agent(_) => ReadsOn(s, t, c)
  {
    LeavingLetsGo(s.queue, s.readers, c);
    AskingHolds(s.queue, s.readers, c);
    var t := Next(s, Resume(c));
    assert t == Leaving(s, c) || t == Asking(s, c);
  }

  lemma LeavingLetsGo(q: Queue, readers: seq<Reader>, c: nat)
    requires OneTurn(q, readers) && TurnAt(readers, c)
    ensures var next := readers[c - 1 := readers[c - 1].(state := Gone)];
            !q.Released(c).turnHolds && forall d: nat :: !TurnAt(next, d)
  {
    LeaveTurns(q, readers, c);
  }

  lemma AskingHolds(q: Queue, readers: seq<Reader>, c: nat)
    requires OneTurn(q, readers) && TurnAt(readers, c)
    ensures q.Asked(c).turnHolds
  {}

  ghost predicate LetGo(t: Session, c: nat) {
    && t.Names(c) && t.ReaderOf(c).state == Gone && !t.queue.turnHolds
    && forall d: nat :: !TurnAt(t.readers, d)
  }

  predicate ReadsOn(s: Session, t: Session, c: nat) {
    && t.Names(c) && t.ReaderOf(c).turn && t.ReaderOf(c).state == Waiting
    && t.queue.turnHolds && t.queue == s.queue.Asked(c)
  }

  // In every reachable state.
  lemma {:induction false} EveryTurnEndsExactly(steps: seq<Step>, c: nat)
    requires var s := After(FRESH, steps); s.IsTurn(c) && s.ReaderOf(c).state.Holding?
    ensures var s := After(FRESH, steps);
            var t := Next(s, Resume(c));
            match s.ReaderOf(c).state.event
            case Agent(said) => if said.Trouble? then LetGo(t, c) else ReadsOn(s, t, c)
            case _ => LetGo(t, c)
  {
    FreshHolds();
    RunKeeps(FRESH, steps);
    ATurnEndsExactly(After(FRESH, steps), c);
  }

  // So an ordinary prompt, answered, delivered and read to its end, leaves the queue free and the next
  // prompt is taken.
  lemma AnOrdinaryTurnLetsTheNextIn()
    ensures var s := After(FRESH, [Prompt, Answered(1), Deliver, Resume(1)]);
            var t := Next(s, Prompt);
            && !s.queue.turnHolds && !s.active && s.pending == {} && s.taken == [Taken(Ending(1), true)]
            && t.active && t.queue.turnHolds && t.epoch == 2 && t.pending == {2} && t.IsTurn(2)
  {
    var s1 := Next(FRESH, Prompt);
    assert s1.queue.waiting == Some(1) && s1.pending == {1};
    var s2 := Next(s1, Answered(1));
    assert s2.queue.wakes == [Wake(1, Got(Ending(1)))] && s2.pending == {};
    var s3 := Next(s2, Deliver);
    assert s3.readers == [Reader(true, Holding(Ending(1)))] && s3.queue.wakes == [];
    var s4 := Next(s3, Resume(1));
    assert s4.readers == [Reader(true, Gone)] && !s4.queue.turnHolds;
    AfterFour(FRESH, Prompt, Answered(1), Deliver, Resume(1));
    assert s4.queue.HandedOver().waiting == None;
  }

  lemma AfterFour(s: Session, a: Step, b: Step, c: Step, d: Step)
    ensures After(s, [a, b, c, d]) == Next(Next(Next(Next(s, a), b), c), d)
  {
    assert [a, b, c, d][1..] == [b, c, d] && [b, c, d][1..] == [c, d] && [c, d][1..] == [d] && [d][1..] == [];
    assert After(Next(Next(Next(s, a), b), c), [d]) == After(Next(Next(Next(Next(s, a), b), c), d), []);
    assert After(Next(Next(s, a), b), [c, d]) == After(Next(Next(Next(s, a), b), c), [d]);
  }

  // ---- the flag that a prompt is in flight ----

  ghost predicate Sound(s: Session) {
    && (s.active <==> s.epoch in s.pending)
    && (forall n :: n in s.pending ==> n <= s.epoch)
  }

  // A prompt that finds the queue held is refused, and leaves the flag up with nothing to take it
  // down: that, and nothing else, breaks the flag.
  lemma OnlyARefusedPromptSticks(s: Session, step: Step)
    requires Sound(s)
    ensures Sound(Next(s, step)) <==> !(step == Prompt && !s.active && s.queue.turnHolds)
  {
    match step
    case Says(_) =>
    case Prompt =>
    case Answered(_) =>
    case Abandon =>
    case Drain =>
    case Deliver => DeliverLeavesTheFlag(s);
    case Resume(_) =>
    case Break(_) =>
    case Close =>
  }

  lemma DeliverLeavesTheFlag(s: Session)
    ensures var t := Delivered(s); t.active == s.active && t.epoch == s.epoch && t.pending == s.pending
    ensures Delivered(s).pushed == s.pushed
  {}

  ghost predicate Stuck(s: Session) { s.active && s.epoch !in s.pending }

  // From then on every prompt is refused, whatever else happens, until a turn is abandoned.
  lemma StuckStays(s: Session, step: Step)
    requires Stuck(s) && step != Abandon
    ensures Stuck(Next(s, step)) && Next(s, step).epoch == s.epoch && (step == Prompt ==> Next(s, step) == s)
  {
    if step == Deliver { DeliverLeavesTheFlag(s); }
  }

  // It can happen: a turn's consumer is still busy with an event when the answer comes, and the
  // next prompt is sent before that consumer comes back.
  lemma StuckIsReachable()
    ensures Stuck(Next(Next(Next(Next(Next(FRESH, Prompt), Says(Words(0))), Deliver), Answered(1)), Prompt))
  {
    var s1 := Next(FRESH, Prompt);
    assert s1.queue.waiting == Some(1) && s1.pending == {1};
    var s2 := Next(s1, Says(Words(0)));
    assert s2.queue.wakes == [Wake(1, Got(Agent(Words(0))))];
    var s3 := Next(s2, Deliver);
    assert s3.queue.turnHolds && s3.active && s3.epoch == 1 && s3.pending == {1};
    var s4 := Next(s3, Answered(1));
    assert !s4.active && s4.queue.turnHolds && s4.pending == {};
  }

  // ---- one ending for each prompt ----

  function Endings(events: seq<Event>, n: nat): nat {
    if events == [] then 0 else (if events[0] == Ending(n) then 1 else 0) + Endings(events[1..], n)
  }

  lemma {:induction false} EndingsSnoc(events: seq<Event>, e: Event, n: nat)
    ensures Endings(events + [e], n) == Endings(events, n) + (if e == Ending(n) then 1 else 0)
  {
    if events == [] {
      assert events + [e] == [e] && [e][1..] == [];
    } else {
      assert (events + [e])[1..] == events[1..] + [e];
      EndingsSnoc(events[1..], e, n);
    }
  }

  ghost predicate EndedOnce(s: Session) {
    forall n: nat :: Endings(s.pushed, n) <= if n > s.epoch || (n == s.epoch && s.active) then 0 else 1
  }

  lemma PushEnding(s: Session, e: Event, n: nat)
    ensures Endings(Pushing(s, e).pushed, n) <= Endings(s.pushed, n) + (if e == Ending(n) then 1 else 0)
  {
    EndingsSnoc(s.pushed, e, n);
  }

  lemma StepEndsOnce(s: Session, step: Step)
    requires Sound(s) && EndedOnce(s) && !(step == Prompt && !s.active && s.queue.turnHolds)
    ensures EndedOnce(Next(s, step))
  {
    var t := Next(s, step);
    forall n: nat ensures Endings(t.pushed, n) <= if n > t.epoch || (n == t.epoch && t.active) then 0 else 1 {
      assert Endings(s.pushed, n) <= if n > s.epoch || (n == s.epoch && s.active) then 0 else 1;
      match step
      case Says(said) => PushEnding(s, Agent(said), n);
      case Prompt =>
      case Answered(epoch) =>
        if epoch in s.pending && s.epoch == epoch {
          PushEnding(s.(pending := s.pending - {epoch}, active := false), Ending(epoch), n);
        }
      case Abandon => if s.active { PushEnding(s.(epoch := s.epoch + 1, active := false), Ending(s.epoch), n); }
      case Drain =>
      case Deliver => DeliverLeavesTheFlag(s);
      case Resume(_) =>
      case Break(_) =>
      case Close =>
    }
  }

  // The daemon's own discipline: it sends no prompt while a turn still holds the queue.
  ghost predicate Managed(s: Session, steps: seq<Step>)
    decreases |steps|
  {
    steps == [] || (!(steps[0] == Prompt && !s.active && s.queue.turnHolds) && Managed(Next(s, steps[0]), steps[1..]))
  }

  // Under it, no prompt is ever ended twice, however late an answer comes to a turn that was
  // abandoned, and the flag is up exactly while an answer is still awaited.
  lemma {:induction false} EachPromptEndsAtMostOnce(s: Session, steps: seq<Step>, n: nat)
    requires Sound(s) && EndedOnce(s) && Managed(s, steps)
    ensures var t := After(s, steps); Endings(t.pushed, n) <= 1 && Sound(t) && EndedOnce(t)
    decreases |steps|
  {
    if steps != [] {
      OnlyARefusedPromptSticks(s, steps[0]);
      StepEndsOnce(s, steps[0]);
      EachPromptEndsAtMostOnce(Next(s, steps[0]), steps[1..], n);
    }
  }

  // Without it, a refused prompt that is then abandoned ends the turn before it a second time.
  lemma ARefusedPromptCanEndATurnTwice(s: Session)
    requires Sound(s) && !s.active && s.queue.turnHolds && !s.queue.closed
    ensures var t := Next(Next(s, Prompt), Abandon);
            Endings(t.pushed, s.epoch) == Endings(s.pushed, s.epoch) + 1
  {
    EndingsSnoc(s.pushed, Ending(s.epoch), s.epoch);
  }
}
