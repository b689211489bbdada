// Which schedules of uploads keep a window within the budget and one upload, whatever they carry.

module UploadOverlaps {
  import opened Common
  import opened UploadRates

  // When uploads ask and when they end; how much each carries is left free.
  datatype Moment = Asks(now: int) | Ends(now: int)

  predicate Follows(traffic: seq<Traffic>, plan: seq<Moment>, most: nat) {
    && |traffic| <= |plan|
    && forall i :: 0 <= i < |traffic| ==>
         traffic[i].now == plan[i].now && (traffic[i].Admit? <==> plan[i].Asks?)
         && (traffic[i].Finish? ==> traffic[i].bytes <= most)
  }

  predicate Forward(from: int, plan: seq<Moment>)
    decreases |plan|
  {
    plan == [] || (from <= plan[0].now && Forward(plan[0].now, plan[1..]))
  }

  function LastMoment(from: int, traffic: seq<Traffic>): int
    decreases |traffic|
  {
    if traffic == [] then from else LastMoment(traffic[0].now, traffic[1..])
  }

  function LastBytes(history: seq<Charge>): nat { if history == [] then 0 else history[|history| - 1].bytes }

  // What a window holds is below the budget and the last upload together.
  predicate WithinOne(history: seq<Charge>, t: int) {
    Total(Window(history, t)) < UPLOAD_RATE_BYTES + LastBytes(history)
  }

  // Whatever the uploads carry, up to `most` each, and however far the plan has come.
  ghost predicate AlwaysWithinOne(now: int, plan: seq<Moment>, most: nat) {
    forall traffic: seq<Traffic>, t: int :: Follows(traffic, plan, most) && LastMoment(now, traffic) <= t ==>
      WithinOne(ServedAll(Opened(now), traffic).ledger.history, t)
  }

  // ---- the same plan when nobody is refused and every upload carries the most ----

  // `crowded`: when the last upload ended, another was in flight.
  datatype Load = Load(inFlight: nat, charged: seq<Charge>, crowded: bool)

  const IDLE: Load := Load(0, [], false)

  function Loaded(p: Load, m: Moment, most: nat): Load {
    match m
    case Asks(_) => p.(inFlight := p.inFlight + 1)
    case Ends(now) =>
      if p.inFlight == 0 then p else Load(p.inFlight - 1, p.charged + [Charge(now, most)], p.inFlight >= 2)
  }

  function LoadedAll(p: Load, plan: seq<Moment>, most: nat): Load
    decreases |plan|
  {
    if plan == [] then p else LoadedAll(Loaded(p, plan[0], most), plan[1..], most)
  }

  // An upload that ends after another with which it was in flight, where those before it could have
  // filled the window.
  predicate Spills(p: Load, m: Moment) {
    m.Ends? && p.crowded && Total(Window(p.charged, m.now)) >= UPLOAD_RATE_BYTES
  }

  predicate NeverSpills(p: Load, plan: seq<Moment>, most: nat)
    decreases |plan|
  {
    plan == [] || (!Spills(p, plan[0]) && NeverSpills(Loaded(p, plan[0], most), plan[1..], most))
  }

  // ---- a plan that never spills ----

  lemma WindowSnoc(history: seq<Charge>, c: Charge, t: int)
    ensures Total(Window(history + [c], t))
            == Total(Window(history, t)) + if c.at + UPLOAD_RATE_WINDOW_MS > t then c.bytes else 0
  {
    SinceSplits(history, [c], t - UPLOAD_RATE_WINDOW_MS);
    OneCharge(c, t - UPLOAD_RATE_WINDOW_MS);
    TotalSplits(Window(history, t), Window([c], t));
  }

  lemma WindowShrinks(history: seq<Charge>, now: int, t: int)
    requires now <= t
    ensures Total(Window(history, t)) <= Total(Window(history, now))
  {
    SinceAgain(history, now - UPLOAD_RATE_WINDOW_MS, t - UPLOAD_RATE_WINDOW_MS);
    SinceIsNoMore(Window(history, now), t - UPLOAD_RATE_WINDOW_MS);
  }

  // The server next to the load of its plan.
  ghost predicate Shadowed(s: Server, p: Load, now: int) {
    && Faithful(s.ledger, now) && s.inFlight <= p.inFlight
    && Covers(p.charged, s.ledger.history) && StaysWithin(s.ledger.history, now)
    && (s.inFlight > 0 && !p.crowded ==> Total(Window(s.ledger.history, now)) < UPLOAD_RATE_BYTES)
  }

  ghost predicate Covers(charged: seq<Charge>, history: seq<Charge>) {
    forall t :: Total(Window(history, t)) <= Total(Window(charged, t))
  }

  ghost predicate StaysWithin(history: seq<Charge>, now: int) { forall t :: now <= t ==> WithinOne(history, t) }

  lemma AsksShadowed(s: Server, p: Load, t: Traffic, now: int, most: nat)
    requires Shadowed(s, p, now) && t.Admit? && now <= t.now
    ensures Shadowed(Served(s, t), Loaded(p, Asks(t.now), most), t.now)
  {
    StepFaithful(s.ledger, Check(t.now), now);
    assert Window(s.ledger.entries, t.now) == Window(s.ledger.history, t.now);
    WindowShrinks(s.ledger.history, now, t.now);
  }

  lemma ChargeShadows(history: seq<Charge>, charged: seq<Charge>, bytes: nat, most: nat, now: int)
    requires Covers(charged, history) && bytes <= most
    ensures Covers(charged + [Charge(now, most)], history)
    ensures Covers(charged + [Charge(now, most)], history + [Charge(now, bytes)])
  {
    forall t: int
      ensures Total(Window(history, t)) <= Total(Window(charged + [Charge(now, most)], t))
      ensures Total(Window(history + [Charge(now, bytes)], t)) <= Total(Window(charged + [Charge(now, most)], t))
    {
      assert Total(Window(history, t)) <= Total(Window(charged, t));
      WindowSnoc(history, Charge(now, bytes), t);
      WindowSnoc(charged, Charge(now, most), t);
    }
  }

  lemma ChargeStaysWithin(history: seq<Charge>, bytes: nat, now: int)
    requires Total(Window(history, now)) < UPLOAD_RATE_BYTES
    ensures StaysWithin(history + [Charge(now, bytes)], now)
  {
    forall t | now <= t ensures WithinOne(history + [Charge(now, bytes)], t) {
      WindowSnoc(history, Charge(now, bytes), t);
      WindowShrinks(history, now, t);
    }
  }

  lemma EndsShadowed(s: Server, p: Load, t: Traffic, now: int, most: nat)
    requires Shadowed(s, p, now) && t.Finish? && t.bytes <= most && now <= t.now && !Spills(p, Ends(t.now))
    ensures Shadowed(Served(s, t), Loaded(p, Ends(t.now), most), t.now)
  {
    LaterIsFaithful(s.ledger, now, t.now);
    ChargeShadows(s.ledger.history, p.charged, t.bytes, most, t.now);
    if s.inFlight > 0 && t.bytes > 0 {
      StepFaithful(s.ledger, Spent(t.bytes, t.now), now);
      EndsWithin(s.ledger.history, p, t, now);
    }
  }

  lemma EndsWithin(history: seq<Charge>, p: Load, t: Traffic, now: int)
    requires Covers(p.charged, history) && t.Finish? && now <= t.now && !Spills(p, Ends(t.now))
    requires !p.crowded ==> Total(Window(history, now)) < UPLOAD_RATE_BYTES
    ensures StaysWithin(history + [Charge(t.now, t.bytes)], t.now)
  {
    WindowShrinks(history, now, t.now);
    assert Total(Window(history, t.now)) <= Total(Window(p.charged, t.now));
    ChargeStaysWithin(history, t.bytes, t.now);
  }

  lemma {:induction false} RunShadowed(s: Server, p: Load, traffic: seq<Traffic>, plan: seq<Moment>, now: int,
                                       most: nat)
    requires Shadowed(s, p, now) && Follows(traffic, plan, most) && Forward(now, plan) && NeverSpills(p, plan, most)
    ensures forall t :: LastMoment(now, traffic) <= t ==> WithinOne(ServedAll(s, traffic).ledger.history, t)
    decreases |traffic|
  {
    if traffic != [] {
      var t, m := traffic[0], plan[0];
      if t.Admit? { AsksShadowed(s, p, t, now, most); } else { EndsShadowed(s, p, t, now, most); }
      assert m == if t.Admit? then Asks(t.now) else Ends(t.now);
      RunShadowed(Served(s, t), Loaded(p, m, most), traffic[1..], plan[1..], t.now, most);
    }
  }

  // ---- a plan that spills ----

  lemma {:induction false} LoadedSplits(p: Load, a: seq<Moment>, b: seq<Moment>, most: nat)
    ensures LoadedAll(p, a + b, most) == LoadedAll(LoadedAll(p, a, most), b, most)
    decreases |a|
  {
    if a == [] {
      assert a + b == b;
    } else {
      assert (a + b)[1..] == a[1..] + b;
      LoadedSplits(Loaded(p, a[0], most), a[1..], b, most);
    }
  }

  lemma {:induction false} WhereItSpills(p: Load, plan: seq<Moment>, most: nat) returns (j: nat)
    requires !NeverSpills(p, plan, most)
    ensures j < |plan| && Spills(LoadedAll(p, plan[..j], most), plan[j])
    decreases |plan|
  {
    if Spills(p, plan[0]) {
      j := 0;
    } else {
      var k := WhereItSpills(Loaded(p, plan[0], most), plan[1..], most);
      j := k + 1;
      assert plan[..j][1..] == plan[1..][..k];
    }
  }

  // Filled as far as it goes without refusing anybody: the charges all count at the end, and they
  // are what the load has in that window, or one byte short of the budget.
  ghost predicate Filling(s: Server, p: Load, now: int, floor: int) {
    && s.inFlight == p.inFlight && (p.crowded ==> p.inFlight > 0) && Faithful(s.ledger, now)
    && Since(s.ledger.history, floor) == s.ledger.history
    && Total(s.ledger.history) == Min(UPLOAD_RATE_BYTES - 1, Total(Since(p.charged, floor)))
    && (forall i :: 0 <= i < |p.charged| ==> p.charged[i].at <= now)
  }

  // How much the next upload to end at `now` should carry.
  function Portion(s: Server, now: int, floor: int, most: nat): nat {
    if now <= floor then 0 else Min(most, Max(0, UPLOAD_RATE_BYTES - 1 - Total(s.ledger.history)))
  }

  function Filler(s: Server, m: Moment, floor: int, most: nat): Traffic {
    match m
    case Asks(now) => Admit(now)
    case Ends(now) => Finish(Portion(s, now, floor, most), now)
  }

  lemma AsksFill(s: Server, p: Load, m: Moment, now: int, floor: int, most: nat)
    requires Filling(s, p, now, floor) && m.Asks? && now <= m.now
    ensures Filling(Served(s, Filler(s, m, floor, most)), Loaded(p, m, most), m.now, floor)
  {
    StepFaithful(s.ledger, Check(m.now), now);
    assert Window(s.ledger.entries, m.now) == Window(s.ledger.history, m.now);
    SinceIsNoMore(s.ledger.history, m.now - UPLOAD_RATE_WINDOW_MS);
  }

  lemma SnocTotals(history: seq<Charge>, c: Charge, floor: int)
    ensures Total(history + [c]) == Total(history) + c.bytes
    ensures Since(history + [c], floor) == Since(history, floor) + if c.at > floor then [c] else []
    ensures Total(Since(history + [c], floor)) == Total(Since(history, floor)) + if c.at > floor then c.bytes else 0
  {
    SinceSplits(history, [c], floor);
    OneCharge(c, floor);
    TotalSplits(history, [c]);
    TotalSplits(Since(history, floor), Since([c], floor));
  }

  lemma EndsFill(s: Server, p: Load, m: Moment, now: int, floor: int, most: nat)
    requires Filling(s, p, now, floor) && m.Ends? && now <= m.now
    ensures Filling(Served(s, Filler(s, m, floor, most)), Loaded(p, m, most), m.now, floor)
  {
    LaterIsFaithful(s.ledger, now, m.now);
    if s.inFlight > 0 {
      var bytes := Portion(s, m.now, floor, most);
      SnocTotals(p.charged, Charge(m.now, most), floor);
      if bytes > 0 {
        StepFaithful(s.ledger, Spent(bytes, m.now), now);
        SnocTotals(s.ledger.history, Charge(m.now, bytes), floor);
      }
    }
  }

  predicate NoneEnds(plan: seq<Moment>) { forall i :: 0 <= i < |plan| ==> plan[i].Asks? }

  function Requests(plan: seq<Moment>): seq<Traffic> {
    seq(|plan|, i requires 0 <= i < |plan| => Admit(plan[i].now))
  }

  lemma {:induction false} RequestsCharge(s: Server, plan: seq<Moment>)
    ensures var e := ServedAll(s, Requests(plan));
            e.ledger.history == s.ledger.history && e.inFlight >= s.inFlight
    decreases |plan|
  {
    if plan != [] {
      var next := Served(s, Admit(plan[0].now));
      assert Requests(plan)[1..] == Requests(plan[1..]);
      RequestsCharge(next, plan[1..]);
    }
  }

  lemma {:induction false} AsksLeaveTheLoad(p: Load, plan: seq<Moment>, most: nat)
    requires NoneEnds(plan)
    ensures var e := LoadedAll(p, plan, most);
            e.charged == p.charged && e.crowded == p.crowded
    decreases |plan|
  {
    if plan != [] { AsksLeaveTheLoad(Loaded(p, plan[0], most), plan[1..], most); }
  }

  lemma {:induction false} ServedSplits(s: Server, a: seq<Traffic>, b: seq<Traffic>)
    ensures ServedAll(s, a + b) == ServedAll(ServedAll(s, a), b)
    decreases |a|
  {
    if a == [] {
      assert a + b == b;
    } else {
      assert (a + b)[1..] == a[1..] + b;
      ServedSplits(Served(s, a[0]), a[1..], b);
    }
  }

  lemma {:induction false} LastOfJoined(now: int, a: seq<Traffic>, t: Traffic)
    ensures LastMoment(now, a + [t]) == t.now
    decreases |a|
  {
    if a == [] {
      assert a + [t] == [t] && [t][1..] == [];
    } else {
      assert (a + [t])[1..] == a[1..] + [t];
      LastOfJoined(a[0].now, a[1..], t);
    }
  }

  // The traffic: fill, top up with the upload that ends in company, and end the one beside it.
  ghost predicate Overflows(s: Server, traffic: seq<Traffic>, plan: seq<Moment>, most: nat, now: int, t: int) {
    && Follows(traffic, plan, most) && LastMoment(now, traffic) == t
    && !WithinOne(ServedAll(s, traffic).ledger.history, t)
  }

  // The last upload to end before the one that spills tops the window up to the budget.
  lemma TopUp(s: Server, p: Load, m: Moment, now: int, floor: int, most: nat)
    requires Filling(s, p, now, floor) && m.Ends? && now <= m.now && most > 0
    requires Loaded(p, m, most).crowded
    requires Total(Since(Loaded(p, m, most).charged, floor)) >= UPLOAD_RATE_BYTES
    ensures var bytes := UPLOAD_RATE_BYTES - Total(s.ledger.history);
            var next := Served(s, Finish(bytes, m.now));
            && 0 < bytes <= most && next.inFlight > 0
            && Since(next.ledger.history, floor) == next.ledger.history
            && Total(next.ledger.history) == UPLOAD_RATE_BYTES
  {
    SnocTotals(p.charged, Charge(m.now, most), floor);
    if m.now <= floor { NothingSince(p.charged, floor); }
    SnocTotals(s.ledger.history, Charge(m.now, UPLOAD_RATE_BYTES - Total(s.ledger.history)), floor);
  }

  lemma {:induction false} NothingSince(entries: seq<Charge>, floor: int)
    requires forall i :: 0 <= i < |entries| ==> entries[i].at <= floor
    ensures Since(entries, floor) == []
  {
    if entries != [] { NothingSince(entries[1..], floor); }
  }

  // And the one beside it goes past.
  lemma GoPast(s: Server, plan: seq<Moment>, m: Moment)
    requires s.inFlight > 0 && m.Ends? && Total(s.ledger.history) == UPLOAD_RATE_BYTES
    requires Window(s.ledger.history, m.now) == s.ledger.history
    ensures !WithinOne(ServedAll(s, Requests(plan) + [Finish(1, m.now)]).ledger.history, m.now)
  {
    var t := Finish(1, m.now);
    ServedSplits(s, Requests(plan), [t]);
    RequestsCharge(s, plan);
    var e := ServedAll(s, Requests(plan));
    assert [t][1..] == [];
    assert ServedAll(e, [t]) == Served(e, t);
    OneMoreByte(e.ledger.history, m.now);
  }

  lemma OneMoreByte(history: seq<Charge>, now: int)
    requires Window(history, now) == history && Total(history) == UPLOAD_RATE_BYTES
    ensures !WithinOne(history + [Charge(now, 1)], now)
  {
    WindowSnoc(history, Charge(now, 1), now);
  }

  // `plan` is what comes before the spilling moment `m`, from a server that is being filled.
  lemma {:induction false} FillThenSpill(s: Server, p: Load, plan: seq<Moment>, m: Moment, now: int, most: nat)
    returns (traffic: seq<Traffic>)
    requires most > 0 && m.Ends? && Filling(s, p, now, m.now - UPLOAD_RATE_WINDOW_MS)
    requires Forward(now, plan + [m]) && !NoneEnds(plan) && Spills(LoadedAll(p, plan, most), m)
    ensures Overflows(s, traffic, plan + [m], most, now, m.now) && |traffic| == |plan| + 1
    decreases |plan|
  {
    var floor, first, rest := m.now - UPLOAD_RATE_WINDOW_MS, plan[0], plan[1..];
    assert (plan + [m])[1..] == rest + [m];
    var next := Loaded(p, first, most);
    if NoneEnds(rest) {
      AsksLeaveTheLoad(next, rest, most);
      assert first.Ends?;
      traffic := Topped(s, p, first, rest, m, now, most);
    } else {
      var t := Filler(s, first, floor, most);
      if first.Asks? { AsksFill(s, p, first, now, floor, most); } else { EndsFill(s, p, first, now, floor, most); }
      var later := FillThenSpill(Served(s, t), next, rest, m, first.now, most);
      traffic := [t] + later;
      assert traffic[1..] == later;
      FollowsCons(t, later, first, rest + [m], most);
      assert [first] + (rest + [m]) == plan + [m];
    }
  }

  lemma FollowsCons(t: Traffic, later: seq<Traffic>, m: Moment, plan: seq<Moment>, most: nat)
    requires Follows(later, plan, most)
    requires t.now == m.now && (t.Admit? <==> m.Asks?) && (t.Finish? ==> t.bytes <= most)
    ensures Follows([t] + later, [m] + plan, most)
  {}

  lemma Topped(s: Server, p: Load, first: Moment, rest: seq<Moment>, m: Moment, now: int, most: nat)
    returns (traffic: seq<Traffic>)
    requires most > 0 && m.Ends? && first.Ends? && Filling(s, p, now, m.now - UPLOAD_RATE_WINDOW_MS)
    requires now <= first.now && NoneEnds(rest) && Spills(Loaded(p, first, most), m)
    ensures Overflows(s, traffic, [first] + rest + [m], most, now, m.now) && |traffic| == |rest| + 2
  {
    var floor := m.now - UPLOAD_RATE_WINDOW_MS;
    TopUp(s, p, first, now, floor, most);
    var t := Finish(UPLOAD_RATE_BYTES - Total(s.ledger.history), first.now);
    var later := Requests(rest) + [Finish(1, m.now)];
    GoPast(Served(s, t), rest, m);
    traffic := [t] + later;
    assert traffic[1..] == later;
    LastOfJoined(first.now, Requests(rest), Finish(1, m.now));
    assert Follows(later, rest + [m], most);
    FollowsCons(t, later, first, rest + [m], most);
    assert [first] + (rest + [m]) == [first] + rest + [m];
  }

  // ---- exactly which plans ----

  lemma OpenedIsShadowed(now: int)
    ensures Shadowed(Opened(now), IDLE, now) && forall floor :: Filling(Opened(now), IDLE, now, floor)
  {}

  lemma {:induction false} ForwardPrefix(now: int, plan: seq<Moment>, n: nat)
    requires Forward(now, plan) && n <= |plan|
    ensures Forward(now, plan[..n])
    decreases n
  {
    if n > 0 {
      assert plan[..n][1..] == plan[1..][..n - 1];
      ForwardPrefix(plan[0].now, plan[1..], n - 1);
    }
  }

  // Whatever uploads of at most `most` bytes carry, a window holds less than the budget and the last
  // of them together: for exactly those plans in which no upload ends after one it was in flight
  // with, where those before it, if they carried the most, would have filled the window.
  lemma OverlapsAreBoundedExactly(now: int, plan: seq<Moment>, most: nat)
    requires Forward(now, plan) && most > 0
    ensures AlwaysWithinOne(now, plan, most) <==> NeverSpills(IDLE, plan, most)
  {
    OpenedIsShadowed(now);
    if NeverSpills(IDLE, plan, most) {
      forall traffic: seq<Traffic>, t: int | Follows(traffic, plan, most) && LastMoment(now, traffic) <= t
        ensures WithinOne(ServedAll(Opened(now), traffic).ledger.history, t)
      {
        RunShadowed(Opened(now), IDLE, traffic, plan, now, most);
      }
    } else {
      var j := WhereItSpills(IDLE, plan, most);
      var m := plan[j];
      assert plan[..j] + [m] == plan[..j + 1];
      ForwardPrefix(now, plan, j + 1);
      if NoneEnds(plan[..j]) { AsksLeaveTheLoad(IDLE, plan[..j], most); }
      var traffic := FillThenSpill(Opened(now), IDLE, plan[..j], m, now, most);
      assert Follows(traffic, plan, most);
      assert !WithinOne(ServedAll(Opened(now), traffic).ledger.history, m.now);
    }
  }

  // ---- uploads of any size ----

  // No upload ends within a window of one it was in flight with; `last` is when that one ended.
  predicate EndsApart(plan: seq<Moment>, inFlight: nat, last: Option<int>)
    decreases |plan|
  {
    if plan == [] then true
    else if plan[0].Asks? then EndsApart(plan[1..], inFlight + 1, last)
    else if inFlight == 0 then EndsApart(plan[1..], 0, last)
    else
      && (last.Some? ==> last.value + UPLOAD_RATE_WINDOW_MS <= plan[0].now)
      && EndsApart(plan[1..], inFlight - 1, if inFlight >= 2 then Some(plan[0].now) else None)
  }

  // The load next to what such a plan looks at.
  ghost predicate Seen(p: Load, now: int, last: Option<int>, most: nat) {
    && (p.crowded <==> last.Some?) && (p.crowded ==> p.inFlight > 0 && p.charged != [])
    && (last.Some? && p.charged != [] ==> p.charged[|p.charged| - 1] == Charge(last.value, most))
    && (forall i :: 0 <= i < |p.charged| ==> p.charged[i].at <= now)
    && (last.Some? ==> forall i :: 0 <= i < |p.charged| ==> p.charged[i].at <= last.value)
  }

  lemma SpillsByTime(p: Load, m: Moment, now: int, last: Option<int>, most: nat)
    requires Seen(p, now, last, most) && UPLOAD_RATE_BYTES <= most && m.Ends?
    ensures Spills(p, m) <==> last.Some? && last.value + UPLOAD_RATE_WINDOW_MS > m.now
  {
    if p.crowded {
      var n := |p.charged| - 1;
      if last.value + UPLOAD_RATE_WINDOW_MS <= m.now {
        NothingSince(p.charged, m.now - UPLOAD_RATE_WINDOW_MS);
      } else {
        assert p.charged == p.charged[..n] + [p.charged[n]];
        WindowSnoc(p.charged[..n], p.charged[n], m.now);
      }
    }
  }

  lemma {:induction false} ApartIsNeverSpilling(p: Load, plan: seq<Moment>, now: int, last: Option<int>, most: nat)
    requires Seen(p, now, last, most) && UPLOAD_RATE_BYTES <= most && Forward(now, plan)
    ensures NeverSpills(p, plan, most) <==> EndsApart(plan, p.inFlight, last)
    decreases |plan|
  {
    if plan != [] {
      var m := plan[0];
      if m.Ends? { SpillsByTime(p, m, now, last, most); }
      var next := if m.Asks? || p.inFlight == 0 then last else if p.inFlight >= 2 then Some(m.now) else None;
      ApartIsNeverSpilling(Loaded(p, m, most), plan[1..], m.now, next, most);
    }
  }

  lemma SmallerUploadsFollow(now: int, plan: seq<Moment>, most: nat, more: nat)
    requires AlwaysWithinOne(now, plan, more) && most <= more
    ensures AlwaysWithinOne(now, plan, most)
  {
    forall traffic: seq<Traffic>, t: int | Follows(traffic, plan, most) && LastMoment(now, traffic) <= t
      ensures WithinOne(ServedAll(Opened(now), traffic).ledger.history, t)
    {
      assert Follows(traffic, plan, more);
    }
  }

  // With uploads of any size, those are the plans in which no upload ends within a window of one it
  // was in flight with.
  lemma AnySizeIsBoundedExactly(now: int, plan: seq<Moment>)
    requires Forward(now, plan)
    ensures (forall most :: most > 0 ==> AlwaysWithinOne(now, plan, most)) <==> EndsApart(plan, 0, None)
  {
    if forall most :: most > 0 ==> AlwaysWithinOne(now, plan, most) {
      assert AlwaysWithinOne(now, plan, UPLOAD_RATE_BYTES);
      OverlapsAreBoundedExactly(now, plan, UPLOAD_RATE_BYTES);
      ApartIsNeverSpilling(IDLE, plan, now, None, UPLOAD_RATE_BYTES);
    }
    if EndsApart(plan, 0, None) {
      forall most | most > 0 ensures AlwaysWithinOne(now, plan, most) {
        var more := Max(most, UPLOAD_RATE_BYTES);
        ApartIsNeverSpilling(IDLE, plan, now, None, more);
        OverlapsAreBoundedExactly(now, plan, more);
        SmallerUploadsFollow(now, plan, most, more);
      }
    }
  }
}
