// A session's upload budget over a rolling window.

module UploadRates {
  import opened Common

  const UPLOAD_RATE_BYTES: nat := 300 * 1024 * 1024
  const UPLOAD_RATE_WINDOW_MS: nat := 5 * 60 * 1000

  datatype Charge = Charge(at: int, bytes: nat)

  datatype Verdict = Verdict(kept: seq<Charge>, waitMs: nat)

  // The charges after a moment, in order.
  function Since(entries: seq<Charge>, floor: int): seq<Charge> {
    if entries == [] then []
    else (if entries[0].at > floor then [entries[0]] else []) + Since(entries[1..], floor)
  }

  function Total(entries: seq<Charge>): nat {
    if entries == [] then 0 else entries[0].bytes + Total(entries[1..])
  }

  function Window(entries: seq<Charge>, now: int): seq<Charge> { Since(entries, now - UPLOAD_RATE_WINDOW_MS) }

  function UploadRateVerdict(entries: seq<Charge>, now: int): Verdict {
    var kept := Window(entries, now);
    if Total(kept) < UPLOAD_RATE_BYTES then Verdict(kept, 0)
    else Verdict(kept, Max(1, kept[0].at + UPLOAD_RATE_WINDOW_MS - now))
  }

  // What counts is charged less than five minutes ago: each such charge, in order.
  lemma {:induction false} AWindowIsExactly(entries: seq<Charge>, now: int)
    ensures Window(entries, now) == Counting(entries, now)
  {
    if entries != [] { AWindowIsExactly(entries[..|entries| - 1], now); LastOfWindow(entries, now); }
  }

  function Counting(entries: seq<Charge>, now: int): seq<Charge> {
    if entries == [] then []
    else
      var last := entries[|entries| - 1];
      Counting(entries[..|entries| - 1], now) + if now - last.at < 300_000 then [last] else []
  }

  lemma LastOfWindow(entries: seq<Charge>, now: int)
    requires entries != []
    ensures var n := |entries| - 1;
            Window(entries, now)
            == Window(entries[..n], now) + if now - entries[n].at < 300_000 then [entries[n]] else []
  {
    var n := |entries| - 1;
    assert entries == entries[..n] + [entries[n]];
    SinceSplits(entries[..n], [entries[n]], now - UPLOAD_RATE_WINDOW_MS);
    OneCharge(entries[n], now - UPLOAD_RATE_WINDOW_MS);
  }

  // It is admitted while they come to less than 300 MiB together, and else told to wait until the first
  // of them no longer counts, at least a millisecond.
  lemma AVerdictIsExactly(entries: seq<Charge>, now: int)
    ensures var v := UploadRateVerdict(entries, now);
            && v.kept == Counting(entries, now)
            && (v.waitMs == 0 <==> Total(v.kept) < 314_572_800)
            && (v.waitMs > 0 ==> v.kept != [] && v.waitMs == Max(1, v.kept[0].at + 300_000 - now))
  {
    AWindowIsExactly(entries, now);
  }

  class Uploads {
    var recent: map<string, seq<Charge>>

    constructor ()
      ensures recent == map[]
    {
      recent := map[];
    }

    function Entries(session: string): seq<Charge>
      reads this
    {
      if session in recent then recent[session] else []
    }

    // A session with nothing left in its window loses its key.
    method RateWait(session: string, now: int) returns (waitMs: nat)
      modifies this
      ensures waitMs == UploadRateVerdict(old(Entries(session)), now).waitMs
      ensures Entries(session) == Window(old(Entries(session)), now)
      ensures session in recent ==> recent[session] != []
      ensures forall s :: s != session ==> (s in recent <==> s in old(recent)) && Entries(s) == old(Entries(s))
    {
      if session !in recent { return 0; }
      var v := UploadRateVerdict(recent[session], now);
      if |v.kept| == 0 {
        recent := recent - {session};
      } else {
        recent := recent[session := v.kept];
      }
      return v.waitMs;
    }

    method Spend(session: string, bytes: nat, now: int)
      modifies this
      ensures Entries(session) == old(Entries(session)) + [Charge(now, bytes)]
      ensures forall s :: s != session ==> (s in recent <==> s in old(recent)) && Entries(s) == old(Entries(s))
    {
      if session !in recent {
        recent := recent[session := [Charge(now, bytes)]];
      } else {
        recent := recent[session := recent[session] + [Charge(now, bytes)]];
      }
    }
  }

  // ---- pruning ----

  lemma {:induction false} SinceSplits(a: seq<Charge>, b: seq<Charge>, floor: int)
    ensures Since(a + b, floor) == Since(a, floor) + Since(b, floor)
  {
    if a == [] {
      assert a + b == b;
    } else {
      assert (a + b)[1..] == a[1..] + b;
      SinceSplits(a[1..], b, floor);
    }
  }

  lemma {:induction false} TotalSplits(a: seq<Charge>, b: seq<Charge>)
    ensures Total(a + b) == Total(a) + Total(b)
  {
    if a == [] {
      assert a + b == b;
    } else {
      assert (a + b)[1..] == a[1..] + b;
      TotalSplits(a[1..], b);
    }
  }

  lemma SinceCons(e: Charge, rest: seq<Charge>, floor: int)
    ensures Since([e] + rest, floor) == (if e.at > floor then [e] else []) + Since(rest, floor)
  {
    assert ([e] + rest)[1..] == rest;
  }

  lemma {:induction false} SinceAgain(entries: seq<Charge>, earlier: int, later: int)
    requires earlier <= later
    ensures Since(Since(entries, earlier), later) == Since(entries, later)
  {
    if entries != [] {
      var e, rest := entries[0], Since(entries[1..], earlier);
      SinceAgain(entries[1..], earlier, later);
      SinceCons(e, rest, later);
      if e.at <= earlier { assert Since(entries, earlier) == rest; }
    }
  }

  // ---- every run of checks and charges on a session ----

  datatype Step = Check(now: int) | Spent(bytes: nat, now: int)

  function Now(step: Step): int { step.now }

  // `entries` is what the map holds, `history` everything ever charged.
  datatype Ledger = Ledger(entries: seq<Charge>, history: seq<Charge>)

  function Stepped(l: Ledger, step: Step): Ledger {
    match step
    case Check(now) => Ledger(Window(l.entries, now), l.history)
    case Spent(bytes, now) => Ledger(l.entries + [Charge(now, bytes)], l.history + [Charge(now, bytes)])
  }

  function Run(l: Ledger, steps: seq<Step>): Ledger
    decreases |steps|
  {
    if steps == [] then l else Run(Stepped(l, steps[0]), steps[1..])
  }

  // ---- when pruning changes no verdict ----

  // That a check at `now` drops no charge that still counts at `t`.
  predicate DropsOnlyTheOld(entries: seq<Charge>, now: int, t: int) {
    forall i :: 0 <= i < |entries| && entries[i].at + UPLOAD_RATE_WINDOW_MS <= now ==>
      entries[i].at + UPLOAD_RATE_WINDOW_MS <= t
  }

  predicate AllDropOnlyTheOld(l: Ledger, steps: seq<Step>, t: int)
    decreases |steps|
  {
    steps == []
    || ((steps[0].Check? ==> DropsOnlyTheOld(l.entries, Now(steps[0]), t))
        && AllDropOnlyTheOld(Stepped(l, steps[0]), steps[1..], t))
  }

  lemma {:induction false} SinceOfSince(entries: seq<Charge>, now: int, t: int)
    ensures var left := Window(Window(entries, now), t);
            && |left| <= |Window(entries, t)|
            && (DropsOnlyTheOld(entries, now, t) ==> left == Window(entries, t))
            && (!DropsOnlyTheOld(entries, now, t) ==> |left| < |Window(entries, t)|)
  {
    if entries != [] {
      var e, rest := entries[0], entries[1..];
      SinceOfSince(rest, now, t);
      assert entries == [e] + rest;
      DropsOnlyTheOldCons(e, rest, now, t);
      WindowCons(e, rest, now);
      WindowCons(e, rest, t);
      WindowCons(e, Window(rest, now), t);
    }
  }

  lemma WindowCons(e: Charge, rest: seq<Charge>, now: int)
    ensures Window([e] + rest, now)
            == if e.at + UPLOAD_RATE_WINDOW_MS > now then [e] + Window(rest, now) else Window(rest, now)
  {
    SinceCons(e, rest, now - UPLOAD_RATE_WINDOW_MS);
  }

  lemma DropsOnlyTheOldCons(e: Charge, rest: seq<Charge>, now: int, t: int)
    ensures DropsOnlyTheOld([e] + rest, now, t)
            <==> (e.at + UPLOAD_RATE_WINDOW_MS <= now ==> e.at + UPLOAD_RATE_WINDOW_MS <= t)
                 && DropsOnlyTheOld(rest, now, t)
  {
    var all := [e] + rest;
    if DropsOnlyTheOld(all, now, t) {
      assert all[0] == e;
      forall i | 0 <= i < |rest| && rest[i].at + UPLOAD_RATE_WINDOW_MS <= now
        ensures rest[i].at + UPLOAD_RATE_WINDOW_MS <= t
      {
        assert all[i + 1] == rest[i];
      }
    }
  }

  // How the two lists stand to each other, seen from `t`.
  lemma StepLoses(l: Ledger, step: Step, t: int)
    requires |Window(l.entries, t)| <= |Window(l.history, t)|
    ensures var next := Stepped(l, step);
            && |Window(next.history, t)| - |Window(next.entries, t)| >= |Window(l.history, t)| - |Window(l.entries, t)|
            && (Window(l.entries, t) == Window(l.history, t) ==>
                  if step.Check? ==> DropsOnlyTheOld(l.entries, Now(step), t)
                  then Window(next.entries, t) == Window(next.history, t)
                  else |Window(next.entries, t)| < |Window(next.history, t)|)
  {
    match step
    case Check(n) => SinceOfSince(l.entries, n, t);
    case Spent(bytes, n) =>
      SinceSplits(l.entries, [Charge(n, bytes)], t - UPLOAD_RATE_WINDOW_MS);
      SinceSplits(l.history, [Charge(n, bytes)], t - UPLOAD_RATE_WINDOW_MS);
  }

  lemma {:induction false} WhatIsLostStaysLost(l: Ledger, steps: seq<Step>, t: int)
    requires |Window(l.entries, t)| < |Window(l.history, t)|
    ensures |Window(Run(l, steps).entries, t)| < |Window(Run(l, steps).history, t)|
    decreases |steps|
  {
    if steps != [] {
      StepLoses(l, steps[0], t);
      WhatIsLostStaysLost(Stepped(l, steps[0]), steps[1..], t);
    }
  }

  // Over every run, whatever the clock does: the pruned list answers at `t` as the whole history
  // would if and only if no check dropped a charge that still counts at `t`.
  lemma {:induction false} PruningIsHarmlessExactly(l: Ledger, steps: seq<Step>, t: int)
    requires Window(l.entries, t) == Window(l.history, t)
    ensures UploadRateVerdict(Run(l, steps).entries, t) == UploadRateVerdict(Run(l, steps).history, t)
            <==> AllDropOnlyTheOld(l, steps, t)
    decreases |steps|
  {
    if steps != [] {
      var next := Stepped(l, steps[0]);
      StepLoses(l, steps[0], t);
      if Window(next.entries, t) == Window(next.history, t) {
        PruningIsHarmlessExactly(next, steps[1..], t);
      } else {
        WhatIsLostStaysLost(next, steps[1..], t);
      }
    }
  }

  predicate Monotone(from: int, steps: seq<Step>)
    decreases |steps|
  {
    steps == [] || (from <= Now(steps[0]) && Monotone(Now(steps[0]), steps[1..]))
  }

  function LastNow(from: int, steps: seq<Step>): int
    decreases |steps|
  {
    if steps == [] then from else LastNow(Now(steps[0]), steps[1..])
  }

  // What was pruned can no longer matter from `now` on.
  ghost predicate Faithful(l: Ledger, now: int) {
    forall t :: now <= t ==> Window(l.entries, t) == Window(l.history, t)
  }

  lemma StepFaithful(l: Ledger, step: Step, now: int)
    requires Faithful(l, now) && now <= Now(step)
    ensures Faithful(Stepped(l, step), Now(step))
  {
    var next := Stepped(l, step);
    forall t | Now(step) <= t ensures Window(next.entries, t) == Window(next.history, t) {
      assert Window(l.entries, t) == Window(l.history, t);
      match step
      case Check(n) => SinceAgain(l.entries, n - UPLOAD_RATE_WINDOW_MS, t - UPLOAD_RATE_WINDOW_MS);
      case Spent(bytes, n) =>
        SinceSplits(l.entries, [Charge(n, bytes)], t - UPLOAD_RATE_WINDOW_MS);
        SinceSplits(l.history, [Charge(n, bytes)], t - UPLOAD_RATE_WINDOW_MS);
    }
  }

  lemma {:induction false} ForwardDropsOnlyTheOld(l: Ledger, steps: seq<Step>, now: int, t: int)
    requires Monotone(now, steps) && LastNow(now, steps) <= t
    ensures now <= t && AllDropOnlyTheOld(l, steps, t)
    decreases |steps|
  {
    if steps != [] { ForwardDropsOnlyTheOld(Stepped(l, steps[0]), steps[1..], Now(steps[0]), t); }
  }

  // So it does while the clock does not go back.
  lemma PruningChangesNoVerdict(l: Ledger, steps: seq<Step>, now: int, t: int)
    requires Faithful(l, now) && Monotone(now, steps) && LastNow(now, steps) <= t
    ensures UploadRateVerdict(Run(l, steps).entries, t) == UploadRateVerdict(Run(l, steps).history, t)
  {
    ForwardDropsOnlyTheOld(l, steps, now, t);
    assert Window(l.entries, t) == Window(l.history, t);
    PruningIsHarmlessExactly(l, steps, t);
  }

  lemma OneCharge(c: Charge, floor: int)
    ensures Since([c], floor) == (if c.at > floor then [c] else []) && Total([c]) == c.bytes
  {
    assert [c][1..] == [];
  }

  // A clock that goes back makes it forget: three uploads of the most one may carry, 100 MiB, fill the
  // window, which is checked late, and then again early.
  lemma AClockGoingBackForgets()
    ensures var full := Spent(104_857_600, 0);
            var l := Run(Ledger([], []), [full, full, full, Check(UPLOAD_RATE_WINDOW_MS)]);
            UploadRateVerdict(l.entries, 0).waitMs == 0 && UploadRateVerdict(l.history, 0).waitMs > 0
  {
    var full, c := Spent(104_857_600, 0), Charge(0, 104_857_600);
    var l1, l2, l3 := Ledger([c], [c]), Ledger([c, c], [c, c]), Ledger([c, c, c], [c, c, c]);
    var late := Check(UPLOAD_RATE_WINDOW_MS);
    assert Stepped(Ledger([], []), full) == l1 && Stepped(l1, full) == l2 && Stepped(l2, full) == l3;
    RunCons(Ledger([], []), full, [full, full, late]);
    RunCons(l1, full, [full, late]);
    RunCons(l2, full, [late]);
    RunCons(l3, late, []);
    ThreeCharges(c, 0);
    ThreeCharges(c, 0 - UPLOAD_RATE_WINDOW_MS as int);
  }

  lemma RunCons(l: Ledger, step: Step, rest: seq<Step>)
    ensures Run(l, [step] + rest) == Run(Stepped(l, step), rest)
  {
    assert ([step] + rest)[1..] == rest;
  }

  lemma ThreeCharges(c: Charge, floor: int)
    ensures Since([c, c, c], floor) == (if c.at > floor then [c, c, c] else []) && Total([c, c, c]) == 3 * c.bytes
  {
    assert [c, c, c][1..] == [c, c] && [c, c][1..] == [c];
    OneCharge(c, floor);
    assert [c] + [c] == [c, c] && [c] + [c, c] == [c, c, c];
  }

  // ---- waiting ----

  predicate Ordered(entries: seq<Charge>) {
    forall i, j :: 0 <= i < j < |entries| ==> entries[i].at <= entries[j].at
  }

  lemma {:induction false} SinceKeepsNewer(entries: seq<Charge>, floor: int)
    ensures |Since(entries, floor)| <= |entries|
    ensures forall i :: 0 <= i < |Since(entries, floor)| ==> Since(entries, floor)[i].at > floor
    ensures (exists i :: 0 <= i < |entries| && entries[i].at <= floor) ==> |Since(entries, floor)| < |entries|
  {
    if entries != [] {
      SinceKeepsNewer(entries[1..], floor);
      if i :| 0 <= i < |entries| && entries[i].at <= floor && i > 0 { assert entries[1..][i - 1].at <= floor; }
    }
  }

  lemma {:induction false} SinceIsAll(entries: seq<Charge>, floor: int)
    requires forall i :: 0 <= i < |entries| ==> entries[i].at > floor
    ensures Since(entries, floor) == entries
  {
    if entries != [] { SinceIsAll(entries[1..], floor); }
  }

  lemma AWaitIsUntilTheOldestLeaves(entries: seq<Charge>, now: int)
    requires UploadRateVerdict(entries, now).waitMs > 0
    ensures var v := UploadRateVerdict(entries, now);
            && v.kept != [] && v.waitMs == v.kept[0].at + UPLOAD_RATE_WINDOW_MS - now
            && |Window(v.kept, now + v.waitMs)| < |v.kept|
  {
    var v := UploadRateVerdict(entries, now);
    SinceKeepsNewer(entries, now - UPLOAD_RATE_WINDOW_MS);
    SinceKeepsNewer(v.kept, v.kept[0].at);
  }

  // How many times somebody who waits exactly as long as they are told is refused.
  function Refusals(entries: seq<Charge>, now: int): (n: nat)
    ensures n <= |Window(entries, now)|
    decreases |Window(entries, now)|
  {
    var v := UploadRateVerdict(entries, now);
    if v.waitMs == 0 then 0
    else
      AWaitIsUntilTheOldestLeaves(entries, now);
      1 + Refusals(v.kept, now + v.waitMs)
  }

  // Nobody is told to wait longer than the answer takes to change: until then it would be a refusal.
  lemma NoWaitIsTooLong(entries: seq<Charge>, now: int, t: int)
    requires Ordered(entries) && now <= t < now + UploadRateVerdict(entries, now).waitMs
    ensures UploadRateVerdict(entries, t).waitMs > 0
  {
    var kept := Window(entries, now);
    AWaitIsUntilTheOldestLeaves(entries, now);
    SinceKeepsOrder(entries, now - UPLOAD_RATE_WINDOW_MS);
    OldestIsFirst(kept);
    SinceIsAll(kept, t - UPLOAD_RATE_WINDOW_MS);
    SinceAgain(entries, now - UPLOAD_RATE_WINDOW_MS, t - UPLOAD_RATE_WINDOW_MS);
    assert Window(entries, t) == kept;
  }

  lemma OldestIsFirst(entries: seq<Charge>)
    requires Ordered(entries)
    ensures forall i :: 0 <= i < |entries| ==> entries[0].at <= entries[i].at
  {}

  lemma {:induction false} SinceKeepsOrder(entries: seq<Charge>, floor: int)
    requires Ordered(entries)
    ensures Ordered(Since(entries, floor))
    ensures forall i :: 0 <= i < |Since(entries, floor)| && entries != [] ==>
              entries[0].at <= Since(entries, floor)[i].at
  {
    if entries != [] {
      SinceKeepsOrder(entries[1..], floor);
      if |entries| > 1 { assert entries[0].at <= entries[1].at; }
    }
  }

  // ---- how much a window can hold ----

  datatype Traffic = Admit(now: int) | Finish(bytes: nat, now: int)

  // Uploads are admitted by the verdict and charged when their body has been read. `mark` is how
  // much had been charged at the last admission, and `together` how many uploads were in flight
  // then, the admitted one included.
  datatype Server = Server(ledger: Ledger, inFlight: nat, mark: nat, markedAt: int, together: nat)

  function Served(s: Server, t: Traffic): Server {
    match t
    case Admit(now) =>
      var checked := s.(ledger := Stepped(s.ledger, Check(now)));
      if UploadRateVerdict(s.ledger.entries, now).waitMs > 0 then checked
      else checked.(inFlight := s.inFlight + 1, mark := |s.ledger.history|, markedAt := now, together := s.inFlight + 1)
    case Finish(bytes, now) =>
      if s.inFlight == 0 then s
      else if bytes == 0 then s.(inFlight := s.inFlight - 1)
      else s.(inFlight := s.inFlight - 1, ledger := Stepped(s.ledger, Spent(bytes, now)))
  }

  function ServedAll(s: Server, traffic: seq<Traffic>): Server
    decreases |traffic|
  {
    if traffic == [] then s else ServedAll(Served(s, traffic[0]), traffic[1..])
  }

  predicate Onward(from: int, traffic: seq<Traffic>, until: int)
    decreases |traffic|
  {
    if traffic == [] then from <= until else from <= traffic[0].now && Onward(traffic[0].now, traffic[1..], until)
  }

  function Opened(now: int): Server { Server(Ledger([], []), 0, 0, now, 0) }

  // What has been charged since the last admission.
  function Recent(s: Server): seq<Charge>
    requires s.mark <= |s.ledger.history|
  {
    s.ledger.history[s.mark..]
  }

  ghost predicate Bounded(s: Server, now: int) {
    && Faithful(s.ledger, now) && s.markedAt <= now && s.mark <= |s.ledger.history|
    && Total(Window(s.ledger.history[..s.mark], s.markedAt)) < UPLOAD_RATE_BYTES
    && |Recent(s)| + s.inFlight <= s.together
  }

  lemma LaterIsFaithful(l: Ledger, now: int, later: int)
    requires Faithful(l, now) && now <= later
    ensures Faithful(l, later)
  {}

  lemma AdmitBounded(s: Server, t: Traffic, now: int)
    requires Bounded(s, now) && t.Admit? && now <= t.now
    ensures Bounded(Served(s, t), t.now)
  {
    StepFaithful(s.ledger, Check(t.now), now);
    assert Window(s.ledger.entries, t.now) == Window(s.ledger.history, t.now);
    assert s.ledger.history[..|s.ledger.history|] == s.ledger.history;
  }

  lemma FinishBounded(s: Server, t: Traffic, now: int)
    requires Bounded(s, now) && t.Finish? && now <= t.now
    ensures Bounded(Served(s, t), t.now)
  {
    LaterIsFaithful(s.ledger, now, t.now);
    if s.inFlight > 0 && t.bytes > 0 {
      StepFaithful(s.ledger, Spent(t.bytes, t.now), now);
      assert (s.ledger.history + [Charge(t.now, t.bytes)])[..s.mark] == s.ledger.history[..s.mark];
    }
  }

  lemma {:induction false} SinceIsNoMore(entries: seq<Charge>, floor: int)
    ensures Total(Since(entries, floor)) <= Total(entries)
  {
    if entries != [] {
      SinceIsNoMore(entries[1..], floor);
      TotalSplits([entries[0]], Since(entries[1..], floor));
      OneCharge(entries[0], floor);
      var rest := Since(entries[1..], floor);
      assert Since(entries, floor) == if entries[0].at > floor then [entries[0]] + rest else rest;
    }
  }

  lemma WindowIsBounded(s: Server, now: int, t: int)
    requires Bounded(s, now) && now <= t
    ensures Total(Window(s.ledger.history, t)) < UPLOAD_RATE_BYTES + Total(Recent(s))
  {
    var floor, before := t - UPLOAD_RATE_WINDOW_MS, s.ledger.history[..s.mark];
    assert s.ledger.history == before + Recent(s);
    SinceSplits(before, Recent(s), floor);
    TotalSplits(Since(before, floor), Since(Recent(s), floor));
    SinceAgain(before, s.markedAt - UPLOAD_RATE_WINDOW_MS, floor);
    SinceIsNoMore(Window(before, s.markedAt), floor);
    SinceIsNoMore(Recent(s), floor);
  }

  // However uploads overlap, the bytes in any window stay below the budget plus what was charged
  // since the last admission, and those charges are uploads that were in flight together with it.
  lemma {:induction false} AWindowHoldsTheBudgetAndWhatWasInFlight(s: Server, traffic: seq<Traffic>, now: int, t: int)
    requires Bounded(s, now) && Onward(now, traffic, t)
    ensures var e := ServedAll(s, traffic);
            && e.mark <= |e.ledger.history| && |Recent(e)| <= e.together
            && Total(Window(e.ledger.history, t)) < UPLOAD_RATE_BYTES + Total(Recent(e))
    decreases |traffic|
  {
    if traffic == [] {
      WindowIsBounded(s, now, t);
    } else {
      if traffic[0].Admit? { AdmitBounded(s, traffic[0], now); } else { FinishBounded(s, traffic[0], now); }
      AWindowHoldsTheBudgetAndWhatWasInFlight(Served(s, traffic[0]), traffic[1..], traffic[0].now, t);
    }
  }

  // Each upload is charged before the next one asks.
  predicate OneAtATime(s: Server, traffic: seq<Traffic>)
    decreases |traffic|
  {
    traffic == [] || ((traffic[0].Admit? ==> s.inFlight == 0) && OneAtATime(Served(s, traffic[0]), traffic[1..]))
  }

  lemma {:induction false} OneIsInFlight(s: Server, traffic: seq<Traffic>)
    requires s.together <= 1 && OneAtATime(s, traffic)
    ensures ServedAll(s, traffic).together <= 1
    decreases |traffic|
  {
    if traffic != [] { OneIsInFlight(Served(s, traffic[0]), traffic[1..]); }
  }

  // Then one upload may finish past the budget, and nothing more.
  lemma OnlyTheLastGoesPastTheBudget(traffic: seq<Traffic>, now: int, t: int)
    requires Onward(now, traffic, t) && OneAtATime(Opened(now), traffic)
    ensures var history := ServedAll(Opened(now), traffic).ledger.history;
            var last := if history == [] then 0 else history[|history| - 1].bytes;
            Total(Window(history, t)) < UPLOAD_RATE_BYTES + last
  {
    AWindowHoldsTheBudgetAndWhatWasInFlight(Opened(now), traffic, now, t);
    OneIsInFlight(Opened(now), traffic);
    var e := ServedAll(Opened(now), traffic);
    if Recent(e) != [] {
      assert Recent(e) == [e.ledger.history[|e.ledger.history| - 1]];
      OneCharge(Recent(e)[0], 0);
    }
  }

  // ---- what overlapping uploads can do ----

  function Together(n: nat): Server { if n == 0 then Opened(0) else Served(Together(n - 1), Admit(0)) }

  function AllFinished(n: nat, k: nat, bytes: nat): Server {
    if k == 0 then Together(n) else Served(AllFinished(n, k - 1, bytes), Finish(bytes, 0))
  }

  lemma {:induction false} AllAreAdmitted(n: nat)
    ensures Together(n).inFlight == n && Together(n).ledger == Ledger([], [])
  {
    if n > 0 { AllAreAdmitted(n - 1); }
  }

  lemma {:induction false} AllAreCharged(n: nat, k: nat, bytes: nat)
    requires k <= n && bytes > 0
    ensures var s := AllFinished(n, k, bytes);
            && s.inFlight == n - k && Window(s.ledger.history, 0) == s.ledger.history
            && Total(s.ledger.history) == k * bytes
  {
    if k == 0 {
      AllAreAdmitted(n);
    } else {
      AllAreCharged(n, k - 1, bytes);
      OneMoreIsCharged(AllFinished(n, k - 1, bytes), bytes);
      OneMoreTime(k, bytes);
    }
  }

  lemma OneMoreIsCharged(s: Server, bytes: nat)
    requires s.inFlight > 0 && bytes > 0 && Window(s.ledger.history, 0) == s.ledger.history
    ensures var t := Served(s, Finish(bytes, 0));
            && t.inFlight == s.inFlight - 1 && Window(t.ledger.history, 0) == t.ledger.history
            && Total(t.ledger.history) == Total(s.ledger.history) + bytes
  {
    var before, c := s.ledger.history, Charge(0, bytes);
    SinceSplits(before, [c], 0 - UPLOAD_RATE_WINDOW_MS as int);
    TotalSplits(before, [c]);
    OneCharge(c, 0 - UPLOAD_RATE_WINDOW_MS as int);
    assert Served(s, Finish(bytes, 0)).ledger.history == before + [c];
  }

  lemma OneMoreTime(k: nat, bytes: nat)
    requires k > 0
    ensures (k - 1) * bytes + bytes == k * bytes
  {}

  // Uploads that all ask before any has been charged are all admitted: a window has no bound.
  lemma OverlappingUploadsHaveNoBound(n: nat, bytes: nat)
    requires bytes > 0
    ensures Total(Window(AllFinished(n, n, bytes).ledger.history, 0)) == n * bytes
  {
    AllAreCharged(n, n, bytes);
  }
}
