// The daemon's one install slot: starting, settling, reading, stopping and forgetting a run.

module InstallSlot {
  import opened Common
  import opened AgentScripts
  import opened InstallRuns

  datatype Start = Ok | Busy(holder: Holder) | CouldNotSpawn

  function SweptRun(current: Option<Run>, now: int): Option<Run> {
    if current.Some? && current.value.Expired(now) then None else current
  }

  // What a start answers, given the run in the slot after a sweep.
  function StartAnswer(stopped: bool, current: Option<Run>, held: Option<Holder>, spawns: bool): Start {
    if stopped then CouldNotSpawn
    else if current.Some? && !current.value.IsDone() then Busy(Holder(Install, Some(current.value.agent)))
    else if held.Some? then Busy(held.value)
    else if !spawns then CouldNotSpawn
    else Ok
  }

  class AgentInstallRuns {
    const gate: AgentScriptGate
    var current: InstallRun?
    var stopped: bool

    constructor (gate: AgentScriptGate)
      ensures this.gate == gate && current == null && !stopped
    {
      this.gate, current, stopped := gate, null, false;
    }

    ghost function Current(): Option<Run>
      reads this, current
    {
      if current == null then None else Some(current.run)
    }

    method Sweep(now: int)
      modifies this
      ensures stopped == old(stopped)
      ensures current == if SweptRun(old(Current()), now) == None then null else old(current)
    {
      if current != null && current.run.Expired(now) { current := null; }
    }

    // `spawns` is whether the script's process could be started.
    method Begin(agent: string, spawns: bool, now: int) returns (answer: Start)
      modifies this, gate
      ensures stopped == old(stopped)
      ensures var swept := if old(stopped) then old(Current()) else SweptRun(old(Current()), now);
              && answer == StartAnswer(stopped, swept, old(gate.held), spawns)
              && (answer == Ok ==>
                    && current != null && fresh(current) && current.run == NewRun(agent)
                    && gate.held == Some(Holder(Install, Some(agent))))
              && (answer != Ok ==>
                    && gate.held == old(gate.held)
                    && current == if swept == None then null else old(current))
    {
      if stopped { return CouldNotSpawn; }
      Sweep(now);
      if current != null && !current.run.IsDone() {
        return Busy(Holder(Install, Some(current.run.agent)));
      }
      var took := gate.TryHold(Install, Some(agent));
      if !took {
        return Busy(if gate.held != None then gate.held.value else Holder(Update, None));
      }
      if !spawns {
        gate.Release(Install);
        return CouldNotSpawn;
      }
      current := new InstallRun(agent);
      return Ok;
    }

    // The part of a settle before its first wait; the caller goes on only when `mine`.
    method BeginSettle(run: InstallRun) returns (mine: bool)
      modifies run
      ensures mine == old(run.run).CanSettle()
      ensures run.run == if mine then old(run.run).(settling := true) else old(run.run)
    {
      mine := run.BeginSettle();
    }

    // The part of a settle after its last wait.
    method FinishSettle(run: InstallRun, how: Exit, what: Outcome, now: int)
      modifies run, gate
      ensures run.run == old(run.run).Ended(how, what, now)
      ensures gate.held == Released(old(gate.held), Install)
    {
      run.End(how, what, now);
      gate.Release(Install);
    }

    // `run` is the one the caller's identifier names.
    method Cancel(run: InstallRun) returns (sent: bool)
      modifies run
      ensures sent == (current == run && old(run.run).Cancellable())
      ensures run.run == if current == run then old(run.run).Signalled() else old(run.run)
    {
      if current != run { return false; }
      sent := run.Cancel();
    }

    method Shutdown()
      modifies this`stopped
      ensures stopped
    {
      stopped := true;
    }
  }
}

module InstallSystem {
  import opened Common
  import opened AgentScripts
  import opened InstallRuns
  import opened InstallSlot

  // How far the settling of a run has got: it waits twice, and other things happen meanwhile.
  datatype Stage = Open | Forgetting(how: Exit, what: Outcome) | Asking(how: Exit) | Settled

  // A run with what happened to it: the first close it was given, how often everybody was told to
  // forget what they knew, and what the machine answered if it was asked.
  datatype Record = Record(run: Run, stage: Stage, close: Option<(Exit, Outcome)>, forgets: nat,
                           answer: Option<bool>)

  datatype System = System(records: seq<Record>, current: Option<nat>, held: Option<Holder>, stopped: bool,
                           now: int)
  {
    predicate Names(i: nat) { i < |records| }

    function Current(): Option<Run> {
      if current.Some? && Names(current.value) then Some(records[current.value].run) else None
    }

    function Swept(): System {
      if SweptRun(Current(), now) == None then this.(current := None) else this
    }

    function With(i: nat, record: Record): System
      requires Names(i)
    {
      this.(records := records[i := record])
    }
  }

  datatype Step =
    | Begin(agent: string, spawns: bool)
    | Output(i: nat, chunk: Chunk)
    | Close(i: nat, how: Exit, what: Outcome)
    | Forgot(i: nat)
    | Answered(i: nat, present: bool)
    | Cancel(i: nat)
    | Sweep
    | Shutdown
    | TakeUpdate
    | GiveUpdate
    | Wait(milliseconds: nat)

  function Begun(s: System, agent: string, spawns: bool): System {
    if s.stopped then s
    else
      var swept := s.Swept();
      if StartAnswer(s.stopped, swept.Current(), s.held, spawns) != Ok then swept
      else
        swept.(records := s.records + [Record(NewRun(agent), Open, None, 0, None)],
               current := Some(|s.records|),
               held := Some(Holder(Install, Some(agent))))
  }

  // A close, up to the settle's first wait.
  function Closed(s: System, i: nat, how: Exit, what: Outcome): System {
    if !s.Names(i) || !s.records[i].run.CanSettle() then s
    else
      var r := s.records[i];
      s.With(i, Record(r.run.(settling := true), Forgetting(how, what), Some((how, what)), r.forgets + 1, r.answer))
  }

  // The end of a settle, after its last wait.
  function Finished(s: System, i: nat, r: Record, how: Exit, what: Outcome): System
    requires s.Names(i)
  {
    s.With(i, r.(run := r.run.Ended(how, what, s.now), stage := Settled)).(held := Released(s.held, Install))
  }

  function AfterForgetting(s: System, i: nat): System {
    if !s.Names(i) || !s.records[i].stage.Forgetting? then s
    else
      var r := s.records[i];
      if r.stage.what == Running then s.With(i, r.(stage := Asking(r.stage.how)))
      else Finished(s, i, r, r.stage.how, r.stage.what)
  }

  function AfterAsking(s: System, i: nat, present: bool): System {
    if !s.Names(i) || !s.records[i].stage.Asking? then s
    else
      var r := s.records[i];
      Finished(s, i, r.(answer := Some(present)), r.stage.how, if present then Installed else DidFail)
  }

  function Next(s: System, step: Step): System {
    match step
    case Begin(agent, spawns) => Begun(s, agent, spawns)
    case Output(i, chunk) =>
      if !s.Names(i) then s
      else s.With(i, s.records[i].(run := s.records[i].run.Appended(chunk.text, chunk.stream)))
    case Close(i, how, what) => Closed(s, i, how, what)
    case Forgot(i) => AfterForgetting(s, i)
    case Answered(i, present) => AfterAsking(s, i, present)
    case Cancel(i) =>
      if s.current != Some(i) || !s.Names(i) then s
      else s.With(i, s.records[i].(run := s.records[i].run.Signalled()))
    case Sweep => s.Swept()
    case Shutdown => s.(stopped := true)
    case TakeUpdate => s.(held := Taken(s.held, Update, None))
    case GiveUpdate => s.(held := Released(s.held, Update))
    case Wait(milliseconds) => s.(now := s.now + milliseconds)
  }

  function After(s: System, steps: seq<Step>): System
    decreases |steps|
  {
    if steps == [] then s else After(Next(s, steps[0]), steps[1..])
  }

  const FRESH: System := System([], None, None, false, 0)

  // ---- what every run keeps ----

  // The outcome is the first close's, or the machine's answer when that close said nothing.
  function Verdict(close: (Exit, Outcome), answer: Option<bool>): Outcome {
    if close.1 != Running then close.1 else if answer == Some(true) then Installed else DidFail
  }

  ghost predicate RecordGood(r: Record) {
    && (r.run.settling <==> !r.stage.Open?)
    && (r.run.IsDone() <==> r.stage.Settled?)
    && (r.close == None <==> r.stage.Open?)
    && r.forgets == (if r.stage.Open? then 0 else 1)
    && (r.stage.Forgetting? ==> r.close == Some((r.stage.how, r.stage.what)))
    && (r.stage.Asking? ==> r.close == Some((r.stage.how, Running)))
    && (r.run.IsDone() ==> r.run.exit == Some(r.close.value.0) && r.run.outcome == Verdict(r.close.value, r.answer))
    && (!r.run.IsDone() ==> r.run.outcome == Running && r.answer == None)
    && (forall k :: 0 <= k < |r.run.signals| ==> r.run.signals[k] !in {Some(Installing), Some(Link)})
  }

  ghost predicate AllGood(s: System) { forall i :: 0 <= i < |s.records| ==> RecordGood(s.records[i]) }

  // A run that is not done is the one in the slot, and it holds the gate.
  ghost predicate LiveHolds(s: System) {
    forall i :: 0 <= i < |s.records| && !s.records[i].run.IsDone() ==>
      s.current == Some(i) && s.held == Some(Holder(Install, Some(s.records[i].run.agent)))
  }

  // An install holds the gate only for the live run in the slot.
  ghost predicate HoldIsLive(s: System) {
    s.held.Some? && s.held.value.kind == Install ==>
      s.Current().Some? && !s.Current().value.IsDone()
  }

  ghost predicate Inv(s: System) {
    && AllGood(s) && LiveHolds(s) && HoldIsLive(s)
    && (s.current.Some? ==> s.Names(s.current.value))
  }

  lemma OutputKeepsRecord(r: Record, chunk: Chunk)
    requires RecordGood(r)
    ensures RecordGood(r.(run := r.run.Appended(chunk.text, chunk.stream)))
    ensures r.run.Appended(chunk.text, chunk.stream).IsDone() == r.run.IsDone()
    ensures r.run.Appended(chunk.text, chunk.stream).agent == r.run.agent
  {}

  lemma SignalKeepsRecord(r: Record)
    requires RecordGood(r)
    ensures RecordGood(r.(run := r.run.Signalled()))
  {}

  lemma FinishKeepsRecord(r: Record, what: Outcome, now: int)
    requires RecordGood(r.(answer := None)) && (r.stage.Forgetting? || r.stage.Asking?)
    requires what == Verdict(r.close.value, r.answer)
    ensures RecordGood(r.(run := r.run.Ended(r.stage.how, what, now), stage := Settled))
  {}

  // Replacing a record by a good one that is as alive as it was.
  lemma ReplaceKeeps(s: System, i: nat, r: Record)
    requires Inv(s) && s.Names(i) && RecordGood(r)
    requires r.run.IsDone() == s.records[i].run.IsDone() && r.run.agent == s.records[i].run.agent
    ensures Inv(s.With(i, r))
  {}

  // Ending the live run frees the slot's hold, and no other.
  lemma FinishKeeps(s: System, i: nat, r: Record)
    requires Inv(s) && s.Names(i) && !s.records[i].run.IsDone()
    requires RecordGood(r) && r.run.IsDone()
    ensures Inv(s.With(i, r).(held := Released(s.held, Install)))
  {}

  lemma SweepKeeps(s: System)
    requires Inv(s)
    ensures Inv(s.Swept()) && s.Swept().records == s.records && s.Swept().held == s.held
    ensures s.Current().Some? && !s.Current().value.IsDone() ==> s.Swept() == s
  {}

  // A run is forgotten exactly when it has been over for more than ten minutes.
  lemma ARunIsForgottenExactly(s: System)
    requires Inv(s) && s.current.Some?
    ensures var r := s.records[s.current.value].run;
            s.Swept().current == if r.endedAt.Some? && s.now - r.endedAt.value > 600_000 then None else s.current
  {}

  lemma BeginKeeps(s: System, agent: string)
    requires Inv(s) && s.held == None
    ensures Inv(s.(records := s.records + [Record(NewRun(agent), Open, None, 0, None)],
                   current := Some(|s.records|), held := Some(Holder(Install, Some(agent)))))
  {
    assert RecordGood(Record(NewRun(agent), Open, None, 0, None));
  }

  lemma CloseKeeps(s: System, i: nat, how: Exit, what: Outcome)
    requires Inv(s)
    ensures Inv(Next(s, Close(i, how, what)))
  {
    if s.Names(i) && s.records[i].run.CanSettle() {
      var r := s.records[i];
      var closed := Record(r.run.(settling := true), Forgetting(how, what), Some((how, what)), r.forgets + 1, r.answer);
      ReplaceKeeps(s, i, closed);
    }
  }

  lemma ForgotKeeps(s: System, i: nat)
    requires Inv(s)
    ensures Inv(Next(s, Forgot(i)))
  {
    if s.Names(i) && s.records[i].stage.Forgetting? {
      var r := s.records[i];
      if r.stage.what == Running {
        ReplaceKeeps(s, i, r.(stage := Asking(r.stage.how)));
      } else {
        FinishKeepsRecord(r, r.stage.what, s.now);
        FinishKeeps(s, i, r.(run := r.run.Ended(r.stage.how, r.stage.what, s.now), stage := Settled));
      }
    }
  }

  lemma AnsweredKeeps(s: System, i: nat, present: bool)
    requires Inv(s)
    ensures Inv(Next(s, Answered(i, present)))
  {
    if s.Names(i) && s.records[i].stage.Asking? {
      var r := s.records[i].(answer := Some(present));
      var what := if present then Installed else DidFail;
      FinishKeepsRecord(r, what, s.now);
      FinishKeeps(s, i, r.(run := r.run.Ended(r.stage.how, what, s.now), stage := Settled));
    }
  }

  lemma StepKeeps(s: System, step: Step)
    requires Inv(s)
    ensures Inv(Next(s, step))
  {
    match step
    case Begin(agent, spawns) =>
      SweepKeeps(s);
      if StartAnswer(s.stopped, s.Swept().Current(), s.held, spawns) == Ok { BeginKeeps(s.Swept(), agent); }
    case Output(i, chunk) =>
      if s.Names(i) {
        var r := s.records[i];
        OutputKeepsRecord(r, chunk);
        ReplaceKeeps(s, i, r.(run := r.run.Appended(chunk.text, chunk.stream)));
      }
    case Close(i, how, what) => CloseKeeps(s, i, how, what);
    case Forgot(i) => ForgotKeeps(s, i);
    case Answered(i, present) => AnsweredKeeps(s, i, present);
    case Cancel(i) =>
      if s.current == Some(i) && s.Names(i) {
        SignalKeepsRecord(s.records[i]);
        ReplaceKeeps(s, i, s.records[i].(run := s.records[i].run.Signalled()));
      }
    case Sweep => SweepKeeps(s);
    case Shutdown =>
    case TakeUpdate =>
    case GiveUpdate =>
    case Wait(_) =>
  }

  lemma {:induction false} RunKeeps(s: System, steps: seq<Step>)
    requires Inv(s)
    ensures Inv(After(s, steps))
    decreases |steps|
  {
    if steps != [] {
      StepKeeps(s, steps[0]);
      RunKeeps(Next(s, steps[0]), steps[1..]);
    }
  }

  // In every interleaving: at most one run is live, the gate is held for an install exactly while
  // one is, a finished run has the verdict of its first close and told everybody to forget once,
  // and no signal was ever sent in the middle of a write.
  lemma EveryInterleavingIsSafe(steps: seq<Step>)
    ensures var s := After(FRESH, steps);
            && (forall i, j :: (0 <= i < |s.records| && 0 <= j < |s.records|
                                && !s.records[i].run.IsDone() && !s.records[j].run.IsDone()) ==> i == j)
            && ((s.held.Some? && s.held.value.kind == Install)
                <==> exists i :: 0 <= i < |s.records| && !s.records[i].run.IsDone())
            && (forall i :: 0 <= i < |s.records| && s.records[i].run.IsDone() ==>
                  var r := s.records[i];
                  r.close.Some? && r.forgets == 1 && r.run.exit == Some(r.close.value.0)
                  && r.run.outcome == Verdict(r.close.value, r.answer))
            && (forall i, k :: 0 <= i < |s.records| && 0 <= k < |s.records[i].run.signals| ==>
                  s.records[i].run.signals[k] !in {Some(Installing), Some(Link)})
  {
    RunKeeps(FRESH, steps);
    var s := After(FRESH, steps);
    if s.held.Some? && s.held.value.kind == Install {
      assert !s.records[s.current.value].run.IsDone();
    }
    forall i, k | 0 <= i < |s.records| && 0 <= k < |s.records[i].run.signals|
      ensures s.records[i].run.signals[k] !in {Some(Installing), Some(Link)}
    {
      assert RecordGood(s.records[i]);
    }
    forall i | 0 <= i < |s.records| && s.records[i].run.IsDone()
      ensures var r := s.records[i];
              r.close.Some? && r.forgets == 1 && r.run.exit == Some(r.close.value.0)
              && r.run.outcome == Verdict(r.close.value, r.answer)
    {
      assert RecordGood(s.records[i]);
    }
  }

  // ---- the first close decides ----

  function FirstClose(steps: seq<Step>, i: nat): Option<(Exit, Outcome)> {
    if steps == [] then None
    else if steps[0].Close? && steps[0].i == i then Some((steps[0].how, steps[0].what))
    else FirstClose(steps[1..], i)
  }

  lemma StepAndClose(s: System, step: Step, i: nat)
    requires Inv(s) && s.Names(i)
    ensures Next(s, step).Names(i)
    ensures Next(s, step).records[i].close
            == if s.records[i].close == None && step.Close? && step.i == i then Some((step.how, step.what))
               else s.records[i].close
  {
    assert RecordGood(s.records[i]);
  }

  // The close a run settles by is the first it was ever given; closes after that are ignored.
  lemma {:induction false} TheFirstCloseDecides(s: System, steps: seq<Step>, i: nat)
    requires Inv(s) && s.Names(i)
    ensures After(s, steps).Names(i)
    ensures After(s, steps).records[i].close
            == if s.records[i].close == None then FirstClose(steps, i) else s.records[i].close
    decreases |steps|
  {
    if steps != [] {
      StepKeeps(s, steps[0]);
      StepAndClose(s, steps[0], i);
      TheFirstCloseDecides(Next(s, steps[0]), steps[1..], i);
    }
  }

  // A close that comes late, or twice, changes nothing at all.
  lemma LateCloseChangesNothing(s: System, i: nat, how: Exit, what: Outcome)
    requires Inv(s) && s.Names(i) && s.records[i].close.Some?
    ensures Next(s, Close(i, how, what)) == s
  {
    assert RecordGood(s.records[i]);
  }

  lemma StepAfterDone(s: System, step: Step, i: nat)
    requires Inv(s) && s.Names(i) && s.records[i].run.IsDone()
    ensures Next(s, step).Names(i) && SameEnd(s.records[i], Next(s, step).records[i])
  {
    assert RecordGood(s.records[i]);
    match step
    case Close(_, _, _) => SettlingAfterDone(s, step, i);
    case Forgot(_) => SettlingAfterDone(s, step, i);
    case Answered(_, _) => SettlingAfterDone(s, step, i);
    case _ =>
  }

  predicate SameEnd(r: Record, t: Record) {
    && t.run.outcome == r.run.outcome && t.run.exit == r.run.exit && t.run.endedAt == r.run.endedAt
    && t.forgets == r.forgets && t.run.signals == r.run.signals
  }

  lemma SettlingAfterDone(s: System, step: Step, i: nat)
    requires Inv(s) && s.Names(i) && s.records[i].run.IsDone() && (step.Close? || step.Forgot? || step.Answered?)
    ensures Next(s, step).Names(i) && SameEnd(s.records[i], Next(s, step).records[i])
  {
    assert RecordGood(s.records[i]);
  }

  // What a finished run says about itself never changes, whatever happens afterwards.
  lemma {:induction false} DoneIsForever(s: System, steps: seq<Step>, i: nat)
    requires Inv(s) && s.Names(i) && s.records[i].run.IsDone()
    ensures After(s, steps).Names(i) && SameEnd(s.records[i], After(s, steps).records[i])
    decreases |steps|
  {
    if steps != [] {
      StepKeeps(s, steps[0]);
      StepAfterDone(s, steps[0], i);
      DoneIsForever(Next(s, steps[0]), steps[1..], i);
    }
  }

  // A closed run is two answers away from being done and giving the script back.
  lemma SettlingReturnsTheGate(s: System, i: nat, present: bool)
    requires Inv(s) && s.Names(i) && s.records[i].close.Some? && !s.records[i].run.IsDone()
    ensures var t := Next(Next(s, Forgot(i)), Answered(i, present));
            t.Names(i) && t.records[i].run.IsDone() && t.held == None
  {
    assert RecordGood(s.records[i]);
    var t := Next(s, Forgot(i));
    StepKeeps(s, Forgot(i));
    assert RecordGood(t.records[i]);
  }

  // ---- who may start ----

  // A start is refused exactly while somebody holds the script, and names that very holder.
  lemma RefusedExactlyWhileHeld(s: System, spawns: bool)
    requires Inv(s) && !s.stopped
    ensures var answer := StartAnswer(s.stopped, s.Swept().Current(), s.held, spawns);
            && (answer.Busy? <==> s.held.Some?)
            && (answer.Busy? ==> Some(answer.holder) == s.held)
            && (answer == Ok <==> s.held == None && spawns)
  {
    SweepKeeps(s);
  }

  // A script that cannot be started leaves the gate, the runs and any live run as they were.
  lemma FailedSpawnReturnsTheGate(s: System, agent: string)
    requires Inv(s)
    ensures var t := Next(s, Begin(agent, false));
            t.held == s.held && t.records == s.records
            && (s.Current().Some? && !s.Current().value.IsDone() ==> t == s)
  {
    SweepKeeps(s);
  }

  lemma {:induction false} NothingStartsAfterShutdown(s: System, steps: seq<Step>)
    requires s.stopped
    ensures After(s, steps).stopped && |After(s, steps).records| == |s.records|
    decreases |steps|
  {
    if steps != [] { NothingStartsAfterShutdown(Next(s, steps[0]), steps[1..]); }
  }

  // ---- what the latch is for ----

  // The gate's release looks at the kind alone, so a settle entered twice would, on its second
  // release, free a later run's hold: here is such a state.
  lemma ASecondReleaseWouldFreeASuccessor()
    ensures var how := Exit(Some(1), None);
            var settled := Next(Next(Next(FRESH, Begin("a", true)), Close(0, how, DidFail)), Forgot(0));
            var s := Next(settled, Begin("b", true));
            && s.held == Some(Holder(Install, Some("b"))) && s.Names(1) && !s.records[1].run.IsDone()
            && Released(s.held, Install) == None && !Inv(s.(held := Released(s.held, Install)))
  {
    var how := Exit(Some(1), None);
    var s1 := Next(FRESH, Begin("a", true));
    var s2 := Next(s1, Close(0, how, DidFail));
    var s3 := Next(s2, Forgot(0));
    var s4 := Next(s3, Begin("b", true));
    StepKeeps(FRESH, Begin("a", true));
    StepKeeps(s1, Close(0, how, DidFail));
    StepKeeps(s2, Forgot(0));
    assert s3.held == None && s3.records[0].run.IsDone();
  }
}
