// The phase of a run and the signals it gets, from the text its script wrote.

module InstallPhases {
  import opened Common
  import opened LineFraming
  import opened AgentScripts
  import opened InstallRuns
  import opened InstallSlot
  import opened InstallSystem

  // The lines that some chunks complete, in the order in which they are completed, `out` and `err` being
  // what is left of each stream so far.
  function Completed(out: string, err: string, chunks: seq<Chunk>): seq<string>
    decreases |chunks|
  {
    if chunks == [] then []
    else
      var whole := (if chunks[0].stream == Stdout then out else err) + chunks[0].text;
      Lines(whole)
      + if chunks[0].stream == Stdout then Completed(Rest(whole), err, chunks[1..])
        else Completed(out, Rest(whole), chunks[1..])
  }

  lemma {:induction false} ThePhaseIsTheTexts(run: Run, chunks: seq<Chunk>)
    ensures AppendedAll(run, chunks).phase == PhaseAfter(run.agent, run.phase, Completed(run.out, run.err, chunks))
    ensures AppendedAll(run, chunks).agent == run.agent
    decreases |chunks|
  {
    if chunks != [] {
      var chunk := chunks[0];
      var next, whole := run.Appended(chunk.text, chunk.stream), run.Carry(chunk.stream) + chunk.text;
      AppendedIs(run, chunk);
      ThePhaseIsTheTexts(next, chunks[1..]);
      PhaseAfterSplits(run.agent, run.phase, Lines(whole), Completed(next.out, next.err, chunks[1..]));
    }
  }

  // However the two streams are cut and interleaved, a new run is in the phase that the last checkpoint
  // among its completed lines names, and in none before the first.
  lemma ANewRunIsInThePhaseLastReported(agent: string, chunks: seq<Chunk>)
    requires IsWord(agent)
    ensures var lines, phase := Completed("", "", chunks), AppendedAll(NewRun(agent), chunks).phase;
            && (phase == None <==> NoneReports(agent, lines))
            && (forall p :: phase == Some(p) <==> LastReported(agent, lines, p))
  {
    var lines, phase := Completed("", "", chunks), AppendedAll(NewRun(agent), chunks).phase;
    ThePhaseIsTheTexts(NewRun(agent), chunks);
    ThePhaseIsTheLastReported(agent, None, lines);
    forall p ensures phase == Some(p) <==> LastReported(agent, lines, p) {
      if LastReported(agent, lines, p) {
        ReportedIsSomething(agent, lines, p);
        OneIsLast(agent, lines, p, phase.value);
      }
    }
  }

  lemma ReportedIsSomething(agent: string, lines: seq<string>, p: Phase)
    requires LastReported(agent, lines, p)
    ensures !NoneReports(agent, lines)
  {}

  lemma NoneAfter(agent: string, lines: seq<string>, i: nat)
    requires i < |lines| && NoneReports(agent, lines[i + 1..])
    ensures forall j, p :: i < j < |lines| ==> !Reports(agent, lines[j], p)
  {
    forall j, p | i < j < |lines| ensures !Reports(agent, lines[j], p) {
      assert lines[i + 1..][j - i - 1] == lines[j];
    }
  }

  lemma OneIsLast(agent: string, lines: seq<string>, p: Phase, q: Phase)
    requires IsWord(agent) && LastReported(agent, lines, p) && LastReported(agent, lines, q)
    ensures p == q
  {
    var i :| 0 <= i < |lines| && Reports(agent, lines[i], p) && NoneReports(agent, lines[i + 1..]);
    var j :| 0 <= j < |lines| && Reports(agent, lines[j], q) && NoneReports(agent, lines[j + 1..]);
    NoneAfter(agent, lines, i);
    NoneAfter(agent, lines, j);
    assert i == j;
    ALineReportsExactly(agent, lines[i], p);
    ALineReportsExactly(agent, lines[j], q);
  }

  // ---- in the whole system ----

  // What run `i` is given to read.
  function OutputTo(s: System, steps: seq<Step>, i: nat): seq<Chunk>
    decreases |steps|
  {
    if steps == [] then []
    else
      (if steps[0].Output? && steps[0].i == i && s.Names(i) then [steps[0].chunk] else [])
      + OutputTo(Next(s, steps[0]), steps[1..], i)
  }

  // The parts of a run that its output decides.
  predicate SameText(a: Run, b: Run) { a.agent == b.agent && a.phase == b.phase && a.out == b.out && a.err == b.err }

  lemma AppendedAlike(a: Run, b: Run, chunk: Chunk)
    requires SameText(a, b)
    ensures SameText(a.Appended(chunk.text, chunk.stream), b.Appended(chunk.text, chunk.stream))
  {}

  lemma {:induction false} AppendedAllAlike(a: Run, b: Run, chunks: seq<Chunk>)
    requires SameText(a, b)
    ensures SameText(AppendedAll(a, chunks), AppendedAll(b, chunks))
    decreases |chunks|
  {
    if chunks != [] {
      AppendedAlike(a, b, chunks[0]);
      AppendedAllAlike(a.Appended(chunks[0].text, chunks[0].stream), b.Appended(chunks[0].text, chunks[0].stream),
                       chunks[1..]);
    }
  }

  lemma StepKeepsText(s: System, step: Step, i: nat)
    requires s.Names(i)
    ensures Next(s, step).Names(i)
    ensures s.records[i].run.IsDone() ==> Next(s, step).records[i].run.IsDone()
    ensures var (r, t) := (s.records[i].run, Next(s, step).records[i].run);
            !t.IsDone() ==>
              SameText(t, if step.Output? && step.i == i then r.Appended(step.chunk.text, step.chunk.stream) else r)
  {
    match step
    case Begin(_, _) =>
    case Output(_, _) =>
    case Close(_, _, _) =>
    case Forgot(_) =>
    case Answered(_, _) =>
    case _ =>
  }

  lemma {:induction false} DoneStays(s: System, steps: seq<Step>, i: nat)
    requires s.Names(i) && s.records[i].run.IsDone()
    ensures After(s, steps).Names(i) && After(s, steps).records[i].run.IsDone()
    decreases |steps|
  {
    if steps != [] {
      StepKeepsText(s, steps[0], i);
      DoneStays(Next(s, steps[0]), steps[1..], i);
    }
  }

  // A run that is there and is not done has read exactly its output.
  lemma {:induction false} ARunIsItsOutput(s: System, steps: seq<Step>, i: nat)
    requires s.Names(i)
    ensures After(s, steps).Names(i)
    ensures var e := After(s, steps).records[i].run;
            !e.IsDone() ==> SameText(e, AppendedAll(s.records[i].run, OutputTo(s, steps, i)))
    decreases |steps|
  {
    if steps != [] {
      var step, next, later := steps[0], Next(s, steps[0]), OutputTo(Next(s, steps[0]), steps[1..], i);
      StepKeepsText(s, step, i);
      ARunIsItsOutput(next, steps[1..], i);
      var r := s.records[i].run;
      if next.records[i].run.IsDone() {
        DoneStays(next, steps[1..], i);
      } else if step.Output? && step.i == i {
        assert ([step.chunk] + later)[1..] == later;
        AppendedAllAlike(next.records[i].run, r.Appended(step.chunk.text, step.chunk.stream), later);
      } else {
        assert [] + later == later;
        AppendedAllAlike(next.records[i].run, r, later);
      }
    }
  }

  lemma NewRunsAreAdded(s: System, step: Step)
    ensures |s.records| <= |Next(s, step).records| <= |s.records| + 1
    ensures forall i :: |s.records| <= i < |Next(s, step).records| ==>
              Next(s, step).records[i].run == NewRun(Next(s, step).records[i].run.agent)
  {}

  lemma {:induction false} ALaterRunIsItsOutput(s: System, steps: seq<Step>, i: nat)
    requires !s.Names(i) && After(s, steps).Names(i)
    ensures var e := After(s, steps).records[i].run;
            !e.IsDone() ==> SameText(e, AppendedAll(NewRun(e.agent), OutputTo(s, steps, i)))
    decreases |steps|
  {
    if steps != [] {
      var next, later := Next(s, steps[0]), OutputTo(Next(s, steps[0]), steps[1..], i);
      NewRunsAreAdded(s, steps[0]);
      assert [] + later == later;
      if next.Names(i) {
        ARunIsItsOutput(next, steps[1..], i);
        ThePhaseIsTheTexts(next.records[i].run, later);
      } else {
        ALaterRunIsItsOutput(next, steps[1..], i);
      }
    }
  }

  // Over every run of the system: a cancel sends a signal if and only if the run is not done and the last
  // checkpoint its script completed names neither the install nor the link.
  lemma ASignalIsSentExactly(steps: seq<Step>, i: nat)
    requires After(FRESH, steps).Names(i) && IsWord(After(FRESH, steps).records[i].run.agent)
    ensures var (s, t) := (After(FRESH, steps), Next(After(FRESH, steps), Cancel(i)));
            var r, lines := s.records[i].run, Completed("", "", OutputTo(FRESH, steps, i));
            && t.Names(i)
            && |t.records[i].run.signals|
               == |r.signals| + if !r.IsDone() && !LastReported(r.agent, lines, Installing)
                                   && !LastReported(r.agent, lines, Link) then 1 else 0
  {
    RunKeeps(FRESH, steps);
    ACancelSends(After(FRESH, steps), i);
    ThePhaseOfALiveRun(steps, i);
  }

  lemma ACancelSends(s: System, i: nat)
    requires Inv(s) && s.Names(i)
    ensures Next(s, Cancel(i)).Names(i)
    ensures var r := s.records[i].run;
            |Next(s, Cancel(i)).records[i].run.signals|
            == |r.signals| + if !r.IsDone() && r.phase != Some(Installing) && r.phase != Some(Link) then 1 else 0
  {}

  lemma ThePhaseOfALiveRun(steps: seq<Step>, i: nat)
    requires After(FRESH, steps).Names(i) && IsWord(After(FRESH, steps).records[i].run.agent)
    ensures var r, lines := After(FRESH, steps).records[i].run, Completed("", "", OutputTo(FRESH, steps, i));
            !r.IsDone() ==> forall p :: r.phase == Some(p) <==> LastReported(r.agent, lines, p)
  {
    ALaterRunIsItsOutput(FRESH, steps, i);
    ANewRunIsInThePhaseLastReported(After(FRESH, steps).records[i].run.agent, OutputTo(FRESH, steps, i));
  }
}
