// Installing an agent: the gate around the script, one run's transcript and outcome, and every
// interleaving of starts, output, closes, waits, cancels, sweeps and shutdown.

module AgentScripts {
  import opened Common

  datatype Kind = Update | Install
  datatype Holder = Holder(kind: Kind, agent: Option<string>)

  function Taken(held: Option<Holder>, kind: Kind, agent: Option<string>): Option<Holder> {
    if held.Some? then held else Some(Holder(kind, agent))
  }

  // A release is checked by kind and by nothing else.
  function Released(held: Option<Holder>, kind: Kind): Option<Holder> {
    if held.Some? && held.value.kind == kind then None else held
  }

  class AgentScriptGate {
    var held: Option<Holder>

    constructor ()
      ensures held == None
    {
      held := None;
    }

    method TryHold(kind: Kind, agent: Option<string>) returns (took: bool)
      modifies this
      ensures held == Taken(old(held), kind, agent)
      ensures took == (old(held) == None)
    {
      if held != None { return false; }
      held := Some(Holder(kind, agent));
      return true;
    }

    method Release(kind: Kind)
      modifies this
      ensures held == Released(old(held), kind)
    {
      if held != None && held.value.kind == kind { held := None; }
    }
  }
}

module InstallRuns {
  import opened Common
  import opened AgentScripts
  import opened LineFraming
  import opened Transcripts

  const INSTALL_RETAIN_MS: nat := 600_000

  datatype Stream = Stdout | Stderr
  datatype Phase = Start | Download | Installing | Link | Done | Failed
  datatype Outcome = Running | Installed | DidFail | Locked | TimedOut | Cancelled | SpawnFailed
  datatype Exit = Exit(code: Option<int>, signal: Option<string>)

  // ---- the script's checkpoints ----

  function IndexOf(s: string, c: char): (i: nat)
    ensures i <= |s|
  {
    if s == "" || s[0] == c then 0 else 1 + IndexOf(s[1..], c)
  }

  function PhaseNamed(name: string): Option<Phase> {
    if name == "start" then Some(Start)
    else if name == "download" then Some(Download)
    else if name == "install" then Some(Installing)
    else if name == "link" then Some(Link)
    else if name == "done" then Some(Done)
    else if name == "failed" then Some(Failed)
    else None
  }

  predicate IsWord(s: string) { s != "" && forall i :: 0 <= i < |s| ==> !IsSpace(s[i]) }

  // The phase a line reports for `agent`, if it is a checkpoint for that agent.
  function StepFor(agent: string, line: string): Option<Phase> {
    var text := TrimEnd(TrimStart(line, IsSpace), IsSpace);
    if |text| < 6 || text[..6] != "step: " then None
    else
      var words := text[6..];
      var gap := IndexOf(words, ' ');
      if gap == |words| || words[..gap] != agent || !IsWord(agent) then None
      else PhaseNamed(words[gap + 1..])
  }

  // The phase after a list of complete lines.
  function PhaseAfter(agent: string, phase: Option<Phase>, lines: seq<string>): Option<Phase>
    decreases |lines|
  {
    if lines == [] then phase
    else
      var step := StepFor(agent, lines[0]);
      PhaseAfter(agent, if step.Some? then step else phase, lines[1..])
  }

  // ---- what a checkpoint is, on the text alone ----

  predicate AllSpace(s: string) { forall i :: 0 <= i < |s| ==> IsSpace(s[i]) }

  // The line is that text with nothing but white space around it.
  ghost predicate TrimsTo(line: string, text: string) {
    exists a, b :: AllSpace(a) && AllSpace(b) && line == a + text + b
  }

  ghost predicate IsCheckpoint(agent: string, line: string, name: string) {
    TrimsTo(line, "step: " + agent + " " + name)
  }

  ghost predicate Reports(agent: string, line: string, phase: Phase) {
    match phase
    case Start => IsCheckpoint(agent, line, "start")
    case Download => IsCheckpoint(agent, line, "download")
    case Installing => IsCheckpoint(agent, line, "install")
    case Link => IsCheckpoint(agent, line, "link")
    case Done => IsCheckpoint(agent, line, "done")
    case Failed => IsCheckpoint(agent, line, "failed")
  }

  lemma {:induction false} TrimStartSplits(s: string) returns (a: string)
    ensures AllSpace(a) && s == a + TrimStart(s, IsSpace)
    ensures TrimStart(s, IsSpace) != [] ==> !IsSpace(TrimStart(s, IsSpace)[0])
  {
    if s != [] && IsSpace(s[0]) {
      var rest := TrimStartSplits(s[1..]);
      a := [s[0]] + rest;
      assert s == [s[0]] + s[1..];
    } else {
      a := "";
      assert "" + s == s;
    }
  }

  lemma {:induction false} TrimEndSplits(s: string) returns (b: string)
    ensures AllSpace(b) && s == TrimEnd(s, IsSpace) + b
  {
    if s != [] && IsSpace(s[|s| - 1]) {
      var rest := TrimEndSplits(s[..|s| - 1]);
      b := rest + [s[|s| - 1]];
      assert s == s[..|s| - 1] + [s[|s| - 1]];
    } else {
      b := "";
      assert s + "" == s;
    }
  }

  lemma {:induction false} TrimStartDrops(a: string, s: string)
    requires AllSpace(a) && s != "" && !IsSpace(s[0])
    ensures TrimStart(a + s, IsSpace) == s
  {
    if a == "" {
      assert a + s == s;
    } else {
      assert (a + s)[1..] == a[1..] + s;
      TrimStartDrops(a[1..], s);
    }
  }

  lemma {:induction false} TrimEndDrops(s: string, b: string)
    requires AllSpace(b) && s != "" && !IsSpace(s[|s| - 1])
    ensures TrimEnd(s + b, IsSpace) == s
    decreases |b|
  {
    if b == "" {
      assert s + b == s;
    } else {
      assert (s + b)[..|s + b| - 1] == s + b[..|b| - 1];
      TrimEndDrops(s, b[..|b| - 1]);
    }
  }

  // A text that neither begins nor ends with white space is what `trim` leaves exactly when the line is
  // that text with white space around it.
  lemma TrimmingExactly(line: string, text: string)
    requires text != "" && !IsSpace(text[0]) && !IsSpace(text[|text| - 1])
    ensures TrimEnd(TrimStart(line, IsSpace), IsSpace) == text <==> TrimsTo(line, text)
  {
    if TrimEnd(TrimStart(line, IsSpace), IsSpace) == text {
      var a := TrimStartSplits(line);
      var b := TrimEndSplits(TrimStart(line, IsSpace));
      Between(a, text, b);
    }
    if TrimsTo(line, text) {
      var a, b :| AllSpace(a) && AllSpace(b) && line == a + text + b;
      Between(a, text, b);
      TrimStartDrops(a, text + b);
      TrimEndDrops(text, b);
    }
  }

  lemma Between(a: string, text: string, b: string)
    ensures a + text + b == a + (text + b)
  {}

  lemma {:induction false} IndexAfter(word: string, rest: string)
    requires IsWord(word)
    ensures IndexOf(word + " " + rest, ' ') == |word|
  {
    var all := word + " " + rest;
    assert all[1..] == word[1..] + " " + rest;
    if |word| > 1 { IndexAfter(word[1..], rest); } else { assert word[1..] == "" && "" + " " + rest == " " + rest; }
  }

  lemma {:induction false} IndexIsThere(s: string, c: char)
    ensures IndexOf(s, c) < |s| ==> s[IndexOf(s, c)] == c
  {
    if s != "" && s[0] != c { IndexIsThere(s[1..], c); }
  }

  // What is left of a trimmed line is a checkpoint's name exactly when the line is that checkpoint.
  lemma NamedExactly(agent: string, text: string, name: string)
    requires IsWord(agent) && IsWord(name)
    ensures text == "step: " + agent + " " + name
            <==> |text| >= 6 && text[..6] == "step: "
                 && var words := text[6..];
                    var gap := IndexOf(words, ' ');
                    gap < |words| && words[..gap] == agent && words[gap + 1..] == name
  {
    var whole := "step: " + agent + " " + name;
    assert whole[..6] == "step: " && whole[6..] == agent + " " + name;
    IndexAfter(agent, name);
    assert (agent + " " + name)[..|agent|] == agent && (agent + " " + name)[|agent| + 1..] == name;
    if |text| >= 6 && text[..6] == "step: " {
      var words := text[6..];
      var gap := IndexOf(words, ' ');
      IndexIsThere(words, ' ');
      if gap < |words| {
        assert words == words[..gap] + " " + words[gap + 1..];
        assert text == "step: " + words;
      }
    }
  }

  lemma CheckpointExactly(agent: string, line: string, name: string)
    requires IsWord(agent) && IsWord(name)
    ensures var text := TrimEnd(TrimStart(line, IsSpace), IsSpace);
            IsCheckpoint(agent, line, name)
            <==> |text| >= 6 && text[..6] == "step: "
                 && var words := text[6..];
                    var gap := IndexOf(words, ' ');
                    gap < |words| && words[..gap] == agent && words[gap + 1..] == name
  {
    var whole := "step: " + agent + " " + name;
    assert whole[0] == 's' && whole[|whole| - 1] == name[|name| - 1];
    TrimmingExactly(line, whole);
    NamedExactly(agent, TrimEnd(TrimStart(line, IsSpace), IsSpace), name);
  }

  predicate IsLower(s: string) { forall i :: 0 <= i < |s| ==> 'a' <= s[i] <= 'z' }

  lemma LowerIsWord(s: string)
    requires s != "" && IsLower(s)
    ensures IsWord(s)
  {}

  lemma TheNames()
    ensures IsLower("start") && IsLower("download") && IsLower("install")
    ensures IsLower("link") && IsLower("done") && IsLower("failed") && "link" != "done"
  {
    assert "link"[0] != "done"[0];
  }

  function Spelled(phase: Phase): string {
    match phase
    case Start => "start"
    case Download => "download"
    case Installing => "install"
    case Link => "link"
    case Done => "done"
    case Failed => "failed"
  }

  lemma SpelledExactly(name: string, phase: Phase)
    ensures PhaseNamed(name) == Some(phase) <==> name == Spelled(phase)
    ensures IsWord(Spelled(phase))
  {
    TheNames();
    LowerIsWord(Spelled(phase));
  }

  lemma StepExactly(agent: string, line: string, phase: Phase)
    requires IsWord(agent)
    ensures StepFor(agent, line) == Some(phase) <==> IsCheckpoint(agent, line, Spelled(phase))
  {
    var text := TrimEnd(TrimStart(line, IsSpace), IsSpace);
    SpelledExactly("", phase);
    CheckpointExactly(agent, line, Spelled(phase));
    if |text| >= 6 {
      var words := text[6..];
      var gap := IndexOf(words, ' ');
      if gap < |words| { SpelledExactly(words[gap + 1..], phase); }
    }
  }

  // A line reports a phase exactly when it trims to that checkpoint for this agent.
  lemma ALineReportsExactly(agent: string, line: string, phase: Phase)
    requires IsWord(agent)
    ensures StepFor(agent, line) == Some(phase) <==> Reports(agent, line, phase)
  {
    StepExactly(agent, line, phase);
  }

  // ---- the phase a text is in ----

  ghost predicate NoneReports(agent: string, lines: seq<string>) {
    forall i, phase :: 0 <= i < |lines| ==> !Reports(agent, lines[i], phase)
  }

  // The last checkpoint among some lines.
  ghost predicate LastReported(agent: string, lines: seq<string>, phase: Phase) {
    exists i :: 0 <= i < |lines| && Reports(agent, lines[i], phase) && NoneReports(agent, lines[i + 1..])
  }

  lemma {:induction false} ThePhaseIsTheLastReported(agent: string, phase: Option<Phase>, lines: seq<string>)
    requires IsWord(agent)
    ensures NoneReports(agent, lines) ==> PhaseAfter(agent, phase, lines) == phase
    ensures !NoneReports(agent, lines) ==>
              PhaseAfter(agent, phase, lines).Some? && LastReported(agent, lines, PhaseAfter(agent, phase, lines).value)
    decreases |lines|
  {
    if lines != [] {
      var step, later := StepFor(agent, lines[0]), lines[1..];
      var now := if step.Some? then step else phase;
      forall p ensures step == Some(p) <==> Reports(agent, lines[0], p) { ALineReportsExactly(agent, lines[0], p); }
      ThePhaseIsTheLastReported(agent, now, later);
      assert NoneReports(agent, lines) <==> step == None && NoneReports(agent, later) by { NoneCons(agent, lines); }
      if !NoneReports(agent, later) {
        var p := PhaseAfter(agent, now, later).value;
        var i :| 0 <= i < |later| && Reports(agent, later[i], p) && NoneReports(agent, later[i + 1..]);
        assert lines[i + 1] == later[i] && lines[i + 1 + 1..] == later[i + 1..];
      } else if step.Some? {
        assert Reports(agent, lines[0], step.value) && lines[0 + 1..] == later;
      }
    }
  }

  lemma NoneCons(agent: string, lines: seq<string>)
    requires lines != []
    ensures NoneReports(agent, lines) <==> (forall p :: !Reports(agent, lines[0], p)) && NoneReports(agent, lines[1..])
  {
    if NoneReports(agent, lines) {
      forall i, p | 0 <= i < |lines[1..]| ensures !Reports(agent, lines[1..][i], p) {
        assert lines[1..][i] == lines[i + 1];
      }
    }
    if (forall p :: !Reports(agent, lines[0], p)) && NoneReports(agent, lines[1..]) {
      forall i, p | 0 <= i < |lines| ensures !Reports(agent, lines[i], p) {
        if i > 0 { assert lines[i] == lines[1..][i - 1]; }
      }
    }
  }

  // What `trim` takes off is white space, and a line is blank when nothing else is on it.
  lemma ALineIsBlankExactly(line: string)
    ensures IsBlank(line) <==> TrimEnd(TrimStart(line, IsSpace), IsSpace) == ""
  {
    var a := TrimStartSplits(line);
    var b := TrimEndSplits(TrimStart(line, IsSpace));
    var text := TrimEnd(TrimStart(line, IsSpace), IsSpace);
    if text == "" {
      assert line == a + b;
    }
    assert text != "" ==> line[|a|] == TrimStart(line, IsSpace)[0] && !IsSpace(line[|a|]);
  }

  // ---- one run ----

  datatype Run = Run(agent: string, transcript: Transcript, out: string, err: string, phase: Option<Phase>,
                     outcome: Outcome, exit: Option<Exit>, endedAt: Option<int>, settling: bool,
                     signals: seq<Option<Phase>>)
  {
    predicate IsDone() { endedAt.Some? }

    predicate Cancellable() { !IsDone() && phase != Some(Installing) && phase != Some(Link) }

    function Carry(stream: Stream): string { if stream == Stdout then out else err }

    function WithCarry(stream: Stream, carry: string): Run {
      if stream == Stdout then this.(out := carry) else this.(err := carry)
    }

    function Appended(text: string, stream: Stream): Run {
      var whole := Carry(stream) + text;
      var kept := WithCarry(stream, Rest(whole));
      if Whole(whole) == "" then kept
      else kept.(phase := PhaseAfter(agent, phase, Lines(whole)), transcript := transcript.Append(Whole(whole)))
    }

    function Flushed(): Run {
      this.(transcript := transcript.Append(out + err), out := "", err := "")
    }

    function Ended(how: Exit, what: Outcome, now: int): Run {
      if IsDone() then this else Flushed().(exit := Some(how), outcome := what, endedAt := Some(now))
    }

    predicate CanSettle() { !settling && !IsDone() }

    // A signal sent is remembered with the phase it was sent in.
    function Signalled(): Run {
      if Cancellable() then this.(signals := signals + [phase]) else this
    }

    predicate Expired(now: int) { IsDone() && now - endedAt.value > INSTALL_RETAIN_MS }
  }

  function NewRun(agent: string): Run {
    Run(agent, Transcript("", 0), "", "", None, Running, None, None, false, [])
  }

  class InstallRun {
    var run: Run

    constructor (agent: string)
      ensures run == NewRun(agent)
    {
      run := NewRun(agent);
    }

    method Append(text: string, stream: Stream)
      modifies this
      ensures run == old(run).Appended(text, stream)
    {
      var whole := run.Carry(stream) + text;
      var complete := Whole(whole);
      run := run.WithCarry(stream, Rest(whole));
      if complete == "" { return; }
      ghost var before := run;
      var lines := Lines(whole);
      var phase := run.phase;
      var i := 0;
      while i < |lines|
        invariant 0 <= i <= |lines|
        invariant PhaseAfter(run.agent, phase, lines[i..]) == PhaseAfter(run.agent, run.phase, lines)
        invariant run == before
      {
        var step := StepFor(run.agent, lines[i]);
        assert lines[i..][1..] == lines[i + 1..];
        if step.Some? { phase := step; }
        i := i + 1;
      }
      run := run.(phase := phase, transcript := run.transcript.Append(complete));
    }

    method End(how: Exit, what: Outcome, now: int)
      modifies this
      ensures run == old(run).Ended(how, what, now)
    {
      if run.IsDone() { return; }
      FlushCarry();
      run := run.(exit := Some(how), outcome := what, endedAt := Some(now));
    }

    method FlushCarry()
      modifies this
      ensures run == old(run).Flushed()
    {
      var buffer := run.transcript.buffer;
      if |run.out| > 0 {
        buffer := buffer + run.out;
        run := run.(out := "");
      }
      if |run.err| > 0 {
        buffer := buffer + run.err;
        run := run.(err := "");
      }
      assert buffer == old(run).transcript.buffer + (old(run).out + old(run).err);
      run := run.(transcript := Transcript(buffer, run.transcript.dropped).Cap());
    }

    method BeginSettle() returns (mine: bool)
      modifies this
      ensures mine == old(run).CanSettle()
      ensures run == if mine then old(run).(settling := true) else old(run)
    {
      if run.settling || run.endedAt.Some? { return false; }
      run := run.(settling := true);
      return true;
    }

    method Cancel() returns (sent: bool)
      modifies this
      ensures sent == old(run).Cancellable() && run == old(run).Signalled()
    {
      if run.IsDone() || !run.Cancellable() { return false; }
      run := run.(signals := run.signals + [run.phase]);
      return true;
    }
  }

  // ---- what a run makes of its two streams ----

  datatype Chunk = Chunk(text: string, stream: Stream)

  function AppendedAll(run: Run, chunks: seq<Chunk>): Run
    decreases |chunks|
  {
    if chunks == [] then run else AppendedAll(run.Appended(chunks[0].text, chunks[0].stream), chunks[1..])
  }

  function TextOf(chunks: seq<Chunk>, stream: Stream): string {
    if chunks == [] then ""
    else (if chunks[0].stream == stream then chunks[0].text else "") + TextOf(chunks[1..], stream)
  }

  lemma {:induction false} PhaseAfterSplits(agent: string, phase: Option<Phase>, a: seq<string>, b: seq<string>)
    ensures PhaseAfter(agent, phase, a + b) == PhaseAfter(agent, PhaseAfter(agent, phase, a), b)
    decreases |a|
  {
    if a == [] {
      assert a + b == b;
    } else {
      var step := StepFor(agent, a[0]);
      assert (a + b)[1..] == a[1..] + b;
      PhaseAfterSplits(agent, if step.Some? then step else phase, a[1..], b);
    }
  }

  predicate SaysNothing(agent: string, lines: seq<string>) {
    forall i :: 0 <= i < |lines| ==> StepFor(agent, lines[i]) == None
  }

  lemma {:induction false} SilenceKeepsPhase(agent: string, phase: Option<Phase>, lines: seq<string>)
    requires SaysNothing(agent, lines)
    ensures PhaseAfter(agent, phase, lines) == phase
  {
    if lines != [] {
      assert StepFor(agent, lines[0]) == None;
      assert SaysNothing(agent, lines[1..]);
      SilenceKeepsPhase(agent, phase, lines[1..]);
    }
  }

  lemma {:induction false} NothingWholeNoLines(s: string)
    ensures Whole(s) == "" <==> Lines(s) == []
  {}

  // One chunk: its stream's carry and, whether or not a line was completed, the phase.
  lemma AppendedIs(run: Run, chunk: Chunk)
    ensures var next := run.Appended(chunk.text, chunk.stream);
            var whole := run.Carry(chunk.stream) + chunk.text;
            && next.agent == run.agent
            && next.out == (if chunk.stream == Stdout then Rest(whole) else run.out)
            && next.err == (if chunk.stream == Stderr then Rest(whole) else run.err)
            && next.phase == PhaseAfter(run.agent, run.phase, Lines(whole))
  {
    NothingWholeNoLines(run.Carry(chunk.stream) + chunk.text);
  }

  lemma SilentSplits(agent: string, a: string, b: string)
    requires SaysNothing(agent, Lines(a + b))
    ensures SaysNothing(agent, Lines(a)) && SaysNothing(agent, Lines(Rest(a) + b))
  {
    FramingSplits(a, b);
    var first, second := Lines(a), Lines(Rest(a) + b);
    forall i | 0 <= i < |first| ensures StepFor(agent, first[i]) == None {
      assert first[i] == (first + second)[i];
    }
    forall i | 0 <= i < |second| ensures StepFor(agent, second[i]) == None {
      assert second[i] == (first + second)[|first| + i];
    }
  }

  lemma ThenMore(carry: string, chunk: string, later: string)
    ensures Rest(carry + (chunk + later)) == Rest(Rest(carry + chunk) + later)
  {
    assert carry + (chunk + later) == (carry + chunk) + later;
    RestSplits(carry + chunk, later);
  }

  lemma {:induction false} CarryIsTheRest(run: Run, chunks: seq<Chunk>, stream: Stream)
    requires LineEnd(run.Carry(stream)) == |run.Carry(stream)|
    ensures AppendedAll(run, chunks).Carry(stream) == Rest(run.Carry(stream) + TextOf(chunks, stream))
    decreases |chunks|
  {
    if chunks == [] {
      assert run.Carry(stream) + "" == run.Carry(stream);
    } else {
      var chunk, later := chunks[0], TextOf(chunks[1..], stream);
      AppendedIs(run, chunk);
      var next := run.Appended(chunk.text, chunk.stream);
      if chunk.stream == stream {
        RestOfRest(run.Carry(stream) + chunk.text);
        ThenMore(run.Carry(stream), chunk.text, later);
      } else {
        assert "" + later == later;
      }
      CarryIsTheRest(next, chunks[1..], stream);
    }
  }

  lemma ThenMoreLines(agent: string, phase: Option<Phase>, carry: string, chunk: string, later: string)
    ensures PhaseAfter(agent, phase, Lines(carry + (chunk + later)))
            == PhaseAfter(agent, PhaseAfter(agent, phase, Lines(carry + chunk)), Lines(Rest(carry + chunk) + later))
  {
    assert carry + (chunk + later) == (carry + chunk) + later;
    FramingSplits(carry + chunk, later);
    PhaseAfterSplits(agent, phase, Lines(carry + chunk), Lines(Rest(carry + chunk) + later));
  }

  lemma SilentThenMore(agent: string, phase: Option<Phase>, carry: string, chunk: string, later: string)
    requires SaysNothing(agent, Lines(carry + (chunk + later)))
    ensures PhaseAfter(agent, phase, Lines(carry + chunk)) == phase
    ensures SaysNothing(agent, Lines(Rest(carry + chunk) + later))
  {
    assert carry + (chunk + later) == (carry + chunk) + later;
    SilentSplits(agent, carry + chunk, later);
    SilenceKeepsPhase(agent, phase, Lines(carry + chunk));
  }

  // However the two streams are cut and interleaved, a run whose warnings hold no checkpoint is in
  // the phase its standard output says when read whole.
  lemma {:induction false} WarningsDoNotMoveThePhase(run: Run, chunks: seq<Chunk>)
    requires LineEnd(run.out) == |run.out|
    requires SaysNothing(run.agent, Lines(run.err + TextOf(chunks, Stderr)))
    ensures AppendedAll(run, chunks).phase
            == PhaseAfter(run.agent, run.phase, Lines(run.out + TextOf(chunks, Stdout)))
    decreases |chunks|
  {
    if chunks == [] {
      assert run.out + "" == run.out;
    } else {
      var chunk, out, err := chunks[0], TextOf(chunks[1..], Stdout), TextOf(chunks[1..], Stderr);
      AppendedIs(run, chunk);
      var next := run.Appended(chunk.text, chunk.stream);
      assert "" + out == out && "" + err == err;
      if chunk.stream == Stdout {
        RestOfRest(run.out + chunk.text);
        ThenMoreLines(run.agent, run.phase, run.out, chunk.text, out);
      } else {
        SilentThenMore(run.agent, run.phase, run.err, chunk.text, err);
      }
      WarningsDoNotMoveThePhase(next, chunks[1..]);
    }
  }

  // The whole lines each chunk completes, in the order they reach the transcript.
  function Pieces(run: Run, chunks: seq<Chunk>): seq<Chunk>
    decreases |chunks|
  {
    if chunks == [] then []
    else
      var chunk := chunks[0];
      [Chunk(Whole(run.Carry(chunk.stream) + chunk.text), chunk.stream)]
      + Pieces(run.Appended(chunk.text, chunk.stream), chunks[1..])
  }

  function AllText(chunks: seq<Chunk>): string {
    if chunks == [] then "" else chunks[0].text + AllText(chunks[1..])
  }

  lemma AppendedTranscript(run: Run, chunk: Chunk, history: string)
    requires Keeps(run.transcript, history)
    ensures var piece := Whole(run.Carry(chunk.stream) + chunk.text);
            Keeps(run.Appended(chunk.text, chunk.stream).transcript, history + piece)
  {
    var piece := Whole(run.Carry(chunk.stream) + chunk.text);
    if piece == "" {
      assert history + piece == history;
    } else {
      AppendKeeps(run.transcript, history, piece);
    }
  }

  lemma PiecesCons(run: Run, chunks: seq<Chunk>, stream: Stream)
    requires chunks != []
    ensures var chunk := chunks[0];
            var piece := Whole(run.Carry(chunk.stream) + chunk.text);
            var later := Pieces(run.Appended(chunk.text, chunk.stream), chunks[1..]);
            && AllText(Pieces(run, chunks)) == piece + AllText(later)
            && TextOf(Pieces(run, chunks), stream)
               == (if chunk.stream == stream then piece else "") + TextOf(later, stream)
  {
    var later := Pieces(run.Appended(chunks[0].text, chunks[0].stream), chunks[1..]);
    assert Pieces(run, chunks)[1..] == later;
  }

  ghost predicate Holds(run: Run, history: string) { Keeps(run.transcript, history) }

  lemma Regroup(a: string, b: string, c: string, bc: string)
    requires bc == b + c
    ensures (a + b) + c == a + bc
  {}

  lemma {:induction false} PiecesReachTheTranscript(run: Run, history: string, chunks: seq<Chunk>)
    requires Holds(run, history)
    ensures Holds(AppendedAll(run, chunks), history + AllText(Pieces(run, chunks)))
    decreases |chunks|
  {
    if chunks == [] {
      assert history + AllText(Pieces(run, chunks)) == history;
    } else {
      var chunk := chunks[0];
      var next, piece := run.Appended(chunk.text, chunk.stream), Whole(run.Carry(chunk.stream) + chunk.text);
      AppendedTranscript(run, chunk, history);
      PiecesReachTheTranscript(next, history + piece, chunks[1..]);
      PiecesCons(run, chunks, Stdout);
      Regroup(history, piece, AllText(Pieces(next, chunks[1..])), AllText(Pieces(run, chunks)));
    }
  }

  lemma ThenTheRest(carry: string, chunk: string, later: string, pieces: string, last: string)
    requires pieces + last == Rest(carry + chunk) + later
    ensures Whole(carry + chunk) + pieces + last == carry + (chunk + later)
  {
    WholeAndRest(carry + chunk);
    calc {
      Whole(carry + chunk) + pieces + last;
      Whole(carry + chunk) + (pieces + last);
      Whole(carry + chunk) + Rest(carry + chunk) + later;
      carry + (chunk + later);
    }
  }

  // Nothing a stream said is lost, repeated or reordered: its completed lines and its carry, put
  // together, are everything that arrived on it.
  lemma {:induction false} EachStreamIsConserved(run: Run, chunks: seq<Chunk>, stream: Stream)
    ensures TextOf(Pieces(run, chunks), stream) + AppendedAll(run, chunks).Carry(stream)
            == run.Carry(stream) + TextOf(chunks, stream)
    decreases |chunks|
  {
    if chunks == [] {
      assert "" + run.Carry(stream) == run.Carry(stream) + "";
    } else {
      var chunk, later := chunks[0], chunks[1..];
      AppendedIs(run, chunk);
      var next := run.Appended(chunk.text, chunk.stream);
      EachStreamIsConserved(next, later, stream);
      PiecesCons(run, chunks, stream);
      var pieces, last := TextOf(Pieces(next, later), stream), AppendedAll(next, later).Carry(stream);
      if chunk.stream == stream {
        ThenTheRest(run.Carry(stream), chunk.text, TextOf(later, stream), pieces, last);
      } else {
        assert "" + TextOf(later, stream) == TextOf(later, stream) && "" + pieces == pieces;
      }
    }
  }

  // When a run ends, its transcript keeps the completed lines and then each stream's last partial
  // line, standard output's first.
  lemma EndFlushesEverything(chunks: seq<Chunk>, agent: string, how: Exit, what: Outcome, now: int)
    ensures var last := AppendedAll(NewRun(agent), chunks);
            var ended := last.Ended(how, what, now);
            && Keeps(last.transcript, AllText(Pieces(NewRun(agent), chunks)))
            && (!last.IsDone() ==>
                  && Keeps(ended.transcript, AllText(Pieces(NewRun(agent), chunks)) + (last.out + last.err))
                  && ended.out == "" && ended.err == "")
  {
    var run := NewRun(agent);
    PiecesReachTheTranscript(run, "", chunks);
    var last, text := AppendedAll(run, chunks), AllText(Pieces(run, chunks));
    assert "" + text == text;
    AppendKeeps(last.transcript, text, last.out + last.err);
  }
}
