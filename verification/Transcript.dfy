// A transcript that keeps only its newest part, read by clients through a cursor.

module Transcripts {
  const MAX_OUTPUT: nat := 64 * 1024

  // `dropped` characters have gone off the front of `buffer`.
  datatype Transcript = Transcript(buffer: string, dropped: nat) {
    function Cursor(): nat { dropped + |buffer| }

    // Appending, and the ceiling that runs after every append.
    function Append(text: string): Transcript {
      Transcript(buffer + text, dropped).Cap()
    }

    function Cap(): Transcript {
      if |buffer| <= MAX_OUTPUT then this
      else
        var cut := |buffer| - MAX_OUTPUT;
        Transcript(buffer[cut..], dropped + cut)
    }
  }

  datatype Read = Read(chunk: string, gap: bool)

  function ReadFrom(buffer: string, dropped: nat, since: nat): Read {
    var from := if since < dropped then dropped else since;
    Read(Slice(buffer, from - dropped), since < dropped)
  }

  // `slice` from an offset that may lie past the end.
  function Slice(s: string, from: nat): string {
    if from <= |s| then s[from..] else ""
  }

  // The transcript stands for `history`, all the text ever appended to it.
  ghost predicate Keeps(t: Transcript, history: string) {
    && t.Cursor() == |history| && t.dropped <= |history| && t.buffer == history[t.dropped..]
    && |t.buffer| <= 65_536
    && (t.dropped > 0 ==> |t.buffer| == 65_536)
  }

  lemma AppendKeeps(t: Transcript, history: string, text: string)
    requires Keeps(t, history)
    ensures Keeps(t.Append(text), history + text) && t.dropped <= t.Append(text).dropped
  {
    assert t.buffer + text == (history + text)[t.dropped..];
  }

  // A read is exact: what the history holds from the cursor on, or from the oldest survivor, and
  // a gap exactly when the cursor lies before it.
  lemma ReadIsExact(t: Transcript, history: string, since: nat)
    requires Keeps(t, history)
    ensures var r := ReadFrom(t.buffer, t.dropped, since);
            && (r.gap <==> since < |history| - |t.buffer|)
            && r.chunk == Slice(history, if r.gap then t.dropped else since)
  {}

  // ---- a polling client ----

  // A client remembers the cursor it was handed and everything it was served.
  datatype Poller = Poller(cursor: nat, text: string, sawGap: bool)

  datatype Step = Write(text: string) | Poll

  function Polled(p: Poller, t: Transcript): Poller {
    var r := ReadFrom(t.buffer, t.dropped, p.cursor);
    Poller(t.Cursor(), p.text + r.chunk, p.sawGap || r.gap)
  }

  ghost function Run(p: Poller, t: Transcript, history: string, steps: seq<Step>): (Poller, Transcript, string)
    decreases |steps|
  {
    if steps == [] then (p, t, history)
    else match steps[0]
      case Write(text) => Run(p, t.Append(text), history + text, steps[1..])
      case Poll => Run(Polled(p, t), t, history, steps[1..])
  }

  ghost predicate Tracks(p: Poller, t: Transcript, history: string) {
    && Keeps(t, history) && p.cursor <= |history|
    && (p.sawGap ==> |p.text| < p.cursor)
    && (!p.sawGap ==> p.text == history[..p.cursor])
  }

  lemma GapTracks(p: Poller, t: Transcript, history: string)
    requires Tracks(p, t, history) && p.cursor < t.dropped
    ensures |p.text + ReadFrom(t.buffer, t.dropped, p.cursor).chunk| < |history|
  {
    assert |p.text| <= p.cursor;
  }

  lemma WholeTracks(p: Poller, t: Transcript, history: string)
    requires Tracks(p, t, history) && p.cursor >= t.dropped
    ensures ReadFrom(t.buffer, t.dropped, p.cursor).chunk == history[p.cursor..]
    ensures !p.sawGap ==> p.text + history[p.cursor..] == history
  {
    ReadIsExact(t, history, p.cursor);
  }

  lemma PollTracks(p: Poller, t: Transcript, history: string)
    requires Tracks(p, t, history)
    ensures Tracks(Polled(p, t), t, history)
  {
    assert history[..|history|] == history;
    if p.cursor < t.dropped { GapTracks(p, t, history); } else { WholeTracks(p, t, history); }
  }

  // A client polling on any schedule holds exactly the history up to its cursor if it was never
  // told of a gap, and otherwise holds less.
  lemma {:induction false} PollingRebuilds(p: Poller, t: Transcript, history: string, steps: seq<Step>)
    requires Tracks(p, t, history)
    ensures var (p', t', history') := Run(p, t, history, steps);
            Tracks(p', t', history') && (p'.text == history'[..p'.cursor] <==> !p'.sawGap)
    decreases |steps|
  {
    if steps != [] {
      match steps[0]
      case Write(text) =>
        AppendKeeps(t, history, text);
        assert (history + text)[..p.cursor] == history[..p.cursor];
        PollingRebuilds(p, t.Append(text), history + text, steps[1..]);
      case Poll =>
        PollTracks(p, t, history);
        PollingRebuilds(Polled(p, t), t, history, steps[1..]);
    }
  }
}
