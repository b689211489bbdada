// How the attach client turns a stream of stored events into printed lines.
//
// The agent streams a few words per event. `TextRun` joins consecutive chunks into one
// paragraph, so what reaches the terminal is not one line per event. The class below is
// the program; `Canonical` is an independent description of what should be printed.

module SessionEvents {
  datatype Event = Text(text: string, thought: bool) | Other(line: string)

  datatype Stored = Stored(num: nat, event: Event)
}

module TextRuns {
  import opened SessionEvents

  datatype Line =
    | Group(first: nat, thought: bool, text: string)
    | Plain(num: nat, line: string)

  // The fields of a run, and everything it has written so far.
  datatype State = State(buffer: string, firstSeq: nat, thought: bool, lines: seq<Line>)

  function Flushed(r: State): State {
    if r.buffer == "" then r
    else r.(lines := r.lines + [Group(r.firstSeq, r.thought, r.buffer)], buffer := "")
  }

  function Added(r: State, num: nat, text: string, thought: bool): State {
    var f := if r.buffer != "" && r.thought != thought then Flushed(r) else r;
    var g := if f.buffer == "" then f.(firstSeq := num, thought := thought) else f;
    g.(buffer := g.buffer + text)
  }

  // One accepted event of an `events` frame, printed without `--json`.
  function Shown(r: State, stored: Stored): State {
    match stored.event
    case Text(text, thought) => Added(r, stored.num, text, thought)
    case Other(line) =>
      var f := Flushed(r);
      f.(lines := f.lines + [Plain(stored.num, line)])
  }

  function ShownAll(r: State, items: seq<Stored>): State
    decreases |items|
  {
    if items == [] then r else ShownAll(Shown(r, items[0]), items[1..])
  }

  class TextRun {
    var buffer: string
    var firstSeq: nat
    var thought: bool
    var lines: seq<Line>

    function View(): State
      reads this
    {
      State(buffer, firstSeq, thought, lines)
    }

    constructor ()
      ensures View() == State("", 0, false, [])
    {
      buffer, firstSeq, thought, lines := "", 0, false, [];
    }

    method Flush()
      modifies this
      ensures View() == Flushed(old(View()))
    {
      if buffer == "" { return; }
      lines := lines + [Group(firstSeq, thought, buffer)];
      buffer := "";
    }

    method Add(num: nat, text: string, isThought: bool)
      modifies this
      ensures View() == Added(old(View()), num, text, isThought)
    {
      if buffer != "" && thought != isThought {
        Flush();
      }
      if buffer == "" {
        firstSeq := num;
        thought := isThought;
      }
      buffer := buffer + text;
    }

    method Show(stored: Stored)
      modifies this
      ensures View() == Shown(old(View()), stored)
    {
      match stored.event
      case Text(text, isThought) => Add(stored.num, text, isThought);
      case Other(line) =>
        Flush();
        lines := lines + [Plain(stored.num, line)];
    }
  }

  // ---- What should be printed, said without a buffer ----

  predicate Continues(stored: Stored, thought: bool) {
    stored.event.Text? && stored.event.thought == thought
  }

  // The length of the longest prefix that is text of one kind.
  function Span(items: seq<Stored>, thought: bool): (n: nat)
    ensures n <= |items|
    ensures forall i :: 0 <= i < n ==> Continues(items[i], thought)
    ensures n < |items| ==> !Continues(items[n], thought)
  {
    if items == [] || !Continues(items[0], thought) then 0 else 1 + Span(items[1..], thought)
  }

  function Joined(items: seq<Stored>): string {
    if items == [] then ""
    else (if items[0].event.Text? then items[0].event.text else "") + Joined(items[1..])
  }

  // The seq of the first item that carries any text.
  function Label(items: seq<Stored>): nat
    requires Joined(items) != ""
  {
    if items[0].event.Text? && items[0].event.text != "" then items[0].num else Label(items[1..])
  }

  // Maximal spans of text of one kind, empty ones left out, other events in their place.
  function Canonical(items: seq<Stored>): seq<Line>
    decreases |items|
  {
    if items == [] then []
    else match items[0].event
      case Other(line) => [Plain(items[0].num, line)] + Canonical(items[1..])
      case Text(_, thought) =>
        var n := Span(items, thought);
        var text := Joined(items[..n]);
        (if text == "" then [] else [Group(Label(items[..n]), thought, text)]) + Canonical(items[n..])
  }

  lemma {:induction false} JoinedSplit(a: seq<Stored>, b: seq<Stored>)
    ensures Joined(a + b) == Joined(a) + Joined(b)
  {
    if a == [] {
      assert a + b == b;
    } else {
      assert (a + b)[1..] == a[1..] + b;
      JoinedSplit(a[1..], b);
    }
  }

  lemma {:induction false} EmptyChunkIsInvisible(items: seq<Stored>)
    requires items != [] && items[0].event.Text? && items[0].event.text == ""
    ensures Canonical(items) == Canonical(items[1..])
  {
    var thought := items[0].event.thought;
    var rest := items[1..];
    var n := Span(items, thought);
    assert items[..n][1..] == rest[..n - 1];
    assert items[n..] == rest[n - 1..];
    if n == 1 {
      assert Joined(items[..1]) == "";
    } else {
      assert rest[0].event.thought == thought && Span(rest, thought) == n - 1;
      assert Joined(items[..n]) == "" + Joined(rest[..n - 1]) == Joined(rest[..n - 1]);
      if Joined(items[..n]) != "" {
        assert Label(items[..n]) == Label(rest[..n - 1]);
      }
    }
  }

  // What a run with something in its buffer still has to print before `items` are canonical.
  function Pending(r: State, items: seq<Stored>): seq<Line> {
    if r.buffer == "" then Canonical(items)
    else
      var n := Span(items, r.thought);
      [Group(r.firstSeq, r.thought, r.buffer + Joined(items[..n]))] + Canonical(items[n..])
  }

  ghost predicate Steps(r: State, items: seq<Stored>)
    requires items != []
  {
    r.lines + Pending(r, items) == Shown(r, items[0]).lines + Pending(Shown(r, items[0]), items[1..])
  }

  lemma OtherSteps(r: State, items: seq<Stored>)
    requires items != [] && items[0].event.Other?
    ensures Steps(r, items)
  {
    assert items[0..] == items;
    assert Span(items, r.thought) == 0;
    assert Joined(items[..0]) == "";
    if r.buffer != "" { assert r.buffer + "" == r.buffer; }
  }

  lemma FirstTextSteps(r: State, items: seq<Stored>)
    requires items != [] && items[0].event.Text? && r.buffer == ""
    ensures Steps(r, items)
  {
    if items[0].event.text == "" {
      EmptyChunkIsInvisible(items);
      assert r.buffer + items[0].event.text == "";
    } else {
      NewTextSteps(r, items);
    }
  }

  lemma NewTextSteps(r: State, items: seq<Stored>)
    requires items != [] && items[0].event.Text? && r.buffer == "" && items[0].event.text != ""
    ensures Steps(r, items)
  {
    var text, rest, n := items[0].event.text, items[1..], Span(items, items[0].event.thought);
    assert items[..n][1..] == rest[..n - 1];
    assert items[n..] == rest[n - 1..];
    assert r.buffer + text == text;
    assert Joined(items[..n]) == text + Joined(rest[..n - 1]);
  }

  lemma SameTextSteps(r: State, items: seq<Stored>)
    requires items != [] && items[0].event.Text? && r.buffer != "" && r.thought == items[0].event.thought
    ensures Steps(r, items)
  {
    var text, rest, n := items[0].event.text, items[1..], Span(items, r.thought);
    assert items[..n][1..] == rest[..n - 1];
    assert items[n..] == rest[n - 1..];
    assert r.buffer + (text + Joined(rest[..n - 1])) == (r.buffer + text) + Joined(rest[..n - 1]);
  }

  lemma OtherTextSteps(r: State, items: seq<Stored>)
    requires items != [] && items[0].event.Text? && r.buffer != "" && r.thought != items[0].event.thought
    ensures Steps(r, items)
  {
    assert Span(items, r.thought) == 0;
    assert items[0..] == items;
    assert r.buffer + Joined(items[..0]) == r.buffer;
    var emptied := State("", r.firstSeq, r.thought, r.lines + [Group(r.firstSeq, r.thought, r.buffer)]);
    FirstTextSteps(emptied, items);
  }

  lemma PendingStep(r: State, items: seq<Stored>)
    requires items != []
    ensures r.lines + Pending(r, items) == Shown(r, items[0]).lines + Pending(Shown(r, items[0]), items[1..])
  {
    if items[0].event.Other? {
      OtherSteps(r, items);
    } else if r.buffer == "" {
      FirstTextSteps(r, items);
    } else if r.thought == items[0].event.thought {
      SameTextSteps(r, items);
    } else {
      OtherTextSteps(r, items);
    }
    assert Steps(r, items);
  }

  // However the buffer moves, the lines written after a final flush are the canonical ones.
  lemma {:induction false} PrintsCanonically(r: State, items: seq<Stored>)
    ensures Flushed(ShownAll(r, items)).lines == r.lines + Pending(r, items)
    decreases |items|
  {
    if items == [] {
      if r.buffer != "" { assert r.buffer + Joined(items[..0]) == r.buffer; }
    } else {
      PendingStep(r, items);
      PrintsCanonically(Shown(r, items[0]), items[1..]);
    }
  }

  // Where the daemon cut its frames leaves no trace in what is printed.
  lemma {:induction false} FramesDoNotShow(r: State, a: seq<Stored>, b: seq<Stored>)
    ensures ShownAll(ShownAll(r, a), b) == ShownAll(r, a + b)
    decreases |a|
  {
    if a == [] {
      assert a + b == b;
    } else {
      assert (a + b)[1..] == a[1..] + b;
      FramesDoNotShow(Shown(r, a[0]), a[1..], b);
    }
  }

  lemma OneMoreShown(r: State, a: seq<Stored>, stored: Stored)
    ensures ShownAll(r, a + [stored]) == Shown(ShownAll(r, a), stored)
  {
    FramesDoNotShow(r, a, [stored]);
    assert [stored][1..] == [];
  }

  function TextOf(lines: seq<Line>): string {
    if lines == [] then ""
    else (if lines[0].Group? then lines[0].text else "") + TextOf(lines[1..])
  }

  function OthersOf(lines: seq<Line>): seq<(nat, string)> {
    if lines == [] then []
    else (if lines[0].Plain? then [(lines[0].num, lines[0].line)] else []) + OthersOf(lines[1..])
  }

  function Others(items: seq<Stored>): seq<(nat, string)> {
    if items == [] then []
    else (if items[0].event.Other? then [(items[0].num, items[0].event.line)] else []) + Others(items[1..])
  }

  lemma {:induction false} OthersSkipsText(items: seq<Stored>, n: nat)
    requires n <= |items| && forall i :: 0 <= i < n ==> items[i].event.Text?
    ensures Others(items) == Others(items[n..])
  {
    if n > 0 {
      assert items[1..][n - 1..] == items[n..];
      OthersSkipsText(items[1..], n - 1);
    } else {
      assert items[0..] == items;
    }
  }

  // No text and no other event is lost, repeated or reordered by the grouping.
  lemma {:induction false} NothingLost(items: seq<Stored>)
    ensures TextOf(Canonical(items)) == Joined(items)
    ensures OthersOf(Canonical(items)) == Others(items)
    decreases |items|
  {
    if items != [] {
      match items[0].event
      case Other(line) => NothingLost(items[1..]);
      case Text(_, thought) =>
        var n := Span(items, thought);
        assert items[..n] + items[n..] == items;
        JoinedSplit(items[..n], items[n..]);
        OthersSkipsText(items, n);
        NothingLost(items[n..]);
        var text := Joined(items[..n]);
        if text != "" {
          assert ([Group(Label(items[..n]), thought, text)] + Canonical(items[n..]))[1..] == Canonical(items[n..]);
        } else {
          assert [] + Canonical(items[n..]) == Canonical(items[n..]);
        }
    }
  }
}
