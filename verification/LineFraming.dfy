// Newline framing of a stream that arrives in arbitrary chunks.

module LineFraming {
  // `indexOf("\n")`, or the length of a text that holds none.
  function LineEnd(s: string): (n: nat)
    ensures n <= |s|
  {
    if s == "" || s[0] == '\n' then 0 else 1 + LineEnd(s[1..])
  }

  // The complete lines of a text, without their newlines, and what follows the last newline.
  function Lines(s: string): seq<string> {
    var n := LineEnd(s);
    if n == |s| then [] else [s[..n]] + Lines(s[n + 1..])
  }

  function Rest(s: string): string {
    var n := LineEnd(s);
    if n == |s| then s else Rest(s[n + 1..])
  }

  // Everything up to and including the last newline.
  function Whole(s: string): string {
    var n := LineEnd(s);
    if n == |s| then "" else s[..n + 1] + Whole(s[n + 1..])
  }

  lemma {:induction false} WholeAndRest(s: string)
    ensures Whole(s) + Rest(s) == s
    decreases |s|
  {
    if LineEnd(s) < |s| { WholeAndRest(s[LineEnd(s) + 1..]); }
  }

  // `indexOf` names the first newline.
  lemma {:induction false} LineEndIsFirst(s: string)
    ensures LineEnd(s) < |s| ==> s[LineEnd(s)] == '\n'
    ensures forall i :: 0 <= i < LineEnd(s) ==> s[i] != '\n'
  {
    if s != "" && s[0] != '\n' {
      LineEndIsFirst(s[1..]);
      forall i | 0 <= i < LineEnd(s) ensures s[i] != '\n' {
        if i > 0 { assert s[i] == s[1..][i - 1]; }
      }
    }
  }

  // What a framer prints back with its newlines, followed by the rest, is the text; lines and
  // rest hold no newline.
  function Unframed(lines: seq<string>, rest: string): string {
    if lines == [] then rest else lines[0] + "\n" + Unframed(lines[1..], rest)
  }

  lemma {:induction false} FramingIsFaithful(s: string)
    ensures Unframed(Lines(s), Rest(s)) == s
    ensures '\n' !in Rest(s) && forall i :: 0 <= i < |Lines(s)| ==> '\n' !in Lines(s)[i]
    decreases |s|
  {
    var n := LineEnd(s);
    LineEndIsFirst(s);
    if n < |s| {
      FramingIsFaithful(s[n + 1..]);
      assert Lines(s)[1..] == Lines(s[n + 1..]);
      assert s == s[..n] + "\n" + s[n + 1..];
    }
  }

  function Joined(chunks: seq<string>): string {
    if chunks == [] then "" else chunks[0] + Joined(chunks[1..])
  }

  lemma {:induction false} LineEndOfPrefix(a: string, b: string)
    requires LineEnd(a) < |a|
    ensures LineEnd(a + b) == LineEnd(a)
  {
    if a[0] != '\n' {
      assert (a + b)[1..] == a[1..] + b;
      LineEndOfPrefix(a[1..], b);
    }
  }

  lemma LinesStep(a: string, b: string, n: nat)
    requires n == LineEnd(a) < |a|
    ensures Lines(a + b) == [a[..n]] + Lines(a[n + 1..] + b)
    ensures Rest(a + b) == Rest(a[n + 1..] + b)
  {
    LineEndOfPrefix(a, b);
    assert (a + b)[..n] == a[..n] && (a + b)[n + 1..] == a[n + 1..] + b;
  }

  // Framing what is left of a first part together with a second part frames the whole.
  lemma {:induction false} FramingSplits(a: string, b: string)
    ensures Lines(a + b) == Lines(a) + Lines(Rest(a) + b)
    ensures Rest(a + b) == Rest(Rest(a) + b)
    decreases |a|
  {
    var n := LineEnd(a);
    if n < |a| {
      var tail := a[n + 1..];
      LinesStep(a, b, n);
      FramingSplits(tail, b);
      assert Lines(a) == [a[..n]] + Lines(tail) && Rest(a) == Rest(tail);
    }
  }

  predicate IsBlank(line: string) { forall i :: 0 <= i < |line| ==> IsSpace(line[i]) }

  // What `trim` takes off.
  predicate IsSpace(c: char) {
    '\t' <= c <= '\r' || c == ' ' || c == '\U{A0}' || c == '\U{1680}' || '\U{2000}' <= c <= '\U{200A}'
    || c == '\U{2028}' || c == '\U{2029}' || c == '\U{202F}' || c == '\U{205F}' || c == '\U{3000}' || c == '\U{FEFF}'
  }

  // The white space and the line terminators of the language.
  lemma SpacesAre(c: char)
    ensures IsSpace(c)
            <==> c as int in {0x09, 0x0A, 0x0B, 0x0C, 0x0D, 0x20, 0xA0, 0x1680, 0x2000, 0x2001, 0x2002, 0x2003, 0x2004,
                              0x2005, 0x2006, 0x2007, 0x2008, 0x2009, 0x200A, 0x2028, 0x2029, 0x202F, 0x205F, 0x3000,
                              0xFEFF}
  {}

  function NonBlank(lines: seq<string>): seq<string> {
    if lines == [] then [] else (if IsBlank(lines[0]) then [] else [lines[0]]) + NonBlank(lines[1..])
  }

  lemma {:induction false} NonBlankSplits(a: seq<string>, b: seq<string>)
    ensures NonBlank(a + b) == NonBlank(a) + NonBlank(b)
  {
    if a == [] {
      assert a + b == b;
    } else {
      assert (a + b)[1..] == a[1..] + b;
      NonBlankSplits(a[1..], b);
    }
  }

  // What a dispatched list becomes once the lines of a buffer are taken too.
  function Dispatched(before: seq<string>, buffer: string): seq<string> { before + NonBlank(Lines(buffer)) }

  function Kept(before: seq<string>, line: string): seq<string> {
    if IsBlank(line) then before else before + [line]
  }

  lemma NonBlankCons(before: seq<string>, line: string, rest: seq<string>)
    ensures before + NonBlank([line] + rest) == Kept(before, line) + NonBlank(rest)
  {
    assert ([line] + rest)[1..] == rest;
  }

  lemma FirstLine(buffer: string, n: nat, line: string, rest: seq<string>)
    requires n == LineEnd(buffer) < |buffer| && line == buffer[..n] && rest == Lines(buffer[n + 1..])
    ensures Lines(buffer) == [line] + rest
  {}

  lemma FirstRest(buffer: string, n: nat, rest: string)
    requires n == LineEnd(buffer) < |buffer| && rest == buffer[n + 1..]
    ensures Rest(buffer) == Rest(rest)
  {}

  lemma TakeLine(before: seq<string>, buffer: string, n: nat)
    requires n == LineEnd(buffer) < |buffer|
    ensures Dispatched(before, buffer) == Dispatched(Kept(before, buffer[..n]), buffer[n + 1..])
  {
    var line, rest := buffer[..n], Lines(buffer[n + 1..]);
    FirstLine(buffer, n, line, rest);
    NonBlankCons(before, line, rest);
  }

  // The framer of the scripted agents: dispatch every non-blank line as it completes.
  class Framer {
    var buffer: string
    var dispatched: seq<string>

    constructor ()
      ensures buffer == "" && dispatched == []
    {
      buffer, dispatched := "", [];
    }

    method Data(chunk: string)
      modifies this
      ensures dispatched == Dispatched(old(dispatched), old(buffer) + chunk)
      ensures buffer == Rest(old(buffer) + chunk)
    {
      buffer := buffer + chunk;
      ghost var text, before := buffer, dispatched;
      var nl := LineEnd(buffer);
      while nl < |buffer|
        invariant nl == LineEnd(buffer)
        invariant Dispatched(dispatched, buffer) == Dispatched(before, text)
        invariant Rest(buffer) == Rest(text)
        decreases |buffer|
      {
        var line := buffer[..nl];
        FirstRest(buffer, nl, buffer[nl + 1..]);
        TakeLine(dispatched, buffer, nl);
        buffer := buffer[nl + 1..];
        if !IsBlank(line) {
          dispatched := dispatched + [line];
        }
        nl := LineEnd(buffer);
      }
    }
  }

  // The framer's two fields after a list of chunks.
  function Framed(buffer: string, dispatched: seq<string>, chunks: seq<string>): (string, seq<string>)
    decreases |chunks|
  {
    if chunks == [] then (buffer, dispatched)
    else Framed(Rest(buffer + chunks[0]), Dispatched(dispatched, buffer + chunks[0]), chunks[1..])
  }

  lemma DispatchSplits(before: seq<string>, a: string, b: string)
    ensures Dispatched(before, a + b) == Dispatched(Dispatched(before, a), Rest(a) + b)
  {
    FramingSplits(a, b);
    NonBlankSplits(Lines(a), Lines(Rest(a) + b));
  }

  lemma RestSplits(a: string, b: string)
    ensures Rest(a + b) == Rest(Rest(a) + b)
  {
    FramingSplits(a, b);
  }

  lemma {:induction false} RestOfRest(s: string)
    ensures LineEnd(Rest(s)) == |Rest(s)|
    decreases |s|
  {
    if LineEnd(s) < |s| { RestOfRest(s[LineEnd(s) + 1..]); }
  }

  // However a stream is cut, the framer dispatches the non-blank complete lines of the whole
  // stream in order, and holds the rest of it.
  lemma {:induction false} ChunkingDoesNotMatter(buffer: string, dispatched: seq<string>, chunks: seq<string>)
    requires LineEnd(buffer) == |buffer|
    ensures var text := buffer + Joined(chunks);
            Framed(buffer, dispatched, chunks) == (Rest(text), Dispatched(dispatched, text))
    decreases |chunks|
  {
    if chunks == [] {
      assert buffer + Joined(chunks) == buffer;
      assert Lines(buffer) == [] && dispatched + NonBlank([]) == dispatched;
    } else {
      var first, others := buffer + chunks[0], Joined(chunks[1..]);
      RestOfRest(first);
      ChunkingDoesNotMatter(Rest(first), Dispatched(dispatched, first), chunks[1..]);
      assert buffer + Joined(chunks) == first + others;
      DispatchSplits(dispatched, first, others);
      RestSplits(first, others);
    }
  }
}
