// How a login is started under a pty, and what a shell makes of the string it is given.

module ShellWords {
  const QUOTE: char := '\''
  const ESCAPE: string := "'\\''"

  // `replaceAll` of the single quote by its escape.
  function Escaped(value: string): string {
    if value == "" then "" else (if value[0] == QUOTE then ESCAPE else [value[0]]) + Escaped(value[1..])
  }

  function ShellQuote(value: string): string { [QUOTE] + Escaped(value) + [QUOTE] }

  function Joined(words: seq<string>): string {
    if words == [] then ""
    else if |words| == 1 then ShellQuote(words[0])
    else ShellQuote(words[0]) + " " + Joined(words[1..])
  }

  datatype Spawn = Spawn(command: string, args: seq<string>)

  predicate IsBsd(platform: string) {
    platform == "darwin" || platform == "freebsd" || platform == "openbsd" || platform == "netbsd"
  }

  function HostLoginArgs(platform: string, command: string, args: seq<string>, scriptPath: string): Spawn {
    if IsBsd(platform) then Spawn(scriptPath, ["-q", "/dev/null", command] + args)
    else Spawn(scriptPath, ["-qec", Joined([command] + args), "/dev/null"])
  }

  // ---- a shell splitting a command into words ----

  // Whether a word has begun and what it holds; within single quotes everything is literal, and
  // outside them a backslash keeps the character after it, or joins two lines. Any other character outside quotes that
  // a shell would treat specially makes the reading fail, as does an unfinished quote.
  datatype Mode = Plain | Quoted | Escape

  datatype Words = Words(words: seq<string>) | Unreadable

  predicate IsBlank(c: char) { c == ' ' || c == '\t' }

  predicate IsOrdinary(c: char) {
    c != QUOTE && c != '\\' && c !in "\n|&;<>()$`\"*?[#~=%!{}" && !IsBlank(c)
  }

  function Read(text: string, mode: Mode, begun: bool, word: string): Words
    decreases |text|
  {
    if text == "" then
      if mode != Plain then Unreadable else Words(if begun then [word] else [])
    else
      var c, rest := text[0], text[1..];
      match mode
      case Quoted => if c == QUOTE then Read(rest, Plain, true, word) else Read(rest, Quoted, true, word + [c])
      case Escape => Read(rest, Plain, true, word + [c])
      case Plain =>
        if c == QUOTE then Read(rest, Quoted, true, word)
        else if c == '\\' && rest != "" && rest[0] == '\n' then Read(rest[1..], Plain, begun, word)
        else if c == '\\' then Read(rest, Escape, true, word)
        else if IsBlank(c) then
          if !begun then Read(rest, Plain, false, "")
          else
            var more := Read(rest, Plain, false, "");
            if more == Unreadable then Unreadable else Words([word] + more.words)
        else if IsOrdinary(c) then Read(rest, Plain, true, word + [c])
        else Unreadable
  }

  function ShellSplit(text: string): Words { Read(text, Plain, false, "") }

  // The escape closes the quotes, adds a quote, and opens them again.
  lemma ReadEscape(rest: string, word: string)
    ensures Read(ESCAPE + rest, Quoted, true, word) == Read(rest, Quoted, true, word + [QUOTE])
  {
    var t1, t2, t3 := ['\\', QUOTE, QUOTE] + rest, [QUOTE, QUOTE] + rest, [QUOTE] + rest;
    assert (ESCAPE + rest)[0] == QUOTE && (ESCAPE + rest)[1..] == t1;
    assert t1[0] == '\\' && t1[1..] == t2 && t2[0] != '\n';
    assert t2[0] == QUOTE && t2[1..] == t3;
    assert t3[0] == QUOTE && t3[1..] == rest;
    assert Read(t1, Plain, true, word) == Read(t2, Escape, true, word);
    assert Read(t2, Escape, true, word) == Read(t3, Plain, true, word + [QUOTE]);
  }

  // Within quotes, an escaped value is read back literally.
  lemma {:induction false} ReadEscaped(value: string, rest: string, word: string)
    ensures Read(Escaped(value) + rest, Quoted, true, word) == Read(rest, Quoted, true, word + value)
    decreases |value|
  {
    if value == "" {
      assert Escaped(value) + rest == rest && word + value == word;
    } else {
      var c := value[0];
      ReadOne(c, Escaped(value[1..]), rest, word);
      ReadEscaped(value[1..], rest, word + [c]);
      assert word + [c] + value[1..] == word + value;
    }
  }

  lemma ReadOne(c: char, later: string, rest: string, word: string)
    ensures Read((if c == QUOTE then ESCAPE else [c]) + later + rest, Quoted, true, word)
            == Read(later + rest, Quoted, true, word + [c])
  {
    var tail := later + rest;
    if c == QUOTE {
      assert ESCAPE + later + rest == ESCAPE + tail;
      ReadEscape(tail, word);
    } else {
      assert [c] + later + rest == [c] + tail && ([c] + tail)[1..] == tail;
    }
  }

  lemma ReadQuoted(value: string, rest: string)
    ensures Read(ShellQuote(value) + rest, Plain, false, "") == Read(rest, Plain, true, value)
  {
    var later := [QUOTE] + rest;
    assert ShellQuote(value) + rest == [QUOTE] + (Escaped(value) + later);
    assert ([QUOTE] + (Escaped(value) + later))[1..] == Escaped(value) + later;
    ReadEscaped(value, later, "");
    assert "" + value == value;
    assert later[1..] == rest;
  }

  // A shell reads back exactly the words that were joined: the quotes, blanks and metacharacters in
  // them, and the empty ones too.
  lemma {:induction false} AShellReadsTheWordsBack(words: seq<string>)
    ensures ShellSplit(Joined(words)) == Words(words)
    decreases |words|
  {
    if words == [] {
    } else if |words| == 1 {
      ReadQuoted(words[0], "");
      assert ShellQuote(words[0]) + "" == ShellQuote(words[0]);
    } else {
      var rest := " " + Joined(words[1..]);
      ReadQuoted(words[0], rest);
      assert Joined(words) == ShellQuote(words[0]) + rest;
      assert rest[0] == ' ' && rest[1..] == Joined(words[1..]);
      AShellReadsTheWordsBack(words[1..]);
    }
  }

  // What the login is run with: the very command and arguments, as separate arguments on a BSD and
  // as a string a shell splits into them elsewhere.
  lemma TheLoginRunsTheVeryWords(platform: string, command: string, args: seq<string>, scriptPath: string)
    ensures var spawn := HostLoginArgs(platform, command, args, scriptPath);
            && spawn.command == scriptPath
            && (if platform in {"darwin", "freebsd", "openbsd", "netbsd"}
                then spawn.args == ["-q", "/dev/null"] + ([command] + args)
                else
                  && |spawn.args| == 3 && spawn.args[0] == "-qec" && spawn.args[2] == "/dev/null"
                  && ShellSplit(spawn.args[1]) == Words([command] + args))
  {
    AShellReadsTheWordsBack([command] + args);
  }

  // Joined with blanks and no quotes, two different commands come out the same.
  lemma BlanksAloneDoNotDo()
    ensures "a b" + " " + "c" == "a" + " " + "b c" && ["a b", "c"] != ["a", "b c"]
    ensures ShellSplit("a b" + " " + "c") == Words(["a", "b", "c"])
  {
    assert "a b" + " " + "c" == ['a'] + ([' '] + (['b'] + ([' '] + "c")));
    assert "c" == ['c'] + "" && "" + ['a'] == "a" && "" + ['b'] == "b" && "" + ['c'] == "c";
    ReadLetter('c', "", "");
    assert Read("c", Plain, false, "") == Words(["c"]);
    ReadBlank("b", "c");
    ReadLetter('b', [' '] + "c", "");
    assert Read(['b'] + ([' '] + "c"), Plain, false, "") == Words(["b"] + ["c"]);
    ReadBlank("a", ['b'] + ([' '] + "c"));
    ReadLetter('a', [' '] + (['b'] + ([' '] + "c")), "");
    assert ["a"] + (["b"] + ["c"]) == ["a", "b", "c"];
  }

  // A letter by itself begins a word and belongs to it.
  lemma ReadLetter(c: char, rest: string, word: string)
    requires 'a' <= c <= 'z'
    ensures forall begun :: Read([c] + rest, Plain, begun, word) == Read(rest, Plain, true, word + [c])
  {
    assert ([c] + rest)[0] == c && ([c] + rest)[1..] == rest;
  }

  // A blank ends it.
  lemma ReadBlank(word: string, rest: string)
    ensures var more := Read(rest, Plain, false, "");
            Read([' '] + rest, Plain, true, word)
            == if more == Unreadable then Unreadable else Words([word] + more.words)
  {
    assert ([' '] + rest)[0] == ' ' && ([' '] + rest)[1..] == rest;
  }
}
