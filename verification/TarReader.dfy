// The block reader the daemon unpacks archives with, up to the point where a member's path is
// judged. The `path` record of a pax header is a parameter.

module TarReader {
  import opened Common
  import opened Bytes
  import opened Octals
  import opened TarWriter

  const MAX_TAR_HEADER_BYTES: nat := 64 * 1024
  const MAX_SAFE_INTEGER: nat := 0x1F_FFFF_FFFF_FFFF

  type Pax = seq<Byte> -> Option<seq<Byte>>

  datatype Entry = Plain(name: seq<Byte>, body: seq<Byte>) | Directory(name: seq<Byte>)

  datatype Code = Unreadable | Unsafe

  datatype Outcome = Read(entries: seq<Entry>) | Refused(code: Code)

  datatype Move = Go(at: nat, name: Option<seq<Byte>>, entries: seq<Entry>) | Stop | Fail(code: Code)

  function NameIn(header: seq<Byte>): seq<Byte>
    requires |header| == BLOCK
  {
    var prefix := BeforeNul(header[345..500]);
    var stem := BeforeNul(header[0..100]);
    if prefix != [] then prefix + [47] + stem else stem
  }

  // After a body: past its padding, unless the stream ends inside it.
  function PastPadding(bytes: seq<Byte>, end: nat, padding: nat): (at: nat)
    requires end <= |bytes|
    ensures end <= at <= |bytes|
  {
    if end + padding <= |bytes| then end + padding else end
  }

  // One turn of the reader's loop, at a block boundary.
  function Turn(bytes: seq<Byte>, at: nat, override: Option<seq<Byte>>, pax: Pax): (m: Move)
    requires at <= |bytes|
    ensures m.Go? ==> at < m.at <= |bytes|
  {
    if at + BLOCK > |bytes| then Stop
    else
      var header := bytes[at..at + BLOCK];
      if forall i :: 0 <= i < BLOCK ==> header[i] == 0 then Stop
      else
        var name := if override.Some? then override.value else NameIn(header);
        MemberTurn(bytes, at + BLOCK, header[156], TarNumber(header[124..136]), name, override, pax)
  }

  // What is done about a header of this type and size, whose body begins at `start`.
  function MemberTurn(bytes: seq<Byte>, start: nat, flag: Byte, size: int, name: seq<Byte>,
                      override: Option<seq<Byte>>, pax: Pax): (m: Move)
    requires start <= |bytes|
    ensures m.Go? ==> start <= m.at <= |bytes|
  {
    if size < 0 || size > MAX_SAFE_INTEGER then Fail(Unreadable)
    else
      var end := start + size;
      var padding := Padding(size);
      var skips := end + padding <= |bytes|;
      if flag == 120 || flag == 76 then
        if size > MAX_TAR_HEADER_BYTES then Fail(Unsafe)
        else if end > |bytes| then Fail(Unreadable)
        else
          var body := bytes[start..end];
          Go(PastPadding(bytes, end, padding), if flag == 76 then Some(BeforeNul(body)) else pax(body), [])
      else if flag == 103 || flag == 75 then
        if skips then Go(end + padding, override, []) else Fail(Unreadable)
      else if flag != 48 && flag != 0 && flag != 53 && flag != 55 then
        Fail(if skips then Unsafe else Unreadable)
      else if flag == 53 then
        if skips then Go(end + padding, None, [Directory(name)]) else Fail(Unreadable)
      else if end > |bytes| then Fail(Unreadable)
      else Go(PastPadding(bytes, end, padding), None, [Plain(name, bytes[start..end])])
  }

  function After(entries: seq<Entry>, rest: Outcome): Outcome {
    if rest.Read? then Read(entries + rest.entries) else rest
  }

  function ReadFrom(bytes: seq<Byte>, at: nat, override: Option<seq<Byte>>, pax: Pax): Outcome
    requires at <= |bytes|
    decreases |bytes| - at
  {
    match Turn(bytes, at, override, pax)
    case Stop => Read([])
    case Fail(code) => Refused(code)
    case Go(next, name, entries) => After(entries, ReadFrom(bytes, next, name, pax))
  }

  lemma AfterBoth(entries: seq<Entry>, found: seq<Entry>, rest: Outcome)
    ensures After(entries, After(found, rest)) == After(entries + found, rest)
  {
    if rest.Read? { assert entries + (found + rest.entries) == entries + found + rest.entries; }
  }

  method ExtractTgz(bytes: seq<Byte>, pax: Pax) returns (r: Outcome)
    ensures r == ReadFrom(bytes, 0, None, pax)
  {
    var at: nat, override: Option<seq<Byte>>, entries: seq<Entry> := 0, None, [];
    ghost var goal := ReadFrom(bytes, 0, None, pax);
    while true
      invariant at <= |bytes|
      invariant After(entries, ReadFrom(bytes, at, override, pax)) == goal
      decreases |bytes| - at
    {
      match Turn(bytes, at, override, pax)
      case Stop => return Read(entries);
      case Fail(code) => return Refused(code);
      case Go(next, name, found) =>
        AfterBoth(entries, found, ReadFrom(bytes, next, name, pax));
        at, override, entries := next, name, entries + found;
    }
  }

  // ---- reading back what was written ----

  // What the writer can hold: a name of at most a hundred bytes without a NUL, and a size of at
  // most twelve octal digits.
  predicate Faithful(file: File) {
    |file.name| <= 100 && 0 !in file.name && |file.body| < Pow8(12)
  }

  function Entries(files: seq<File>): seq<Entry> {
    if files == [] then [] else [Plain(files[0].name, files[0].body)] + Entries(files[1..])
  }

  lemma SizeReadsBack(name: seq<Byte>, size: nat)
    ensures var n := TarNumber(Header(name, size)[124..136]);
            0 <= n < Pow8(12) && (size < Pow8(12) ==> n == size)
  {
    var field := Header(name, size)[124..136];
    var digits := PadStart(Octal(size), 11);
    SizeField(name, size);
    OctalLength(size, 12);
    ValueOfPadStart(size, 11);
    if |digits| <= 12 {
      assert digits <= field;
      DigitsField(digits, field);
      ValueBound(digits);
      assert Pow8(12) == 8 * Pow8(11);
    } else {
      assert field == digits[..12];
      DigitsField(field, field);
      ValueBound(field);
    }
  }

  lemma NameReadsBack(file: File)
    requires |file.body| < Pow8(12)
    ensures NameIn(Header(file.name, |file.body|)) == file.name <==> |file.name| <= 100 && 0 !in file.name
  {
    var name := file.name;
    var h := Header(name, |file.body|);
    NameField(name, |file.body|);
    PrefixField(name, |file.body|);
    var prefix, stem := BeforeNul(h[345..500]), BeforeNul(h[0..100]);
    if |name| <= 345 {
      assert h[345..500] == Zeros(155);
      if |name| <= 100 && 0 !in name {
        assert name <= h[0..100];
        BeforeNulIs(name, h[0..100]);
      }
    } else {
      assert |prefix| + 345 <= |name| by { PrefixFits(name, h); }
    }
  }

  lemma PrefixFits(name: seq<Byte>, h: seq<Byte>)
    requires |h| == BLOCK && |name| > 345
    requires forall i :: 345 <= i < 500 ==> h[i] == if i < |name| then name[i] else 0
    ensures |BeforeNul(h[345..500])| + 345 <= |name|
  {
    if |name| < 500 {
      assert h[345..500][|name| - 345] == h[|name|] == 0;
      NulBounds(h[345..500], |name| - 345);
    }
  }

  lemma {:induction false} NulBounds(s: seq<Byte>, i: nat)
    requires i < |s| && s[i] == 0
    ensures |BeforeNul(s)| <= i
  {
    if s[0] != 0 { NulBounds(s[1..], i - 1); }
  }

  lemma TurnAtPlain(bytes: seq<Byte>, at: nat, h: seq<Byte>, size: nat, pax: Pax)
    requires at + BLOCK <= |bytes| && bytes[at..at + BLOCK] == h && h[156] == 48
    requires TarNumber(h[124..136]) == size <= MAX_SAFE_INTEGER
    ensures var end := at + BLOCK + size;
            Turn(bytes, at, None, pax) ==
            if end > |bytes| then Fail(Unreadable)
            else Go(PastPadding(bytes, end, Padding(size)), None, [Plain(NameIn(h), bytes[at + BLOCK..end])])
  {}

  // What the reader depends on in a header written for `file`.
  predicate HeaderFor(h: seq<Byte>, file: File) {
    |h| == BLOCK && h[156] == 48
    && var size := TarNumber(h[124..136]);
       && 0 <= size <= MAX_SAFE_INTEGER
       && (size == |file.body| <==> |file.body| < Pow8(12))
       && (|file.body| < Pow8(12) ==> (NameIn(h) == file.name <==> |file.name| <= 100 && 0 !in file.name))
  }

  lemma WrittenHeader(file: File)
    ensures HeaderFor(Header(file.name, |file.body|), file)
  {
    SizeReadsBack(file.name, |file.body|);
    TypeFlag(file.name, |file.body|);
    Pow8Twelve();
    if |file.body| < Pow8(12) { NameReadsBack(file); }
  }

  // The turn taken at a member with such a header.
  lemma TurnAtMember(pre: seq<Byte>, h: seq<Byte>, file: File, post: seq<Byte>, pax: Pax)
    requires HeaderFor(h, file)
    ensures var part := h + file.body + Zeros(Padding(|file.body|));
            var m := Turn(pre + part + post, |pre|, None, pax);
            if Faithful(file) then m == Go(|pre| + |part|, None, [Plain(file.name, file.body)])
            else m.Fail? || (m.Go? && |m.entries| == 1 && m.entries[0] != Plain(file.name, file.body))
  {
    var part := h + file.body + Zeros(Padding(|file.body|));
    var bytes := pre + part + post;
    var at := |pre|;
    var size := TarNumber(h[124..136]);
    MemberSlices(pre, h, file.body, Zeros(Padding(|file.body|)), post);
    TurnAtPlain(bytes, at, h, size, pax);
  }

  lemma MemberSlices(pre: seq<Byte>, h: seq<Byte>, body: seq<Byte>, pad: seq<Byte>, post: seq<Byte>)
    requires |h| == BLOCK
    ensures var bytes := pre + (h + body + pad) + post;
            && |bytes| >= |pre| + |h + body + pad| && |h + body + pad| == BLOCK + |body| + |pad|
            && bytes[|pre|..|pre| + BLOCK] == h
            && bytes[|pre| + BLOCK..|pre| + BLOCK + |body|] == body
  {}

  lemma Pow8Twelve()
    ensures Pow8(12) == 0x10_0000_0000
  {
    assert Pow8(1) == 8 && Pow8(2) == 64 && Pow8(3) == 512 && Pow8(4) == 4096 && Pow8(5) == 32768 && Pow8(6) == 262144;
    assert Pow8(7) == 2097152 && Pow8(8) == 16777216 && Pow8(9) == 134217728 && Pow8(10) == 1073741824;
    assert Pow8(11) == 8589934592;
  }

  lemma StopsAtTheEnd(pre: seq<Byte>, name: Option<seq<Byte>>, pax: Pax)
    ensures ReadFrom(pre + Zeros(1024), |pre|, name, pax) == Read([])
  {
    var bytes := pre + Zeros(1024);
    assert bytes[|pre|..|pre| + BLOCK] == Zeros(BLOCK);
    StopsAtZeros(bytes, |pre|, name, pax);
  }

  lemma StopsAtZeros(bytes: seq<Byte>, at: nat, name: Option<seq<Byte>>, pax: Pax)
    requires at + BLOCK <= |bytes| && bytes[at..at + BLOCK] == Zeros(BLOCK)
    ensures Turn(bytes, at, name, pax) == Stop
  {}

  function Blocks(headers: seq<seq<Byte>>, files: seq<File>): seq<Byte>
    requires |headers| == |files|
  {
    if files == [] then []
    else headers[0] + files[0].body + Zeros(Padding(|files[0].body|)) + Blocks(headers[1..], files[1..])
  }

  function Headers(files: seq<File>): (headers: seq<seq<Byte>>)
    ensures |headers| == |files| && forall i :: 0 <= i < |files| ==> |headers[i]| == BLOCK
  {
    if files == [] then [] else [Header(files[0].name, |files[0].body|)] + Headers(files[1..])
  }

  lemma BlocksCons(header: seq<Byte>, headers: seq<seq<Byte>>, files: seq<File>)
    requires files != [] && |headers| == |files| - 1
    ensures Blocks([header] + headers, files)
            == header + files[0].body + Zeros(Padding(|files[0].body|)) + Blocks(headers, files[1..])
  {
    assert ([header] + headers)[1..] == headers;
  }

  lemma {:induction false} MembersAreBlocks(files: seq<File>)
    ensures Members(files) == Blocks(Headers(files), files)
  {
    if files != [] {
      MembersAreBlocks(files[1..]);
      BlocksCons(Header(files[0].name, |files[0].body|), Headers(files[1..]), files);
    }
  }

  lemma {:induction false} ReadsBackFrom(pre: seq<Byte>, headers: seq<seq<Byte>>, files: seq<File>, pax: Pax)
    requires |headers| == |files| && forall i :: 0 <= i < |files| ==> HeaderFor(headers[i], files[i])
    ensures ReadFrom(pre + Blocks(headers, files) + Zeros(1024), |pre|, None, pax) == Read(Entries(files))
            <==> forall i :: 0 <= i < |files| ==> Faithful(files[i])
    decreases |files|
  {
    if files == [] {
      assert pre + [] + Zeros(1024) == pre + Zeros(1024);
      StopsAtTheEnd(pre, None, pax);
    } else {
      var part := headers[0] + files[0].body + Zeros(Padding(|files[0].body|));
      var rest := Blocks(headers[1..], files[1..]);
      var bytes := pre + (part + rest) + Zeros(1024);
      Regroup(pre, part, rest, Zeros(1024));
      TurnAtMember(pre, headers[0], files[0], rest + Zeros(1024), pax);
      FirstThenRest(bytes, |pre|, files, pax);
      ReadsBackFrom(pre + part, headers[1..], files[1..], pax);
      assert Faithful(files[0]) ==>
               Turn(bytes, |pre|, None, pax) == Go(|pre + part|, None, [Plain(files[0].name, files[0].body)]);
      AllOfCons(files);
    }
  }

  lemma AllOfCons(files: seq<File>)
    requires files != []
    ensures (forall i :: 0 <= i < |files| ==> Faithful(files[i]))
            <==> Faithful(files[0]) && forall i :: 0 <= i < |files[1..]| ==> Faithful(files[1..][i])
  {
    assert files == [files[0]] + files[1..];
  }

  lemma Regroup(pre: seq<Byte>, part: seq<Byte>, rest: seq<Byte>, end: seq<Byte>)
    ensures pre + (part + rest) + end == pre + part + (rest + end) == pre + part + rest + end
  {}

  // Whether a whole list reads back, in terms of its first member and the rest.
  lemma FirstThenRest(bytes: seq<Byte>, at: nat, files: seq<File>, pax: Pax)
    requires at <= |bytes| && files != []
    requires var m := Turn(bytes, at, None, pax); m.Fail? || (m.Go? && |m.entries| == 1)
    ensures var m := Turn(bytes, at, None, pax);
            ReadFrom(bytes, at, None, pax) == Read(Entries(files)) <==>
            m.Go? && m.entries[0] == Plain(files[0].name, files[0].body)
            && ReadFrom(bytes, m.at, m.name, pax) == Read(Entries(files[1..]))
  {
    var m := Turn(bytes, at, None, pax);
    if m.Go? {
      var rest := ReadFrom(bytes, m.at, m.name, pax);
      if rest.Read? {
        var read := m.entries + rest.entries;
        assert read[0] == m.entries[0] && read[1..] == rest.entries;
        assert Entries(files)[1..] == Entries(files[1..]);
        assert m.entries == [m.entries[0]];
      }
    }
  }

  // An archive reads back as the files it was written from exactly when the format can hold
  // every one of them.
  lemma ArchiveReadsBack(files: seq<File>, pax: Pax)
    ensures ReadFrom(Archive(files), 0, None, pax) == Read(Entries(files))
            <==> forall i :: 0 <= i < |files| ==> Faithful(files[i])
  {
    HeadersWritten(files);
    MembersAreBlocks(files);
    BlocksReadBack(Archive(files), Headers(files), files, pax);
  }

  lemma BlocksReadBack(bytes: seq<Byte>, headers: seq<seq<Byte>>, files: seq<File>, pax: Pax)
    requires |headers| == |files| && forall i :: 0 <= i < |files| ==> HeaderFor(headers[i], files[i])
    requires bytes == Blocks(headers, files) + Zeros(1024)
    ensures ReadFrom(bytes, 0, None, pax) == Read(Entries(files))
            <==> forall i :: 0 <= i < |files| ==> Faithful(files[i])
  {
    assert [] + Blocks(headers, files) + Zeros(1024) == bytes;
    ReadsBackFrom([], headers, files, pax);
  }

  lemma {:induction false} HeadersWritten(files: seq<File>)
    ensures forall i :: 0 <= i < |files| ==> HeaderFor(Headers(files)[i], files[i])
  {
    if files != [] {
      WrittenHeader(files[0]);
      HeadersWritten(files[1..]);
    }
  }

  function PaddedSizes(files: seq<File>): nat {
    if files == [] then 0
    else BLOCK + |files[0].body| + Padding(|files[0].body|) + PaddedSizes(files[1..])
  }

  lemma {:induction false} BlocksLength(headers: seq<seq<Byte>>, files: seq<File>)
    requires |headers| == |files| && forall i :: 0 <= i < |files| ==> |headers[i]| == BLOCK
    ensures |Blocks(headers, files)| == PaddedSizes(files) && PaddedSizes(files) % BLOCK == 0
    decreases |files|
  {
    if files != [] {
      BlocksLength(headers[1..], files[1..]);
      var size := |files[0].body|;
      assert |headers[0] + files[0].body + Zeros(Padding(size))| == BLOCK + size + Padding(size);
      WholeBlocks(size, PaddedSizes(files[1..]));
    }
  }

  lemma WholeBlocks(size: nat, rest: nat)
    requires rest % BLOCK == 0
    ensures (BLOCK + size + Padding(size) + rest) % BLOCK == 0
  {}

  // The archive is whole blocks, two of zeros at the end.
  lemma ArchiveLength(files: seq<File>)
    ensures |Archive(files)| == 1024 + PaddedSizes(files) && |Archive(files)| % BLOCK == 0
  {
    MembersAreBlocks(files);
    BlocksLength(Headers(files), files);
    TwoMoreBlocks(Members(files), PaddedSizes(files));
  }

  lemma TwoMoreBlocks(members: seq<Byte>, size: nat)
    requires |members| == size && size % BLOCK == 0
    ensures |members + Zeros(1024)| == 1024 + size && (1024 + size) % BLOCK == 0
  {}
}
