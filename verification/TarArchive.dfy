// The archive itself: writing it member by member, and reading it back.

module TarWriter {
  import opened Bytes
  import opened Octals

  const BLOCK: nat := 512

  datatype File = File(name: seq<Byte>, body: seq<Byte>)

  function Padding(size: nat): (p: nat)
    ensures p < BLOCK && (size + p) % BLOCK == 0
  {
    PaddingFills(size);
    (BLOCK - size % BLOCK) % BLOCK
  }

  lemma PaddingFills(size: nat)
    ensures (BLOCK - size % BLOCK) % BLOCK < BLOCK && (size + (BLOCK - size % BLOCK) % BLOCK) % BLOCK == 0
  {
    var q, r := size / BLOCK, size % BLOCK;
    assert size == BLOCK * q + r;
    if r == 0 {
      assert (BLOCK - r) % BLOCK == 0;
    } else {
      assert (BLOCK - r) % BLOCK == BLOCK - r;
      Multiple(q + 1);
      assert size + (BLOCK - r) == BLOCK * (q + 1);
    }
  }

  lemma Multiple(k: nat)
    ensures (BLOCK * k) % BLOCK == 0
  {}

  // One `head.write(text, at)`.
  datatype Field = Field(at: nat, text: seq<Byte>)

  // The writes that fill a header, in program order. The checksum field is blank for now.
  function Fields(name: seq<Byte>, size: nat): seq<Field> {
    [ Field(0, name),
      Field(100, Ascii("000644 \0")),
      Field(108, Ascii("000000 \0")),
      Field(116, Ascii("000000 \0")),
      Field(124, PadStart(Octal(size), 11) + Ascii(" ")),
      Field(136, Ascii("00000000000 ")),
      Field(148, Ascii("        ")),
      Field(156, Ascii("0")),
      Field(257, Ascii("ustar\0")),
      Field(263, Ascii("00")) ]
  }

  function PutAll(h: seq<Byte>, fields: seq<Field>): (r: seq<Byte>)
    ensures |r| == |h|
    decreases |fields|
  {
    if fields == [] then h else PutAll(Put(h, fields[0].at, fields[0].text), fields[1..])
  }

  function Unsigned(name: seq<Byte>, size: nat): (h: seq<Byte>)
    ensures |h| == BLOCK
  {
    PutAll(Zeros(BLOCK), Fields(name, size))
  }

  function Header(name: seq<Byte>, size: nat): (h: seq<Byte>)
    ensures |h| == BLOCK
  {
    var u := Unsigned(name, size);
    Put(u, 148, PadStart(Octal(Sum(u)), 6) + Ascii("\0 "))
  }

  function Member(file: File): seq<Byte> {
    Header(file.name, |file.body|) + file.body + Zeros(Padding(|file.body|))
  }

  function Members(files: seq<File>): seq<Byte> {
    if files == [] then [] else Member(files[0]) + Members(files[1..])
  }

  function Archive(files: seq<File>): seq<Byte> {
    Members(files) + Zeros(1024)
  }

  method Write(head: array<Byte>, at: nat, s: seq<Byte>)
    modifies head
    ensures head[..] == Put(old(head[..]), at, s)
  {
    var i := 0;
    while i < |s| && at + i < head.Length
      invariant i <= |s|
      invariant forall j :: 0 <= j < head.Length ==>
                  head[j] == if at <= j < at + i then s[j - at] else old(head[j])
    {
      head[at + i] := s[i];
      i := i + 1;
    }
  }

  method Fill(head: array<Byte>, name: seq<Byte>, size: nat)
    requires head[..] == Zeros(BLOCK)
    modifies head
    ensures head[..] == Unsigned(name, size)
  {
    var fields := Fields(name, size);
    assert fields[0..] == fields;
    for i := 0 to |fields|
      invariant PutAll(head[..], fields[i..]) == Unsigned(name, size)
    {
      assert fields[i..][1..] == fields[i + 1..];
      Write(head, fields[i].at, fields[i].text);
    }
  }

  method Total(head: array<Byte>) returns (sum: nat)
    ensures sum == Sum(head[..])
  {
    sum := 0;
    for i := 0 to head.Length
      invariant sum == Sum(head[..i])
    {
      assert head[..i + 1][..i] == head[..i];
      sum := sum + head[i];
    }
    assert head[..head.Length] == head[..];
  }

  method WriteHeader(name: seq<Byte>, size: nat) returns (head: array<Byte>)
    ensures fresh(head) && head[..] == Header(name, size)
  {
    head := new Byte[BLOCK](_ => 0);
    assert head[..] == Zeros(BLOCK);
    Fill(head, name, size);
    var sum := Total(head);
    Write(head, 148, PadStart(Octal(sum), 6) + Ascii("\0 "));
  }

  method TarOf(files: seq<File>) returns (bytes: seq<Byte>)
    ensures bytes == Archive(files)
  {
    bytes := [];
    assert files[0..] == files;
    for i := 0 to |files|
      invariant bytes + Members(files[i..]) == Members(files)
    {
      var head := WriteHeader(files[i].name, |files[i].body|);
      var part := head[..] + files[i].body + Zeros(Padding(|files[i].body|));
      MembersStep(files, i, bytes, part);
      bytes := bytes + part;
    }
    bytes := bytes + Zeros(1024);
  }

  lemma MembersStep(files: seq<File>, i: nat, bytes: seq<Byte>, part: seq<Byte>)
    requires i < |files| && part == Member(files[i])
    ensures bytes + part + Members(files[i + 1..]) == bytes + Members(files[i..])
  {
    assert files[i..][1..] == files[i + 1..];
    assert bytes + (part + Members(files[i + 1..])) == bytes + part + Members(files[i + 1..]);
  }

  // ---- what a header holds ----

  predicate Misses(fields: seq<Field>, lo: nat, hi: nat) {
    forall f :: 0 <= f < |fields| ==> fields[f].at >= hi || fields[f].at + |fields[f].text| <= lo
  }

  lemma {:induction false} Untouched(h: seq<Byte>, fields: seq<Field>, lo: nat, hi: nat)
    requires lo <= hi <= |h| && Misses(fields, lo, hi)
    ensures PutAll(h, fields)[lo..hi] == h[lo..hi]
    decreases |fields|
  {
    if fields != [] {
      var first := Put(h, fields[0].at, fields[0].text);
      assert first[lo..hi] == h[lo..hi];
      Untouched(first, fields[1..], lo, hi);
    }
  }

  lemma {:induction false} PutAllSplit(h: seq<Byte>, a: seq<Field>, b: seq<Field>)
    ensures PutAll(h, a + b) == PutAll(PutAll(h, a), b)
    decreases |a|
  {
    if a == [] {
      assert a + b == b;
    } else {
      assert (a + b)[1..] == a[1..] + b;
      PutAllSplit(Put(h, a[0].at, a[0].text), a[1..], b);
    }
  }

  // The bytes lo..hi come from field f when no later field reaches them.
  lemma LastFieldWins(h: seq<Byte>, fields: seq<Field>, f: nat, lo: nat, hi: nat)
    requires f < |fields| && lo <= hi <= |h| && Misses(fields[f + 1..], lo, hi)
    ensures PutAll(h, fields)[lo..hi] == Put(PutAll(h, fields[..f]), fields[f].at, fields[f].text)[lo..hi]
  {
    var before, field, after := PutAll(h, fields[..f]), fields[f], fields[f + 1..];
    assert fields == fields[..f] + ([field] + after);
    PutAllSplit(h, fields[..f], [field] + after);
    assert ([field] + after)[1..] == after;
    assert PutAll(before, [field] + after) == PutAll(Put(before, field.at, field.text), after);
    Untouched(Put(before, field.at, field.text), after, lo, hi);
  }

  // And so they do in a header, where the checksum does not reach them either.
  lemma LastWord(name: seq<Byte>, size: nat, f: nat, lo: nat, hi: nat)
    requires f < 10 && lo <= hi <= BLOCK && Misses(Fields(name, size)[f + 1..], lo, hi)
    requires hi <= 148 || lo >= 156
    ensures var before := PutAll(Zeros(BLOCK), Fields(name, size)[..f]);
            var field := Fields(name, size)[f];
            Header(name, size)[lo..hi] == Put(before, field.at, field.text)[lo..hi]
  {
    LastFieldWins(Zeros(BLOCK), Fields(name, size), f, lo, hi);
    SumFits(name, size);
    var u := Unsigned(name, size);
    assert Header(name, size)[lo..hi] == u[lo..hi];
  }

  lemma NameField(name: seq<Byte>, size: nat)
    ensures var h := Header(name, size);
            forall i :: 0 <= i < 100 ==> h[i] == if i < |name| then name[i] else 0
  {
    LastWord(name, size, 0, 0, 100);
    assert Fields(name, size)[..0] == [];
    var h := Header(name, size);
    assert forall i :: 0 <= i < 100 ==> h[i] == h[0..100][i];
  }

  lemma PutShows(h: seq<Byte>, at: nat, text: seq<Byte>, n: nat)
    requires n <= |text| && at + n <= |h|
    ensures Put(h, at, text)[at..at + n] == text[..n]
  {}

  // The size field keeps the first twelve bytes; a thirteenth is overwritten by the next field.
  lemma SizeField(name: seq<Byte>, size: nat)
    ensures Header(name, size)[124..136] == (PadStart(Octal(size), 11) + Ascii(" "))[..12]
  {
    LastWord(name, size, 4, 124, 136);
    var before, text := PutAll(Zeros(BLOCK), Fields(name, size)[..4]), PadStart(Octal(size), 11) + Ascii(" ");
    assert Fields(name, size)[4] == Field(124, text);
    PutShows(before, 124, text, 12);
  }

  lemma PrefixField(name: seq<Byte>, size: nat)
    requires size < Pow8(12)
    ensures var h := Header(name, size);
            forall i :: 345 <= i < 500 ==> h[i] == if i < |name| then name[i] else 0
  {
    OctalLength(size, 12);
    LastWord(name, size, 0, 345, 500);
    assert Fields(name, size)[..0] == [];
    var h := Header(name, size);
    assert forall i :: 345 <= i < 500 ==> h[i] == h[345..500][i - 345];
  }

  lemma TypeFlag(name: seq<Byte>, size: nat)
    ensures Header(name, size)[156] == 48
  {
    LastWord(name, size, 7, 156, 157);
    assert Header(name, size)[156..157][0] == 48;
  }

  lemma FieldShows(name: seq<Byte>, size: nat, f: nat, at: nat, text: seq<Byte>)
    requires f < 10 && Fields(name, size)[f] == Field(at, text)
    requires at + |text| <= 148 || (at >= 156 && at + |text| <= BLOCK)
    requires Misses(Fields(name, size)[f + 1..], at, at + |text|)
    ensures Header(name, size)[at..at + |text|] == text
  {
    LastWord(name, size, f, at, at + |text|);
    PutShows(PutAll(Zeros(BLOCK), Fields(name, size)[..f]), at, text, |text|);
    assert text[..|text|] == text;
  }

  lemma ModeField(name: seq<Byte>, size: nat)
    ensures Header(name, size)[100..108] == Ascii("000644 \0")
  {
    FieldShows(name, size, 1, 100, Ascii("000644 \0"));
  }

  lemma OwnerField(name: seq<Byte>, size: nat)
    ensures Header(name, size)[108..116] == Ascii("000000 \0")
  {
    FieldShows(name, size, 2, 108, Ascii("000000 \0"));
  }

  lemma GroupField(name: seq<Byte>, size: nat)
    ensures Header(name, size)[116..124] == Ascii("000000 \0")
  {
    FieldShows(name, size, 3, 116, Ascii("000000 \0"));
  }

  lemma TimeField(name: seq<Byte>, size: nat)
    ensures Header(name, size)[136..148] == Ascii("00000000000 ")
  {
    FieldShows(name, size, 5, 136, Ascii("00000000000 "));
  }

  lemma FormatFields(name: seq<Byte>, size: nat)
    ensures var h := Header(name, size);
            h[156..157] == Ascii("0") && h[257..263] == Ascii("ustar\0") && h[263..265] == Ascii("00")
  {
    FieldShows(name, size, 7, 156, Ascii("0"));
    FieldShows(name, size, 8, 257, Ascii("ustar\0"));
    FieldShows(name, size, 9, 263, Ascii("00"));
  }

  // The other fields of a header, for every name and size: the mode, the owner and the group, a time,
  // the type of a plain file, and the mark of the format with its version.
  lemma AHeaderIsUstar(name: seq<Byte>, size: nat)
    ensures var h := Header(name, size);
            && h[100..108] == Ascii("000644 \0")
            && h[108..116] == Ascii("000000 \0") && h[116..124] == Ascii("000000 \0")
            && h[136..148] == Ascii("00000000000 ") && h[156..157] == Ascii("0")
            && h[257..263] == Ascii("ustar\0") && h[263..265] == Ascii("00")
  {
    ModeField(name, size);
    OwnerField(name, size);
    GroupField(name, size);
    TimeField(name, size);
    FormatFields(name, size);
  }

  lemma SumFits(name: seq<Byte>, size: nat)
    ensures |PadStart(Octal(Sum(Unsigned(name, size))), 6)| == 6
  {
    var sum := Sum(Unsigned(name, size));
    SumBound(Unsigned(name, size));
    assert Pow8(1) == 8 && Pow8(2) == 64 && Pow8(3) == 512 && Pow8(4) == 4096 && Pow8(5) == 32768 && Pow8(6) == 262144;
    OctalLength(sum, 6);
  }

  // A reader that sums the header with the checksum field read as spaces finds the sum it holds.
  lemma ChecksumVerifies(name: seq<Byte>, size: nat)
    ensures var h := Header(name, size);
            TarNumber(h[148..156]) == Sum(Put(h, 148, Ascii("        ")))
  {
    var h, u := Header(name, size), Unsigned(name, size);
    var digits := PadStart(Octal(Sum(u)), 6);
    SumFits(name, size);
    assert h[148..156] == digits + Ascii("\0 ");
    DigitsField(digits, h[148..156]);
    ValueOfPadStart(Sum(u), 6);
    BlankAgain(name, size);
  }

  lemma BlankAgain(name: seq<Byte>, size: nat)
    requires |PadStart(Octal(Sum(Unsigned(name, size))), 6)| == 6
    ensures Put(Header(name, size), 148, Ascii("        ")) == Unsigned(name, size)
  {
    var fields, u := Fields(name, size), Unsigned(name, size);
    LastFieldWins(Zeros(BLOCK), fields, 6, 148, 156);
    var blank := Put(PutAll(Zeros(BLOCK), fields[..6]), 148, Ascii("        "));
    assert forall i :: 148 <= i < 156 ==> u[i] == u[148..156][i - 148] == blank[148..156][i - 148] == 32;
  }
}
