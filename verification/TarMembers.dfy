// Archives of any make: the block reader against reading one member after another.

module TarMembers {
  import opened Common
  import opened Bytes
  import opened Octals
  import opened TarWriter
  import opened TarReader

  // A header block and the body behind it.
  datatype Member = Member(header: seq<Byte>, body: seq<Byte>)

  // The header is a block that is not all zeros and tells the body's size.
  predicate IsMember(m: Member) {
    && |m.header| == 512 && (exists i :: 0 <= i < 512 && m.header[i] != 0)
    && TarNumber(m.header[124..136]) == |m.body| <= 9_007_199_254_740_991
  }

  predicate AreMembers(members: seq<Member>) { forall i :: 0 <= i < |members| ==> IsMember(members[i]) }

  // A member as it lies in the archive: whole blocks.
  function Laid(m: Member): seq<Byte> { m.header + m.body + Zeros(Fill(|m.body|)) }

  function Fill(size: nat): nat { (512 - size % 512) % 512 }

  function LaidOut(members: seq<Member>): seq<Byte> {
    if members == [] then [] else Laid(members[0]) + LaidOut(members[1..])
  }

  // The name in the header: the one field, or the two with a slash between.
  function OwnName(header: seq<Byte>): seq<Byte>
    requires |header| == 512
  {
    var directory, last := BeforeNul(header[345..500]), BeforeNul(header[..100]);
    if directory == [] then last else directory + Ascii("/") + last
  }

  // What one member says: the name of the next file, nothing, an entry, or what is refused.
  datatype Said = NamesNext(name: Option<seq<Byte>>) | Nothing | Holds(entry: Entry) | Bad

  // A member of type L or x names the next file, with at most 64 KiB for it; one of type g or K says
  // nothing; a file or a directory takes the long name or its own; anything else is refused.
  function Says(kind: char, name: seq<Byte>, body: seq<Byte>, pax: Pax): Said {
    if kind == 'L' || kind == 'x' then
      if |body| > 65_536 then Bad
      else NamesNext(if kind == 'L' then Some(BeforeNul(body)) else pax(body))
    else if kind == 'g' || kind == 'K' then Nothing
    else if kind == '5' then Holds(Directory(name))
    else if kind == '0' || kind == '7' || kind == '\0' then Holds(Plain(name, body))
    else Bad
  }

  function SaidBy(m: Member, long: Option<seq<Byte>>, pax: Pax): Said
    requires |m.header| == 512
  {
    Says(m.header[156] as char, if long == None then OwnName(m.header) else long.value, m.body, pax)
  }

  // What some members say one after another, `long` being the name that those before them gave.
  function Told(members: seq<Member>, long: Option<seq<Byte>>, pax: Pax): Outcome
    requires AreMembers(members)
    decreases |members|
  {
    if members == [] then Read([])
    else
      match SaidBy(members[0], long, pax)
      case NamesNext(name) => Told(members[1..], name, pax)
      case Nothing => Told(members[1..], long, pax)
      case Holds(entry) => Joined(entry, Told(members[1..], None, pax))
      case Bad => Refused(Unsafe)
  }

  function Joined(first: Entry, rest: Outcome): Outcome {
    match rest
    case Read(entries) => Read([first] + entries)
    case Refused(code) => Refused(code)
  }

  // ---- one member ----

  lemma LaidIsBlocks(m: Member)
    requires IsMember(m)
    ensures |Laid(m)| == 512 + |m.body| + Padding(|m.body|)
  {
    PaddingIs(|m.body|);
  }

  lemma PaddingIs(size: nat)
    ensures Padding(size) == Fill(size)
  {}

  lemma Slices(pre: seq<Byte>, m: Member, post: seq<Byte>)
    requires IsMember(m)
    ensures LiesAt(pre + Laid(m) + post, |pre|, m)
    ensures |pre + Laid(m)| == PastBlocks(|pre|, |m.body|)
  {
    MemberSlices(pre, m.header, m.body, Zeros(Fill(|m.body|)), post);
    LaidIsBlocks(m);
  }

  // Where the reader is after a member that says so much, and with what.
  function Meant(said: Said, next: nat, long: Option<seq<Byte>>): Move {
    match said
    case NamesNext(name) => Go(next, name, [])
    case Nothing => Go(next, long, [])
    case Holds(entry) => Go(next, None, [entry])
    case Bad => Fail(Unsafe)
  }

  // A member's header and body are the bytes there.
  predicate LiesAt(bytes: seq<Byte>, at: nat, m: Member) {
    && |m.header| == 512 && at + 512 + |m.body| + Padding(|m.body|) <= |bytes|
    && bytes[at..at + 512] == m.header && bytes[at + 512..at + 512 + |m.body|] == m.body
  }

  lemma TurnAt(bytes: seq<Byte>, at: nat, m: Member, long: Option<seq<Byte>>, pax: Pax)
    requires IsMember(m) && LiesAt(bytes, at, m)
    ensures Turn(bytes, at, long, pax) == Meant(SaidBy(m, long, pax), PastBlocks(at, |m.body|), long)
  {
    var i :| 0 <= i < 512 && m.header[i] != 0;
    TurnAtHeader(bytes, at, m.header, m.body, i, long, pax);
  }

  lemma TurnAtHeader(bytes: seq<Byte>, at: nat, h: seq<Byte>, body: seq<Byte>, i: nat,
                     long: Option<seq<Byte>>, pax: Pax)
    requires |h| == 512 && LiesAt(bytes, at, Member(h, body))
    requires i < 512 && h[i] != 0 && TarNumber(h[124..136]) == |body| <= 9_007_199_254_740_991
    ensures Turn(bytes, at, long, pax) == Meant(SaidBy(Member(h, body), long, pax), PastBlocks(at, |body|), long)
  {
    NamesAlike(h);
    MemberBegins(bytes, at, h, |body|, i, long, pax);
    TurnIs(bytes, at + 512, h[156], if long == None then OwnName(h) else long.value, body, long, pax);
  }

  lemma MemberBegins(bytes: seq<Byte>, at: nat, h: seq<Byte>, size: nat, i: nat, long: Option<seq<Byte>>, pax: Pax)
    requires at + 512 <= |bytes| && bytes[at..at + 512] == h && i < 512 && h[i] != 0
    requires TarNumber(h[124..136]) == size
    ensures var name := if long == None then NameIn(h) else long.value;
            Turn(bytes, at, long, pax) == MemberTurn(bytes, at + 512, h[156], size, name, long, pax)
  {}

  function PastBlocks(at: nat, size: nat): nat { at + 512 + size + Padding(size) }

  // The same, for any body behind a header of any type and name.
  lemma TurnIs(bytes: seq<Byte>, start: nat, flag: Byte, name: seq<Byte>, body: seq<Byte>,
               long: Option<seq<Byte>>, pax: Pax)
    requires start + |body| + Padding(|body|) <= |bytes| && bytes[start..start + |body|] == body
    requires |body| <= 9_007_199_254_740_991
    ensures MemberTurn(bytes, start, flag, |body|, name, long, pax)
            == Meant(Says(flag as char, name, body, pax), start + |body| + Padding(|body|), long)
  {
    KindIsItsFlag(flag);
  }

  lemma KindIsItsFlag(flag: Byte)
    ensures var kind := flag as char;
            && (kind == 'L' <==> flag == 76) && (kind == 'x' <==> flag == 120) && (kind == 'g' <==> flag == 103)
            && (kind == 'K' <==> flag == 75) && (kind == '5' <==> flag == 53) && (kind == '0' <==> flag == 48)
            && (kind == '7' <==> flag == 55) && (kind == '\0' <==> flag == 0)
  {}

  lemma NamesAlike(header: seq<Byte>)
    requires |header| == 512
    ensures NameIn(header) == OwnName(header)
  {
    assert header[0..100] == header[..100];
    assert Ascii("/") == [47];
  }

  // ---- the whole archive ----

  lemma AfterOne(entry: Entry, rest: Outcome)
    ensures After([entry], rest) == Joined(entry, rest) && After([], rest) == rest
  {
    if rest.Read? { assert [] + rest.entries == rest.entries; }
  }

  lemma {:induction false} ReadsAsTold(pre: seq<Byte>, members: seq<Member>, long: Option<seq<Byte>>, pax: Pax)
    requires AreMembers(members)
    ensures ReadFrom(pre + LaidOut(members) + Zeros(1024), |pre|, long, pax) == Told(members, long, pax)
    decreases |members|
  {
    if members == [] {
      assert pre + [] + Zeros(1024) == pre + Zeros(1024);
      StopsAtTheEnd(pre, long, pax);
    } else {
      var m, later := members[0], LaidOut(members[1..]);
      var bytes := pre + LaidOut(members) + Zeros(1024);
      Regroup(pre, Laid(m), later, Zeros(1024));
      Slices(pre, m, later + Zeros(1024));
      var said := SaidBy(m, long, pax);
      TurnAt(bytes, |pre|, m, long, pax);
      if said != Bad {
        ReadsAsTold(pre + Laid(m), members[1..], NameAfter(said, long), pax);
      }
      OneThenTheRest(bytes, |pre|, said, |pre + Laid(m)|, long, pax);
    }
  }

  // The name the next file takes.
  function NameAfter(said: Said, long: Option<seq<Byte>>): Option<seq<Byte>> {
    if said.NamesNext? then said.name else if said.Nothing? then long else None
  }

  lemma OneThenTheRest(bytes: seq<Byte>, at: nat, said: Said, next: nat, long: Option<seq<Byte>>, pax: Pax)
    requires at <= |bytes| && next <= |bytes|
    requires Turn(bytes, at, long, pax) == Meant(said, next, long)
    ensures ReadFrom(bytes, at, long, pax)
            == if said == Bad then Refused(Unsafe)
               else if said.Holds? then Joined(said.entry, ReadFrom(bytes, next, None, pax))
               else ReadFrom(bytes, next, NameAfter(said, long), pax)
  {
    if said != Bad {
      AfterOne(if said.Holds? then said.entry else Directory([]), ReadFrom(bytes, next, NameAfter(said, long), pax));
    }
  }

  // ---- the number in a header ----

  // A number in base 256, highest byte first.
  function InBytes(n: nat, width: nat): (b: seq<Byte>)
    ensures |b| == width
  {
    if width == 0 then [] else InBytes(n / 256, width - 1) + [n % 256]
  }

  function Power256(k: nat): nat { if k == 0 then 1 else 256 * Power256(k - 1) }

  lemma {:induction false} BytesAreRead(n: nat, width: nat)
    requires n < Power256(width)
    ensures BigEndian(InBytes(n, width)) == n
  {
    if width > 0 {
      assert n / 256 < Power256(width - 1);
      BytesAreRead(n / 256, width - 1);
      assert InBytes(n, width)[..width - 1] == InBytes(n / 256, width - 1);
    }
  }

  // What may stand before it is what `trim` takes off a text of one byte for each unit.
  lemma BlanksAre(b: Byte)
    ensures IsBlank(b) <==> b in {9, 10, 11, 12, 13, 32, 160}
  {}

  // A size past eight gigabytes stands in base 256 behind a byte with its top bit set, and is read so.
  lemma ABinarySizeIsRead(mark: Byte, n: nat)
    requires mark >= 128 && n < Power256(11)
    ensures TarNumber([mark] + InBytes(n, 11)) == n
  {
    BytesAreRead(n, 11);
    assert ([mark] + InBytes(n, 11))[1..] == InBytes(n, 11);
  }

  // Any other is octal, after blanks, up to a NUL, and may have a sign.
  lemma AnOctalSizeIsRead(before: seq<Byte>, sign: seq<Byte>, digits: seq<Byte>, rest: seq<Byte>)
    requires forall i :: 0 <= i < |before| ==> 9 <= before[i] <= 13 || before[i] == 32
    requires sign == [] || sign == [43] || sign == [45]
    requires Digits(digits) && digits != [] && (rest != [] ==> rest[0] == 0)
    ensures TarNumber(before + (sign + digits) + rest) == (if sign == [45] then 0 - Value(digits) else Value(digits))
  {
    var text := sign + digits;
    var field := before + text + rest;
    SignedDigits(sign, digits);
    UpToTheNul(before, text, rest);
    TrimsTo(before, text);
    OctalPrefixOfDigits(digits);
    TextIsRead(field, text, sign, digits);
  }

  lemma TextIsRead(field: seq<Byte>, text: seq<Byte>, sign: seq<Byte>, digits: seq<Byte>)
    requires field != [] && field[0] < 128 && TrimEnd(TrimStart(BeforeNul(field), IsBlank), IsBlank) == text
    requires sign == [] || sign == [43] || sign == [45]
    requires Digits(digits) && digits != [] && OctalPrefix(digits) == digits
    requires text != [] && text[|sign|..] == digits && text[0] == (if sign == [] then digits[0] else sign[0])
    ensures TarNumber(field) == (if sign == [45] then 0 - Value(digits) else Value(digits))
  {
    if sign == [] { assert text == digits; }
  }

  lemma SignedDigits(sign: seq<Byte>, digits: seq<Byte>)
    requires sign == [] || sign == [43] || sign == [45]
    requires Digits(digits) && digits != []
    ensures var text := sign + digits;
            && text != [] && text[|sign|..] == digits && 0 !in text
            && text[0] == (if sign == [] then digits[0] else sign[0]) && text[|text| - 1] == digits[|digits| - 1]
  {}

  lemma UpToTheNul(before: seq<Byte>, text: seq<Byte>, rest: seq<Byte>)
    requires forall i :: 0 <= i < |before| ==> 9 <= before[i] <= 13 || before[i] == 32
    requires text != [] && 0 !in text && text[0] < 128 && (rest != [] ==> rest[0] == 0)
    ensures var field := before + text + rest;
            BeforeNul(field) == before + text && field != [] && field[0] < 128
  {
    BeforeNulIs(before + text, before + text + rest);
  }

  lemma {:induction false} TrimsTo(before: seq<Byte>, text: seq<Byte>)
    requires (forall i :: 0 <= i < |before| ==> IsBlank(before[i])) && text != []
    requires !IsBlank(text[0]) && !IsBlank(text[|text| - 1])
    ensures TrimEnd(TrimStart(before + text, IsBlank), IsBlank) == text
  {
    if before == [] {
      assert before + text == text;
    } else {
      assert (before + text)[1..] == before[1..] + text;
      TrimsTo(before[1..], text);
    }
  }

  lemma FromNothing(bytes: seq<Byte>)
    ensures [] + bytes == bytes
  {}

  // Whatever members an archive has, in whatever order, the reader's loop over its blocks says what they
  // say one after another.
  lemma AnArchiveIsReadMemberByMember(members: seq<Member>, pax: Pax)
    requires AreMembers(members)
    ensures ReadFrom(LaidOut(members) + Zeros(1024), 0, None, pax) == Told(members, None, pax)
  {
    FromNothing(LaidOut(members));
    ReadsAsTold([], members, None, pax);
  }
}
