// What a text weighs: the bytes of its UTF-8, and of its JSON string, spelled out.

module PluginBytes {
  import opened Common
  import opened PluginTexts
  import opened PluginTables

  // ---- UTF-8 ----

  type Octet = n: nat | n < 256

  function Utf8(p: Point): seq<Octet> {
    if p < 0x80 then [p]
    else if p < 0x800 then [0xC0 + p / 0x40, 0x80 + p % 0x40]
    else if p < 0x1_0000 then [0xE0 + p / 0x1000, 0x80 + p / 0x40 % 0x40, 0x80 + p % 0x40]
    else [0xF0 + p / 0x4_0000, 0x80 + p / 0x1000 % 0x40, 0x80 + p / 0x40 % 0x40, 0x80 + p % 0x40]
  }

  function Utf8All(points: seq<Point>): seq<Octet> {
    if points == [] then [] else Utf8(points[0]) + Utf8All(points[1..])
  }

  // The code point that some bytes begin with, and how many of them it takes.
  function First(bytes: seq<Octet>): (int, nat)
    requires bytes != []
  {
    var b := bytes[0];
    if b < 0x80 then (b, 1)
    else if b < 0xE0 && |bytes| >= 2 then ((b - 0xC0) * 0x40 + (bytes[1] - 0x80), 2)
    else if b < 0xF0 && |bytes| >= 3 then ((b - 0xE0) * 0x1000 + (bytes[1] - 0x80) * 0x40 + (bytes[2] - 0x80), 3)
    else if |bytes| >= 4 then
      ((b - 0xF0) * 0x4_0000 + (bytes[1] - 0x80) * 0x1000 + (bytes[2] - 0x80) * 0x40 + (bytes[3] - 0x80), 4)
    else (0xFFFD, 1)
  }

  lemma SixBits(n: nat)
    ensures n == n / 0x40 * 0x40 + n % 0x40 && n / 0x1000 == n / 0x40 / 0x40 && n / 0x4_0000 == n / 0x1000 / 0x40
  {}

  lemma SplitInTwo(n: nat)
    ensures n == n / 0x1000 * 0x1000 + n / 0x40 % 0x40 * 0x40 + n % 0x40
  {
    SixBits(n);
    SixBits(n / 0x40);
  }

  lemma SplitInThree(n: nat)
    ensures n == n / 0x4_0000 * 0x4_0000 + n / 0x1000 % 0x40 * 0x1000 + n / 0x40 % 0x40 * 0x40 + n % 0x40
  {
    SplitInTwo(n);
    SixBits(n);
    SixBits(n / 0x1000);
  }

  lemma Utf8IsRead(p: Point, rest: seq<Octet>)
    ensures Utf8(p) != [] && First(Utf8(p) + rest) == (p, |Utf8(p)|)
  {
    var own := Utf8(p);
    var all := own + rest;
    assert all[0] == own[0];
    if p < 0x80 {
    } else if p < 0x800 {
      assert all[1] == own[1];
      SixBits(p);
    } else if p < 0x1_0000 {
      assert all[1] == own[1] && all[2] == own[2];
      SplitInTwo(p);
    } else {
      assert all[1] == own[1] && all[2] == own[2] && all[3] == own[3];
      SplitInThree(p);
    }
  }

  function Decoded(bytes: seq<Octet>): seq<int>
    decreases |bytes|
  {
    if bytes == [] then []
    else
      var (p, n) := First(bytes);
      [p] + Decoded(bytes[n..])
  }

  // The encoding is read back.
  lemma {:induction false} Utf8IsDecoded(points: seq<Point>)
    ensures Decoded(Utf8All(points)) == points
  {
    if points != [] {
      var rest := Utf8All(points[1..]);
      Utf8IsRead(points[0], rest);
      Utf8IsDecoded(points[1..]);
      assert (Utf8(points[0]) + rest)[|Utf8(points[0])|..] == rest;
      assert points == [points[0]] + points[1..];
    }
  }

  // A text weighs the bytes of the UTF-8 of what it is bound as, a lone surrogate being U+FFFD there.
  lemma {:induction false} ATextWeighsItsUtf8(t: Text)
    ensures Utf8Bytes(t) == |Utf8All(Points(t))|
    decreases |t|
  {
    if t != [] {
      PointsStep(t);
      if IsHigh(t[0]) && |t| > 1 && IsLow(t[1]) {
        ATextWeighsItsUtf8(t[2..]);
        assert ([Paired(t[0], t[1])] + Points(t[2..]))[1..] == Points(t[2..]);
      } else {
        ATextWeighsItsUtf8(t[1..]);
        assert ([Bound(t[0])] + Points(t[1..]))[1..] == Points(t[1..]);
      }
    }
  }

  // The halves of a pair, and every pair is two of them.
  lemma HalvesExactly(u: Unit)
    ensures IsHigh(u) <==> 0xD800 <= u <= 0xDBFF
    ensures IsLow(u) <==> 0xDC00 <= u <= 0xDFFF
  {}

  // ---- a JSON string ----

  function Hex(d: nat): Unit
    requires d < 16
  {
    if d < 10 then 0x30 + d else 0x57 + d
  }

  function UnHex(u: Unit): int { if u < 0x40 then u - 0x30 else u - 0x57 }

  function ByNumber(u: Unit): Text {
    [0x5C, 0x75, Hex(u / 0x1000), Hex(u / 0x100 % 16), Hex(u / 16 % 16), Hex(u % 16)]
  }

  // One unit, not counting the pairs.
  function Escape(u: Unit): Text {
    if u == 0x22 || u == 0x5C then [0x5C, u]
    else if u == 0x08 then [0x5C, 0x62]
    else if u == 0x09 then [0x5C, 0x74]
    else if u == 0x0A then [0x5C, 0x6E]
    else if u == 0x0C then [0x5C, 0x66]
    else if u == 0x0D then [0x5C, 0x72]
    else if u < 0x20 || IsSurrogate(u) then ByNumber(u)
    else [u]
  }

  function Escaped(t: Text): Text
    decreases |t|
  {
    if t == [] then []
    else if IsHigh(t[0]) && |t| > 1 && IsLow(t[1]) then [t[0], t[1]] + Escaped(t[2..])
    else Escape(t[0]) + Escaped(t[1..])
  }

  function Quoted(t: Text): Text { [0x22] + Escaped(t) + [0x22] }

  // What stands first in an escaped text, and how many units it takes.
  function Unescape(text: Text): (int, nat)
    requires text != []
  {
    if text[0] != 0x5C || |text| == 1 then (text[0], 1)
    else if text[1] == 0x62 then (0x08, 2)
    else if text[1] == 0x74 then (0x09, 2)
    else if text[1] == 0x6E then (0x0A, 2)
    else if text[1] == 0x66 then (0x0C, 2)
    else if text[1] == 0x72 then (0x0D, 2)
    else if text[1] == 0x75 && |text| >= 6 then
      (UnHex(text[2]) * 0x1000 + UnHex(text[3]) * 0x100 + UnHex(text[4]) * 16 + UnHex(text[5]), 6)
    else (text[1], 2)
  }

  function Unescaped(text: Text): seq<int>
    decreases |text|
  {
    if text == [] then []
    else
      var (u, n) := Unescape(text);
      [u] + Unescaped(text[n..])
  }

  lemma HexIsRead(d: nat)
    requires d < 16
    ensures UnHex(Hex(d)) == d
  {}

  lemma EscapeIsRead(u: Unit, rest: Text)
    ensures Escape(u) != [] && Unescape(Escape(u) + rest) == (u, |Escape(u)|)
  {
    var all := Escape(u) + rest;
    assert all[0] == Escape(u)[0];
    if |Escape(u)| > 1 { assert all[1] == Escape(u)[1]; }
    if |Escape(u)| > 2 {
      assert all[2] == Escape(u)[2] && all[3] == Escape(u)[3] && all[4] == Escape(u)[4] && all[5] == Escape(u)[5];
      FourHex(u);
    }
  }

  lemma FourHex(u: Unit)
    ensures UnHex(Hex(u / 0x1000)) * 0x1000 + UnHex(Hex(u / 0x100 % 16)) * 0x100 + UnHex(Hex(u / 16 % 16)) * 16
            + UnHex(Hex(u % 16)) == u
  {
    HexIsRead(u / 0x1000);
    HexIsRead(u / 0x100 % 16);
    HexIsRead(u / 16 % 16);
    HexIsRead(u % 16);
    FourNibbles(u);
  }

  lemma FourNibbles(u: nat)
    ensures u == u / 0x1000 * 0x1000 + u / 0x100 % 16 * 0x100 + u / 16 % 16 * 16 + u % 16
  {
    assert u / 0x100 == u / 16 / 16 && u / 0x1000 == u / 0x100 / 16;
  }

  lemma UnescapedStep(u: Unit, head: Text, rest: Text)
    requires head != [] && Unescape(head + rest) == (u, |head|)
    ensures Unescaped(head + rest) == [u] + Unescaped(rest)
  {
    assert (head + rest)[|head|..] == rest;
  }

  // What is escaped is read back.
  lemma {:induction false} EscapedIsRead(t: Text)
    ensures Unescaped(Escaped(t)) == t
    decreases |t|
  {
    if t != [] {
      if IsHigh(t[0]) && |t| > 1 && IsLow(t[1]) {
        var rest := Escaped(t[2..]);
        EscapedIsRead(t[2..]);
        UnescapedStep(t[1], [t[1]], rest);
        UnescapedStep(t[0], [t[0]], [t[1]] + rest);
        assert [t[0], t[1]] + rest == [t[0]] + ([t[1]] + rest);
        assert t == [t[0]] + ([t[1]] + t[2..]);
      } else {
        EscapedIsRead(t[1..]);
        EscapeIsRead(t[0], Escaped(t[1..]));
        UnescapedStep(t[0], Escape(t[0]), Escaped(t[1..]));
        assert t == [t[0]] + t[1..];
      }
    }
  }

  lemma PlainWeighs(u: Unit, rest: Text)
    requires !IsSurrogate(u)
    ensures Utf8Bytes([u] + rest) == (if u < 0x80 then 1 else if u < 0x800 then 2 else 3) + Utf8Bytes(rest)
  {
    assert ([u] + rest)[1..] == rest;
  }

  lemma {:induction false} PlainTextWeighs(t: Text, rest: Text)
    requires forall i :: 0 <= i < |t| ==> t[i] < 0x80
    ensures Utf8Bytes(t + rest) == |t| + Utf8Bytes(rest)
  {
    if t == [] {
      assert t + rest == rest;
    } else {
      assert t + rest == [t[0]] + (t[1..] + rest);
      PlainWeighs(t[0], t[1..] + rest);
      PlainTextWeighs(t[1..], rest);
    }
  }

  lemma EscapeWeighs(u: Unit, rest: Text)
    ensures Utf8Bytes(Escape(u) + rest)
            == Utf8Bytes(rest) + if |Escape(u)| > 1 then |Escape(u)|
                                 else if u < 0x80 then 1 else if u < 0x800 then 2 else 3
  {
    if |Escape(u)| > 1 { PlainTextWeighs(Escape(u), rest); } else { PlainWeighs(u, rest); }
  }

  lemma PairWeighs(high: Unit, low: Unit, rest: Text)
    requires IsHigh(high) && IsLow(low)
    ensures Utf8Bytes([high, low] + rest) == 4 + Utf8Bytes(rest)
  {
    assert ([high, low] + rest)[2..] == rest;
  }

  lemma {:induction false} EscapedWeighs(t: Text)
    ensures EscapedBytes(t) == Utf8Bytes(Escaped(t))
    decreases |t|
  {
    if t != [] {
      if IsHigh(t[0]) && |t| > 1 && IsLow(t[1]) {
        EscapedWeighs(t[2..]);
        PairWeighs(t[0], t[1], Escaped(t[2..]));
      } else {
        EscapedWeighs(t[1..]);
        EscapeWeighs(t[0], Escaped(t[1..]));
      }
    }
  }

  lemma {:induction false} QuoteEnds(t: Text)
    ensures Utf8Bytes(t + [0x22]) == Utf8Bytes(t) + 1
    decreases |t|
  {
    if t == [] {
      assert t + [0x22] == [0x22] + [];
      PlainWeighs(0x22, []);
    } else if IsHigh(t[0]) && |t| > 1 && IsLow(t[1]) {
      assert (t + [0x22])[2..] == t[2..] + [0x22];
      QuoteEnds(t[2..]);
    } else {
      assert (t + [0x22])[1..] == t[1..] + [0x22];
      QuoteEnds(t[1..]);
    }
  }

  // A key is charged the UTF-8 of its JSON string, which reads back as the key.
  lemma AKeyWeighsItsJson(t: Text)
    ensures QuotedBytes(t) == Utf8Bytes(Quoted(t)) && Unescaped(Escaped(t)) == t
  {
    EscapedIsRead(t);
    EscapedWeighs(t);
    QuoteEnds(Escaped(t));
    assert Quoted(t) == [0x22] + (Escaped(t) + [0x22]);
    PlainWeighs(0x22, Escaped(t) + [0x22]);
  }
}
