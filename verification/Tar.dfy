// The ustar archive writer used by the drivers, and the reader the daemon unpacks archives with.
// Compression is left out: both sides are about the uncompressed bytes.

module Bytes {
  type Byte = n: nat | n < 256

  function Ascii(s: string): (b: seq<Byte>)
    requires forall i :: 0 <= i < |s| ==> s[i] as int < 128
    ensures |b| == |s| && forall i :: 0 <= i < |s| ==> b[i] == s[i] as int
  {
    seq(|s|, i requires 0 <= i < |s| => s[i] as int)
  }

  function Zeros(n: nat): (b: seq<Byte>)
    ensures |b| == n && forall i :: 0 <= i < n ==> b[i] == 0
  {
    seq(n, _ => 0)
  }

  // `buffer.write(s, at)`: bytes past the end of the buffer are dropped.
  function Put(h: seq<Byte>, at: nat, s: seq<Byte>): (r: seq<Byte>)
    ensures |r| == |h|
    ensures forall i :: 0 <= i < |h| ==> r[i] == if at <= i < at + |s| then s[i - at] else h[i]
  {
    seq(|h|, i requires 0 <= i < |h| => if at <= i < at + |s| then s[i - at] else h[i])
  }

  function Sum(b: seq<Byte>): nat {
    if b == [] then 0 else Sum(b[..|b| - 1]) + b[|b| - 1]
  }

  lemma {:induction false} SumBound(b: seq<Byte>)
    ensures Sum(b) <= 255 * |b|
  {
    if b != [] { SumBound(b[..|b| - 1]); }
  }
}

module Octals {
  import opened Common
  import opened Bytes

  // `n.toString(8)`.
  function Octal(n: nat): (d: seq<Byte>)
    ensures d != [] && Digits(d)
  {
    if n < 8 then [48 + n] else Octal(n / 8) + [48 + n % 8]
  }

  predicate Digits(d: seq<Byte>) { forall i :: 0 <= i < |d| ==> 48 <= d[i] <= 55 }

  function Value(d: seq<Byte>): nat
    requires Digits(d)
  {
    if d == [] then 0 else 8 * Value(d[..|d| - 1]) + (d[|d| - 1] - 48)
  }

  function Pow8(k: nat): (p: nat)
    ensures p > 0
  {
    if k == 0 then 1 else 8 * Pow8(k - 1)
  }

  // A run of the digit 0.
  function Naughts(z: nat): (d: seq<Byte>)
    ensures |d| == z && Digits(d)
  {
    seq(z, _ => 48)
  }

  // `digits.padStart(width, "0")`.
  function PadStart(d: seq<Byte>, width: nat): (p: seq<Byte>)
    requires Digits(d)
    ensures Digits(p) && |p| == if |d| < width then width else |d|
  {
    if |d| < width then Naughts(width - |d|) + d else d
  }

  lemma {:induction false} ValueOfOctal(n: nat)
    ensures Value(Octal(n)) == n
  {
    if n >= 8 {
      ValueOfOctal(n / 8);
      assert Octal(n)[..|Octal(n)| - 1] == Octal(n / 8);
    } else {
      assert Octal(n)[..0] == [];
    }
  }

  lemma {:induction false} OctalLength(n: nat, k: nat)
    requires k > 0
    ensures |Octal(n)| <= k <==> n < Pow8(k)
    decreases k
  {
    if k == 1 {
      assert Pow8(1) == 8 * Pow8(0);
    } else if n >= 8 {
      OctalLength(n / 8, k - 1);
    } else {
      Pow8AtLeast8(k);
    }
  }

  lemma {:induction false} Pow8AtLeast8(k: nat)
    requires k > 0
    ensures Pow8(k) >= 8
  {
    if k > 1 { Pow8AtLeast8(k - 1); }
  }

  lemma {:induction false} ValueBound(d: seq<Byte>)
    requires Digits(d)
    ensures Value(d) < Pow8(|d|)
  {
    if d != [] { ValueBound(d[..|d| - 1]); }
  }

  lemma {:induction false} ValueOfNaughts(z: nat)
    ensures Value(Naughts(z)) == 0
  {
    if z > 0 {
      ValueOfNaughts(z - 1);
      assert Naughts(z)[..z - 1] == Naughts(z - 1);
    }
  }

  lemma {:induction false} ValueOfPadded(z: nat, d: seq<Byte>, p: seq<Byte>)
    requires Digits(d) && p == Naughts(z) + d
    ensures Digits(p) && Value(p) == Value(d)
    decreases |d|
  {
    if d == [] {
      ValueOfNaughts(z);
      assert p == Naughts(z);
    } else {
      var shorter := p[..|p| - 1];
      assert shorter == Naughts(z) + d[..|d| - 1];
      ValueOfPadded(z, d[..|d| - 1], shorter);
    }
  }

  lemma ValueOfPad(d: seq<Byte>, width: nat, p: seq<Byte>)
    requires Digits(d) && p == PadStart(d, width)
    ensures Value(p) == Value(d)
  {
    if |d| < width { ValueOfPadded(width - |d|, d, p); }
  }

  lemma ValueOfPadStart(n: nat, width: nat)
    ensures Value(PadStart(Octal(n), width)) == n
  {
    ValueOfOctal(n);
    ValueOfPad(Octal(n), width, PadStart(Octal(n), width));
  }

  // ---- reading a numeric field ----

  predicate IsBlank(b: Byte) { 9 <= b <= 13 || b == 32 || b == 160 }

  // Everything before the first NUL.
  function BeforeNul(s: seq<Byte>): (t: seq<Byte>)
    ensures t <= s && 0 !in t
    ensures |t| < |s| ==> s[|t|] == 0
  {
    if s == [] || s[0] == 0 then [] else [s[0]] + BeforeNul(s[1..])
  }

  function OctalPrefix(s: seq<Byte>): (d: seq<Byte>)
    ensures d <= s && Digits(d)
    ensures |d| < |s| ==> !(48 <= s[|d|] <= 55)
  {
    if s == [] || !(48 <= s[0] <= 55) then [] else [s[0]] + OctalPrefix(s[1..])
  }

  function BigEndian(s: seq<Byte>): nat {
    if s == [] then 0 else 256 * BigEndian(s[..|s| - 1]) + s[|s| - 1]
  }

  // Octal text, or base 256 when the top bit of the first byte is set. An unreadable text is 0.
  function TarNumber(field: seq<Byte>): int {
    if field != [] && field[0] >= 128 then BigEndian(field[1..])
    else
      var text := TrimEnd(TrimStart(BeforeNul(field), IsBlank), IsBlank);
      var signed := text != [] && (text[0] == 43 || text[0] == 45);
      var value: int := Value(OctalPrefix(if signed then text[1..] else text));
      if signed && text[0] == 45 then -value else value
  }

  lemma {:induction false} BeforeNulIs(t: seq<Byte>, s: seq<Byte>)
    requires t <= s && 0 !in t && (|t| < |s| ==> s[|t|] == 0)
    ensures BeforeNul(s) == t
  {
    if t != [] { BeforeNulIs(t[1..], s[1..]); }
  }

  lemma {:induction false} OctalPrefixOfDigits(d: seq<Byte>)
    requires Digits(d)
    ensures OctalPrefix(d) == d
  {
    if d != [] { OctalPrefixOfDigits(d[1..]); }
  }

  lemma NumberOfText(field: seq<Byte>, d: seq<Byte>)
    requires Digits(d) && d != [] && d <= field && TrimEnd(TrimStart(BeforeNul(field), IsBlank), IsBlank) == d
    ensures TarNumber(field) == Value(d)
  {
    assert field[0] == d[0];
    OctalPrefixOfDigits(d);
  }

  lemma DigitsThenBlank(d: seq<Byte>, field: seq<Byte>)
    requires Digits(d) && d != [] && field == d + [32]
    ensures TrimEnd(TrimStart(BeforeNul(field), IsBlank), IsBlank) == d
  {
    assert field[0] == d[0] && field[..|field| - 1] == d;
    assert 0 !in field;
    BeforeNulIs(field, field);
    assert TrimStart(field, IsBlank) == field;
    assert TrimEnd(field, IsBlank) == TrimEnd(d, IsBlank) == d;
  }

  // A field of digits, with or without a terminator after them.
  lemma DigitsField(d: seq<Byte>, field: seq<Byte>)
    requires Digits(d) && d != [] && d <= field
    requires |field| > |d| ==> field[|d|] == 0 || (field[|d|] == 32 && |field| == |d| + 1)
    ensures TarNumber(field) == Value(d)
  {
    if |field| > |d| && field[|d|] == 32 {
      assert field == d + [32];
      DigitsThenBlank(d, field);
    } else {
      DigitsThenNul(d, field);
    }
    NumberOfText(field, d);
  }

  lemma DigitsThenNul(d: seq<Byte>, field: seq<Byte>)
    requires Digits(d) && d != [] && d <= field && (|field| > |d| ==> field[|d|] == 0)
    ensures TrimEnd(TrimStart(BeforeNul(field), IsBlank), IsBlank) == d
  {
    BeforeNulIs(d, field);
    TrimmedDigits(d);
  }

  lemma TrimmedDigits(d: seq<Byte>)
    requires Digits(d) && d != []
    ensures TrimStart(d, IsBlank) == d && TrimEnd(d, IsBlank) == d
  {
    assert !IsBlank(d[0]) && !IsBlank(d[|d| - 1]);
  }
}
