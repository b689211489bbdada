// Texts as UTF-16 code units: their bytes, their order, and sorting them.

module PluginTexts {
  // UTF-16 code units.
  type Unit = n: int | 0 <= n < 0x1_0000
  type Text = seq<Unit>

  predicate IsHigh(u: Unit) { 0xD800 <= u < 0xDC00 }
  predicate IsLow(u: Unit) { 0xDC00 <= u < 0xE000 }

  // Bytes of a text in UTF-8; a surrogate without its partner is replaced by U+FFFD.
  function Utf8Bytes(t: Text): nat
    decreases |t|
  {
    if t == [] then 0
    else if t[0] < 0x80 then 1 + Utf8Bytes(t[1..])
    else if t[0] < 0x800 then 2 + Utf8Bytes(t[1..])
    else if IsHigh(t[0]) && |t| > 1 && IsLow(t[1]) then 4 + Utf8Bytes(t[2..])
    else 3 + Utf8Bytes(t[1..])
  }

  // Bytes of a text as a JSON string; a surrogate without its partner is escaped.
  function QuotedBytes(t: Text): nat { 2 + EscapedBytes(t) }

  function EscapedBytes(t: Text): nat
    decreases |t|
  {
    if t == [] then 0
    else if t[0] == 0x22 || t[0] == 0x5C || 0x08 <= t[0] <= 0x0A || 0x0C <= t[0] <= 0x0D then 2 + EscapedBytes(t[1..])
    else if t[0] < 0x20 then 6 + EscapedBytes(t[1..])
    else if t[0] < 0x80 then 1 + EscapedBytes(t[1..])
    else if t[0] < 0x800 then 2 + EscapedBytes(t[1..])
    else if IsHigh(t[0]) && |t| > 1 && IsLow(t[1]) then 4 + EscapedBytes(t[2..])
    else if IsHigh(t[0]) || IsLow(t[0]) then 6 + EscapedBytes(t[1..])
    else 3 + EscapedBytes(t[1..])
  }

  // The order of strings: by code unit.
  predicate Before(a: Text, b: Text)
    decreases |a|
  {
    b != [] && (a == [] || a[0] < b[0] || (a[0] == b[0] && Before(a[1..], b[1..])))
  }

  lemma {:induction false} BeforeIsTransitive(a: Text, b: Text, c: Text)
    requires Before(a, b) && Before(b, c)
    ensures Before(a, c)
    decreases |a|
  {
    if a != [] && a[0] == b[0] && b[0] == c[0] { BeforeIsTransitive(a[1..], b[1..], c[1..]); }
  }

  lemma {:induction false} NotBeforeItself(t: Text)
    ensures !Before(t, t)
  {
    if t != [] { NotBeforeItself(t[1..]); }
  }

  lemma {:induction false} BeforeIsTotal(a: Text, b: Text)
    ensures a == b || Before(a, b) || Before(b, a)
  {
    if a != [] && b != [] && a[0] == b[0] {
      BeforeIsTotal(a[1..], b[1..]);
      if a[1..] == b[1..] { assert a == [a[0]] + a[1..] && b == [b[0]] + b[1..]; }
    }
  }

  // ---- sorting ----

  function Inserted(keys: seq<Text>, key: Text): seq<Text> {
    if keys == [] || key == keys[0] || Before(key, keys[0]) then [key] + keys else [keys[0]] + Inserted(keys[1..], key)
  }

  function Sort(keys: seq<Text>): seq<Text> {
    if keys == [] then [] else Inserted(Sort(keys[1..]), keys[0])
  }

  // In order, and none twice.
  ghost predicate Ascending(keys: seq<Text>) {
    forall i, j :: 0 <= i < j < |keys| ==> Before(keys[i], keys[j])
  }

  ghost predicate Distinct(keys: seq<Text>) {
    forall i, j :: 0 <= i < j < |keys| ==> keys[i] != keys[j]
  }

  lemma {:induction false} InsertedHolds(keys: seq<Text>, key: Text)
    ensures forall k :: k in Inserted(keys, key) <==> k == key || k in keys
  {
    if keys == [] || key == keys[0] || Before(key, keys[0]) {
    } else {
      InsertedHolds(keys[1..], key);
    }
  }

  ghost predicate AllAfter(key: Text, keys: seq<Text>) {
    forall i :: 0 <= i < |keys| ==> Before(key, keys[i])
  }

  lemma AscendingCons(key: Text, keys: seq<Text>)
    requires Ascending(keys) && AllAfter(key, keys)
    ensures Ascending([key] + keys)
  {}

  lemma AllAfterFirst(key: Text, keys: seq<Text>)
    requires Ascending(keys) && keys != [] && Before(key, keys[0])
    ensures AllAfter(key, keys)
  {
    forall i | 0 <= i < |keys| ensures Before(key, keys[i]) {
      if i > 0 { BeforeIsTransitive(key, keys[0], keys[i]); }
    }
  }

  lemma AllAfterInserted(k: Text, keys: seq<Text>, key: Text)
    requires AllAfter(k, keys) && Before(k, key)
    ensures AllAfter(k, Inserted(keys, key))
  {
    InsertedHolds(keys, key);
    forall i | 0 <= i < |Inserted(keys, key)| ensures Before(k, Inserted(keys, key)[i]) {
      assert Inserted(keys, key)[i] in Inserted(keys, key);
    }
  }

  lemma {:induction false} InsertedAscends(keys: seq<Text>, key: Text)
    requires Ascending(keys) && key !in keys
    ensures Ascending(Inserted(keys, key))
  {
    if keys == [] {
    } else if Before(key, keys[0]) {
      AllAfterFirst(key, keys);
      AscendingCons(key, keys);
    } else {
      BeforeIsTotal(key, keys[0]);
      InsertedAscends(keys[1..], key);
      AllAfterInserted(keys[0], keys[1..], key);
      AscendingCons(keys[0], Inserted(keys[1..], key));
    }
  }

  lemma {:induction false} SortSorts(keys: seq<Text>)
    requires Distinct(keys)
    ensures Ascending(Sort(keys)) && forall k :: k in Sort(keys) <==> k in keys
  {
    if keys != [] {
      SortSorts(keys[1..]);
      InsertedHolds(Sort(keys[1..]), keys[0]);
      InsertedAscends(Sort(keys[1..]), keys[0]);
      assert forall k :: k in keys <==> k == keys[0] || k in keys[1..];
    }
  }

  // ---- counting the texts before one ----

  const UNITS: nat := 0x1_0001

  function Pow(n: nat): (p: nat)
    ensures p > 0
  {
    if n == 0 then 1 else UNITS * Pow(n - 1)
  }

  // Where a text of at most `n` units stands among all of them.
  function Rank(t: Text, n: nat): nat
    requires |t| <= n
  {
    if t == [] then 0 else (t[0] as int + 1) * Pow(n - 1) + Rank(t[1..], n - 1)
  }

  lemma Scale(a: nat, b: nat, p: nat)
    requires a <= b
    ensures a * p <= b * p && (a + 1) * p == a * p + p
  {}

  lemma {:induction false} RankIsBounded(t: Text, n: nat)
    requires |t| <= n
    ensures Rank(t, n) < Pow(n)
  {
    if t != [] {
      RankIsBounded(t[1..], n - 1);
      Scale(t[0] as int + 2, UNITS, Pow(n - 1));
      Scale(t[0] as int + 1, UNITS, Pow(n - 1));
    }
  }

  lemma {:induction false} RankFollowsOrder(a: Text, b: Text, n: nat)
    requires |a| <= n && |b| <= n && Before(a, b)
    ensures Rank(a, n) < Rank(b, n)
  {
    var p := Pow(n - 1);
    if a == [] {
      Scale(1, b[0] as int + 1, p);
    } else if a[0] < b[0] {
      RankIsBounded(a[1..], n - 1);
      Scale(a[0] as int + 2, b[0] as int + 1, p);
      Scale(a[0] as int + 1, b[0] as int + 1, p);
    } else {
      RankFollowsOrder(a[1..], b[1..], n - 1);
    }
  }
}
