// The table beside the memory store: its keys are code points, and so are its order and its ranges.

module PluginTables {
  import opened Common
  import opened PluginTexts
  import opened PluginStores
  import opened PluginPages

  // ---- what the column holds ----

  predicate IsSurrogate(u: int) { 0xD800 <= u < 0xE000 }

  // Unicode scalar values: what UTF-8 can hold.
  type Point = n: int | 0 <= n < 0x11_0000 && !(0xD800 <= n < 0xE000)

  // The code points of a text as its iterator gives them, a surrogate without its partner by itself.
  type Code = n: int | 0 <= n < 0x11_0000

  function Paired(high: Unit, low: Unit): (p: Point)
    requires IsHigh(high) && IsLow(low)
    ensures p >= 0x1_0000
  {
    0x1_0000 + (high - 0xD800) * 0x400 + (low - 0xDC00)
  }

  function Codes(t: Text): seq<Code>
    decreases |t|
  {
    if t == [] then []
    else if IsHigh(t[0]) && |t| > 1 && IsLow(t[1]) then [Paired(t[0], t[1])] + Codes(t[2..])
    else [t[0]] + Codes(t[1..])
  }

  // Binding a text turns such a surrogate into U+FFFD.
  function Bound(c: Code): Point { if IsSurrogate(c) then 0xFFFD else c }

  function BoundAll(codes: seq<Code>): seq<Point> {
    if codes == [] then [] else [Bound(codes[0])] + BoundAll(codes[1..])
  }

  function Points(t: Text): seq<Point> { BoundAll(Codes(t)) }

  predicate WellFormed(t: Text)
    decreases |t|
  {
    if t == [] then true
    else if IsHigh(t[0]) && |t| > 1 && IsLow(t[1]) then WellFormed(t[2..])
    else !IsSurrogate(t[0]) && WellFormed(t[1..])
  }

  // A column's text as it comes back.
  function Units(points: seq<Point>): Text {
    if points == [] then [] else UnitsOf(points[0]) + Units(points[1..])
  }

  function UnitsOf(p: Point): Text {
    if p < 0x1_0000 then
      var u: Unit := p;
      [u]
    else
      var high: Unit := 0xD800 + (p - 0x1_0000) / 0x400;
      var low: Unit := 0xDC00 + (p - 0x1_0000) % 0x400;
      [high, low]
  }

  lemma PointsStep(t: Text)
    requires t != []
    ensures Points(t) == if IsHigh(t[0]) && |t| > 1 && IsLow(t[1]) then [Paired(t[0], t[1])] + Points(t[2..])
                         else [Bound(t[0])] + Points(t[1..])
  {}

  lemma UnitsStep(p: Point, rest: seq<Point>)
    ensures Units([p] + rest) == UnitsOf(p) + Units(rest)
  {
    assert ([p] + rest)[1..] == rest;
  }

  // A key comes back as itself exactly when each of its surrogates has its partner.
  lemma {:induction false} AKeyComesBackExactly(t: Text)
    ensures Units(Points(t)) == t <==> WellFormed(t)
    decreases |t|
  {
    if t != [] {
      PointsStep(t);
      if IsHigh(t[0]) && |t| > 1 && IsLow(t[1]) {
        AKeyComesBackExactly(t[2..]);
        HeadComesBack(t, 2, Paired(t[0], t[1]));
      } else {
        AKeyComesBackExactly(t[1..]);
        HeadComesBack(t, 1, Bound(t[0]));
      }
    }
  }

  lemma HeadComesBack(t: Text, n: nat, p: Point)
    requires 0 < n <= |t| && |UnitsOf(p)| == n
    ensures Units([p] + Points(t[n..])) == t <==> UnitsOf(p) == t[..n] && Units(Points(t[n..])) == t[n..]
  {
    var head, rest := UnitsOf(p), Units(Points(t[n..]));
    UnitsStep(p, Points(t[n..]));
    assert t == t[..n] + t[n..];
    assert (head + rest)[..n] == head && (head + rest)[n..] == rest;
  }

  // ---- two orders ----

  // The order of the column: by code point.
  predicate PointsBefore(a: seq<Point>, b: seq<Point>)
    decreases |a|
  {
    b != [] && (a == [] || a[0] < b[0] || (a[0] == b[0] && PointsBefore(a[1..], b[1..])))
  }

  predicate KeyBefore(a: Text, b: Text) { PointsBefore(Points(a), Points(b)) }

  // Where two texts first differ, one has half of a pair and the other a unit past all halves.
  predicate Crossed(a: Text, b: Text)
    decreases |a|
  {
    a != [] && b != []
    && if a[0] == b[0] then Crossed(a[1..], b[1..])
       else (IsSurrogate(a[0]) && b[0] >= 0xE000) || (IsSurrogate(b[0]) && a[0] >= 0xE000)
  }

  lemma ConsBefore(p: Point, a: seq<Point>, q: Point, b: seq<Point>)
    ensures PointsBefore([p] + a, [q] + b) <==> p < q || (p == q && PointsBefore(a, b))
  {
    assert ([p] + a)[1..] == a && ([q] + b)[1..] == b;
  }

  lemma HighestFirst(a: Text, b: Text)
    requires a != [] && b != [] && a[0] != b[0] && WellFormed(a) && WellFormed(b)
    ensures KeyBefore(a, b) <==> (IsHigh(a[0]) && IsHigh(b[0]) && a[0] < b[0])
                                 || (!IsHigh(a[0]) && (IsHigh(b[0]) || a[0] < b[0]))
  {
    PointsStep(a);
    PointsStep(b);
    ConsBefore(Points(a)[0], Points(a)[1..], Points(b)[0], Points(b)[1..]);
    assert Points(a) == [Points(a)[0]] + Points(a)[1..] && Points(b) == [Points(b)[0]] + Points(b)[1..];
  }

  // For any two texts the column can hold, the order of strings and the order of the column agree
  // exactly when the two are not crossed.
  lemma {:induction false} OrdersAgreeExactly(a: Text, b: Text)
    requires WellFormed(a) && WellFormed(b)
    ensures (Before(a, b) <==> KeyBefore(a, b)) <==> !Crossed(a, b)
    decreases |a|
  {
    if a != [] && b != [] {
      if a[0] != b[0] {
        HighestFirst(a, b);
      } else if IsHigh(a[0]) {
        PairsAgree(a, b);
        if a[1] == b[1] { OrdersAgreeExactly(a[2..], b[2..]); }
      } else {
        PointsStep(a);
        PointsStep(b);
        ConsBefore(a[0], Points(a[1..]), b[0], Points(b[1..]));
        OrdersAgreeExactly(a[1..], b[1..]);
      }
    }
  }

  lemma PairsAgree(a: Text, b: Text)
    requires WellFormed(a) && WellFormed(b) && a != [] && b != [] && a[0] == b[0] && IsHigh(a[0])
    ensures |a| > 1 && |b| > 1 && IsLow(a[1]) && IsLow(b[1])
    ensures KeyBefore(a, b) <==> a[1] < b[1] || (a[1] == b[1] && KeyBefore(a[2..], b[2..]))
    ensures Before(a, b) <==> a[1] < b[1] || (a[1] == b[1] && Before(a[2..], b[2..]))
    ensures Crossed(a, b) <==> a[1] == b[1] && Crossed(a[2..], b[2..])
  {
    PointsStep(a);
    PointsStep(b);
    ConsBefore(Paired(a[0], a[1]), Points(a[2..]), Paired(b[0], b[1]), Points(b[2..]));
    assert a[1..][1..] == a[2..] && b[1..][1..] == b[2..];
  }

  lemma {:induction false} CrossedIsSymmetric(a: Text, b: Text)
    ensures Crossed(a, b) == Crossed(b, a)
    decreases |a|
  {
    if a != [] && b != [] && a[0] == b[0] { CrossedIsSymmetric(a[1..], b[1..]); }
  }

  lemma {:induction false} NotCrossedWithItself(a: Text)
    ensures !Crossed(a, a)
  {
    if a != [] { NotCrossedWithItself(a[1..]); }
  }

  // ---- the range a prefix names ----

  const TOP: Point := 0x10_FFFF

  // One code point on, in the values that survive the trip to the column.
  function Successor(at: Code): Point
    requires at < TOP
  {
    if IsSurrogate(at) then 0xFFFE else if at == 0xD7FF then 0xE000 else at + 1
  }

  // The bound after one code point, if there is one past it.
  function After(code: Code): Option<Point> { if code >= TOP then None else Some(Successor(code)) }

  // The bound that one code point more in front makes of `up`.
  function Raised(q: Point, next: Option<Point>, up: Option<seq<Point>>): Option<seq<Point>> {
    if up.Some? then Some([q] + up.value) else if next.Some? then Some([next.value]) else None
  }

  // The bound above a prefix: as far as some code point of it can be raised.
  function UpTo(codes: seq<Code>): Option<seq<Point>> {
    if codes == [] then None else Raised(Bound(codes[0]), After(codes[0]), UpTo(codes[1..]))
  }

  lemma {:induction false} TheTopIsDropped(codes: seq<Code>, last: Code)
    ensures last >= TOP ==> UpTo(codes + [last]) == UpTo(codes)
    ensures last < TOP ==> UpTo(codes + [last]) == Some(BoundAll(codes) + [Successor(last)])
  {
    if codes == [] {
      assert codes + [last] == [last] && [last][1..] == [];
      if last < TOP { assert BoundAll(codes) + [Successor(last)] == [Successor(last)]; }
    } else {
      assert (codes + [last])[1..] == codes[1..] + [last];
      TheTopIsDropped(codes[1..], last);
      if last < TOP { Associate(Bound(codes[0]), BoundAll(codes[1..]), Successor(last)); }
    }
  }

  lemma Associate(p: Point, points: seq<Point>, q: Point)
    ensures [p] + points + [q] == [p] + (points + [q])
  {}

  // The loop from the last code point back: those at the top are dropped, the first other is raised.
  method RangeOf(prefix: Text) returns (from: seq<Point>, upto: Option<seq<Point>>)
    ensures from == Points(prefix) && upto == UpTo(Codes(prefix))
  {
    var codes := Codes(prefix);
    from, upto := BoundAll(codes), None;
    var i := |codes|;
    assert codes[..i] == codes;
    while i > 0
      invariant 0 <= i <= |codes| && UpTo(codes[..i]) == UpTo(codes)
    {
      i := i - 1;
      assert codes[..i + 1] == codes[..i] + [codes[i]];
      TheTopIsDropped(codes[..i], codes[i]);
      if codes[i] < TOP { return from, Some(BoundAll(codes[..i]) + [Successor(codes[i])]); }
    }
  }

  predicate Between(key: seq<Point>, from: seq<Point>, upto: Option<seq<Point>>) {
    !PointsBefore(key, from) && (upto.Some? ==> PointsBefore(key, upto.value))
  }

  predicate InRange(prefix: Text, key: Text) { Between(Points(key), Points(prefix), UpTo(Codes(prefix))) }

  // No code point lies between one and the next.
  lemma NothingBetween(code: Code, p: Point)
    ensures p <= Bound(code) <==> (After(code).Some? ==> p < After(code).value)
  {}

  lemma BetweenCons(p: Point, key: seq<Point>, q: Point, from: seq<Point>, up: Option<seq<Point>>, next: Option<Point>)
    requires Between(key, from, up) <==> from <= key
    requires p <= q <==> (next.Some? ==> p < next.value)
    ensures Between([p] + key, [q] + from, Raised(q, next, up)) <==> [q] + from <= [p] + key
  {
    ConsBefore(p, key, q, from);
    ConsPrefix(q, from, p, key);
    if up.Some? {
      ConsBefore(p, key, q, up.value);
    } else if next.Some? {
      assert [next.value] + [] == [next.value];
      ConsBefore(p, key, next.value, []);
    }
  }

  // Between the two bounds lie exactly the keys that start with the prefix.
  lemma {:induction false} BetweenIsUnder(codes: seq<Code>, key: seq<Point>)
    ensures Between(key, BoundAll(codes), UpTo(codes)) <==> BoundAll(codes) <= key
    decreases |codes|
  {
    if codes != [] && key != [] {
      BetweenIsUnder(codes[1..], key[1..]);
      NothingBetween(codes[0], key[0]);
      BetweenCons(key[0], key[1..], Bound(codes[0]), BoundAll(codes[1..]), UpTo(codes[1..]), After(codes[0]));
      assert key == [key[0]] + key[1..];
    }
  }

  lemma ConsPrefix(p: Point, a: seq<Point>, q: Point, b: seq<Point>)
    ensures [p] + a <= [q] + b <==> p == q && a <= b
  {
    var x, y := [p] + a, [q] + b;
    assert x[1..] == a && y[1..] == b;
    if x <= y {
      assert x == y[..|x|] && x[0] == y[0];
      assert b[..|a|] == y[..|x|][1..] == a;
    }
  }

  // So a range names what starts with its prefix, as the column holds both.
  lemma ARangeIsItsPrefix(prefix: Text, key: Text)
    ensures InRange(prefix, key) <==> Points(prefix) <= Points(key)
  {
    BetweenIsUnder(Codes(prefix), Points(key));
  }

  lemma {:induction false} PrefixesAgree(prefix: Text, key: Text)
    requires WellFormed(prefix) && WellFormed(key)
    ensures Points(prefix) <= Points(key) <==> prefix <= key
    decreases |prefix|
  {
    if prefix != [] && key != [] {
      var n := if IsHigh(prefix[0]) then 2 else 1;
      HeadOf(prefix);
      HeadOf(key);
      if IsHigh(prefix[0]) == IsHigh(key[0]) {
        PrefixesAgree(prefix[n..], key[n..]);
        SameHeads(prefix, key, n);
        ConsPrefix(Points(prefix)[0], Points(prefix[n..]), Points(key)[0], Points(key[n..]));
        TailsUnder(prefix, key, n);
      } else {
        assert Points(prefix)[0] != Points(key)[0] && prefix[0] != key[0];
      }
    }
  }

  // A well-formed text begins with one unit, or with a pair, and goes on well-formed.
  lemma HeadOf(t: Text)
    requires WellFormed(t) && t != []
    ensures var n := if IsHigh(t[0]) then 2 else 1;
            n <= |t| && WellFormed(t[n..]) && Points(t) != [] && Points(t) == [Points(t)[0]] + Points(t[n..])
            && (Points(t)[0] >= 0x1_0000 <==> IsHigh(t[0]))
  {
    PointsStep(t);
  }

  lemma SameHeads(a: Text, b: Text, n: nat)
    requires WellFormed(a) && WellFormed(b) && a != [] && b != [] && IsHigh(a[0]) == IsHigh(b[0])
    requires n == (if IsHigh(a[0]) then 2 else 1) && n <= |a| && n <= |b|
    ensures Points(a) != [] && Points(b) != [] && (Points(a)[0] == Points(b)[0] <==> a[..n] == b[..n])
  {
    PointsStep(a);
    PointsStep(b);
    if n == 1 {
      assert a[..1] == [a[0]] && b[..1] == [b[0]];
    } else {
      PairsAreDistinct(a[0], a[1], b[0], b[1]);
      assert a[..2] == [a[0], a[1]] && b[..2] == [b[0], b[1]];
    }
  }

  lemma PairsAreDistinct(high: Unit, low: Unit, high': Unit, low': Unit)
    requires IsHigh(high) && IsLow(low) && IsHigh(high') && IsLow(low')
    ensures Paired(high, low) == Paired(high', low') <==> high == high' && low == low'
  {}

  lemma TailsUnder(a: Text, b: Text, n: nat)
    requires n <= |a| && n <= |b|
    ensures a <= b <==> a[..n] == b[..n] && a[n..] <= b[n..]
  {
    if a <= b {
      assert a[..n] == b[..n] && b[n..][..|a| - n] == a[n..];
    }
    if a[..n] == b[..n] && a[n..] <= b[n..] {
      assert a == a[..n] + a[n..] && b == b[..n] + b[n..];
    }
  }

  // ---- what the two stores list ----

  // The column holds every key as it is.
  ghost predicate Storable(s: Store, id: Text) { forall key :: Get(s, id, key).Some? ==> WellFormed(key) }

  predicate MemoryShows(prefix: Text, after: Text, key: Text) { prefix <= key && Before(after, key) }

  predicate TableShows(prefix: Text, after: Text, key: Text) { InRange(prefix, key) && KeyBefore(after, key) }

  // The rows of the statement: those of the plugin in the range and past the cursor, by key.
  ghost predicate TableLists(rows: seq<Entry>, s: Store, id: Text, prefix: Text, after: Text) {
    && (forall i, j :: 0 <= i < j < |rows| ==> KeyBefore(rows[i].key, rows[j].key))
    && (forall i :: 0 <= i < |rows| ==>
          TableShows(prefix, after, rows[i].key) && Get(s, id, rows[i].key) == Some(rows[i].value))
    && (forall key :: TableShows(prefix, after, key) && Get(s, id, key).Some? ==>
          Entry(key, Get(s, id, key).value) in rows)
  }

  // Two lists in the order of strings with the same entries are the same.
  lemma {:induction false} OneListing(a: seq<Entry>, b: seq<Entry>)
    requires InOrder(a) && InOrder(b) && forall e :: e in a <==> e in b
    ensures a == b
    decreases |a|
  {
    assert (a != [] ==> a[0] in b) && (b != [] ==> b[0] in a);
    if a != [] && b != [] {
      SameFirst(a, b);
      forall e ensures e in a[1..] <==> e in b[1..] { WithoutFirst(a, e); WithoutFirst(b, e); }
      OneListing(a[1..], b[1..]);
      assert a == [a[0]] + a[1..] && b == [b[0]] + b[1..];
    }
  }

  lemma SameFirst(a: seq<Entry>, b: seq<Entry>)
    requires InOrder(a) && InOrder(b) && a != [] && b != [] && forall e :: e in a <==> e in b
    ensures a[0] == b[0]
  {
    assert a[0] in b && b[0] in a;
    var i :| 0 <= i < |b| && b[i] == a[0];
    var j :| 0 <= j < |a| && a[j] == b[0];
    if i > 0 && j > 0 {
      BeforeIsTransitive(a[0].key, b[0].key, a[0].key);
      NotBeforeItself(a[0].key);
    }
  }

  lemma WithoutFirst(a: seq<Entry>, e: Entry)
    requires InOrder(a) && a != []
    ensures e in a[1..] <==> e in a && e != a[0]
  {
    if e in a[1..] {
      var i :| 0 <= i < |a[1..]| && a[1..][i] == e;
      assert a[i + 1] == e;
      NotBeforeItself(e.key);
    }
  }

  predicate MemoryLists(s: Store, id: Text, prefix: Text, after: Text, key: Text) {
    MemoryShows(prefix, after, key) && Get(s, id, key).Some?
  }

  // The keys that both stores would come to: none crossed with the cursor, none with another.
  ghost predicate Uncrossed(s: Store, id: Text, prefix: Text, after: Text) {
    && (forall key :: prefix <= key && Get(s, id, key).Some? ==> !Crossed(after, key))
    && (forall k, key :: MemoryLists(s, id, prefix, after, k) && MemoryLists(s, id, prefix, after, key) ==>
          !Crossed(k, key))
  }

  lemma ShownAlike(prefix: Text, after: Text, key: Text)
    requires WellFormed(prefix) && WellFormed(after) && WellFormed(key)
    ensures TableShows(prefix, after, key) <==> prefix <= key && KeyBefore(after, key)
    ensures (TableShows(prefix, after, key) <==> MemoryShows(prefix, after, key))
            <==> !(prefix <= key && Crossed(after, key))
  {
    ARangeIsItsPrefix(prefix, key);
    PrefixesAgree(prefix, key);
    OrdersAgreeExactly(after, key);
  }

  lemma UncrossedListsAgree(s: Store, id: Text, prefix: Text, after: Text, rows: seq<Entry>)
    requires Valid(s) && Storable(s, id) && WellFormed(prefix) && WellFormed(after)
    requires TableLists(rows, s, id, prefix, after) && Uncrossed(s, id, prefix, after)
    ensures rows == Following(s, id, prefix, after)
  {
    var all := Following(s, id, prefix, after);
    FollowingLists(s, id, prefix, after);
    forall i | 0 <= i < |rows| ensures MemoryShows(prefix, after, rows[i].key) {
      ShownAlike(prefix, after, rows[i].key);
    }
    forall i, j | 0 <= i < j < |rows| ensures Before(rows[i].key, rows[j].key) {
      OrdersAgreeExactly(rows[i].key, rows[j].key);
    }
    forall e ensures e in rows <==> e in all {
      if e in all { ShownAlike(prefix, after, e.key); }
    }
    OneListing(rows, all);
  }

  lemma AgreeingListsAreUncrossed(s: Store, id: Text, prefix: Text, after: Text, rows: seq<Entry>)
    requires Valid(s) && Storable(s, id) && WellFormed(prefix) && WellFormed(after)
    requires TableLists(rows, s, id, prefix, after) && rows == Following(s, id, prefix, after)
    ensures Uncrossed(s, id, prefix, after)
  {
    FollowingLists(s, id, prefix, after);
    forall key | prefix <= key && Get(s, id, key).Some? ensures !Crossed(after, key) {
      ShownAlike(prefix, after, key);
      var e := Entry(key, Get(s, id, key).value);
      if MemoryShows(prefix, after, key) { assert e in rows; }
      if TableShows(prefix, after, key) { assert e in rows; }
    }
    forall k, key | MemoryLists(s, id, prefix, after, k) && MemoryLists(s, id, prefix, after, key)
      ensures !Crossed(k, key)
    {
      var i :| 0 <= i < |rows| && rows[i] == Entry(k, Get(s, id, k).value);
      var j :| 0 <= j < |rows| && rows[j] == Entry(key, Get(s, id, key).value);
      ListedTogether(rows, i, j);
    }
  }

  lemma ListedTogether(rows: seq<Entry>, i: nat, j: nat)
    requires i < |rows| && j < |rows| && InOrder(rows) && WellFormed(rows[i].key) && WellFormed(rows[j].key)
    requires forall i, j :: 0 <= i < j < |rows| ==> KeyBefore(rows[i].key, rows[j].key)
    ensures !Crossed(rows[i].key, rows[j].key)
  {
    CrossedIsSymmetric(rows[i].key, rows[j].key);
    OrdersAgreeExactly(rows[i].key, rows[j].key);
    OrdersAgreeExactly(rows[j].key, rows[i].key);
    NotCrossedWithItself(rows[i].key);
  }

  // The two stores come to the same entries in the same order exactly when no key there is crossed
  // with the cursor or with another.
  lemma TheListsAgreeExactly(s: Store, id: Text, prefix: Text, after: Text, rows: seq<Entry>)
    requires Valid(s) && Storable(s, id) && WellFormed(prefix) && WellFormed(after)
             && TableLists(rows, s, id, prefix, after)
    ensures rows == Following(s, id, prefix, after) <==> Uncrossed(s, id, prefix, after)
  {
    if Uncrossed(s, id, prefix, after) { UncrossedListsAgree(s, id, prefix, after, rows); }
    if rows == Following(s, id, prefix, after) { AgreeingListsAreUncrossed(s, id, prefix, after, rows); }
  }

  // ---- and what they put on a page ----

  lemma {:induction false} TableFittingIs(rows: seq<Entry>, maxBytes: nat, bytes: nat, n: nat)
    requires n <= |rows|
    ensures TableFitting(rows, maxBytes, bytes, true) == n
            <==> (n == 0 || bytes + TableCostOf(rows[..n]) <= maxBytes)
                 && (n < |rows| ==> bytes + TableCostOf(rows[..n + 1]) > maxBytes)
    decreases |rows|
  {
    if rows != [] {
      var spent := bytes + TableCost(rows[0]);
      assert rows[..1] == [rows[0]] && [rows[0]][1..] == [];
      if n > 0 {
        assert rows[..n][1..] == rows[1..][..n - 1];
        if n < |rows| { assert rows[..n + 1][1..] == rows[1..][..n]; }
        TableFittingIs(rows[1..], maxBytes, spent, n - 1);
      }
    }
  }

  // Where the memory store's page ends at `n`, the table's is the same exactly when it has the same
  // entries up to there, both have more or neither has, they fit with their scaffold unless there is
  // one, and the table's next does not.
  ghost predicate CutAlike(all: seq<Entry>, rows: seq<Entry>, maxBytes: nat) {
    var n := Fitting(all, maxBytes, 0, false);
    && n <= |rows| && rows[..n] == all[..n] && (n == |all| <==> n == |rows|)
    && (n <= 1 || CostOf(all[..n]) + n * 20 <= maxBytes)
    && (0 < n < |rows| ==> TableCostOf(rows[..n + 1]) > maxBytes)
  }

  lemma PagesAgreeExactly(all: seq<Entry>, rows: seq<Entry>, maxBytes: nat)
    ensures TablePage(rows, maxBytes)
            == Page(all[..Fitting(all, maxBytes, 0, false)], Fitting(all, maxBytes, 0, false) < |all|)
            <==> CutAlike(all, rows, maxBytes)
  {
    var n, m := Fitting(all, maxBytes, 0, false), TableFitting(rows, maxBytes, 0, false);
    assert |all[..n]| == n && |rows[..m]| == m;
    if rows != [] && 0 < n <= |rows| && rows[..n] == all[..n] {
      assert rows[..n][1..] == rows[1..][..n - 1];
      if n < |rows| { assert rows[..n + 1][1..] == rows[1..][..n]; }
      TableFittingIs(rows[1..], maxBytes, TableCost(rows[0]), n - 1);
      TableCostIsMore(rows[..n]);
    }
  }

  // So the table's page is the memory store's if and only if it is cut alike; and where no key is
  // crossed, if and only if what the memory store takes is one entry or fits with its scaffold.
  lemma ThePagesAgreeExactly(s: Store, id: Text, prefix: Text, after: Text, rows: seq<Entry>, maxBytes: nat)
    requires Valid(s) && Storable(s, id) && WellFormed(prefix) && WellFormed(after)
             && TableLists(rows, s, id, prefix, after)
    ensures var page := Entries(s, id, prefix, after, maxBytes);
            && (TablePage(rows, maxBytes) == page <==> CutAlike(Following(s, id, prefix, after), rows, maxBytes))
            && (Uncrossed(s, id, prefix, after) ==>
                  (TablePage(rows, maxBytes) == page
                   <==> |page.entries| <= 1 || CostOf(page.entries) + |page.entries| * 20 <= maxBytes))
  {
    PagesAgreeExactly(Following(s, id, prefix, after), rows, maxBytes);
    if Uncrossed(s, id, prefix, after) {
      TheListsAgreeExactly(s, id, prefix, after, rows);
      TheCutsAgreeExactly(rows, maxBytes);
    }
  }

  // ---- inputs on which they differ ----

  const SMILE: Text := [0xD83D, 0xDE00]
  const WIDE: Text := [0xFF21]
  const ONE: Text := [0x31]

  // Two keys of one plugin, the first of them with a value of its own.
  function Two(value: Text): Store {
    Put(Put(Store([], map[]), At([], SMILE), value), At([], WIDE), ONE)
  }

  lemma TwoHolds(value: Text)
    ensures Valid(Two(value)) && At([], SMILE) != At([], WIDE)
    ensures forall key :: Get(Two(value), [], key)
                          == if key == SMILE then Some(value) else if key == WIDE then Some(ONE) else None
  {
    assert At([], SMILE)[1] != At([], WIDE)[1];
    forall key: Text
      ensures (At([], key) == At([], SMILE) <==> key == SMILE) && (At([], key) == At([], WIDE) <==> key == WIDE)
    {
      assert At([], key)[1..] == key && At([], SMILE)[1..] == SMILE && At([], WIDE)[1..] == WIDE;
    }
  }

  lemma SmileIsCrossed()
    ensures WellFormed(SMILE) && WellFormed(WIDE) && Before(SMILE, WIDE) && KeyBefore(WIDE, SMILE)
            && KeyBefore([], SMILE) && KeyBefore([], WIDE)
    ensures Before([], SMILE) && Before([], WIDE)
  {
    assert SMILE[2..] == [] && WIDE[1..] == [];
    PointsStep(SMILE);
    PointsStep(WIDE);
    assert Points(SMILE)[0] == 0x1_F600 && Points(WIDE)[0] == 0xFF21;
  }

  lemma TwoInTheTable(value: Text)
    ensures var s, smile, wide := Two(value), Entry(SMILE, value), Entry(WIDE, ONE);
            Storable(s, []) && TableLists([wide, smile], s, [], [], [])
  {
    TwoHolds(value);
    SmileIsCrossed();
    ShownAlike([], [], SMILE);
    ShownAlike([], [], WIDE);
    var rows := [Entry(WIDE, ONE), Entry(SMILE, value)];
    assert rows[0] == Entry(WIDE, ONE) && rows[1] == Entry(SMILE, value);
  }

  lemma TwoInMemory(value: Text)
    ensures var s, smile, wide := Two(value), Entry(SMILE, value), Entry(WIDE, ONE);
            Following(s, [], [], []) == [smile, wide]
  {
    var s, smile, wide := Two(value), Entry(SMILE, value), Entry(WIDE, ONE);
    TwoHolds(value);
    SmileIsCrossed();
    FollowingLists(s, [], [], []);
    var all := [smile, wide];
    assert all[0] == smile && all[1] == wide;
    forall e ensures e in Following(s, [], [], []) <==> e in all {
      if e in all { assert Get(s, [], e.key) == Some(e.value); }
    }
    OneListing(Following(s, [], [], []), all);
  }

  lemma CostsOfTwo(value: Text)
    ensures Cost(Entry(SMILE, value)) == Utf8Bytes(value) + 6 && Cost(Entry(WIDE, ONE)) == 6
  {
    assert SMILE[2..] == [] && WIDE[1..] == [] && ONE[1..] == [];
  }

  // One entry fits each store's page, and it is not the same one.
  lemma ThePagesDiffer()
    ensures var s := Two(ONE);
            && Entries(s, [], [], [], 8) == Page([Entry(SMILE, ONE)], true)
            && TableLists([Entry(WIDE, ONE), Entry(SMILE, ONE)], s, [], [], [])
            && TablePage([Entry(WIDE, ONE), Entry(SMILE, ONE)], 8) == Page([Entry(WIDE, ONE)], true)
  {
    var smile, wide := Entry(SMILE, ONE), Entry(WIDE, ONE);
    TwoInTheTable(ONE);
    TwoInMemory(ONE);
    CostsOfTwo(ONE);
    assert ONE[1..] == [];
    OneOfTwo(smile, wide, 8);
    OneOfTwo(wide, smile, 8);
  }

  lemma OneOfTwo(a: Entry, b: Entry, maxBytes: nat)
    requires Cost(a) + Cost(b) > maxBytes
    ensures Fitting([a, b], maxBytes, 0, false) == TableFitting([a, b], maxBytes, 0, false) == 1 && [a, b][..1] == [a]
  {
    assert [a, b][1..] == [b];
  }

  // With a prefix that ends in half of a pair, the memory store finds a key that the table does not.
  lemma AHalfPrefixFindsNothing()
    ensures WellFormed(SMILE) && MemoryShows([0xD83D], [], SMILE) && !TableShows([0xD83D], [], SMILE)
  {
    SmileIsCrossed();
    PointsStep(SMILE);
    assert SMILE[..1] == [0xD83D];
    var half: Text := [0xD83D];
    assert half[1..] == [];
    PointsStep(half);
    assert Points(half)[0] == 0xFFFD && Points(SMILE)[0] == 0x1_F600;
    ARangeIsItsPrefix(half, SMILE);
  }
}
