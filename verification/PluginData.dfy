// What plugins keep: one flat map for all of them, read in pages under a byte budget.

module PluginStores {
  import opened Common
  import opened PluginTexts

  const MAX_PLUGIN_DATA_BYTES: nat := 1024 * 1024
  const MAX_PLUGIN_VALUE_BYTES: nat := 64 * 1024
  const MAX_PLUGIN_KEYS: nat := 1000
  const MAX_PLUGIN_KEY_CHARS: nat := 200

  datatype Refusal = BadKey | ValueTooLarge | StoreFull

  predicate HasControls(key: Text) { exists i :: 0 <= i < |key| && (key[i] < 0x20 || key[i] == 0x7F) }

  predicate LegalKey(key: Text) { 1 <= |key| <= MAX_PLUGIN_KEY_CHARS && !HasControls(key) }

  // The bound, given how much is kept and what the key being written holds now.
  function CheckPluginWrite(key: Text, value: Text, keys: nat, bytes: nat, existing: Option<nat>): Option<Refusal> {
    if !LegalKey(key) then Some(BadKey)
    else if Utf8Bytes(value) > MAX_PLUGIN_VALUE_BYTES then Some(ValueTooLarge)
    else if bytes - (if existing.Some? then existing.value else 0) + Utf8Bytes(value) > MAX_PLUGIN_DATA_BYTES
    then Some(StoreFull)
    else if existing == None && keys >= MAX_PLUGIN_KEYS then Some(StoreFull)
    else None
  }

  // ---- the flat map ----

  // A `Map` and its keys in the order they were first put there.
  datatype Store = Store(order: seq<Text>, data: map<Text, Text>)

  function Head(id: Text): Text { id + [0] }
  function At(id: Text, key: Text): Text { Head(id) + key }

  // `startsWith`.
  predicate Under(id: Text, held: Text) { Head(id) <= held }

  function KeyIn(id: Text, held: Text): Text
    requires Under(id, held)
  {
    held[|id| + 1..]
  }

  function KeysOf(order: seq<Text>, id: Text, prefix: Text): seq<Text> {
    if order == [] then []
    else (if Under(id, order[0]) && prefix <= KeyIn(id, order[0]) then [KeyIn(id, order[0])] else [])
         + KeysOf(order[1..], id, prefix)
  }

  function Get(s: Store, id: Text, key: Text): Option<Text> {
    if At(id, key) in s.data then Some(s.data[At(id, key)]) else None
  }

  function SizeAt(data: map<Text, Text>, held: Text): nat { if held in data then Utf8Bytes(data[held]) else 0 }

  function SizeOf(s: Store, id: Text, key: Text): Option<nat> {
    if At(id, key) in s.data then Some(Utf8Bytes(s.data[At(id, key)])) else None
  }

  // What the keys of a plugin hold together, as the fold adds it up.
  function BytesOf(keys: seq<Text>, data: map<Text, Text>, id: Text): nat {
    if keys == [] then 0 else SizeAt(data, At(id, keys[0])) + BytesOf(keys[1..], data, id)
  }

  function Without(order: seq<Text>, held: Text): seq<Text> {
    if order == [] then [] else (if order[0] == held then [] else [order[0]]) + Without(order[1..], held)
  }

  function WithoutPlugin(order: seq<Text>, id: Text): seq<Text> {
    if order == [] then [] else (if Under(id, order[0]) then [] else [order[0]]) + WithoutPlugin(order[1..], id)
  }

  function Put(s: Store, held: Text, value: Text): Store {
    Store(if held in s.data then s.order else s.order + [held], s.data[held := value])
  }

  function Refused(s: Store, id: Text, key: Text, value: Text): Option<Refusal> {
    var keys := KeysOf(s.order, id, []);
    CheckPluginWrite(key, value, |keys|, BytesOf(keys, s.data, id), SizeOf(s, id, key))
  }

  function Set(s: Store, id: Text, key: Text, value: Text): Store {
    if Refused(s, id, key, value).Some? then s else Put(s, At(id, key), value)
  }

  function Delete(s: Store, id: Text, key: Text): Store {
    Store(Without(s.order, At(id, key)), s.data - {At(id, key)})
  }

  function DropPlugin(s: Store, id: Text): Store {
    Store(WithoutPlugin(s.order, id), map held | held in s.data && !Under(id, held) :: s.data[held])
  }

  // ---- paging ----

  datatype Entry = Entry(key: Text, value: Text)
  datatype Page = Page(entries: seq<Entry>, more: bool)

  function Cost(e: Entry): nat { Utf8Bytes(e.value) + QuotedBytes(e.key) }

  // The entries for the keys after the cursor, in the order given.
  function Listed(s: Store, id: Text, keys: seq<Text>, after: Text): seq<Entry> {
    if keys == [] then []
    else (if Before(after, keys[0]) && At(id, keys[0]) in s.data then [Entry(keys[0], s.data[At(id, keys[0])])] else [])
         + Listed(s, id, keys[1..], after)
  }

  // How many of `entries` a page still takes, `bytes` being spent.
  function Fitting(entries: seq<Entry>, maxBytes: nat, bytes: nat, some: bool): (n: nat)
    ensures n <= |entries| && (entries != [] && !some ==> n > 0)
    decreases |entries|
  {
    if entries == [] then 0
    else
      var spent := bytes + Cost(entries[0]);
      if some && spent > maxBytes then 0 else 1 + Fitting(entries[1..], maxBytes, spent, true)
  }

  function Following(s: Store, id: Text, prefix: Text, after: Text): seq<Entry> {
    Listed(s, id, Sort(KeysOf(s.order, id, prefix)), after)
  }

  function Entries(s: Store, id: Text, prefix: Text, after: Text, maxBytes: nat): Page {
    var all := Following(s, id, prefix, after);
    var n := Fitting(all, maxBytes, 0, false);
    Page(all[..n], n < |all|)
  }

  // A page being filled: `out` is taken, `rest` is left, `bytes` are spent.
  ghost predicate Filling(all: seq<Entry>, out: seq<Entry>, rest: seq<Entry>, maxBytes: nat, bytes: nat) {
    out + rest == all && Fitting(all, maxBytes, 0, false) == |out| + Fitting(rest, maxBytes, bytes, out != [])
  }

  ghost predicate Filled(all: seq<Entry>, page: Page, maxBytes: nat) {
    var n := Fitting(all, maxBytes, 0, false);
    page == Page(all[..n], n < |all|)
  }

  // The next entry either ends the page or joins it.
  lemma TakeEntry(all: seq<Entry>, out: seq<Entry>, e: Entry, rest: seq<Entry>, maxBytes: nat, bytes: nat)
    requires Filling(all, out, [e] + rest, maxBytes, bytes)
    ensures if out != [] && bytes + Cost(e) > maxBytes then Filled(all, Page(out, true), maxBytes)
            else Filling(all, out + [e], rest, maxBytes, bytes + Cost(e))
  {
    assert ([e] + rest)[1..] == rest;
    assert all[..|out|] == out;
    assert (out + [e]) + rest == all;
  }

  lemma NothingLeft(all: seq<Entry>, out: seq<Entry>, maxBytes: nat, bytes: nat)
    requires Filling(all, out, [], maxBytes, bytes)
    ensures Filled(all, Page(out, false), maxBytes)
  {
    assert out + [] == out == all[..|out|];
  }

  lemma Listing(s: Store, id: Text, keys: seq<Text>, i: nat, after: Text, rest: seq<Entry>)
    requires i < |keys| && rest == Listed(s, id, keys[i..], after)
    ensures var left := Listed(s, id, keys[i + 1..], after);
            rest == if Before(after, keys[i]) && At(id, keys[i]) in s.data
                    then [Entry(keys[i], s.data[At(id, keys[i])])] + left else left
  {
    assert keys[i..][1..] == keys[i + 1..];
  }

  ghost predicate FillingFrom(s: Store, id: Text, keys: seq<Text>, i: nat, after: Text, all: seq<Entry>,
                              out: seq<Entry>, maxBytes: nat, bytes: nat)
    requires i <= |keys|
  {
    Filling(all, out, Listed(s, id, keys[i..], after), maxBytes, bytes)
  }

  lemma StartFilling(s: Store, id: Text, keys: seq<Text>, after: Text, maxBytes: nat)
    ensures FillingFrom(s, id, keys, 0, after, Listed(s, id, keys, after), [], maxBytes, 0)
  {
    assert keys[0..] == keys;
  }

  lemma Round(s: Store, id: Text, keys: seq<Text>, i: nat, after: Text, all: seq<Entry>, out: seq<Entry>,
              maxBytes: nat, bytes: nat)
    requires i < |keys| && FillingFrom(s, id, keys, i, after, all, out, maxBytes, bytes)
    ensures if Before(after, keys[i]) && At(id, keys[i]) in s.data then
              var e := Entry(keys[i], s.data[At(id, keys[i])]);
              if out != [] && bytes + Cost(e) > maxBytes then Filled(all, Page(out, true), maxBytes)
              else FillingFrom(s, id, keys, i + 1, after, all, out + [e], maxBytes, bytes + Cost(e))
            else FillingFrom(s, id, keys, i + 1, after, all, out, maxBytes, bytes)
  {
    var rest := Listed(s, id, keys[i + 1..], after);
    Listing(s, id, keys, i, after, Listed(s, id, keys[i..], after));
    if Before(after, keys[i]) && At(id, keys[i]) in s.data {
      TakeEntry(all, out, Entry(keys[i], s.data[At(id, keys[i])]), rest, maxBytes, bytes);
    }
  }

  lemma DoneFilling(s: Store, id: Text, keys: seq<Text>, after: Text, all: seq<Entry>, out: seq<Entry>,
                    maxBytes: nat, bytes: nat)
    requires FillingFrom(s, id, keys, |keys|, after, all, out, maxBytes, bytes)
    ensures Filled(all, Page(out, false), maxBytes)
  {
    assert keys[|keys|..] == [];
    NothingLeft(all, out, maxBytes, bytes);
  }

  class MemoryPluginData {
    var order: seq<Text>
    var data: map<Text, Text>

    function State(): Store
      reads this
    {
      Store(order, data)
    }

    constructor ()
      ensures State() == Store([], map[])
    {
      order, data := [], map[];
    }

    method SetValue(id: Text, key: Text, value: Text) returns (refused: Option<Refusal>)
      modifies this
      ensures refused == Refused(old(State()), id, key, value)
      ensures State() == Set(old(State()), id, key, value)
    {
      var held := KeysOf(order, id, []);
      var bytes := 0;
      var i := 0;
      while i < |held|
        invariant 0 <= i <= |held|
        invariant bytes + BytesOf(held[i..], data, id) == BytesOf(held, data, id)
      {
        assert held[i..][1..] == held[i + 1..];
        bytes := bytes + SizeAt(data, At(id, held[i]));
        i := i + 1;
      }
      refused := CheckPluginWrite(key, value, |held|, bytes, SizeOf(State(), id, key));
      if refused.Some? { return; }
      var at := At(id, key);
      if at !in data { order := order + [at]; }
      data := data[at := value];
    }

    method DeleteKey(id: Text, key: Text)
      modifies this
      ensures State() == Delete(old(State()), id, key)
    {
      order := Without(order, At(id, key));
      data := data - {At(id, key)};
    }

    method Drop(id: Text)
      modifies this
      ensures State() == DropPlugin(old(State()), id)
    {
      order := WithoutPlugin(order, id);
      data := map held | held in data && !Under(id, held) :: data[held];
    }

    method PageOf(id: Text, prefix: Text, after: Text, maxBytes: nat) returns (page: Page)
      ensures page == Entries(State(), id, prefix, after, maxBytes)
    {
      var keys := Sort(KeysOf(order, id, prefix));
      page := Fill(keys, id, after, maxBytes);
    }

    method Fill(keys: seq<Text>, id: Text, after: Text, maxBytes: nat) returns (page: Page)
      ensures Filled(Listed(State(), id, keys, after), page, maxBytes)
    {
      ghost var s, all := State(), Listed(State(), id, keys, after);
      var out: seq<Entry> := [];
      var bytes: nat := 0;
      var i := 0;
      StartFilling(s, id, keys, after, maxBytes);
      while i < |keys|
        invariant 0 <= i <= |keys|
        invariant FillingFrom(s, id, keys, i, after, all, out, maxBytes, bytes)
      {
        var key := keys[i];
        Round(s, id, keys, i, after, all, out, maxBytes, bytes);
        i := i + 1;
        if Before(after, key) && At(id, key) in data {
          var e := Entry(key, data[At(id, key)]);
          bytes := bytes + Cost(e);
          if |out| > 0 && bytes > maxBytes { return Page(out, true); }
          out := out + [e];
        }
      }
      DoneFilling(s, id, keys, after, all, out, maxBytes, bytes);
      return Page(out, false);
    }
  }

  // ---- the map and its order ----

  ghost predicate Valid(s: Store) {
    && Distinct(s.order)
    && (forall held :: held in s.order <==> held in s.data)
  }

  lemma {:induction false} WithoutHolds(order: seq<Text>, held: Text)
    ensures forall h :: h in Without(order, held) <==> h in order && h != held
    ensures Distinct(order) ==> Distinct(Without(order, held))
  {
    if order != [] {
      WithoutHolds(order[1..], held);
      assert forall h :: h in order <==> h == order[0] || h in order[1..];
      assert Distinct(order) ==> Distinct(order[1..]) && order[0] !in order[1..];
    }
  }

  lemma {:induction false} WithoutPluginHolds(order: seq<Text>, id: Text)
    ensures forall h :: h in WithoutPlugin(order, id) <==> h in order && !Under(id, h)
    ensures Distinct(order) ==> Distinct(WithoutPlugin(order, id))
  {
    if order != [] {
      WithoutPluginHolds(order[1..], id);
      assert forall h :: h in order <==> h == order[0] || h in order[1..];
      assert Distinct(order) ==> Distinct(order[1..]) && order[0] !in order[1..];
    }
  }

  datatype Op = SetOp(id: Text, key: Text, value: Text) | DeleteOp(id: Text, key: Text) | DropOp(id: Text)

  function Done(s: Store, op: Op): Store {
    match op
    case SetOp(id, key, value) => Set(s, id, key, value)
    case DeleteOp(id, key) => Delete(s, id, key)
    case DropOp(id) => DropPlugin(s, id)
  }

  lemma OpsKeepTheMap(s: Store, op: Op)
    requires Valid(s)
    ensures Valid(Done(s, op))
  {
    match op
    case SetOp(id, key, value) =>
    case DeleteOp(id, key) => WithoutHolds(s.order, At(id, key));
    case DropOp(id) => WithoutPluginHolds(s.order, id);
  }

  // ---- what one plugin can reach of another ----

  predicate NulFree(t: Text) { forall i :: 0 <= i < |t| ==> t[i] != 0 }

  // Everything a plugin can see or drop is under its own id, unless its id and the separator begin
  // another's: for two ids, that is exactly when a key of one can pass for a key of the other.
  lemma ReachesExactly(p: Text, q: Text)
    requires p != q
    ensures (exists key :: NulFree(key) && Under(p, At(q, key))) <==> Head(p) <= q
  {
    if Head(p) <= q {
      var key: Text := [];
      assert At(q, key) == q + [0];
      assert Under(p, At(q, key)) && NulFree(key);
    }
    forall key: Text | NulFree(key) && Under(p, At(q, key)) ensures Head(p) <= q {
      Meeting(p, q, key);
      if |p| < |q| { assert Head(p) == At(q, key)[..|p| + 1] == q[..|p| + 1]; }
    }
  }

  // Where a key held under one id lies under another too, the longer id or the key holds a NUL.
  lemma Meeting(p: Text, q: Text, key: Text)
    requires Under(p, At(q, key))
    ensures |p| < |q| ==> q[|p|] == 0
    ensures |q| < |p| ==> p[|q|] == 0 && key[|p| - |q| - 1] == 0
    ensures |p| == |q| ==> p == q
  {
    var held := At(q, key);
    assert Head(p) == held[..|p| + 1];
    if |p| < |q| {
      assert held[|p|] == q[|p|];
    } else if |q| < |p| {
      assert held[|q|] == p[|q|] && held[|p|] == key[|p| - |q| - 1];
    } else {
      assert p == held[..|p|] == q;
    }
  }

  lemma Apart(p: Text, q: Text, key: Text)
    requires p != q && NulFree(p) && NulFree(q)
    ensures !Under(p, At(q, key))
  {
    if Under(p, At(q, key)) { Meeting(p, q, key); }
  }

  lemma UnderIsAt(q: Text, held: Text)
    requires Under(q, held)
    ensures held == At(q, KeyIn(q, held))
  {}

  // Two NUL-free ids share nothing of the map.
  lemma NothingUnderBoth(p: Text, q: Text, held: Text)
    requires p != q && NulFree(p) && NulFree(q) && Under(q, held)
    ensures !Under(p, held)
  {
    UnderIsAt(q, held);
    Apart(p, q, KeyIn(q, held));
  }

  lemma {:induction false} KeysSplit(a: seq<Text>, b: seq<Text>, id: Text, prefix: Text)
    ensures KeysOf(a + b, id, prefix) == KeysOf(a, id, prefix) + KeysOf(b, id, prefix)
  {
    if a == [] {
      assert a + b == b;
    } else {
      assert (a + b)[1..] == a[1..] + b;
      KeysSplit(a[1..], b, id, prefix);
    }
  }

  lemma KeysCons(first: Text, rest: seq<Text>, id: Text, prefix: Text)
    ensures KeysOf([first] + rest, id, prefix)
            == (if Under(id, first) && prefix <= KeyIn(id, first) then [KeyIn(id, first)] else [])
               + KeysOf(rest, id, prefix)
  {
    assert ([first] + rest)[1..] == rest;
  }

  lemma {:induction false} KeysWithoutForeign(order: seq<Text>, held: Text, q: Text, prefix: Text)
    requires !Under(q, held)
    ensures KeysOf(Without(order, held), q, prefix) == KeysOf(order, q, prefix)
  {
    if order != [] {
      var rest := Without(order[1..], held);
      KeysWithoutForeign(order[1..], held, q, prefix);
      KeysCons(order[0], rest, q, prefix);
      assert Without(order, held) == if order[0] == held then rest else [order[0]] + rest;
    }
  }

  lemma {:induction false} KeysWithoutPlugin(order: seq<Text>, p: Text, q: Text, prefix: Text)
    requires p != q && NulFree(p) && NulFree(q)
    ensures KeysOf(WithoutPlugin(order, p), q, prefix) == KeysOf(order, q, prefix)
  {
    if order != [] {
      var rest := WithoutPlugin(order[1..], p);
      KeysWithoutPlugin(order[1..], p, q, prefix);
      KeysCons(order[0], rest, q, prefix);
      if Under(q, order[0]) { NothingUnderBoth(p, q, order[0]); }
      assert WithoutPlugin(order, p) == if Under(p, order[0]) then rest else [order[0]] + rest;
    }
  }

  // Whatever one plugin writes, deletes or drops, every other plugin reads the same values and lists
  // the same keys in the same order.
  lemma PluginsAreIsolated(s: Store, op: Op, q: Text, prefix: Text, key: Text)
    requires op.id != q && NulFree(op.id) && NulFree(q)
    ensures Get(Done(s, op), q, key) == Get(s, q, key)
    ensures KeysOf(Done(s, op).order, q, prefix) == KeysOf(s.order, q, prefix)
  {
    var p := op.id;
    Apart(p, q, key);
    match op
    case SetOp(_, k, value) =>
      Apart(q, p, k);
      KeysSplit(s.order, [At(p, k)], q, prefix);
      assert [At(p, k)][1..] == [];
    case DeleteOp(_, k) =>
      Apart(q, p, k);
      KeysWithoutForeign(s.order, At(p, k), q, prefix);
    case DropOp(_) => KeysWithoutPlugin(s.order, p, q, prefix);
  }

  // A plugin whose id and the separator begin another's drops the other's data with its own.
  lemma AForgedIdDropsAnother()
    ensures var p, q, key := [1], [1, 0, 2], [3];
            var s := Put(Store([], map[]), At(q, key), [4]);
            p != q && Get(s, q, key) == Some([4]) && Get(DropPlugin(s, p), q, key) == None
  {
    assert Head([1]) == [1, 0] && At([1, 0, 2], [3]) == [1, 0, 2, 0, 3];
  }
}
