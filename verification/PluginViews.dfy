// The flat map as what it stands for: one map for each plugin.

module PluginViews {
  import opened Common
  import opened PluginTexts
  import opened PluginStores
  import opened PluginQuotas

  type Kept = map<Text, Text>

  // What one plugin keeps.
  ghost function View(s: Store, id: Text): Kept {
    map key | key in KeysOf(s.order, id, []) && At(id, key) in s.data :: s.data[At(id, key)]
  }

  lemma ViewIsGet(s: Store, id: Text, key: Text)
    requires Valid(s)
    ensures (key in View(s, id)) == Get(s, id, key).Some?
    ensures key in View(s, id) ==> Get(s, id, key) == Some(View(s, id)[key])
  {
    KeysHas(s.order, id, [], key);
  }

  // ---- the bound, on a plugin's own map ----

  ghost function Total(m: Kept): nat
    decreases |m|
  {
    if m == map[] then 0
    else
      var key :| key in m;
      assert |m - {key}| < |m| by { Shorter(m, key); }
      Utf8Bytes(m[key]) + Total(m - {key})
  }

  lemma Shorter(m: Kept, key: Text)
    requires key in m
    ensures |m - {key}| == |m| - 1
  {
    assert (m - {key}).Keys == m.Keys - {key} && |m.Keys| == |m|;
  }

  // Whichever key is taken out first.
  lemma {:induction false} TotalWithout(m: Kept, key: Text)
    requires key in m
    ensures Total(m) == Utf8Bytes(m[key]) + Total(m - {key})
    decreases |m|
  {
    var k :| k in m && Total(m) == Utf8Bytes(m[k]) + Total(m - {k});
    if k != key {
      Shorter(m, k);
      Shorter(m, key);
      TotalWithout(m - {k}, key);
      TotalWithout(m - {key}, k);
      assert m - {k} - {key} == m - {key} - {k};
    }
  }

  ghost predicate Listing(keys: seq<Text>, data: map<Text, Text>, id: Text, m: Kept) {
    && Distinct(keys) && (forall k :: k in keys <==> k in m)
    && forall k :: k in m ==> At(id, k) in data && m[k] == data[At(id, k)]
  }

  // The fold over the listed keys adds up the map.
  lemma {:induction false} TheFoldIsTheTotal(keys: seq<Text>, data: map<Text, Text>, id: Text, m: Kept)
    requires Listing(keys, data, id, m)
    ensures BytesOf(keys, data, id) == Total(m) && |keys| == |m|
    decreases |keys|
  {
    if keys == [] {
      assert m == map[];
    } else {
      var key := keys[0];
      assert key in keys;
      Shorter(m, key);
      TotalWithout(m, key);
      assert key !in keys[1..] && forall k :: k in keys <==> k == key || k in keys[1..];
      TheFoldIsTheTotal(keys[1..], data, id, m - {key});
    }
  }

  predicate IsKey(key: Text) {
    1 <= |key| <= 200 && forall i :: 0 <= i < |key| ==> 0x20 <= key[i] && key[i] != 0x7F
  }

  // What a set leaves is a legal key with a value of at most 64 KiB, in a map of at most 1 MiB and, if
  // the key is new, of at most 1000 keys.
  ghost predicate Fits(m: Kept, key: Text, value: Text) {
    && IsKey(key) && Utf8Bytes(value) <= 65_536
    && Total(m[key := value]) <= 1_048_576 && (key in m || |m[key := value]| <= 1000)
  }

  // A plugin's own operation on its own map, and nothing of any other.
  ghost function Applied(m: Kept, op: Op): Kept {
    match op
    case SetOp(_, key, value) =>
      if Fits(m, key, value) then m[key := value] else m
    case DeleteOp(_, key) => m - {key}
    case DropOp(_) => map[]
  }

  lemma RefusedByTheView(s: Store, id: Text, key: Text, value: Text)
    requires Valid(s)
    ensures var m := View(s, id);
            Refused(s, id, key, value)
            == CheckPluginWrite(key, value, |m|, Total(m), if key in m then Some(Utf8Bytes(m[key])) else None)
  {
    var keys, m := KeysOf(s.order, id, []), View(s, id);
    KeysAreDistinct(s.order, id, []);
    forall k: Text ensures k in keys <==> At(id, k) in s.data { KeysHas(s.order, id, [], k); }
    assert Listing(keys, s.data, id, m);
    TheFoldIsTheTotal(keys, s.data, id, m);
    ViewIsGet(s, id, key);
  }

  lemma TotalAfter(m: Kept, key: Text, value: Text)
    ensures Total(m[key := value]) + (if key in m then Utf8Bytes(m[key]) else 0) == Total(m) + Utf8Bytes(value)
    ensures |m[key := value]| == |m| + if key in m then 0 else 1
  {
    var next := m[key := value];
    TotalWithout(next, key);
    Shorter(next, key);
    Elsewhere(m, key, value);
    if key in m {
      TotalWithout(m, key);
      Shorter(m, key);
    }
  }

  lemma Elsewhere(m: Kept, key: Text, value: Text)
    ensures m[key := value] - {key} == m - {key}
    ensures key !in m ==> m - {key} == m
  {}

  // A set is accepted exactly when what it leaves fits: the value it replaces is not counted, and a key
  // that is there already is not a new one. Otherwise the key is at fault first, then the value, then
  // what is kept.
  lemma ASetIsAcceptedExactly(s: Store, id: Text, key: Text, value: Text)
    requires Valid(s)
    ensures var m := View(s, id);
            match Refused(s, id, key, value)
            case None => Fits(m, key, value)
            case Some(BadKey) => !IsKey(key)
            case Some(ValueTooLarge) => IsKey(key) && Utf8Bytes(value) > 65_536
            case Some(StoreFull) => IsKey(key) && Utf8Bytes(value) <= 65_536 && !Fits(m, key, value)
  {
    RefusedByTheView(s, id, key, value);
    CheckedExactly(View(s, id), key, value);
  }

  lemma LegalIsKey(key: Text)
    ensures LegalKey(key) <==> IsKey(key)
  {}

  lemma CheckedExactly(m: Kept, key: Text, value: Text)
    ensures match CheckPluginWrite(key, value, |m|, Total(m), if key in m then Some(Utf8Bytes(m[key])) else None)
            case None => Fits(m, key, value)
            case Some(BadKey) => !IsKey(key)
            case Some(ValueTooLarge) => IsKey(key) && Utf8Bytes(value) > 65_536
            case Some(StoreFull) => IsKey(key) && Utf8Bytes(value) <= 65_536 && !Fits(m, key, value)
  {
    LegalIsKey(key);
    TotalAfter(m, key, value);
  }

  // Within the quota that is: a legal key, a value of at most 64 KiB, at most 1 MiB and at most 1000
  // keys afterwards.
  lemma WithinItsQuotaASetIsAcceptedExactly(s: Store, id: Text, key: Text, value: Text)
    requires Valid(s) && WithinQuota(s, id)
    ensures var next := View(s, id)[key := value];
            Refused(s, id, key, value) == None
            <==> IsKey(key) && Utf8Bytes(value) <= 65_536 && Total(next) <= 1_048_576 && |next| <= 1000
  {
    var keys, m := KeysOf(s.order, id, []), View(s, id);
    ASetIsAcceptedExactly(s, id, key, value);
    TotalAfter(m, key, value);
    KeysAreDistinct(s.order, id, []);
    forall k: Text ensures k in keys <==> At(id, k) in s.data { KeysHas(s.order, id, [], k); }
    assert Listing(keys, s.data, id, m);
    TheFoldIsTheTotal(keys, s.data, id, m);
  }

  // Two maps that answer every key alike.
  lemma SameView(s: Store, id: Text, m: Kept)
    requires Valid(s)
    requires forall key :: Get(s, id, key) == if key in m then Some(m[key]) else None
    ensures View(s, id) == m
  {
    forall key: Text ensures (key in View(s, id)) == (key in m) && (key in m ==> View(s, id)[key] == m[key]) {
      ViewIsGet(s, id, key);
      assert Get(s, id, key) == if key in m then Some(m[key]) else None;
    }
  }

  lemma OwnAnswer(s: Store, op: Op, key: Text)
    requires Valid(s)
    ensures var m := Applied(View(s, op.id), op);
            Get(Done(s, op), op.id, key) == if key in m then Some(m[key]) else None
  {
    var id := op.id;
    ViewIsGet(s, id, key);
    match op
    case SetOp(_, k, value) =>
      ASetIsAcceptedExactly(s, id, k, value);
      AtIsInjective(id, k, key);
    case DeleteOp(_, k) => AtIsInjective(id, k, key);
    case DropOp(_) => assert Under(id, At(id, key));
  }

  // Seen by any plugin, one operation on the flat map is that operation on the plugin's own map if it
  // is its own, and nothing at all if it is another's.
  lemma TheFlatMapIsAMapForEach(s: Store, op: Op, id: Text)
    requires Valid(s) && NulFree(op.id) && NulFree(id)
    ensures View(Done(s, op), id) == if op.id == id then Applied(View(s, id), op) else View(s, id)
  {
    OpsKeepTheMap(s, op);
    var m := if op.id == id then Applied(View(s, id), op) else View(s, id);
    forall key: Text ensures Get(Done(s, op), id, key) == if key in m then Some(m[key]) else None {
      if op.id == id {
        OwnAnswer(s, op, key);
      } else {
        PluginsAreIsolated(s, op, id, [], key);
        ViewIsGet(s, id, key);
      }
    }
    SameView(Done(s, op), id, m);
  }

  function Own(ops: seq<Op>, id: Text): seq<Op> {
    if ops == [] then [] else (if ops[0].id == id then [ops[0]] else []) + Own(ops[1..], id)
  }

  ghost function AllApplied(m: Kept, ops: seq<Op>): Kept
    decreases |ops|
  {
    if ops == [] then m else AllApplied(Applied(m, ops[0]), ops[1..])
  }

  // Over every sequence of operations of all plugins, what a plugin sees is what its own operations
  // alone would have left in a map of its own.
  lemma {:induction false} OnlyItsOwnOperationsCount(s: Store, ops: seq<Op>, id: Text)
    requires Valid(s) && NulFree(id) && forall i :: 0 <= i < |ops| ==> NulFree(ops[i].id)
    ensures View(AllDone(s, ops), id) == AllApplied(View(s, id), Own(ops, id))
    decreases |ops|
  {
    if ops != [] {
      OpsKeepTheMap(s, ops[0]);
      TheFlatMapIsAMapForEach(s, ops[0], id);
      OnlyItsOwnOperationsCount(Done(s, ops[0]), ops[1..], id);
      var rest := Own(ops[1..], id);
      assert ([ops[0]] + rest)[1..] == rest && [] + rest == rest;
    }
  }
}
