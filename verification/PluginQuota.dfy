// Every plugin stays within its quota, whatever any of them does.

module PluginQuotas {
  import opened Common
  import opened PluginTexts
  import opened PluginStores

  lemma {:induction false} KeysHas(order: seq<Text>, id: Text, prefix: Text, key: Text)
    ensures key in KeysOf(order, id, prefix) <==> prefix <= key && At(id, key) in order
  {
    if order != [] {
      KeysHas(order[1..], id, prefix, key);
      if Under(id, order[0]) {
        UnderIsAt(id, order[0]);
        assert KeyIn(id, At(id, key)) == key;
      }
      assert At(id, key) in order <==> At(id, key) == order[0] || At(id, key) in order[1..];
    }
  }

  lemma {:induction false} KeysAreDistinct(order: seq<Text>, id: Text, prefix: Text)
    requires Distinct(order)
    ensures Distinct(KeysOf(order, id, prefix))
  {
    if order != [] {
      KeysAreDistinct(order[1..], id, prefix);
      if Under(id, order[0]) {
        UnderIsAt(id, order[0]);
        KeysHas(order[1..], id, prefix, KeyIn(id, order[0]));
        assert order[0] !in order[1..];
      }
    }
  }

  // What the quota adds up is exactly what the plugin keeps: each of its keys, once.
  lemma TheQuotaSeesEachKeyOnce(s: Store, id: Text, key: Text)
    requires Valid(s)
    ensures key in KeysOf(s.order, id, []) <==> Get(s, id, key).Some?
    ensures Distinct(KeysOf(s.order, id, []))
  {
    KeysHas(s.order, id, [], key);
    KeysAreDistinct(s.order, id, []);
  }

  ghost predicate AllLegal(keys: seq<Text>, data: map<Text, Text>, id: Text) {
    forall k :: k in keys ==> LegalKey(k) && SizeAt(data, At(id, k)) <= MAX_PLUGIN_VALUE_BYTES
  }

  ghost predicate WithinQuota(s: Store, id: Text) {
    var keys := KeysOf(s.order, id, []);
    |keys| <= MAX_PLUGIN_KEYS && BytesOf(keys, s.data, id) <= MAX_PLUGIN_DATA_BYTES && AllLegal(keys, s.data, id)
  }

  lemma {:induction false} SameBytes(keys: seq<Text>, d: map<Text, Text>, e: map<Text, Text>, id: Text)
    requires forall k :: k in keys ==> SizeAt(d, At(id, k)) == SizeAt(e, At(id, k))
    ensures BytesOf(keys, d, id) == BytesOf(keys, e, id)
  {
    if keys != [] {
      assert keys[0] in keys && forall k :: k in keys[1..] ==> k in keys;
      SameBytes(keys[1..], d, e, id);
    }
  }

  lemma {:induction false} BytesSnoc(keys: seq<Text>, key: Text, d: map<Text, Text>, id: Text)
    ensures BytesOf(keys + [key], d, id) == BytesOf(keys, d, id) + SizeAt(d, At(id, key))
  {
    if keys == [] {
      assert keys + [key] == [key] && [key][1..] == [];
    } else {
      assert (keys + [key])[1..] == keys[1..] + [key];
      BytesSnoc(keys[1..], key, d, id);
    }
  }

  // Rewriting one key's value changes the sum by that key alone.
  lemma {:induction false} BytesRewritten(keys: seq<Text>, d: map<Text, Text>, e: map<Text, Text>, id: Text, key: Text)
    requires Distinct(keys) && key in keys
    requires forall k :: k != key ==> SizeAt(d, At(id, k)) == SizeAt(e, At(id, k))
    ensures BytesOf(keys, e, id) + SizeAt(d, At(id, key)) == BytesOf(keys, d, id) + SizeAt(e, At(id, key))
  {
    assert Distinct(keys[1..]);
    if keys[0] == key {
      assert key !in keys[1..];
      SameBytes(keys[1..], d, e, id);
    } else {
      assert key in keys[1..];
      BytesRewritten(keys[1..], d, e, id, key);
    }
  }

  lemma {:induction false} BytesDropped(keys: seq<Text>, d: map<Text, Text>, e: map<Text, Text>, id: Text, key: Text)
    requires forall k :: k != key ==> SizeAt(d, At(id, k)) == SizeAt(e, At(id, k))
    ensures BytesOf(Without(keys, key), e, id) <= BytesOf(keys, d, id) && |Without(keys, key)| <= |keys|
  {
    if keys != [] {
      BytesDropped(keys[1..], d, e, id, key);
      var rest := Without(keys[1..], key);
      assert Without(keys, key) == if keys[0] == key then rest else [keys[0]] + rest;
      if keys[0] != key { assert ([keys[0]] + rest)[1..] == rest; }
    }
  }

  lemma {:induction false} KeysWithoutOwn(order: seq<Text>, id: Text, key: Text)
    ensures KeysOf(Without(order, At(id, key)), id, []) == Without(KeysOf(order, id, []), key)
  {
    if order != [] {
      KeysWithoutOwn(order[1..], id, key);
      var rest, keys := Without(order[1..], At(id, key)), KeysOf(order[1..], id, []);
      KeysCons(order[0], rest, id, []);
      assert Without(order, At(id, key)) == if order[0] == At(id, key) then rest else [order[0]] + rest;
      if Under(id, order[0]) {
        UnderIsAt(id, order[0]);
        assert ([KeyIn(id, order[0])] + keys)[1..] == keys;
        assert KeyIn(id, At(id, key)) == key;
      } else {
        assert Under(id, At(id, key));
        assert KeysOf(order, id, []) == keys;
      }
    }
  }

  lemma AtIsInjective(id: Text, k: Text, key: Text)
    ensures At(id, k) == At(id, key) <==> k == key
  {
    assert KeyIn(id, At(id, k)) == k && KeyIn(id, At(id, key)) == key;
  }

  lemma OthersSizes(d: map<Text, Text>, e: map<Text, Text>, id: Text, key: Text)
    requires forall held :: held != At(id, key) ==> SizeAt(d, held) == SizeAt(e, held)
    ensures forall k :: k != key ==> SizeAt(d, At(id, k)) == SizeAt(e, At(id, k))
  {
    forall k | k != key ensures SizeAt(d, At(id, k)) == SizeAt(e, At(id, k)) { AtIsInjective(id, k, key); }
  }

  lemma RewriteKeepsQuota(s: Store, id: Text, key: Text, value: Text)
    requires Valid(s) && WithinQuota(s, id) && Refused(s, id, key, value) == None && At(id, key) in s.data
    ensures WithinQuota(Put(s, At(id, key), value), id)
  {
    var keys, e := KeysOf(s.order, id, []), s.data[At(id, key) := value];
    TheQuotaSeesEachKeyOnce(s, id, key);
    OthersSizes(s.data, e, id, key);
    BytesRewritten(keys, s.data, e, id, key);
  }

  lemma NewKeyKeepsQuota(s: Store, id: Text, key: Text, value: Text)
    requires Valid(s) && WithinQuota(s, id) && Refused(s, id, key, value) == None && At(id, key) !in s.data
    ensures WithinQuota(Put(s, At(id, key), value), id)
  {
    var keys, e := KeysOf(s.order, id, []), s.data[At(id, key) := value];
    TheQuotaSeesEachKeyOnce(s, id, key);
    KeysSplit(s.order, [At(id, key)], id, []);
    KeysCons(At(id, key), [], id, []);
    assert KeyIn(id, At(id, key)) == key && [At(id, key)] + [] == [At(id, key)] && [key] + [] == [key];
    OthersSizes(s.data, e, id, key);
    BytesSnoc(keys, key, e, id);
    SameBytes(keys, s.data, e, id);
  }

  lemma DeleteKeepsQuota(s: Store, id: Text, key: Text)
    requires Valid(s) && WithinQuota(s, id)
    ensures WithinQuota(Delete(s, id, key), id)
  {
    var keys, e := KeysOf(s.order, id, []), s.data - {At(id, key)};
    KeysWithoutOwn(s.order, id, key);
    WithoutHolds(keys, key);
    OthersSizes(s.data, e, id, key);
    BytesDropped(keys, s.data, e, id, key);
  }

  lemma {:induction false} NothingLeftUnder(order: seq<Text>, id: Text)
    ensures KeysOf(WithoutPlugin(order, id), id, []) == []
  {
    if order != [] {
      NothingLeftUnder(order[1..], id);
      KeysCons(order[0], WithoutPlugin(order[1..], id), id, []);
      assert WithoutPlugin(order, id)
             == if Under(id, order[0]) then WithoutPlugin(order[1..], id)
                else [order[0]] + WithoutPlugin(order[1..], id);
    }
  }

  lemma ForeignOpKeepsQuota(s: Store, op: Op, id: Text)
    requires WithinQuota(s, id) && op.id != id && NulFree(op.id) && NulFree(id)
    ensures WithinQuota(Done(s, op), id)
  {
    var keys, t := KeysOf(s.order, id, []), Done(s, op);
    PluginsAreIsolated(s, op, id, [], []);
    forall k | k in keys ensures SizeAt(s.data, At(id, k)) == SizeAt(t.data, At(id, k)) {
      PluginsAreIsolated(s, op, id, [], k);
    }
    SameBytes(keys, s.data, t.data, id);
  }

  lemma OpKeepsQuota(s: Store, op: Op, id: Text)
    requires Valid(s) && WithinQuota(s, id) && NulFree(op.id) && NulFree(id)
    ensures WithinQuota(Done(s, op), id)
  {
    if op.id != id {
      ForeignOpKeepsQuota(s, op, id);
    } else {
      match op
      case SetOp(_, key, value) =>
        if Refused(s, id, key, value) == None {
          if At(id, key) in s.data {
            RewriteKeepsQuota(s, id, key, value);
          } else {
            NewKeyKeepsQuota(s, id, key, value);
          }
        }
      case DeleteOp(_, key) => DeleteKeepsQuota(s, id, key);
      case DropOp(_) => NothingLeftUnder(s.order, id);
    }
  }

  function AllDone(s: Store, ops: seq<Op>): Store
    decreases |ops|
  {
    if ops == [] then s else AllDone(Done(s, ops[0]), ops[1..])
  }

  // Whatever plugins write, rewrite, delete and drop, none ever keeps more than its quota.
  lemma {:induction false} EveryPluginStaysWithinItsQuota(s: Store, ops: seq<Op>, id: Text)
    requires Valid(s) && WithinQuota(s, id) && NulFree(id) && forall i :: 0 <= i < |ops| ==> NulFree(ops[i].id)
    ensures Valid(AllDone(s, ops)) && WithinQuota(AllDone(s, ops), id)
    decreases |ops|
  {
    if ops != [] {
      OpsKeepTheMap(s, ops[0]);
      OpKeepsQuota(s, ops[0], id);
      EveryPluginStaysWithinItsQuota(Done(s, ops[0]), ops[1..], id);
    }
  }
}
