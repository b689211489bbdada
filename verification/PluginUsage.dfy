// The running count of what each plugin keeps, against counting the table.

module PluginUsages {
  import opened Common
  import opened PluginTexts
  import opened PluginStores
  import opened PluginViews

  // A row of the table, by what its value costs.
  datatype Row = Row(plugin: Text, key: Text, bytes: nat)
  datatype Usage = Usage(keys: int, bytes: int)

  function Counted(rows: seq<Row>, plugin: Text): (u: Usage)
    ensures u.keys >= 0 && u.bytes >= 0
  {
    if rows == [] then Usage(0, 0)
    else
      var rest := Counted(rows[1..], plugin);
      if rows[0].plugin == plugin then Usage(rest.keys + 1, rest.bytes + rows[0].bytes) else rest
  }

  function Find(rows: seq<Row>, plugin: Text, key: Text): (i: nat)
    ensures i <= |rows|
    ensures i < |rows| ==> rows[i].plugin == plugin && rows[i].key == key
  {
    if rows == [] || (rows[0].plugin == plugin && rows[0].key == key) then 0 else 1 + Find(rows[1..], plugin, key)
  }

  function WithoutRows(rows: seq<Row>, plugin: Text): seq<Row> {
    if rows == [] then []
    else (if rows[0].plugin == plugin then [] else [rows[0]]) + WithoutRows(rows[1..], plugin)
  }

  // The table with one row written.
  function Upserted(rows: seq<Row>, plugin: Text, key: Text, value: Text): seq<Row> {
    var i, row := Find(rows, plugin, key), Row(plugin, key, Utf8Bytes(value));
    if i < |rows| then rows[i := row] else rows + [row]
  }

  // What a set leaves is a legal key with a value of at most 64 KiB, in a table that keeps at most 1 MiB
  // for the plugin and, if the key is new, at most 1000 rows.
  predicate TableFits(rows: seq<Row>, plugin: Text, key: Text, value: Text) {
    var left := Counted(Upserted(rows, plugin, key, value), plugin);
    && IsKey(key) && Utf8Bytes(value) <= 65_536
    && left.bytes <= 1_048_576 && (Find(rows, plugin, key) < |rows| || left.keys <= 1000)
  }

  function Bound(rows: seq<Row>, plugin: Text, key: Text, value: Text): Option<Refusal> {
    var i, held := Find(rows, plugin, key), Counted(rows, plugin);
    CheckPluginWrite(key, value, held.keys, held.bytes, if i < |rows| then Some(rows[i].bytes) else None)
  }

  // Which refusal it is otherwise, too.
  lemma AWriteIsAcceptedExactly(rows: seq<Row>, plugin: Text, key: Text, value: Text)
    ensures match Bound(rows, plugin, key, value)
            case None => TableFits(rows, plugin, key, value)
            case Some(BadKey) => !IsKey(key)
            case Some(ValueTooLarge) => IsKey(key) && Utf8Bytes(value) > 65_536
            case Some(StoreFull) => IsKey(key) && Utf8Bytes(value) <= 65_536 && !TableFits(rows, plugin, key, value)
  {
    var i, row := Find(rows, plugin, key), Row(plugin, key, Utf8Bytes(value));
    LegalIsKey(key);
    if i < |rows| { Rewriting(rows, i, row); } else { Appending(rows, row); }
  }

  // The table, and a running count for each plugin touched so far.
  class SqlitePluginDataStore {
    var rows: seq<Row>
    var usage: map<Text, Usage>

    // The running counts say what counting the table would.
    ghost predicate Agrees()
      reads this
    {
      forall p :: p in usage ==> usage[p] == Counted(rows, p)
    }

    constructor (rows: seq<Row>)
      ensures this.rows == rows && usage == map[] && Agrees()
    {
      this.rows, usage := rows, map[];
    }

    method UsageOf(plugin: Text) returns (held: Usage)
      requires Agrees()
      modifies this`usage
      ensures Agrees() && held == Counted(rows, plugin) && usage == old(usage)[plugin := held]
    {
      if plugin in usage {
        held := usage[plugin];
        assert usage == usage[plugin := held];
      } else {
        held := Counted(rows, plugin);
        usage := usage[plugin := held];
      }
    }

    // The bound is given the running count, and that is the bound on the table itself: a set is accepted
    // exactly when the table it leaves is within it.
    method SetValue(plugin: Text, key: Text, value: Text) returns (refused: Option<Refusal>)
      requires Agrees()
      modifies this
      ensures Agrees()
      ensures var (i, held) := (Find(old(rows), plugin, key), Counted(old(rows), plugin));
              && refused == CheckPluginWrite(key, value, held.keys, held.bytes,
                                             if i < |old(rows)| then Some(old(rows)[i].bytes) else None)
              && rows == (if refused.Some? then old(rows)
                          else if i < |old(rows)| then old(rows)[i := Row(plugin, key, Utf8Bytes(value))]
                          else old(rows) + [Row(plugin, key, Utf8Bytes(value))])
      ensures refused == None <==> TableFits(old(rows), plugin, key, value)
    {
      AWriteIsAcceptedExactly(rows, plugin, key, value);
      var held := UsageOf(plugin);
      var i := Find(rows, plugin, key);
      var existing := if i < |rows| then Some(rows[i].bytes) else None;
      refused := CheckPluginWrite(key, value, held.keys, held.bytes, existing);
      if refused.Some? { return; }
      var row := Row(plugin, key, Utf8Bytes(value));
      if i < |rows| {
        Rewriting(rows, i, row);
        rows := rows[i := row];
        usage := usage[plugin := Usage(held.keys, held.bytes + row.bytes - existing.value)];
      } else {
        Appending(rows, row);
        rows := rows + [row];
        usage := usage[plugin := Usage(held.keys + 1, held.bytes + row.bytes)];
      }
    }

    method DeleteKey(plugin: Text, key: Text)
      requires Agrees()
      modifies this
      ensures Agrees()
      ensures var i := Find(old(rows), plugin, key);
              rows == if i < |old(rows)| then old(rows)[..i] + old(rows)[i + 1..] else old(rows)
    {
      // Counted first: a count taken after the row has gone would be charged for it again.
      var held := UsageOf(plugin);
      var i := Find(rows, plugin, key);
      if i == |rows| { return; }
      var gone := rows[i];
      Removing(rows, i);
      rows := rows[..i] + rows[i + 1..];
      usage := usage[plugin := Usage(held.keys - 1, held.bytes - gone.bytes)];
    }

    method DropPlugin(plugin: Text)
      requires Agrees()
      modifies this
      ensures Agrees() && rows == WithoutRows(old(rows), plugin) && plugin !in usage
    {
      forall p | p != plugin ensures Counted(WithoutRows(rows, plugin), p) == Counted(rows, p) {
        DroppingOthers(rows, plugin, p);
      }
      rows := WithoutRows(rows, plugin);
      usage := usage - {plugin};
    }
  }

  lemma {:induction false} CountedSplits(a: seq<Row>, b: seq<Row>, p: Text)
    ensures var (x, y, z) := (Counted(a, p), Counted(b, p), Counted(a + b, p));
            z.keys == x.keys + y.keys && z.bytes == x.bytes + y.bytes
  {
    if a == [] {
      assert a + b == b;
    } else {
      assert (a + b)[1..] == a[1..] + b;
      CountedSplits(a[1..], b, p);
    }
  }

  lemma CountedOne(r: Row, p: Text)
    ensures Counted([r], p) == if r.plugin == p then Usage(1, r.bytes) else Usage(0, 0)
  {
    assert [r][1..] == [];
  }

  lemma Appending(rows: seq<Row>, r: Row)
    ensures forall p :: Counted(rows + [r], p)
              == if p == r.plugin then Usage(Counted(rows, p).keys + 1, Counted(rows, p).bytes + r.bytes)
                 else Counted(rows, p)
  {
    forall p ensures Counted(rows + [r], p)
              == if p == r.plugin then Usage(Counted(rows, p).keys + 1, Counted(rows, p).bytes + r.bytes)
                 else Counted(rows, p)
    {
      CountedSplits(rows, [r], p);
      CountedOne(r, p);
    }
  }

  lemma SplitAt(rows: seq<Row>, i: nat, r: Row, p: Text)
    requires i < |rows|
    ensures var (x, y, z) := (Counted(rows[..i], p), Counted([r], p), Counted(rows[i + 1..], p));
            Counted(rows[i := r], p) == Usage(x.keys + y.keys + z.keys, x.bytes + y.bytes + z.bytes)
  {
    assert rows[i := r] == rows[..i] + [r] + rows[i + 1..];
    CountedSplits(rows[..i] + [r], rows[i + 1..], p);
    CountedSplits(rows[..i], [r], p);
  }

  lemma Rewriting(rows: seq<Row>, i: nat, r: Row)
    requires i < |rows| && rows[i].plugin == r.plugin
    ensures forall p :: Counted(rows[i := r], p)
              == if p == r.plugin then Usage(Counted(rows, p).keys, Counted(rows, p).bytes + r.bytes - rows[i].bytes)
                 else Counted(rows, p)
  {
    forall p ensures Counted(rows[i := r], p)
              == if p == r.plugin then Usage(Counted(rows, p).keys, Counted(rows, p).bytes + r.bytes - rows[i].bytes)
                 else Counted(rows, p)
    {
      SplitAt(rows, i, r, p);
      SplitAt(rows, i, rows[i], p);
      assert rows[i := rows[i]] == rows;
      CountedOne(r, p);
      CountedOne(rows[i], p);
    }
  }

  lemma Removing(rows: seq<Row>, i: nat)
    requires i < |rows|
    ensures forall p :: Counted(rows[..i] + rows[i + 1..], p)
              == if p == rows[i].plugin then Usage(Counted(rows, p).keys - 1, Counted(rows, p).bytes - rows[i].bytes)
                 else Counted(rows, p)
  {
    forall p ensures Counted(rows[..i] + rows[i + 1..], p)
              == if p == rows[i].plugin then Usage(Counted(rows, p).keys - 1, Counted(rows, p).bytes - rows[i].bytes)
                 else Counted(rows, p)
    {
      CountedSplits(rows[..i], rows[i + 1..], p);
      SplitAt(rows, i, rows[i], p);
      assert rows[i := rows[i]] == rows;
      CountedOne(rows[i], p);
    }
  }

  lemma {:induction false} DroppingOthers(rows: seq<Row>, plugin: Text, p: Text)
    requires p != plugin
    ensures Counted(WithoutRows(rows, plugin), p) == Counted(rows, p)
  {
    if rows != [] {
      DroppingOthers(rows[1..], plugin, p);
      var rest := WithoutRows(rows[1..], plugin);
      if rows[0].plugin != plugin { assert ([rows[0]] + rest)[1..] == rest; }
      assert WithoutRows(rows, plugin) == if rows[0].plugin == plugin then rest else [rows[0]] + rest;
    }
  }

  // Counting only after the row has gone charges it twice: the count falls short of the table by
  // that row, and the quota lets as much more in.
  lemma CountingLateFallsShort(rows: seq<Row>, i: nat)
    requires i < |rows|
    ensures var (left, p) := (rows[..i] + rows[i + 1..], rows[i].plugin);
            var late := Usage(Counted(left, p).keys - 1, Counted(left, p).bytes - rows[i].bytes);
            late.keys == Counted(rows, p).keys - 2 && late.bytes == Counted(left, p).bytes - rows[i].bytes
            && late != Counted(left, p)
  {
    Removing(rows, i);
  }
}
