// Reading a plugin's keys page by page while the store changes.

module PluginPages {
  import opened Common
  import opened PluginTexts
  import opened PluginStores
  import opened PluginQuotas

  function CostOf(entries: seq<Entry>): nat {
    if entries == [] then 0 else Cost(entries[0]) + CostOf(entries[1..])
  }

  lemma {:induction false} FittingFits(entries: seq<Entry>, maxBytes: nat, bytes: nat, some: bool)
    requires some ==> bytes <= maxBytes
    ensures var n := Fitting(entries, maxBytes, bytes, some);
            (some || n > 1) ==> bytes + CostOf(entries[..n]) <= maxBytes
  {
    var n := Fitting(entries, maxBytes, bytes, some);
    if n > 0 {
      var spent := bytes + Cost(entries[0]);
      assert entries[..n][1..] == entries[1..][..n - 1];
      if spent <= maxBytes { FittingFits(entries[1..], maxBytes, spent, true); }
    }
  }

  // A page stays within its budget, or holds a single entry.
  lemma APageFitsItsBudget(s: Store, id: Text, prefix: Text, after: Text, maxBytes: nat)
    ensures var page := Entries(s, id, prefix, after, maxBytes);
            CostOf(page.entries) <= maxBytes || |page.entries| == 1
  {
    FittingFits(Following(s, id, prefix, after), maxBytes, 0, false);
  }

  // What a page is cut from: every key under the prefix past the cursor, in order, with its value.
  ghost predicate Lists(entries: seq<Entry>, s: Store, id: Text, prefix: Text, after: Text) {
    && (forall i, j :: 0 <= i < j < |entries| ==> Before(entries[i].key, entries[j].key))
    && (forall i :: 0 <= i < |entries| ==>
          Before(after, entries[i].key) && prefix <= entries[i].key
          && Get(s, id, entries[i].key) == Some(entries[i].value))
    && (forall key :: prefix <= key && Before(after, key) && Get(s, id, key).Some? ==>
          Entry(key, Get(s, id, key).value) in entries)
  }

  ghost predicate Drawn(entries: seq<Entry>, keys: seq<Text>, s: Store, id: Text, after: Text) {
    && (forall i :: 0 <= i < |entries| ==>
          entries[i].key in keys && Before(after, entries[i].key)
          && Get(s, id, entries[i].key) == Some(entries[i].value))
    && (forall key :: key in keys && Before(after, key) && Get(s, id, key).Some? ==>
          Entry(key, Get(s, id, key).value) in entries)
  }

  lemma DrawnCons(entries: seq<Entry>, keys: seq<Text>, s: Store, id: Text, after: Text, key: Text)
    requires Drawn(entries, keys, s, id, after)
    ensures var more := if Before(after, key) && At(id, key) in s.data then [Entry(key, s.data[At(id, key)])] else [];
            Drawn(more + entries, [key] + keys, s, id, after)
  {
    var more := if Before(after, key) && At(id, key) in s.data then [Entry(key, s.data[At(id, key)])] else [];
    forall k | k in [key] + keys && Before(after, k) && Get(s, id, k).Some?
      ensures Entry(k, Get(s, id, k).value) in more + entries
    {
      if k == key { assert more[0] == Entry(k, Get(s, id, k).value); } else { assert k in keys; }
    }
  }

  lemma {:induction false} ListedIsDrawn(s: Store, id: Text, keys: seq<Text>, after: Text)
    ensures Drawn(Listed(s, id, keys, after), keys, s, id, after)
  {
    if keys != [] {
      ListedIsDrawn(s, id, keys[1..], after);
      DrawnCons(Listed(s, id, keys[1..], after), keys[1..], s, id, after, keys[0]);
      assert [keys[0]] + keys[1..] == keys;
    }
  }

  ghost predicate InOrder(entries: seq<Entry>) {
    forall i, j :: 0 <= i < j < |entries| ==> Before(entries[i].key, entries[j].key)
  }

  lemma {:induction false} ListedInOrder(s: Store, id: Text, keys: seq<Text>, after: Text)
    requires Ascending(keys)
    ensures InOrder(Listed(s, id, keys, after))
  {
    if keys != [] {
      var rest := Listed(s, id, keys[1..], after);
      ListedInOrder(s, id, keys[1..], after);
      ListedIsDrawn(s, id, keys[1..], after);
      forall j | 0 <= j < |rest| ensures Before(keys[0], rest[j].key) { assert rest[j].key in keys[1..]; }
    }
  }

  lemma FollowingLists(s: Store, id: Text, prefix: Text, after: Text)
    requires Valid(s)
    ensures Lists(Following(s, id, prefix, after), s, id, prefix, after)
  {
    var keys := KeysOf(s.order, id, prefix);
    KeysAreDistinct(s.order, id, prefix);
    SortSorts(keys);
    ListedIsDrawn(s, id, Sort(keys), after);
    ListedInOrder(s, id, Sort(keys), after);
    forall key: Text ensures key in Sort(keys) <==> prefix <= key && At(id, key) in s.order {
      KeysHas(s.order, id, prefix, key);
    }
  }

  // ---- the table's page ----

  const SCAFFOLD_BYTES: nat := 20

  // The table charges each entry for the text around it too.
  function TableCost(e: Entry): nat { SCAFFOLD_BYTES + Cost(e) }

  function TableCostOf(entries: seq<Entry>): nat {
    if entries == [] then 0 else TableCost(entries[0]) + TableCostOf(entries[1..])
  }

  lemma {:induction false} TableCostIsMore(entries: seq<Entry>)
    ensures TableCostOf(entries) == CostOf(entries) + |entries| * 20
  {
    if entries != [] { TableCostIsMore(entries[1..]); }
  }

  function TableFitting(entries: seq<Entry>, maxBytes: nat, bytes: nat, some: bool): (n: nat)
    ensures n <= |entries|
    decreases |entries|
  {
    if entries == [] || (some && bytes + TableCost(entries[0]) > maxBytes) then 0
    else 1 + TableFitting(entries[1..], maxBytes, bytes + TableCost(entries[0]), true)
  }

  function TablePage(rows: seq<Entry>, maxBytes: nat): Page {
    var n := TableFitting(rows, maxBytes, 0, false);
    Page(rows[..n], n < |rows|)
  }

  // The loop over the rows of the range, stopped at the first that does not fit.
  method CutTable(rows: seq<Entry>, maxBytes: nat) returns (page: Page)
    ensures page == TablePage(rows, maxBytes)
  {
    var entries: seq<Entry> := [];
    var bytes: nat := 0;
    var more := false;
    for i := 0 to |rows|
      invariant !more && entries == rows[..i]
      invariant TableFitting(rows, maxBytes, 0, false) == i + TableFitting(rows[i..], maxBytes, bytes, i > 0)
    {
      assert rows[i..][0] == rows[i] && rows[i..][1..] == rows[i + 1..];
      var cost := TableCost(rows[i]);
      if |entries| > 0 && bytes + cost > maxBytes {
        more := true;
        break;
      }
      bytes := bytes + cost;
      entries := entries + [rows[i]];
    }
    page := Page(entries, more);
  }

  lemma {:induction false} CutsCompared(entries: seq<Entry>, maxBytes: nat, bytes: nat, charged: nat)
    requires bytes <= charged
    ensures var (n, m) := (Fitting(entries, maxBytes, bytes, true), TableFitting(entries, maxBytes, charged, true));
            m <= n && (m == n <==> n == 0 || charged + TableCostOf(entries[..n]) <= maxBytes)
    decreases |entries|
  {
    var n := Fitting(entries, maxBytes, bytes, true);
    if n > 0 {
      var rest := entries[1..];
      CutsCompared(rest, maxBytes, bytes + Cost(entries[0]), charged + TableCost(entries[0]));
      assert entries[..n][1..] == rest[..n - 1];
    }
  }

  // Of one list of entries the table never takes more than the memory store would, and the two cut at
  // the same place exactly when there is one to take, or what the memory store takes fits with its
  // scaffold.
  lemma TheCutsAgreeExactly(rows: seq<Entry>, maxBytes: nat)
    ensures var (n, m) := (Fitting(rows, maxBytes, 0, false), TableFitting(rows, maxBytes, 0, false));
            && m <= n
            && (TablePage(rows, maxBytes) == Page(rows[..n], n < |rows|)
                <==> n <= 1 || CostOf(rows[..n]) + n * 20 <= maxBytes)
  {
    var (n, m) := (Fitting(rows, maxBytes, 0, false), TableFitting(rows, maxBytes, 0, false));
    if rows != [] {
      CutsCompared(rows[1..], maxBytes, Cost(rows[0]), TableCost(rows[0]));
      assert rows[..n][1..] == rows[1..][..n - 1];
      TableCostIsMore(rows[..n]);
      assert |rows[..m]| == m && |rows[..n]| == n;
    }
  }

  // Two keys of one letter, each with the value 1, and a budget of eight bytes: one page holds both,
  // the other the first.
  lemma TheCutsDiffer()
    ensures var rows := [Entry([0x61], [0x31]), Entry([0x62], [0x31])];
            Fitting(rows, 8, 0, false) == 2 && TableFitting(rows, 8, 0, false) == 1
  {
    var one: Text := [0x31];
    var rows := [Entry([0x61], one), Entry([0x62], one)];
    assert one[1..] == [] && rows[1..] == [rows[1]] && rows[1..][1..] == [];
    assert rows[0].key[1..] == [] && rows[1].key[1..] == [];
    assert Cost(rows[0]) == Cost(rows[1]) == 4;
  }

  // ---- reading page after page while the store changes ----

  // What reading gathers and whether it came to an end, the store being `stores[i]` when page `i`
  // is read: the cursor moves to the last key of the page, and a page with nothing left ends it.
  datatype Read = Read(entries: seq<Entry>, ended: bool)

  function Paged(stores: seq<Store>, id: Text, prefix: Text, after: Text, maxBytes: nat): Read
    decreases |stores|
  {
    if stores == [] then Read([], false)
    else
      var page := Entries(stores[0], id, prefix, after, maxBytes);
      if !page.more then Read(page.entries, true)
      else
        var rest := Paged(stores[1..], id, prefix, page.entries[|page.entries| - 1].key, maxBytes);
        Read(page.entries + rest.entries, rest.ended)
  }

  ghost predicate Climbs(entries: seq<Entry>, after: Text) {
    && (forall i :: 0 <= i < |entries| ==> Before(after, entries[i].key))
    && (forall i, j :: 0 <= i < j < |entries| ==> Before(entries[i].key, entries[j].key))
  }

  lemma PageClimbs(s: Store, id: Text, prefix: Text, after: Text, maxBytes: nat)
    requires Valid(s)
    ensures Climbs(Entries(s, id, prefix, after, maxBytes).entries, after)
  {
    FollowingLists(s, id, prefix, after);
  }

  lemma ClimbsOn(a: seq<Entry>, b: seq<Entry>, after: Text)
    requires a != [] && Climbs(a, after) && Climbs(b, a[|a| - 1].key)
    ensures Climbs(a + b, after)
  {
    forall i, j | 0 <= i < |a| && 0 <= j < |b| ensures Before(a[i].key, b[j].key) {
      if i < |a| - 1 { BeforeIsTransitive(a[i].key, a[|a| - 1].key, b[j].key); }
    }
    forall j | 0 <= j < |b| ensures Before(after, b[j].key) {
      BeforeIsTransitive(after, a[0].key, b[j].key);
    }
  }

  // Whatever is set or deleted between pages, the keys read only ever climb: none comes twice.
  lemma {:induction false} NoKeyComesTwice(stores: seq<Store>, id: Text, prefix: Text, after: Text, maxBytes: nat)
    requires forall i :: 0 <= i < |stores| ==> Valid(stores[i])
    ensures Climbs(Paged(stores, id, prefix, after, maxBytes).entries, after)
    decreases |stores|
  {
    if stores != [] {
      var page := Entries(stores[0], id, prefix, after, maxBytes);
      PageClimbs(stores[0], id, prefix, after, maxBytes);
      if page.more {
        var last := page.entries[|page.entries| - 1].key;
        NoKeyComesTwice(stores[1..], id, prefix, last, maxBytes);
        ClimbsOn(page.entries, Paged(stores[1..], id, prefix, last, maxBytes).entries, after);
      }
    }
  }

  // Either the page holds a key, or it stopped before it.
  lemma OnThisPageOrAfterIt(s: Store, id: Text, prefix: Text, after: Text, maxBytes: nat, key: Text)
    requires Valid(s) && prefix <= key && Before(after, key) && Get(s, id, key).Some?
    ensures var page := Entries(s, id, prefix, after, maxBytes);
            Entry(key, Get(s, id, key).value) in page.entries
            || (page.more && Before(page.entries[|page.entries| - 1].key, key))
  {
    FollowingLists(s, id, prefix, after);
    var all, page := Following(s, id, prefix, after), Entries(s, id, prefix, after, maxBytes);
    var k :| 0 <= k < |all| && all[k] == Entry(key, Get(s, id, key).value);
    if k < |page.entries| { assert page.entries[k] == all[k]; }
  }

  // A key that is there with one value whenever a page is read is read, with that value.
  lemma {:induction false} NoStandingKeyIsMissed(stores: seq<Store>, id: Text, prefix: Text, after: Text, maxBytes: nat,
                                                 key: Text, value: Text)
    requires forall i :: 0 <= i < |stores| ==> Valid(stores[i]) && Get(stores[i], id, key) == Some(value)
    requires prefix <= key && Before(after, key) && Paged(stores, id, prefix, after, maxBytes).ended
    ensures Entry(key, value) in Paged(stores, id, prefix, after, maxBytes).entries
    decreases |stores|
  {
    var page := Entries(stores[0], id, prefix, after, maxBytes);
    OnThisPageOrAfterIt(stores[0], id, prefix, after, maxBytes, key);
    if Entry(key, value) !in page.entries {
      NoStandingKeyIsMissed(stores[1..], id, prefix, page.entries[|page.entries| - 1].key, maxBytes, key, value);
    }
  }

  ghost predicate KeepsLegalKeys(s: Store, id: Text) {
    Valid(s) && forall key :: Get(s, id, key).Some? ==> LegalKey(key)
  }

  // The quota's bound on keys is what makes reading end.
  lemma QuotaKeepsLegalKeys(s: Store, id: Text)
    requires Valid(s) && WithinQuota(s, id)
    ensures KeepsLegalKeys(s, id)
  {
    forall key | Get(s, id, key).Some? ensures LegalKey(key) { TheQuotaSeesEachKeyOnce(s, id, key); }
  }

  lemma PageAdvances(s: Store, id: Text, prefix: Text, after: Text, maxBytes: nat)
    requires KeepsLegalKeys(s, id) && |after| <= MAX_PLUGIN_KEY_CHARS && Entries(s, id, prefix, after, maxBytes).more
    ensures var page := Entries(s, id, prefix, after, maxBytes);
            var last := page.entries[|page.entries| - 1].key;
            && |last| <= MAX_PLUGIN_KEY_CHARS
            && Rank(after, MAX_PLUGIN_KEY_CHARS) < Rank(last, MAX_PLUGIN_KEY_CHARS)
  {
    FollowingLists(s, id, prefix, after);
    var page := Entries(s, id, prefix, after, maxBytes);
    assert LegalKey(page.entries[|page.entries| - 1].key);
    RankFollowsOrder(after, page.entries[|page.entries| - 1].key, MAX_PLUGIN_KEY_CHARS);
  }

  lemma {:induction false} PagesRunOut(stores: seq<Store>, id: Text, prefix: Text, after: Text, maxBytes: nat)
    requires forall i :: 0 <= i < |stores| ==> KeepsLegalKeys(stores[i], id)
    requires |after| <= MAX_PLUGIN_KEY_CHARS
    ensures Paged(stores, id, prefix, after, maxBytes).ended
            || Rank(after, MAX_PLUGIN_KEY_CHARS) + |stores| < Pow(MAX_PLUGIN_KEY_CHARS)
    decreases |stores|
  {
    if stores == [] {
      RankIsBounded(after, MAX_PLUGIN_KEY_CHARS);
    } else {
      var page := Entries(stores[0], id, prefix, after, maxBytes);
      if page.more {
        PageAdvances(stores[0], id, prefix, after, maxBytes);
        PagesRunOut(stores[1..], id, prefix, page.entries[|page.entries| - 1].key, maxBytes);
      }
    }
  }

  // Reading ends, whatever is set between pages: within the quota there are only so many keys to
  // climb past.
  lemma ReadingEnds(stores: seq<Store>, id: Text, prefix: Text, maxBytes: nat)
    requires forall i :: 0 <= i < |stores| ==> Valid(stores[i]) && WithinQuota(stores[i], id)
    requires |stores| >= Pow(MAX_PLUGIN_KEY_CHARS)
    ensures Paged(stores, id, prefix, [], maxBytes).ended
  {
    forall i | 0 <= i < |stores| ensures KeepsLegalKeys(stores[i], id) { QuotaKeepsLegalKeys(stores[i], id); }
    PagesRunOut(stores, id, prefix, [], maxBytes);
  }

  // ---- how soon it ends ----

  function Keys(s: Store, id: Text, prefix: Text): set<Text> { set key | key in KeysOf(s.order, id, prefix) }

  function Ahead(s: Store, id: Text, prefix: Text, after: Text): set<Text> {
    set key | key in Keys(s, id, prefix) && Before(after, key)
  }

  // How many keys appeared from one page to the next.
  function Appeared(stores: seq<Store>, id: Text, prefix: Text): nat {
    if |stores| <= 1 then 0
    else |Keys(stores[1], id, prefix) - Keys(stores[0], id, prefix)| + Appeared(stores[1..], id, prefix)
  }

  lemma {:induction false} SmallerSet(a: set<Text>, b: set<Text>)
    requires a <= b
    ensures |a| <= |b|
  {
    assert b == a + (b - a);
  }

  // The page's last key was ahead, and is not any more.
  lemma PageTakesOne(s: Store, id: Text, prefix: Text, after: Text, maxBytes: nat)
    requires Valid(s) && Entries(s, id, prefix, after, maxBytes).more
    ensures var page := Entries(s, id, prefix, after, maxBytes);
            |Ahead(s, id, prefix, page.entries[|page.entries| - 1].key)| < |Ahead(s, id, prefix, after)|
  {
    FollowingLists(s, id, prefix, after);
    var page := Entries(s, id, prefix, after, maxBytes);
    var last := page.entries[|page.entries| - 1].key;
    var left, all := Ahead(s, id, prefix, last), Ahead(s, id, prefix, after);
    KeysHas(s.order, id, prefix, last);
    NotBeforeItself(last);
    forall key | key in left ensures key in all && key != last { BeforeIsTransitive(after, last, key); }
    SmallerSet(left + {last}, all);
  }

  lemma StillAhead(s: Store, t: Store, id: Text, prefix: Text, after: Text)
    ensures |Ahead(t, id, prefix, after)|
            <= |Ahead(s, id, prefix, after)| + |Keys(t, id, prefix) - Keys(s, id, prefix)|
  {
    var added := Keys(t, id, prefix) - Keys(s, id, prefix);
    SmallerSet(Ahead(t, id, prefix, after), Ahead(s, id, prefix, after) + added);
  }

  lemma {:induction false} PagesRunOutSoon(stores: seq<Store>, id: Text, prefix: Text, after: Text, maxBytes: nat)
    requires stores != [] && forall i :: 0 <= i < |stores| ==> Valid(stores[i])
    ensures Paged(stores, id, prefix, after, maxBytes).ended
            || |stores| <= |Ahead(stores[0], id, prefix, after)| + Appeared(stores, id, prefix)
    decreases |stores|
  {
    var page := Entries(stores[0], id, prefix, after, maxBytes);
    if page.more {
      var last := page.entries[|page.entries| - 1].key;
      PageTakesOne(stores[0], id, prefix, after, maxBytes);
      if |stores| > 1 {
        PagesRunOutSoon(stores[1..], id, prefix, last, maxBytes);
        StillAhead(stores[0], stores[1], id, prefix, last);
      }
    }
  }

  // Reading takes at most one page for each key that was there at the start, one for each that
  // appeared meanwhile, and one more.
  lemma ReadingEndsSoon(stores: seq<Store>, id: Text, prefix: Text, maxBytes: nat)
    requires stores != [] && forall i :: 0 <= i < |stores| ==> Valid(stores[i])
    requires |stores| > |Keys(stores[0], id, prefix)| + Appeared(stores, id, prefix)
    ensures Paged(stores, id, prefix, [], maxBytes).ended
  {
    PagesRunOutSoon(stores, id, prefix, [], maxBytes);
    SmallerSet(Ahead(stores[0], id, prefix, []), Keys(stores[0], id, prefix));
  }

  // A plugin's own sets among some operations.
  function Sets(ops: seq<Op>, id: Text): nat {
    if ops == [] then 0 else (if ops[0].SetOp? && ops[0].id == id then 1 else 0) + Sets(ops[1..], id)
  }

  lemma OneSetOneKey(s: Store, op: Op, id: Text, prefix: Text)
    requires Valid(s) && NulFree(op.id) && NulFree(id)
    ensures |Keys(Done(s, op), id, prefix) - Keys(s, id, prefix)| <= if op.SetOp? && op.id == id then 1 else 0
  {
    var before, now := Keys(s, id, prefix), Keys(Done(s, op), id, prefix);
    if op.id != id {
      PluginsAreIsolated(s, op, id, prefix, []);
      assert now - before == {};
    } else {
      forall key: Text ensures key in now <==> prefix <= key && At(id, key) in Done(s, op).order {
        KeysHas(Done(s, op).order, id, prefix, key);
      }
      forall key: Text ensures key in before <==> prefix <= key && At(id, key) in s.order {
        KeysHas(s.order, id, prefix, key);
      }
      match op
      case SetOp(_, key, value) => SetAddsItsKey(s, id, prefix, key, value);
      case DeleteOp(_, key) =>
        WithoutHolds(s.order, At(id, key));
        assert now - before == {};
      case DropOp(_) =>
        WithoutPluginHolds(s.order, id);
        assert now - before == {};
    }
  }

  lemma SetAddsItsKey(s: Store, id: Text, prefix: Text, key: Text, value: Text)
    requires forall k :: k in Keys(s, id, prefix) <==> prefix <= k && At(id, k) in s.order
    requires forall k :: k in Keys(Set(s, id, key, value), id, prefix)
                         <==> prefix <= k && At(id, k) in Set(s, id, key, value).order
    ensures |Keys(Set(s, id, key, value), id, prefix) - Keys(s, id, prefix)| <= 1
  {
    var added := Keys(Set(s, id, key, value), id, prefix) - Keys(s, id, prefix);
    forall k | k in added ensures k == key { AtIsInjective(id, k, key); }
    SmallerSet(added, {key});
  }

  lemma {:induction false} SetsAddKeys(s: Store, ops: seq<Op>, id: Text, prefix: Text)
    requires Valid(s) && NulFree(id) && forall i :: 0 <= i < |ops| ==> NulFree(ops[i].id)
    ensures |Keys(AllDone(s, ops), id, prefix) - Keys(s, id, prefix)| <= Sets(ops, id) && Valid(AllDone(s, ops))
    decreases |ops|
  {
    if ops == [] {
      assert Keys(s, id, prefix) - Keys(s, id, prefix) == {};
    } else {
      var next := Done(s, ops[0]);
      OpsKeepTheMap(s, ops[0]);
      OneSetOneKey(s, ops[0], id, prefix);
      SetsAddKeys(next, ops[1..], id, prefix);
      var start, middle, end := Keys(s, id, prefix), Keys(next, id, prefix), Keys(AllDone(s, ops), id, prefix);
      SmallerSet(end - start, (end - middle) + (middle - start));
    }
  }

  // The stores that pages are read from, `meanwhile[i]` being done after the page from `stores[i]`.
  ghost predicate Follow(stores: seq<Store>, meanwhile: seq<seq<Op>>) {
    && |stores| == |meanwhile| + 1 && Valid(stores[0])
    && (forall i :: 0 <= i < |meanwhile| ==> stores[i + 1] == AllDone(stores[i], meanwhile[i]))
    && (forall i, k :: 0 <= i < |meanwhile| && 0 <= k < |meanwhile[i]| ==> NulFree(meanwhile[i][k].id))
  }

  function AllSets(meanwhile: seq<seq<Op>>, id: Text): nat {
    if meanwhile == [] then 0 else Sets(meanwhile[0], id) + AllSets(meanwhile[1..], id)
  }

  lemma {:induction false} AppearedAreSet(stores: seq<Store>, meanwhile: seq<seq<Op>>, id: Text, prefix: Text)
    requires Follow(stores, meanwhile) && NulFree(id)
    ensures Appeared(stores, id, prefix) <= AllSets(meanwhile, id)
    ensures forall i :: 0 <= i < |stores| ==> Valid(stores[i])
    decreases |stores|
  {
    if meanwhile != [] {
      SetsAddKeys(stores[0], meanwhile[0], id, prefix);
      FollowRest(stores, meanwhile);
      AppearedAreSet(stores[1..], meanwhile[1..], id, prefix);
      forall i | 0 <= i < |stores| ensures Valid(stores[i]) {
        if i > 0 { assert stores[1..][i - 1] == stores[i]; }
      }
    }
  }

  lemma FollowRest(stores: seq<Store>, meanwhile: seq<seq<Op>>)
    requires Follow(stores, meanwhile) && meanwhile != [] && Valid(stores[1])
    ensures Follow(stores[1..], meanwhile[1..])
  {
    forall i | 0 <= i < |meanwhile[1..]| ensures stores[1..][i + 1] == AllDone(stores[1..][i], meanwhile[1..][i]) {
      assert stores[i + 2] == AllDone(stores[i + 1], meanwhile[i + 1]);
    }
    forall i, k | 0 <= i < |meanwhile[1..]| && 0 <= k < |meanwhile[1..][i]| ensures NulFree(meanwhile[1..][i][k].id) {
      assert NulFree(meanwhile[i + 1][k].id);
    }
  }

  // So what plugins do between pages puts the end off by the reader's own sets alone, one page each.
  lemma ReadingEndsAfterKeysAndSets(stores: seq<Store>, meanwhile: seq<seq<Op>>, id: Text, prefix: Text, maxBytes: nat)
    requires Follow(stores, meanwhile) && NulFree(id)
    requires |stores| > |Keys(stores[0], id, prefix)| + AllSets(meanwhile, id)
    ensures Paged(stores, id, prefix, [], maxBytes).ended
  {
    AppearedAreSet(stores, meanwhile, id, prefix);
    ReadingEndsSoon(stores, id, prefix, maxBytes);
  }
}
