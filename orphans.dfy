/** The `fix_orphan_categories` command: find transactions and purchase items whose
    category their owner can no longer see, list them, and with `--fix` clear those
    categories. */
module Orphans {
  import opened Common
  import opened Ledger
  import opened Dates
  import opened Categories
  import Aggregate

  /** A `PurchaseItem` row (name, quantity and price left out); it belongs to the owner of its transaction. */
  datatype PurchaseItem = PurchaseItem(id: nat, transaction: TxId, category: Option<CategoryId>)

  /** The category exists but is neither the owner's nor a shared default.  An id that
      names no category is dropped by the join and never reported. */
  predicate Orphaned(cats: Catalog, category: Option<CategoryId>, owner: UserId) {
    category.Some? && category.value in cats && !Visible(cats[category.value], owner)
  }

  predicate OrphanRow(cats: Catalog, r: Row) {
    Orphaned(cats, r.entry.category, r.entry.user)
  }

  function RowLatestFirst(r: Row): int {
    -Ordinal(r.entry.date)
  }

  /** The order in which the command's queryset yields the transactions, `Meta.ordering`
      `['-date', '-created_at']`: latest date first and, within a date, the later-created
      row first.  The table is in creation order, so the stable sort of the reversed table
      puts ties in that order. */
  function QueryOrder(rows: seq<Row>): (r: seq<Row>)
    ensures multiset(r) == multiset(rows)
    ensures forall x :: x in r <==> x in rows
    ensures forall i, j :: 0 <= i < j < |r| ==> Le(r[j].entry.date, r[i].entry.date)
  {
    var r := Aggregate.SortBy(Aggregate.Reversed(rows), RowLatestFirst);
    assert forall x :: x in r <==> x in multiset(rows);
    r
  }

  /** The ids of the orphan transactions, in the order of `rows`. */
  function OrphanIds(rows: seq<Row>, cats: Catalog): (ids: seq<TxId>)
    ensures |ids| <= |rows|
    ensures forall id :: id in ids <==> exists r :: r in rows && r.id == id && OrphanRow(cats, r)
  {
    if rows == [] then []
    else
      var rest := OrphanIds(rows[..|rows| - 1], cats);
      var r := rows[|rows| - 1];
      assert forall x :: x in rows <==> x in rows[..|rows| - 1] || x == r;
      if OrphanRow(cats, r) then rest + [r.id] else rest
  }

  /** The owner of an item: the user of its transaction, if that transaction exists. */
  function Owner(rows: seq<Row>, it: PurchaseItem): Option<UserId> {
    var i := IndexOf(rows, it.transaction);
    if i >= 0 then Some(rows[i].entry.user) else None
  }

  predicate OrphanItem(cats: Catalog, rows: seq<Row>, it: PurchaseItem) {
    Owner(rows, it).Some? && Orphaned(cats, it.category, Owner(rows, it).value)
  }

  /** The positions of the orphan items, in table order. */
  function OrphanPositions(items: seq<PurchaseItem>, rows: seq<Row>, cats: Catalog): (ps: seq<nat>)
    ensures forall p: nat :: p in ps <==> p < |items| && OrphanItem(cats, rows, items[p])
    ensures forall i :: 0 <= i < |ps| ==> ps[i] < |items|
    ensures forall i, j :: 0 <= i < j < |ps| ==> ps[i] < ps[j]
  {
    if items == [] then []
    else
      var n := |items| - 1;
      var rest := OrphanPositions(items[..n], rows, cats);
      assert forall p: nat :: p < n ==> items[..n][p] == items[p];
      forall k | 0 <= k < |rest| ensures rest[k] < n {
        assert rest[k] in rest;
      }
      if OrphanItem(cats, rows, items[n]) then rest + [n] else rest
  }

  /** The first loop of `handle`: it appends the id of every orphan transaction. */
  method ScanTransactions(rows: seq<Row>, cats: Catalog) returns (orphans: seq<TxId>)
    ensures orphans == OrphanIds(rows, cats)
  {
    orphans := [];
    var i := 0;
    while i < |rows|
      invariant 0 <= i <= |rows|
      invariant orphans == OrphanIds(rows[..i], cats)
    {
      assert rows[..i + 1][..i] == rows[..i];
      var r := rows[i];
      if r.entry.category.Some? {
        if OrphanRow(cats, r) {
          orphans := orphans + [r.id];
        }
      }
      i := i + 1;
    }
    assert rows[..i] == rows;
  }

  /** The second loop: it appends every orphan purchase item. */
  method ScanItems(items: seq<PurchaseItem>, rows: seq<Row>, cats: Catalog) returns (positions: seq<nat>)
    ensures positions == OrphanPositions(items, rows, cats)
  {
    positions := [];
    var i := 0;
    while i < |items|
      invariant 0 <= i <= |items|
      invariant positions == OrphanPositions(items[..i], rows, cats)
    {
      assert items[..i + 1][..i] == items[..i];
      if items[i].category.Some? && OrphanItem(cats, rows, items[i]) {
        positions := positions + [i];
      }
      i := i + 1;
    }
    assert items[..i] == items;
  }

  /** A row after the fix: an orphan loses its category, every other row is as it was. */
  function Cleared(cats: Catalog, r: Row): (c: Row)
    ensures OrphanRow(cats, r) ==> c == Row(r.id, r.entry.(category := None))
    ensures !OrphanRow(cats, r) ==> c == r
  {
    if OrphanRow(cats, r) then Row(r.id, r.entry.(category := None)) else r
  }

  /** A category never moves a balance. */
  lemma CategoryInert(b: Balances, e: Entry, c: Option<CategoryId>)
    requires Refs(e) <= b.Keys
    ensures Apply(b, e.(category := c)) == Apply(b, e)
  {
  }

  /** After the orphans named in `done` have been fixed, those rows are cleared and
      every other row is as it was. */
  ghost predicate ClearedSoFar(rows: seq<Row>, rows0: seq<Row>, cats: Catalog, done: seq<TxId>) {
    |rows| == |rows0| &&
    forall j :: 0 <= j < |rows0| ==>
      rows[j] == if OrphanRow(cats, rows0[j]) && rows0[j].id in done then Cleared(cats, rows0[j]) else rows0[j]
  }

  /** Clearing the category of the orphan `id` extends the cleared prefix by `id`. */
  lemma ClearStep(rows: seq<Row>, rows0: seq<Row>, cats: Catalog, done: seq<TxId>, id: TxId)
    requires ClearedSoFar(rows, rows0, cats, done) && UniqueIds(rows)
    requires exists r :: r in rows0 && r.id == id && OrphanRow(cats, r)
    ensures IndexOf(rows, id) >= 0
    ensures var i := IndexOf(rows, id);
      ClearedSoFar(rows[i := Row(id, rows[i].entry.(category := None))], rows0, cats, done + [id])
  {
    var r :| r in rows0 && r.id == id && OrphanRow(cats, r);
    var j0 :| 0 <= j0 < |rows0| && rows0[j0] == r;
    assert rows[j0].id == id;
    var i := IndexOf(rows, id);
    assert i == j0;
  }

  /** Once every orphan is done, each row is its cleared form. */
  lemma ClearedAll(rows: seq<Row>, rows0: seq<Row>, cats: Catalog, done: seq<TxId>)
    requires ClearedSoFar(rows, rows0, cats, done)
    requires done == OrphanIds(QueryOrder(rows0), cats)
    ensures |rows| == |rows0|
    ensures forall j :: 0 <= j < |rows| ==> rows[j] == Cleared(cats, rows0[j])
  {
    forall j | 0 <= j < |rows0| && OrphanRow(cats, rows0[j])
      ensures rows0[j].id in done
    {
      assert rows0[j] in QueryOrder(rows0);
    }
  }

  /** Loading the row `id` afresh, clearing its category and saving it. */
  method ClearCategory(ledger: Ledger, id: TxId)
    requires ledger.Valid() && ledger.HasRow(id)
    modifies ledger
    ensures ledger.Valid() && ledger.balances == old(ledger.balances)
    ensures var i := IndexOf(old(ledger.rows), id);
      ledger.rows == old(ledger.rows)[i := Row(id, old(ledger.rows)[i].entry.(category := None))]
    ensures old(ledger.Consistent()) ==> ledger.Consistent()
  {
    var i := IndexOf(ledger.rows, id);
    var stored := ledger.rows[i].entry;
    CategoryInert(Reverse(ledger.balances, stored), stored, None);
    ReverseUndoesApply(ledger.balances, stored);
    ledger.Update(id, stored.(category := None));
  }

  /** The first fixing loop: each orphan is loaded afresh, its category cleared and
      the row saved, which reverses and re-applies the same effect. */
  method FixTransactions(ledger: Ledger, cats: Catalog, orphans: seq<TxId>) returns (fixed: nat)
    requires ledger.Valid() && orphans == OrphanIds(QueryOrder(ledger.rows), cats)
    modifies ledger
    ensures ledger.Valid() && fixed == |orphans|
    ensures |ledger.rows| == |old(ledger.rows)|
    ensures forall j :: 0 <= j < |ledger.rows| ==> ledger.rows[j] == Cleared(cats, old(ledger.rows)[j])
    ensures ledger.balances == old(ledger.balances)
    ensures old(ledger.Consistent()) ==> ledger.Consistent()
  {
    ghost var rows0 := ledger.rows;
    fixed := 0;
    var k := 0;
    while k < |orphans|
      invariant 0 <= k <= |orphans| && fixed == k
      invariant ledger.Valid() && ledger.balances == old(ledger.balances)
      invariant ClearedSoFar(ledger.rows, rows0, cats, orphans[..k])
      invariant old(ledger.Consistent()) ==> ledger.Consistent()
    {
      var id := orphans[k];
      assert id in orphans;
      ghost var r :| r in QueryOrder(rows0) && r.id == id && OrphanRow(cats, r);
      assert r in rows0;
      ClearStep(ledger.rows, rows0, cats, orphans[..k], id);
      ClearCategory(ledger, id);
      fixed := fixed + 1;
      Aggregate.PrefixSnoc(orphans, k);
      k := k + 1;
    }
    assert orphans[..k] == orphans;
    ClearedAll(ledger.rows, rows0, cats, orphans);
  }

  /** The second fixing loop: each orphan item has its category cleared. */
  method FixItems(items: array<PurchaseItem>, positions: seq<nat>) returns (fixed: nat)
    requires forall p :: p in positions ==> p < items.Length
    modifies items
    ensures fixed == |positions|
    ensures forall p :: 0 <= p < items.Length ==>
      items[p] == if p in positions then old(items[p]).(category := None) else old(items[p])
  {
    fixed := 0;
    var k := 0;
    while k < |positions|
      invariant 0 <= k <= |positions| && fixed == k
      invariant forall p :: 0 <= p < items.Length ==>
        items[p] == if p in positions[..k] then old(items[p]).(category := None) else old(items[p])
    {
      var p := positions[k];
      assert p in positions;
      var item := items[p];
      items[p] := item.(category := None);
      assert positions[..k + 1] == positions[..k] + [p];
      fixed := fixed + 1;
      k := k + 1;
    }
    assert positions[..k] == positions;
  }

  /** What a run reports: whether it scanned, the orphans found, the first ten of each
      kind that it lists, and how many of each it fixed. */
  datatype Run = Run(
    scanned: bool,
    orphanTransactions: seq<TxId>,
    orphanItems: seq<nat>,
    listedTransactions: seq<TxId>,
    listedItems: seq<nat>,
    fixedTransactions: nat,
    fixedItems: nat)

  function ItemIds(items: seq<PurchaseItem>, ps: seq<nat>): (ids: seq<nat>)
    requires forall i :: 0 <= i < |ps| ==> ps[i] < |items|
    ensures |ids| == |ps| && forall i :: 0 <= i < |ps| ==> ids[i] == items[ps[i]].id
  {
    if ps == [] then [] else [items[ps[0]].id] + ItemIds(items, ps[1..])
  }

  /** `handle`: neither flag does nothing; otherwise scan and list, and fix only when
      `--fix` is given without `--dry-run` and something was found. */
  method Handle(ledger: Ledger, items: array<PurchaseItem>, cats: Catalog, fix: bool, dryRun: bool) returns (run: Run)
    requires ledger.Valid()
    modifies ledger, items
    ensures ledger.Valid()
    ensures run.scanned <==> fix || dryRun
    ensures !run.scanned ==> run == Run(false, [], [], [], [], 0, 0)
    ensures run.scanned ==>
      run.orphanTransactions == OrphanIds(QueryOrder(old(ledger.rows)), cats) &&
      run.orphanItems == ItemIds(old(items[..]), OrphanPositions(old(items[..]), old(ledger.rows), cats)) &&
      run.listedTransactions == Aggregate.Take(run.orphanTransactions, 10) &&
      run.listedItems == Aggregate.Take(run.orphanItems, 10)
    ensures var changes := fix && !dryRun && |run.orphanTransactions| + |run.orphanItems| > 0;
      (changes ==> (
        run.fixedTransactions == |run.orphanTransactions| && run.fixedItems == |run.orphanItems| &&
        |ledger.rows| == |old(ledger.rows)| &&
        (forall j :: 0 <= j < |ledger.rows| ==> ledger.rows[j] == Cleared(cats, old(ledger.rows)[j])) &&
        (forall p :: 0 <= p < items.Length ==>
          items[p] == if OrphanItem(cats, old(ledger.rows), old(items[p])) then old(items[p]).(category := None) else old(items[p])))) &&
      (!changes ==> (run.fixedTransactions == 0 && run.fixedItems == 0 &&
        ledger.rows == old(ledger.rows) && items[..] == old(items[..])))
    ensures ledger.balances == old(ledger.balances)
    ensures old(ledger.Consistent()) ==> ledger.Consistent()
  {
    if !fix && !dryRun {
      return Run(false, [], [], [], [], 0, 0);
    }
    var orphans := ScanTransactions(QueryOrder(ledger.rows), cats);
    var positions := ScanItems(items[..], ledger.rows, cats);
    var itemIds := ItemIds(items[..], positions);
    run := Run(true, orphans, itemIds, Aggregate.Take(orphans, 10), Aggregate.Take(itemIds, 10), 0, 0);
    if |orphans| + |itemIds| == 0 {
      return;
    }
    if fix && !dryRun {
      var fixedTransactions := FixTransactions(ledger, cats, orphans);
      var fixedItems := FixItems(items, positions);
      run := run.(fixedTransactions := fixedTransactions, fixedItems := fixedItems);
    }
  }
}
