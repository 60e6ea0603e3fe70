/**
 * The budget charts of `src/components/BudgetChart.tsx`: the per-category bar
 * data and the per-status pie data, both built by one left-to-right
 * `reduce` that finds the entry for a key and adds to it, or pushes a new
 * entry; the variance card; and the pie slice colours.
 */
module BudgetChart {
  import opened Types
  import opened Seqs
  import opened BudgetItemView

  /** One budget line, reduced to a grouping key and its two amounts (cents). */
  datatype Row<K> = Row(key: K, estimated: int, actual: int)

  /** One chart entry: a key and the amounts added up for it. */
  datatype Group<K> = Group(name: K, estimated: int, actual: int)

  ghost predicate HasName<K>(gs: seq<Group<K>>, k: K) {
    exists i :: 0 <= i < |gs| && gs[i].name == k
  }

  ghost predicate HasKey<K>(rows: seq<Row<K>>, k: K) {
    exists i :: 0 <= i < |rows| && rows[i].key == k
  }

  /** The estimated amounts of the rows with key `k`, added up. */
  ghost function KeyEstimated<K>(rows: seq<Row<K>>, k: K): int {
    if |rows| == 0 then 0
    else KeyEstimated(rows[..|rows| - 1], k) + (if rows[|rows| - 1].key == k then rows[|rows| - 1].estimated else 0)
  }

  /** The actual amounts of the rows with key `k`, added up. */
  ghost function KeyActual<K>(rows: seq<Row<K>>, k: K): int {
    if |rows| == 0 then 0
    else KeyActual(rows[..|rows| - 1], k) + (if rows[|rows| - 1].key == k then rows[|rows| - 1].actual else 0)
  }

  function RowEstimated<K>(r: Row<K>): int { r.estimated }

  function RowActual<K>(r: Row<K>): int { r.actual }

  function GroupEstimated<K>(g: Group<K>): int { g.estimated }

  function GroupActual<K>(g: Group<K>): int { g.actual }

  /** Each key names at most one entry. */
  ghost predicate DistinctNames<K>(gs: seq<Group<K>>) {
    forall i, j :: 0 <= i < j < |gs| ==> gs[i].name != gs[j].name
  }

  /** The entries name exactly the keys the rows use. */
  ghost predicate SameKeys<K>(gs: seq<Group<K>>, rows: seq<Row<K>>) {
    (forall i :: 0 <= i < |gs| ==> HasKey(rows, gs[i].name))
    && (forall j :: 0 <= j < |rows| ==> HasName(gs, rows[j].key))
  }

  /** Each entry holds the sums over the rows with its key. */
  ghost predicate SumsPerKey<K>(gs: seq<Group<K>>, rows: seq<Row<K>>) {
    forall i :: 0 <= i < |gs| ==>
      gs[i].estimated == KeyEstimated(rows, gs[i].name) && gs[i].actual == KeyActual(rows, gs[i].name)
  }

  /**
   * The entries come in the order their keys first appear: wherever a later
   * entry's key occurs among the rows, an earlier entry's key occurs before it.
   */
  ghost predicate FirstAppearanceOrder<K>(gs: seq<Group<K>>, rows: seq<Row<K>>) {
    forall i, j, m :: 0 <= i < j < |gs| && 0 <= m < |rows| && rows[m].key == gs[j].name ==>
      OccursBefore(rows, gs[i].name, m)
  }

  /** Key `k` occurs among the first `m` rows. */
  ghost predicate OccursBefore<K>(rows: seq<Row<K>>, k: K, m: int) {
    exists l :: 0 <= l < m && l < |rows| && rows[l].key == k
  }

  /** `acc.find(c => c.name === key)`, as a position: `|gs|` when there is none. */
  function FindName<K(==)>(gs: seq<Group<K>>, k: K): (i: nat)
    ensures i <= |gs|
    ensures i < |gs| ==> gs[i].name == k
    ensures i == |gs| <==> !HasName(gs, k)
  {
    if |gs| == 0 then 0
    else if gs[0].name == k then 0
    else
      var i := FindName(gs[1..], k);
      assert HasName(gs, k) <==> HasName(gs[1..], k) by {
        if HasName(gs, k) {
          var j :| 0 <= j < |gs| && gs[j].name == k;
          assert gs[1..][j - 1].name == k;
        }
        if HasName(gs[1..], k) {
          var j :| 0 <= j < |gs[1..]| && gs[1..][j].name == k;
          assert gs[j + 1].name == k;
        }
      }
      i + 1
  }

  /** One step of the `reduce`: add the row to its key's entry, or push a new entry. */
  function AddRow<K(==)>(gs: seq<Group<K>>, row: Row<K>): (r: seq<Group<K>>)
    ensures HasName(gs, row.key) ==> |r| == |gs|
    ensures !HasName(gs, row.key) ==> r == gs + [Group(row.key, row.estimated, row.actual)]
  {
    var i := FindName(gs, row.key);
    if i < |gs| then
      gs[i := Group(gs[i].name, gs[i].estimated + row.estimated, gs[i].actual + row.actual)]
    else
      gs + [Group(row.key, row.estimated, row.actual)]
  }

  /**
   * The `reduce` over the rows from the first to the last: one entry per
   * distinct key, in order of first appearance, each holding the sums over
   * its rows; the entries' totals are the rows' totals.
   */
  function GroupRows<K(==)>(rows: seq<Row<K>>): (gs: seq<Group<K>>)
    ensures DistinctNames(gs)
    ensures SameKeys(gs, rows)
    ensures SumsPerKey(gs, rows)
    ensures FirstAppearanceOrder(gs, rows)
    ensures Sum(gs, GroupEstimated) == Sum(rows, RowEstimated)
    ensures Sum(gs, GroupActual) == Sum(rows, RowActual)
  {
    if |rows| == 0 then []
    else
      var prefix := rows[..|rows| - 1];
      var row := rows[|rows| - 1];
      assert rows == prefix + [row];
      var gs := GroupRows(prefix);
      AddRowKeepsDistinct(gs, prefix, row);
      AddRowKeepsKeys(gs, prefix, row);
      AddRowKeepsSums(gs, prefix, row);
      AddRowKeepsOrder(gs, prefix, row);
      AddRowKeepsTotals(gs, prefix, row);
      AddRow(gs, row)
  }

  lemma HasKeySnoc<K>(rows: seq<Row<K>>, row: Row<K>, k: K)
    ensures HasKey(rows + [row], k) <==> HasKey(rows, k) || row.key == k
  {
    var rows' := rows + [row];
    if HasKey(rows, k) {
      var i :| 0 <= i < |rows| && rows[i].key == k;
      assert rows'[i].key == k;
    }
    if row.key == k {
      assert rows'[|rows|].key == k;
    }
    if HasKey(rows', k) {
      var i :| 0 <= i < |rows'| && rows'[i].key == k;
      if i < |rows| {
        assert rows[i].key == k;
      }
    }
  }

  lemma AddRowKeepsDistinct<K>(gs: seq<Group<K>>, rows: seq<Row<K>>, row: Row<K>)
    requires DistinctNames(gs)
    ensures DistinctNames(AddRow(gs, row))
  {
  }

  lemma AddRowKeepsKeys<K>(gs: seq<Group<K>>, rows: seq<Row<K>>, row: Row<K>)
    requires SameKeys(gs, rows)
    ensures SameKeys(AddRow(gs, row), rows + [row])
  {
    var r := AddRow(gs, row);
    forall k ensures HasName(r, k) <==> HasKey(rows + [row], k) {
      HasKeySnoc(rows, row, k);
      var i := FindName(gs, row.key);
      if i < |gs| {
        if HasName(r, k) {
          var j :| 0 <= j < |r| && r[j].name == k;
          assert gs[j].name == k;
        }
        if HasName(gs, k) {
          var j :| 0 <= j < |gs| && gs[j].name == k;
          assert r[j].name == k;
        }
      } else {
        if HasName(r, k) {
          var j :| 0 <= j < |r| && r[j].name == k;
          if j < |gs| { assert gs[j].name == k; }
        }
        if HasName(gs, k) {
          var j :| 0 <= j < |gs| && gs[j].name == k;
          assert r[j].name == k;
        }
        assert r[|gs|].name == row.key;
      }
    }
  }

  lemma KeySumsSnoc<K>(rows: seq<Row<K>>, row: Row<K>, k: K)
    ensures KeyEstimated(rows + [row], k) == KeyEstimated(rows, k) + (if row.key == k then row.estimated else 0)
    ensures KeyActual(rows + [row], k) == KeyActual(rows, k) + (if row.key == k then row.actual else 0)
  {
    assert (rows + [row])[..|rows|] == rows;
  }

  lemma {:induction false} KeySumsAbsent<K>(rows: seq<Row<K>>, k: K)
    requires !HasKey(rows, k)
    ensures KeyEstimated(rows, k) == 0 && KeyActual(rows, k) == 0
  {
    if |rows| > 0 {
      var prefix := rows[..|rows| - 1];
      forall i | 0 <= i < |prefix| ensures prefix[i].key != k {
        assert prefix[i] == rows[i];
      }
      assert rows[|rows| - 1].key != k;
      KeySumsAbsent(prefix, k);
    }
  }

  lemma AddRowKeepsSums<K>(gs: seq<Group<K>>, rows: seq<Row<K>>, row: Row<K>)
    requires DistinctNames(gs) && SameKeys(gs, rows) && SumsPerKey(gs, rows)
    ensures SumsPerKey(AddRow(gs, row), rows + [row])
  {
    var r := AddRow(gs, row);
    forall i | 0 <= i < |r|
      ensures r[i].estimated == KeyEstimated(rows + [row], r[i].name)
      ensures r[i].actual == KeyActual(rows + [row], r[i].name)
    {
      KeySumsSnoc(rows, row, r[i].name);
      if i == |gs| {
        assert !HasName(gs, row.key);
        assert !HasKey(rows, row.key);
        KeySumsAbsent(rows, row.key);
      }
    }
  }

  lemma AddRowKeepsOrder<K>(gs: seq<Group<K>>, rows: seq<Row<K>>, row: Row<K>)
    requires SameKeys(gs, rows) && FirstAppearanceOrder(gs, rows)
    ensures FirstAppearanceOrder(AddRow(gs, row), rows + [row])
  {
    var r := AddRow(gs, row);
    var rows' := rows + [row];
    assert forall i :: 0 <= i < |gs| ==> r[i].name == gs[i].name;
    forall i, j, m | 0 <= i < j < |r| && 0 <= m < |rows'| && rows'[m].key == r[j].name
      ensures OccursBefore(rows', r[i].name, m)
    {
      if j < |gs| {
        EarlierKeyOccurs(gs, rows, row, i, j, m);
      } else {
        NewKeyOnlyLast(gs, rows, row, i, m);
      }
    }
  }

  /** An older entry's key occurs, in the extended rows, before any occurrence of a later older entry's key. */
  lemma EarlierKeyOccurs<K>(gs: seq<Group<K>>, rows: seq<Row<K>>, row: Row<K>, i: int, j: int, m: int)
    requires SameKeys(gs, rows) && FirstAppearanceOrder(gs, rows)
    requires 0 <= i < j < |gs| && 0 <= m <= |rows| && (rows + [row])[m].key == gs[j].name
    ensures OccursBefore(rows + [row], gs[i].name, m)
  {
    var rows' := rows + [row];
    var l: int;
    if m < |rows| {
      assert rows[m].key == gs[j].name;
      assert OccursBefore(rows, gs[i].name, m);
      l :| 0 <= l < m && l < |rows| && rows[l].key == gs[i].name;
    } else {
      assert HasKey(rows, gs[i].name);
      l :| 0 <= l < |rows| && rows[l].key == gs[i].name;
    }
    assert rows'[l] == rows[l];
  }

  /** A key new to the entries occurs only at the end of the extended rows, after every older entry's key. */
  lemma NewKeyOnlyLast<K>(gs: seq<Group<K>>, rows: seq<Row<K>>, row: Row<K>, i: int, m: int)
    requires SameKeys(gs, rows) && !HasName(gs, row.key)
    requires 0 <= i < |gs| && 0 <= m <= |rows| && (rows + [row])[m].key == row.key
    ensures OccursBefore(rows + [row], gs[i].name, m)
  {
    var rows' := rows + [row];
    assert HasKey(rows, gs[i].name);
    var l :| 0 <= l < |rows| && rows[l].key == gs[i].name;
    assert rows'[l] == rows[l];
    if m < |rows| {
      assert false;
    }
  }

  lemma AddRowKeepsTotals<K>(gs: seq<Group<K>>, rows: seq<Row<K>>, row: Row<K>)
    requires Sum(gs, GroupEstimated) == Sum(rows, RowEstimated)
    requires Sum(gs, GroupActual) == Sum(rows, RowActual)
    ensures Sum(AddRow(gs, row), GroupEstimated) == Sum(rows + [row], RowEstimated)
    ensures Sum(AddRow(gs, row), GroupActual) == Sum(rows + [row], RowActual)
  {
    SumConcat(rows, [row], RowEstimated);
    SumConcat(rows, [row], RowActual);
    var i := FindName(gs, row.key);
    if i < |gs| {
      var g := Group(gs[i].name, gs[i].estimated + row.estimated, gs[i].actual + row.actual);
      SumUpdate(gs, i, g, GroupEstimated);
      SumUpdate(gs, i, g, GroupActual);
    } else {
      SumConcat(gs, [Group(row.key, row.estimated, row.actual)], GroupEstimated);
      SumConcat(gs, [Group(row.key, row.estimated, row.actual)], GroupActual);
    }
  }

  /** Replacing one element changes a sum by the difference of the two terms. */
  lemma {:induction false} SumUpdate<T>(s: seq<T>, i: int, x: T, f: T -> int)
    requires 0 <= i < |s|
    ensures Sum(s[i := x], f) == Sum(s, f) - f(s[i]) + f(x)
  {
    if i > 0 {
      assert s[i := x][1..] == s[1..][i - 1 := x];
      SumUpdate(s[1..], i - 1, x, f);
    } else {
      assert s[i := x][1..] == s[1..];
    }
  }

  // ------------------------------------------------------------- the two charts

  /** The entries name exactly the keys of the rows. */
  lemma SameKeysIff<K>(gs: seq<Group<K>>, rows: seq<Row<K>>, k: K)
    requires SameKeys(gs, rows)
    ensures HasName(gs, k) <==> HasKey(rows, k)
  {
    if HasName(gs, k) {
      var i :| 0 <= i < |gs| && gs[i].name == k;
      assert HasKey(rows, gs[i].name);
    }
    if HasKey(rows, k) {
      var j :| 0 <= j < |rows| && rows[j].key == k;
      assert HasName(gs, rows[j].key);
    }
  }

  /** The bar chart's rows: each item's category and both amounts. */
  function CategoryRows(items: seq<BudgetItem>): (rows: seq<Row<string>>)
    ensures |rows| == |items|
    ensures forall i :: 0 <= i < |items| ==> rows[i] == Row(items[i].category, items[i].estimatedAmount, items[i].actualAmount)
  {
    seq(|items|, i requires 0 <= i < |items| => Row(items[i].category, items[i].estimatedAmount, items[i].actualAmount))
  }

  /** The pie chart's rows: each item's status and its actual amount; the estimate is dropped. */
  function StatusRows(items: seq<BudgetItem>): (rows: seq<Row<BudgetStatus>>)
    ensures |rows| == |items|
    ensures forall i :: 0 <= i < |items| ==> rows[i] == Row(items[i].status, 0, items[i].actualAmount)
  {
    seq(|items|, i requires 0 <= i < |items| => Row(items[i].status, 0, items[i].actualAmount))
  }

  ghost predicate HasCategory(items: seq<BudgetItem>, c: string) {
    exists i :: 0 <= i < |items| && items[i].category == c
  }

  ghost predicate HasStatus(items: seq<BudgetItem>, s: BudgetStatus) {
    exists i :: 0 <= i < |items| && items[i].status == s
  }

  function ItemEstimated(item: BudgetItem): int { item.estimatedAmount }

  function ItemActual(item: BudgetItem): int { item.actualAmount }

  /**
   * `categoryData`: one bar per distinct category, in order of first
   * appearance, with the estimated and actual amounts of its items added up;
   * the bars add up to the items' totals.
   */
  function CategoryData(items: seq<BudgetItem>): (gs: seq<Group<string>>)
    ensures DistinctNames(gs)
    ensures forall c :: HasName(gs, c) <==> HasCategory(items, c)
    ensures SumsPerKey(gs, CategoryRows(items))
    ensures FirstAppearanceOrder(gs, CategoryRows(items))
    ensures Sum(gs, GroupEstimated) == Sum(items, ItemEstimated)
    ensures Sum(gs, GroupActual) == Sum(items, ItemActual)
  {
    var rows := CategoryRows(items);
    var gs := GroupRows(rows);
    forall c ensures HasName(gs, c) <==> HasCategory(items, c) {
      SameKeysIff(gs, rows, c);
      if HasKey(rows, c) {
        var i :| 0 <= i < |rows| && rows[i].key == c;
        assert items[i].category == c;
      }
      if HasCategory(items, c) {
        var i :| 0 <= i < |items| && items[i].category == c;
        assert rows[i].key == c;
      }
    }
    SumMapped(items, rows, ItemEstimated, RowEstimated);
    SumMapped(items, rows, ItemActual, RowActual);
    gs
  }

  /** A pie slice: a status and the actual amount spent under it. */
  datatype Slice = Slice(name: BudgetStatus, value: int)

  ghost predicate HasSlice(r: seq<Slice>, s: BudgetStatus) {
    exists i :: 0 <= i < |r| && r[i].name == s
  }

  function SliceValue(s: Slice): int { s.value }

  /** The slices of the grouped rows: each entry's status with its actual amount. */
  function Slices(gs: seq<Group<BudgetStatus>>): (r: seq<Slice>)
    ensures |r| == |gs|
    ensures forall i :: 0 <= i < |gs| ==> r[i] == Slice(gs[i].name, gs[i].actual)
    ensures Sum(r, SliceValue) == Sum(gs, GroupActual)
  {
    var r := seq(|gs|, i requires 0 <= i < |gs| => Slice(gs[i].name, gs[i].actual));
    SumMapped(gs, r, GroupActual, SliceValue);
    r
  }

  /**
   * `statusData`: one slice per distinct status, in order of first
   * appearance, holding the actual amounts of its items added up; estimated
   * amounts play no part, and the slices add up to the items' actual total.
   */
  function StatusData(items: seq<BudgetItem>): (r: seq<Slice>)
    ensures forall i, j :: 0 <= i < j < |r| ==> r[i].name != r[j].name
    ensures forall s :: HasSlice(r, s) <==> HasStatus(items, s)
    ensures forall i :: 0 <= i < |r| ==> r[i].value == KeyActual(StatusRows(items), r[i].name)
    ensures Sum(r, SliceValue) == Sum(items, ItemActual)
  {
    var rows := StatusRows(items);
    var gs := GroupRows(rows);
    var r := Slices(gs);
    StatusSlicesCover(items, gs, r);
    SumMapped(items, rows, ItemActual, RowActual);
    r
  }

  lemma StatusSlicesCover(items: seq<BudgetItem>, gs: seq<Group<BudgetStatus>>, r: seq<Slice>)
    requires SameKeys(gs, StatusRows(items))
    requires |r| == |gs| && forall i :: 0 <= i < |gs| ==> r[i].name == gs[i].name
    ensures forall s :: HasSlice(r, s) <==> HasStatus(items, s)
  {
    var rows := StatusRows(items);
    forall s ensures HasSlice(r, s) <==> HasStatus(items, s) {
      SameKeysIff(gs, rows, s);
      if HasSlice(r, s) {
        var i :| 0 <= i < |r| && r[i].name == s;
        assert gs[i].name == s;
        var j :| 0 <= j < |rows| && rows[j].key == s;
        assert items[j].status == s;
      }
      if HasStatus(items, s) {
        var i :| 0 <= i < |items| && items[i].status == s;
        assert rows[i].key == s;
        var j :| 0 <= j < |gs| && gs[j].name == s;
        assert r[j].name == s;
      }
    }
  }

  /** Two lists whose terms agree position by position have the same sum. */
  lemma {:induction false} SumMapped<A, B>(a: seq<A>, b: seq<B>, f: A -> int, g: B -> int)
    requires |a| == |b|
    requires forall i :: 0 <= i < |a| ==> f(a[i]) == g(b[i])
    ensures Sum(a, f) == Sum(b, g)
  {
    if |a| > 0 {
      SumMapped(a[1..], b[1..], f, g);
    }
  }

  // ------------------------------------------------------------- variance and colours

  /**
   * The "Budget Variance" card: estimated minus actual total, "under budget"
   * when it is not negative, shown as its magnitude.
   */
  function ChartVariance(totalEstimated: int, totalActual: int): (v: Variance)
    ensures v.isPositive <==> totalEstimated - totalActual >= 0
    ensures Signed(v) == totalEstimated - totalActual
  {
    VarianceRoundTrip(totalEstimated, totalActual, totalEstimated, totalActual);
    VarianceOf(totalEstimated, totalActual)
  }

  const Colours: seq<string> := ["#003049", "#780000", "#c1121f", "#669bbc", "#fdf0d5",
                                 "#1f77b4", "#ff7f0e", "#2ca02c", "#d62728", "#9467bd"]

  /** The fill of pie slice `i`: the palette of ten colours, repeated. */
  function SliceColour(i: nat): (c: string)
    ensures c in Colours
    ensures c == Colours[i % 10]
  {
    Colours[i % |Colours|]
  }

  /** The palette repeats every ten slices, and any ten consecutive slices have different colours. */
  lemma SliceColoursCycle(i: nat, j: nat)
    ensures SliceColour(i + 10) == SliceColour(i)
    ensures i < j < i + 10 ==> SliceColour(i) != SliceColour(j)
  {
    assert forall a, b :: 0 <= a < b < 10 ==> Colours[a] != Colours[b];
    if i < j < i + 10 {
      assert i % 10 != j % 10;
    }
  }
}
